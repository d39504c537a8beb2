/** Ticks and insertions act on the pending deadlines exactly as on a flat table. */
module WheelProof {
  import opened Arithmetic
  import opened WheelModel

  // ---------------------------------------------------------------- one row of one tick

  lemma RotateAt(rows: Rows, i: nat, j: nat, b: nat)
    requires i < |rows| && |rows[i]| > 0 && j < |rows| && b < |rows[j]|
    ensures Rotate(rows, i)[j][b] ==
            (if j != i then rows[j][b] else if b + 1 < |rows[i]| then rows[i][b + 1] else {})
            + Inners(rows[i][0], j, b)
  {
  }

  lemma RotateWellFormed(n: nat, rows: Rows, i: nat)
    requires n > 0 && WellFormed(n, rows) && i < |rows|
    ensures WellFormed(n, Rotate(rows, i))
  {
    var rows' := Rotate(rows, i);
    forall j, b, x | 0 <= j < |rows| && 0 <= b < n && x in rows'[j][b]
      ensures Chain(x, j, n)
    {
      RotateAt(rows, i, j, b);
      RowChainsAt(n, rows, i, 0);
      RowChainsAt(n, rows, j, b);
      if j == i && b + 1 < n {
        RowChainsAt(n, rows, i, b + 1);
      }
    }
  }

  lemma RowChainsAt(n: nat, rows: Rows, j: nat, b: nat)
    requires WellFormed(n, rows) && j < |rows| && b < n
    ensures forall x :: x in rows[j][b] ==> Chain(x, j, n)
  {
  }

  /** A rotation shortens the way to the front by one and advances the row's quotient by one. */
  lemma RotatedDrop(n: nat, t: nat, i: nat, b: nat)
    requires n > 0 && (t + 1) % Pow(n, i) == 0
    ensures DropAt(n, t, i, 0) == t + 1
    ensures b > 0 ==> DropAt(n, t + 1, i, b - 1) == DropAt(n, t, i, b)
  {
    QuotientStep(t, Pow(n, i));
  }

  lemma StillDrop(n: nat, t: nat, i: nat, b: nat)
    requires n > 0 && (t + 1) % Pow(n, i) != 0
    ensures DropAt(n, t + 1, i, b) == DropAt(n, t, i, b)
  {
    QuotientStep(t, Pow(n, i));
  }

  /** A callback that dies on tick `t + 1` lands one row down, at the deadline it stood for. */
  lemma CascadedDrop(n: nat, t: nat, i: nat, s: nat)
    requires n > 0 && i > 0 && (t + 1) % Pow(n, i) == 0
    ensures DropAt(n, t + 1, i - 1, s) == t + 1 + (s + 1) * Pow(n, i - 1)
  {
    PowDivides(t + 1, n, i - 1);
    var p := Pow(n, i - 1);
    var q := (t + 1) / p;
    assert t + 1 == q * p;
    assert (q + s + 1) * p == q * p + (s + 1) * p;
  }

  lemma RotateKeeps(n: nat, rows: Rows, t: nat, i: nat, j: nat, b: nat, x: Entry, id: nat, due: nat)
    requires n > 0 && WellFormed(n, rows) && i < |rows| && (t + 1) % Pow(n, i) == 0
    requires DueAt(n, rows, t, i, j, b, x, id, due)
    requires !(i == 0 && j == 0 && b == 0)
    ensures PendingMid(n, Rotate(rows, i), t, i + 1, id, due)
  {
    var rows' := Rotate(rows, i);
    if j != i {
      RotateAt(rows, i, j, b);
      assert DueAt(n, rows', t, i + 1, j, b, x, id, due);
    } else if b > 0 {
      RotateAt(rows, i, i, b - 1);
      RotatedDrop(n, t, i, b);
      assert DueAt(n, rows', t, i + 1, i, b - 1, x, id, due);
    } else {
      RowChainsAt(n, rows, i, 0);
      RotateAt(rows, i, x.level, x.slot);
      RotatedDrop(n, t, i, 0);
      CascadedDrop(n, t, i, x.slot);
      assert x.inner in Inners(rows[i][0], x.level, x.slot);
      assert DueAt(n, rows', t, i + 1, i - 1, x.slot, x.inner, id, due);
    }
  }

  lemma RotateAddsNothing(n: nat, rows: Rows, t: nat, i: nat, j: nat, b: nat, x: Entry, id: nat, due: nat)
    requires n > 0 && WellFormed(n, rows) && i < |rows| && (t + 1) % Pow(n, i) == 0
    requires DueAt(n, Rotate(rows, i), t, i + 1, j, b, x, id, due)
    ensures exists j', b', x' :: !(i == 0 && j' == 0 && b' == 0) && DueAt(n, rows, t, i, j', b', x', id, due)
  {
    RotateAt(rows, i, j, b);
    RowChainsAt(n, rows, i, 0);
    if x in Inners(rows[i][0], j, b) {
      var y :| y in rows[i][0] && y.Callback? && y.level == j && y.slot == b && y.inner == x;
      RotatedDrop(n, t, i, 0);
      CascadedDrop(n, t, i, b);
      assert DueAt(n, rows, t, i, i, 0, y, id, due);
    } else if j == i {
      RotatedDrop(n, t, i, b + 1);
      assert DueAt(n, rows, t, i, i, b + 1, x, id, due);
    } else {
      assert DueAt(n, rows, t, i, j, b, x, id, due);
    }
  }

  lemma SkipRow(n: nat, rows: Rows, t: nat, i: nat, id: nat, due: nat)
    requires n > 0 && (t + 1) % Pow(n, i) != 0
    ensures PendingMid(n, rows, t, i, id, due) <==> PendingMid(n, rows, t, i + 1, id, due)
  {
    if PendingMid(n, rows, t, i, id, due) {
      var j, b, x :| DueAt(n, rows, t, i, j, b, x, id, due);
      StillDrop(n, t, i, b);
      assert DueAt(n, rows, t, i + 1, j, b, x, id, due);
    }
    if PendingMid(n, rows, t, i + 1, id, due) {
      var j, b, x :| DueAt(n, rows, t, i + 1, j, b, x, id, due);
      StillDrop(n, t, i, b);
      assert DueAt(n, rows, t, i, j, b, x, id, due);
    }
  }

  /** Above row 0 nothing is lost and nothing is gained. */
  lemma UpperRow(n: nat, rows: Rows, t: nat, i: nat, id: nat, due: nat)
    requires n > 0 && WellFormed(n, rows) && 0 < i < |rows|
    ensures var rows' := if (t + 1) % Pow(n, i) == 0 then Rotate(rows, i) else rows;
            PendingMid(n, rows, t, i, id, due) <==> PendingMid(n, rows', t, i + 1, id, due)
  {
    if (t + 1) % Pow(n, i) != 0 {
      SkipRow(n, rows, t, i, id, due);
    } else {
      if PendingMid(n, rows, t, i, id, due) {
        var j, b, x :| DueAt(n, rows, t, i, j, b, x, id, due);
        RotateKeeps(n, rows, t, i, j, b, x, id, due);
      }
      if PendingMid(n, Rotate(rows, i), t, i + 1, id, due) {
        var j, b, x :| DueAt(n, Rotate(rows, i), t, i + 1, j, b, x, id, due);
        RotateAddsNothing(n, rows, t, i, j, b, x, id, due);
      }
    }
  }

  lemma UpperRows(n: nat, rows: Rows, t: nat, i: nat, id: nat, due: nat)
    requires n > 0 && WellFormed(n, rows) && 0 < i <= |rows|
    ensures WellFormed(n, TickFrom(n, rows, t + 1, i))
    ensures PendingMid(n, rows, t, i, id, due) <==>
            PendingMid(n, TickFrom(n, rows, t + 1, i), t, |rows|, id, due)
    decreases |rows| - i
  {
    if i < |rows| {
      UpperRow(n, rows, t, i, id, due);
      RotateWellFormed(n, rows, i);
      var rows' := if (t + 1) % Pow(n, i) == 0 then Rotate(rows, i) else rows;
      UpperRows(n, rows', t, i + 1, id, due);
    }
  }

  /** Before a tick, only the front bucket of row 0 is due on that tick; nothing is overdue. */
  lemma DueLater(n: nat, rows: Rows, t: nat, j: nat, b: nat, x: Entry, id: nat, due: nat)
    requires n > 0 && WellFormed(n, rows) && DueAt(n, rows, t, 0, j, b, x, id, due)
    ensures due >= t + 1
    ensures due == t + 1 <==> j == 0 && b == 0
  {
    RowChainsAt(n, rows, j, b);
    var p := Pow(n, j);
    var q := t / p;
    assert t == q * p + t % p;
    assert (q + 1) * p == q * p + p;
    MulMonotone(q + 1, q + b + 1, p);
    if j > 0 {
      OffsetPositive(x, n);
    }
  }

  /** When every row has had its turn, all of them count the new tick. */
  lemma TickDone(n: nat, rows: Rows, t: nat, id: nat, due: nat)
    requires n > 0
    ensures PendingMid(n, rows, t + 1, 0, id, due) <==> PendingMid(n, rows, t, |rows|, id, due)
  {
    if PendingMid(n, rows, t + 1, 0, id, due) {
      var j, b, x :| DueAt(n, rows, t + 1, 0, j, b, x, id, due);
      assert DueAt(n, rows, t, |rows|, j, b, x, id, due);
    }
    if PendingMid(n, rows, t, |rows|, id, due) {
      var j, b, x :| DueAt(n, rows, t, |rows|, j, b, x, id, due);
      assert DueAt(n, rows, t + 1, 0, j, b, x, id, due);
    }
  }

  /** Row 0 turns on every tick and drops exactly what is due on it. */
  lemma RowZero(n: nat, rows: Rows, t: nat, id: nat, due: nat)
    requires n > 1 && WellFormed(n, rows) && |rows| >= 1
    ensures PendingMid(n, Rotate(rows, 0), t, 1, id, due) <==> PendingMid(n, rows, t, 0, id, due) && due > t + 1
  {
    var rows1 := Rotate(rows, 0);
    assert Pow(n, 0) == 1 && (t + 1) % 1 == 0;
    if PendingMid(n, rows, t, 0, id, due) && due > t + 1 {
      var j, b, x :| DueAt(n, rows, t, 0, j, b, x, id, due);
      DueLater(n, rows, t, j, b, x, id, due);
      RotateKeeps(n, rows, t, 0, j, b, x, id, due);
    }
    if PendingMid(n, rows1, t, 1, id, due) {
      var j, b, x :| DueAt(n, rows1, t, 1, j, b, x, id, due);
      RotateAddsNothing(n, rows, t, 0, j, b, x, id, due);
      var j', b', x' :| !(j' == 0 && b' == 0) && DueAt(n, rows, t, 0, j', b', x', id, due);
      DueLater(n, rows, t, j', b', x', id, due);
    }
  }

  /** One tick: the pending deadlines are those of before, less the ones that fell on it. */
  lemma TickPending(w: Wheel, id: nat, due: nat)
    requires Valid(w)
    ensures Valid(Tick(w))
    ensures Pending(Tick(w), id, due) <==> Pending(w, id, due) && due > w.ticks + 1
  {
    var n, rows, t := w.n, w.rows, w.ticks;
    assert Pow(n, 0) == 1 && (t + 1) % 1 == 0;
    RotateWellFormed(n, rows, 0);
    RowZero(n, rows, t, id, due);
    UpperRows(n, Rotate(rows, 0), t, 1, id, due);
    TickDone(n, Tick(w).rows, t, id, due);
  }

  // ---------------------------------------------------------------- insertion

  /** The delay in units of the row that finally stores the entry, `k` rows up at most. */
  function LevelDelay(n: nat, t: nat, d: nat, k: nat): nat
    requires n > 0 && d >= 1
    decreases k
  {
    if d <= n || k == 0 then
      d
    else
      NextDelayPositive(n, d, t);
      LevelDelay(n, t / n, NextDelay(n, d, t), k - 1)
  }

  /** By how many ticks the clamp in the last row shortens a delay. */
  function Shortfall(n: nat, t: nat, d: nat, wheels: nat): nat
    requires n > 0 && d >= 1 && wheels >= 1
  {
    var top := LevelDelay(n, t, d, wheels - 1);
    if top <= n then 0 else (top - n) * Pow(n, wheels - 1)
  }

  lemma PutPending(n: nat, rows: Rows, t: nat, i: nat, s: nat, x: Entry, id: nat, due: nat)
    requires n > 0 && WellFormed(n, rows) && i < |rows| && s < n && Chain(x, i, n)
    ensures WellFormed(n, PutAt(rows, i, s, x))
    ensures PendingMid(n, PutAt(rows, i, s, x), t, 0, id, due) <==>
            PendingMid(n, rows, t, 0, id, due) || (id == Owner(x) && due == DropAt(n, t, i, s) + Offset(x, n))
  {
    var rows' := PutAt(rows, i, s, x);
    assert forall j, b :: 0 <= j < |rows| && 0 <= b < n ==>
      rows'[j][b] == if j == i && b == s then rows[j][b] + {x} else rows[j][b];
    forall j, b, y | 0 <= j < |rows| && 0 <= b < n && y in rows'[j][b]
      ensures Chain(y, j, n)
    {
      RowChainsAt(n, rows, j, b);
    }
    if PendingMid(n, rows, t, 0, id, due) {
      var j, b, y :| DueAt(n, rows, t, 0, j, b, y, id, due);
      assert DueAt(n, rows', t, 0, j, b, y, id, due);
    }
    if id == Owner(x) && due == DropAt(n, t, i, s) + Offset(x, n) {
      assert DueAt(n, rows', t, 0, i, s, x, id, due);
    }
    if PendingMid(n, rows', t, 0, id, due) {
      var j, b, y :| DueAt(n, rows', t, 0, j, b, y, id, due);
      assert DueAt(n, rows, t, 0, j, b, y, id, due) || (j == i && b == s && y == x);
    }
  }

  lemma LevelStepScaled(n: nat, d: nat, t: nat, i: nat)
    requires n > 0 && d >= 1
    ensures (t / n + NextDelay(n, d, t)) * Pow(n, i + 1) + (NextSlot(n, d, t) + 1) * Pow(n, i) == (t + d) * Pow(n, i)
  {
    LevelStep(n, d, t);
    Regroup(t / n + NextDelay(n, d, t), n, NextSlot(n, d, t) + 1, Pow(n, i));
  }

  /** The entry enters the pending table at the tick asked for, less the clamp's shortfall. */
  lemma {:induction false} InsertFromPending(n: nat, rows: Rows, handles: nat, i: nat, d: nat, t: nat, x: Entry,
                                             T: nat, id: nat, due: nat)
    requires n > 0 && WellFormed(n, rows) && i < |rows| && d >= 1
    requires Chain(x, i, n) && t == T / Pow(n, i)
    ensures var rows' := InsertFrom(n, rows, handles, i, d, t, x).0;
            && |rows'| == |rows| && WellFormed(n, rows')
            && var top := LevelDelay(n, t, d, |rows| - 1 - i);
               var short := if top <= n then 0 else (top - n) * Pow(n, |rows| - 1);
               && (PendingMid(n, rows', T, 0, id, due) <==>
                   PendingMid(n, rows, T, 0, id, due) ||
                   (id == Owner(x) && due == (t + d) * Pow(n, i) + Offset(x, n) - short))
    decreases |rows| - i
  {
    if d <= n {
      PutPending(n, rows, T, i, d - 1, x, id, due);
    } else if i < |rows| - 1 {
      NextDelayPositive(n, d, t);
      DivPow(T, n, i);
      var y := Callback(handles, i, NextSlot(n, d, t), x);
      LevelStepScaled(n, d, t, i);
      InsertFromPending(n, rows, handles + 1, i + 1, NextDelay(n, d, t), t / n, y, T, id, due);
    } else {
      PutPending(n, rows, T, i, n - 1, x, id, due);
      assert (t + d) * Pow(n, i) == (t + n) * Pow(n, i) + (d - n) * Pow(n, i);
    }
  }

  lemma InsertPending(w: Wheel, e: nat, d: nat, id: nat, due: nat)
    requires Valid(w) && d >= 1
    ensures Valid(Insert(w, e, d)) && Insert(w, e, d).n == w.n && Insert(w, e, d).ticks == w.ticks
    ensures |Insert(w, e, d).rows| == |w.rows|
    ensures Pending(Insert(w, e, d), id, due) <==>
            Pending(w, id, due) || (id == e && due == w.ticks + d - Shortfall(w.n, w.ticks, d, |w.rows|))
  {
    assert Pow(w.n, 0) == 1;
    InsertFromPending(w.n, w.rows, w.handles, 0, d, w.ticks, User(e), w.ticks, id, due);
  }
}
