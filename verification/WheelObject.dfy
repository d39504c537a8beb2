/** The timing wheel as the object of the source: fields updated in place by its loops. */
module WheelObject {
  import opened Arithmetic
  import opened WheelModel
  import opened WheelProof
  import opened WheelRuns

  /** The entries with a reference left anywhere in the rows. */
  function Owners(rows: Rows): set<nat> {
    set j, b, x | 0 <= j < |rows| && 0 <= b < |rows[j]| && x in rows[j][b] :: Owner(x)
  }

  /** Every callback in `bucket` is aimed at a bucket that exists. */
  ghost predicate Aimed(rows: Rows, bucket: Bucket) {
    forall x :: x in bucket && x.Callback? ==> x.level < |rows| && x.slot < |rows[x.level]|
  }

  lemma RunNone(rows: Rows)
    ensures RunCallbacks(rows, {}) == rows
  {
    var r := RunCallbacks(rows, {});
    forall l | 0 <= l < |rows|
      ensures r[l] == rows[l]
    {
      assert forall s :: 0 <= s < |rows[l]| ==> r[l][s] == rows[l][s] + Inners({}, l, s) == rows[l][s];
    }
  }

  lemma RunOneMore(rows: Rows, done: Bucket, x: Entry)
    requires Aimed(rows, {x})
    ensures RunCallbacks(rows, done + {x}) ==
            if x.Callback? then PutAt(RunCallbacks(rows, done), x.level, x.slot, x.inner) else RunCallbacks(rows, done)
  {
    var a, b := RunCallbacks(rows, done + {x}), RunCallbacks(rows, done);
    var c := if x.Callback? then PutAt(b, x.level, x.slot, x.inner) else b;
    forall l, s | 0 <= l < |rows| && 0 <= s < |rows[l]|
      ensures a[l][s] == c[l][s]
    {
      assert Inners(done + {x}, l, s) ==
             Inners(done, l, s) + if x.Callback? && x.level == l && x.slot == s then {x.inner} else {};
    }
    assert forall l :: 0 <= l < |rows| ==> a[l] == c[l];
  }

  lemma ChainsAimed(n: nat, rows: Rows, bucket: Bucket, j: nat)
    requires forall x :: x in bucket ==> Chain(x, j, n)
    requires j > 0 ==> j - 1 < |rows| && |rows[j - 1]| == n
    ensures Aimed(rows, bucket)
  {
  }

  lemma WrapOnce(n: nat, rows: Rows, handles: nat, i: nat, d: nat, t: nat, x: Entry)
    requires n > 1 && WellFormed(n, rows) && i < |rows| - 1 && d > n
    ensures NextDelay(n, d, t) >= 1 && t / n >= 0
    ensures InsertFrom(n, rows, handles, i, d, t, x) ==
            InsertFrom(n, rows, handles + 1, i + 1, NextDelay(n, d, t), t / n,
                       Callback(handles, i, NextSlot(n, d, t), x))
  {
  }

  class TimingWheel {
    var n: nat
    var rows: Rows
    var ticks: nat
    var handles: nat

    ghost function View(): Wheel
      reads this
    {
      Wheel(n, rows, ticks, handles)
    }

    constructor (maxTicks: nat, buckets: nat)
      requires buckets > 1
      ensures LeastRows(buckets, maxTicks, |rows|)
      ensures View() == Empty(buckets, |rows|) && Valid(View())
    {
      var ticksNum, wheels := buckets, 1;
      PowOne(buckets);
      while maxTicks > ticksNum
        invariant ticksNum == Pow(buckets, wheels) && ticksNum > 0
        invariant wheels > 1 ==> Pow(buckets, wheels - 1) < maxTicks
        invariant wheels >= 1
        decreases maxTicks - ticksNum
      {
        wheels := wheels + 1;
        MulMonotone(2, buckets, ticksNum);
        ticksNum := ticksNum * buckets;
      }
      n, rows, ticks, handles := buckets, seq(wheels, _ => seq(buckets, _ => {})), 0, 0;
    }

    /** The destructors of the pointers in a bucket, in any order. */
    method DestroyBucket(bucket: Bucket)
      requires Aimed(rows, bucket)
      modifies this`rows
      ensures rows == RunCallbacks(old(rows), bucket)
    {
      var rest := bucket;
      RunNone(rows);
      assert bucket - rest == {};
      while rest != {}
        invariant rest <= bucket
        invariant rows == RunCallbacks(old(rows), bucket - rest)
        decreases rest
      {
        var x :| x in rest;
        RunOneMore(old(rows), bucket - rest, x);
        assert bucket - (rest - {x}) == bucket - rest + {x};
        match x {
          case User(_) =>
          case Callback(_, level, slot, inner) =>
            rows := PutAt(rows, level, slot, inner);
        }
        rest := rest - {x};
      }
      assert bucket - rest == bucket;
    }

    /** One row's turn: the front bucket is swapped out, the row shifts, the bucket dies. */
    method RotateRow(i: nat)
      requires n > 0 && WellFormed(n, rows) && i < |rows|
      modifies this`rows
      ensures rows == Rotate(old(rows), i)
    {
      RowChainsAt(n, rows, i, 0);
      var tmp := rows[i][0];
      rows := rows[i := rows[i][1..] + [{}]];
      ChainsAimed(n, rows, tmp, i);
      DestroyBucket(tmp);
    }

    /** The tick lambda. `released` are the entries whose last reference went away. */
    method Turn() returns (released: set<nat>)
      requires Valid(View())
      modifies this
      ensures Valid(View()) && View() == Tick(old(View()))
      ensures forall id :: id in released <==> Held(old(View()), id) && !Held(View(), id)
    {
      var before := rows;
      ticks := ticks + 1;
      var pow := 1;
      for i := 0 to |rows|
        invariant n == old(n) && handles == old(handles) && ticks == old(ticks) + 1
        invariant |rows| == |old(rows)| && WellFormed(n, rows) && pow == Pow(n, i)
        invariant TickFrom(n, rows, ticks, i) == TickFrom(n, old(rows), ticks, 0)
      {
        if ticks % pow == 0 {
          RotateWellFormed(n, rows, i);
          RotateRow(i);
        }
        pow := n * pow;
      }
      released := Owners(before) - Owners(rows);
      OwnersHeld(old(View()));
      OwnersHeld(View());
    }

    /** `insertEntryInloop`, with the delay counted in ticks. */
    method InsertEntry(delay: nat, id: nat)
      requires Valid(View())
      modifies this
      ensures Valid(View()) && View() == Insert(old(View()), id, delay + 1)
    {
      var d: nat, t: nat, x := delay + 1, ticks, User(id);
      InsertPending(View(), id, delay + 1, 0, 0);
      ghost var after := Insert(View(), id, delay + 1);
      var i := 0;
      while i < |rows|
        invariant n == old(n) && ticks == old(ticks) && rows == old(rows)
        invariant i < |rows| && d >= 1
        invariant InsertFrom(n, rows, handles, i, d, t, x) == (after.rows, after.handles)
        decreases |rows| - i
      {
        if d <= n {
          rows := PutAt(rows, i, d - 1, x);
          break;
        }
        if i < |rows| - 1 {
          WrapOnce(n, rows, handles, i, d, t, x);
          x := Callback(handles, i, NextSlot(n, d, t), x);
          handles := handles + 1;
        } else {
          rows := PutAt(rows, i, n - 1, x);
          break;
        }
        d, t, i := NextDelay(n, d, t), t / n, i + 1;
      }
    }

    /** One bucket of row `j` dies while the rows from `j` up are cleared already. */
    method ClearBucket(bucket: Bucket, j: nat)
      requires j < |rows| && WellFormed(n, rows[..j]) && forall k :: j <= k < |rows| ==> rows[k] == []
      requires forall x :: x in bucket ==> Chain(x, j, n)
      modifies this`rows
      ensures |rows| == |old(rows)| && WellFormed(n, rows[..j]) && forall k :: j <= k < |rows| ==> rows[k] == []
      ensures j > 0 ==> Owners(rows) == Owners(old(rows)) + OwnersOf(bucket)
    {
      ChainsAimed(n, rows, bucket, j);
      ClearedBucket(n, rows, bucket, j);
      if j > 0 {
        InnersKeepOwners(rows, bucket);
      }
      DestroyBucket(bucket);
    }

    /** `clear()` on row `j`, whose buckets die one after the other. Above row 0 every entry
        moves one row down; the bucket it moves to exists, since no lower row is cleared yet. */
    method ClearRow(j: nat) returns (released: set<nat>)
      requires j < |rows| && WellFormed(n, rows[..j]) && |rows[j]| == n && RowChains(rows[j], j, n)
      requires forall k :: j < k < |rows| ==> rows[k] == []
      modifies this`rows
      ensures |rows| == |old(rows)| && WellFormed(n, rows[..j]) && forall k :: j <= k < |rows| ==> rows[k] == []
      ensures released == Owners(old(rows)) - Owners(rows)
      ensures j > 0 ==> released == {} && Owners(rows) == Owners(old(rows))
    {
      var row := rows[j];
      ghost var before := Owners(rows);
      OwnersOfRow(rows, j);
      var alive := Owners(rows);
      rows := rows[j := []];
      assert row[0..] == row;
      for b := 0 to |row|
        invariant |rows| == |old(rows)| && WellFormed(n, rows[..j])
        invariant forall k :: j <= k < |rows| ==> rows[k] == []
        invariant j > 0 ==> Owners(rows) + OwnersIn(row[b..]) == before
      {
        assert forall x :: x in row[b] ==> Chain(x, j, n);
        OwnersInSplit(row, b);
        ClearBucket(row[b], j);
      }
      assert OwnersIn(row[|row|..]) == {};
      released := alive - Owners(rows);
    }

    /** The destructor: the rows are cleared from the top one down. `released[j]` are the entries
        that die while row `j` is cleared: all of them with row 0, none before. */
    method Destroy() returns (released: seq<set<nat>>)
      requires Valid(View())
      modifies this
      ensures |rows| == |old(rows)| && forall j :: 0 <= j < |rows| ==> rows[j] == []
      ensures |released| == |rows| && released[0] == Owners(old(rows))
      ensures forall j :: 0 < j < |rows| ==> released[j] == {}
    {
      ghost var before := Owners(rows);
      released := [];
      for j := |rows| downto 0
        invariant n == old(n) && |rows| == |old(rows)| && |released| == |rows| - j
        invariant j > 0 ==> WellFormed(n, rows[..j]) && Owners(rows) == before
        invariant forall k :: j <= k < |rows| ==> rows[k] == []
        invariant forall k :: 0 <= k < |released| && k + j > 0 ==> released[k] == {}
        invariant j == 0 ==> |released| > 0 && released[0] == before
      {
        assert RowChains(rows[..j + 1][j], j, n) && |rows[..j + 1][j]| == n;
        assert rows[..j] == rows[..j + 1][..j];
        var gone := ClearRow(j);
        released := [gone] + released;
        if j == 0 {
          NothingOwned(rows);
        }
      }
    }
  }

  function OwnersOf(bucket: Bucket): set<nat> {
    set x | x in bucket :: Owner(x)
  }

  function OwnersIn(row: seq<Bucket>): set<nat> {
    set b, x | 0 <= b < |row| && x in row[b] :: Owner(x)
  }

  lemma OwnersInSplit(row: seq<Bucket>, b: nat)
    requires b < |row|
    ensures OwnersIn(row[b..]) == OwnersOf(row[b]) + OwnersIn(row[b + 1..])
  {
  }

  lemma OwnersOfRow(rows: Rows, j: nat)
    requires j < |rows|
    ensures Owners(rows) == Owners(rows[j := []]) + OwnersIn(rows[j])
  {
    var without := rows[j := []];
    forall id ensures id in Owners(rows) <==> id in Owners(without) + OwnersIn(rows[j]) {
      if id in Owners(rows) {
        var k, b, x :| 0 <= k < |rows| && 0 <= b < |rows[k]| && x in rows[k][b] && Owner(x) == id;
        assert k != j ==> without[k] == rows[k];
      }
      if id in Owners(without) {
        var k, b, x :| 0 <= k < |without| && 0 <= b < |without[k]| && x in without[k][b] && Owner(x) == id;
        assert k != j && without[k] == rows[k];
      }
    }
  }

  /** When every pointer in a bucket is a callback, destroying the bucket loses no entry. */
  lemma InnersKeepOwners(rows: Rows, bucket: Bucket)
    requires Aimed(rows, bucket) && forall x :: x in bucket ==> x.Callback?
    ensures Owners(RunCallbacks(rows, bucket)) == Owners(rows) + OwnersOf(bucket)
  {
    var after := RunCallbacks(rows, bucket);
    forall id ensures id in Owners(after) <==> id in Owners(rows) + OwnersOf(bucket) {
      if id in Owners(after) {
        var k, b, y :| 0 <= k < |after| && 0 <= b < |after[k]| && y in after[k][b] && Owner(y) == id;
        if y !in rows[k][b] {
          var x :| x in bucket && x.Callback? && x.level == k && x.slot == b && x.inner == y;
          assert Owner(x) == id && id in OwnersOf(bucket);
        }
      }
      if id in Owners(rows) {
        var k, b, y :| 0 <= k < |rows| && 0 <= b < |rows[k]| && y in rows[k][b] && Owner(y) == id;
        assert y in after[k][b];
      }
      if id in OwnersOf(bucket) {
        var x :| x in bucket && Owner(x) == id;
        assert x.inner in Inners(bucket, x.level, x.slot);
        assert x.inner in after[x.level][x.slot] && Owner(x.inner) == id;
      }
    }
  }

  lemma NothingOwned(rows: Rows)
    requires forall k :: 0 <= k < |rows| ==> rows[k] == []
    ensures Owners(rows) == {}
  {
  }

  lemma OwnersHeld(w: Wheel)
    ensures forall id :: id in Owners(w.rows) <==> Held(w, id)
  {
    forall id
      ensures id in Owners(w.rows) <==> Held(w, id)
    {
      if id in Owners(w.rows) {
        var j, b, x :| 0 <= j < |w.rows| && 0 <= b < |w.rows[j]| && x in w.rows[j][b] && Owner(x) == id;
        assert Holds(w.rows, j, b, x);
      }
    }
  }

  /** Destroying a bucket of row `j` leaves the rows below well formed and touches no other. */
  lemma ClearedBucket(n: nat, rows: Rows, bucket: Bucket, j: nat)
    requires j < |rows| && WellFormed(n, rows[..j]) && forall x :: x in bucket ==> Chain(x, j, n)
    requires forall k :: j <= k < |rows| ==> rows[k] == []
    ensures WellFormed(n, RunCallbacks(rows, bucket)[..j])
    ensures forall k :: j <= k < |rows| ==> RunCallbacks(rows, bucket)[k] == []
  {
  }
}
