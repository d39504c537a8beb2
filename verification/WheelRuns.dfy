/** Whole runs of the timing wheel against a flat table of deadlines, and its capacity. */
module WheelRuns {
  import opened Arithmetic
  import opened WheelModel
  import opened WheelProof

  /** `Add` is an insertion with its delay in ticks, after the `+ 1` of the source. */
  datatype Op = Add(id: nat, delay: nat) | Turn

  /** The reference: every live entry has one deadline, the latest granted to it. */
  datatype Flat = Flat(now: nat, deadline: map<nat, nat>)

  predicate Legal(ops: seq<Op>) {
    forall k :: 0 <= k < |ops| && ops[k].Add? ==> ops[k].delay >= 1
  }

  function Ticks(ops: seq<Op>): nat {
    if ops == [] then 0 else Ticks(ops[..|ops| - 1]) + if ops[|ops| - 1].Turn? then 1 else 0
  }

  /** The wheel after a run that starts from an empty wheel. */
  ghost function Run(n: nat, wheels: nat, ops: seq<Op>): (w: Wheel)
    requires n > 1 && wheels >= 1 && Legal(ops)
    ensures Valid(w) && w.n == n && |w.rows| == wheels && w.ticks == Ticks(ops)
  {
    if ops == [] then
      Empty(n, wheels)
    else
      var w := Run(n, wheels, ops[..|ops| - 1]);
      match ops[|ops| - 1]
      case Turn =>
        TickPending(w, 0, 0);
        Tick(w)
      case Add(id, d) =>
        InsertPending(w, id, d, 0, 0);
        Insert(w, id, d)
  }

  function Max(a: nat, b: nat): nat {
    if a < b then b else a
  }

  function FlatAdd(f: Flat, id: nat, due: nat): Flat {
    f.(deadline := f.deadline[id := if id in f.deadline then Max(f.deadline[id], due) else due])
  }

  function FlatTick(f: Flat): Flat {
    Flat(f.now + 1, map id | id in f.deadline && f.deadline[id] > f.now + 1 :: f.deadline[id])
  }

  /** The tick an insertion at counter `t` is good until. */
  function Until(n: nat, wheels: nat, t: nat, d: nat): int
    requires n > 0 && wheels >= 1 && d >= 1
  {
    t + d - Shortfall(n, t, d, wheels)
  }

  ghost predicate Refines(w: Wheel, f: Flat)
    requires w.n > 0
  {
    && f.now == w.ticks
    && (forall id :: id in f.deadline ==> f.deadline[id] > f.now && Pending(w, id, f.deadline[id]))
    && (forall id, due :: Pending(w, id, due) ==> id in f.deadline && due <= f.deadline[id])
  }

  /** An insertion is never dropped at once and never held longer than asked. */
  lemma UntilLater(w: Wheel, id: nat, d: nat)
    requires Valid(w) && d >= 1
    ensures w.ticks < Until(w.n, |w.rows|, w.ticks, d) <= w.ticks + d
  {
    ClampLeavesATick(w.n, w.ticks, d, |w.rows| - 1);
  }

  /** The clamp only shortens, and leaves at least one tick. */
  lemma {:induction false} ClampLeavesATick(n: nat, t: nat, d: nat, k: nat)
    requires n > 1 && d >= 1
    ensures LevelDelay(n, t, d, k) > n ==> (LevelDelay(n, t, d, k) - n) * Pow(n, k) < d
    decreases k
  {
    if d > n && k > 0 {
      NextDelayPositive(n, d, t);
      var d1 := NextDelay(n, d, t);
      ClampLeavesATick(n, t / n, d1, k - 1);
      var top := LevelDelay(n, t, d, k);
      if top > n {
        ScaleBelow(n, top - n, Pow(n, k - 1), d, d1, t);
      }
    }
  }

  lemma ScaleBelow(n: nat, c: nat, p: nat, d: nat, d1: nat, t: nat)
    requires n > 1 && d >= 1 && d1 == NextDelay(n, d, t) && c * p < d1
    ensures c * (n * p) < d
  {
    var m := c * p;
    assert c * (n * p) == m * n;
    MulMonotone(m + 1, d1, n);
    assert (m + 1) * n == m * n + n;
    NextDelayTimes(n, d, t);
  }

  lemma NextDelayTimes(n: nat, d: nat, t: nat)
    requires n > 1 && d >= 1
    ensures NextDelay(n, d, t) * n <= d + n - 2
  {
  }

  lemma RefinesTick(w: Wheel, f: Flat)
    requires Valid(w) && Refines(w, f)
    ensures Valid(Tick(w)) && Refines(Tick(w), FlatTick(f))
  {
    TickPending(w, 0, 0);
    var w', f' := Tick(w), FlatTick(f);
    forall id | id in f'.deadline
      ensures f'.deadline[id] > f'.now && Pending(w', id, f'.deadline[id])
    {
      TickPending(w, id, f'.deadline[id]);
    }
    forall id, due | Pending(w', id, due)
      ensures id in f'.deadline && due <= f'.deadline[id]
    {
      TickPending(w, id, due);
    }
  }

  lemma RefinesAdd(w: Wheel, f: Flat, e: nat, d: nat)
    requires Valid(w) && Refines(w, f) && d >= 1
    ensures Until(w.n, |w.rows|, w.ticks, d) > 0
    ensures Valid(Insert(w, e, d))
    ensures Refines(Insert(w, e, d), FlatAdd(f, e, Until(w.n, |w.rows|, w.ticks, d)))
  {
    UntilLater(w, e, d);
    InsertPending(w, e, d, 0, 0);
    var due := Until(w.n, |w.rows|, w.ticks, d);
    var w', f' := Insert(w, e, d), FlatAdd(f, e, due);
    forall id | id in f'.deadline
      ensures f'.deadline[id] > f'.now && Pending(w', id, f'.deadline[id])
    {
      InsertPending(w, e, d, id, f'.deadline[id]);
    }
    forall id, due' | Pending(w', id, due')
      ensures id in f'.deadline && due' <= f'.deadline[id]
    {
      InsertPending(w, e, d, id, due');
    }
  }

  ghost function FlatRun(n: nat, wheels: nat, ops: seq<Op>): (f: Flat)
    requires n > 1 && wheels >= 1 && Legal(ops)
    ensures f.now == Ticks(ops)
  {
    if ops == [] then
      Flat(0, map[])
    else
      var f := FlatRun(n, wheels, ops[..|ops| - 1]);
      match ops[|ops| - 1]
      case Turn => FlatTick(f)
      case Add(id, d) =>
        UntilLater(Run(n, wheels, ops[..|ops| - 1]), id, d);
        FlatAdd(f, id, Until(n, wheels, f.now, d))
  }

  /** The cascading rows are, after every run, one table from entry to deadline. */
  lemma {:induction false} WheelRefinesFlat(n: nat, wheels: nat, ops: seq<Op>)
    requires n > 1 && wheels >= 1 && Legal(ops)
    ensures Refines(Run(n, wheels, ops), FlatRun(n, wheels, ops))
  {
    if ops == [] {
    } else {
      var before := ops[..|ops| - 1];
      WheelRefinesFlat(n, wheels, before);
      var w, f := Run(n, wheels, before), FlatRun(n, wheels, before);
      match ops[|ops| - 1]
      case Turn => RefinesTick(w, f);
      case Add(id, d) => RefinesAdd(w, f, id, d);
    }
  }

  // ---------------------------------------------------------------- in the caller's terms

  /** Every delay asked for `id` in the run fits the wheel, so its entry never meets the clamp. */
  ghost predicate Fits(n: nat, wheels: nat, ops: seq<Op>, id: nat)
    requires n > 1 && wheels >= 1 && Legal(ops)
  {
    forall k :: 0 <= k < |ops| && ops[k].Add? && ops[k].id == id ==>
      LevelDelay(n, Ticks(ops[..k]), ops[k].delay, wheels - 1) <= n
  }

  /** The largest `T + D` over the insertions of `id`, or 0 if there is none. */
  function LastDeadline(ops: seq<Op>, id: nat): nat {
    if ops == [] then
      0
    else
      var before := ops[..|ops| - 1];
      match ops[|ops| - 1]
      case Turn => LastDeadline(before, id)
      case Add(e, d) =>
        if e == id then Max(LastDeadline(before, id), Ticks(before) + d) else LastDeadline(before, id)
  }

  lemma {:induction false} FlatIsLastDeadline(n: nat, wheels: nat, ops: seq<Op>, id: nat)
    requires n > 1 && wheels >= 1 && Legal(ops) && Fits(n, wheels, ops, id)
    ensures var f := FlatRun(n, wheels, ops);
            && (id in f.deadline <==> LastDeadline(ops, id) > f.now)
            && (id in f.deadline ==> f.deadline[id] == LastDeadline(ops, id))
  {
    if ops == [] {
    } else {
      var before := ops[..|ops| - 1];
      assert forall k :: 0 <= k < |before| ==> before[..k] == ops[..k];
      FlatIsLastDeadline(n, wheels, before, id);
    }
  }

  lemma HeldIffPending(w: Wheel, id: nat)
    requires w.n > 0
    ensures Held(w, id) <==> exists due :: Pending(w, id, due)
  {
    if Held(w, id) {
      var j, b, x :| Holds(w.rows, j, b, x) && Owner(x) == id;
      var due := DropAt(w.n, w.ticks, j, b) + Offset(x, w.n);
      assert DueAt(w.n, w.rows, w.ticks, 0, j, b, x, id, due);
      assert Pending(w, id, due);
    }
    if exists due :: Pending(w, id, due) {
      var due :| Pending(w, id, due);
      var j, b, x :| DueAt(w.n, w.rows, w.ticks, 0, j, b, x, id, due);
    }
  }

  /** An entry is alive exactly while the largest `T + D` of its insertions is ahead. */
  lemma HeldUntilLastDeadline(n: nat, wheels: nat, ops: seq<Op>, id: nat)
    requires n > 1 && wheels >= 1 && Legal(ops) && Fits(n, wheels, ops, id)
    ensures Held(Run(n, wheels, ops), id) <==> LastDeadline(ops, id) > Ticks(ops)
  {
    WheelRefinesFlat(n, wheels, ops);
    FlatIsLastDeadline(n, wheels, ops, id);
    HeldIffPending(Run(n, wheels, ops), id);
  }

  /** The last reference to the entry goes away during the last operation of the run. */
  ghost predicate ReleasedBy(n: nat, wheels: nat, ops: seq<Op>, id: nat)
    requires n > 1 && wheels >= 1 && Legal(ops) && ops != []
  {
    Held(Run(n, wheels, ops[..|ops| - 1]), id) && !Held(Run(n, wheels, ops), id)
  }

  /** Neither early nor late: the release is the tick whose number is the last deadline. */
  lemma ReleaseTick(n: nat, wheels: nat, ops: seq<Op>, id: nat)
    requires n > 1 && wheels >= 1 && Legal(ops) && Fits(n, wheels, ops, id) && ops != []
    ensures ReleasedBy(n, wheels, ops, id) <==> ops[|ops| - 1].Turn? && LastDeadline(ops, id) == Ticks(ops)
  {
    var before := ops[..|ops| - 1];
    assert forall k :: 0 <= k < |before| ==> before[..k] == ops[..k];
    HeldUntilLastDeadline(n, wheels, before, id);
    HeldUntilLastDeadline(n, wheels, ops, id);
  }

  predicate Inserted(ops: seq<Op>, id: nat) {
    exists k :: 0 <= k < |ops| && ops[k].Add? && ops[k].id == id
  }

  /** A weak reference can be locked, and the entry inserted again, only while it is alive. */
  ghost predicate Reinserts(ops: seq<Op>, id: nat) {
    forall k :: 0 <= k < |ops| && ops[k].Add? && ops[k].id == id && Inserted(ops[..k], id) ==>
      LastDeadline(ops[..k], id) > Ticks(ops[..k])
  }

  ghost function Releases(n: nat, wheels: nat, ops: seq<Op>, id: nat): nat
    requires n > 1 && wheels >= 1 && Legal(ops)
  {
    if ops == [] then
      0
    else
      Releases(n, wheels, ops[..|ops| - 1], id) + if ReleasedBy(n, wheels, ops, id) then 1 else 0
  }

  /** Over a whole run an entry is released once, when its last deadline has come, or not yet. */
  lemma {:induction false} ReleasedOnce(n: nat, wheels: nat, ops: seq<Op>, id: nat)
    requires n > 1 && wheels >= 1 && Legal(ops) && Fits(n, wheels, ops, id) && Reinserts(ops, id)
    ensures Inserted(ops, id) ==> LastDeadline(ops, id) > 0
    ensures !Inserted(ops, id) ==> LastDeadline(ops, id) == 0
    ensures Releases(n, wheels, ops, id) ==
            if Inserted(ops, id) && LastDeadline(ops, id) <= Ticks(ops) then 1 else 0
  {
    if ops == [] {
    } else {
      var k := |ops| - 1;
      var before := ops[..k];
      PrefixFacts(n, wheels, ops, id);
      ReleasedOnce(n, wheels, before, id);
      ReleaseTick(n, wheels, ops, id);
      InsertedStep(ops, id);
    }
  }

  lemma InsertedStep(ops: seq<Op>, id: nat)
    requires ops != []
    ensures var k := |ops| - 1;
            Inserted(ops, id) <==> Inserted(ops[..k], id) || (ops[k].Add? && ops[k].id == id)
  {
  }

  lemma PrefixFacts(n: nat, wheels: nat, ops: seq<Op>, id: nat)
    requires n > 1 && wheels >= 1 && Legal(ops) && Fits(n, wheels, ops, id) && Reinserts(ops, id) && ops != []
    ensures var before := ops[..|ops| - 1];
            Legal(before) && Fits(n, wheels, before, id) && Reinserts(before, id)
  {
    var before := ops[..|ops| - 1];
    assert forall k :: 0 <= k < |before| ==> before[k] == ops[k] && before[..k] == ops[..k];
  }

  // ---------------------------------------------------------------- capacity

  /** The largest delay that `k + 1` rows of `n` buckets hold at every counter. */
  function Room(n: nat, k: nat): nat {
    if k == 0 then n else n * Room(n, k - 1) + 1
  }

  /** The counter with the digit `n - 1` in every row but the last. */
  function WorstCounter(n: nat, k: nat): nat
    requires n > 0
  {
    if k == 0 then 0 else WorstCounter(n, k - 1) * n + (n - 1)
  }

  lemma RoomPositive(n: nat, k: nat)
    requires n > 0
    ensures Room(n, k) >= n
  {
    if k > 0 {
      RoomPositive(n, k - 1);
      MulMonotone(1, Room(n, k - 1), n);
    }
  }

  lemma NextDelayWithin(n: nat, d: nat, t: nat, p: nat)
    requires n > 1 && 1 <= d <= n * p + 1
    ensures NextDelay(n, d, t) <= p
  {
    NextDelayTimes(n, d, t);
    var d1 := NextDelay(n, d, t);
    assert (p + 1) * n == n * p + n;
    if d1 > p {
      MulMonotone(p + 1, d1, n);
    }
  }

  lemma {:induction false} RoomHolds(n: nat, t: nat, d: nat, k: nat)
    requires n > 1 && 1 <= d <= Room(n, k)
    ensures LevelDelay(n, t, d, k) <= n
    decreases k
  {
    if k > 0 && d > n {
      NextDelayPositive(n, d, t);
      NextDelayWithin(n, d, t, Room(n, k - 1));
      RoomHolds(n, t / n, NextDelay(n, d, t), k - 1);
    }
  }

  lemma NextDelayBeyond(n: nat, d: nat, t: nat, p: nat)
    requires n > 1 && t % n == n - 1 && d > n * p + 1
    ensures NextDelay(n, d, t) > p
  {
    assert (p + 1) * n == n * p + n;
    DivBounds(d + (n - 1) - 1, n, p + 1);
  }

  lemma {:induction false} BeyondRoom(n: nat, d: nat, k: nat)
    requires n > 1 && d > Room(n, k)
    ensures LevelDelay(n, WorstCounter(n, k), d, k) > n
    decreases k
  {
    RoomPositive(n, k);
    if k > 0 {
      var t := WorstCounter(n, k);
      DivUnique(t, n, WorstCounter(n, k - 1), n - 1);
      NextDelayBeyond(n, d, t, Room(n, k - 1));
      BeyondRoom(n, NextDelay(n, d, t), k - 1);
    }
  }

  /** A delay fits `k + 1` rows at every counter if and only if it is at most `Room(n, k)`. */
  lemma EnoughRows(n: nat, d: nat, k: nat)
    requires n > 1 && d >= 1
    ensures (forall t: nat :: LevelDelay(n, t, d, k) <= n) <==> d <= Room(n, k)
  {
    if d <= Room(n, k) {
      forall t: nat ensures LevelDelay(n, t, d, k) <= n {
        RoomHolds(n, t, d, k);
      }
    } else {
      BeyondRoom(n, d, k);
    }
  }

  lemma PowOne(n: nat)
    ensures Pow(n, 1) == n
  {
  }

  /** The room of `k + 1` rows exceeds the power that the constructor compares with. */
  lemma {:induction false} RoomCoversPow(n: nat, k: nat)
    requires n > 1
    ensures Room(n, k) >= Pow(n, k + 1) + if k > 0 then 1 else 0
    decreases k
  {
    if k == 0 {
      PowOne(n);
    } else {
      RoomCoversPow(n, k - 1);
      MulMonotone(Pow(n, k), Room(n, k - 1), n);
    }
  }

  ghost predicate LeastRows(n: nat, maxTicks: nat, wheels: nat) {
    wheels >= 1 && Pow(n, wheels) >= maxTicks && (wheels > 1 ==> Pow(n, wheels - 1) < maxTicks)
  }

  /** A delay given to the wheel at counter `t` does not reach the clamp. */
  predicate Exact(n: nat, wheels: nat, t: nat, delay: nat)
    requires n > 0 && wheels >= 1
  {
    LevelDelay(n, t, delay + 1, wheels - 1) <= n
  }

  /** With the rows the constructor picks, every delay up to the maximum is exact at every
      counter, if and only if there are two rows or the maximum is below the bucket count. */
  lemma Capacity(n: nat, maxTicks: nat, wheels: nat)
    requires n > 1 && LeastRows(n, maxTicks, wheels)
    ensures (forall t: nat, delay: nat :: delay <= maxTicks ==> Exact(n, wheels, t, delay))
            <==> wheels >= 2 || maxTicks < n
  {
    if wheels >= 2 || maxTicks < n {
      forall t: nat, delay: nat | delay <= maxTicks
        ensures Exact(n, wheels, t, delay)
      {
        PowOne(n);
        RoomCoversPow(n, wheels - 1);
        EnoughRows(n, delay + 1, wheels - 1);
      }
    } else {
      assert !Exact(n, wheels, 0, maxTicks);
    }
  }

  function ServerBuckets(idle: nat): nat {
    if idle < 500 then idle + 1 else 100
  }

  /** The geometry TcpServer picks for an idle timeout never clamps that timeout. */
  lemma ServerGeometry(idle: nat, wheels: nat, t: nat)
    requires idle > 1
    requires LeastRows(ServerBuckets(idle), idle, wheels)
    ensures Exact(ServerBuckets(idle), wheels, t, idle)
  {
    var n := ServerBuckets(idle);
    PowOne(n);
    Capacity(n, idle, wheels);
  }
}
