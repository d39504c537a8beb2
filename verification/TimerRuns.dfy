/** What the timer queue guarantees over whole runs, whatever the callbacks add and cancel. */
module TimerRuns {
  import opened Options
  import opened TimerModel
  import opened TimerProof

  ghost predicate Trace(s: Timers, steps: seq<Step>, s': Timers)
    decreases |steps|
  {
    if steps == [] then s' == s else Can(s, steps[0]) && Trace(Do(s, steps[0]), steps[1..], s')
  }

  lemma {:induction false} TraceKeeps(s: Timers, steps: seq<Step>, s': Timers)
    requires Inv(s) && Trace(s, steps, s')
    ensures Inv(s')
    decreases |steps|
  {
    if steps != [] {
      StepKeeps(s, steps[0]);
      TraceKeeps(Do(s, steps[0]), steps[1..], s');
    }
  }

  lemma {:induction false} TraceAppend(s: Timers, steps: seq<Step>, s': Timers, step: Step)
    requires Trace(s, steps, s') && Can(s', step)
    ensures Trace(s, steps + [step], Do(s', step))
    decreases |steps|
  {
    if steps == [] {
      assert Trace(Do(s, step), [], Do(s, step));
      assert (steps + [step])[1..] == [];
    } else {
      TraceAppend(Do(s, steps[0]), steps[1..], s', step);
      assert (steps + [step])[1..] == steps[1..] + [step];
    }
  }

  lemma {:induction false} TraceJoin(s: Timers, a: seq<Step>, s1: Timers, b: seq<Step>, s2: Timers)
    requires Trace(s, a, s1) && Trace(s1, b, s2)
    ensures Trace(s, a + b, s2)
    decreases |a|
  {
    if a == [] {
      assert a + b == b;
    } else {
      assert (a + b)[1..] == a[1..] + b;
      TraceJoin(Do(s, a[0]), a[1..], s1, b, s2);
    }
  }

  lemma TraceOne(s: Timers, step: Step)
    requires Can(s, step)
    ensures Trace(s, [step], Do(s, step))
  {
    assert [step][1..] == [];
    assert Trace(Do(s, step), [], Do(s, step));
  }

  lemma EmptyInv(clock: int)
    ensures Inv(Empty(clock))
  {
  }

  /** A timer that does not repeat is called at most once in its life. */
  lemma OneShotOnce(clock: int, steps: seq<Step>, s: Timers, id: nat)
    requires Trace(Empty(clock), steps, s) && id in s.interval && s.interval[id] == 0
    ensures Count(s.calls, id) <= 1
  {
    EmptyInv(clock);
    TraceKeeps(Empty(clock), steps, s);
  }

  /** A timer whose id was erased is never called again, not even when `getExpired` has already
      taken it into the running batch; and its id never becomes live again. */
  lemma {:induction false} ErasedNeverRuns(s: Timers, steps: seq<Step>, s': Timers, id: nat)
    requires Inv(s) && Trace(s, steps, s') && id in s.erased
    ensures Count(s'.calls, id) == Count(s.calls, id) && id in s'.erased && id !in s'.live
    decreases |steps|
  {
    if steps != [] {
      StepKeeps(s, steps[0]);
      ErasedStep(s, steps[0], id);
      ErasedNeverRuns(Do(s, steps[0]), steps[1..], s', id);
    }
  }

  lemma ErasedStep(s: Timers, step: Step, id: nat)
    requires LiveOk(s) && Can(s, step) && id in s.erased
    ensures Count(Do(s, step).calls, id) == Count(s.calls, id) && id in Do(s, step).erased
  {
    match step {
      case CallNext => CallCounts(s, id);
      case Create(_, _) =>
      case Add(_) =>
      case Cancel(_) =>
      case Pass(_) =>
      case Fire(_) =>
      case Finish => FinishCalls(s);
    }
  }

  /** The next call is one of `id` exactly when the next timer of the batch has that id and the id
      is live. */
  lemma CallCounts(s: Timers, id: nat)
    requires Can(s, CallNext)
    ensures var t := s.batch.value.expired[s.batch.value.next];
            Count(Do(s, CallNext).calls, id) ==
            Count(s.calls, id) + if t.id == id && id in s.live then 1 else 0
  {
    var t := s.batch.value.expired[s.batch.value.next];
    CountAppend(s.calls, Call(t.id, t.when, s.batches), id);
  }

  lemma FinishCalls(s: Timers)
    requires Can(s, Finish)
    ensures Do(s, Finish).calls == s.calls && Do(s, Finish).erased == s.erased
  {
  }

  // ---------------------------------------------------------------- when a cancellation works

  /** `id` has been given out and its timer is not on its way into the queue. */
  ghost predicate Arrived(s: Timers, id: nat) {
    id <= s.created && forall t :: t in s.waiting ==> t.id != id
  }

  ghost predicate Dead(s: Timers, id: nat) {
    Arrived(s, id) && id !in s.live
  }

  lemma DeadStep(s: Timers, step: Step, id: nat)
    requires Unique(s) && Can(s, step) && Dead(s, id)
    ensures Count(Do(s, step).calls, id) == Count(s.calls, id) && Dead(Do(s, step), id)
  {
    match step {
      case CallNext => CallCounts(s, id);
      case Create(_, _) =>
      case Add(_) =>
      case Cancel(_) =>
      case Pass(_) =>
      case Fire(_) =>
      case Finish => FinishIs(s);
    }
  }

  lemma {:induction false} DeadNeverRuns(s: Timers, steps: seq<Step>, s': Timers, id: nat)
    requires Inv(s) && Trace(s, steps, s') && Dead(s, id)
    ensures Count(s'.calls, id) == Count(s.calls, id)
    decreases |steps|
  {
    if steps != [] {
      StepKeeps(s, steps[0]);
      DeadStep(s, steps[0], id);
      DeadNeverRuns(Do(s, steps[0]), steps[1..], s', id);
    }
  }

  ghost predicate Reaches(s: Timers, s': Timers) {
    exists steps :: Trace(s, steps, s')
  }

  /** `s` is reachable from `from`, consistent, and has called `id` at least `n` times. */
  ghost predicate Good(from: Timers, s: Timers, id: nat, n: nat) {
    Reaches(from, s) && Inv(s) && Count(s.calls, id) >= n
  }

  lemma GoodStep(from: Timers, s: Timers, id: nat, n: nat, step: Step)
    requires Good(from, s, id, n) && Can(s, step)
    ensures Good(from, Do(s, step), id, n)
  {
    var steps :| Trace(from, steps, s);
    TraceAppend(from, steps, s, step);
    StepKeeps(s, step);
    match step {
      case CallNext => CallCounts(s, id);
      case Finish => FinishCalls(s);
      case _ =>
    }
  }

  /** A batch can run to its `k`-th timer. */
  lemma {:induction false} RunsTo(from: Timers, s: Timers, id: nat, n: nat, k: nat) returns (s': Timers)
    requires Good(from, s, id, n) && s.batch.Some? && s.batch.value.next <= k <= |s.batch.value.expired|
    ensures Good(from, s', id, n) && s'.batch == Some(s.batch.value.(next := k))
    ensures s'.waiting == s.waiting && s'.created == s.created && s'.live == s.live
    decreases k - s.batch.value.next
  {
    if s.batch.value.next == k {
      s' := s;
    } else {
      GoodStep(from, s, id, n, CallNext);
      s' := RunsTo(from, Do(s, CallNext), id, n, k);
    }
  }

  lemma BatchEnds(from: Timers, s: Timers, id: nat, n: nat) returns (s': Timers)
    requires Good(from, s, id, n)
    ensures Good(from, s', id, n) && s'.batch.None? && s'.waiting == s.waiting && s'.created == s.created
  {
    s' := s;
    if s.batch.Some? {
      s' := RunsTo(from, s, id, n, |s.batch.value.expired|);
      GoodStep(from, s', id, n, Finish);
      FinishIs(s');
      s' := Do(s', Finish);
    }
  }

  lemma {:induction false} IsCreated(from: Timers, s: Timers, id: nat, n: nat) returns (s': Timers, t: Timer)
    requires Good(from, s, id, n) && s.batch.None? && id > s.created
    ensures Good(from, s', id, n) && s'.batch.None? && t in s'.waiting && t.id == id
    decreases id - s.created
  {
    GoodStep(from, s, id, n, Create(0, 0));
    s' := Do(s, Create(0, 0));
    if id == s'.created {
      t := Timer(id, 0, 0);
    } else {
      s', t := IsCreated(from, s', id, n);
    }
  }

  /** Any queue can be taken apart as `getExpired` does. */
  lemma {:induction false} ExpiredExists(heap: set<Timer>, now: int) returns (order: seq<Timer>)
    ensures ExpiredIn(heap, now, order)
    decreases heap
  {
    order := [];
    if exists t :: t in heap && t.when < now {
      EarliestExists(heap);
      var top :| Earliest(heap, top);
      var rest := ExpiredExists(heap - {top}, now);
      order := [top] + rest;
      TopFirst(heap, now, top, rest);
    }
  }

  lemma TopFirst(heap: set<Timer>, now: int, top: Timer, rest: seq<Timer>)
    requires Earliest(heap, top) && top.when < now && ExpiredIn(heap - {top}, now, rest)
    ensures ExpiredIn(heap, now, [top] + rest)
  {
    var order := [top] + rest;
    forall i | 0 <= i < |rest| ensures rest[i] in heap - {top} && top.when <= rest[i].when {
      assert rest[i] in rest;
    }
    forall t ensures t in order <==> t == top || t in rest {
    }
  }

  /** A timer that waits to be inserted can be called. */
  lemma WaitingIsCalled(from: Timers, s: Timers, id: nat, n: nat, t: Timer) returns (s': Timers)
    requires Good(from, s, id, n) && s.batch.None? && t in s.waiting && t.id == id
    ensures Good(from, s', id, n + 1)
  {
    GoodStep(from, s, id, n, Add(t));
    var s1 := Do(s, Add(t));
    var late := Pass(if t.when < s1.clock then 0 else t.when - s1.clock + 1);
    GoodStep(from, s1, id, n, late);
    var s2 := Do(s1, late);
    var order := ExpiredExists(s2.heap, s2.clock);
    GoodStep(from, s2, id, n, Fire(order));
    var s3 := Do(s2, Fire(order));
    assert t in order;
    var k :| 0 <= k < |order| && order[k] == t;
    var s4 := RunsTo(from, s3, id, n, k);
    GoodStep(from, s4, id, n, CallNext);
    CallCounts(s4, id);
    s' := Do(s4, CallNext);
  }

  lemma CancelMissed(s: Timers, id: nat)
    requires Inv(s) && (id > s.created || exists t :: t in s.waiting && t.id == id)
    ensures exists steps, s' :: Trace(Do(s, Cancel(id)), steps, s') && Count(s'.calls, id) > Count(s.calls, id)
  {
    StepKeeps(s, Cancel(id));
    var from, n := Do(s, Cancel(id)), Count(s.calls, id);
    assert Trace(from, [], from);
    var s1 := BatchEnds(from, from, id, n);
    var s2 := s1;
    var t: Timer;
    if id > s.created {
      s2, t := IsCreated(from, s1, id, n);
    } else {
      t :| t in s.waiting && t.id == id;
    }
    var s' := WaitingIsCalled(from, s2, id, n, t);
    var steps :| Trace(from, steps, s');
  }

  /** After `invalidateTimer` the timer is never called again if and only if the id has been given
      out and its timer is not still on its way into the queue. */
  lemma CancelWorksExactly(s: Timers, id: nat)
    requires Inv(s)
    ensures (forall steps, s' :: Trace(Do(s, Cancel(id)), steps, s') ==> Count(s'.calls, id) == Count(s.calls, id)) <==>
            id <= s.created && forall t :: t in s.waiting ==> t.id != id
  {
    if id <= s.created && forall t :: t in s.waiting ==> t.id != id {
      StepKeeps(s, Cancel(id));
      forall steps, s' | Trace(Do(s, Cancel(id)), steps, s') ensures Count(s'.calls, id) == Count(s.calls, id) {
        DeadNeverRuns(Do(s, Cancel(id)), steps, s', id);
      }
    } else {
      CancelMissed(s, id);
    }
  }

  // ---------------------------------------------------------------- calls and deadlines

  /** In every batch the calls are made in the order of the deadlines, and no timer, repeating or
      not, is called twice. */
  lemma BatchesOrdered(clock: int, steps: seq<Step>, s: Timers, i: nat, j: nat)
    requires Trace(Empty(clock), steps, s) && i < j < |s.calls| && s.calls[i].batch == s.calls[j].batch
    ensures s.calls[i].when <= s.calls[j].when && s.calls[i].id != s.calls[j].id
  {
    EmptyInv(clock);
    TraceKeeps(Empty(clock), steps, s);
    assert InOrder(s.calls[i], s.calls[j]);
  }

  /** Outside a batch every live id has exactly one timer in the queue. */
  lemma LiveHasOneTimer(clock: int, steps: seq<Step>, s: Timers, id: nat)
    requires Trace(Empty(clock), steps, s) && s.batch.None? && id in s.live
    ensures exists t :: t in s.heap && t.id == id
    ensures forall t, u :: t in s.heap && u in s.heap && t.id == id && u.id == id ==> t == u
  {
    EmptyInv(clock);
    TraceKeeps(Empty(clock), steps, s);
    assert InQueue(s, id);
    assert Popped(s) == {};
  }

  /** Outside a batch, if the queue is not empty the timerfd is set for its earliest deadline. */
  lemma ArmedForEarliest(clock: int, steps: seq<Step>, s: Timers)
    requires Trace(Empty(clock), steps, s) && s.batch.None? && s.heap != {}
    ensures s.armed.Some? && s.armed.value.since <= s.clock
    ensures forall t :: t in s.heap ==> s.armed.value.when <= t.when
    ensures exists t :: t in s.heap && t.when == s.armed.value.when
  {
    EmptyInv(clock);
    TraceKeeps(Empty(clock), steps, s);
  }

  /** The timerfd is set only for the present, by an insertion that is the earliest or by the end of a
      batch, and is taken back only when it is due. */
  lemma ArmedNow(s: Timers, step: Step)
    requires Inv(s) && Can(s, step) && Do(s, step).armed != s.armed
    ensures var armed := Do(s, step).armed;
            if armed.Some? then armed.value.since == s.clock && (step.Add? || step.Finish?)
            else step.Fire? && FiresAt(s.armed.value) <= s.clock
  {
    match step {
      case Finish => EarliestOnTop(s);
      case _ =>
    }
  }

  lemma EarliestOnTop(s: Timers)
    requires Can(s, Finish)
    ensures var s' := Do(s, Finish);
            s'.armed == s.armed || (s'.armed.Some? && s'.armed.value.since == s.clock)
  {
  }

  /** A deadline never changes while its timer is in the queue: a step leaves a timer where it is,
      or, when the batch starts, takes it out as it is because it is overdue; and there is no other
      timer with its id afterwards. */
  lemma DeadlineFixedInQueue(s: Timers, step: Step, t: Timer)
    requires Inv(s) && Can(s, step) && t in s.heap
    ensures if step.Fire? && t.when < s.clock then t !in Do(s, step).heap && t in Popped(Do(s, step))
            else t in Do(s, step).heap
    ensures forall u :: u in All(Do(s, step)) && u.id == t.id ==> u == t
  {
    StepKeeps(s, step);
    match step {
      case Fire(order) => assert t in order <==> t.when < s.clock;
      case Finish => FinishIs(s);
      case _ =>
    }
  }

  /** When the batch ends, a live repeating timer of it is in the queue again, one interval after
      the batch's `now` and so strictly later than it was; any other timer of it is gone. */
  lemma RepeatsLater(clock: int, steps: seq<Step>, s: Timers, t: Timer)
    requires Trace(Empty(clock), steps, s) && Can(s, Finish) && t in Popped(s)
    ensures var now, s' := s.batch.value.now, Do(s, Finish);
            if t.id in s.live && t.interval > 0 then
              t.(when := now + t.interval) in s'.heap && now + t.interval > now > t.when
            else
              t.id !in s'.live && forall u :: u in s'.heap ==> u.id != t.id
  {
    EmptyInv(clock);
    TraceKeeps(Empty(clock), steps, s);
    if t.id in s.live && t.interval > 0 {
      Reentered(s, t);
    } else {
      Dropped(s, t);
    }
  }

  lemma Reentered(s: Timers, t: Timer)
    requires Unique(s) && BatchOk(s) && Can(s, Finish) && t in Popped(s) && t.id in s.live && t.interval > 0
    ensures var now := s.batch.value.now; t.(when := now + t.interval) in Do(s, Finish).heap && now > t.when
  {
    FinishIs(s);
    var b := s.batch.value;
    assert t in b.expired;
    assert t.(when := b.now + t.interval) in Renewed(s.live, b.expired, b.now);
  }

  lemma Dropped(s: Timers, t: Timer)
    requires Unique(s) && Can(s, Finish) && t in Popped(s) && !(t.id in s.live && t.interval > 0)
    ensures t.id !in Do(s, Finish).live && forall u :: u in Do(s, Finish).heap ==> u.id != t.id
  {
    FinishIs(s);
    var b := s.batch.value;
    assert t in b.expired;
    assert t.interval == 0 ==> t.id in OneShots(b.expired);
    forall u | u in Do(s, Finish).heap ensures u.id != t.id {
      if u !in s.heap {
        var v := FromBatch(s, u);
      }
    }
  }
}
