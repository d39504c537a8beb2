/** What every step of the timer queue keeps. */
module TimerProof {
  import opened Options
  import opened TimerModel

  function Expired(s: Timers): seq<Timer> {
    if s.batch.Some? then s.batch.value.expired else []
  }

  function Popped(s: Timers): set<Timer> {
    set t | t in Expired(s)
  }

  /** Every timer object there is. */
  function All(s: Timers): set<Timer> {
    s.heap + s.waiting + Popped(s)
  }

  /** One timer per id, in one place; ids come from the counter. */
  ghost predicate Unique(s: Timers) {
    && (forall t, u :: t in All(s) && u in All(s) && t.id == u.id ==> t == u)
    && s.heap !! s.waiting && s.heap !! Popped(s) && s.waiting !! Popped(s)
    && (forall i, j :: 0 <= i < j < |Expired(s)| ==> Expired(s)[i] != Expired(s)[j])
    && (forall t :: t in All(s) ==> t.id <= s.created && t.id in s.interval && s.interval[t.id] == t.interval)
    && (forall id :: id in s.interval ==> id <= s.created)
  }

  ghost predicate InQueue(s: Timers, id: nat) {
    exists t :: t in s.heap + Popped(s) && t.id == id
  }

  /** A live id has its timer in the queue or in the batch; an erased id is not live again. */
  ghost predicate LiveOk(s: Timers) {
    && (forall id :: id in s.live ==> InQueue(s, id))
    && (forall t :: t in s.waiting ==> t.id !in s.live && t.id !in s.erased)
    && s.live !! s.erased
    && (forall id :: id in s.erased ==> id <= s.created)
  }

  /** Outside a batch the timerfd is set for the earliest deadline in the queue. */
  ghost predicate ArmedOk(s: Timers) {
    s.batch.None? && s.heap != {} ==>
      s.armed.Some? && s.armed.value.since <= s.clock
      && exists t :: Earliest(s.heap, t) && t.when == s.armed.value.when
  }

  ghost predicate BatchOk(s: Timers) {
    s.batch.Some? ==>
      var b := s.batch.value;
      && b.next <= |b.expired| && SortedByDeadline(b.expired) && b.now <= s.clock
      && forall t :: t in b.expired ==> t.when < b.now
  }

  function Count(calls: seq<Call>, id: nat): nat {
    if calls == [] then 0 else Count(calls[..|calls| - 1], id) + if calls[|calls| - 1].id == id then 1 else 0
  }

  /** `id` may still be called: its timer is waiting, in the queue, or ahead in the batch. */
  ghost predicate Ahead(s: Timers, id: nat) {
    || (exists t :: t in s.heap + s.waiting && t.id == id)
    || (s.batch.Some? &&
        exists i :: s.batch.value.next <= i < |s.batch.value.expired| && s.batch.value.expired[i].id == id)
  }

  /** A one-shot timer that has been called has nothing ahead, so it is called once at most. */
  ghost predicate OneShotOk(s: Timers) {
    && (forall k :: 0 <= k < |s.calls| ==> s.calls[k].id in s.interval && s.calls[k].batch <= s.batches)
    && forall id {:trigger Count(s.calls, id)} :: id in s.interval && s.interval[id] == 0 ==>
         Count(s.calls, id) <= 1 && (Count(s.calls, id) == 1 ==> !Ahead(s, id))
  }

  /** Within a batch, calls are in the order of the deadlines and no id is called twice. */
  ghost predicate InOrder(a: Call, b: Call) {
    a.batch == b.batch ==> a.when <= b.when && a.id != b.id
  }

  ghost predicate CallsOrdered(calls: seq<Call>) {
    forall i, j :: 0 <= i < j < |calls| ==> InOrder(calls[i], calls[j])
  }

  ghost predicate OrderOk(s: Timers) {
    && CallsOrdered(s.calls)
    && (s.batch.Some? ==>
          forall k, i :: 0 <= k < |s.calls| && s.batch.value.next <= i < |s.batch.value.expired|
                         && s.calls[k].batch == s.batches ==>
            s.calls[k].when <= s.batch.value.expired[i].when && s.calls[k].id != s.batch.value.expired[i].id)
  }

  ghost predicate Inv(s: Timers) {
    Unique(s) && LiveOk(s) && ArmedOk(s) && BatchOk(s) && OneShotOk(s) && OrderOk(s)
  }

  // ---------------------------------------------------------------- reset

  /** The timers that go back into the queue: live and repeating, a whole interval after `now`. */
  function Renewed(live: set<nat>, expired: seq<Timer>, now: int): set<Timer> {
    set t | t in expired && t.id in live && t.interval > 0 :: t.(when := now + t.interval)
  }

  function OneShots(expired: seq<Timer>): set<nat> {
    set t | t in expired && t.interval == 0 :: t.id
  }

  ghost predicate DistinctIds(expired: seq<Timer>) {
    forall i, j :: 0 <= i < j < |expired| ==> expired[i].id != expired[j].id
  }

  /** What the loop of `reset` amounts to. */
  lemma {:induction false} ReenterIs(heap: set<Timer>, live: set<nat>, expired: seq<Timer>, now: int)
    requires DistinctIds(expired)
    ensures Reenter(heap, live, expired, now) == (heap + Renewed(live, expired, now), live - OneShots(expired))
    decreases |expired|
  {
    if expired == [] {
      assert heap + Renewed(live, expired, now) == heap && live - OneShots(expired) == live;
    } else {
      var t, rest := expired[0], expired[1..];
      assert expired == [t] + rest;
      assert forall u :: u in rest ==> u.id != t.id;
      var heap' := if t.id in live && t.interval > 0 then heap + {t.(when := now + t.interval)} else heap;
      var live' := if t.id in live && t.interval == 0 then live - {t.id} else live;
      ReenterIs(heap', live', rest, now);
      RenewedCons(live, live', t, rest, now);
      OneShotsCons(t, rest);
      assert heap' + Renewed(live', rest, now) == heap + Renewed(live, expired, now);
      assert live' - OneShots(rest) == live - OneShots(expired);
    }
  }

  lemma OneShotsCons(t: Timer, rest: seq<Timer>)
    ensures OneShots([t] + rest) == OneShots(rest) + if t.interval == 0 then {t.id} else {}
  {
  }

  lemma RenewedCons(live: set<nat>, live': set<nat>, t: Timer, rest: seq<Timer>, now: int)
    requires forall u :: u in rest ==> u.id != t.id && (u.id in live' <==> u.id in live)
    ensures Renewed(live, [t] + rest, now) ==
            Renewed(live', rest, now) + if t.id in live && t.interval > 0 then {t.(when := now + t.interval)} else {}
  {
  }

  // ---------------------------------------------------------------- one step at a time

  lemma CountAppend(calls: seq<Call>, c: Call, id: nat)
    ensures Count(calls + [c], id) == Count(calls, id) + if c.id == id then 1 else 0
  {
  }

  lemma {:induction false} CountPositive(calls: seq<Call>, id: nat)
    ensures Count(calls, id) > 0 ==> exists k :: 0 <= k < |calls| && calls[k].id == id
  {
    if calls != [] {
      CountPositive(calls[..|calls| - 1], id);
      if calls[|calls| - 1].id != id && Count(calls, id) > 0 {
        var k :| 0 <= k < |calls| - 1 && calls[..|calls| - 1][k].id == id;
        assert calls[k].id == id;
      }
    }
  }

  lemma CreateKeepsOneShot(s: Timers, when: int, interval: nat)
    requires Unique(s) && OneShotOk(s)
    ensures OneShotOk(Do(s, Create(when, interval)))
  {
    var s' := Do(s, Create(when, interval));
    forall id | id in s'.interval && s'.interval[id] == 0
      ensures Count(s'.calls, id) <= 1 && (Count(s'.calls, id) == 1 ==> !Ahead(s', id))
    {
      CountPositive(s.calls, id);
      assert id != s'.created ==> (Ahead(s', id) ==> Ahead(s, id));
    }
  }

  lemma CreateKeepsUnique(s: Timers, when: int, interval: nat)
    requires Unique(s)
    ensures Unique(Do(s, Create(when, interval)))
  {
    assert Popped(Do(s, Create(when, interval))) == Popped(s);
  }

  lemma CreateKeeps(s: Timers, when: int, interval: nat)
    requires Inv(s)
    ensures Inv(Do(s, Create(when, interval)))
  {
    var s' := Do(s, Create(when, interval));
    assert Popped(s') == Popped(s);
    CreateKeepsUnique(s, when, interval);
    forall id | id in s'.live ensures InQueue(s', id) {
      assert InQueue(s, id);
    }
    CreateKeepsOneShot(s, when, interval);
  }

  lemma AddKeeps(s: Timers, t: Timer)
    requires Inv(s) && Can(s, Add(t))
    ensures Inv(Do(s, Add(t)))
  {
    var s' := Do(s, Add(t));
    assert Popped(s') == Popped(s) && All(s') == All(s);
    forall id | id in s'.live ensures InQueue(s', id) {
      assert id != t.id ==> InQueue(s, id);
    }
    AddKeepsArmed(s, t);
    forall id | id in s'.interval && s'.interval[id] == 0 ensures Ahead(s', id) ==> Ahead(s, id) {
    }
  }

  lemma AddKeepsArmed(s: Timers, t: Timer)
    requires ArmedOk(s) && Can(s, Add(t))
    ensures ArmedOk(Do(s, Add(t)))
  {
  }

  lemma CancelKeeps(s: Timers, id: nat)
    requires Inv(s)
    ensures Inv(Do(s, Cancel(id)))
  {
    var s' := Do(s, Cancel(id));
    assert Popped(s') == Popped(s);
    forall e | e in s'.live ensures InQueue(s', e) {
      assert InQueue(s, e);
    }
    if id in s.live {
      assert InQueue(s, id);
    }
    forall e ensures Ahead(s', e) <==> Ahead(s, e) {
    }
  }

  lemma PassKeeps(s: Timers, time: nat)
    requires Inv(s)
    ensures Inv(Do(s, Pass(time)))
  {
    var s' := Do(s, Pass(time));
    assert Popped(s') == Popped(s);
    forall id | id in s'.live ensures InQueue(s', id) {
      assert InQueue(s, id);
    }
    forall e ensures Ahead(s', e) <==> Ahead(s, e) {
    }
  }

  lemma FireKeepsUnique(s: Timers, order: seq<Timer>)
    requires Inv(s) && Can(s, Fire(order))
    ensures var s' := Do(s, Fire(order)); All(s') == All(s) && Unique(s') && DistinctIds(order)
  {
    var s' := Do(s, Fire(order));
    forall t ensures t in Popped(s') <==> t in s.heap && t.when < s.clock {
      assert t in Popped(s') <==> t in order;
    }
    assert Popped(s) == {};
    assert All(s') == All(s);
  }

  lemma FireKeeps(s: Timers, order: seq<Timer>)
    requires Inv(s) && Can(s, Fire(order))
    ensures Inv(Do(s, Fire(order)))
  {
    var s' := Do(s, Fire(order));
    FireKeepsUnique(s, order);
    forall id | id in s'.live ensures InQueue(s', id) {
      assert InQueue(s, id);
      var t :| t in s.heap + Popped(s) && t.id == id;
      assert t in s'.heap + Popped(s');
    }
    forall id ensures Ahead(s', id) ==> Ahead(s, id) {
      if s'.batch.Some? && exists i :: 0 <= i < |order| && order[i].id == id {
        var i :| 0 <= i < |order| && order[i].id == id;
        assert order[i] in order;
        assert order[i] in s.heap + s.waiting;
      }
    }
  }

  lemma CallKeepsOneShot(s: Timers)
    requires Unique(s) && BatchOk(s) && OneShotOk(s) && DistinctIds(Expired(s)) && Can(s, CallNext)
    ensures OneShotOk(Do(s, CallNext))
  {
    var s' := Do(s, CallNext);
    var b := s.batch.value;
    var t := b.expired[b.next];
    assert t in Popped(s);
    forall id | id in s'.interval && s'.interval[id] == 0
      ensures Count(s'.calls, id) <= 1 && (Count(s'.calls, id) == 1 ==> !Ahead(s', id))
    {
      CountAppend(s.calls, Call(t.id, t.when, s.batches), id);
      assert Count(s.calls, id) <= 1;
      if id == t.id {
        assert Ahead(s, id);
        assert !Ahead(s', id);
      } else {
        assert Ahead(s', id) ==> Ahead(s, id);
      }
    }
  }

  lemma CallKeepsOrder(s: Timers)
    requires OrderOk(s) && BatchOk(s) && DistinctIds(Expired(s)) && Can(s, CallNext)
    ensures OrderOk(Do(s, CallNext))
  {
  }

  lemma UniqueMeansDistinct(s: Timers)
    requires Unique(s)
    ensures DistinctIds(Expired(s))
  {
  }

  lemma CallKeeps(s: Timers)
    requires Inv(s) && Can(s, CallNext)
    ensures Inv(Do(s, CallNext))
  {
    var s' := Do(s, CallNext);
    UniqueMeansDistinct(s);
    CallKeepsOneShot(s);
    CallKeepsOrder(s);
    assert Popped(s') == Popped(s);
    forall id | id in s'.live ensures InQueue(s', id) {
      assert InQueue(s, id);
    }
  }

  // ---------------------------------------------------------------- the end of a batch

  /** The state after `reset` in closed form. */
  lemma FinishIs(s: Timers)
    requires Unique(s) && Can(s, Finish)
    ensures var b, s' := s.batch.value, Do(s, Finish);
            && s'.heap == s.heap + Renewed(s.live, b.expired, b.now) && s'.live == s.live - OneShots(b.expired)
            && s' == s.(heap := s'.heap, live := s'.live, batch := None, armed := s'.armed)
    ensures ArmedOk(Do(s, Finish))
  {
    UniqueMeansDistinct(s);
    var b := s.batch.value;
    ReenterIs(s.heap, s.live, b.expired, b.now);
    if Do(s, Finish).heap != {} {
      EarliestExists(Do(s, Finish).heap);
    }
  }

  /** A timer in the queue after `reset` was there before, or comes from one timer of the batch. */
  lemma FromBatch(s: Timers, t: Timer) returns (u: Timer)
    requires Can(s, Finish) && t in Renewed(s.live, s.batch.value.expired, s.batch.value.now)
    ensures u in s.batch.value.expired && u in Popped(s) && u.id in s.live && u.interval > 0
    ensures t == u.(when := s.batch.value.now + u.interval)
  {
    u :| u in s.batch.value.expired && u.id in s.live && u.interval > 0
         && t == u.(when := s.batch.value.now + u.interval);
  }

  lemma FinishKeepsUnique(s: Timers)
    requires Unique(s) && Can(s, Finish)
    ensures Unique(Do(s, Finish))
  {
    FinishIs(s);
    var s' := Do(s, Finish);
    assert Popped(s') == {};
    forall t | t in All(s')
      ensures t in All(s) ||
              exists u :: u in Popped(s) && u.id == t.id && u.interval == t.interval && u.(when := t.when) == t
    {
      if t !in All(s) {
        var u := FromBatch(s, t);
      }
    }
    forall t, u | t in All(s') && u in All(s') && t.id == u.id ensures t == u {
      RenewedUnique(s, t, u);
    }
    forall t | t in s'.heap ensures t !in s'.waiting {
      if t !in s.heap && t in s.waiting {
        var u := FromBatch(s, t);
      }
    }
  }

  lemma RenewedUnique(s: Timers, t: Timer, u: Timer)
    requires Unique(s) && Can(s, Finish) && t.id == u.id
    requires var r := Renewed(s.live, s.batch.value.expired, s.batch.value.now);
             t in s.heap + s.waiting + r && u in s.heap + s.waiting + r
    ensures t == u
  {
  }

  lemma FinishKeepsLive(s: Timers)
    requires Unique(s) && LiveOk(s) && Can(s, Finish)
    ensures LiveOk(Do(s, Finish))
  {
    FinishIs(s);
    var b, s' := s.batch.value, Do(s, Finish);
    forall id | id in s'.live ensures InQueue(s', id) {
      assert InQueue(s, id);
      var t :| t in s.heap + Popped(s) && t.id == id;
      if t in s.heap {
        assert t in s'.heap + Popped(s');
      } else {
        var r := StillQueued(s, t);
        assert r in s'.heap + Popped(s');
      }
    }
  }

  /** A timer of the batch whose id stays live repeats, so it is in the queue again. */
  lemma StillQueued(s: Timers, t: Timer) returns (r: Timer)
    requires Can(s, Finish) && t in Popped(s) && t.id in s.live - OneShots(s.batch.value.expired)
    ensures r.id == t.id && r in Renewed(s.live, s.batch.value.expired, s.batch.value.now)
  {
    var b := s.batch.value;
    assert t in b.expired;
    assert t.interval == 0 ==> t.id in OneShots(b.expired);
    r := t.(when := b.now + t.interval);
  }

  lemma FinishKeepsOneShot(s: Timers)
    requires Unique(s) && OneShotOk(s) && Can(s, Finish)
    ensures OneShotOk(Do(s, Finish))
  {
    FinishIs(s);
    var s' := Do(s, Finish);
    forall id | id in s'.interval && s'.interval[id] == 0 && Ahead(s', id) ensures Ahead(s, id) {
      var t :| t in s'.heap + s'.waiting && t.id == id;
      if t !in s.heap + s.waiting {
        var u := FromBatch(s, t);
        assert false;
      }
    }
  }

  lemma FinishKeeps(s: Timers)
    requires Inv(s) && Can(s, Finish)
    ensures Inv(Do(s, Finish))
  {
    FinishIs(s);
    FinishKeepsUnique(s);
    FinishKeepsLive(s);
    FinishKeepsOneShot(s);
  }

  lemma StepKeeps(s: Timers, step: Step)
    requires Inv(s) && Can(s, step)
    ensures Inv(Do(s, step))
  {
    match step
    case Create(when, interval) => CreateKeeps(s, when, interval);
    case Add(t) => AddKeeps(s, t);
    case Cancel(id) => CancelKeeps(s, id);
    case Pass(time) => PassKeeps(s, time);
    case Fire(order) => FireKeeps(s, order);
    case CallNext => CallKeeps(s);
    case Finish => FinishKeeps(s);
  }
}
