/**
  The timer queue of one event loop (xiaoNet/net/inner/TimerQueue.cpp, Timer.cpp): timers in a
  priority queue, the set of live ids, the timerfd, and batches of expired timers whose callbacks
  may add and cancel timers. Time points are nanoseconds of the steady clock.
 */
module TimerModel {
  import opened Options

  /** `interval` is 0 for a timer that does not repeat. */
  datatype Timer = Timer(id: nat, when: int, interval: nat)

  /** One call of a callback: by the timer with this deadline, in this batch. */
  datatype Call = Call(id: nat, when: int, batch: nat)

  /** The timerfd was set at time `since` for deadline `when`. */
  datatype Arm = Arm(when: int, since: int)

  /** A run of `handleRead`: its `now`, what `getExpired` returned, and how far the loop is. */
  datatype Batch = Batch(now: int, expired: seq<Timer>, next: nat)

  /** `waiting` are timers that have been constructed and not yet inserted. The last five fields
      are history: intervals by id, ids erased by `invalidateTimer` while live, batches begun,
      the calls, and the number of timers created is also the source of the ids. */
  datatype Timers = Timers(heap: set<Timer>, live: set<nat>, waiting: set<Timer>, batch: Option<Batch>,
                           armed: Option<Arm>, clock: int, created: nat,
                           interval: map<nat, nat>, erased: set<nat>, batches: nat, calls: seq<Call>)

  datatype Step =
    | Create(when: int, interval: nat)
    | Add(t: Timer)
    | Cancel(id: nat)
    | Pass(time: nat)
    | Fire(order: seq<Timer>)
    | CallNext
    | Finish

  function Empty(clock: int): Timers {
    Timers({}, {}, {}, None, None, clock, 0, map[], {}, 0, [])
  }

  // ---------------------------------------------------------------- arming

  function Trunc(a: int, b: nat): int
    requires b > 0
  {
    if a >= 0 then a / b else -((-a) / b)
  }

  /** Microseconds until `when`, but at least 100. */
  function Delay(when: int, now: int): (us: nat)
    ensures us >= 100
  {
    var us := Trunc(when - now, 1000);
    if us < 100 then 100 else us
  }

  /** `howMuchTimeFromNow`: seconds and nanoseconds for `timerfd_settime`. */
  function HowMuchTimeFromNow(when: int, now: int): (ts: (nat, nat))
  {
    var us := Delay(when, now);
    (us / 1000000, us % 1000000 * 1000)
  }

  /** When the timerfd becomes readable. */
  function FiresAt(a: Arm): int {
    var ts := HowMuchTimeFromNow(a.when, a.since);
    a.since + ts.0 * 1000000000 + ts.1
  }

  /** The timerfd fires at the deadline, early by less than a microsecond, or 100 microseconds
      after it was set if the deadline is nearer than that. */
  lemma FiresOnTime(a: Arm)
    ensures HowMuchTimeFromNow(a.when, a.since).1 < 1000000000
    ensures a.when - a.since >= 100000 ==> a.when - 1000 < FiresAt(a) <= a.when
    ensures a.when - a.since < 100000 ==> FiresAt(a) == a.since + 100000
  {
  }

  /** `readTimerfd`. When the timerfd has been set again since it was reported, there is nothing
      to read yet and it stays set. */
  function AfterRead(armed: Option<Arm>, now: int): Option<Arm> {
    if armed.Some? && FiresAt(armed.value) <= now then None else armed
  }

  // ---------------------------------------------------------------- steps

  predicate Earliest(heap: set<Timer>, t: Timer) {
    t in heap && forall u :: u in heap ==> t.when <= u.when
  }

  /** `insert` says that the earliest deadline has changed. */
  predicate EarliestChanged(heap: set<Timer>, t: Timer) {
    forall u :: u in heap ==> t.when < u.when
  }

  ghost predicate SortedByDeadline(s: seq<Timer>) {
    forall i, j :: 0 <= i < j < |s| ==> s[i].when <= s[j].when
  }

  /** What `getExpired` may return: the overdue timers, each once, earliest first. */
  ghost predicate ExpiredIn(heap: set<Timer>, now: int, order: seq<Timer>) {
    && SortedByDeadline(order)
    && (forall i, j :: 0 <= i < j < |order| ==> order[i] != order[j])
    && (forall t :: t in order <==> t in heap && t.when < now)
  }

  function NotBefore(heap: set<Timer>, now: int): set<Timer> {
    set t | t in heap && t.when >= now
  }

  ghost predicate Can(s: Timers, step: Step) {
    match step
    case Create(_, _) => true
    case Add(t) => t in s.waiting
    case Cancel(_) => true
    case Pass(_) => true
    case Fire(order) => s.batch.None? && ExpiredIn(s.heap, s.clock, order)
    case CallNext => s.batch.Some? && s.batch.value.next < |s.batch.value.expired|
    case Finish => s.batch.Some? && s.batch.value.next == |s.batch.value.expired|
  }

  /** `reset(expired, now)` before it arms: what it does to the queue and to the live ids. */
  function Reenter(heap: set<Timer>, live: set<nat>, expired: seq<Timer>, now: int): (set<Timer>, set<nat>)
    decreases |expired|
  {
    if expired == [] then
      (heap, live)
    else
      var t := expired[0];
      if t.id !in live then
        Reenter(heap, live, expired[1..], now)
      else if t.interval > 0 then
        Reenter(heap + {t.(when := now + t.interval)}, live, expired[1..], now)
      else
        Reenter(heap, live - {t.id}, expired[1..], now)
  }

  lemma EarliestExists(heap: set<Timer>)
    requires heap != {}
    ensures exists t :: Earliest(heap, t)
  {
    var t :| t in heap;
    if heap == {t} {
      assert Earliest(heap, t);
    } else {
      EarliestExists(heap - {t});
      var u :| Earliest(heap - {t}, u);
      assert Earliest(heap, if t.when < u.when then t else u);
    }
  }

  /** `resetTimerfd` for the top of the queue, if there is one. */
  ghost function ArmTop(s: Timers): Timers {
    if s.heap == {} then
      s
    else
      EarliestExists(s.heap);
      var t :| Earliest(s.heap, t);
      s.(armed := Some(Arm(t.when, s.clock)))
  }

  ghost function Do(s: Timers, step: Step): Timers
    requires Can(s, step)
  {
    match step
    case Create(when, interval) =>
      var id := s.created + 1;
      s.(created := id, waiting := s.waiting + {Timer(id, when, interval)}, interval := s.interval[id := interval])
    case Add(t) =>
      s.(waiting := s.waiting - {t}, live := s.live + {t.id}, heap := s.heap + {t},
         armed := if EarliestChanged(s.heap, t) then Some(Arm(t.when, s.clock)) else s.armed)
    case Cancel(id) =>
      s.(live := s.live - {id}, erased := if id in s.live then s.erased + {id} else s.erased)
    case Pass(time) => s.(clock := s.clock + time)
    case Fire(order) =>
      s.(batch := Some(Batch(s.clock, order, 0)), batches := s.batches + 1, armed := AfterRead(s.armed, s.clock),
         heap := NotBefore(s.heap, s.clock))
    case CallNext =>
      var b := s.batch.value;
      var t := b.expired[b.next];
      s.(batch := Some(b.(next := b.next + 1)),
         calls := if t.id in s.live then s.calls + [Call(t.id, t.when, s.batches)] else s.calls)
    case Finish =>
      var b := s.batch.value;
      var (heap, live) := Reenter(s.heap, s.live, b.expired, b.now);
      ArmTop(s.(heap := heap, live := live, batch := None))
  }

  /** The start of a batch reads the timerfd if and only if it is due: afterwards none is due. */
  lemma FireReads(s: Timers, order: seq<Timer>)
    requires Can(s, Fire(order))
    ensures var armed := Do(s, Fire(order)).armed;
            && (armed.Some? ==> FiresAt(armed.value) > s.clock)
            && (s.armed.Some? && FiresAt(s.armed.value) > s.clock ==> armed == s.armed)
  {
  }
}
