/**
  Idle connections are closed by the timing wheel: a KickoffEntry is inserted when kicking off
  is enabled and again on activity, but at most once per second, and its destructor closes the
  connection (TcpConnectionImpl::extendLife, enableKickingOff, KickoffEntry).
 */
module IdleKick {
  import opened Options
  import opened WheelModel
  import opened WheelRuns

  /** The wheel's geometry, this connection's entry, and its timeout in seconds. */
  datatype Config = Config(n: nat, wheels: nat, id: nat, idle: nat)

  /** What happens on the loop, with the time of its one clock. `Other` is an insertion made
      for another connection. */
  datatype Event =
    | TickAt(at: real)
    | Activity(at: real)
    | Other(at: real, id: nat, delay: nat)

  /** `tickTimes[k]` is when the counter became `k`; entry 0 is when the wheel was made. */
  datatype Kick = Kick(ops: seq<Op>, now: real, lastUpdate: real, lastActivity: real,
                       tickTimes: seq<real>, closedAt: Option<real>)

  predicate Sound(c: Config) {
    c.n > 1 && c.wheels >= 1 && c.idle >= 1
  }

  ghost predicate AlwaysExact(c: Config, delay: nat)
    requires Sound(c)
  {
    forall t: nat :: Exact(c.n, c.wheels, t, delay)
  }

  /** Ticks are at least a second apart; `Steady` says exactly one. */
  ghost predicate Spaced(times: seq<real>) {
    forall k :: 0 < k < |times| ==> times[k] >= times[k - 1] + 1.0
  }

  ghost predicate Steady(times: seq<real>) {
    forall k :: 0 < k < |times| ==> times[k] == times[k - 1] + 1.0
  }

  ghost predicate WheelOk(c: Config, ops: seq<Op>) {
    Sound(c) && Legal(ops) && Fits(c.n, c.wheels, ops, c.id)
  }

  /** Kicking off is enabled at `start`, on a wheel with any history. */
  ghost predicate Init(c: Config, history: seq<Op>, times: seq<real>, start: real, lastUpdate: real) {
    && Sound(c) && AlwaysExact(c, c.idle)
    && WheelOk(c, history) && LastDeadline(history, c.id) == 0
    && |times| == Ticks(history) + 1 && Spaced(times)
    && times[|times| - 1] <= start && lastUpdate <= start
  }

  function Enabled(c: Config, history: seq<Op>, times: seq<real>, start: real, lastUpdate: real): Kick {
    Kick(history + [Add(c.id, c.idle + 1)], start, lastUpdate, start, times, None)
  }

  /** An event the loop may see next: time does not run back, ticks keep their distance. */
  ghost predicate Possible(c: Config, k: Kick, e: Event) {
    && Sound(c) && e.at >= k.now
    && match e
       case TickAt(at) => k.tickTimes != [] && at >= k.tickTimes[|k.tickTimes| - 1] + 1.0
       case Activity(_) => k.closedAt.None?
       case Other(_, id, delay) => id != c.id
  }

  ghost predicate Alive(c: Config, k: Kick)
    requires WheelOk(c, k.ops)
  {
    Held(Run(c.n, c.wheels, k.ops), c.id)
  }

  ghost function Step(c: Config, k: Kick, e: Event): Kick
    requires WheelOk(c, k.ops)
  {
    match e
    case TickAt(at) =>
      var k' := k.(ops := k.ops + [Turn], now := at, tickTimes := k.tickTimes + [at]);
      FitsTurn(c, k.ops);
      if Alive(c, k) && !Alive(c, k') then k'.(closedAt := Some(at)) else k'
    case Activity(at) =>
      var k' := k.(now := at, lastActivity := at);
      if at < k.lastUpdate + 1.0 then
        k'
      else if Alive(c, k) then
        k'.(lastUpdate := at, ops := k.ops + [Add(c.id, c.idle + 1)])
      else
        k'.(lastUpdate := at)
    case Other(at, id, delay) =>
      k.(now := at, ops := k.ops + [Add(id, delay + 1)])
  }

  lemma FitsTurn(c: Config, ops: seq<Op>)
    requires WheelOk(c, ops)
    ensures WheelOk(c, ops + [Turn])
  {
    assert forall i :: 0 <= i < |ops| ==> (ops + [Turn])[..i] == ops[..i];
  }

  lemma FitsAdd(c: Config, ops: seq<Op>, id: nat, delay: nat)
    requires WheelOk(c, ops) && (id == c.id ==> AlwaysExact(c, delay))
    ensures WheelOk(c, ops + [Add(id, delay + 1)])
  {
    assert forall i :: 0 <= i <= |ops| ==> (ops + [Add(id, delay + 1)])[..i] == ops[..i];
    if id == c.id {
      assert Exact(c.n, c.wheels, Ticks(ops[..|ops|]), delay);
    }
  }

  lemma Extended(ops: seq<Op>, op: Op, id: nat)
    ensures Ticks(ops + [op]) == Ticks(ops) + if op.Turn? then 1 else 0
    ensures LastDeadline(ops + [op], id) ==
            if op.Add? && op.id == id then Max(LastDeadline(ops, id), Ticks(ops) + op.delay) else LastDeadline(ops, id)
  {
  }

  // ---------------------------------------------------------------- the wheel as a deadline

  /** What is left of a state once the wheel is read as one deadline for this entry. */
  datatype Watch = Watch(ticks: nat, deadline: nat, now: real, lastUpdate: real, lastActivity: real,
                         tickTimes: seq<real>, closedAt: Option<real>)

  function WatchOf(c: Config, k: Kick): Watch {
    Watch(Ticks(k.ops), LastDeadline(k.ops, c.id), k.now, k.lastUpdate, k.lastActivity, k.tickTimes, k.closedAt)
  }

  function WatchStep(idle: nat, w: Watch, e: Event): Watch {
    match e
    case TickAt(at) =>
      var w' := w.(ticks := w.ticks + 1, now := at, tickTimes := w.tickTimes + [at]);
      if w.deadline == w'.ticks then w'.(closedAt := Some(at)) else w'
    case Activity(at) =>
      var w' := w.(now := at, lastActivity := at);
      if at < w.lastUpdate + 1.0 then
        w'
      else if w.deadline > w.ticks then
        w'.(lastUpdate := at, deadline := Max(w.deadline, w.ticks + idle + 1))
      else
        w'.(lastUpdate := at)
    case Other(at, _, _) => w.(now := at)
  }

  lemma TickWatched(c: Config, k: Kick)
    requires WheelOk(c, k.ops)
    ensures WheelOk(c, k.ops + [Turn])
    ensures Ticks(k.ops + [Turn]) == Ticks(k.ops) + 1 && LastDeadline(k.ops + [Turn], c.id) == LastDeadline(k.ops, c.id)
    ensures Held(Run(c.n, c.wheels, k.ops + [Turn]), c.id) <==> LastDeadline(k.ops, c.id) > Ticks(k.ops) + 1
  {
    FitsTurn(c, k.ops);
    Extended(k.ops, Turn, c.id);
    HeldUntilLastDeadline(c.n, c.wheels, k.ops + [Turn], c.id);
  }

  lemma TickIs(c: Config, k: Kick, at: real)
    requires WheelOk(c, k.ops)
    ensures WatchOf(c, Step(c, k, TickAt(at))) == WatchStep(c.idle, WatchOf(c, k), TickAt(at))
  {
    HeldUntilLastDeadline(c.n, c.wheels, k.ops, c.id);
    TickWatched(c, k);
  }

  lemma ActivityIs(c: Config, k: Kick, at: real)
    requires WheelOk(c, k.ops)
    ensures WatchOf(c, Step(c, k, Activity(at))) == WatchStep(c.idle, WatchOf(c, k), Activity(at))
  {
    HeldUntilLastDeadline(c.n, c.wheels, k.ops, c.id);
    Extended(k.ops, Add(c.id, c.idle + 1), c.id);
  }

  lemma StepIsWatchStep(c: Config, k: Kick, e: Event)
    requires WheelOk(c, k.ops) && AlwaysExact(c, c.idle) && Possible(c, k, e)
    ensures WatchOf(c, Step(c, k, e)) == WatchStep(c.idle, WatchOf(c, k), e)
  {
    match e {
      case TickAt(at) => TickIs(c, k, at);
      case Activity(at) => ActivityIs(c, k, at);
      case Other(_, id, delay) => Extended(k.ops, Add(id, delay + 1), c.id);
    }
  }

  lemma StepFits(c: Config, k: Kick, e: Event)
    requires WheelOk(c, k.ops) && AlwaysExact(c, c.idle) && Possible(c, k, e)
    ensures WheelOk(c, Step(c, k, e).ops)
  {
    match e {
      case TickAt(at) => FitsTurn(c, k.ops);
      case Activity(_) => FitsAdd(c, k.ops, c.id, c.idle);
      case Other(_, id, delay) => FitsAdd(c, k.ops, id, delay);
    }
  }

  // ---------------------------------------------------------------- what every event keeps

  /** The entry was last inserted at time `u`, when the counter was `T`; the last activity is
      less than a second after that. */
  ghost predicate Inv(idle: nat, w: Watch, T: nat, u: real) {
    && |w.tickTimes| == w.ticks + 1 && Spaced(w.tickTimes)
    && w.tickTimes[w.ticks] <= w.now
    && T <= w.ticks && w.deadline == T + idle + 1
    && w.tickTimes[T] <= u <= w.lastActivity <= w.now
    && w.lastActivity < u + 1.0 && w.lastUpdate <= u
    && (T < w.ticks ==> u <= w.tickTimes[T + 1])
    && (w.closedAt.None? <==> w.deadline > w.ticks)
    && (w.closedAt.Some? ==> w.closedAt.value == w.tickTimes[w.deadline])
  }

  lemma StepInv(idle: nat, w: Watch, e: Event, T: nat, u: real) returns (T': nat, u': real)
    requires Inv(idle, w, T, u) && e.at >= w.now
    requires e.TickAt? ==> e.at >= w.tickTimes[w.ticks] + 1.0
    requires e.Activity? ==> w.closedAt.None?
    ensures Inv(idle, WatchStep(idle, w, e), T', u')
  {
    if e.Activity? && e.at >= w.lastUpdate + 1.0 {
      T', u' := w.ticks, e.at;
    } else {
      T', u' := T, u;
    }
  }

  /** `k'` is reached from `k` by the events, each possible when it happens. */
  ghost predicate Trace(c: Config, k: Kick, events: seq<Event>, k': Kick)
    decreases |events|
  {
    if events == [] then
      k' == k
    else
      WheelOk(c, k.ops) && Possible(c, k, events[0]) && Trace(c, Step(c, k, events[0]), events[1..], k')
  }

  lemma {:induction false} TraceInv(c: Config, k: Kick, events: seq<Event>, k': Kick, T: nat, u: real)
    returns (T': nat, u': real)
    requires WheelOk(c, k.ops) && AlwaysExact(c, c.idle) && Inv(c.idle, WatchOf(c, k), T, u)
    requires Trace(c, k, events, k')
    ensures WheelOk(c, k'.ops) && Inv(c.idle, WatchOf(c, k'), T', u')
    decreases |events|
  {
    T', u' := T, u;
    if events != [] {
      StepFits(c, k, events[0]);
      StepIsWatchStep(c, k, events[0]);
      T', u' := StepInv(c.idle, WatchOf(c, k), events[0], T, u);
      T', u' := TraceInv(c, Step(c, k, events[0]), events[1..], k', T', u');
    }
  }

  lemma InitFits(c: Config, history: seq<Op>, times: seq<real>, start: real, lastUpdate: real)
    requires Init(c, history, times, start, lastUpdate)
    ensures WheelOk(c, Enabled(c, history, times, start, lastUpdate).ops) && AlwaysExact(c, c.idle) && c.idle >= 1
  {
    FitsAdd(c, history, c.id, c.idle);
  }

  lemma InitInv(c: Config, history: seq<Op>, times: seq<real>, start: real, lastUpdate: real)
    requires Init(c, history, times, start, lastUpdate)
    ensures Inv(c.idle, WatchOf(c, Enabled(c, history, times, start, lastUpdate)), Ticks(history), start)
  {
  }

  lemma {:induction false} Distance(times: seq<real>, i: nat, j: nat)
    requires Spaced(times) && i <= j < |times|
    ensures times[j] >= times[i] + (j - i) as real
    ensures Steady(times) ==> times[j] == times[i] + (j - i) as real
    decreases j - i
  {
    if i < j {
      Distance(times, i, j - 1);
    }
  }

  lemma InvBounds(idle: nat, w: Watch, T: nat, u: real)
    requires Inv(idle, w, T, u) && idle >= 1
    ensures w.closedAt.Some? ==> w.closedAt.value > w.lastActivity + idle as real - 1.0
    ensures w.closedAt.Some? && Steady(w.tickTimes) ==> w.closedAt.value <= w.lastActivity + idle as real + 1.0
    ensures w.closedAt.None? && Steady(w.tickTimes) ==> w.tickTimes[w.ticks] < w.lastActivity + idle as real + 1.0
  {
    if w.closedAt.Some? {
      Distance(w.tickTimes, T, T + idle + 1);
      Distance(w.tickTimes, T + 1, T + idle + 1);
    } else {
      Distance(w.tickTimes, T, w.ticks);
    }
  }

  lemma Reached(c: Config, history: seq<Op>, times: seq<real>, start: real, lastUpdate: real,
                events: seq<Event>, k: Kick) returns (T: nat, u: real)
    requires Init(c, history, times, start, lastUpdate)
    requires Trace(c, Enabled(c, history, times, start, lastUpdate), events, k)
    ensures c.idle >= 1 && WheelOk(c, k.ops) && Inv(c.idle, WatchOf(c, k), T, u)
  {
    InitFits(c, history, times, start, lastUpdate);
    InitInv(c, history, times, start, lastUpdate);
    T, u := TraceInv(c, Enabled(c, history, times, start, lastUpdate), events, k, Ticks(history), start);
  }

  lemma KickBounds(c: Config, k: Kick, T: nat, u: real)
    requires Inv(c.idle, WatchOf(c, k), T, u) && c.idle >= 1
    ensures k.tickTimes != []
    ensures k.closedAt.Some? ==> k.closedAt.value > k.lastActivity + c.idle as real - 1.0
    ensures k.closedAt.Some? && Steady(k.tickTimes) ==> k.closedAt.value <= k.lastActivity + c.idle as real + 1.0
    ensures k.closedAt.None? && Steady(k.tickTimes) ==>
              k.tickTimes[|k.tickTimes| - 1] < k.lastActivity + c.idle as real + 1.0
  {
    InvBounds(c.idle, WatchOf(c, k), T, u);
  }

  /** Whatever the loop sees after kicking off is enabled: the connection is never closed before
      its last activity is `idle - 1` seconds old, as long as ticks are a second apart or more;
      with ticks one second apart it is closed by the time the activity is `idle + 1` old. */
  lemma IdleKickBound(c: Config, history: seq<Op>, times: seq<real>, start: real, lastUpdate: real,
                      events: seq<Event>, k: Kick)
    requires Init(c, history, times, start, lastUpdate)
    requires Trace(c, Enabled(c, history, times, start, lastUpdate), events, k)
    ensures k.closedAt.Some? ==> k.closedAt.value > k.lastActivity + c.idle as real - 1.0
    ensures k.closedAt.Some? && Steady(k.tickTimes) ==> k.closedAt.value <= k.lastActivity + c.idle as real + 1.0
    ensures k.closedAt.None? && Steady(k.tickTimes) ==>
              k.tickTimes != [] && k.tickTimes[|k.tickTimes| - 1] < k.lastActivity + c.idle as real + 1.0
    ensures WheelOk(c, k.ops) && (k.closedAt.None? <==> Alive(c, k))
  {
    var T, u := Reached(c, history, times, start, lastUpdate, events, k);
    AliveWhileOpen(c, k, T, u);
    KickBounds(c, k, T, u);
  }

  lemma AliveWhileOpen(c: Config, k: Kick, T: nat, u: real)
    requires WheelOk(c, k.ops) && Inv(c.idle, WatchOf(c, k), T, u)
    ensures k.closedAt.None? <==> Alive(c, k)
  {
    HeldUntilLastDeadline(c.n, c.wheels, k.ops, c.id);
  }

  // ---------------------------------------------------------------- how often it is inserted

  /** The insertions of an entry. */
  function Insertions(ops: seq<Op>, id: nat): nat {
    if ops == [] then
      0
    else
      var last := ops[|ops| - 1];
      Insertions(ops[..|ops| - 1], id) + if last.Add? && last.id == id then 1 else 0
  }

  lemma InsertionsNext(ops: seq<Op>, op: Op, id: nat)
    ensures Insertions(ops + [op], id) == Insertions(ops, id) + if op.Add? && op.id == id then 1 else 0
  {
  }

  ghost predicate ActiveAt(events: seq<Event>, at: real) {
    exists j :: 0 <= j < |events| && events[j] == Activity(at)
  }

  ghost predicate Recent(updates: seq<real>, at: real) {
    exists i :: 0 <= i < |updates| && updates[i] <= at < updates[i] + 1.0
  }

  /** The update before the events, then each time of an activity that comes a second or more after
      the last of these times. */
  ghost predicate AreUpdates(updates: seq<real>, before: real, events: seq<Event>) {
    && updates != [] && updates[0] == before && Spaced(updates)
    && (forall i {:trigger updates[i]} :: 0 < i < |updates| ==> ActiveAt(events, updates[i]))
    && (forall j :: 0 <= j < |events| && events[j].Activity? ==> Recent(updates, events[j].at))
  }

  lemma NoUpdate(updates: seq<real>, before: real, events: seq<Event>)
    requires events != [] && AreUpdates(updates, before, events[1..])
    requires events[0].Activity? ==> before <= events[0].at < before + 1.0
    ensures AreUpdates(updates, before, events)
  {
    forall i | 0 < i < |updates| ensures ActiveAt(events, updates[i]) {
      assert ActiveAt(events[1..], updates[i]);
      var j :| 0 <= j < |events[1..]| && events[1..][j] == Activity(updates[i]);
      assert events[j + 1] == Activity(updates[i]);
    }
    forall j | 0 <= j < |events| && events[j].Activity? ensures Recent(updates, events[j].at) {
      if j == 0 {
        assert updates[0] <= events[j].at < updates[0] + 1.0;
      } else {
        assert events[1..][j - 1] == events[j];
      }
    }
  }

  lemma SpacedCons(before: real, updates: seq<real>)
    requires updates != [] && Spaced(updates) && updates[0] >= before + 1.0
    ensures Spaced([before] + updates)
  {
    var all := [before] + updates;
    forall i | 0 < i < |all| ensures all[i] >= all[i - 1] + 1.0 {
      assert all[i] == updates[i - 1] && (i > 1 ==> all[i - 1] == updates[i - 2]);
    }
  }

  lemma RecentCons(before: real, updates: seq<real>, at: real)
    requires Recent(updates, at)
    ensures Recent([before] + updates, at)
  {
    var i :| 0 <= i < |updates| && updates[i] <= at < updates[i] + 1.0;
    assert ([before] + updates)[i + 1] == updates[i];
  }

  lemma OneUpdate(updates: seq<real>, before: real, events: seq<Event>)
    requires events != [] && events[0].Activity? && events[0].at >= before + 1.0
    requires AreUpdates(updates, events[0].at, events[1..])
    ensures AreUpdates([before] + updates, before, events)
  {
    var all := [before] + updates;
    NoUpdate(updates, events[0].at, events);
    SpacedCons(before, updates);
    forall i {:trigger all[i]} | 0 < i < |all| ensures ActiveAt(events, all[i]) {
      assert all[i] == updates[i - 1];
      assert events[0] == Activity(updates[0]);
    }
    forall j | 0 <= j < |events| && events[j].Activity? ensures Recent(all, events[j].at) {
      RecentCons(before, updates, events[j].at);
    }
  }

  /** While the connection is open, an activity inserts its entry if and only if the last update is a
      second old; nothing else inserts it. */
  lemma StepInserts(c: Config, k: Kick, e: Event, T: nat, u: real)
    requires WheelOk(c, k.ops) && Inv(c.idle, WatchOf(c, k), T, u) && Possible(c, k, e)
    ensures var k', updates := Step(c, k, e), e.Activity? && e.at >= k.lastUpdate + 1.0;
            && Insertions(k'.ops, c.id) == Insertions(k.ops, c.id) + (if updates then 1 else 0)
            && k'.lastUpdate == (if updates then e.at else k.lastUpdate)
  {
    AliveWhileOpen(c, k, T, u);
    match e {
      case TickAt(at) => InsertionsNext(k.ops, Turn, c.id);
      case Activity(_) => InsertionsNext(k.ops, Add(c.id, c.idle + 1), c.id);
      case Other(_, id, delay) => InsertionsNext(k.ops, Add(id, delay + 1), c.id);
    }
  }

  /** What an event adds to the calls of the wheel. */
  lemma StepAdds(c: Config, k: Kick, e: Event)
    requires WheelOk(c, k.ops)
    ensures var ops := Step(c, k, e).ops;
            match e {
              case TickAt(_) => ops == k.ops + [Turn]
              case Activity(_) => ops == k.ops || ops == k.ops + [Add(c.id, c.idle + 1)]
              case Other(_, id, delay) => ops == k.ops + [Add(id, delay + 1)]
            }
  {
  }

  /** Other connections' insertions reach the wheel, and nothing else touches their deadlines. */
  lemma OthersServed(c: Config, k: Kick, e: Event, id: nat)
    requires WheelOk(c, k.ops) && id != c.id
    ensures LastDeadline(Step(c, k, e).ops, id) ==
            if e.Other? && e.id == id then Max(LastDeadline(k.ops, id), Ticks(k.ops) + e.delay + 1)
            else LastDeadline(k.ops, id)
  {
    StepAdds(c, k, e);
    Extended(k.ops, Turn, id);
    Extended(k.ops, Add(c.id, c.idle + 1), id);
    if e.Other? {
      Extended(k.ops, Add(e.id, e.delay + 1), id);
    }
  }

  lemma {:induction false} TraceUpdates(c: Config, k: Kick, events: seq<Event>, k': Kick, T: nat, u: real)
    returns (updates: seq<real>)
    requires WheelOk(c, k.ops) && AlwaysExact(c, c.idle) && Inv(c.idle, WatchOf(c, k), T, u)
    requires Trace(c, k, events, k')
    ensures AreUpdates(updates, k.lastUpdate, events)
    ensures Insertions(k'.ops, c.id) == Insertions(k.ops, c.id) + |updates| - 1
    decreases |events|
  {
    updates := [k.lastUpdate];
    if events != [] {
      var e, k1 := events[0], Step(c, k, events[0]);
      StepFits(c, k, e);
      StepIsWatchStep(c, k, e);
      StepInserts(c, k, e, T, u);
      var T1, u1 := StepInv(c.idle, WatchOf(c, k), e, T, u);
      updates := TraceUpdates(c, k1, events[1..], k', T1, u1);
      if e.Activity? && e.at >= k.lastUpdate + 1.0 {
        OneUpdate(updates, k.lastUpdate, events);
        updates := [k.lastUpdate] + updates;
      } else {
        NoUpdate(updates, k.lastUpdate, events);
      }
    }
  }

  /** Whatever the loop sees after kicking off is enabled, activity inserts the entry at times that are
      a second or more apart, and every activity is less than a second later than one of them. */
  lemma UpdatesExactly(c: Config, history: seq<Op>, times: seq<real>, start: real, lastUpdate: real,
                       events: seq<Event>, k: Kick) returns (updates: seq<real>)
    requires Init(c, history, times, start, lastUpdate)
    requires Trace(c, Enabled(c, history, times, start, lastUpdate), events, k)
    ensures AreUpdates(updates, lastUpdate, events)
    ensures Insertions(k.ops, c.id) == Insertions(history, c.id) + |updates|
  {
    InitFits(c, history, times, start, lastUpdate);
    InitInv(c, history, times, start, lastUpdate);
    updates := TraceUpdates(c, Enabled(c, history, times, start, lastUpdate), events, k, Ticks(history), start);
    InsertionsNext(history, Add(c.id, c.idle + 1), c.id);
  }

  /** The wheel that TcpServer makes for its idle timeout meets what `Init` asks of it. */
  lemma ServerWheelExact(c: Config)
    requires c.idle > 1 && c.n == ServerBuckets(c.idle) && LeastRows(c.n, c.idle, c.wheels)
    ensures Sound(c) && AlwaysExact(c, c.idle)
  {
    forall t: nat ensures Exact(c.n, c.wheels, t, c.idle) {
      ServerGeometry(c.idle, c.wheels, t);
    }
  }
}
