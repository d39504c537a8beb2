/**
  Adding and cancelling timers from other threads: both are posted to the loop as functors. This
  composes the lock-free queue, the event loop and the timer queue.
 */
module TimerOrder {
  import Q = MpscQueue
  import R = MpscRuns
  import E = EventLoop
  import F = Functors
  import T = TimerModel
  import P = TimerProof
  import S = TimerRuns

  /** The functors of `addTimer` and `invalidateTimer`; `Foreign` does something else. */
  datatype Task =
    | Insert(t: T.Timer)
    | Erase(id: nat)
    | Foreign

  function StepOf(task: Task): T.Step
    requires !task.Foreign?
  {
    match task
    case Insert(t) => T.Add(t)
    case Erase(id) => T.Cancel(id)
  }

  /** The loop with its queue, its timers, and how many functors have been run. */
  datatype System = System(loop: E.Loop<Task>, timers: T.Timers, ran: nat)

  /** `Remote` is any step of any thread on the queue or the loop; at the end of a dequeue the
      functor runs. `Local` is anything the loop's thread does with its timers, and the
      construction of a timer by any thread. */
  datatype Event =
    | Remote(s: E.LoopStep<Task>)
    | Local(step: T.Step)

  function Begin(timers: T.Timers): System {
    System(E.Begin(), timers, 0)
  }

  ghost predicate CanCall(s: T.Timers, task: Task) {
    !task.Foreign? ==> T.Can(s, StepOf(task))
  }

  ghost function Call(s: T.Timers, task: Task): T.Timers
    requires CanCall(s, task)
  {
    if task.Foreign? then s else T.Do(s, StepOf(task))
  }

  ghost predicate Can(y: System, e: Event) {
    match e
    case Remote(s) =>
      && E.CanStep(y.loop, s) && E.SafeStep(y.loop, s)
      && (F.Runs(s) ==> F.Dequeued(y.loop.queue) && CanCall(y.timers, F.Posted(y.loop.queue).1))
    case Local(step) => T.Can(y.timers, step)
  }

  ghost function Step(y: System, e: Event): System
    requires Can(y, e)
  {
    match e
    case Remote(s) =>
      if F.Runs(s) then
        System(E.Do(y.loop, s), Call(y.timers, F.Posted(y.loop.queue).1), y.ran + 1)
      else
        y.(loop := E.Do(y.loop, s))
    case Local(step) => y.(timers := T.Do(y.timers, step))
  }

  ghost predicate IsRun(y: System, events: seq<Event>, y': System)
    decreases |events|
  {
    if events == [] then y' == y else Can(y, events[0]) && IsRun(Step(y, events[0]), events[1..], y')
  }

  // ---------------------------------------------------------------- what every event keeps

  lemma ArrivedStep(s: T.Timers, step: T.Step, id: nat)
    requires T.Can(s, step) && S.Arrived(s, id)
    ensures S.Arrived(T.Do(s, step), id)
  {
    match step {
      case Finish =>
      case _ =>
    }
  }

  /** What the functors run so far have brought about: inserted timers have arrived, and a timer
      erased after its insertion is dead. */
  ghost predicate Settled(s: T.Timers, posts: seq<(nat, Task)>, ran: nat)
    requires ran <= |posts|
  {
    && (forall i :: 0 <= i < ran && posts[i].1.Insert? ==> S.Arrived(s, posts[i].1.t.id))
    && (forall i, j :: 0 <= i < j < ran && posts[i].1.Insert? && posts[j].1 == Erase(posts[i].1.t.id) ==>
          S.Dead(s, posts[i].1.t.id))
  }

  lemma SettledStep(s: T.Timers, step: T.Step, posts: seq<(nat, Task)>, ran: nat)
    requires P.Unique(s) && T.Can(s, step) && ran <= |posts| && Settled(s, posts, ran)
    ensures Settled(T.Do(s, step), posts, ran)
  {
    forall i | 0 <= i < ran && posts[i].1.Insert? ensures S.Arrived(T.Do(s, step), posts[i].1.t.id) {
      ArrivedStep(s, step, posts[i].1.t.id);
    }
    forall i, j | 0 <= i < j < ran && posts[i].1.Insert? && posts[j].1 == Erase(posts[i].1.t.id)
      ensures S.Dead(T.Do(s, step), posts[i].1.t.id)
    {
      S.DeadStep(s, step, posts[i].1.t.id);
    }
  }

  lemma InsertArrives(s: T.Timers, t: T.Timer)
    requires P.Unique(s) && T.Can(s, T.Add(t))
    ensures S.Arrived(T.Do(s, T.Add(t)), t.id)
  {
    assert t in P.All(s);
    forall u | u in s.waiting - {t} ensures u.id != t.id {
      assert u in P.All(s);
    }
  }

  lemma EraseKills(s: T.Timers, id: nat)
    requires S.Arrived(s, id)
    ensures S.Dead(T.Do(s, T.Cancel(id)), id)
  {
  }

  lemma CallSettles(s: T.Timers, posts: seq<(nat, Task)>, ran: nat)
    requires P.Unique(s) && ran < |posts| && Settled(s, posts, ran) && CanCall(s, posts[ran].1)
    ensures Settled(Call(s, posts[ran].1), posts, ran + 1)
  {
    var task := posts[ran].1;
    match task {
      case Insert(t) =>
        SettledStep(s, T.Add(t), posts, ran);
        InsertArrives(s, t);
      case Erase(id) =>
        SettledStep(s, T.Cancel(id), posts, ran);
        forall i | 0 <= i < ran && posts[i].1.Insert? && posts[i].1.t.id == id ensures S.Dead(Call(s, task), id) {
          EraseKills(s, id);
        }
      case Foreign =>
    }
  }

  ghost predicate Inv(y: System) {
    && F.QueueOk(y.loop.queue) && y.ran == Q.Low(y.loop.queue) && y.ran <= |y.loop.queue.enqueued|
    && P.Inv(y.timers) && Settled(y.timers, y.loop.queue.enqueued, y.ran)
  }

  lemma LaterPosts(s: T.Timers, posts: seq<(nat, Task)>, posts': seq<(nat, Task)>, ran: nat)
    requires ran <= |posts| <= |posts'| && posts'[..|posts|] == posts && Settled(s, posts, ran)
    ensures Settled(s, posts', ran)
  {
    assert forall i :: 0 <= i < |posts| ==> posts'[i] == posts[i];
  }

  lemma CallKeeps(y: System, s: E.LoopStep<Task>)
    requires Inv(y) && Can(y, Remote(s)) && F.Runs(s)
    ensures Inv(Step(y, Remote(s)))
  {
    var posts, task := y.loop.queue.enqueued, F.Posted(y.loop.queue).1;
    F.QueueKeeps(y.loop, s);
    F.NextPosted(y.loop.queue);
    CallSettles(y.timers, posts, y.ran);
    if !task.Foreign? {
      P.StepKeeps(y.timers, StepOf(task));
    }
    LaterPosts(Call(y.timers, task), posts, E.Do(y.loop, s).queue.enqueued, y.ran + 1);
  }

  lemma StepKeeps(y: System, e: Event)
    requires Inv(y) && Can(y, e)
    ensures Inv(Step(y, e))
  {
    match e {
      case Local(step) =>
        P.StepKeeps(y.timers, step);
        SettledStep(y.timers, step, y.loop.queue.enqueued, y.ran);
      case Remote(s) =>
        if F.Runs(s) {
          CallKeeps(y, s);
        } else {
          F.QueueKeeps(y.loop, s);
          LaterPosts(y.timers, y.loop.queue.enqueued, E.Do(y.loop, s).queue.enqueued, y.ran);
        }
    }
  }

  lemma {:induction false} RunKeeps(y: System, events: seq<Event>, y': System)
    requires Inv(y) && IsRun(y, events, y')
    ensures Inv(y')
    decreases |events|
  {
    if events != [] {
      StepKeeps(y, events[0]);
      RunKeeps(Step(y, events[0]), events[1..], y');
    }
  }

  // ---------------------------------------------------------------- whole runs

  lemma DeadEvent(y: System, e: Event, id: nat)
    requires P.Unique(y.timers) && Can(y, e) && S.Dead(y.timers, id)
    ensures S.Dead(Step(y, e).timers, id)
    ensures P.Count(Step(y, e).timers.calls, id) == P.Count(y.timers.calls, id)
  {
    match e {
      case Local(step) => S.DeadStep(y.timers, step, id);
      case Remote(s) =>
        if F.Runs(s) && !F.Posted(y.loop.queue).1.Foreign? {
          S.DeadStep(y.timers, StepOf(F.Posted(y.loop.queue).1), id);
        }
    }
  }

  lemma {:induction false} DeadRun(y: System, events: seq<Event>, y': System, id: nat)
    requires Inv(y) && IsRun(y, events, y') && S.Dead(y.timers, id)
    ensures P.Count(y'.timers.calls, id) == P.Count(y.timers.calls, id)
    decreases |events|
  {
    if events != [] {
      StepKeeps(y, events[0]);
      DeadEvent(y, events[0], id);
      DeadRun(Step(y, events[0]), events[1..], y', id);
    }
  }

  /** A thread adds a timer (its `i`-th functor) and cancels it afterwards (its `j`-th). Whatever
      all threads and all callbacks do, once the loop has run the cancellation the timer is never
      called again. */
  lemma CancelAfterAdd(timers: T.Timers, events: seq<Event>, y: System, p: nat, i: nat, j: nat,
                       more: seq<Event>, y': System)
    requires P.Inv(timers) && IsRun(Begin(timers), events, y) && IsRun(y, more, y')
    requires y.ran <= |y.loop.queue.enqueued| && i < j < |R.By(y.loop.queue.calls, p)|
    requires j < |R.By(y.loop.queue.enqueued[..y.ran], p)|
    requires R.By(y.loop.queue.calls, p)[i].Insert?
    requires R.By(y.loop.queue.calls, p)[j] == Erase(R.By(y.loop.queue.calls, p)[i].t.id)
    ensures var id := R.By(y.loop.queue.calls, p)[i].t.id;
            P.Count(y'.timers.calls, id) == P.Count(y.timers.calls, id)
  {
    Q.CreateInv<Task>();
    RunKeeps(Begin(timers), events, y);
    var q := y.loop.queue;
    F.RunInCallOrder(q, y.ran, p);
    var a, b := F.Places(q.enqueued[..y.ran], p, i, j);
    assert q.enqueued[a].1 == R.By(q.calls, p)[i] && q.enqueued[b].1 == R.By(q.calls, p)[j];
    DeadRun(y, more, y', q.enqueued[a].1.t.id);
  }
}
