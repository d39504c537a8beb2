/**
  The event loop's functor queue and its wakeup descriptor (xiaoNet/net/EventLoop.cpp) as a
  machine of steps over the lock-free queue: any number of threads post functors, the loop
  thread polls, handles events and drains.
 */
module EventLoop {
  import opened MpscQueue

  /** The loop's own thread is one of the producers. */
  const LOOP: nat := 0

  datatype Pc =
    | Stopped
    | Checking
    | Polling
    | Handling(woken: bool)
    | Draining

  /** `wakeups` is the counter of the eventfd; `owing` are the threads that have linked their
      functor and not yet called `wakeup`, `quitting` those that have set `quit` and not yet. */
  datatype Loop<T> =
    Loop(queue: Queue<T>, pc: Pc, wakeups: nat, owing: set<nat>, quit: bool, quitting: set<nat>)

  datatype LoopStep<T> =
    | Post(s: Step<T>)           // a step of a thread inside queueInLoop
    | Wake(p: nat)               // wakeup() of a thread that owes it
    | Quit(p: nat)               // quit(): the flag is set
    | QuitWakes(p: nat)          // quit(): wakeup() of a thread other than the loop's
    | Start                      // loop() begins and clears the flag
    | Check                      // the condition of its while loop
    | PollReturns(woken: bool)   // epoll_wait returns, with or without the wakeup channel
    | ReadWakeup                 // wakeupRead()
    | Handled                    // all active channels handled
    | Drain(s: Step<T>)          // a step of dequeue
    | DrainEnds                  // empty() says yes

  function Begin<T>(): Loop<T> {
    Loop(Create(), Stopped, 0, {}, false, {})
  }

  /** The loop's thread posts and quits only where it calls out: before `loop()` and after, while it
      handles events, and from functors. */
  predicate CanCall<T>(l: Loop<T>, p: nat) {
    p == LOOP ==> !l.pc.Checking? && !l.pc.Polling? && l.queue.consumer.Ready?
  }

  predicate LoopIdle<T>(l: Loop<T>) {
    l.queue.consumer.Ready? && LOOP !in l.queue.producers && LOOP !in l.owing
  }

  predicate CanStep<T>(l: Loop<T>, s: LoopStep<T>) {
    match s
    case Post(d) =>
      && (d.Alloc? || d.Exchange? || d.Link?) && CanCall(l, d.p)
      && (d.Alloc? ==> d.p !in l.owing) && Enabled(l.queue, d)
    case Wake(p) => p in l.owing
    case Quit(p) => CanCall(l, p) && p !in l.quitting
    case QuitWakes(p) => p in l.quitting
    case Start => l.pc.Stopped? && LoopIdle(l)
    case Check => l.pc.Checking?
    case PollReturns(woken) => l.pc.Polling? && (woken ==> l.wakeups > 0)
    case ReadWakeup => l.pc == Handling(true) && LoopIdle(l)
    case Handled => l.pc == Handling(false) && LoopIdle(l)
    case Drain(d) =>
      l.pc.Draining? && (d.Load? || d.Take? || d.Free?) && LOOP !in l.queue.producers && Enabled(l.queue, d)
    case DrainEnds => l.pc.Draining? && LoopIdle(l) && IsEmpty(l.queue)
  }

  /** `empty()`: the tail has no successor. */
  predicate IsEmpty<T>(q: Queue<T>) {
    q.tail in q.heap && q.heap[q.tail].next.None?
  }

  predicate SafeStep<T>(l: Loop<T>, s: LoopStep<T>)
    requires CanStep(l, s)
  {
    match s
    case Post(d) => Safe(l.queue, d)
    case Drain(d) => Safe(l.queue, d)
    case _ => true
  }

  function Do<T>(l: Loop<T>, s: LoopStep<T>): Loop<T>
    requires CanStep(l, s) && SafeStep(l, s)
  {
    match s
    case Post(d) =>
      // queueInLoop: a post from the loop's own thread while it is looping skips the wakeup
      var owes := d.Link? && (d.p != LOOP || l.pc.Stopped?);
      l.(queue := Apply(l.queue, d), owing := if owes then l.owing + {d.p} else l.owing)
    case Wake(p) => l.(wakeups := l.wakeups + 1, owing := l.owing - {p})
    case Quit(p) => l.(quit := true, quitting := if p != LOOP then l.quitting + {p} else l.quitting)
    case QuitWakes(p) => l.(wakeups := l.wakeups + 1, quitting := l.quitting - {p})
    case Start => l.(pc := Checking, quit := false)
    case Check => l.(pc := if l.quit then Stopped else Polling)
    case PollReturns(woken) => l.(pc := Handling(woken))
    case ReadWakeup => l.(pc := Handling(false), wakeups := 0)
    case Handled => l.(pc := Draining)
    case Drain(d) => l.(queue := Apply(l.queue, d))
    case DrainEnds => l.(pc := Checking)
  }

  /** Thread `p` is between its head exchange and its wakeup call. */
  predicate WillWake<T>(l: Loop<T>, p: nat) {
    p in l.owing || (p in l.queue.producers && l.queue.producers[p].Exchanged?)
  }

  predicate LogicallyEmpty<T>(q: Queue<T>) {
    |q.dequeued| == |q.enqueued|
  }

  ghost predicate Covered<T>(l: Loop<T>) {
    LogicallyEmpty(l.queue) || l.wakeups > 0 || exists p :: WillWake(l, p)
  }

  /** The loop is not inside a round. */
  predicate Between<T>(l: Loop<T>) {
    l.pc.Stopped? || l.pc.Checking? || l.pc.Polling?
  }

  ghost predicate LoopInv<T>(l: Loop<T>) {
    && Inv(l.queue)
    && (l.pc.Checking? || l.pc.Polling? ==> LoopIdle(l))
    && (Between(l) ==> Covered(l))
    && (l.pc.Polling? && l.quit ==> l.wakeups > 0 || l.quitting != {})
  }

  lemma QueuePart<T>(l: Loop<T>, s: LoopStep<T>)
    requires Inv(l.queue) && CanStep(l, s)
    ensures SafeStep(l, s) && Inv(Do(l, s).queue)
  {
    match s {
      case Post(d) => StepInv(l.queue, d);
      case Drain(d) => StepInv(l.queue, d);
      case _ =>
    }
  }

  /** When the loop leaves the drain, what it has not run belongs to a thread that will wake it. */
  lemma DrainLeavesCovered<T>(l: Loop<T>)
    requires Inv(l.queue) && IsEmpty(l.queue)
    ensures LogicallyEmpty(l.queue) || WillWake(l, l.queue.enqueued[|l.queue.dequeued|].0)
  {
    var q := l.queue;
    assert |q.dequeued| < |q.enqueued| ==> LinkOk(q, |q.dequeued|);
  }

  lemma PostKeepsCovered<T>(l: Loop<T>, s: LoopStep<T>)
    requires Inv(l.queue) && CanStep(l, s) && s.Post? && SafeStep(l, s) && Between(l)
    requires Covered(l)
    ensures Covered(Do(l, s))
  {
    var l' := Do(l, s);
    match s.s {
      case Alloc(p, _) =>
        if exists r :: WillWake(l, r) {
          var r :| WillWake(l, r);
          assert WillWake(l', r);
        }
      case Exchange(p) => assert WillWake(l', p);
      case Link(p) => assert WillWake(l', p);
    }
  }

  lemma StepKeepsCovered<T>(l: Loop<T>, s: LoopStep<T>)
    requires LoopInv(l) && CanStep(l, s) && SafeStep(l, s)
    ensures Between(Do(l, s)) ==> Covered(Do(l, s))
  {
    var l' := Do(l, s);
    if s.Post? && Between(l) {
      PostKeepsCovered(l, s);
    } else if s.DrainEnds? {
      DrainLeavesCovered(l);
      assert LogicallyEmpty(l.queue) || WillWake(l', l.queue.enqueued[|l.queue.dequeued|].0);
    } else if s.Start? || s.Check? || s.Quit? {
      if exists r :: WillWake(l, r) {
        var r :| WillWake(l, r);
        assert WillWake(l', r);
      }
    }
  }

  lemma StepKeepsIdle<T>(l: Loop<T>, s: LoopStep<T>)
    requires LoopInv(l) && CanStep(l, s) && SafeStep(l, s)
    ensures var l' := Do(l, s); l'.pc.Checking? || l'.pc.Polling? ==> LoopIdle(l')
  {
  }

  lemma StepKeepsQuit<T>(l: Loop<T>, s: LoopStep<T>)
    requires LoopInv(l) && CanStep(l, s) && SafeStep(l, s)
    ensures var l' := Do(l, s); l'.pc.Polling? && l'.quit ==> l'.wakeups > 0 || l'.quitting != {}
  {
    if s.Quit? && l.pc.Polling? {
      assert s.p in Do(l, s).quitting;
    }
  }

  ghost predicate LoopRun<T>(l: Loop<T>, steps: seq<LoopStep<T>>, l': Loop<T>)
    decreases |steps|
  {
    if steps == [] then
      l' == l
    else
      CanStep(l, steps[0]) && SafeStep(l, steps[0]) && LoopRun(Do(l, steps[0]), steps[1..], l')
  }

  lemma {:induction false} LoopRunInv<T>(l: Loop<T>, steps: seq<LoopStep<T>>, l': Loop<T>)
    requires LoopInv(l) && LoopRun(l, steps, l')
    ensures LoopInv(l')
    decreases |steps|
  {
    if steps != [] {
      QueuePart(l, steps[0]);
      StepKeepsCovered(l, steps[0]);
      StepKeepsIdle(l, steps[0]);
      StepKeepsQuit(l, steps[0]);
      LoopRunInv(Do(l, steps[0]), steps[1..], l');
    }
  }

  /** Whenever the loop sits in poll and its wakeup counter is zero, no functor is left, or a
      thread other than the loop's is still on its way to `wakeup`. */
  lemma NoLostWakeup<T>(steps: seq<LoopStep<T>>, l: Loop<T>)
    requires LoopRun(Begin(), steps, l) && l.pc.Polling? && l.wakeups == 0
    ensures LogicallyEmpty(l.queue) || exists p :: p != LOOP && WillWake(l, p)
  {
    CreateInv<T>();
    LoopRunInv(Begin(), steps, l);
    if !LogicallyEmpty(l.queue) {
      var p :| WillWake(l, p);
      assert p != LOOP;
    }
  }

  /** Whenever the loop sits in poll although it has been asked to quit, it will be woken. */
  lemma NoLostQuit<T>(steps: seq<LoopStep<T>>, l: Loop<T>)
    requires LoopRun(Begin(), steps, l) && l.pc.Polling? && l.quit && l.wakeups == 0
    ensures exists p :: p != LOOP && p in l.quitting
  {
    CreateInv<T>();
    LoopRunInv(Begin(), steps, l);
    var p :| p in l.quitting;
    assert p != LOOP by {
      NeverQuitting(Begin(), steps, l);
    }
  }

  /** A quit by the loop's own thread needs no wakeup: the thread is not in poll. */
  lemma {:induction false} NeverQuitting<T>(l: Loop<T>, steps: seq<LoopStep<T>>, l': Loop<T>)
    requires LOOP !in l.quitting && LoopRun(l, steps, l')
    ensures LOOP !in l'.quitting
    decreases |steps|
  {
    if steps != [] {
      NeverQuitting(Do(l, steps[0]), steps[1..], l');
    }
  }
}
