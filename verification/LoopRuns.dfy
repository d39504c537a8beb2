/** What the state of the event loop says about the steps that have led to it. */
module LoopRuns {
  import opened Options
  import opened MpscQueue
  import opened EventLoop

  // ---------------------------------------------------------------- the steps, looked at backwards

  predicate IsWakeup<T>(s: LoopStep<T>) {
    s.Wake? || s.QuitWakes?
  }

  /** The calls of `wakeup` since the counter was last read. */
  function WakeupsSinceRead<T>(steps: seq<LoopStep<T>>): nat {
    if steps == [] then
      0
    else
      var last := steps[|steps| - 1];
      if last.ReadWakeup? then 0
      else WakeupsSinceRead(steps[..|steps| - 1]) + if IsWakeup(last) then 1 else 0
  }

  /** Since the last start somebody has asked the loop to quit. */
  ghost predicate QuitSinceStart<T>(steps: seq<LoopStep<T>>) {
    exists q :: QuitAt(steps, q)
  }

  ghost predicate QuitAt<T>(steps: seq<LoopStep<T>>, q: nat) {
    q < |steps| && steps[q].Quit? && NoStartAfter(steps, q)
  }

  ghost predicate NoStartAfter<T>(steps: seq<LoopStep<T>>, i: nat) {
    forall k :: i < k < |steps| ==> !steps[k].Start?
  }

  /** The condition of the loop has been checked after a request to quit that came after step `i`. */
  ghost predicate QuitSeen<T>(steps: seq<LoopStep<T>>, i: nat) {
    exists q, c :: i < q < c < |steps| && steps[q].Quit? && steps[c].Check?
  }

  ghost predicate RunsSince<T>(steps: seq<LoopStep<T>>, i: nat) {
    i < |steps| && steps[i].Start? && NoStartAfter(steps, i) && !QuitSeen(steps, i)
  }

  /** `loop()` has been called, and has not yet seen a request to quit made since. */
  ghost predicate Running<T>(steps: seq<LoopStep<T>>) {
    exists i :: RunsSince(steps, i)
  }

  /** Thread `p` has linked a functor at step `i`, has to wake the loop for it, and has not. */
  ghost predicate Owes<T>(steps: seq<LoopStep<T>>, i: nat, p: nat) {
    && i < |steps| && steps[i] == Post(Link(p)) && (p != LOOP || !Running(steps[..i]))
    && forall k :: i < k < |steps| ==> steps[k] != Wake(p)
  }

  /** Thread `p`, not the loop's, has asked the loop to quit at step `i` and has not woken it. */
  ghost predicate OwesQuit<T>(steps: seq<LoopStep<T>>, i: nat, p: nat) {
    && i < |steps| && steps[i] == Quit(p) && p != LOOP
    && forall k :: i < k < |steps| ==> steps[k] != QuitWakes(p)
  }

  /** A run without its last step. */
  lemma {:induction false} RunBack<T>(l: Loop<T>, steps: seq<LoopStep<T>>, l': Loop<T>) returns (mid: Loop<T>)
    requires LoopRun(l, steps, l') && steps != []
    ensures var last := steps[|steps| - 1];
            LoopRun(l, steps[..|steps| - 1], mid) && CanStep(mid, last) && SafeStep(mid, last) && l' == Do(mid, last)
    decreases |steps|
  {
    if |steps| == 1 {
      mid := l;
    } else {
      mid := RunBack(Do(l, steps[0]), steps[1..], l');
      assert steps[1..][..|steps| - 2] == steps[..|steps| - 1][1..];
    }
  }

  // ---------------------------------------------------------------- when the loop runs

  lemma QuitSinceNext<T>(steps: seq<LoopStep<T>>, s: LoopStep<T>)
    ensures QuitSinceStart(steps + [s]) <==> s.Quit? || (!s.Start? && QuitSinceStart(steps))
  {
    var steps' := steps + [s];
    if s.Quit? {
      assert QuitAt(steps', |steps|);
    } else if !s.Start? {
      if q: nat :| QuitAt(steps, q) {
        assert QuitAt(steps', q);
      }
      if q: nat :| QuitAt(steps', q) {
        assert forall k :: 0 <= k < |steps| ==> steps'[k] == steps[k];
        assert QuitAt(steps, q);
      }
    } else {
      assert steps'[|steps|].Start?;
    }
  }

  lemma QuitSeenNext<T>(steps: seq<LoopStep<T>>, s: LoopStep<T>, i: nat)
    requires i < |steps| && NoStartAfter(steps, i) && steps[i].Start?
    ensures QuitSeen(steps + [s], i) <==> QuitSeen(steps, i) || (s.Check? && QuitSinceStart(steps))
  {
    var steps' := steps + [s];
    assert forall k :: 0 <= k < |steps| ==> steps'[k] == steps[k];
    if QuitSeen(steps, i) {
      var q, c :| i < q < c < |steps| && steps[q].Quit? && steps[c].Check?;
      assert steps'[q].Quit? && steps'[c].Check?;
    }
    if s.Check? && QuitSinceStart(steps) {
      var q: nat :| QuitAt(steps, q);
      assert i < q;
      assert steps'[q].Quit? && steps'[|steps|].Check?;
    }
    if QuitSeen(steps', i) {
      var q, c :| i < q < c < |steps'| && steps'[q].Quit? && steps'[c].Check?;
      if c == |steps| {
        assert QuitAt(steps, q);
      } else {
        assert steps[q].Quit? && steps[c].Check?;
      }
    }
  }

  lemma RunsSinceNext<T>(steps: seq<LoopStep<T>>, s: LoopStep<T>, i: nat)
    requires i < |steps| && !s.Start?
    ensures RunsSince(steps + [s], i) <==> RunsSince(steps, i) && !(s.Check? && QuitSinceStart(steps))
  {
    var steps' := steps + [s];
    assert forall k :: 0 <= k < |steps| ==> steps'[k] == steps[k];
    assert NoStartAfter(steps', i) <==> NoStartAfter(steps, i) by {
      assert steps'[|steps|] == s;
    }
    if steps[i].Start? && NoStartAfter(steps, i) {
      QuitSeenNext(steps, s, i);
    }
  }

  lemma RunningNext<T>(steps: seq<LoopStep<T>>, s: LoopStep<T>)
    ensures Running(steps + [s]) <==> s.Start? || (Running(steps) && !(s.Check? && QuitSinceStart(steps)))
  {
    var steps' := steps + [s];
    if s.Start? {
      assert RunsSince(steps', |steps|);
    } else {
      if i: nat :| RunsSince(steps', i) {
        assert steps'[|steps|] == s;
        RunsSinceNext(steps, s, i);
      }
      if i: nat :| RunsSince(steps, i) {
        RunsSinceNext(steps, s, i);
      }
    }
  }

  /** The loop is running if and only if it has been started and has not seen a request to quit since.
      A request is seen when the condition is checked: after the start, and after every round. */
  lemma {:induction false} RunsExactly<T>(steps: seq<LoopStep<T>>, l: Loop<T>)
    requires LoopRun(Begin(), steps, l)
    ensures l.quit <==> QuitSinceStart(steps)
    ensures !l.pc.Stopped? <==> Running(steps)
    decreases |steps|
  {
    if steps != [] {
      var last, before := steps[|steps| - 1], steps[..|steps| - 1];
      var mid := RunBack(Begin(), steps, l);
      RunsExactly(before, mid);
      assert steps == before + [last];
      QuitSinceNext(before, last);
      RunningNext(before, last);
    }
  }

  // ---------------------------------------------------------------- the rounds of the loop

  predicate IsOwn<T>(s: LoopStep<T>) {
    !s.Post? && !s.Wake? && !s.Quit? && !s.QuitWakes?
  }

  /** The last step of the loop's own code. */
  function LastOwn<T>(steps: seq<LoopStep<T>>): (r: Option<LoopStep<T>>)
    ensures r.Some? ==> IsOwn(r.value)
  {
    if steps == [] then None
    else if IsOwn(steps[|steps| - 1]) then Some(steps[|steps| - 1])
    else LastOwn(steps[..|steps| - 1])
  }

  /** What may come after what in the loop's own code. */
  predicate Follows<T>(last: Option<LoopStep<T>>, s: LoopStep<T>) {
    match s
    case Start => last.None? || last.value.Check?
    case Check => last == Some(Start) || last == Some(DrainEnds)
    case PollReturns(_) => last == Some(Check)
    case ReadWakeup => last == Some(PollReturns(true))
    case Handled => last == Some(PollReturns(false)) || last == Some(ReadWakeup)
    case _ => last == Some(Handled) || (last.Some? && last.value.Drain?)
  }

  predicate Placed<T>(pc: Pc, last: Option<LoopStep<T>>) {
    match pc
    case Stopped => last.None? || last.value.Check?
    case Checking => last == Some(Start) || last == Some(DrainEnds)
    case Polling => last == Some(Check)
    case Handling(woken) =>
      if woken then last == Some(PollReturns(true))
      else last == Some(PollReturns(false)) || last == Some(ReadWakeup)
    case Draining => last == Some(Handled) || (last.Some? && last.value.Drain?)
  }

  lemma {:induction false} PlacedAfter<T>(steps: seq<LoopStep<T>>, l: Loop<T>)
    requires LoopRun(Begin(), steps, l)
    ensures Placed(l.pc, LastOwn(steps))
    decreases |steps|
  {
    if steps != [] {
      var mid := RunBack(Begin(), steps, l);
      PlacedAfter(steps[..|steps| - 1], mid);
    }
  }

  /** The condition has been reached and not checked, or checked and found the loop still running. */
  ghost predicate AtConditionOrPoll<T>(steps: seq<LoopStep<T>>) {
    var last := LastOwn(steps);
    last == Some(Start) || last == Some(DrainEnds) || (last == Some(Check) && Running(steps))
  }

  /** The loop works in rounds: it checks its condition, polls, reads the wakeup counter if and only
      if poll has reported it, handles the events, and runs its functors until the queue is empty. Each
      of these steps is possible exactly then, once the loop's thread is not inside a call of its own;
      poll may always return, and with the wakeup descriptor whenever it has been written. */
  lemma RoundsExactly<T>(steps: seq<LoopStep<T>>, l: Loop<T>, s: LoopStep<T>)
    requires LoopRun(Begin(), steps, l) && IsOwn(s) && !s.Drain?
    ensures CanStep(l, s) <==>
            && Follows(LastOwn(steps), s) && (s.Check? || s.PollReturns? || LoopIdle(l))
            && (s.Start? ==> !Running(steps)) && (s.PollReturns? ==> Running(steps))
            && (s == PollReturns(true) ==> WakeupsSinceRead(steps) > 0) && (s.DrainEnds? ==> IsEmpty(l.queue))
  {
    PlacedAfter(steps, l);
    RunsExactly(steps, l);
    WakeupsCounted(steps, l);
  }

  /** Any other thread may post and quit at any time; the loop's own only outside its condition and
      its poll, and not while it takes a functor out of the queue. */
  lemma CallsExactly<T>(steps: seq<LoopStep<T>>, l: Loop<T>, p: nat)
    requires LoopRun(Begin(), steps, l)
    ensures CanCall(l, p) <==> p != LOOP || (l.queue.consumer.Ready? && !AtConditionOrPoll(steps))
    ensures CanStep(l, Quit(p)) <==> CanCall(l, p) && !IsQuitting(steps, p)
    ensures CanStep(l, QuitWakes(p)) <==> IsQuitting(steps, p)
    ensures CanStep(l, Wake(p)) <==> IsOwing(steps, p)
  {
    PlacedAfter(steps, l);
    RunsExactly(steps, l);
    QuittingExactly(steps, l, p);
    OwingExactly(steps, l, p);
  }

  // ---------------------------------------------------------------- the wakeup counter

  /** The counter is the number of wakeups since it was last read. */
  lemma {:induction false} WakeupsCounted<T>(steps: seq<LoopStep<T>>, l: Loop<T>)
    requires LoopRun(Begin(), steps, l)
    ensures l.wakeups == WakeupsSinceRead(steps)
    decreases |steps|
  {
    if steps != [] {
      var mid := RunBack(Begin(), steps, l);
      WakeupsCounted(steps[..|steps| - 1], mid);
    }
  }

  lemma OwesNext<T>(steps: seq<LoopStep<T>>, s: LoopStep<T>, i: nat, p: nat)
    requires i < |steps|
    ensures Owes(steps + [s], i, p) <==> Owes(steps, i, p) && s != Wake(p)
  {
    var steps' := steps + [s];
    assert steps'[|steps|] == s && steps'[..i] == steps[..i];
    assert forall k :: 0 <= k < |steps| ==> steps'[k] == steps[k];
  }

  lemma OwesLast<T>(steps: seq<LoopStep<T>>, s: LoopStep<T>, p: nat)
    ensures Owes(steps + [s], |steps|, p) <==> s == Post(Link(p)) && (p != LOOP || !Running(steps))
  {
    assert (steps + [s])[..|steps|] == steps;
  }

  ghost predicate IsOwing<T>(steps: seq<LoopStep<T>>, p: nat) {
    exists i :: Owes(steps, i, p)
  }

  lemma OwingNext<T>(steps: seq<LoopStep<T>>, s: LoopStep<T>, p: nat)
    ensures IsOwing(steps + [s], p) <==>
            (IsOwing(steps, p) && s != Wake(p)) || (s == Post(Link(p)) && (p != LOOP || !Running(steps)))
  {
    OwesLast(steps, s, p);
    if i: nat :| Owes(steps, i, p) {
      OwesNext(steps, s, i, p);
    }
    if i: nat :| Owes(steps + [s], i, p) {
      if i < |steps| {
        OwesNext(steps, s, i, p);
      }
    }
  }

  /** A thread still has to wake the loop if and only if it has linked a functor and not called
      `wakeup` since; for the loop's own thread, if it did so while the loop was not running. */
  lemma {:induction false} OwingExactly<T>(steps: seq<LoopStep<T>>, l: Loop<T>, p: nat)
    requires LoopRun(Begin(), steps, l)
    ensures p in l.owing <==> IsOwing(steps, p)
    decreases |steps|
  {
    if steps != [] {
      var last, before := steps[|steps| - 1], steps[..|steps| - 1];
      var mid := RunBack(Begin(), steps, l);
      OwingExactly(before, mid, p);
      RunsExactly(before, mid);
      assert steps == before + [last];
      OwingNext(before, last, p);
    }
  }

  ghost predicate IsQuitting<T>(steps: seq<LoopStep<T>>, p: nat) {
    exists i :: OwesQuit(steps, i, p)
  }

  lemma OwesQuitNext<T>(steps: seq<LoopStep<T>>, s: LoopStep<T>, i: nat, p: nat)
    requires i < |steps|
    ensures OwesQuit(steps + [s], i, p) <==> OwesQuit(steps, i, p) && s != QuitWakes(p)
  {
    var steps' := steps + [s];
    assert steps'[|steps|] == s;
    assert forall k :: 0 <= k < |steps| ==> steps'[k] == steps[k];
  }

  lemma QuittingNext<T>(steps: seq<LoopStep<T>>, s: LoopStep<T>, p: nat)
    ensures IsQuitting(steps + [s], p) <==>
            (IsQuitting(steps, p) && s != QuitWakes(p)) || (s == Quit(p) && p != LOOP)
  {
    assert OwesQuit(steps + [s], |steps|, p) <==> s == Quit(p) && p != LOOP;
    if i: nat :| OwesQuit(steps, i, p) {
      OwesQuitNext(steps, s, i, p);
    }
    if i: nat :| OwesQuit(steps + [s], i, p) {
      if i < |steps| {
        OwesQuitNext(steps, s, i, p);
      }
    }
  }

  lemma {:induction false} QuittingExactly<T>(steps: seq<LoopStep<T>>, l: Loop<T>, p: nat)
    requires LoopRun(Begin(), steps, l)
    ensures p in l.quitting <==> IsQuitting(steps, p)
    decreases |steps|
  {
    if steps != [] {
      var last, before := steps[|steps| - 1], steps[..|steps| - 1];
      var mid := RunBack(Begin(), steps, l);
      QuittingExactly(before, mid, p);
      assert steps == before + [last];
      QuittingNext(before, last, p);
    }
  }

  /** No request to quit is lost: while the loop polls although it has been asked to quit since its
      start, it has been woken since it last read the counter, or the thread that asked will wake it. */
  lemma QuitIsHeard<T>(steps: seq<LoopStep<T>>, l: Loop<T>)
    requires LoopRun(Begin(), steps, l) && LastOwn(steps) == Some(Check) && Running(steps)
    requires QuitSinceStart(steps) && WakeupsSinceRead(steps) == 0
    ensures exists p :: p != LOOP && IsQuitting(steps, p)
  {
    RunsExactly(steps, l);
    PlacedAfter(steps, l);
    WakeupsCounted(steps, l);
    NoLostQuit(steps, l);
    var p :| p != LOOP && p in l.quitting;
    QuittingExactly(steps, l, p);
  }
}
