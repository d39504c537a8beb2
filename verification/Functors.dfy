/** The functors of an event loop: which one a step runs, and in what order they come. */
module Functors {
  import opened MpscQueue
  import opened MpscRuns
  import opened EventLoop

  ghost predicate QueueOk<T>(q: Queue<T>) {
    Inv(q) && CallsOk(q)
  }

  /** The end of a dequeue, when the functor is called. */
  predicate Runs<T>(s: LoopStep<T>) {
    s.Drain? && s.s.Free?
  }

  predicate Dequeued<T>(q: Queue<T>) {
    0 < |q.dequeued| <= |q.enqueued|
  }

  /** The functor at the end of the dequeue, with the thread that posted it. */
  function Posted<T>(q: Queue<T>): (nat, T)
    requires Dequeued(q)
  {
    var i := |q.dequeued| - 1;
    (q.enqueued[i].0, q.dequeued[i])
  }

  ghost predicate QueueStepped<T>(q: Queue<T>, s: LoopStep<T>, q': Queue<T>) {
    && QueueOk(q') && |q.enqueued| <= |q'.enqueued| && q'.enqueued[..|q.enqueued|] == q.enqueued
    && Low(q') == (if Runs(s) then Low(q) + 1 else Low(q))
  }

  lemma QueueKeeps<T>(l: Loop<T>, s: LoopStep<T>)
    requires QueueOk(l.queue) && CanStep(l, s) && SafeStep(l, s)
    ensures QueueStepped(l.queue, s, Do(l, s).queue)
  {
    match s {
      case Post(d) => QueueStep(l.queue, d);
      case Drain(d) => QueueStep(l.queue, d);
      case _ =>
    }
  }

  lemma QueueStep<T>(q: Queue<T>, d: Step<T>)
    requires QueueOk(q) && Enabled(q, d) && Safe(q, d)
    ensures var q' := Apply(q, d);
            && QueueOk(q') && |q.enqueued| <= |q'.enqueued| && q'.enqueued[..|q.enqueued|] == q.enqueued
            && Low(q') == (if d.Free? then Low(q) + 1 else Low(q))
  {
    StepInv(q, d);
    StepCalls(q, d);
    EnqueuedGrows(q, d);
  }

  lemma EnqueuedGrows<T>(q: Queue<T>, d: Step<T>)
    requires Shape(q) && ConsumerOk(q) && Enabled(q, d) && Safe(q, d)
    ensures var q' := Apply(q, d);
            && |q.enqueued| <= |q'.enqueued| && q'.enqueued[..|q.enqueued|] == q.enqueued
            && Low(q') == (if d.Free? then Low(q) + 1 else Low(q))
  {
  }

  /** The functor at the end of a dequeue is the next one in the order of the head exchanges. */
  lemma NextPosted<T>(q: Queue<T>)
    requires QueueOk(q) && q.consumer.Freeing?
    ensures Dequeued(q) && Low(q) == |q.dequeued| - 1 && Posted(q) == q.enqueued[Low(q)]
  {
  }

  /** The functors of one thread are run in the order of its calls. */
  lemma RunInCallOrder<T>(q: Queue<T>, ran: nat, p: nat)
    requires QueueOk(q) && ran <= |q.enqueued|
    ensures By(q.enqueued[..ran], p) <= By(q.calls, p)
  {
    ByPrefix(q.enqueued, ran, p);
    assert By(q.calls, p) == By(q.enqueued, p) + Private(q, p);
  }

  /** Two functors of one thread stand in the same order among all functors. */
  lemma {:induction false} Places<T>(posts: seq<(nat, T)>, p: nat, i: nat, j: nat) returns (a: nat, b: nat)
    requires i < j < |By(posts, p)|
    ensures a < b < |posts| && posts[a] == (p, By(posts, p)[i]) && posts[b] == (p, By(posts, p)[j])
    decreases |posts|
  {
    var k := |posts| - 1;
    var before := By(posts[..k], p);
    if j < |before| {
      a, b := Places(posts[..k], p, i, j);
    } else {
      a := Place(posts[..k], p, i);
      b := k;
    }
  }

  lemma {:induction false} Place<T>(posts: seq<(nat, T)>, p: nat, i: nat) returns (a: nat)
    requires i < |By(posts, p)|
    ensures a < |posts| && posts[a] == (p, By(posts, p)[i])
    decreases |posts|
  {
    var k := |posts| - 1;
    if i < |By(posts[..k], p)| {
      a := Place(posts[..k], p, i);
    } else {
      a := k;
    }
  }
}
