/** What the lock-free queue guarantees over whole runs. */
module MpscRuns {
  import opened MpscQueue

  /** `q'` is reached from `q` by the steps, in any interleaving the control points allow. */
  ghost predicate IsRun<T>(q: Queue<T>, steps: seq<Step<T>>, q': Queue<T>)
    decreases |steps|
  {
    if steps == [] then
      q' == q
    else
      Enabled(q, steps[0]) && Safe(q, steps[0]) && IsRun(Apply(q, steps[0]), steps[1..], q')
  }

  /** The values that producer `p` contributed, in order. */
  function By<T>(s: seq<(nat, T)>, p: nat): seq<T> {
    if s == [] then
      []
    else
      var k := |s| - 1;
      By(s[..k], p) + if s[k].0 == p then [s[k].1] else []
  }

  function Values<T>(s: seq<(nat, T)>): seq<T> {
    seq(|s|, i requires 0 <= i < |s| => s[i].1)
  }

  /** Between its call and its exchange a producer has one value that is not in the order yet. */
  function Private<T>(q: Queue<T>, p: nat): seq<T> {
    if p in q.producers && q.producers[p].Allocated? && q.producers[p].node in q.heap
       && q.heap[q.producers[p].node].payload.Some?
    then [q.heap[q.producers[p].node].payload.value] else []
  }

  ghost predicate CallsOk<T>(q: Queue<T>) {
    forall p {:trigger By(q.calls, p)} :: By(q.calls, p) == By(q.enqueued, p) + Private(q, p)
  }

  lemma ByAppend<T>(s: seq<(nat, T)>, x: (nat, T), p: nat)
    ensures By(s + [x], p) == By(s, p) + if x.0 == p then [x.1] else []
  {
  }

  lemma {:induction false} ByPrefix<T>(s: seq<(nat, T)>, k: nat, p: nat)
    requires k <= |s|
    ensures By(s[..k], p) <= By(s, p)
    decreases |s|
  {
    if k < |s| {
      ByPrefix(s[..|s| - 1], k, p);
      assert s[..|s| - 1][..k] == s[..k];
    } else {
      assert s[..k] == s;
    }
  }

  lemma PrivateKept<T>(q: Queue<T>, s: Step<T>, p: nat)
    requires Inv(q) && Enabled(q, s) && Safe(q, s)
    requires s.Alloc? || s.Exchange? ==> s.p != p
    ensures Private(Apply(q, s), p) == Private(q, p)
  {
    if p in q.producers {
      assert ProducerOk(q, p);
    }
    match s {
      case Alloc(_, _) =>
      case Exchange(_) =>
      case Link(r) => assert ProducerOk(q, r);
      case Load =>
      case Take => assert q.consumer.next in q.place;
      case Free => assert q.consumer.node in q.place;
    }
  }

  ghost predicate CallsOf<T>(q: Queue<T>, p: nat) {
    By(q.calls, p) == By(q.enqueued, p) + Private(q, p)
  }

  lemma AllocCalls<T>(q: Queue<T>, p: nat, v: T)
    requires Enabled(q, Alloc(p, v)) && Safe(q, Alloc(p, v)) && CallsOf(q, p)
    ensures CallsOf(Apply(q, Alloc(p, v)), p)
  {
    ByAppend(q.calls, (p, v), p);
  }

  lemma ExchangeCalls<T>(q: Queue<T>, p: nat)
    requires Inv(q) && Enabled(q, Exchange(p)) && Safe(q, Exchange(p)) && CallsOf(q, p)
    ensures CallsOf(Apply(q, Exchange(p)), p)
  {
    assert ProducerOk(q, p);
    ByAppend(q.enqueued, (p, q.heap[q.producers[p].node].payload.value), p);
  }

  lemma OtherCalls<T>(q: Queue<T>, s: Step<T>, p: nat)
    requires Inv(q) && Enabled(q, s) && Safe(q, s) && CallsOf(q, p)
    requires s.Alloc? || s.Exchange? ==> s.p != p
    ensures CallsOf(Apply(q, s), p)
  {
    PrivateKept(q, s, p);
    match s {
      case Alloc(r, v) => ByAppend(q.calls, (r, v), p);
      case Exchange(r) =>
        assert ProducerOk(q, r);
        ByAppend(q.enqueued, (r, q.heap[q.producers[r].node].payload.value), p);
      case _ =>
    }
  }

  lemma StepCalls<T>(q: Queue<T>, s: Step<T>)
    requires Inv(q) && CallsOk(q) && Enabled(q, s) && Safe(q, s)
    ensures CallsOk(Apply(q, s))
  {
    var q' := Apply(q, s);
    forall p ensures By(q'.calls, p) == By(q'.enqueued, p) + Private(q', p) {
      assert By(q.calls, p) == By(q.enqueued, p) + Private(q, p);
      match s {
        case Alloc(r, v) =>
          if r == p { AllocCalls(q, p, v); } else { OtherCalls(q, s, p); }
        case Exchange(r) =>
          if r == p { ExchangeCalls(q, p); } else { OtherCalls(q, s, p); }
        case _ => OtherCalls(q, s, p);
      }
    }
  }

  lemma {:induction false} RunInv<T>(q: Queue<T>, steps: seq<Step<T>>, q': Queue<T>)
    requires Inv(q) && CallsOk(q) && IsRun(q, steps, q')
    ensures Inv(q') && CallsOk(q')
    decreases |steps|
  {
    if steps != [] {
      StepInv(q, steps[0]);
      StepCalls(q, steps[0]);
      RunInv(Apply(q, steps[0]), steps[1..], q');
    }
  }

  /** A step whose control point is reached never touches a deleted node, so runs never stick
      on memory: `Safe` adds nothing to `Enabled` in a reachable state. */
  lemma NeverUnsafe<T>(steps: seq<Step<T>>, q: Queue<T>, s: Step<T>)
    requires IsRun(Create(), steps, q) && Enabled(q, s)
    ensures Safe(q, s) && IsRun(q, [s], Apply(q, s))
  {
    Reachable(steps, q);
    InvSafe(q, s);
    assert IsRun(Apply(q, s), [s][1..], Apply(q, s));
  }

  lemma Reachable<T>(steps: seq<Step<T>>, q: Queue<T>)
    requires IsRun(Create(), steps, q)
    ensures Inv(q) && CallsOk(q)
  {
    CreateInv<T>();
    RunInv(Create(), steps, q);
  }

  /** No loss, no duplication, no reordering: what has been dequeued is a prefix of what has been
      enqueued, in the order of the head exchanges; and each producer's values come out in the
      order of its calls. */
  lemma Linearizable<T>(steps: seq<Step<T>>, q: Queue<T>, p: nat)
    requires IsRun(Create(), steps, q)
    ensures |q.dequeued| <= |q.enqueued| && q.dequeued == Values(q.enqueued[..|q.dequeued|])
    ensures By(q.enqueued[..|q.dequeued|], p) <= By(q.enqueued, p) <= By(q.calls, p)
  {
    Reachable(steps, q);
    ByPrefix(q.enqueued, |q.dequeued|, p);
    assert By(q.calls, p) == By(q.enqueued, p) + Private(q, p);
  }

  /** `dequeue` fails, and `empty` says yes, exactly when nothing is left or the producer of the
      next value has exchanged the head and not linked yet; with no such producer around, exactly
      when nothing is left. */
  lemma FailsOnlyWhenEmpty<T>(steps: seq<Step<T>>, q: Queue<T>)
    requires IsRun(Create(), steps, q) && q.consumer.Ready?
    ensures Safe(q, Load)
    ensures Apply(q, Load) == q <==>
            |q.dequeued| == |q.enqueued| || (|q.dequeued| < |q.enqueued| && Unlinked(q, |q.dequeued| + 1))
    ensures (forall p :: p in q.producers ==> !q.producers[p].Exchanged?) ==>
              (Apply(q, Load) == q <==> |q.dequeued| == |q.enqueued|)
  {
    Reachable(steps, q);
    InvSafe(q, Load);
    if |q.dequeued| < |q.enqueued| {
      assert LinkOk(q, |q.dequeued|);
    }
  }

  /** The node that `dequeue` deletes is not one a producer will still write its link into, nor
      the head or the tail. */
  lemma NothingRefersToFreed<T>(steps: seq<Step<T>>, q: Queue<T>)
    requires IsRun(Create(), steps, q) && q.consumer.Freeing?
    ensures forall p :: p in q.producers && q.producers[p].Exchanged? ==> q.producers[p].prev != q.consumer.node
    ensures forall p :: p in q.producers ==> q.producers[p].node != q.consumer.node
    ensures q.consumer.node != q.head && q.consumer.node != q.tail
  {
    Reachable(steps, q);
    assert q.place[q.consumer.node] == |q.dequeued| - 1;
    forall p | p in q.producers
      ensures q.producers[p].node != q.consumer.node
      ensures q.producers[p].Exchanged? ==> q.producers[p].prev != q.consumer.node
    {
      assert ProducerOk(q, p);
    }
  }

  ghost predicate NoDuplicates(s: seq<nat>) {
    forall i, j :: 0 <= i < j < |s| ==> s[i] != s[j]
  }

  /** Nothing is deleted twice, and what is deleted is not live. */
  lemma DeletedOnce<T>(steps: seq<Step<T>>, q: Queue<T>)
    requires IsRun(Create(), steps, q)
    ensures NoDuplicates(q.freed) && NoDuplicates(q.discarded)
    ensures forall id :: id in q.freed ==> id !in q.heap
  {
    Reachable(steps, q);
    assert forall i :: 0 <= i < |q.order| ==> q.place[q.order[i]] == i;
    forall id | id in q.freed ensures id !in q.heap {
      PlacedNotFresh(q, id);
    }
  }

  /** `dequeue` run to its end with no producer inside `enqueue`. */
  method Dequeue<T>(q: Queue<T>) returns (ok: bool, after: Queue<T>)
    requires Inv(q) && q.producers == map[] && q.consumer.Ready?
    ensures Inv(after) && after.producers == map[] && after.consumer.Ready?
    ensures after.enqueued == q.enqueued && after.order == q.order && after.nextId == q.nextId
    ensures ok <==> |q.dequeued| < |q.enqueued|
    ensures !ok ==> after == q
    ensures ok ==> after.dequeued == q.dequeued + [q.enqueued[|q.dequeued|].1]
  {
    InvSafe(q, Load);
    LoadInv(q);
    var loaded := Apply(q, Load);
    LoadsNext(q);
    if loaded.consumer.Ready? {
      return false, q;
    }
    TakesNext(loaded);
    return true, Apply(Apply(loaded, Take), Free);
  }

  lemma TakesNext<T>(q: Queue<T>)
    requires Inv(q) && q.consumer.Loaded?
    ensures Safe(q, Take) && Safe(Apply(q, Take), Free)
    ensures var after := Apply(Apply(q, Take), Free);
            && Inv(after) && after.producers == q.producers && after.consumer.Ready?
            && after.enqueued == q.enqueued && after.order == q.order && after.nextId == q.nextId
            && |q.dequeued| < |q.enqueued| && after.dequeued == q.dequeued + [q.enqueued[|q.dequeued|].1]
  {
    InvSafe(q, Take);
    TakeInv(q);
    TakeChained(q);
    var taken := Apply(q, Take);
    InvSafe(taken, Free);
    FreeInv(taken);
  }

  lemma LoadsNext<T>(q: Queue<T>)
    requires Inv(q) && q.producers == map[] && q.consumer.Ready? && Safe(q, Load)
    ensures Apply(q, Load).consumer.Ready? <==> |q.dequeued| == |q.enqueued|
    ensures Apply(q, Load).consumer.Ready? ==> Apply(q, Load) == q
    ensures !Apply(q, Load).consumer.Ready? ==> Apply(q, Load).consumer.Loaded?
  {
    assert |q.dequeued| < |q.enqueued| ==> LinkOk(q, |q.dequeued|);
  }

  /** The destructor, called when no producer is inside `enqueue`: the queue is drained and the
      last node deleted. Every node and every payload has then been deleted exactly once. */
  method Destroy<T>(q: Queue<T>) returns (last: Queue<T>)
    requires Inv(q) && q.producers == map[] && q.consumer.Ready?
    ensures last.heap == map[]
    ensures last.dequeued == Values(q.enqueued)
    ensures NoDuplicates(last.freed) && forall id: nat :: id in last.freed <==> id < q.nextId
    ensures |q.order| > 0 && last.discarded == q.order[1..] && NoDuplicates(last.discarded)
    ensures forall id: nat :: id in last.discarded <==> id < q.nextId && id != q.order[0]
  {
    last := q;
    var more := true;
    while more
      invariant Inv(last) && last.producers == map[] && last.consumer.Ready?
      invariant last.enqueued == q.enqueued && last.order == q.order && last.nextId == q.nextId
      invariant !more ==> |last.dequeued| == |q.enqueued|
      decreases |q.enqueued| - |last.dequeued|, more
    {
      more, last := Dequeue(last);
    }
    Drained(last);
    last := last.(heap := last.heap - {last.head}, freed := last.freed + [last.head]);
  }

  lemma Drained<T>(q: Queue<T>)
    requires Inv(q) && q.producers == map[] && q.consumer.Ready? && |q.dequeued| == |q.enqueued|
    ensures q.heap.Keys == {q.head}
    ensures q.dequeued == Values(q.enqueued)
    ensures q.freed + [q.head] == q.order && NoDuplicates(q.order)
    ensures q.discarded == q.order[1..] && NoDuplicates(q.order[1..])
    ensures forall id: nat :: id in q.order <==> id < q.nextId
    ensures forall id: nat :: id in q.order[1..] <==> id < q.nextId && id != q.order[0]
  {
    EveryNodeInOrder(q);
    TailOfDistinct(q.order);
    OnlyHeadLeft(q);
  }

  lemma EveryNodeInOrder<T>(q: Queue<T>)
    requires Shape(q) && Accounted(q) && q.producers == map[]
    ensures NoDuplicates(q.order) && forall id: nat :: id in q.order <==> id < q.nextId
  {
    assert forall i :: 0 <= i < |q.order| ==> q.place[q.order[i]] == i;
    forall id: nat ensures id in q.order <==> id < q.nextId {
      assert !Fresh(q, id);
      assert id in q.order <==> id in q.place;
    }
  }

  lemma OnlyHeadLeft<T>(q: Queue<T>)
    requires Shape(q) && Accounted(q) && q.producers == map[] && q.consumer.Ready? && |q.dequeued| == |q.enqueued|
    ensures q.heap.Keys == {q.head}
  {
  }

  lemma TailOfDistinct(s: seq<nat>)
    requires NoDuplicates(s) && s != []
    ensures NoDuplicates(s[1..]) && forall x :: x in s[1..] <==> x in s && x != s[0]
  {
  }
}
