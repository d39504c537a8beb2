/**
  The lock-free queue with many producers and one consumer (xiaoNet/utils/LockFreeQueue.h) as a
  machine of sequentially consistent steps, interleaved in any way and for any number of
  producers. Nodes are named by allocation; a name is never used twice.
 */
module MpscQueue {
  import opened Options

  datatype Node<T> = Node(payload: Option<T>, next: Option<nat>)

  /** Where a producer stands inside `enqueue`. `at` is the place of its exchange in the order
      of all exchanges: it is history, no step reads it. */
  datatype Producer =
    | Allocated(node: nat)
    | Exchanged(node: nat, prev: nat, at: nat)

  /** Where the consumer stands inside `dequeue`. */
  datatype Consumer =
    | Ready
    | Loaded(next: nat)
    | Freeing(node: nat)

  /** The memory of the queue, the control points, and the history of the run: `calls` in the
      order in which producers entered `enqueue`; `order` and `enqueued` in the order of the head
      exchanges (`order[0]` is the first dummy) and `place`, the inverse of `order`; who allocated
      which node; what has been dequeued; which nodes and payloads have been deleted. */
  datatype Queue<T> = Queue(
    heap: map<nat, Node<T>>, head: nat, tail: nat,
    producers: map<nat, Producer>, consumer: Consumer, nextId: nat,
    calls: seq<(nat, T)>, order: seq<nat>, place: map<nat, nat>, owner: map<nat, nat>,
    enqueued: seq<(nat, T)>, dequeued: seq<T>, freed: seq<nat>, discarded: seq<nat>)

  datatype Step<T> =
    | Alloc(p: nat, v: T)
    | Exchange(p: nat)
    | Link(p: nat)
    | Load
    | Take
    | Free

  function Create<T>(): Queue<T> {
    Queue(map[0 := Node(None, None)], 0, 0, map[], Ready, 1, [], [0], map[0 := 0], map[], [], [], [], [])
  }

  /** The control point allows the step. */
  predicate Enabled<T>(q: Queue<T>, s: Step<T>) {
    match s
    case Alloc(p, _) => p !in q.producers
    case Exchange(p) => p in q.producers && q.producers[p].Allocated?
    case Link(p) => p in q.producers && q.producers[p].Exchanged?
    case Load => q.consumer.Ready?
    case Take => q.consumer.Loaded?
    case Free => q.consumer.Freeing?
  }

  /** Every node the step touches is allocated and not yet deleted; a payload it moves is there. */
  predicate Safe<T>(q: Queue<T>, s: Step<T>)
    requires Enabled(q, s)
  {
    match s
    case Alloc(_, _) => q.nextId !in q.heap
    case Exchange(p) => q.producers[p].node in q.heap && q.heap[q.producers[p].node].payload.Some?
    case Link(p) => q.producers[p].prev in q.heap
    case Load => q.tail in q.heap
    case Take => q.consumer.next in q.heap && q.heap[q.consumer.next].payload.Some?
    case Free => q.consumer.node in q.heap
  }

  function Apply<T>(q: Queue<T>, s: Step<T>): Queue<T>
    requires Enabled(q, s) && Safe(q, s)
  {
    match s
    case Alloc(p, v) =>
      q.(heap := q.heap[q.nextId := Node(Some(v), None)],
         producers := q.producers[p := Allocated(q.nextId)],
         nextId := q.nextId + 1, owner := q.owner[q.nextId := p], calls := q.calls + [(p, v)])
    case Exchange(p) =>
      var node := q.producers[p].node;
      q.(head := node,
         producers := q.producers[p := Exchanged(node, q.head, |q.order|)],
         order := q.order + [node], place := q.place[node := |q.order|],
         enqueued := q.enqueued + [(p, q.heap[node].payload.value)])
    case Link(p) =>
      var Exchanged(node, prev, _) := q.producers[p];
      q.(heap := q.heap[prev := q.heap[prev].(next := Some(node))], producers := q.producers - {p})
    case Load =>
      match q.heap[q.tail].next {
        case None => q
        case Some(next) => q.(consumer := Loaded(next))
      }
    case Take =>
      var next := q.consumer.next;
      q.(dequeued := q.dequeued + [q.heap[next].payload.value],
         heap := q.heap[next := q.heap[next].(payload := None)], discarded := q.discarded + [next],
         tail := next, consumer := Freeing(q.tail))
    case Free =>
      q.(heap := q.heap - {q.consumer.node}, freed := q.freed + [q.consumer.node], consumer := Ready)
  }

  // ---------------------------------------------------------------- the invariant

  /** Nodes before this place in the order have been deleted. */
  function Low<T>(q: Queue<T>): nat {
    if q.consumer.Freeing? && |q.dequeued| > 0 then |q.dequeued| - 1 else |q.dequeued|
  }

  /** The producer of the `j`-th exchange has not stored its link yet. */
  predicate Unlinked<T>(q: Queue<T>, j: nat)
    requires 0 < j <= |q.enqueued|
  {
    var p := q.enqueued[j - 1].0;
    p in q.producers && q.producers[p].Exchanged? && q.producers[p].at == j
  }

  /** A producer has allocated the node and not exchanged it yet. */
  predicate Fresh<T>(q: Queue<T>, id: nat) {
    id in q.owner && q.owner[id] in q.producers && q.producers[q.owner[id]] == Allocated(id)
  }

  ghost predicate Shape<T>(q: Queue<T>) {
    && |q.order| == |q.enqueued| + 1 && |q.dequeued| <= |q.enqueued|
    && q.head == q.order[|q.enqueued|] && q.tail == q.order[|q.dequeued|]
    && (forall i :: 0 <= i < |q.order| ==> q.order[i] in q.place && q.place[q.order[i]] == i)
    && (forall id :: id in q.place ==> q.place[id] < |q.order| && q.order[q.place[id]] == id)
  }

  /** Every node ever allocated is in the order or still private to its producer; the live ones
      are those not yet deleted, and the deletions so far are a prefix of the order. */
  ghost predicate Accounted<T>(q: Queue<T>)
    requires Shape(q)
  {
    && (forall id :: id in q.heap <==> (id in q.place && q.place[id] >= Low(q)) || Fresh(q, id))
    && (forall id: nat :: id in q.place || Fresh(q, id) <==> id < q.nextId)
    && q.freed == q.order[..Low(q)]
    && q.discarded == q.order[1..|q.dequeued| + 1]
  }

  /** The chain at place `i`: linked if the next producer is done, cut if it is not. */
  ghost predicate LinkOk<T>(q: Queue<T>, i: nat)
    requires |q.order| == |q.enqueued| + 1 && i < |q.enqueued|
  {
    && q.order[i] in q.heap && q.order[i + 1] in q.heap
    && q.heap[q.order[i]].next == (if Unlinked(q, i + 1) then None else Some(q.order[i + 1]))
    && q.heap[q.order[i + 1]].payload == Some(q.enqueued[i].1)
  }

  ghost predicate Chained<T>(q: Queue<T>)
    requires Shape(q)
  {
    && q.head in q.heap && q.heap[q.head].next == None
    && forall i {:trigger LinkOk(q, i)} :: |q.dequeued| <= i < |q.enqueued| ==> LinkOk(q, i)
  }

  ghost predicate ProducerOk<T>(q: Queue<T>, p: nat)
    requires Shape(q) && p in q.producers
  {
    match q.producers[p]
    case Allocated(node) =>
      && node !in q.place && node in q.owner && q.owner[node] == p
      && node in q.heap && q.heap[node].next == None && q.heap[node].payload.Some?
    case Exchanged(node, prev, at) =>
      && |q.dequeued| < at < |q.order| && q.enqueued[at - 1].0 == p
      && node == q.order[at] && prev == q.order[at - 1]
  }

  ghost predicate ProducersOk<T>(q: Queue<T>)
    requires Shape(q)
  {
    forall p {:trigger ProducerOk(q, p)} :: p in q.producers ==> ProducerOk(q, p)
  }

  ghost predicate ConsumerOk<T>(q: Queue<T>)
    requires Shape(q)
  {
    match q.consumer
    case Ready => true
    case Loaded(next) =>
      |q.dequeued| < |q.enqueued| && next == q.order[|q.dequeued| + 1] && !Unlinked(q, |q.dequeued| + 1)
    case Freeing(node) => |q.dequeued| > 0 && node == q.order[|q.dequeued| - 1]
  }

  ghost predicate Inv<T>(q: Queue<T>) {
    && Shape(q) && Accounted(q) && Chained(q) && ProducersOk(q) && ConsumerOk(q)
    && (forall i :: 0 <= i < |q.dequeued| ==> q.dequeued[i] == q.enqueued[i].1)
  }

  lemma CreateInv<T>()
    ensures Inv(Create<T>())
  {
  }

  lemma InvSafe<T>(q: Queue<T>, s: Step<T>)
    requires Inv(q) && Enabled(q, s)
    ensures Safe(q, s)
  {
    match s {
      case Alloc(_, _) =>
      case Exchange(p) => assert ProducerOk(q, p);
      case Link(p) =>
        assert ProducerOk(q, p);
        assert LinkOk(q, q.producers[p].at - 1);
      case Load => assert q.place[q.tail] == |q.dequeued|;
      case Take => assert LinkOk(q, |q.dequeued|);
      case Free => assert q.place[q.consumer.node] == |q.dequeued| - 1;
    }
  }

  // ---------------------------------------------------------------- enqueue

  lemma AllocAccounted<T>(q: Queue<T>, p: nat, v: T)
    requires Shape(q) && Accounted(q) && Enabled(q, Alloc(p, v)) && Safe(q, Alloc(p, v))
    ensures var q' := Apply(q, Alloc(p, v)); Shape(q') && Accounted(q')
  {
    var q' := Apply(q, Alloc(p, v));
    assert forall id: nat :: Fresh(q', id) <==> Fresh(q, id) || id == q.nextId;
  }

  lemma AllocChained<T>(q: Queue<T>, p: nat, v: T)
    requires Shape(q) && Chained(q) && Enabled(q, Alloc(p, v)) && Safe(q, Alloc(p, v))
    ensures var q' := Apply(q, Alloc(p, v)); Shape(q') && Chained(q')
  {
    var q' := Apply(q, Alloc(p, v));
    forall i | |q.dequeued| <= i < |q.enqueued| ensures LinkOk(q', i) {
      assert LinkOk(q, i);
    }
  }

  lemma AllocProducers<T>(q: Queue<T>, p: nat, v: T)
    requires Shape(q) && ProducersOk(q) && Enabled(q, Alloc(p, v)) && Safe(q, Alloc(p, v)) && q.nextId !in q.place
    ensures var q' := Apply(q, Alloc(p, v)); Shape(q') && ProducersOk(q')
  {
    var q' := Apply(q, Alloc(p, v));
    forall r | r in q'.producers ensures ProducerOk(q', r) {
      if r != p { assert ProducerOk(q, r); }
    }
  }

  lemma AllocInv<T>(q: Queue<T>, p: nat, v: T)
    requires Inv(q) && Enabled(q, Alloc(p, v)) && Safe(q, Alloc(p, v))
    ensures Inv(Apply(q, Alloc(p, v)))
  {
    AllocAccounted(q, p, v);
    AllocChained(q, p, v);
    AllocProducers(q, p, v);
  }

  lemma ExchangeShape<T>(q: Queue<T>, p: nat)
    requires Shape(q) && Enabled(q, Exchange(p)) && Safe(q, Exchange(p)) && ProducerOk(q, p)
    ensures Shape(Apply(q, Exchange(p)))
  {
  }

  lemma ExchangeFresh<T>(q: Queue<T>, p: nat, id: nat)
    requires Shape(q) && Enabled(q, Exchange(p)) && Safe(q, Exchange(p)) && ProducerOk(q, p)
    ensures Fresh(Apply(q, Exchange(p)), id) <==> Fresh(q, id) && id != q.producers[p].node
  {
  }

  lemma ExchangeAccounted<T>(q: Queue<T>, p: nat)
    requires Shape(q) && Accounted(q) && Enabled(q, Exchange(p)) && Safe(q, Exchange(p)) && ProducerOk(q, p)
    ensures var q' := Apply(q, Exchange(p)); Shape(q') && Accounted(q')
  {
    var q' := Apply(q, Exchange(p));
    ExchangeShape(q, p);
    var node := q.producers[p].node;
    assert Fresh(q, node);
    forall id: nat ensures Fresh(q', id) <==> Fresh(q, id) && id != node {
      ExchangeFresh(q, p, id);
    }
    assert q'.order[..Low(q)] == q.order[..Low(q)];
    assert q'.order[1..|q.dequeued| + 1] == q.order[1..|q.dequeued| + 1];
  }

  lemma ExchangeUnlinked<T>(q: Queue<T>, p: nat)
    requires Shape(q) && Enabled(q, Exchange(p)) && Safe(q, Exchange(p))
    ensures var q' := Apply(q, Exchange(p));
            && Unlinked(q', |q.order|)
            && forall j {:trigger Unlinked(q', j)} {:trigger Unlinked(q, j)} ::
                 0 < j < |q.order| ==> (Unlinked(q', j) <==> Unlinked(q, j))
  {
  }

  lemma ExchangeChained<T>(q: Queue<T>, p: nat)
    requires Shape(q) && Chained(q) && Enabled(q, Exchange(p)) && Safe(q, Exchange(p)) && ProducerOk(q, p)
    ensures var q' := Apply(q, Exchange(p)); Shape(q') && Chained(q')
  {
    var q' := Apply(q, Exchange(p));
    ExchangeUnlinked(q, p);
    forall i | |q'.dequeued| <= i < |q'.enqueued| ensures LinkOk(q', i) {
      if i < |q.enqueued| { assert LinkOk(q, i); }
    }
  }

  lemma ExchangeProducers<T>(q: Queue<T>, p: nat)
    requires Shape(q) && ProducersOk(q) && Enabled(q, Exchange(p)) && Safe(q, Exchange(p))
    ensures var q' := Apply(q, Exchange(p)); Shape(q') && ProducersOk(q')
  {
    var q' := Apply(q, Exchange(p));
    assert ProducerOk(q, p);
    forall r | r in q'.producers ensures ProducerOk(q', r) {
      if r != p { assert ProducerOk(q, r); }
    }
  }

  lemma ExchangeInv<T>(q: Queue<T>, p: nat)
    requires Inv(q) && Enabled(q, Exchange(p)) && Safe(q, Exchange(p))
    ensures Inv(Apply(q, Exchange(p)))
  {
    assert ProducerOk(q, p);
    ExchangeAccounted(q, p);
    ExchangeChained(q, p);
    ExchangeProducers(q, p);
    ExchangeUnlinked(q, p);
  }

  lemma LinkAccounted<T>(q: Queue<T>, p: nat)
    requires Shape(q) && Accounted(q) && Enabled(q, Link(p)) && Safe(q, Link(p))
    ensures var q' := Apply(q, Link(p)); Shape(q') && Accounted(q')
  {
    var q' := Apply(q, Link(p));
    assert forall id: nat :: Fresh(q', id) <==> Fresh(q, id);
  }

  lemma LinkUnlinked<T>(q: Queue<T>, p: nat)
    requires Shape(q) && Enabled(q, Link(p)) && Safe(q, Link(p)) && ProducerOk(q, p)
    ensures var q' := Apply(q, Link(p));
            forall j {:trigger Unlinked(q', j)} {:trigger Unlinked(q, j)} ::
              0 < j < |q.order| ==> (Unlinked(q', j) <==> Unlinked(q, j) && j != q.producers[p].at)
  {
  }

  lemma LinkChained<T>(q: Queue<T>, p: nat)
    requires Shape(q) && Chained(q) && Enabled(q, Link(p)) && Safe(q, Link(p)) && ProducerOk(q, p)
    ensures var q' := Apply(q, Link(p)); Shape(q') && Chained(q')
  {
    var q' := Apply(q, Link(p));
    LinkUnlinked(q, p);
    forall i | |q'.dequeued| <= i < |q'.enqueued| ensures LinkOk(q', i) {
      assert LinkOk(q, i);
      assert q.place[q.order[i]] == i;
    }
  }

  lemma LinkProducers<T>(q: Queue<T>, p: nat)
    requires Shape(q) && ProducersOk(q) && Enabled(q, Link(p)) && Safe(q, Link(p))
    ensures var q' := Apply(q, Link(p)); Shape(q') && ProducersOk(q')
  {
    var q' := Apply(q, Link(p));
    assert ProducerOk(q, p);
    forall r | r in q'.producers ensures ProducerOk(q', r) {
      assert ProducerOk(q, r);
    }
  }

  lemma LinkInv<T>(q: Queue<T>, p: nat)
    requires Inv(q) && Enabled(q, Link(p)) && Safe(q, Link(p))
    ensures Inv(Apply(q, Link(p)))
  {
    assert ProducerOk(q, p);
    LinkAccounted(q, p);
    LinkChained(q, p);
    LinkProducers(q, p);
    LinkUnlinked(q, p);
  }

  // ---------------------------------------------------------------- dequeue

  lemma LoadAccounted<T>(q: Queue<T>)
    requires Shape(q) && Accounted(q) && Enabled(q, Load) && Safe(q, Load)
    ensures var q' := Apply(q, Load); Shape(q') && Accounted(q')
  {
    assert forall id: nat :: Fresh(Apply(q, Load), id) <==> Fresh(q, id);
  }

  lemma LoadChained<T>(q: Queue<T>)
    requires Shape(q) && Chained(q) && Enabled(q, Load) && Safe(q, Load)
    ensures var q' := Apply(q, Load); Shape(q') && Chained(q') && ConsumerOk(q')
  {
    var q' := Apply(q, Load);
    if |q.dequeued| < |q.enqueued| {
      assert LinkOk(q, |q.dequeued|);
    }
    forall i | |q'.dequeued| <= i < |q'.enqueued| ensures LinkOk(q', i) {
      assert LinkOk(q, i);
    }
  }

  lemma LoadProducers<T>(q: Queue<T>)
    requires Shape(q) && ProducersOk(q) && Enabled(q, Load) && Safe(q, Load)
    ensures var q' := Apply(q, Load); Shape(q') && ProducersOk(q')
  {
    var q' := Apply(q, Load);
    forall r | r in q'.producers ensures ProducerOk(q', r) {
      assert ProducerOk(q, r);
    }
  }

  lemma LoadInv<T>(q: Queue<T>)
    requires Inv(q) && Enabled(q, Load) && Safe(q, Load)
    ensures Inv(Apply(q, Load))
  {
    LoadAccounted(q);
    LoadChained(q);
    LoadProducers(q);
  }

  lemma TakeAccounted<T>(q: Queue<T>)
    requires Shape(q) && Accounted(q) && ConsumerOk(q) && Enabled(q, Take) && Safe(q, Take)
    ensures var q' := Apply(q, Take); Shape(q') && Accounted(q')
  {
    var q' := Apply(q, Take);
    assert forall id: nat :: Fresh(q', id) <==> Fresh(q, id);
    assert q'.discarded == q.order[1..|q'.dequeued| + 1];
  }

  lemma TakeChained<T>(q: Queue<T>)
    requires Shape(q) && Chained(q) && ConsumerOk(q) && Enabled(q, Take) && Safe(q, Take)
    ensures var q' := Apply(q, Take); Shape(q') && Chained(q')
    ensures var q' := Apply(q, Take); q'.dequeued == q.dequeued + [q.enqueued[|q.dequeued|].1]
  {
    var q' := Apply(q, Take);
    assert LinkOk(q, |q.dequeued|);
    forall i | |q'.dequeued| <= i < |q'.enqueued| ensures LinkOk(q', i) {
      assert LinkOk(q, i);
      assert q.place[q.order[i]] == i && q.place[q.order[i + 1]] == i + 1;
      assert Unlinked(q', i + 1) <==> Unlinked(q, i + 1);
    }
  }

  lemma TakeProducers<T>(q: Queue<T>)
    requires Shape(q) && ProducersOk(q) && ConsumerOk(q) && Enabled(q, Take) && Safe(q, Take)
    ensures var q' := Apply(q, Take); Shape(q') && ProducersOk(q')
  {
    var q' := Apply(q, Take);
    forall r | r in q'.producers ensures ProducerOk(q', r) {
      assert ProducerOk(q, r);
    }
  }

  lemma TakeConsumer<T>(q: Queue<T>)
    requires Shape(q) && Chained(q) && ConsumerOk(q) && Enabled(q, Take) && Safe(q, Take)
    ensures var q' := Apply(q, Take); Shape(q') && ConsumerOk(q')
  {
    assert LinkOk(q, |q.dequeued|);
  }

  lemma TakeInv<T>(q: Queue<T>)
    requires Inv(q) && Enabled(q, Take) && Safe(q, Take)
    ensures Inv(Apply(q, Take))
  {
    TakeAccounted(q);
    TakeChained(q);
    TakeProducers(q);
    TakeConsumer(q);
  }

  lemma FreeAccounted<T>(q: Queue<T>)
    requires Shape(q) && Accounted(q) && ConsumerOk(q) && Enabled(q, Free) && Safe(q, Free)
    requires !Fresh(q, q.consumer.node)
    ensures var q' := Apply(q, Free); Shape(q') && Accounted(q')
  {
    var q' := Apply(q, Free);
    var k := |q.dequeued|;
    assert q.place[q.consumer.node] == k - 1;
    assert forall id: nat :: Fresh(q', id) <==> Fresh(q, id);
    assert q'.freed == q.order[..k];
  }

  lemma FreeChained<T>(q: Queue<T>)
    requires Shape(q) && Chained(q) && ConsumerOk(q) && Enabled(q, Free) && Safe(q, Free)
    ensures var q' := Apply(q, Free); Shape(q') && Chained(q')
  {
    var q' := Apply(q, Free);
    assert q.place[q.consumer.node] == |q.dequeued| - 1;
    forall i | |q'.dequeued| <= i < |q'.enqueued| ensures LinkOk(q', i) {
      assert LinkOk(q, i);
      assert q.place[q.order[i]] == i && q.place[q.order[i + 1]] == i + 1;
      assert Unlinked(q', i + 1) <==> Unlinked(q, i + 1);
    }
  }

  lemma FreeProducers<T>(q: Queue<T>)
    requires Shape(q) && ProducersOk(q) && ConsumerOk(q) && Enabled(q, Free) && Safe(q, Free)
    ensures var q' := Apply(q, Free); Shape(q') && ProducersOk(q')
  {
    var q' := Apply(q, Free);
    assert q.consumer.node in q.place;
    forall r | r in q'.producers ensures ProducerOk(q', r) {
      assert ProducerOk(q, r);
    }
  }

  lemma PlacedNotFresh<T>(q: Queue<T>, id: nat)
    requires Shape(q) && ProducersOk(q) && id in q.place
    ensures !Fresh(q, id)
  {
    if id in q.owner && q.owner[id] in q.producers {
      assert ProducerOk(q, q.owner[id]);
    }
  }

  lemma FreeInv<T>(q: Queue<T>)
    requires Inv(q) && Enabled(q, Free) && Safe(q, Free)
    ensures Inv(Apply(q, Free))
  {
    assert q.consumer.node in q.place;
    PlacedNotFresh(q, q.consumer.node);
    FreeAccounted(q);
    FreeChained(q);
    FreeProducers(q);
  }

  /** Every step of every producer and of the consumer touches only live nodes and keeps the
      queue consistent. */
  lemma StepInv<T>(q: Queue<T>, s: Step<T>)
    requires Inv(q) && Enabled(q, s)
    ensures Safe(q, s) && Inv(Apply(q, s))
  {
    InvSafe(q, s);
    match s
    case Alloc(p, v) => AllocInv(q, p, v);
    case Exchange(p) => ExchangeInv(q, p);
    case Link(p) => LinkInv(q, p);
    case Load => LoadInv(q);
    case Take => TakeInv(q);
    case Free => FreeInv(q);
  }
}
