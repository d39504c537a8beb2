/**
  The buffers of the listed nodes over whole runs: exactly when one of them breaks, and exactly
  when bytes are appended to a broken one.
 */
module SendBuffers {
  import opened Options
  import opened BufferShape
  import opened SendPipeline
  import opened SendRuns
  import opened SendProgress

  predicate NoneSmall(nodes: seq<Node>, detached: map<nat, Node>) {
    && (forall i :: 0 <= i < |nodes| ==> !Small(nodes[i]))
    && (forall id :: id in detached ==> !Small(detached[id]))
  }

  predicate AllFit(nodes: seq<Node>) {
    forall i :: 0 <= i < |nodes| ==> !Broken(nodes[i])
  }

  ghost predicate BuffersOk(nodes: seq<Node>) {
    forall i :: 0 <= i < |nodes| ==> BufferOk(nodes[i])
  }

  // ---------------------------------------------------------------- one write callback

  /** With `n` bytes sent from the front on, the last byte of the open stream at `k` is taken out
      of a buffer with a capacity below 8. */
  ghost predicate EmptiesSmall(nodes: seq<Node>, n: nat, k: nat) {
    k < |nodes| && !nodes[k].done && nodes[k].data != [] && Small(nodes[k]) && n >= |Pending(nodes[..k + 1])|
  }

  ghost predicate EmptiesAnySmall(nodes: seq<Node>, n: nat) {
    exists k: nat :: EmptiesSmall(nodes, n, k)
  }

  lemma {:induction false} PendingAtLeast(nodes: seq<Node>, j: nat, k: nat)
    requires j < k <= |nodes|
    ensures |Pending(nodes[..k])| >= |Pending(nodes[..j])| + |nodes[j].data|
    decreases k
  {
    var q := Queue(nodes[..k]);
    assert q[..k - 1] == Queue(nodes[..k - 1]) && q[k - 1].data == nodes[k - 1].data;
    if j < k - 1 {
      PendingAtLeast(nodes, j, k - 1);
    }
  }

  /** The same, seen without the front. */
  lemma EmptiesBehind(nodes: seq<Node>, n: nat, k: nat)
    requires nodes != []
    ensures EmptiesSmall(nodes, |nodes[0].data| + n, k + 1) <==> EmptiesSmall(nodes[1..], n, k)
  {
    if k + 1 < |nodes| {
      PendingCons(nodes, k + 2);
      assert nodes[1..][..k + 1] == nodes[1..][..k + 1];
    }
  }

  lemma FrontGone(nodes: seq<Node>, n: nat, m: nat)
    requires nodes != [] && BuffersOk(nodes) && (nodes[0].stream.None? || nodes[0].done) && m == |nodes[0].data| + n
    ensures EmptiesAnySmall(nodes, m) <==> EmptiesAnySmall(nodes[1..], n)
  {
    if k: nat :| EmptiesSmall(nodes, m, k) {
      assert BufferOk(nodes[0]);
      EmptiesBehind(nodes, n, k - 1);
    }
    if k: nat :| EmptiesSmall(nodes[1..], n, k) {
      EmptiesBehind(nodes, n, k);
      assert EmptiesSmall(nodes, m, k + 1);
    }
  }

  /** Fewer bytes than the front has empty nothing. */
  lemma NothingEmptied(nodes: seq<Node>, n: nat)
    requires nodes != [] && (n == 0 || n < |nodes[0].data|)
    ensures !EmptiesAnySmall(nodes, n)
  {
    if k: nat :| EmptiesSmall(nodes, n, k) {
      PendingAtLeast(nodes, k, k + 1);
      PendingAtLeast(nodes, 0, k + 1);
    }
  }

  /** Exactly the bytes of the front empty nothing but the front. */
  lemma FrontEmptied(nodes: seq<Node>)
    requires nodes != [] && nodes[0].stream.Some? && !nodes[0].done
    ensures EmptiesAnySmall(nodes, |nodes[0].data|) <==> nodes[0].data != [] && Small(nodes[0])
  {
    var n := |nodes[0].data|;
    PendingCons(nodes, 1);
    assert Queue(nodes[1..][..0]) == [];
    if k: nat :| EmptiesSmall(nodes, n, k) && k > 0 {
      PendingAtLeast(nodes, k, k + 1);
      PendingAtLeast(nodes, 0, k);
    }
    if nodes[0].data != [] && Small(nodes[0]) {
      assert EmptiesSmall(nodes, n, 0);
    }
  }

  lemma ShortFits(c: Conn, results: seq<int>)
    requires c.nodes != [] && !FrontTaken(c.nodes, results) && BufferOk(c.nodes[0]) && AllFit(c.nodes)
    ensures AllFit(WriteLoop(c, results).nodes)
  {
    var r := if results == [] then 0 else results[0];
    DrainOk(c.nodes[0], Taken(r, |c.nodes[0].data|));
    FrontShort(c, results);
  }

  lemma StaysBreaks(c: Conn, results: seq<int>)
    requires c.nodes != [] && FrontTaken(c.nodes, results) && c.nodes[0].stream.Some? && !c.nodes[0].done
    requires BufferOk(c.nodes[0]) && AllFit(c.nodes)
    ensures AllFit(WriteLoop(c, results).nodes) <==> !EmptiesAnySmall(c.nodes, |c.nodes[0].data|)
  {
    var front := c.nodes[0];
    FrontStays(c, results);
    FrontEmptied(c.nodes);
    DrainOk(front, |front.data|);
    var nodes' := WriteLoop(c, results).nodes;
    assert Broken(nodes'[0]) <==> front.data != [] && Small(front);
  }

  /** The write callback leaves a broken buffer in the list exactly when it empties a small one
      of an open stream. */
  lemma {:induction false} LoopBreaks(c: Conn, results: seq<int>)
    requires BuffersOk(c.nodes) && AllFit(c.nodes) && !c.closeOnEmpty
    ensures AllFit(WriteLoop(c, results).nodes) <==> !EmptiesAnySmall(c.nodes, Taking(c.nodes, results))
    decreases |c.nodes|
  {
    if c.nodes == [] {
      EmptyListFits(Taking(c.nodes, results));
    } else if !FrontTaken(c.nodes, results) {
      ShortFits(c, results);
      NothingEmptied(c.nodes, Taking(c.nodes, results));
    } else if c.nodes[0].stream.Some? && !c.nodes[0].done {
      StaysBreaks(c, results);
    } else {
      var left := ResultsLeft(c.nodes, results);
      var c' := FrontGoes(c, results);
      LoopBreaks(c', left);
      TakingCons(c.nodes, results);
      FrontGone(c.nodes, Taking(c'.nodes, left), Taking(c.nodes, results));
    }
  }

  lemma EmptyListFits(n: nat)
    ensures !EmptiesAnySmall([], n)
  {
  }

  // ---------------------------------------------------------------- one operation

  /** The list that an operation writes from. */
  function WrittenFrom(c: Conn, op: Op): seq<Node> {
    match op
    case Writable(_) => c.nodes
    case AttachStream(id, _) => if id in c.detached && c.nodes == [] then [c.detached[id]] else []
    case _ => []
  }

  /** How many bytes the socket takes from that list. */
  function TakenFrom(c: Conn, op: Op): nat {
    match op
    case Writable(results) => if c.writing then Taking(c.nodes, results) else 0
    case AttachStream(id, r) =>
      if id in c.detached && c.nodes == [] then Taken(r, |c.detached[id].data|) else 0
    case _ => 0
  }

  /** `op` takes the last byte out of an open stream's buffer that has a capacity below 8. */
  ghost predicate TakesLastByte(c: Conn, op: Op) {
    EmptiesAnySmall(WrittenFrom(c, op), TakenFrom(c, op))
  }

  /** The list after a node has been put into the empty list and `n` of its bytes were sent. */
  function AttachedAlone(node: Node, n: nat): seq<Node>
    requires n <= |node.data|
  {
    if node.data == [] then [node] else if n == |node.data| && node.done then [] else [Drain(node, n)]
  }

  lemma AttachedIs(c: Conn, id: nat, r: int)
    requires id in c.detached && c.nodes == []
    ensures var node, c' := c.detached[id], AttachStep(c, id, r);
            var n := Taken(r, |node.data|);
            c'.sent == c.sent + node.data[..n] && c'.nodes == AttachedAlone(node, n)
  {
    assert [] + [c.detached[id]] == [c.detached[id]];
  }

  lemma AloneFits(node: Node)
    ensures AllFit([node]) <==> !Broken(node)
  {
    assert [node][0] == node;
  }

  lemma DoneEmptiesNothing(node: Node, n: nat)
    requires node.done
    ensures !EmptiesAnySmall([node], n)
  {
  }

  lemma AloneBreaks(node: Node, n: nat)
    requires BufferOk(node) && !Broken(node) && node.stream.Some? && n <= |node.data|
    ensures AllFit(AttachedAlone(node, n)) <==> !EmptiesAnySmall([node], n)
  {
    if node.data == [] {
      NothingEmptied([node], n);
      AloneFits(node);
    } else if n < |node.data| {
      NothingEmptied([node], n);
      DrainOk(node, n);
      AloneFits(Drain(node, n));
    } else if node.done {
      DoneEmptiesNothing(node, n);
    } else {
      FrontEmptied([node]);
      DrainOk(node, n);
      AloneFits(Drain(node, n));
    }
  }

  lemma AttachBreaks(c: Conn, log: Log, id: nat, r: int)
    requires Inv(c, log) && AllFit(c.nodes) && id in c.detached
    ensures AllFit(AttachStep(c, id, r).nodes) <==> !TakesLastByte(c, AttachStream(id, r))
  {
    if c.nodes == [] {
      AttachedIs(c, id, r);
      AloneBreaks(c.detached[id], Taken(r, |c.detached[id].data|));
    }
  }

  lemma WritableBreaks(c: Conn, log: Log, results: seq<int>)
    requires Inv(c, log) && AllFit(c.nodes)
    ensures AllFit(Step(c, Writable(results)).nodes) <==> !TakesLastByte(c, Writable(results))
  {
    if c.writing {
      LoopBreaks(c, results);
    } else if c.nodes != [] {
      NothingEmptied(c.nodes, 0);
    }
  }

  /** From buffers that all fit, an operation breaks one that stays in the list if and only if it
      takes the last byte out of an open stream's buffer of a capacity below 8. */
  lemma BreaksExactly(c: Conn, log: Log, op: Op)
    requires Inv(c, log) && Legal(c, log, op) && AllFit(c.nodes)
    ensures AllFit(Step(c, op).nodes) <==> !TakesLastByte(c, op)
  {
    match op {
      case Writable(results) => WritableBreaks(c, log, results);
      case AttachStream(id, r) => AttachBreaks(c, log, id, r);
      case _ =>
        OthersFit(c, log, op);
        EmptyListFits(TakenFrom(c, op));
    }
  }

  lemma OthersFit(c: Conn, log: Log, op: Op)
    requires Inv(c, log) && Legal(c, log, op) && AllFit(c.nodes) && !op.Writable? && !op.AttachStream?
    ensures AllFit(Step(c, op).nodes)
  {
    match op {
      case Send(data, r) => SendFits(c, log, data, r);
      case StreamSend(id, data, r, remote) => StreamSendFits(c, log, id, data, r, remote);
      case StreamClose(id, remote) => CloseFits(c, id, remote);
      case _ =>
    }
  }

  lemma CloseFits(c: Conn, id: nat, remote: bool)
    requires AllFit(c.nodes)
    ensures AllFit(StreamCloseStep(c, id, remote).nodes)
  {
    assert AllFit(MarkDone(c.(closed := c.closed + {id}), id).nodes);
  }

  lemma AppendBackFits(nodes: seq<Node>, d: Bytes)
    requires BuffersOk(nodes) && AllFit(nodes)
    ensures AllFit(AppendBack(nodes, d))
  {
    FillOk(if nodes == [] || nodes[|nodes| - 1].stream.Some? then MemNode() else nodes[|nodes| - 1], d);
  }

  lemma SendFits(c: Conn, log: Log, data: Bytes, r: int)
    requires Inv(c, log) && AllFit(c.nodes)
    ensures AllFit(SendStep(c, data, r).nodes)
  {
    AppendBackFits(c.nodes, data);
    AppendBackFits(c.nodes, data[Taken(r, |data|)..]);
  }

  lemma AppendNodeFits(c: Conn, id: nat, data: Bytes)
    requires BuffersOk(c.nodes) && AllFit(c.nodes)
    ensures AllFit(AppendNode(c, id, data).nodes)
  {
    var i := IndexOf(c.nodes, id);
    if i < |c.nodes| {
      FillOk(c.nodes[i], data);
    }
  }

  lemma StreamSendFits(c: Conn, log: Log, id: nat, data: Bytes, r: int, remote: bool)
    requires Inv(c, log) && AllFit(c.nodes)
    ensures AllFit(StreamSendStep(c, id, data, r, remote).nodes)
  {
    AppendNodeFits(c, id, data);
    AppendNodeFits(WriteRaw(c, data, r), id, data[Taken(r, |data|)..]);
  }

  /** `op` appends a stream's bytes to a broken buffer: the stream's node is broken, and the
      socket does not take all of the data directly. */
  predicate AppendsToBroken(c: Conn, op: Op) {
    && op.StreamSend? && Handled(op, c.status == Connected)
    && IndexOf(c.nodes, op.id) < |c.nodes| && Broken(c.nodes[IndexOf(c.nodes, op.id)])
    && op.data != [] && (AtEmptyFront(c, op.id) ==> op.socket < |op.data|)
  }

  lemma StreamSendCorrupts(c: Conn, id: nat, data: Bytes, r: int, remote: bool)
    requires !c.corrupt && forall i :: i in c.detached ==> !Broken(c.detached[i])
    ensures StreamSendStep(c, id, data, r, remote).corrupt <==>
            AppendsToBroken(c, StreamSend(id, data, r, remote))
  {
    if AtEmptyFront(c, id) && data != [] {
      FrontSendIs(c, id, data, r);
    }
  }

  lemma CorruptsExactly(c: Conn, log: Log, op: Op)
    requires Inv(c, log) && Legal(c, log, op)
    ensures Step(c, op).corrupt <==> AppendsToBroken(c, op)
  {
    match op {
      case StreamSend(id, data, r, remote) => StreamSendCorrupts(c, id, data, r, remote);
      case Writable(results) => WriteLoopInv(c, log, results);
      case AttachStream(id, r) => AttachInv(c, log, id, r);
      case _ =>
    }
  }

  // ---------------------------------------------------------------- whole runs

  ghost predicate AlwaysFits(c: Conn, ops: seq<Op>)
    decreases |ops|
  {
    AllFit(c.nodes) && (ops == [] || AlwaysFits(Step(c, ops[0]), ops[1..]))
  }

  ghost predicate NeverTakesLastByte(c: Conn, ops: seq<Op>)
    decreases |ops|
  {
    ops == [] || (!TakesLastByte(c, ops[0]) && NeverTakesLastByte(Step(c, ops[0]), ops[1..]))
  }

  /** Over a whole run all buffers in the list stay inside their vectors if and only if the last
      byte of an open stream is never taken out of a buffer with a capacity below 8; and then
      nothing is appended to a broken buffer. */
  lemma {:induction false} RunFits(c: Conn, log: Log, ops: seq<Op>, c': Conn, log': Log)
    requires Inv(c, log) && AllFit(c.nodes) && Trace(c, log, ops, c', log')
    ensures AlwaysFits(c, ops) <==> NeverTakesLastByte(c, ops)
    ensures AlwaysFits(c, ops) ==> !c'.corrupt
    decreases |ops|
  {
    if ops != [] {
      BreaksExactly(c, log, ops[0]);
      CorruptsExactly(c, log, ops[0]);
      StepInv(c, log, ops[0]);
      if AllFit(Step(c, ops[0]).nodes) {
        RunFits(Step(c, ops[0]), Record(log, ops[0], c.status == Connected, c.detached), ops[1..], c', log');
      }
    }
  }

  // ---------------------------------------------------------------- the first chunk

  /** The stream's node, in the list or not in it yet. */
  function NodeOf(c: Conn, id: nat): Option<Node> {
    var i := IndexOf(c.nodes, id);
    if i < |c.nodes| then Some(c.nodes[i]) else if id in c.detached then Some(c.detached[id]) else None
  }

  /** `op` queues the first chunk of a stream, and the chunk has fewer than 8 bytes. */
  predicate QueuesSmallChunk(c: Conn, op: Op) {
    && op.StreamSend? && Handled(op, c.status == Connected)
    && NodeOf(c, op.id).Some? && NodeOf(c, op.id).value.buf.None?
    && var n := |op.data| - if AtEmptyFront(c, op.id) then Taken(op.socket, |op.data|) else 0;
       0 < n < BUFFER_OFFSET
  }

  lemma FillSmall(node: Node, d: Bytes)
    requires BufferOk(node) && !Small(node)
    ensures Small(Fill(node, d)) <==> node.buf.None? && |d| < BUFFER_OFFSET
  {
    if node.buf.Some? {
      AppendGrows(node.buf.value, |d|);
    }
  }

  lemma AppendNodeSmall(c: Conn, log: Log, id: nat, d: Bytes)
    requires Inv(c, log) && NoneSmall(c.nodes, c.detached)
    ensures NoneSmall(AppendNode(c, id, d).nodes, AppendNode(c, id, d).detached) <==>
            !(NodeOf(c, id).Some? && NodeOf(c, id).value.buf.None? && |d| < BUFFER_OFFSET)
  {
    var i := IndexOf(c.nodes, id);
    if i < |c.nodes| {
      FillSmall(c.nodes[i], d);
      assert AppendNode(c, id, d).nodes[i] == Fill(c.nodes[i], d);
    } else if id in c.detached {
      FillSmall(c.detached[id], d);
      assert AppendNode(c, id, d).detached[id] == Fill(c.detached[id], d);
    }
  }

  lemma WriteFrontSmall(c: Conn, r: int)
    requires NoneSmall(c.nodes, c.detached) && c.nodes != []
    ensures NoneSmall(WriteFront(c, r).nodes, WriteFront(c, r).detached)
  {
  }

  lemma {:induction false} LoopSmall(c: Conn, results: seq<int>)
    requires NoneSmall(c.nodes, c.detached)
    ensures NoneSmall(WriteLoop(c, results).nodes, WriteLoop(c, results).detached)
    decreases |results| + |c.nodes|, |c.nodes|
  {
    if c.nodes != [] {
      if Poppable(c.nodes[0]) {
        LoopSmall(c.(nodes := c.nodes[1..]), results);
      } else if c.nodes[0].data != [] {
        var r := if results == [] then 0 else results[0];
        var c1 := WriteFront(c, r);
        WriteFrontSmall(c, r);
        if c1.nodes[0].data == [] {
          LoopSmall(c1, results[1..]);
        }
      }
    }
  }

  lemma StreamSendSmall(c: Conn, log: Log, id: nat, data: Bytes, r: int, remote: bool)
    requires Inv(c, log) && NoneSmall(c.nodes, c.detached)
    ensures var c' := StreamSendStep(c, id, data, r, remote);
            NoneSmall(c'.nodes, c'.detached) <==> !QueuesSmallChunk(c, StreamSend(id, data, r, remote))
  {
    if AtEmptyFront(c, id) && data != [] {
      FrontSendIs(c, id, data, r);
      FillSmall(c.nodes[0], data[Taken(r, |data|)..]);
    } else {
      AppendNodeSmall(c, log, id, data);
    }
  }

  lemma SendSmall(c: Conn, log: Log, data: Bytes, r: int)
    requires Inv(c, log) && NoneSmall(c.nodes, c.detached)
    ensures NoneSmall(SendStep(c, data, r).nodes, SendStep(c, data, r).detached)
  {
    var rest := if !c.writing && c.nodes == [] then data[Taken(r, |data|)..] else data;
    FillSmall(if c.nodes == [] || c.nodes[|c.nodes| - 1].stream.Some? then MemNode() else c.nodes[|c.nodes| - 1], rest);
  }

  lemma AttachSmall(c: Conn, id: nat, r: int)
    requires NoneSmall(c.nodes, c.detached)
    ensures NoneSmall(AttachStep(c, id, r).nodes, AttachStep(c, id, r).detached)
  {
  }

  lemma MarkDoneSmall(c: Conn, id: nat)
    requires NoneSmall(c.nodes, c.detached)
    ensures NoneSmall(MarkDone(c, id).nodes, MarkDone(c, id).detached)
  {
    var i := IndexOf(c.nodes, id);
    if i < |c.nodes| {
      assert !Small(c.nodes[i].(done := true));
    } else if id in c.detached {
      assert !Small(c.detached[id].(done := true));
    }
  }

  lemma CloseSmall(c: Conn, id: nat, remote: bool)
    requires NoneSmall(c.nodes, c.detached)
    ensures NoneSmall(StreamCloseStep(c, id, remote).nodes, StreamCloseStep(c, id, remote).detached)
  {
    MarkDoneSmall(c.(closed := c.closed + {id}), id);
  }

  lemma AwaySmall(detached: map<nat, Node>, id: nat)
    requires NoneSmall([], detached)
    ensures NoneSmall([], detached[id := StreamNode(id)])
  {
  }

  /** A buffer with a capacity below 8 is made exactly by a first chunk below 8 bytes. */
  lemma SmallExactly(c: Conn, log: Log, op: Op)
    requires Inv(c, log) && Legal(c, log, op) && NoneSmall(c.nodes, c.detached)
    ensures NoneSmall(Step(c, op).nodes, Step(c, op).detached) <==> !QueuesSmallChunk(c, op)
  {
    match op {
      case Send(data, r) => SendSmall(c, log, data, r);
      case StreamSend(id, data, r, remote) => StreamSendSmall(c, log, id, data, r, remote);
      case Writable(results) => LoopSmall(c, results);
      case AttachStream(id, r) => AttachSmall(c, id, r);
      case StreamClose(id, remote) => CloseSmall(c, id, remote);
      case OpenStreamAway(id) => AwaySmall(c.detached, id);
      case _ =>
    }
  }

  ghost predicate NeverQueuesSmallChunk(c: Conn, ops: seq<Op>)
    decreases |ops|
  {
    ops == [] || (!QueuesSmallChunk(c, ops[0]) && NeverQueuesSmallChunk(Step(c, ops[0]), ops[1..]))
  }

  /** If the first chunk that each stream queues has at least 8 bytes, all buffers stay inside
      their vectors and every byte is accounted for. */
  lemma {:induction false} LargeChunksFit(c: Conn, log: Log, ops: seq<Op>, c': Conn, log': Log)
    requires Inv(c, log) && AllFit(c.nodes) && NoneSmall(c.nodes, c.detached) && Trace(c, log, ops, c', log')
    requires NeverQueuesSmallChunk(c, ops)
    ensures AlwaysFits(c, ops) && Inv(c', log')
    decreases |ops|
  {
    if ops != [] {
      BreaksExactly(c, log, ops[0]);
      CorruptsExactly(c, log, ops[0]);
      StepInv(c, log, ops[0]);
      SmallExactly(c, log, ops[0]);
      LargeChunksFit(Step(c, ops[0]), Record(log, ops[0], c.status == Connected, c.detached), ops[1..], c', log');
    }
  }

  // ---------------------------------------------------------------- a run that breaks

  /** A stream whose buffer was made for a chunk of three bytes, all sent since. */
  function Broke(): Conn {
    Conn(Connected, [Node(Some(2), [], false, Some(Shape(8, 8, 3, 3)))], map[], {1},
         false, true, false, [1, 2, 3], 3, false, false)
  }

  function ThreeQueued(): Conn {
    Conn(Connected, [StreamNode(1), Node(Some(2), [1, 2, 3], false, Some(Shape(8, 11, 11, 3)))], map[], {},
         false, true, false, [], 0, false, false)
  }

  function TwoOpen(): Conn {
    ThreeQueued().(nodes := [StreamNode(1), StreamNode(2)])
  }

  lemma TwoAreOpen()
    ensures Step(Step(Step(Fresh(), Establish), OpenStream(1)), OpenStream(2)) == TwoOpen()
  {
    assert Step(Step(Step(Fresh(), Establish), OpenStream(1)), OpenStream(2)).nodes == TwoOpen().nodes;
  }

  lemma ThreeAreQueued()
    ensures StreamSendStep(TwoOpen(), 2, [1, 2, 3], 0, false) == ThreeQueued()
  {
    var c := TwoOpen();
    assert IndexOf(c.nodes, 2) == 1;
    assert [] + [1, 2, 3] == [1, 2, 3];
    assert Fill(StreamNode(2), [1, 2, 3]) == ThreeQueued().nodes[1];
    assert c.nodes[1 := ThreeQueued().nodes[1]] == ThreeQueued().nodes;
  }

  lemma ThreeAreSent()
    ensures Step(StreamCloseStep(ThreeQueued(), 1, false), Writable([3])) == Broke()
  {
    var c, left := StreamCloseStep(ThreeQueued(), 1, false), ThreeQueued().nodes[1];
    assert IndexOf(ThreeQueued().nodes, 1) == 0 && {} + {1} == {1};
    assert c.nodes == [StreamNode(1).(done := true), left];
    var c1 := c.(nodes := c.nodes[1..]);
    assert c1.nodes == [left] && WriteLoop(c, [3]) == WriteLoop(c1, [3]);
    FrontStays(c1, [3]);
    assert Drain(left, 3) == Broke().nodes[0];
    assert WriteLoop(c1, [3]).nodes == Broke().nodes;
  }

  function QueueThree(): seq<Op> {
    [Establish, OpenStream(1), OpenStream(2), StreamSend(2, [1, 2, 3], 0, false)]
  }

  function SendMore(more: Bytes): seq<Op> {
    [StreamClose(1, false), Writable([3]), StreamSend(2, more, 0, false)]
  }

  lemma UntilThreeQueued() returns (log: Log)
    ensures Trace(Fresh(), Log([], map[]), QueueThree(), ThreeQueued(), log)
    ensures 1 in log.slot && 2 in log.slot
  {
    TwoAreOpen();
    ThreeAreQueued();
    var start, three := Log([], map[]), StreamSend(2, [1, 2, 3], 0, false);
    var log1 := Record(start, OpenStream(1), true, map[]);
    var log2 := Record(log1, OpenStream(2), true, map[]);
    log := Record(log2, three, true, map[]);
    assert log.slot == map[1 := 0, 2 := 1];
    var c1 := Step(Fresh(), Establish);
    TraceCons(TwoOpen(), log2, three, [], ThreeQueued(), log);
    TraceCons(Step(c1, OpenStream(1)), log1, OpenStream(2), [three] + [], ThreeQueued(), log);
    TraceCons(c1, start, OpenStream(1), [OpenStream(2)] + ([three] + []), ThreeQueued(), log);
    TraceCons(Fresh(), start, Establish, [OpenStream(1)] + ([OpenStream(2)] + ([three] + [])), ThreeQueued(), log);
    assert QueueThree() == [Establish] + ([OpenStream(1)] + ([OpenStream(2)] + ([three] + [])));
  }

  lemma FromThreeQueued(log: Log, more: Bytes) returns (c: Conn, log': Log)
    requires 1 in log.slot && 2 in log.slot && more != []
    ensures Trace(ThreeQueued(), log, SendMore(more), c, log') && c.corrupt
  {
    ThreeAreSent();
    FrontSendIs(Broke(), 2, more, 0);
    var close, write, last := StreamClose(1, false), Writable([3]), StreamSend(2, more, 0, false);
    c, log' := Step(Broke(), last), Record(log, last, true, map[]);
    TraceCons(Broke(), log, last, [], c, log');
    TraceCons(StreamCloseStep(ThreeQueued(), 1, false), log, write, [last] + [], c, log');
    TraceCons(ThreeQueued(), log, close, [write] + ([last] + []), c, log');
    assert SendMore(more) == [close] + ([write] + ([last] + []));
  }

  /** With the front stream closed, three bytes queued and sent, and more to come, an ordinary use
      of two streams ends in an append to a broken buffer. */
  lemma SmallChunkCorrupts(more: Bytes)
    requires more != []
    ensures exists c, log ::
              Trace(Fresh(), Log([], map[]), QueueThree() + SendMore(more), c, log) && c.corrupt
  {
    var log := UntilThreeQueued();
    var c, log' := FromThreeQueued(log, more);
    TraceJoin(Fresh(), Log([], map[]), QueueThree(), ThreeQueued(), log, SendMore(more), c, log');
  }
}
