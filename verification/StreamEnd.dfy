/** The end of a stream: its node is done for good, and leaves the list only when its data is sent. */
module StreamEnd {
  import opened Options
  import opened SendPipeline
  import opened SendConservation
  import opened SendRuns

  // ---------------------------------------------------------------- done for good

  predicate AllDone(nodes: seq<Node>, id: nat) {
    forall i :: 0 <= i < |nodes| && nodes[i].stream == Some(id) ==> nodes[i].done
  }

  /** The stream is closed and its node, wherever it stands, is done. */
  predicate Ended(c: Conn, id: nat) {
    id in c.closed && AllDone(c.nodes, id) && (id in c.detached ==> c.detached[id].done)
  }

  /** A stream has one node. */
  lemma OneNode(c: Conn, log: Log, i: nat, id: nat)
    requires Inv(c, log) && i < |c.nodes| && c.nodes[i].stream == Some(id)
    ensures i == IndexOf(c.nodes, id) && id in log.slot && id !in c.detached
  {
    var q, j := Queue(c.nodes), IndexOf(c.nodes, id);
    assert Aligned(c.sent, q, log, i);
    Found(c.nodes, id, i);
    assert j < i ==> InSlotOrder(q, log, j, i);
  }

  lemma MarkEnds(c: Conn, log: Log, id: nat)
    requires Inv(c, log) && id in c.closed && (id in log.slot || id in c.detached)
    ensures Ended(MarkDone(c, id), id)
  {
    var k := IndexOf(c.nodes, id);
    forall i | 0 <= i < |c.nodes| && c.nodes[i].stream == Some(id) ensures i == k {
      OneNode(c, log, i, id);
    }
    if k < |c.nodes| {
      OneNode(c, log, k, id);
    }
  }

  /** The handled end of a stream marks its node, and if the node is at the front, enables write
      events. */
  lemma CloseEnds(c: Conn, log: Log, id: nat, remote: bool)
    requires Inv(c, log) && Legal(c, log, StreamClose(id, remote)) && (remote || c.status == Connected)
    ensures var c' := Step(c, StreamClose(id, remote));
            Ended(c', id) && (c.nodes != [] && c.nodes[0].stream == Some(id) ==> c'.writing)
  {
    MoreClosed(c.nodes, c.detached, log.slot, c.closed, id);
    MarkEnds(c.(closed := c.closed + {id}), log, id);
  }

  lemma AppendBackEnded(nodes: seq<Node>, data: Bytes, id: nat)
    requires AllDone(nodes, id)
    ensures AllDone(AppendBack(nodes, data), id)
  {
  }

  lemma SendEnded(c: Conn, data: Bytes, r: int, id: nat)
    requires Ended(c, id)
    ensures Ended(SendStep(c, data, r), id)
  {
    AppendBackEnded(c.nodes, if !c.writing && c.nodes == [] then data[Taken(r, |data|)..] else data, id);
  }

  lemma AppendNodeEnded(c: Conn, to: nat, data: Bytes, id: nat)
    requires Ended(c, id)
    ensures Ended(AppendNode(c, to, data), id)
  {
  }

  lemma DataEnded(c: Conn, to: nat, data: Bytes, r: int, remote: bool, id: nat)
    requires Ended(c, id)
    ensures Ended(StreamSendStep(c, to, data, r, remote), id)
  {
    AppendNodeEnded(c, to, data, id);
    AppendNodeEnded(WriteRaw(c, data, r), to, data[Taken(r, |data|)..], id);
  }

  lemma MarkEnded(c: Conn, to: nat, id: nat)
    requires Ended(c, id)
    ensures Ended(MarkDone(c, to), id)
  {
  }

  lemma CloseEnded(c: Conn, to: nat, remote: bool, id: nat)
    requires Ended(c, id)
    ensures Ended(StreamCloseStep(c, to, remote), id)
  {
    MarkEnded(c.(closed := c.closed + {to}), to, id);
  }

  lemma OpenEnded(c: Conn, to: nat, id: nat)
    requires Ended(c, id) && to != id
    ensures Ended(Step(c, OpenStream(to)), id) && Ended(Step(c, OpenStreamAway(to)), id)
  {
  }

  lemma AttachEnded(c: Conn, log: Log, to: nat, r: int, id: nat)
    requires Inv(c, log) && to in c.detached && Ended(c, id)
    ensures Ended(AttachStep(c, to, r), id)
  {
    var c0 := c.(nodes := c.nodes + [c.detached[to]], detached := c.detached - {to});
    assert Ended(c0, id);
    FrontEnded(c0, r, id);
  }

  lemma FrontEnded(c: Conn, r: int, id: nat)
    requires Ended(c, id) && c.nodes != []
    ensures Ended(WriteFront(c, r), id)
  {
  }

  lemma {:induction false} LoopEnded(c: Conn, results: seq<int>, id: nat)
    requires Ended(c, id)
    ensures Ended(WriteLoop(c, results), id)
    decreases |results| + |c.nodes|, |c.nodes|
  {
    if c.nodes != [] {
      if Poppable(c.nodes[0]) {
        LoopEnded(c.(nodes := c.nodes[1..]), results, id);
      } else if c.nodes[0].data != [] {
        var c1 := WriteFront(c, if results == [] then 0 else results[0]);
        FrontEnded(c, if results == [] then 0 else results[0], id);
        if c1.nodes[0].data == [] {
          LoopEnded(c1, results[1..], id);
        }
      }
    }
  }

  lemma EndedStep(c: Conn, log: Log, op: Op, id: nat)
    requires Inv(c, log) && Legal(c, log, op) && Ended(c, id)
    ensures Ended(Step(c, op), id)
  {
    match op {
      case Send(data, r) => SendEnded(c, data, r, id);
      case StreamSend(to, data, r, remote) => DataEnded(c, to, data, r, remote, id);
      case StreamClose(to, remote) => CloseEnded(c, to, remote, id);
      case AttachStream(to, r) => AttachEnded(c, log, to, r, id);
      case Writable(results) => LoopEnded(c, results, id);
      case OpenStream(to) => OpenEnded(c, to, id);
      case OpenStreamAway(to) => OpenEnded(c, to, id);
      case _ =>
    }
  }

  /** An ended stream stays ended, and is given nothing more. */
  lemma {:induction false} EndedTrace(c: Conn, log: Log, ops: seq<Op>, c': Conn, log': Log, id: nat)
    requires Inv(c, log) && Ended(c, id) && Trace(c, log, ops, c', log') && !c'.corrupt
    ensures Ended(c', id)
    decreases |ops|
  {
    if ops != [] {
      StepInv(c, log, ops[0]);
      EndedStep(c, log, ops[0], id);
      var c1, log1 := Step(c, ops[0]), Record(log, ops[0], c.status == Connected, c.detached);
      if !c1.corrupt {
        EndedTrace(c1, log1, ops[1..], c', log', id);
      }
    }
  }

  // ---------------------------------------------------------------- sent before it leaves

  /** The stream has been in the list and its node is there no more. */
  predicate HasLeft(c: Conn, log: Log, id: nat) {
    id in log.slot && IndexOf(c.nodes, id) == |c.nodes|
  }

  predicate Later(log: Log, id: nat, other: nat) {
    id in log.slot && other in log.slot && log.slot[id] < log.slot[other]
  }

  /** Every stream in the list has a later slot. */
  predicate AllLater(nodes: seq<Node>, log: Log, id: nat) {
    forall i :: 0 <= i < |nodes| && nodes[i].stream.Some? ==> Later(log, id, nodes[i].stream.value)
  }

  /** Everything up to the stream's slot has been sent, and nothing can be added before that. */
  predicate Delivered(c: Conn, log: Log, id: nat) {
    && id in log.slot && log.slot[id] < |log.segments|
    && Joined(log.segments[..log.slot[id] + 1]) <= c.sent
    && AllLater(c.nodes, log, id)
  }

  ghost predicate AllDelivered(c: Conn, log: Log) {
    forall id: nat :: HasLeft(c, log, id) ==> Delivered(c, log, id)
  }

  /** What an operation may do without touching what has been delivered. */
  lemma Carried(c: Conn, log: Log, c': Conn, log': Log, id: nat)
    requires Delivered(c, log, id) && c.sent <= c'.sent && AllLater(c'.nodes, log', id)
    requires id in log'.slot && log'.slot[id] == log.slot[id]
    requires |log.segments| <= |log'.segments|
    requires log'.segments[..log.slot[id] + 1] == log.segments[..log.slot[id] + 1]
    ensures Delivered(c', log', id)
  {
  }

  /** The same streams in the same order. */
  predicate SameStreams(nodes: seq<Node>, nodes': seq<Node>) {
    |nodes'| == |nodes| && forall i :: 0 <= i < |nodes| ==> nodes'[i].stream == nodes[i].stream
  }

  lemma SameLeft(c: Conn, c': Conn, log: Log, id: nat)
    requires SameStreams(c.nodes, c'.nodes)
    ensures HasLeft(c', log, id) <==> HasLeft(c, log, id)
  {
    if IndexOf(c.nodes, id) < |c.nodes| {
      Found(c'.nodes, id, IndexOf(c.nodes, id));
    }
    if IndexOf(c'.nodes, id) < |c'.nodes| {
      Found(c.nodes, id, IndexOf(c'.nodes, id));
    }
  }

  lemma SameLater(nodes: seq<Node>, nodes': seq<Node>, log: Log, log': Log, id: nat)
    requires AllLater(nodes, log, id) && SameStreams(nodes, nodes') && log'.slot == log.slot
    ensures AllLater(nodes', log', id)
  {
    forall i | 0 <= i < |nodes'| && nodes'[i].stream.Some? ensures Later(log', id, nodes'[i].stream.value) {
      assert Later(log, id, nodes[i].stream.value);
    }
  }

  lemma SameDelivered(c: Conn, c': Conn, log: Log)
    requires AllDelivered(c, log) && SameStreams(c.nodes, c'.nodes) && c.sent <= c'.sent
    ensures AllDelivered(c', log)
  {
    forall id: nat | HasLeft(c', log, id) ensures Delivered(c', log, id) {
      SameLeft(c, c', log, id);
      SameLater(c.nodes, c'.nodes, log, log, id);
      Carried(c, log, c', log, id);
    }
  }

  // ---------------------------------------------------------------- the write callback

  lemma TailLater(nodes: seq<Node>, log: Log, id: nat)
    requires nodes != [] && AllLater(nodes, log, id)
    ensures AllLater(nodes[1..], log, id)
  {
    forall i | 0 <= i < |nodes[1..]| && nodes[1..][i].stream.Some? ensures Later(log, id, nodes[1..][i].stream.value) {
      assert nodes[1..][i] == nodes[i + 1];
    }
  }

  lemma PopDelivered(c: Conn, log: Log)
    requires Inv(c, log) && AllDelivered(c, log) && c.nodes != [] && Poppable(c.nodes[0])
    ensures AllDelivered(c.(nodes := c.nodes[1..]), log)
  {
    var c1 := c.(nodes := c.nodes[1..]);
    forall id: nat | HasLeft(c1, log, id) ensures Delivered(c1, log, id) {
      if c.nodes[0].stream == Some(id) {
        FrontDelivered(c, log, id);
      } else {
        assert HasLeft(c, log, id);
        TailLater(c.nodes, log, id);
        Carried(c, log, c1, log, id);
      }
    }
  }

  /** At the front, empty: everything up to its slot has been sent. */
  lemma FrontDelivered(c: Conn, log: Log, id: nat)
    requires Inv(c, log) && c.nodes != [] && c.nodes[0].stream == Some(id) && c.nodes[0].data == []
    ensures Delivered(c.(nodes := c.nodes[1..]), log, id)
  {
    var q := Queue(c.nodes);
    assert Aligned(c.sent, q, log, 0);
    assert Joined(q[..1]) == [] by {
      assert q[..1][..0] == [] && q[..1][0] == q[0];
    }
    assert c.sent + [] == c.sent;
    forall i | 0 <= i < |c.nodes[1..]| && c.nodes[1..][i].stream.Some?
      ensures Later(log, id, c.nodes[1..][i].stream.value)
    {
      assert Aligned(c.sent, q, log, i + 1) && InSlotOrder(q, log, 0, i + 1);
    }
  }

  lemma {:induction false} LoopDelivered(c: Conn, log: Log, results: seq<int>)
    requires Inv(c, log) && AllDelivered(c, log)
    ensures AllDelivered(WriteLoop(c, results), log)
    decreases |results| + |c.nodes|, |c.nodes|
  {
    if c.nodes == [] {
      SameDelivered(c, WriteLoop(c, results), log);
    } else if Poppable(c.nodes[0]) {
      PopInv(c, log);
      PopDelivered(c, log);
      LoopDelivered(c.(nodes := c.nodes[1..]), log, results);
    } else if c.nodes[0].data == [] {
      SameDelivered(c, WriteLoop(c, results), log);
    } else {
      var r := if results == [] then 0 else results[0];
      WriteFrontInv(c, log, r);
      SameDelivered(c, WriteFront(c, r), log);
      if WriteFront(c, r).nodes[0].data == [] {
        LoopDelivered(WriteFront(c, r), log, results[1..]);
      }
    }
  }

  // ---------------------------------------------------------------- the other operations

  lemma MessageStreams(nodes: seq<Node>, data: Bytes, i: nat)
    requires i < |AppendBack(nodes, data)| && AppendBack(nodes, data)[i].stream.Some?
    ensures i < |nodes| && AppendBack(nodes, data)[i].stream == nodes[i].stream
  {
  }

  lemma MessageLeft(nodes: seq<Node>, data: Bytes, id: nat)
    requires IndexOf(AppendBack(nodes, data), id) == |AppendBack(nodes, data)|
    ensures IndexOf(nodes, id) == |nodes|
  {
    var i := IndexOf(nodes, id);
    if i < |nodes| {
      Found(AppendBack(nodes, data), id, i);
    }
  }

  lemma MessageLater(nodes: seq<Node>, data: Bytes, log: Log, log': Log, id: nat)
    requires AllLater(nodes, log, id) && log'.slot == log.slot
    ensures AllLater(nodes, log', id) && AllLater(AppendBack(nodes, data), log', id)
  {
    var nodes' := AppendBack(nodes, data);
    forall i | 0 <= i < |nodes'| && nodes'[i].stream.Some? ensures Later(log', id, nodes'[i].stream.value) {
      MessageStreams(nodes, data, i);
      assert Later(log, id, nodes[i].stream.value);
    }
  }

  lemma SendDelivered(c: Conn, log: Log, data: Bytes, r: int)
    requires AllDelivered(c, log) && c.status == Connected
    ensures AllDelivered(SendStep(c, data, r), log.(segments := log.segments + [Segment(None, data)]))
  {
    var c', log' := SendStep(c, data, r), log.(segments := log.segments + [Segment(None, data)]);
    var rest := if !c.writing && c.nodes == [] then data[Taken(r, |data|)..] else data;
    DirectSendGrows(c, data, r);
    assert c'.nodes == if rest != [] then AppendBack(c.nodes, rest) else c.nodes;
    forall id: nat | HasLeft(c', log', id) ensures Delivered(c', log', id) {
      if rest != [] {
        MessageLeft(c.nodes, rest, id);
      }
      assert Delivered(c, log, id);
      assert AllLater(c'.nodes, log', id) by {
        MessageLater(c.nodes, rest, log, log', id);
      }
      Carried(c, log, c', log', id);
    }
  }

  /** A new stream behind all others. */
  lemma PushDelivered(c: Conn, log: Log, node: Node, c': Conn)
    requires AllDelivered(c, log) && node.stream.Some? && node.stream.value !in log.slot
    requires c'.nodes == c.nodes + [node] && c'.sent == c.sent
    ensures AllDelivered(c', Opened(log, node.stream.value, node.data))
  {
    var log' := Opened(log, node.stream.value, node.data);
    forall id: nat | HasLeft(c', log', id) ensures Delivered(c', log', id) {
      if IndexOf(c.nodes, id) < |c.nodes| {
        Found(c'.nodes, id, IndexOf(c.nodes, id));
      }
      if node.stream == Some(id) {
        Found(c'.nodes, id, |c.nodes|);
      }
      assert HasLeft(c, log, id);
      Carried(c, log, c', log', id);
    }
  }

  /** With nothing in the list everything accepted has been sent. */
  lemma EmptyDelivered(c: Conn, log: Log)
    requires Inv(c, log) && c.nodes == []
    ensures AllDelivered(c, log)
  {
    assert Joined(Queue([])) == [] && c.sent + [] == c.sent;
    forall id: nat | HasLeft(c, log, id) ensures Delivered(c, log, id) {
      JoinedPrefix(log.segments, log.slot[id] + 1);
    }
  }

  lemma JoinedPrefix(s: seq<Segment>, k: nat)
    requires k <= |s|
    ensures Joined(s[..k]) <= Joined(s)
  {
    JoinedSplit(s, k);
  }

  lemma AttachDelivered(c: Conn, log: Log, id: nat, r: int)
    requires Inv(c, log) && AllDelivered(c, log) && Legal(c, log, AttachStream(id, r))
    ensures AllDelivered(AttachStep(c, id, r), Opened(log, id, c.detached[id].data))
  {
    var node, c' := c.detached[id], AttachStep(c, id, r);
    var log' := Opened(log, id, node.data);
    var c0 := c.(nodes := c.nodes + [node], detached := c.detached - {id});
    PushDelivered(c, log, node, c0);
    if c'.nodes == [] {
      AttachInv(c, log, id, r);
      EmptyDelivered(c', log');
    } else if c.nodes == [] {
      SameDelivered(c0, c', log');
    }
  }

  lemma AppendNodeStreams(c: Conn, id: nat, data: Bytes)
    ensures SameStreams(c.nodes, AppendNode(c, id, data).nodes)
  {
  }

  lemma DataStreams(c: Conn, id: nat, data: Bytes, r: int, remote: bool)
    ensures SameStreams(c.nodes, StreamSendStep(c, id, data, r, remote).nodes)
  {
    AppendNodeStreams(c, id, data);
    AppendNodeStreams(WriteRaw(c, data, r), id, data[Taken(r, |data|)..]);
  }

  /** Data of a listed stream lands behind everything delivered. */
  lemma DataDelivered(c: Conn, log: Log, to: nat, data: Bytes, c': Conn)
    requires Inv(c, log) && AllDelivered(c, log) && to in log.slot && to !in c.closed
    requires SameStreams(c.nodes, c'.nodes) && c.sent <= c'.sent
    ensures log.slot[to] < |log.segments| && AllDelivered(c', GrowLog(log, log.slot[to], data))
  {
    var log' := GrowLog(log, log.slot[to], data);
    var k := IndexOf(c.nodes, to);
    forall id: nat | HasLeft(c', log', id) ensures Delivered(c', log', id) {
      SameLeft(c, c', log, id);
      assert HasLeft(c, log, id) && Later(log, id, c.nodes[k].stream.value);
      SameLater(c.nodes, c'.nodes, log, log', id);
      assert log'.segments[..log.slot[id] + 1] == log.segments[..log.slot[id] + 1];
      Carried(c, log, c', log', id);
    }
  }

  lemma StreamSendDelivered(c: Conn, log: Log, to: nat, data: Bytes, r: int, remote: bool)
    requires Inv(c, log) && AllDelivered(c, log) && Legal(c, log, StreamSend(to, data, r, remote))
    ensures AllDelivered(StreamSendStep(c, to, data, r, remote),
                         Record(log, StreamSend(to, data, r, remote), c.status == Connected, c.detached))
  {
    var c' := StreamSendStep(c, to, data, r, remote);
    DataStreams(c, to, data, r, remote);
    StreamSendGrows(c, to, data, r, remote);
    if to in log.slot && (remote || c.status == Connected) {
      DataDelivered(c, log, to, data, c');
    } else {
      SameDelivered(c, c', log);
    }
  }

  lemma CloseStreams(c: Conn, id: nat, remote: bool)
    ensures SameStreams(c.nodes, StreamCloseStep(c, id, remote).nodes)
    ensures StreamCloseStep(c, id, remote).sent == c.sent
  {
    MarkStreams(c.(closed := c.closed + {id}), id);
  }

  lemma MarkStreams(c: Conn, id: nat)
    ensures SameStreams(c.nodes, MarkDone(c, id).nodes) && MarkDone(c, id).sent == c.sent
  {
    var k := IndexOf(c.nodes, id);
    if k < |c.nodes| {
      assert SameStreams(c.nodes, c.nodes[k := c.nodes[k].(done := true)]);
    }
  }

  lemma DeliveredStep(c: Conn, log: Log, op: Op)
    requires Inv(c, log) && AllDelivered(c, log) && Legal(c, log, op)
    ensures AllDelivered(Step(c, op), Record(log, op, c.status == Connected, c.detached))
  {
    match op {
      case Send(data, r) =>
        if c.status == Connected {
          SendDelivered(c, log, data, r);
        }
      case OpenStream(id) => PushDelivered(c, log, StreamNode(id), Step(c, op));
      case AttachStream(id, r) => AttachDelivered(c, log, id, r);
      case StreamSend(id, data, r, remote) => StreamSendDelivered(c, log, id, data, r, remote);
      case StreamClose(id, remote) =>
        CloseStreams(c, id, remote);
        SameDelivered(c, Step(c, op), log);
      case Writable(results) =>
        if c.writing {
          LoopDelivered(c, log, results);
        }
      case _ => SameDelivered(c, Step(c, op), log);
    }
  }

  lemma {:induction false} DeliveredTrace(c: Conn, log: Log, ops: seq<Op>, c': Conn, log': Log)
    requires Inv(c, log) && AllDelivered(c, log) && Trace(c, log, ops, c', log') && !c'.corrupt
    ensures AllDelivered(c', log')
    decreases |ops|
  {
    if ops != [] {
      StepInv(c, log, ops[0]);
      DeliveredStep(c, log, ops[0]);
      var c1, log1 := Step(c, ops[0]), Record(log, ops[0], c.status == Connected, c.detached);
      if !c1.corrupt {
        DeliveredTrace(c1, log1, ops[1..], c', log');
      }
    }
  }

  /** A stream's node leaves the list only when the socket has taken all data ever given to the
      stream, behind everything accepted before it. */
  lemma LeavesWhenSent(ops: seq<Op>, c: Conn, log: Log, id: nat)
    requires Trace(Fresh(), Log([], map[]), ops, c, log) && !c.corrupt && HasLeft(c, log, id)
    ensures log.slot[id] < |log.segments|
    ensures Joined(log.segments[..log.slot[id]]) + Given(c.detached, log, id) <= c.sent
  {
    DeliveredTrace(Fresh(), Log([], map[]), ops, c, log);
    assert Delivered(c, log, id);
    var g := log.slot[id];
    assert log.segments[..g + 1] == log.segments[..g] + [log.segments[g]];
    JoinedSnoc(log.segments[..g], log.segments[g]);
  }
}
