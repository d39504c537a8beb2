/** Conservation over whole runs of one connection's outgoing pipeline. */
module SendRuns {
  import opened Options
  import opened BufferShape
  import opened SendPipeline
  import opened SendConservation

  // ---------------------------------------------------------------- one node

  /** The buffer holds the node's bytes. It is broken only when it is empty, belongs to a stream,
      and was made for a first chunk of fewer than 8 bytes. */
  ghost predicate BufferOk(node: Node) {
    if node.buf.None? then
      node.stream.Some? && node.data == []
    else if Broken(node) then
      node.stream.Some? && node.data == [] && Small(node)
    else
      Grows(node.buf.value) && Readable(node.buf.value) == |node.data| && (node.stream.None? ==> !Small(node))
  }

  lemma FillOk(node: Node, d: Bytes)
    requires BufferOk(node)
    ensures BufferOk(Fill(node, d)) && Fill(node, d).stream == node.stream && Fill(node, d).done == node.done
    ensures !Broken(node) ==> Fill(node, d).data == node.data + d && !Broken(Fill(node, d))
  {
    if !Broken(node) {
      AppendGrows(if node.buf.Some? then node.buf.value else New(|d|), |d|);
    }
  }

  lemma DrainOk(node: Node, n: nat)
    requires BufferOk(node) && n <= |node.data|
    ensures BufferOk(Drain(node, n))
    ensures Broken(Drain(node, n)) <==> Broken(node) || (Small(node) && n == |node.data|)
  {
    if node.buf.Some? && !Broken(node) {
      RetrieveBreaks(node.buf.value, n);
    }
  }

  // ---------------------------------------------------------------- the list

  ghost predicate Listed(nodes: seq<Node>, slot: map<nat, nat>, closed: set<nat>) {
    forall id {:trigger IndexOf(nodes, id)} :: id in slot && id !in closed ==> IndexOf(nodes, id) < |nodes|
  }

  ghost predicate NodeOk(node: Node, closed: set<nat>) {
    BufferOk(node) && (node.done ==> node.stream.Some? && node.stream.value in closed)
  }

  /** A stream whose handle is still open has its node in the list; a node that is done has a
      closed handle; the buffers hold the nodes' bytes. */
  ghost predicate ListOk(nodes: seq<Node>, slot: map<nat, nat>, closed: set<nat>) {
    Listed(nodes, slot, closed) && forall i :: 0 <= i < |nodes| ==> NodeOk(nodes[i], closed)
  }

  /** A detached node is in no slot yet, and nothing has been taken out of it. */
  ghost predicate AwayOk(detached: map<nat, Node>, slot: map<nat, nat>, closed: set<nat>) {
    forall id :: id in detached ==>
      id !in slot && detached[id].stream == Some(id) && NodeOk(detached[id], closed) && !Broken(detached[id])
  }

  lemma {:induction false} Found(nodes: seq<Node>, id: nat, k: nat)
    requires k < |nodes| && nodes[k].stream == Some(id)
    ensures IndexOf(nodes, id) <= k
  {
  }

  lemma ReplacedListed(nodes: seq<Node>, slot: map<nat, nat>, closed: set<nat>, i: nat, x: Node)
    requires Listed(nodes, slot, closed) && i < |nodes| && x.stream == nodes[i].stream
    ensures Listed(nodes[i := x], slot, closed)
  {
    forall id | id in slot && id !in closed ensures IndexOf(nodes[i := x], id) < |nodes[i := x]| {
      Found(nodes[i := x], id, IndexOf(nodes, id));
    }
  }

  lemma Replaced(nodes: seq<Node>, slot: map<nat, nat>, closed: set<nat>, i: nat, x: Node)
    requires ListOk(nodes, slot, closed) && i < |nodes| && x.stream == nodes[i].stream && NodeOk(x, closed)
    ensures ListOk(nodes[i := x], slot, closed)
  {
    ReplacedListed(nodes, slot, closed, i, x);
  }

  lemma PushedListed(nodes: seq<Node>, slot: map<nat, nat>, closed: set<nat>, x: Node)
    requires Listed(nodes, slot, closed)
    ensures Listed(nodes + [x], slot, closed)
  {
    forall id | id in slot && id !in closed ensures IndexOf(nodes + [x], id) < |nodes + [x]| {
      Found(nodes + [x], id, IndexOf(nodes, id));
    }
  }

  lemma PushedStream(nodes: seq<Node>, slot: map<nat, nat>, closed: set<nat>, x: Node, g: nat)
    requires ListOk(nodes, slot, closed) && x.stream.Some? && NodeOk(x, closed)
    ensures ListOk(nodes + [x], slot[x.stream.value := g], closed)
    ensures Queue(nodes + [x]) == Queue(nodes) + [Segment(x.stream, x.data)]
  {
    PushedListed(nodes, slot, closed, x);
    Found(nodes + [x], x.stream.value, |nodes|);
  }

  lemma AppendedBack(nodes: seq<Node>, slot: map<nat, nat>, closed: set<nat>, d: Bytes)
    requires ListOk(nodes, slot, closed)
    ensures ListOk(AppendBack(nodes, d), slot, closed)
    ensures Queue(AppendBack(nodes, d)) == Behind(Queue(nodes), d)
  {
    assert [] + d == d;
    if nodes == [] || nodes[|nodes| - 1].stream.Some? {
      FillOk(MemNode(), d);
      assert Queue(AppendBack(nodes, d)) == Queue(nodes) + [Segment(None, d)];
      PushedListed(nodes, slot, closed, Fill(MemNode(), d));
    } else {
      FillOk(nodes[|nodes| - 1], d);
      Replaced(nodes, slot, closed, |nodes| - 1, Fill(nodes[|nodes| - 1], d));
    }
  }

  lemma Filled(nodes: seq<Node>, slot: map<nat, nat>, closed: set<nat>, i: nat, d: Bytes)
    requires ListOk(nodes, slot, closed) && i < |nodes| && !Broken(nodes[i])
    ensures ListOk(nodes[i := Fill(nodes[i], d)], slot, closed)
    ensures Queue(nodes[i := Fill(nodes[i], d)]) == GrowAt(Queue(nodes), i, d)
  {
    FillOk(nodes[i], d);
    Replaced(nodes, slot, closed, i, Fill(nodes[i], d));
  }

  lemma Drained(nodes: seq<Node>, slot: map<nat, nat>, closed: set<nat>, n: nat)
    requires ListOk(nodes, slot, closed) && nodes != [] && n <= |nodes[0].data|
    ensures ListOk(nodes[0 := Drain(nodes[0], n)], slot, closed)
    ensures Queue(nodes[0 := Drain(nodes[0], n)]) == CutFront(Queue(nodes), n)
  {
    DrainOk(nodes[0], n);
    Replaced(nodes, slot, closed, 0, Drain(nodes[0], n));
  }

  lemma Popped(nodes: seq<Node>, slot: map<nat, nat>, closed: set<nat>)
    requires ListOk(nodes, slot, closed) && nodes != [] && Poppable(nodes[0])
    ensures ListOk(nodes[1..], slot, closed) && Queue(nodes[1..]) == Queue(nodes)[1..]
  {
    forall id | id in slot && id !in closed ensures IndexOf(nodes[1..], id) < |nodes[1..]| {
      var i := IndexOf(nodes, id);
      Found(nodes[1..], id, i - 1);
    }
  }

  // ---------------------------------------------------------------- the invariant

  ghost predicate Flags(c: Conn) {
    && !c.corrupt && !c.closeOnEmpty && c.bytesSent == |c.sent|
    && (c.halfClosed ==> c.status == Disconnecting || c.status == Disconnected)
  }

  ghost predicate Inv(c: Conn, log: Log) {
    && Flags(c) && Conserved(c.sent, Queue(c.nodes), log)
    && ListOk(c.nodes, log.slot, c.closed) && AwayOk(c.detached, log.slot, c.closed)
  }

  // ---------------------------------------------------------------- messages

  /** A direct, possibly short write is an append to the empty queue followed by a write of its
      front. */
  lemma SentDirectly(sent: Bytes, log: Log, d: Bytes, n: nat)
    requires Conserved(sent, [], log) && n <= |d|
    ensures Conserved(sent + d[..n], if n < |d| then Behind([], d[n..]) else [],
                      log.(segments := log.segments + [Segment(None, d)]))
  {
    var log' := log.(segments := log.segments + [Segment(None, d)]);
    BehindConserved(sent, [], log, d);
    var q := Behind([], d);
    assert q == [Segment(None, d)];
    CutConserved(sent, q, log', n);
    assert CutFront(q, n) == [Segment(None, d[n..])];
    if n == |d| {
      PopConserved(sent + d[..n], CutFront(q, n), log');
      assert CutFront(q, n)[1..] == [];
    }
  }

  lemma SendConserved(c: Conn, log: Log, data: Bytes, r: int)
    requires Inv(c, log) && c.status == Connected
    ensures var c' := SendStep(c, data, r);
            Conserved(c'.sent, Queue(c'.nodes), log.(segments := log.segments + [Segment(None, data)]))
  {
    if !c.writing && c.nodes == [] {
      var n := Taken(r, |data|);
      SentDirectly(c.sent, log, data, n);
      AppendedBack([], log.slot, c.closed, data[n..]);
    } else if |data| > 0 {
      AppendedBack(c.nodes, log.slot, c.closed, data);
      BehindConserved(c.sent, Queue(c.nodes), log, data);
    } else {
      EmptyConserved(c.sent, Queue(c.nodes), log);
    }
  }

  lemma SendList(c: Conn, log: Log, data: Bytes, r: int)
    requires Inv(c, log)
    ensures ListOk(SendStep(c, data, r).nodes, log.slot, c.closed)
  {
    if c.status == Connected {
      var rest := if !c.writing && c.nodes == [] then data[Taken(r, |data|)..] else data;
      AppendedBack(c.nodes, log.slot, c.closed, rest);
    }
  }

  lemma SendInv(c: Conn, log: Log, data: Bytes, r: int)
    requires Inv(c, log)
    ensures Inv(SendStep(c, data, r), Record(log, Send(data, r), c.status == Connected, c.detached))
  {
    if c.status == Connected {
      SendConserved(c, log, data, r);
    }
    SendList(c, log, data, r);
  }

  // ---------------------------------------------------------------- streams

  /** Data written directly from an empty front goes through that stream's place. */
  lemma StreamDirectly(sent: Bytes, queue: seq<Segment>, log: Log, d: Bytes, n: nat)
    requires Conserved(sent, queue, log) && n <= |d|
    requires queue != [] && queue[0].stream.Some? && queue[0].data == []
    ensures Aligned(sent, queue, log, 0)
    ensures Conserved(sent + d[..n], GrowAt(queue, 0, d[n..]), GrowLog(log, log.slot[queue[0].stream.value], d))
  {
    GrowConserved(sent, queue, log, 0, d);
    var q := GrowAt(queue, 0, d);
    assert [] + d == d && [] + d[n..] == d[n..];
    CutConserved(sent, q, GrowLog(log, log.slot[queue[0].stream.value], d), n);
    assert CutFront(q, n) == GrowAt(queue, 0, d[n..]);
  }

  lemma GrownByNothing(segments: seq<Segment>, g: nat)
    requires g < |segments|
    ensures GrowAt(segments, g, []) == segments
  {
    assert segments[g].data + [] == segments[g].data;
  }

  lemma NotListed(nodes: seq<Node>, sent: Bytes, log: Log, id: nat)
    requires Conserved(sent, Queue(nodes), log) && id !in log.slot
    ensures IndexOf(nodes, id) == |nodes|
  {
    var i := IndexOf(nodes, id);
    assert i < |nodes| ==> Aligned(sent, Queue(nodes), log, i);
  }

  /** The branch that writes the data of a stream directly. */
  lemma FrontSendIs(c: Conn, id: nat, data: Bytes, r: int)
    requires AtEmptyFront(c, id) && data != []
    ensures var n, c' := Taken(r, |data|), StreamSendStep(c, id, data, r, true);
            && c'.sent == c.sent + data[..n]
            && c'.nodes == (if n < |data| then c.nodes[0 := Fill(c.nodes[0], data[n..])] else c.nodes)
            && c'.corrupt == (c.corrupt || (n < |data| && Broken(c.nodes[0])))
            && c' == c.(sent := c'.sent, bytesSent := c.bytesSent + n, reading := c'.reading, nodes := c'.nodes,
                        corrupt := c'.corrupt)
  {
  }

  lemma FrontSend(c: Conn, log: Log, id: nat, data: Bytes, r: int)
    requires Inv(c, log) && id in log.slot && AtEmptyFront(c, id)
    requires !StreamSendStep(c, id, data, r, true).corrupt && data != []
    ensures log.slot[id] < |log.segments|
    ensures Inv(StreamSendStep(c, id, data, r, true), GrowLog(log, log.slot[id], data))
  {
    var n := Taken(r, |data|);
    FrontSendIs(c, id, data, r);
    assert Queue(c.nodes)[0].stream == Some(id);
    StreamDirectly(c.sent, Queue(c.nodes), log, data, n);
    if n < |data| {
      Filled(c.nodes, log.slot, c.closed, 0, data[n..]);
    } else {
      assert data[n..] == [];
      GrownByNothing(Queue(c.nodes), 0);
    }
  }

  lemma ListedAppend(c: Conn, log: Log, id: nat, data: Bytes)
    requires Inv(c, log) && id in log.slot && id !in c.closed && !AppendNode(c, id, data).corrupt
    ensures log.slot[id] < |log.segments|
    ensures Inv(AppendNode(c, id, data), GrowLog(log, log.slot[id], data))
  {
    var i := IndexOf(c.nodes, id);
    GrowConserved(c.sent, Queue(c.nodes), log, i, data);
    Filled(c.nodes, log.slot, c.closed, i, data);
  }

  /** Data of a stream that stands in the list. */
  lemma ListedSend(c: Conn, log: Log, id: nat, data: Bytes, r: int, remote: bool)
    requires Inv(c, log) && id in log.slot && id !in c.closed && data != [] && (remote || c.status == Connected)
    requires !StreamSendStep(c, id, data, r, remote).corrupt
    ensures log.slot[id] < |log.segments|
    ensures Inv(StreamSendStep(c, id, data, r, remote), GrowLog(log, log.slot[id], data))
  {
    if AtEmptyFront(c, id) {
      FrontSend(c, log, id, data, r);
    } else {
      ListedAppend(c, log, id, data);
    }
  }

  lemma AwayFilled(detached: map<nat, Node>, slot: map<nat, nat>, closed: set<nat>, id: nat, d: Bytes)
    requires AwayOk(detached, slot, closed) && id in detached
    ensures AwayOk(detached[id := Fill(detached[id], d)], slot, closed)
  {
    FillOk(detached[id], d);
  }

  /** Data of a stream that waits to be put into the list. */
  lemma DetachedSend(c: Conn, log: Log, id: nat, data: Bytes, r: int, remote: bool)
    requires Inv(c, log) && id !in log.slot && id in c.detached
    ensures Inv(StreamSendStep(c, id, data, r, remote), log)
  {
    NotListed(c.nodes, c.sent, log, id);
    AwayFilled(c.detached, log.slot, c.closed, id, data);
  }

  lemma StreamSendInv(c: Conn, log: Log, id: nat, data: Bytes, r: int, remote: bool)
    requires Inv(c, log) && Legal(c, log, StreamSend(id, data, r, remote))
    ensures var c' := StreamSendStep(c, id, data, r, remote);
            !c'.corrupt ==>
              Inv(c', Record(log, StreamSend(id, data, r, remote), c.status == Connected, c.detached))
  {
    if id !in log.slot {
      DetachedSend(c, log, id, data, r, remote);
    } else if data == [] {
      GrownByNothing(log.segments, log.slot[id]);
    } else if (remote || c.status == Connected) && !StreamSendStep(c, id, data, r, remote).corrupt {
      ListedSend(c, log, id, data, r, remote);
    }
  }

  lemma MoreClosed(nodes: seq<Node>, detached: map<nat, Node>, slot: map<nat, nat>, closed: set<nat>, id: nat)
    requires ListOk(nodes, slot, closed) && AwayOk(detached, slot, closed)
    ensures ListOk(nodes, slot, closed + {id}) && AwayOk(detached, slot, closed + {id})
  {
  }

  lemma MarkedOk(nodes: seq<Node>, slot: map<nat, nat>, closed: set<nat>, i: nat)
    requires ListOk(nodes, slot, closed) && i < |nodes| && nodes[i].stream.Some? && nodes[i].stream.value in closed
    ensures ListOk(nodes[i := nodes[i].(done := true)], slot, closed)
    ensures Queue(nodes[i := nodes[i].(done := true)]) == Queue(nodes)
  {
    Replaced(nodes, slot, closed, i, nodes[i].(done := true));
  }

  lemma MarkDoneInv(c: Conn, log: Log, id: nat)
    requires Inv(c, log) && id in c.closed
    ensures Inv(MarkDone(c, id), log)
  {
    if IndexOf(c.nodes, id) < |c.nodes| {
      MarkedOk(c.nodes, log.slot, c.closed, IndexOf(c.nodes, id));
    }
  }

  lemma StreamCloseInv(c: Conn, log: Log, id: nat, remote: bool)
    requires Inv(c, log)
    ensures Inv(StreamCloseStep(c, id, remote), log)
  {
    MoreClosed(c.nodes, c.detached, log.slot, c.closed, id);
    MarkDoneInv(c.(closed := c.closed + {id}), log, id);
  }

  lemma OpenedOk(c: Conn, log: Log, node: Node)
    requires Inv(c, log) && node.stream.Some? && node.stream.value !in log.slot && NodeOk(node, c.closed)
    ensures var id := node.stream.value;
            Inv(c.(nodes := c.nodes + [node], detached := c.detached - {id}), Opened(log, id, node.data))
  {
    OpenedConserved(c.sent, Queue(c.nodes), log, node.stream.value, node.data);
    PushedStream(c.nodes, log.slot, c.closed, node, |log.segments|);
  }

  // ---------------------------------------------------------------- writing from the front

  /** What the socket takes and what it leaves are the data in order, and an error takes nothing.
      A short write never asks for write events; without them it asks for read events. */
  lemma WriteRawSplits(c: Conn, data: Bytes, r: int)
    ensures var c', n := WriteRaw(c, data, r), Taken(r, |data|);
            && c'.sent + data[n..] == c.sent + data
            && c'.bytesSent - |c'.sent| == c.bytesSent - |c.sent|
            && (r <= 0 ==> c'.sent == c.sent) && (0 <= r <= |data| ==> n == r)
            && c'.writing == c.writing
            && (c'.reading <==> c.reading || (n < |data| && !c.writing))
  {
    var n := Taken(r, |data|);
    Assoc(c.sent, data[..n], data[n..]);
    assert data == data[..n] + data[n..];
  }

  lemma WriteFrontInv(c: Conn, log: Log, r: int)
    requires Inv(c, log) && c.nodes != []
    ensures Inv(WriteFront(c, r), log)
  {
    var n := Taken(r, |c.nodes[0].data|);
    CutConserved(c.sent, Queue(c.nodes), log, n);
    Drained(c.nodes, log.slot, c.closed, n);
  }

  lemma PopInv(c: Conn, log: Log)
    requires Inv(c, log) && c.nodes != [] && Poppable(c.nodes[0])
    ensures Inv(c.(nodes := c.nodes[1..]), log)
  {
    PopConserved(c.sent, Queue(c.nodes), log);
    Popped(c.nodes, log.slot, c.closed);
  }

  lemma {:induction false} WriteLoopInv(c: Conn, log: Log, results: seq<int>)
    requires Inv(c, log)
    ensures Inv(WriteLoop(c, results), log)
    decreases |results| + |c.nodes|, |c.nodes|
  {
    if c.nodes != [] {
      if Poppable(c.nodes[0]) {
        PopInv(c, log);
        WriteLoopInv(c.(nodes := c.nodes[1..]), log, results);
      } else if c.nodes[0].data != [] {
        var r := if results == [] then 0 else results[0];
        WriteFrontInv(c, log, r);
        if WriteFront(c, r).nodes[0].data == [] {
          WriteLoopInv(WriteFront(c, r), log, results[1..]);
        }
      }
    }
  }

  lemma AttachInv(c: Conn, log: Log, id: nat, r: int)
    requires Inv(c, log) && Legal(c, log, AttachStream(id, r))
    ensures Inv(AttachStep(c, id, r), Record(log, AttachStream(id, r), c.status == Connected, c.detached))
  {
    var node := c.detached[id];
    OpenedOk(c, log, node);
    var c0 := c.(nodes := c.nodes + [node], detached := c.detached - {id});
    if c.nodes == [] && |node.data| > 0 {
      WriteFrontInv(c0, Opened(log, id, node.data), r);
      var c1 := WriteFront(c0, r);
      if c1.nodes[0].data == [] && node.done {
        PopInv(c1, Opened(log, id, node.data));
        assert c1.nodes[1..] == [];
      }
    }
  }

  // ---------------------------------------------------------------- what a stream was given

  /** All data of a stream so far: its segment, or what waits in its detached node. */
  function Given(detached: map<nat, Node>, log: Log, id: nat): Bytes {
    if id in log.slot then
      if log.slot[id] < |log.segments| then log.segments[log.slot[id]].data else []
    else if id in detached then detached[id].data
    else []
  }

  /** What `op` gives to the stream. */
  function GivenBy(op: Op, connected: bool, id: nat): Bytes {
    if op.StreamSend? && op.id == id && Handled(op, connected) then op.data else []
  }

  ghost predicate SlotsOk(log: Log) {
    forall id :: id in log.slot ==> log.slot[id] < |log.segments| && log.segments[log.slot[id]].stream == Some(id)
  }

  lemma LogGrown(detached: map<nat, Node>, log: Log, to: nat, d: Bytes, id: nat)
    requires SlotsOk(log) && to in log.slot
    ensures Given(detached, GrowLog(log, log.slot[to], d), id) ==
            Given(detached, log, id) + if id == to then d else []
  {
  }

  lemma AwayGrown(detached: map<nat, Node>, log: Log, to: nat, d: Bytes, id: nat)
    requires to in detached && to !in log.slot && !Broken(detached[to])
    ensures Given(detached[to := Fill(detached[to], d)], log, id) ==
            Given(detached, log, id) + if id == to then d else []
  {
  }

  lemma NothingGiven(b: Bytes)
    ensures b + [] == b
  {
  }

  lemma StreamSendDetached(c: Conn, to: nat, data: Bytes, r: int, remote: bool)
    ensures var c' := StreamSendStep(c, to, data, r, remote);
            c'.detached == if (remote || c.status == Connected) && data != []
                              && IndexOf(c.nodes, to) == |c.nodes| && to in c.detached
                           then c.detached[to := Fill(c.detached[to], data)] else c.detached
  {
    if AtEmptyFront(c, to) {
      assert IndexOf(c.nodes, to) == 0;
    }
  }

  lemma StreamSendGiven(c: Conn, log: Log, to: nat, data: Bytes, r: int, remote: bool, id: nat)
    requires Inv(c, log) && Legal(c, log, StreamSend(to, data, r, remote))
    ensures var op := StreamSend(to, data, r, remote);
            Given(StreamSendStep(c, to, data, r, remote).detached,
                  Record(log, op, c.status == Connected, c.detached), id) ==
            Given(c.detached, log, id) + GivenBy(op, c.status == Connected, id)
  {
    StreamSendDetached(c, to, data, r, remote);
    NothingGiven(Given(c.detached, log, id));
    if to in log.slot {
      LogGrown(c.detached, log, to, data, id);
    } else {
      NotListed(c.nodes, c.sent, log, to);
      AwayGrown(c.detached, log, to, data, id);
    }
  }

  lemma {:induction false} WriteLoopDetached(c: Conn, results: seq<int>)
    ensures WriteLoop(c, results).detached == c.detached
    decreases |results| + |c.nodes|, |c.nodes|
  {
    if c.nodes != [] {
      if Poppable(c.nodes[0]) {
        WriteLoopDetached(c.(nodes := c.nodes[1..]), results);
      } else if c.nodes[0].data != [] {
        var r := if results == [] then 0 else results[0];
        var c1 := WriteFront(c, r);
        assert c1.detached == c.detached;
        if c1.nodes[0].data == [] {
          WriteLoopDetached(c1, results[1..]);
        }
      }
    }
  }

  lemma AttachGiven(c: Conn, log: Log, to: nat, r: int, id: nat)
    requires Inv(c, log) && to in c.detached
    ensures Given(AttachStep(c, to, r).detached, Opened(log, to, c.detached[to].data), id) == Given(c.detached, log, id)
  {
    assert AttachStep(c, to, r).detached == c.detached - {to};
  }

  lemma MessageGiven(detached: map<nat, Node>, log: Log, d: Bytes, id: nat)
    requires SlotsOk(log)
    ensures Given(detached, log.(segments := log.segments + [Segment(None, d)]), id) == Given(detached, log, id)
  {
  }

  lemma OpenedGiven(detached: map<nat, Node>, log: Log, to: nat, id: nat)
    requires SlotsOk(log) && to !in log.slot && to !in detached
    ensures Given(detached, Opened(log, to, []), id) == Given(detached, log, id)
  {
  }

  lemma AwayGiven(detached: map<nat, Node>, log: Log, to: nat, id: nat)
    requires to !in log.slot && to !in detached
    ensures Given(detached[to := StreamNode(to)], log, id) == Given(detached, log, id)
  {
  }

  lemma MarkGiven(detached: map<nat, Node>, log: Log, to: nat, id: nat)
    requires to in detached
    ensures Given(detached[to := detached[to].(done := true)], log, id) == Given(detached, log, id)
  {
  }

  lemma CloseGiven(c: Conn, log: Log, to: nat, remote: bool, id: nat)
    ensures Given(StreamCloseStep(c, to, remote).detached, log, id) == Given(c.detached, log, id)
  {
    var detached' := StreamCloseStep(c, to, remote).detached;
    if detached' != c.detached {
      assert to in c.detached && detached' == c.detached[to := c.detached[to].(done := true)];
      MarkGiven(c.detached, log, to, id);
    }
  }

  /** An operation adds to a stream exactly the data it is handed for that stream. */
  lemma GivenGrows(c: Conn, log: Log, op: Op, id: nat)
    requires Inv(c, log) && Legal(c, log, op)
    ensures Given(Step(c, op).detached, Record(log, op, c.status == Connected, c.detached), id) ==
            Given(c.detached, log, id) + GivenBy(op, c.status == Connected, id)
  {
    NothingGiven(Given(c.detached, log, id));
    match op {
      case StreamSend(to, data, r, remote) => StreamSendGiven(c, log, to, data, r, remote, id);
      case Writable(results) => WriteLoopDetached(c, results);
      case AttachStream(to, r) => AttachGiven(c, log, to, r, id);
      case Send(data, _) => MessageGiven(c.detached, log, data, id);
      case OpenStream(to) => OpenedGiven(c.detached, log, to, id);
      case OpenStreamAway(to) => AwayGiven(c.detached, log, to, id);
      case StreamClose(to, remote) => CloseGiven(c, log, to, remote, id);
      case _ =>
    }
  }

  // ---------------------------------------------------------------- whole runs

  lemma StatusInv(c: Conn, log: Log, op: Op)
    requires Inv(c, log) && (op.Establish? || op.Shutdown? || op.ForceClose?)
    ensures Inv(Step(c, op), log)
  {
  }

  lemma OpenInv(c: Conn, log: Log, id: nat)
    requires Inv(c, log) && Legal(c, log, OpenStream(id))
    ensures Inv(Step(c, OpenStream(id)), Opened(log, id, []))
  {
    OpenedOk(c, log, StreamNode(id));
    assert c.detached - {id} == c.detached;
  }

  lemma OpenAwayInv(c: Conn, log: Log, id: nat)
    requires Inv(c, log) && Legal(c, log, OpenStreamAway(id))
    ensures Inv(Step(c, OpenStreamAway(id)), log)
  {
  }

  /** Every operation keeps the accepted bytes equal to the sent ones followed by the pending,
      unless it appends to a broken buffer. */
  lemma StepInv(c: Conn, log: Log, op: Op)
    requires Inv(c, log) && Legal(c, log, op)
    ensures !Step(c, op).corrupt ==> Inv(Step(c, op), Record(log, op, c.status == Connected, c.detached))
  {
    match op {
      case Send(data, r) => SendInv(c, log, data, r);
      case OpenStream(id) => OpenInv(c, log, id);
      case OpenStreamAway(id) => OpenAwayInv(c, log, id);
      case AttachStream(id, r) => AttachInv(c, log, id, r);
      case StreamSend(id, data, r, remote) => StreamSendInv(c, log, id, data, r, remote);
      case StreamClose(id, remote) => StreamCloseInv(c, log, id, remote);
      case Writable(results) => WriteLoopInv(c, log, results);
      case _ => StatusInv(c, log, op);
    }
  }

  ghost predicate Trace(c: Conn, log: Log, ops: seq<Op>, c': Conn, log': Log)
    decreases |ops|
  {
    if ops == [] then
      c' == c && log' == log
    else
      && Legal(c, log, ops[0])
      && Trace(Step(c, ops[0]), Record(log, ops[0], c.status == Connected, c.detached), ops[1..], c', log')
  }

  lemma TraceCons(c: Conn, log: Log, op: Op, ops: seq<Op>, c': Conn, log': Log)
    requires Legal(c, log, op)
    requires Trace(Step(c, op), Record(log, op, c.status == Connected, c.detached), ops, c', log')
    ensures Trace(c, log, [op] + ops, c', log')
  {
    assert ([op] + ops)[1..] == ops;
  }

  lemma {:induction false} TraceJoin(c: Conn, log: Log, a: seq<Op>, c1: Conn, log1: Log,
                                     b: seq<Op>, c2: Conn, log2: Log)
    requires Trace(c, log, a, c1, log1) && Trace(c1, log1, b, c2, log2)
    ensures Trace(c, log, a + b, c2, log2)
    decreases |a|
  {
    if a == [] {
      assert a + b == b;
    } else {
      assert (a + b)[1..] == a[1..] + b;
      TraceJoin(Step(c, a[0]), Record(log, a[0], c.status == Connected, c.detached), a[1..], c1, log1, b, c2, log2);
    }
  }

  lemma {:induction false} TraceInv(c: Conn, log: Log, ops: seq<Op>, c': Conn, log': Log)
    requires Inv(c, log) && Trace(c, log, ops, c', log') && !c'.corrupt
    ensures Inv(c', log')
    decreases |ops|
  {
    if ops != [] {
      StepInv(c, log, ops[0]);
      var c1, log1 := Step(c, ops[0]), Record(log, ops[0], c.status == Connected, c.detached);
      if !c1.corrupt {
        TraceInv(c1, log1, ops[1..], c', log');
      }
    }
  }

  /** Under any partial writes, as long as nothing has been appended to a broken buffer: what the
      socket took, followed by what is in the list, is what was accepted, in slot order. */
  lemma StreamConserved(ops: seq<Op>, c: Conn, log: Log)
    requires Trace(Fresh(), Log([], map[]), ops, c, log) && !c.corrupt
    ensures c.sent + Pending(c.nodes) == Joined(log.segments)
    ensures c.bytesSent == |c.sent|
  {
    TraceInv(Fresh(), Log([], map[]), ops, c, log);
  }

  lemma {:induction false} WriteLoopKeepsOpen(c: Conn, results: seq<int>)
    requires !c.closeOnEmpty
    ensures WriteLoop(c, results).halfClosed == c.halfClosed && WriteLoop(c, results).status == c.status
    ensures c.sent <= WriteLoop(c, results).sent
    decreases |results| + |c.nodes|, |c.nodes|
  {
    if c.nodes != [] {
      if Poppable(c.nodes[0]) {
        WriteLoopKeepsOpen(c.(nodes := c.nodes[1..]), results);
      } else if c.nodes[0].data != [] {
        var c1 := WriteFront(c, if results == [] then 0 else results[0]);
        if c1.nodes[0].data == [] {
          WriteLoopKeepsOpen(c1, results[1..]);
        }
      }
    }
  }

  lemma HalfCloseStep(c: Conn, op: Op)
    requires !c.closeOnEmpty && !c.halfClosed && Step(c, op).halfClosed
    ensures op.Shutdown? && c.nodes == []
  {
    match op {
      case Writable(results) => WriteLoopKeepsOpen(c, results);
      case _ =>
    }
  }

  /** The socket's side is half-closed only by `shutdown`, with the list empty and every accepted
      byte already taken by the socket. */
  lemma HalfCloseOnlyWhenDrained(ops: seq<Op>, c: Conn, log: Log, op: Op)
    requires Trace(Fresh(), Log([], map[]), ops, c, log) && Legal(c, log, op)
    requires !c.halfClosed && Step(c, op).halfClosed
    ensures op.Shutdown? && c.nodes == [] && c.sent == Joined(log.segments)
  {
    TraceInv(Fresh(), Log([], map[]), ops, c, log);
    HalfCloseStep(c, op);
    assert Queue([]) == [];
  }

  lemma DirectSendGrows(c: Conn, data: Bytes, r: int)
    ensures c.sent <= SendStep(c, data, r).sent && SendStep(c, data, r).status == c.status
  {
  }

  lemma AppendNodeKeeps(c: Conn, id: nat, data: Bytes)
    ensures AppendNode(c, id, data).sent == c.sent && AppendNode(c, id, data).writing == c.writing
    ensures AppendNode(c, id, data).status == c.status
  {
  }

  lemma StreamSendGrows(c: Conn, id: nat, data: Bytes, r: int, remote: bool)
    ensures c.sent <= StreamSendStep(c, id, data, r, remote).sent
    ensures StreamSendStep(c, id, data, r, remote).writing == c.writing
    ensures StreamSendStep(c, id, data, r, remote).status == c.status
  {
    AppendNodeKeeps(c, id, data);
    AppendNodeKeeps(WriteRaw(c, data, r), id, data[Taken(r, |data|)..]);
  }

  lemma AttachGrows(c: Conn, id: nat, r: int)
    ensures c.sent <= AttachStep(c, id, r).sent && AttachStep(c, id, r).writing == c.writing
    ensures AttachStep(c, id, r).status == c.status
  {
    if id in c.detached {
      var c0 := c.(nodes := c.nodes + [c.detached[id]], detached := c.detached - {id});
      var c1 := WriteFront(c0, r);
      assert c.sent <= c1.sent && c1.writing == c.writing && c1.status == c.status;
    }
  }

  /** What the socket has taken is never taken back. */
  lemma SentOnlyGrows(c: Conn, op: Op)
    requires !c.closeOnEmpty
    ensures c.sent <= Step(c, op).sent
  {
    match op {
      case Writable(results) => WriteLoopKeepsOpen(c, results);
      case Send(data, r) => DirectSendGrows(c, data, r);
      case StreamSend(id, data, r, remote) => StreamSendGrows(c, id, data, r, remote);
      case AttachStream(id, r) => AttachGrows(c, id, r);
      case _ =>
    }
  }

  /** A shutdown takes effect if and only if the connection is up and nothing is in the list;
      otherwise it is forgotten, because the flag that would defer it never becomes true. */
  lemma ShutdownNotDeferred(ops: seq<Op>, c: Conn, log: Log)
    requires Trace(Fresh(), Log([], map[]), ops, c, log) && !c.corrupt
    ensures !c.closeOnEmpty
    ensures Step(c, Shutdown) != c <==> c.status == Connected && c.nodes == []
  {
    TraceInv(Fresh(), Log([], map[]), ops, c, log);
  }
}
