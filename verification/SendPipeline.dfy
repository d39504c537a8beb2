/**
  The outgoing bytes of one plaintext connection (xiaoNet/net/inner/TcpConnectionImpl.cpp): the
  list of memory nodes and async-stream nodes with their buffers, direct and partial writes to
  the socket, and the connection's status.
 */
module SendPipeline {
  import opened Options
  import opened BufferShape
  import B = MsgBuffers

  type Bytes = seq<B.Byte>

  /** `kBufferDefaultLength`, the capacity of a memory node's buffer. */
  const MEM_CAPACITY: nat := 2048

  // ---------------------------------------------------------------- nodes

  /** A MemBufferNode has no stream; an AsyncBufferNode belongs to one and is `done` once the
      stream has been closed. `data` is what was appended and not yet retrieved; `buf` are the
      indices of the MsgBuffer that holds it, which an AsyncBufferNode makes for its first chunk. */
  datatype Node = Node(stream: Option<nat>, data: Bytes, done: bool, buf: Option<Shape>)

  function MemNode(): Node {
    Node(None, [], false, Some(New(MEM_CAPACITY)))
  }

  function StreamNode(id: nat): Node {
    Node(Some(id), [], false, None)
  }

  /** The indices of the node's buffer point outside its vector. */
  predicate Broken(node: Node) {
    node.buf.Some? && !Fits(node.buf.value)
  }

  /** The node's buffer has a capacity below 8, so `retrieveAll` will break it. */
  predicate Small(node: Node) {
    node.buf.Some? && node.buf.value.cap < BUFFER_OFFSET
  }

  /** `append` of a node. What is appended to a broken buffer is written outside the vector, and
      the model keeps nothing of it. */
  function Fill(node: Node, data: Bytes): Node {
    if Broken(node) then
      node
    else
      var b := if node.buf.Some? then node.buf.value else New(|data|);
      node.(data := node.data + data, buf := Some(Appended(b, |data|)))
  }

  /** `retrieve` of a node. */
  function Drain(node: Node, n: nat): Node
    requires n <= |node.data|
  {
    node.(data := node.data[n..],
          buf := if node.buf.None? || Broken(node) then node.buf else Some(Retrieved(node.buf.value, n)))
  }

  // ---------------------------------------------------------------- the connection

  datatype Status = Disconnected | Connecting | Connected | Disconnecting

  /** `detached` are stream nodes created on another thread and not in the list yet; `closed`
      are the streams that have been closed; `sent` is what the socket has taken. `corrupt` says
      that a stream's bytes have been appended to a broken buffer, after which nothing is
      modelled any more. */
  datatype Conn = Conn(status: Status, nodes: seq<Node>, detached: map<nat, Node>, closed: set<nat>,
                       writing: bool, reading: bool, closeOnEmpty: bool,
                       sent: Bytes, bytesSent: nat, halfClosed: bool, corrupt: bool)

  /** What the loop does with the connection. `socket` is what the next `write` returns. `remote`
      marks the functor of a stream that is used on another thread: the status was looked at
      when it was posted and is not looked at again. */
  datatype Op =
    | Establish
    | Send(data: Bytes, socket: int)
    | OpenStream(id: nat)
    | OpenStreamAway(id: nat)
    | AttachStream(id: nat, socket: int)
    | StreamSend(id: nat, data: Bytes, socket: int, remote: bool)
    | StreamClose(id: nat, remote: bool)
    | Writable(results: seq<int>)
    | Shutdown
    | ForceClose

  function Fresh(): Conn {
    Conn(Connecting, [], map[], {}, false, false, false, [], 0, false, false)
  }

  // ---------------------------------------------------------------- what the code does

  /** How much of `len` bytes a `write` that returns `r` has taken: errors count as nothing. */
  function Taken(r: int, len: nat): (n: nat)
    ensures n <= len
  {
    if r < 0 then 0 else if r > len then len else r
  }

  /** `writeRaw`: after a short write it enables reading, not writing. */
  function WriteRaw(c: Conn, data: Bytes, r: int): Conn {
    var n := Taken(r, |data|);
    c.(sent := c.sent + data[..n], bytesSent := c.bytesSent + n,
       reading := c.reading || (n < |data| && !c.writing))
  }

  /** The list after `append` to its back node, behind a new memory node if there is none. */
  function AppendBack(nodes: seq<Node>, data: Bytes): seq<Node> {
    if nodes == [] || nodes[|nodes| - 1].stream.Some? then
      nodes + [Fill(MemNode(), data)]
    else
      var k := |nodes| - 1;
      nodes[k := Fill(nodes[k], data)]
  }

  function SendStep(c: Conn, data: Bytes, r: int): Conn {
    if c.status != Connected then
      c
    else
      var direct := !c.writing && c.nodes == [];
      var c1 := if direct then WriteRaw(c, data, r) else c;
      var rest := if direct then data[Taken(r, |data|)..] else data;
      if |rest| > 0 then c1.(nodes := AppendBack(c1.nodes, rest)) else c1
  }

  function IndexOf(nodes: seq<Node>, id: nat): (i: nat)
    ensures i <= |nodes|
    ensures i < |nodes| ==> nodes[i].stream == Some(id)
    ensures forall j :: 0 <= j < i ==> nodes[j].stream != Some(id)
  {
    if nodes == [] then 0 else if nodes[0].stream == Some(id) then 0 else 1 + IndexOf(nodes[1..], id)
  }

  function AppendNode(c: Conn, id: nat, data: Bytes): Conn {
    var i := IndexOf(c.nodes, id);
    if i < |c.nodes| then
      c.(nodes := c.nodes[i := Fill(c.nodes[i], data)], corrupt := c.corrupt || Broken(c.nodes[i]))
    else if id in c.detached then
      c.(detached := c.detached[id := Fill(c.detached[id], data)], corrupt := c.corrupt || Broken(c.detached[id]))
    else
      c
  }

  /** The front node belongs to the stream and is empty, so its data is written at once. */
  predicate AtEmptyFront(c: Conn, id: nat) {
    c.nodes != [] && c.nodes[0].stream == Some(id) && c.nodes[0].data == []
  }

  function StreamSendStep(c: Conn, id: nat, data: Bytes, r: int, remote: bool): Conn {
    if (!remote && c.status != Connected) || data == [] then
      c
    else if AtEmptyFront(c, id) then
      var n := Taken(r, |data|);
      var c1 := WriteRaw(c, data, r);
      if n < |data| then AppendNode(c1, id, data[n..]) else c1
    else
      AppendNode(c, id, data)
  }

  function MarkDone(c: Conn, id: nat): Conn {
    var i := IndexOf(c.nodes, id);
    if i < |c.nodes| then
      c.(nodes := c.nodes[i := c.nodes[i].(done := true)])
    else if id in c.detached then
      c.(detached := c.detached[id := c.detached[id].(done := true)])
    else
      c
  }

  function EnabledAtFront(c: Conn, id: nat): Conn {
    if c.nodes != [] && c.nodes[0].stream == Some(id) then c.(writing := true) else c
  }

  function StreamCloseStep(c: Conn, id: nat, remote: bool): Conn {
    var c0 := c.(closed := c.closed + {id});
    if !remote && c.status != Connected then
      c0
    else
      EnabledAtFront(MarkDone(c0, id), id)
  }

  /** `sendNodeInLoop` on the front of the list, for one `write`. */
  function WriteFront(c: Conn, r: int): Conn
    requires c.nodes != []
  {
    var front := c.nodes[0];
    var n := Taken(r, |front.data|);
    WriteRaw(c, front.data, r).(nodes := c.nodes[0 := Drain(front, n)])
  }

  /** The functor that puts a node made on another thread into the list. */
  function AttachStep(c: Conn, id: nat, r: int): Conn {
    if id !in c.detached then
      c
    else
      var node := c.detached[id];
      var c0 := c.(nodes := c.nodes + [node], detached := c.detached - {id});
      if c.nodes == [] && |node.data| > 0 then
        var c1 := WriteFront(c0, r);
        if c1.nodes[0].data == [] && node.done then c1.(nodes := []) else c1
      else
        c0
  }

  function ShutdownStep(c: Conn): Conn {
    if c.status != Connected || c.nodes != [] then
      c                      // with data left, `closeOnEmpty_ - true` changes nothing
    else
      c.(status := Disconnecting, halfClosed := c.halfClosed || !c.writing)
  }

  /** An empty node that `writeCallback` removes from the front: a memory node or a closed stream. */
  predicate Poppable(node: Node) {
    node.data == [] && (node.stream.None? || node.done)
  }

  /** The loop of `writeCallback`, one `write` per round that sends. */
  function WriteLoop(c: Conn, results: seq<int>): Conn
    decreases |results| + |c.nodes|, |c.nodes|
  {
    if c.nodes == [] then
      var c1 := c.(writing := false);
      if c.closeOnEmpty then ShutdownStep(c1) else c1
    else if Poppable(c.nodes[0]) then
      WriteLoop(c.(nodes := c.nodes[1..]), results)
    else if c.nodes[0].data == [] then
      c.(writing := false)
    else
      var c1 := WriteFront(c, if results == [] then 0 else results[0]);
      if c1.nodes[0].data != [] then c1 else WriteLoop(c1, results[1..])
  }

  function Step(c: Conn, op: Op): Conn {
    match op
    case Establish => if c.status == Connecting then c.(status := Connected, reading := true) else c
    case Send(data, r) => SendStep(c, data, r)
    case OpenStream(id) => c.(nodes := c.nodes + [StreamNode(id)])
    case OpenStreamAway(id) => c.(detached := c.detached[id := StreamNode(id)])
    case AttachStream(id, r) => AttachStep(c, id, r)
    case StreamSend(id, data, r, remote) => StreamSendStep(c, id, data, r, remote)
    case StreamClose(id, remote) => StreamCloseStep(c, id, remote)
    case Writable(results) => if c.writing then WriteLoop(c, results) else c
    case Shutdown => ShutdownStep(c)
    case ForceClose =>
      if c.status == Connected || c.status == Disconnecting
      then c.(status := Disconnected, writing := false, reading := false) else c
  }

  // ---------------------------------------------------------------- what was accepted

  /** A message, or all data of one stream. */
  datatype Segment = Segment(stream: Option<nat>, data: Bytes)

  /** The reference: one segment per accepted message and one per stream, in slot order. */
  datatype Log = Log(segments: seq<Segment>, slot: map<nat, nat>)

  function Joined(s: seq<Segment>): Bytes {
    if s == [] then [] else Joined(s[..|s| - 1]) + s[|s| - 1].data
  }

  /** What is in the list, as segments. */
  function Queue(nodes: seq<Node>): (q: seq<Segment>)
    ensures |q| == |nodes|
    ensures forall i :: 0 <= i < |nodes| ==> q[i] == Segment(nodes[i].stream, nodes[i].data)
  {
    seq(|nodes|, i requires 0 <= i < |nodes| => Segment(nodes[i].stream, nodes[i].data))
  }

  /** Bytes still in the list, front first. */
  function Pending(nodes: seq<Node>): Bytes {
    Joined(Queue(nodes))
  }

  function GrowAt(s: seq<Segment>, i: nat, d: Bytes): (r: seq<Segment>)
    requires i < |s|
    ensures |r| == |s| && forall j :: 0 <= j < |s| ==> r[j].stream == s[j].stream
  {
    s[i := s[i].(data := s[i].data + d)]
  }

  /** Data given to a stream counts as accepted if the code goes on to handle it. */
  predicate Handled(op: Op, connected: bool)
    requires op.StreamSend? || op.StreamClose?
  {
    op.remote || connected
  }

  /** The segments after `op`, given what the caller can see: whether the connection is
      connected, and what a detached stream has been given so far. */
  function Record(log: Log, op: Op, connected: bool, detached: map<nat, Node>): Log {
    match op
    case Send(data, _) => if connected then log.(segments := log.segments + [Segment(None, data)]) else log
    case OpenStream(id) => Log(log.segments + [Segment(Some(id), [])], log.slot[id := |log.segments|])
    case AttachStream(id, _) =>
      if id in detached then
        Log(log.segments + [Segment(Some(id), detached[id].data)], log.slot[id := |log.segments|])
      else log
    case StreamSend(id, data, _, _) =>
      if Handled(op, connected) && id in log.slot && log.slot[id] < |log.segments| then
        log.(segments := GrowAt(log.segments, log.slot[id], data))
      else log
    case _ => log
  }

  /** Stream ids are used once; a stream is not used after it was closed. */
  predicate Legal(c: Conn, log: Log, op: Op) {
    !c.corrupt &&
    match op
    case OpenStream(id) => id !in log.slot && id !in c.detached && id !in c.closed
    case OpenStreamAway(id) => id !in log.slot && id !in c.detached && id !in c.closed
    case AttachStream(id, _) => id in c.detached
    case StreamSend(id, _, _, _) => (id in log.slot || id in c.detached) && id !in c.closed
    case StreamClose(id, _) => (id in log.slot || id in c.detached) && id !in c.closed
    case _ => true
  }
}
