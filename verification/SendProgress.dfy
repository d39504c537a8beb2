/** When the pending bytes of a connection move, and when they do not. */
module SendProgress {
  import opened Options
  import opened SendPipeline
  import opened SendConservation
  import opened SendRuns

  // ---------------------------------------------------------------- one write callback

  /** Node `k` has bytes, and every node before it is one that the write callback removes. */
  predicate NextToSend(nodes: seq<Node>, k: nat) {
    k < |nodes| && nodes[k].data != [] && forall j :: 0 <= j < k ==> Poppable(nodes[j])
  }

  lemma {:induction false} OneByteMoves(c: Conn, k: nat)
    requires NextToSend(c.nodes, k) && !c.closeOnEmpty
    ensures |WriteLoop(c, [1]).sent| > |c.sent|
    decreases k
  {
    if k > 0 {
      OneByteMoves(c.(nodes := c.nodes[1..]), k - 1);
    } else {
      var c1 := WriteFront(c, 1);
      assert c1.sent == c.sent + c.nodes[0].data[..1] && [1][1..] == [];
      WriteLoopKeepsOpen(c1, []);
    }
  }

  lemma {:induction false} NothingMoves(c: Conn, results: seq<int>)
    requires forall k :: !NextToSend(c.nodes, k)
    ensures WriteLoop(c, results).sent == c.sent
    decreases |c.nodes|
  {
    if c.nodes != [] {
      assert !NextToSend(c.nodes, 0);
      if Poppable(c.nodes[0]) {
        forall k: nat ensures !NextToSend(c.nodes[1..], k) {
          assert !NextToSend(c.nodes, k + 1);
        }
        NothingMoves(c.(nodes := c.nodes[1..]), results);
      }
    }
  }

  /** In every reachable state: a writable socket can take pending bytes if and only if write
      events are enabled and the first bytes in the list stand behind removable nodes only. */
  lemma WritableSends(ops: seq<Op>, c: Conn, log: Log)
    requires Trace(Fresh(), Log([], map[]), ops, c, log) && !c.corrupt
    ensures (exists results :: Step(c, Writable(results)).sent != c.sent) <==>
            c.writing && exists k :: NextToSend(c.nodes, k)
  {
    TraceInv(Fresh(), Log([], map[]), ops, c, log);
    if c.writing {
      if k :| NextToSend(c.nodes, k) {
        OneByteMoves(c, k);
        assert Step(c, Writable([1])).sent != c.sent;
      } else {
        forall results ensures Step(c, Writable(results)).sent == c.sent {
          NothingMoves(c, results);
        }
      }
    }
  }

  // ---------------------------------------------------------------- write events

  /** The handled end of the stream whose node is at the front. */
  predicate ClosesFront(c: Conn, op: Op) {
    op.StreamClose? && Handled(op, c.status == Connected) && c.nodes != [] && c.nodes[0].stream == Some(op.id)
  }

  lemma MarkDoneKeeps(c: Conn, id: nat)
    ensures var c' := MarkDone(c, id);
            && c'.writing == c.writing && |c'.nodes| == |c.nodes|
            && (c.nodes != [] ==> c'.nodes[0].stream == c.nodes[0].stream)
  {
  }

  /** Nothing but the end of the stream at the front enables write events. */
  lemma WritingTurnsOn(c: Conn, op: Op)
    requires !c.writing
    ensures Step(c, op).writing <==> ClosesFront(c, op)
  {
    match op {
      case StreamSend(id, data, r, remote) => StreamSendGrows(c, id, data, r, remote);
      case AttachStream(id, r) => AttachGrows(c, id, r);
      case StreamClose(id, _) => MarkDoneKeeps(c.(closed := c.closed + {id}), id);
      case _ =>
    }
  }

  /** A write callback leaves write events enabled exactly when it leaves bytes at the front. */
  lemma {:induction false} StillWriting(c: Conn, results: seq<int>)
    requires c.writing && !c.closeOnEmpty
    ensures var c' := WriteLoop(c, results);
            c'.writing <==> c'.nodes != [] && c'.nodes[0].data != []
    decreases |results| + |c.nodes|, |c.nodes|
  {
    if c.nodes != [] {
      if Poppable(c.nodes[0]) {
        StillWriting(c.(nodes := c.nodes[1..]), results);
      } else if c.nodes[0].data != [] {
        var c1 := WriteFront(c, if results == [] then 0 else results[0]);
        if c1.nodes[0].data == [] {
          StillWriting(c1, results[1..]);
        }
      }
    }
  }

  ghost predicate AvoidsFrontClose(c: Conn, ops: seq<Op>)
    decreases |ops|
  {
    ops == [] || (!ClosesFront(c, ops[0]) && AvoidsFrontClose(Step(c, ops[0]), ops[1..]))
  }

  /** A short write does not ask for the socket to become writable. Until the stream at the front
      is closed, the write callback therefore does nothing at all, whatever is pending. */
  lemma {:induction false} PendingStalls(c: Conn, log: Log, ops: seq<Op>, c': Conn, log': Log, results: seq<int>)
    requires Trace(c, log, ops, c', log') && !c.writing && AvoidsFrontClose(c, ops)
    ensures !c'.writing && Step(c', Writable(results)) == c'
    decreases |ops|
  {
    if ops != [] {
      WritingTurnsOn(c, ops[0]);
      PendingStalls(Step(c, ops[0]), Record(log, ops[0], c.status == Connected, c.detached), ops[1..],
                    c', log', results);
    }
  }

  function Stalled(): Conn {
    Conn(Connected, [Fill(MemNode(), [2]), StreamNode(7).(done := true)], map[], {7},
         false, true, false, [1], 1, false, false)
  }

  lemma StalledPending()
    ensures Pending(Stalled().nodes) == [2]
  {
    JoinedCons(Queue(Stalled().nodes));
    assert Queue(Stalled().nodes)[1..] == [Segment(Some(7), [])];
    JoinedSnoc([], Segment(Some(7), []));
  }

  function BeforeStalled(): Conn {
    Stalled().(nodes := [Fill(MemNode(), [2]), StreamNode(7)], closed := {})
  }

  lemma StalledOpened()
    ensures Step(Step(Step(Fresh(), Establish), Send([1, 2], 1)), OpenStream(7)) == BeforeStalled()
  {
    var c2 := Step(Step(Fresh(), Establish), Send([1, 2], 1));
    assert [1, 2][1..] == [2] && [] + [1, 2][..1] == [1];
    assert c2.nodes == [Fill(MemNode(), [2])] && c2.sent == [1];
  }

  lemma StalledClosed()
    ensures StreamCloseStep(BeforeStalled(), 7, false) == Stalled()
  {
    assert IndexOf(BeforeStalled().nodes, 7) == 1;
    assert {} + {7} == {7};
    assert BeforeStalled().nodes[1 := StreamNode(7).(done := true)] == Stalled().nodes;
  }

  /** A byte stays pending although the socket is writable and a stream has been closed: the
      stream stood behind a message of which the socket had taken only one byte. */
  lemma ClosedBehindStalls()
    ensures exists log ::
              Trace(Fresh(), Log([], map[]),
                    [Establish, Send([1, 2], 1), OpenStream(7), StreamClose(7, false)], Stalled(), log)
    ensures Pending(Stalled().nodes) == [2]
    ensures forall results :: Step(Stalled(), Writable(results)) == Stalled()
  {
    StalledPending();
    StalledOpened();
    StalledClosed();
    var start, close, open, send := Log([], map[]), StreamClose(7, false), OpenStream(7), Send([1, 2], 1);
    var c1, log2 := Step(Fresh(), Establish), Record(start, send, true, map[]);
    var c2, log3 := Step(c1, send), Record(log2, open, true, map[]);
    TraceCons(BeforeStalled(), log3, close, [], Stalled(), log3);
    TraceCons(c2, log2, open, [close] + [], Stalled(), log3);
    TraceCons(c1, start, send, [open] + ([close] + []), Stalled(), log3);
    TraceCons(Fresh(), start, Establish, [send] + ([open] + ([close] + [])), Stalled(), log3);
    assert [Establish, send, open, close] == [Establish] + ([send] + ([open] + ([close] + [])));
  }

  // ---------------------------------------------------------------- draining

  /** The first stream in the list whose handle is still open. */
  function FirstOpen(nodes: seq<Node>): (k: nat)
    ensures k <= |nodes|
    ensures k < |nodes| ==> nodes[k].stream.Some? && !nodes[k].done
    ensures forall j :: 0 <= j < k ==> nodes[j].stream.None? || nodes[j].done
  {
    if nodes == [] then 0
    else if nodes[0].stream.Some? && !nodes[0].done then 0
    else 1 + FirstOpen(nodes[1..])
  }

  /** The list up to and including the first open stream. */
  function UpToOpen(nodes: seq<Node>): seq<Node> {
    nodes[..if FirstOpen(nodes) < |nodes| then FirstOpen(nodes) + 1 else |nodes|]
  }

  /** Every write takes all it is given. */
  predicate TakesAll(nodes: seq<Node>, results: seq<int>) {
    |results| >= |nodes| && forall i, j :: 0 <= i < |results| && 0 <= j < |nodes| ==> results[i] >= |nodes[j].data|
  }

  lemma PendingCons(nodes: seq<Node>, k: nat)
    requires 0 < k <= |nodes|
    ensures Pending(nodes[..k]) == nodes[0].data + Pending(nodes[1..][..k - 1])
  {
    JoinedCons(Queue(nodes[..k]));
    assert Queue(nodes[..k])[1..] == Queue(nodes[1..][..k - 1]);
  }

  lemma UpToOpenCons(nodes: seq<Node>)
    requires nodes != []
    ensures Pending(UpToOpen(nodes)) ==
            nodes[0].data + if FirstOpen(nodes) == 0 then [] else Pending(UpToOpen(nodes[1..]))
  {
    var n := |UpToOpen(nodes)|;
    PendingCons(nodes, n);
    assert FirstOpen(nodes) == 0 ==> Queue(nodes[1..][..0]) == [];
    assert FirstOpen(nodes) > 0 ==> nodes[1..][..n - 1] == UpToOpen(nodes[1..]);
  }

  /** What is left of the list when everything before place `k` has been sent and removed. */
  ghost predicate LeftFrom(nodes: seq<Node>, k: nat, left: seq<Node>)
    requires k <= |nodes|
  {
    if k == |nodes| then
      left == []
    else
      && left != [] && left[1..] == nodes[k + 1..]
      && left[0].stream == nodes[k].stream && left[0].done == nodes[k].done && left[0].data == []
  }

  lemma LeftFromTail(nodes: seq<Node>, k: nat, left: seq<Node>)
    requires 0 < k <= |nodes| && LeftFrom(nodes[1..], k - 1, left)
    ensures LeftFrom(nodes, k, left)
  {
    assert k < |nodes| ==> nodes[1..][k..] == nodes[k + 1..];
  }

  /** The front has no bytes, or the next write takes them all. */
  predicate FrontTaken(nodes: seq<Node>, results: seq<int>)
    requires nodes != []
  {
    nodes[0].data == [] || (results != [] && results[0] >= |nodes[0].data|)
  }

  function ResultsLeft(nodes: seq<Node>, results: seq<int>): seq<int>
    requires nodes != [] && FrontTaken(nodes, results)
  {
    if nodes[0].data == [] then results else results[1..]
  }

  function Spent(node: Node): (r: Node)
    ensures r.data == [] && r.stream == node.stream && r.done == node.done
  {
    if node.data == [] then node else Drain(node, |node.data|)
  }

  /** The front after the round of the loop that takes its bytes. */
  lemma FrontWritten(c: Conn, results: seq<int>) returns (c': Conn)
    requires c.nodes != [] && FrontTaken(c.nodes, results)
    ensures WriteLoop(c, results) == WriteLoop(c', ResultsLeft(c.nodes, results))
    ensures c'.sent == c.sent + c.nodes[0].data
    ensures c'.nodes == c.nodes[0 := Spent(c.nodes[0])]
    ensures c'.closeOnEmpty == c.closeOnEmpty
  {
    var front := c.nodes[0];
    c' := if front.data == [] then c else WriteFront(c, results[0]);
    assert front.data[..|front.data|] == front.data;
  }

  /** A front that is no open stream is removed with its bytes. */
  lemma FrontGoes(c: Conn, results: seq<int>) returns (c': Conn)
    requires c.nodes != [] && FrontTaken(c.nodes, results) && (c.nodes[0].stream.None? || c.nodes[0].done)
    ensures WriteLoop(c, results) == WriteLoop(c', ResultsLeft(c.nodes, results))
    ensures c'.nodes == c.nodes[1..] && c'.sent == c.sent + c.nodes[0].data && c'.closeOnEmpty == c.closeOnEmpty
  {
    var c1 := FrontWritten(c, results);
    c' := c1.(nodes := c.nodes[1..]);
    assert c1.nodes[1..] == c.nodes[1..];
  }

  /** At a front that is an open stream the callback ends. */
  lemma FrontStays(c: Conn, results: seq<int>)
    requires c.nodes != [] && FrontTaken(c.nodes, results) && c.nodes[0].stream.Some? && !c.nodes[0].done
    ensures var c', front := WriteLoop(c, results), c.nodes[0];
            && !c'.writing && c'.sent == c.sent + front.data
            && c'.nodes == c.nodes[0 := Spent(front)]
  {
    var c1 := FrontWritten(c, results);
    assert WriteLoop(c1, ResultsLeft(c.nodes, results)) == c1.(writing := false);
  }

  /** How many bytes a write callback gives to the socket, from the list and the results alone:
      whole nodes until a write falls short or an open stream has been emptied. */
  function Taking(nodes: seq<Node>, results: seq<int>): nat
    decreases |nodes|
  {
    if nodes == [] then
      0
    else if !FrontTaken(nodes, results) then
      Taken(if results == [] then 0 else results[0], |nodes[0].data|)
    else if nodes[0].stream.Some? && !nodes[0].done then
      |nodes[0].data|
    else
      |nodes[0].data| + Taking(nodes[1..], ResultsLeft(nodes, results))
  }

  lemma TakingCons(nodes: seq<Node>, results: seq<int>)
    requires nodes != [] && FrontTaken(nodes, results) && (nodes[0].stream.None? || nodes[0].done)
    ensures Taking(nodes, results) == |nodes[0].data| + Taking(nodes[1..], ResultsLeft(nodes, results))
  {
  }

  lemma FrontShort(c: Conn, results: seq<int>)
    requires c.nodes != [] && !FrontTaken(c.nodes, results)
    ensures WriteLoop(c, results) == WriteFront(c, if results == [] then 0 else results[0])
  {
  }

  lemma {:induction false} CallbackTakes(c: Conn, results: seq<int>)
    requires !c.closeOnEmpty
    ensures |WriteLoop(c, results).sent| == |c.sent| + Taking(c.nodes, results)
    decreases |c.nodes|
  {
    if c.nodes != [] {
      if !FrontTaken(c.nodes, results) {
        FrontShort(c, results);
      } else if c.nodes[0].stream.Some? && !c.nodes[0].done {
        FrontStays(c, results);
      } else {
        var c' := FrontGoes(c, results);
        CallbackTakes(c', ResultsLeft(c.nodes, results));
      }
    }
  }

  /** A write callback on a socket that takes everything sends all bytes up to and including
      those of the first open stream, removes what stands before it, and stops there. */
  lemma {:induction false} Drains(c: Conn, results: seq<int>)
    requires TakesAll(c.nodes, results) && !c.closeOnEmpty
    ensures var c', k := WriteLoop(c, results), FirstOpen(c.nodes);
            && !c'.writing && LeftFrom(c.nodes, k, c'.nodes)
            && c'.sent == c.sent + Pending(UpToOpen(c.nodes))
    decreases |c.nodes|
  {
    var k := FirstOpen(c.nodes);
    if c.nodes == [] {
      assert Queue([]) == [];
    } else {
      UpToOpenCons(c.nodes);
      if k == 0 {
        FrontStays(c, results);
      } else {
        var left := ResultsLeft(c.nodes, results);
        var c' := FrontGoes(c, results);
        Drains(c', left);
        LeftFromTail(c.nodes, k, WriteLoop(c', left).nodes);
        Assoc(c.sent, c.nodes[0].data, Pending(UpToOpen(c.nodes[1..])));
      }
    }
  }

  // ---------------------------------------------------------------- the half-close

  lemma WritingStep(c: Conn, op: Op)
    requires !c.closeOnEmpty && (c.writing ==> c.nodes != [])
    ensures Step(c, op).writing ==> Step(c, op).nodes != []
  {
    if !c.writing {
      WritingTurnsOn(c, op);
    } else {
      match op {
        case Writable(results) => StillWriting(c, results);
        case StreamSend(id, data, r, remote) => StreamSendNodes(c, id, data, r, remote);
        case StreamClose(id, _) => MarkDoneKeeps(c.(closed := c.closed + {id}), id);
        case _ =>
      }
    }
  }

  lemma AppendNodeNodes(c: Conn, id: nat, data: Bytes)
    ensures |AppendNode(c, id, data).nodes| == |c.nodes|
  {
  }

  lemma StreamSendNodes(c: Conn, id: nat, data: Bytes, r: int, remote: bool)
    ensures |StreamSendStep(c, id, data, r, remote).nodes| == |c.nodes|
  {
    AppendNodeNodes(c, id, data);
    AppendNodeNodes(WriteRaw(c, data, r), id, data[Taken(r, |data|)..]);
  }

  lemma {:induction false} WritingTrace(c: Conn, log: Log, ops: seq<Op>, c': Conn, log': Log)
    requires Inv(c, log) && Trace(c, log, ops, c', log') && !c'.corrupt && (c.writing ==> c.nodes != [])
    ensures c'.writing ==> c'.nodes != []
    decreases |ops|
  {
    if ops != [] {
      StepInv(c, log, ops[0]);
      WritingStep(c, ops[0]);
      var c1 := Step(c, ops[0]);
      if !c1.corrupt {
        WritingTrace(c1, Record(log, ops[0], c.status == Connected, c.detached), ops[1..], c', log');
      }
    }
  }

  /** With nothing in the list write events are off, so a shutdown that is not forgotten closes
      the socket's side at once. */
  lemma ShutdownHalfCloses(ops: seq<Op>, c: Conn, log: Log)
    requires Trace(Fresh(), Log([], map[]), ops, c, log) && !c.corrupt
    ensures Step(c, Shutdown).halfClosed <==> c.halfClosed || (c.status == Connected && c.nodes == [])
  {
    WritingTrace(Fresh(), Log([], map[]), ops, c, log);
  }

  /** Functors carry data of the `known` streams only. A thread looks at the status before it
      posts data, so a stream opened once the connection is not connected posts none. */
  predicate RemoteOnlyFor(known: set<nat>, ops: seq<Op>) {
    forall i :: 0 <= i < |ops| && ops[i].StreamSend? && ops[i].remote ==> ops[i].id in known
  }

  /** The streams opened so far. */
  function Known(c: Conn, log: Log): set<nat> {
    log.slot.Keys + c.detached.Keys
  }

  /** A stream that waits to be put into the list has been closed and holds no data. */
  predicate WaitingAreDone(c: Conn) {
    forall id :: id in c.detached ==> id in c.closed && c.detached[id].data == []
  }

  predicate NothingAway(detached: map<nat, Node>) {
    forall id :: id in detached ==> detached[id].data == []
  }

  predicate NothingListed(nodes: seq<Node>) {
    forall i :: 0 <= i < |nodes| ==> nodes[i].data == []
  }

  /** The connection is over and holds no bytes. */
  predicate Quiet(c: Conn) {
    && (c.status == Disconnecting || c.status == Disconnected) && !c.closeOnEmpty
    && NothingListed(c.nodes) && NothingAway(c.detached)
  }

  lemma {:induction false} QuietLoop(c: Conn, results: seq<int>)
    requires Quiet(c)
    ensures Quiet(WriteLoop(c, results)) && WriteLoop(c, results).sent == c.sent
    ensures WriteLoop(c, results).closed == c.closed
    decreases |c.nodes|
  {
    if c.nodes != [] && Poppable(c.nodes[0]) {
      QuietLoop(c.(nodes := c.nodes[1..]), results);
    }
  }

  lemma QuietMark(c: Conn, id: nat)
    requires Quiet(c)
    ensures Quiet(MarkDone(c, id)) && MarkDone(c, id).sent == c.sent && MarkDone(c, id).closed == c.closed
  {
    var i := IndexOf(c.nodes, id);
    if i < |c.nodes| {
      assert NothingListed(c.nodes[i := c.nodes[i].(done := true)]);
    } else if id in c.detached {
      assert NothingAway(c.detached[id := c.detached[id].(done := true)]);
    }
  }

  lemma QuietClose(c: Conn, id: nat, remote: bool)
    requires Quiet(c)
    ensures Quiet(StreamCloseStep(c, id, remote)) && StreamCloseStep(c, id, remote).sent == c.sent
    ensures c.closed <= StreamCloseStep(c, id, remote).closed
  {
    QuietMark(c.(closed := c.closed + {id}), id);
  }

  lemma QuietAttach(c: Conn, id: nat, r: int)
    requires Quiet(c)
    ensures Quiet(AttachStep(c, id, r)) && AttachStep(c, id, r).sent == c.sent
    ensures AttachStep(c, id, r).closed == c.closed
  {
  }

  lemma QuietStep(c: Conn, op: Op)
    requires Quiet(c) && (op.StreamSend? ==> !op.remote)
    ensures Quiet(Step(c, op)) && Step(c, op).sent == c.sent && c.closed <= Step(c, op).closed
  {
    match op {
      case Writable(results) => QuietLoop(c, results);
      case StreamClose(id, remote) => QuietClose(c, id, remote);
      case AttachStream(id, r) => QuietAttach(c, id, r);
      case _ =>
    }
  }

  lemma {:induction false} QuietTrace(c: Conn, log: Log, ops: seq<Op>, c': Conn, log': Log, known: set<nat>)
    requires Quiet(c) && known <= c.closed && Trace(c, log, ops, c', log') && RemoteOnlyFor(known, ops)
    ensures c'.sent == c.sent
    decreases |ops|
  {
    if ops != [] {
      var op := ops[0];
      QuietStep(c, op);
      QuietTrace(Step(c, op), Record(log, op, c.status == Connected, c.detached), ops[1..], c', log', known);
    }
  }

  /** A waiting node with data is written when it is put into the empty list. */
  lemma AttachWrites(c: Conn, id: nat, r: int)
    requires id in c.detached && c.nodes == []
    ensures var data := c.detached[id].data; AttachStep(c, id, r).sent == c.sent + data[..Taken(r, |data|)]
  {
    assert ([] + [c.detached[id]])[0] == c.detached[id];
  }

  lemma AttachSends(c: Conn, log: Log, id: nat) returns (ops: seq<Op>, c': Conn, log': Log)
    requires !c.corrupt && c.nodes == [] && id in c.detached && c.detached[id].data != []
    ensures Trace(c, log, ops, c', log') && RemoteOnlyFor({id}, ops) && c'.sent != c.sent
  {
    var attach := AttachStream(id, 1);
    c', log' := Step(c, attach), Record(log, attach, c.status == Connected, c.detached);
    ops := [attach] + [];
    TraceCons(c, log, attach, [], c', log');
    AttachWrites(c, id, 1);
    assert |c'.sent| == |c.sent| + 1;
  }

  /** An empty waiting node goes to the front, where the next data is written at once. */
  lemma AttachedEmpty(c: Conn, id: nat)
    requires c.nodes == [] && id in c.detached && c.detached[id].data == [] && c.detached[id].stream == Some(id)
    ensures AttachStep(c, id, 0) == c.(nodes := [c.detached[id]], detached := c.detached - {id})
    ensures AtEmptyFront(AttachStep(c, id, 0), id)
  {
    assert [] + [c.detached[id]] == [c.detached[id]];
  }

  function AttachAndSend(id: nat): seq<Op> {
    [AttachStream(id, 0), StreamSend(id, [9], 1, true)]
  }

  /** The functor that puts a stream into the list and one with its data: the byte is written,
      whatever the status is. */
  lemma OpenSends(c: Conn, log: Log, id: nat) returns (c': Conn, log': Log)
    requires !c.corrupt && c.nodes == [] && id !in c.closed
    requires id in c.detached && c.detached[id].data == [] && c.detached[id].stream == Some(id)
    ensures Trace(c, log, AttachAndSend(id), c', log') && c'.sent == c.sent + [9]
  {
    AttachedEmpty(c, id);
    var attach, send := AttachStream(id, 0), StreamSend(id, [9], 1, true);
    var c1, log1 := AttachStep(c, id, 0), Opened(log, id, []);
    FrontSendIs(c1, id, [9], 1);
    assert [9][..1] == [9];
    c', log' := Step(c1, send), Record(log1, send, c1.status == Connected, c1.detached);
    TraceCons(c1, log1, send, [], c', log');
    TraceCons(c, log, attach, [send] + [], c', log');
    assert AttachAndSend(id) == [attach] + ([send] + []);
  }

  lemma WaitingSends(c: Conn, log: Log, id: nat)
    requires Inv(c, log) && c.nodes == [] && id in c.detached && !(id in c.closed && c.detached[id].data == [])
    ensures exists ops, c', log' ::
              Trace(c, log, ops, c', log') && RemoteOnlyFor(Known(c, log), ops) && c'.sent != c.sent
  {
    if c.detached[id].data != [] {
      var ops, c', log' := AttachSends(c, log, id);
    } else {
      var c', log' := OpenSends(c, log, id);
      assert |c'.sent| == |c.sent| + 1;
      assert RemoteOnlyFor(Known(c, log), AttachAndSend(id));
    }
  }

  /** With an empty list every stream that has been in it is closed. */
  lemma ListedAreClosed(c: Conn, log: Log)
    requires Inv(c, log) && c.nodes == []
    ensures log.slot.Keys <= c.closed
  {
    forall id | id in log.slot ensures id in c.closed {
      assert IndexOf(c.nodes, id) == 0;
    }
  }

  /** After a shutdown has half-closed the socket, nothing is written to it any more if and only
      if every stream that waits to be put into the list is closed and empty: over all runs in
      which the functors with stream data belong to streams opened before. */
  lemma AfterHalfClose(ops: seq<Op>, c: Conn, log: Log)
    requires Trace(Fresh(), Log([], map[]), ops, c, log) && !c.corrupt && c.status == Connected && c.nodes == []
    ensures var c0 := Step(c, Shutdown);
            && c0.halfClosed
            && ((forall more, c', log' ::
                   Trace(c0, log, more, c', log') && RemoteOnlyFor(Known(c0, log), more) ==> c'.sent == c0.sent)
                <==> WaitingAreDone(c0))
  {
    TraceInv(Fresh(), Log([], map[]), ops, c, log);
    ShutdownHalfCloses(ops, c, log);
    StatusInv(c, log, Shutdown);
    var c0 := Step(c, Shutdown);
    if WaitingAreDone(c0) {
      ListedAreClosed(c0, log);
      forall more, c', log' | Trace(c0, log, more, c', log') && RemoteOnlyFor(Known(c0, log), more)
        ensures c'.sent == c0.sent
      {
        QuietTrace(c0, log, more, c', log', Known(c0, log));
      }
    } else {
      var id :| id in c0.detached && !(id in c0.closed && c0.detached[id].data == []);
      WaitingSends(c0, log, id);
    }
  }

  // ---------------------------------------------------------------- a byte too late

  /** Half-closed while a stream opened on another thread waits to be put into the list. */
  function ClosedTooEarly(): Conn {
    Conn(Disconnecting, [], map[1 := StreamNode(1)], {}, false, true, false, [], 0, true, false)
  }

  function BeforeClose(): Conn {
    ClosedTooEarly().(status := Connected, halfClosed := false)
  }

  lemma AwayOpened()
    ensures Step(Step(Fresh(), Establish), OpenStreamAway(1)) == BeforeClose()
  {
  }

  lemma EarlyShutdown()
    ensures Step(BeforeClose(), Shutdown) == ClosedTooEarly()
  {
  }

  function HalfCloseEarly(): seq<Op> {
    [Establish, OpenStreamAway(1), Shutdown]
  }

  lemma EarlyReached()
    ensures Trace(Fresh(), Log([], map[]), HalfCloseEarly(), ClosedTooEarly(), Log([], map[]))
  {
    AwayOpened();
    EarlyShutdown();
    var start, open := Log([], map[]), OpenStreamAway(1);
    TraceCons(BeforeClose(), start, Shutdown, [], ClosedTooEarly(), start);
    TraceCons(Step(Fresh(), Establish), start, open, [Shutdown] + [], ClosedTooEarly(), start);
    TraceCons(Fresh(), start, Establish, [open] + ([Shutdown] + []), ClosedTooEarly(), start);
    assert HalfCloseEarly() == [Establish] + ([open] + ([Shutdown] + []));
  }

  /** The other half is real. A thread opens a stream and sends on it while connected; the loop
      handles a shutdown before it runs the two functors, which then write to the socket. */
  lemma BytesAfterHalfClose()
    ensures Trace(Fresh(), Log([], map[]), HalfCloseEarly(), ClosedTooEarly(), Log([], map[]))
    ensures ClosedTooEarly().halfClosed && ClosedTooEarly().sent == []
    ensures exists c, log :: Trace(ClosedTooEarly(), Log([], map[]), AttachAndSend(1), c, log) && c.sent == [9]
  {
    EarlyReached();
    var c, log := OpenSends(ClosedTooEarly(), Log([], map[]), 1);
    assert [] + [9] == [9];
  }
}
