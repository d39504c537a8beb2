/** The end of a connection: how its status moves, and what is still written after a force-close. */
module SendClose {
  import opened Options
  import opened SendPipeline
  import opened SendConservation
  import opened SendRuns
  import opened SendProgress
  import opened SendBuffers

  // ---------------------------------------------------------------- the status

  predicate Up(c: Conn) {
    c.status == Connected || c.status == Disconnecting
  }

  /** The status moves on `Establish`, on a shutdown with an empty list, on a force-close, and on
      nothing else. */
  lemma StatusMoves(c: Conn, op: Op)
    requires !c.closeOnEmpty
    ensures Step(c, op).status ==
            if op.Establish? && c.status == Connecting then Connected
            else if op.Shutdown? && c.status == Connected && c.nodes == [] then Disconnecting
            else if op.ForceClose? && Up(c) then Disconnected
            else c.status
    ensures op.ForceClose? && Up(c) ==> !Step(c, op).writing && !Step(c, op).reading
  {
    match op {
      case Writable(results) => WriteLoopKeepsOpen(c, results);
      case Send(data, r) => DirectSendGrows(c, data, r);
      case StreamSend(id, data, r, remote) => StreamSendGrows(c, id, data, r, remote);
      case AttachStream(id, r) => AttachGrows(c, id, r);
      case _ =>
    }
  }

  ghost predicate EstablishedIn(ops: seq<Op>) {
    exists i :: 0 <= i < |ops| && ops[i].Establish?
  }

  /** The connection has been established and force-closed after that. */
  ghost predicate ForceClosedIn(ops: seq<Op>) {
    exists i, j :: 0 <= i < j < |ops| && ops[i].Establish? && ops[j].ForceClose?
  }

  lemma EstablishedNext(ops: seq<Op>, op: Op)
    ensures EstablishedIn(ops + [op]) <==> EstablishedIn(ops) || op.Establish?
  {
    var ops' := ops + [op];
    assert ops'[|ops|] == op;
    if i :| 0 <= i < |ops| && ops[i].Establish? {
      assert ops'[i].Establish?;
    }
  }

  lemma ForceClosedNext(ops: seq<Op>, op: Op)
    ensures ForceClosedIn(ops + [op]) <==> ForceClosedIn(ops) || (op.ForceClose? && EstablishedIn(ops))
  {
    var ops' := ops + [op];
    assert ops'[|ops|] == op;
    assert forall i :: 0 <= i < |ops| ==> ops'[i] == ops[i];
    if i, j :| 0 <= i < j < |ops| && ops[i].Establish? && ops[j].ForceClose? {
      assert ops'[i].Establish? && ops'[j].ForceClose?;
    }
    if op.ForceClose? && EstablishedIn(ops) {
      var i :| 0 <= i < |ops| && ops[i].Establish?;
      assert ops'[i].Establish? && ops'[|ops|].ForceClose?;
    }
    if i, j :| 0 <= i < j < |ops'| && ops'[i].Establish? && ops'[j].ForceClose? {
      assert ops[i].Establish? && (j < |ops| ==> ops[j].ForceClose?);
    }
  }

  /** The status, from the operations so far. */
  ghost predicate StatusFits(c: Conn, ops: seq<Op>) {
    && (c.status == Connecting <==> !EstablishedIn(ops))
    && (c.status == Disconnected <==> ForceClosedIn(ops))
    && (c.status == Connected ==> !c.halfClosed) && (c.status == Disconnecting ==> c.halfClosed)
    && (c.status == Connecting ==> !c.halfClosed)
  }

  lemma StatusFitsNext(c: Conn, log: Log, ops: seq<Op>, op: Op)
    requires Inv(c, log) && StatusFits(c, ops) && (c.writing ==> c.nodes != [])
    ensures StatusFits(Step(c, op), ops + [op])
  {
    StatusMoves(c, op);
    EstablishedNext(ops, op);
    ForceClosedNext(ops, op);
    assert ForceClosedIn(ops) ==> EstablishedIn(ops);
    if !op.Shutdown? {
      HalfClosedKept(c, op);
    }
  }

  lemma DataKeepsHalf(c: Conn, id: nat, data: Bytes, r: int, remote: bool)
    ensures StreamSendStep(c, id, data, r, remote).halfClosed == c.halfClosed
  {
    assert AppendNode(c, id, data).halfClosed == c.halfClosed;
    assert AppendNode(WriteRaw(c, data, r), id, data[Taken(r, |data|)..]).halfClosed == c.halfClosed;
  }

  lemma HalfClosedKept(c: Conn, op: Op)
    requires !c.closeOnEmpty && !op.Shutdown?
    ensures Step(c, op).halfClosed == c.halfClosed
  {
    match op {
      case Writable(results) => WriteLoopKeepsOpen(c, results);
      case StreamSend(id, data, r, remote) => DataKeepsHalf(c, id, data, r, remote);
      case _ =>
    }
  }

  /** No operation is modelled on a connection with an append to a broken buffer. */
  lemma NotCorruptBefore(c: Conn, log: Log, ops: seq<Op>, c': Conn, log': Log)
    requires Trace(c, log, ops, c', log') && !c'.corrupt
    ensures !c.corrupt
  {
  }

  lemma Regrouped(done: seq<Op>, ops: seq<Op>)
    requires ops != []
    ensures done + [ops[0]] + ops[1..] == done + ops
  {
  }

  lemma {:induction false} StatusFitsRun(done: seq<Op>, c: Conn, log: Log, ops: seq<Op>, c': Conn, log': Log,
                                         all: seq<Op>)
    requires Inv(c, log) && Trace(c, log, ops, c', log') && !c'.corrupt && all == done + ops
    requires StatusFits(c, done) && (c.writing ==> c.nodes != [])
    ensures StatusFits(c', all)
    decreases |ops|
  {
    if ops == [] {
      assert all == done;
    } else {
      var op := ops[0];
      StepInv(c, log, op);
      WritingStep(c, op);
      StatusFitsNext(c, log, done, op);
      Regrouped(done, ops);
      var c1, log1 := Step(c, op), Record(log, op, c.status == Connected, c.detached);
      NotCorruptBefore(c1, log1, ops[1..], c', log');
      StatusFitsRun(done + [op], c1, log1, ops[1..], c', log', all);
    }
  }

  /** The status over whole runs: connecting until it has been established, disconnected if and
      only if it has been force-closed after that, and otherwise connected until a shutdown has
      half-closed it. */
  lemma StatusExactly(ops: seq<Op>, c: Conn, log: Log)
    requires Trace(Fresh(), Log([], map[]), ops, c, log) && !c.corrupt
    ensures c.status == Connecting <==> !EstablishedIn(ops)
    ensures c.status == Disconnected <==> ForceClosedIn(ops)
    ensures c.status == Connected <==> EstablishedIn(ops) && !ForceClosedIn(ops) && !c.halfClosed
  {
    assert [] + ops == ops;
    StatusFitsRun([], Fresh(), Log([], map[]), ops, c, log, ops);
  }

  // ---------------------------------------------------------------- what an operation writes

  /** How many bytes the socket takes in `op`. */
  function SentBy(c: Conn, op: Op): nat {
    match op
    case Send(data, r) => if c.status == Connected && !c.writing && c.nodes == [] then Taken(r, |data|) else 0
    case StreamSend(id, data, r, _) =>
      if Handled(op, c.status == Connected) && AtEmptyFront(c, id) then Taken(r, |data|) else 0
    case _ => TakenFrom(c, op)
  }

  /** How many bytes `op` hands to the socket outside the write callback. */
  function HandedDirectly(c: Conn, op: Op): nat {
    match op
    case Send(data, _) => if c.status == Connected && c.nodes == [] then |data| else 0
    case StreamSend(id, data, _, _) =>
      if Handled(op, c.status == Connected) && AtEmptyFront(c, id) then |data| else 0
    case AttachStream(id, _) => if id in c.detached && c.nodes == [] then |c.detached[id].data| else 0
    case _ => 0
  }

  lemma AppendNodeSends(c: Conn, id: nat, data: Bytes)
    ensures AppendNode(c, id, data).sent == c.sent && AppendNode(c, id, data).reading == c.reading
  {
  }

  lemma FrontSends(c: Conn, id: nat, data: Bytes, r: int)
    requires AtEmptyFront(c, id) && data != []
    ensures var c', n := StreamSendStep(c, id, data, r, true), Taken(r, |data|);
            |c'.sent| == |c.sent| + n && c'.reading == (c.reading || (!c.writing && n < |data|))
  {
    AppendNodeSends(WriteRaw(c, data, r), id, data[Taken(r, |data|)..]);
  }

  lemma StreamSendSends(c: Conn, id: nat, data: Bytes, r: int, remote: bool)
    ensures var op := StreamSend(id, data, r, remote);
            && |Step(c, op).sent| == |c.sent| + SentBy(c, op)
            && Step(c, op).reading == (c.reading || (!c.writing && SentBy(c, op) < HandedDirectly(c, op)))
  {
    if (remote || c.status == Connected) && data != [] {
      if AtEmptyFront(c, id) {
        FrontSends(c, id, data, r);
      } else {
        AppendNodeSends(c, id, data);
      }
    }
  }

  lemma AttachSendsExactly(c: Conn, id: nat, r: int)
    ensures |AttachStep(c, id, r).sent| == |c.sent| + SentBy(c, AttachStream(id, r))
  {
    if id in c.detached && c.nodes == [] {
      AttachedIs(c, id, r);
    }
  }

  /** The bytes written by each operation: a message to an idle connected socket, handled data of
      the stream whose empty node is at the front, a node put into the empty list, and what an
      enabled write callback takes. Nothing else is written. */
  lemma SentExactly(c: Conn, op: Op)
    requires !c.closeOnEmpty
    ensures |Step(c, op).sent| == |c.sent| + SentBy(c, op)
  {
    match op {
      case Writable(results) => CallbackTakes(c, results);
      case StreamSend(id, data, r, remote) => StreamSendSends(c, id, data, r, remote);
      case AttachStream(id, r) => AttachSendsExactly(c, id, r);
      case _ =>
    }
  }

  /** Unless connected, messages, data sent on the loop's thread and shutdowns do nothing at all. */
  lemma NotConnectedIgnores(c: Conn, log: Log, op: Op)
    requires c.status != Connected && (op.Send? || op.Shutdown? || (op.StreamSend? && !op.remote))
    ensures Step(c, op) == c && Record(log, op, false, c.detached) == log
  {
  }

  // ---------------------------------------------------------------- read events

  lemma AttachReads(c: Conn, id: nat, r: int)
    ensures var op := AttachStream(id, r);
            Step(c, op).reading <==> c.reading || (!c.writing && SentBy(c, op) < HandedDirectly(c, op))
  {
    if id in c.detached && c.nodes == [] {
      assert [] + [c.detached[id]] == [c.detached[id]];
    }
  }

  lemma {:induction false} LoopReads(c: Conn, results: seq<int>)
    requires c.writing && !c.closeOnEmpty
    ensures WriteLoop(c, results).reading == c.reading
    decreases |results| + |c.nodes|, |c.nodes|
  {
    if c.nodes != [] {
      if Poppable(c.nodes[0]) {
        LoopReads(c.(nodes := c.nodes[1..]), results);
      } else if c.nodes[0].data != [] {
        var c1 := WriteFront(c, if results == [] then 0 else results[0]);
        if c1.nodes[0].data == [] {
          LoopReads(c1, results[1..]);
        }
      }
    }
  }

  /** Read events are enabled when the connection is established and by every write that falls short
      while write events are off; only a force-close disables them. */
  lemma ReadingExactly(c: Conn, op: Op)
    requires !c.closeOnEmpty
    ensures Step(c, op).reading <==>
            && !(op.ForceClose? && Up(c))
            && (c.reading || (op.Establish? && c.status == Connecting)
                || (!c.writing && SentBy(c, op) < HandedDirectly(c, op)))
  {
    match op {
      case Writable(results) => if c.writing { LoopReads(c, results); }
      case StreamSend(id, data, r, remote) => StreamSendSends(c, id, data, r, remote);
      case AttachStream(id, r) => AttachReads(c, id, r);
      case _ =>
    }
  }

  // ---------------------------------------------------------------- which nodes stay

  /** A node put into the empty list does not stay there if and only if it had bytes, the socket
      takes them all, and its stream is closed. */
  lemma AttachStays(c: Conn, id: nat, r: int)
    requires id in c.detached && c.nodes == []
    ensures var node := c.detached[id];
            AttachStep(c, id, r).nodes == [] <==> node.data != [] && r >= |node.data| && node.done
  {
    AttachedIs(c, id, r);
  }

  /** What is left of the list when everything before place `k` has been removed. */
  ghost predicate LeftAt(nodes: seq<Node>, k: nat, left: seq<Node>) {
    && k < |nodes| && left != [] && left[1..] == nodes[k + 1..]
    && left[0].stream == nodes[k].stream && left[0].done == nodes[k].done
  }

  lemma LeftAtTail(nodes: seq<Node>, k: nat, left: seq<Node>)
    requires nodes != [] && LeftAt(nodes[1..], k, left)
    ensures LeftAt(nodes, k + 1, left)
  {
    assert nodes[1..][k + 1..] == nodes[k + 2..];
  }

  predicate NoneOpen(nodes: seq<Node>) {
    forall i :: 0 <= i < |nodes| ==> nodes[i].stream.None? || nodes[i].done
  }

  /** A write callback removes nodes from the front only, each message and each closed stream that
      it empties, and no open stream: the list is empty afterwards, or begins with bytes or with an
      open stream. */
  lemma {:induction false} CallbackRemoves(c: Conn, results: seq<int>)
    requires !c.closeOnEmpty
    ensures var left := WriteLoop(c, results).nodes;
            if left == [] then NoneOpen(c.nodes)
            else !Poppable(left[0]) && exists k :: LeftAt(c.nodes, k, left)
    decreases |c.nodes|
  {
    if c.nodes != [] {
      if !FrontTaken(c.nodes, results) {
        FrontShort(c, results);
        assert LeftAt(c.nodes, 0, WriteLoop(c, results).nodes);
      } else if c.nodes[0].stream.Some? && !c.nodes[0].done {
        FrontStays(c, results);
        assert LeftAt(c.nodes, 0, WriteLoop(c, results).nodes);
      } else {
        var c' := FrontGoes(c, results);
        CallbackRemoves(c', ResultsLeft(c.nodes, results));
        var left := WriteLoop(c, results).nodes;
        if left != [] {
          var k: nat :| LeftAt(c.nodes[1..], k, left);
          LeftAtTail(c.nodes, k, left);
        }
      }
    }
  }

  // ---------------------------------------------------------------- after a force-close

  /** The front will never be written again: it is a memory node or its stream is closed, and
      write events are off. */
  predicate Stuck(c: Conn) {
    && c.status == Disconnected && !c.closeOnEmpty && !c.writing
    && c.nodes != [] && (c.nodes[0].stream.Some? ==> c.nodes[0].stream.value in c.closed)
  }

  lemma StuckData(c: Conn, log: Log, id: nat, data: Bytes, r: int, remote: bool)
    requires Stuck(c) && Legal(c, log, StreamSend(id, data, r, remote))
    ensures Stuck(StreamSendStep(c, id, data, r, remote))
    ensures StreamSendStep(c, id, data, r, remote).sent == c.sent
  {
    assert IndexOf(c.nodes, id) != 0;
  }

  lemma StuckClose(c: Conn, log: Log, id: nat, remote: bool)
    requires Stuck(c) && Legal(c, log, StreamClose(id, remote))
    ensures Stuck(StreamCloseStep(c, id, remote)) && StreamCloseStep(c, id, remote).sent == c.sent
  {
    assert IndexOf(c.nodes, id) != 0;
  }

  lemma StuckStep(c: Conn, log: Log, op: Op)
    requires Stuck(c) && Legal(c, log, op)
    ensures Stuck(Step(c, op)) && Step(c, op).sent == c.sent
  {
    match op {
      case StreamSend(id, data, r, remote) => StuckData(c, log, id, data, r, remote);
      case StreamClose(id, remote) => StuckClose(c, log, id, remote);
      case _ =>
    }
  }

  lemma {:induction false} StuckTrace(c: Conn, log: Log, ops: seq<Op>, c': Conn, log': Log)
    requires Stuck(c) && Trace(c, log, ops, c', log')
    ensures c'.sent == c.sent
    decreases |ops|
  {
    if ops != [] {
      StuckStep(c, log, ops[0]);
      StuckTrace(Step(c, ops[0]), Record(log, ops[0], c.status == Connected, c.detached), ops[1..], c', log');
    }
  }

  /** The functor with data for the open, empty stream at the front. */
  function SendAtFront(id: nat): seq<Op> {
    [StreamSend(id, [9], 1, true)]
  }

  lemma EmptyFrontSends(c: Conn, log: Log, id: nat)
    requires Inv(c, log) && AtEmptyFront(c, id) && id in log.slot && id !in c.closed
    ensures exists c', log' :: Trace(c, log, SendAtFront(id), c', log') && c'.sent == c.sent + [9]
  {
    var send := StreamSend(id, [9], 1, true);
    FrontSendIs(c, id, [9], 1);
    assert [9][..1] == [9];
    TraceCons(c, log, send, [], Step(c, send), Record(log, send, c.status == Connected, c.detached));
    assert SendAtFront(id) == [send] + [];
  }

  /** The functor that closes the stream at the front, and a write callback after it. */
  function CloseAtFront(id: nat): seq<Op> {
    [StreamClose(id, true), Writable([1])]
  }

  lemma FrontClosed(c: Conn, id: nat)
    requires c.nodes != [] && c.nodes[0].stream == Some(id) && !c.writing
    ensures var c1 := Step(c, StreamClose(id, true));
            c1.writing && c1.nodes != [] && c1.nodes[0].data == c.nodes[0].data
            && c1.sent == c.sent && c1.closeOnEmpty == c.closeOnEmpty && c1.corrupt == c.corrupt
  {
    assert IndexOf(c.nodes, id) == 0;
  }

  lemma FullFrontSends(c: Conn, log: Log, id: nat)
    requires Inv(c, log) && !c.writing && c.nodes != [] && c.nodes[0].stream == Some(id) && c.nodes[0].data != []
    requires id in log.slot && id !in c.closed
    ensures exists c', log' :: Trace(c, log, CloseAtFront(id), c', log') && |c'.sent| > |c.sent|
  {
    var close, write := StreamClose(id, true), Writable([1]);
    FrontClosed(c, id);
    var c1 := Step(c, close);
    OneByteMoves(c1, 0);
    TraceCons(c1, log, write, [], Step(c1, write), log);
    TraceCons(c, log, close, [write] + [], Step(c1, write), log);
    assert CloseAtFront(id) == [close] + ([write] + []);
  }

  lemma OpenFrontSends(c: Conn, log: Log, id: nat)
    requires Inv(c, log) && !c.writing && c.nodes != [] && c.nodes[0].stream == Some(id) && id !in c.closed
    ensures exists ops, c', log' ::
              Trace(c, log, ops, c', log') && RemoteOnlyFor(Known(c, log), ops) && c'.sent != c.sent
  {
    assert id in log.slot by {
      assert Aligned(c.sent, Queue(c.nodes), log, 0);
    }
    if c.nodes[0].data == [] {
      EmptyFrontSends(c, log, id);
      var c', log' :| Trace(c, log, SendAtFront(id), c', log') && c'.sent == c.sent + [9];
      assert |c'.sent| == |c.sent| + 1;
      assert RemoteOnlyFor(Known(c, log), SendAtFront(id));
    } else {
      FullFrontSends(c, log, id);
      var c', log' :| Trace(c, log, CloseAtFront(id), c', log') && |c'.sent| > |c.sent|;
      assert RemoteOnlyFor(Known(c, log), CloseAtFront(id));
    }
  }

  /** Nothing that is left can write: with a list, its front is a memory node or a closed stream;
      without one, every stream that waits to enter it is closed and empty. */
  predicate NothingToCome(c: Conn) {
    if c.nodes == [] then WaitingAreDone(c)
    else c.nodes[0].stream.Some? ==> c.nodes[0].stream.value in c.closed
  }

  lemma ForceClosedNow(c: Conn, log: Log)
    requires Inv(c, log) && Up(c)
    ensures var c0 := Step(c, ForceClose);
            Inv(c0, log) && c0.status == Disconnected && !c0.writing && c0.nodes == c.nodes && c0.sent == c.sent
  {
    StatusInv(c, log, ForceClose);
  }

  lemma NothingComes(c: Conn, log: Log, ops: seq<Op>, c': Conn, log': Log)
    requires Inv(c, log) && c.status == Disconnected && !c.writing && NothingToCome(c)
    requires Trace(c, log, ops, c', log') && RemoteOnlyFor(Known(c, log), ops)
    ensures c'.sent == c.sent
  {
    if c.nodes == [] {
      ListedAreClosed(c, log);
      QuietTrace(c, log, ops, c', log', Known(c, log));
    } else {
      StuckTrace(c, log, ops, c', log');
    }
  }

  lemma SomethingComes(c: Conn, log: Log)
    requires Inv(c, log) && !c.writing && !NothingToCome(c)
    ensures exists ops, c', log' ::
              Trace(c, log, ops, c', log') && RemoteOnlyFor(Known(c, log), ops) && c'.sent != c.sent
  {
    if c.nodes == [] {
      var id :| id in c.detached && !(id in c.closed && c.detached[id].data == []);
      WaitingSends(c, log, id);
    } else {
      OpenFrontSends(c, log, c.nodes[0].stream.value);
    }
  }

  /** After a force-close of a connection that is up, nothing is written any more, over all runs in
      which the functors with stream data belong to streams opened before, if and only if a message
      or a closed stream stands at the front, or the list is empty and every stream that waits to
      enter it is closed and empty. */
  lemma AfterForceClose(ops: seq<Op>, c: Conn, log: Log)
    requires Trace(Fresh(), Log([], map[]), ops, c, log) && !c.corrupt && Up(c)
    ensures var c0 := Step(c, ForceClose);
            (forall more, c', log' ::
               Trace(c0, log, more, c', log') && RemoteOnlyFor(Known(c0, log), more) ==> c'.sent == c0.sent)
            <==> NothingToCome(c0)
  {
    TraceInv(Fresh(), Log([], map[]), ops, c, log);
    ForceClosedNow(c, log);
    var c0 := Step(c, ForceClose);
    if NothingToCome(c0) {
      forall more, c', log' | Trace(c0, log, more, c', log') && RemoteOnlyFor(Known(c0, log), more)
        ensures c'.sent == c0.sent
      {
        NothingComes(c0, log, more, c', log');
      }
    } else {
      SomethingComes(c0, log);
    }
  }

  /** After a force-close the connection is never connected again: messages, data sent on the loop's
      thread and shutdowns do nothing and are not accepted, and until a functor closes the stream at
      the front, write callbacks do nothing. */
  lemma ForceCloseIsFinal(ops: seq<Op>, c: Conn, log: Log, more: seq<Op>, c': Conn, log': Log, op: Op)
    requires Trace(Fresh(), Log([], map[]), ops, c, log) && Up(c)
    requires Trace(Step(c, ForceClose), log, more, c', log') && !c'.corrupt
    ensures c'.status == Disconnected
    ensures op.Send? || op.Shutdown? || (op.StreamSend? && !op.remote) ==>
              Step(c', op) == c' && Record(log', op, false, c'.detached) == log'
    ensures AvoidsFrontClose(Step(c, ForceClose), more) && op.Writable? ==> Step(c', op) == c'
  {
    NotCorruptBefore(Step(c, ForceClose), log, more, c', log');
    TraceInv(Fresh(), Log([], map[]), ops, c, log);
    ForceClosedNow(c, log);
    StaysDisconnected(Step(c, ForceClose), log, more, c', log');
    if op.Writable? && AvoidsFrontClose(Step(c, ForceClose), more) {
      PendingStalls(Step(c, ForceClose), log, more, c', log', op.results);
    }
  }

  lemma {:induction false} StaysDisconnected(c: Conn, log: Log, ops: seq<Op>, c': Conn, log': Log)
    requires Inv(c, log) && c.status == Disconnected && Trace(c, log, ops, c', log') && !c'.corrupt
    ensures c'.status == Disconnected
    decreases |ops|
  {
    if ops != [] {
      StepInv(c, log, ops[0]);
      StatusMoves(c, ops[0]);
      var c1, log1 := Step(c, ops[0]), Record(log, ops[0], c.status == Connected, c.detached);
      NotCorruptBefore(c1, log1, ops[1..], c', log');
      StaysDisconnected(c1, log1, ops[1..], c', log');
    }
  }
}
