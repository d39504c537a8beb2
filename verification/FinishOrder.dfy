/**
  The end of a stream that another thread has posted: it takes effect when the loop runs it, after
  all data that the thread posted before, and for good.
 */
module FinishOrder {
  import opened Options
  import Q = MpscQueue
  import R = MpscRuns
  import E = EventLoop
  import F = Functors
  import P = SendPipeline
  import C = SendConservation
  import S = SendRuns
  import D = StreamEnd
  import L = SendClose
  import opened SendOrder

  // ---------------------------------------------------------------- a run is a run of the connection

  /** What an event does with the connection. */
  function OpsOfEvent(y: System, e: Event): seq<P.Op>
    requires Can(y, e)
  {
    match e
    case Local(op) => [op]
    case Remote(s, r) =>
      if F.Runs(s) && !F.Posted(y.loop.queue).1.Foreign? then [OpOf(F.Posted(y.loop.queue).1, r)] else []
  }

  ghost function OpsOf(y: System, events: seq<Event>, y': System): seq<P.Op>
    requires IsRun(y, events, y')
    decreases |events|
  {
    if events == [] then [] else OpsOfEvent(y, events[0]) + OpsOf(Step(y, events[0]), events[1..], y')
  }

  lemma PerformTrace(y: System, op: P.Op)
    requires P.Legal(y.conn, y.log, op)
    ensures S.Trace(y.conn, y.log, [op], Perform(y, op).conn, Perform(y, op).log)
  {
    S.TraceCons(y.conn, y.log, op, [], Perform(y, op).conn, Perform(y, op).log);
    assert [op] + [] == [op];
  }

  lemma EventTrace(y: System, e: Event)
    requires Can(y, e)
    ensures S.Trace(y.conn, y.log, OpsOfEvent(y, e), Step(y, e).conn, Step(y, e).log)
  {
    match e {
      case Local(op) => PerformTrace(y, op);
      case Remote(s, r) =>
        if F.Runs(s) && !F.Posted(y.loop.queue).1.Foreign? {
          PerformTrace(y, OpOf(F.Posted(y.loop.queue).1, r));
        }
    }
  }

  /** Whatever the threads do, what happens to the connection is a run of its own operations: the
      functors in the order in which the loop runs them, among what the loop does itself. */
  lemma {:induction false} RunIsTrace(y: System, events: seq<Event>, y': System)
    requires IsRun(y, events, y')
    ensures S.Trace(y.conn, y.log, OpsOf(y, events, y'), y'.conn, y'.log)
    decreases |events|
  {
    if events != [] {
      var y1 := Step(y, events[0]);
      EventTrace(y, events[0]);
      RunIsTrace(y1, events[1..], y');
      S.TraceJoin(y.conn, y.log, OpsOfEvent(y, events[0]), y1.conn, y1.log,
                  OpsOf(y1, events[1..], y'), y'.conn, y'.log);
    }
  }

  /** How many bytes the socket takes while a functor runs, from what it carries and what `write` returns. */
  function TakenBy(conn: P.Conn, task: Task, r: int): nat {
    match task
    case Message(data) =>
      if conn.status == P.Connected && !conn.writing && conn.nodes == [] then P.Taken(r, |data|) else 0
    case Attach(id) => if id in conn.detached && conn.nodes == [] then P.Taken(r, |conn.detached[id].data|) else 0
    case Chunk(id, data) => if P.AtEmptyFront(conn, id) then P.Taken(r, |data|) else 0
    case Finish(_) => 0
    case Foreign => 0
  }

  /** Running a functor writes a message to an idle connected socket, data of the stream whose empty
      node is at the front, or the bytes of a stream put into the empty list; whatever else a thread
      or the loop does with its queue writes nothing. */
  lemma FunctorSends(y: System, s: E.LoopStep<Task>, r: int)
    requires Can(y, Remote(s, r)) && !y.conn.closeOnEmpty
    ensures |Step(y, Remote(s, r)).conn.sent| ==
            |y.conn.sent| + if F.Runs(s) then TakenBy(y.conn, F.Posted(y.loop.queue).1, r) else 0
  {
    if F.Runs(s) && !F.Posted(y.loop.queue).1.Foreign? {
      L.SentExactly(y.conn, OpOf(F.Posted(y.loop.queue).1, r));
    }
  }

  // ---------------------------------------------------------------- what the functors run have ended

  /** Every stream whose node has been put into the list has its slot; every stream whose end has been
      run is ended, and no data for it was run after the end. */
  ghost predicate Finished(conn: P.Conn, log: P.Log, posts: seq<(nat, Task)>, ran: nat) {
    && ran <= |posts|
    && (forall k :: 0 <= k < ran && posts[k].1.Attach? ==> posts[k].1.id in log.slot)
    && (forall k :: 0 <= k < ran && posts[k].1.Finish? ==> D.Ended(conn, posts[k].1.id))
    && (forall j, k :: 0 <= j < k < ran && posts[j].1.Finish? ==>
          !(posts[k].1.Chunk? && posts[k].1.id == posts[j].1.id))
  }

  lemma SlotsKept(log: P.Log, op: P.Op, connected: bool, detached: map<nat, P.Node>)
    ensures log.slot.Keys <= P.Record(log, op, connected, detached).slot.Keys
  {
  }

  lemma PerformFinished(y: System, op: P.Op, posts: seq<(nat, Task)>, ran: nat)
    requires S.Inv(y.conn, y.log) && P.Legal(y.conn, y.log, op) && Finished(y.conn, y.log, posts, ran)
    ensures Finished(Perform(y, op).conn, Perform(y, op).log, posts, ran)
  {
    forall k | 0 <= k < ran && posts[k].1.Finish? ensures D.Ended(Perform(y, op).conn, posts[k].1.id) {
      D.EndedStep(y.conn, y.log, op, posts[k].1.id);
    }
    SlotsKept(y.log, op, Connected(y), y.conn.detached);
  }

  /** The posted end of a stream, when it is run. */
  lemma FinishEnds(y: System, id: nat, r: int)
    requires S.Inv(y.conn, y.log) && P.Legal(y.conn, y.log, OpOf(Finish(id), r))
    ensures var y' := Perform(y, OpOf(Finish(id), r));
            D.Ended(y'.conn, id) && (y.conn.nodes != [] && y.conn.nodes[0].stream == Some(id) ==> y'.conn.writing)
  {
    D.CloseEnds(y.conn, y.log, id, true);
  }

  lemma CallFinished(y: System, posts: seq<(nat, Task)>, ran: nat, r: int)
    requires S.Inv(y.conn, y.log) && ran < |posts| && Finished(y.conn, y.log, posts, ran)
    requires !posts[ran].1.Foreign? ==> P.Legal(y.conn, y.log, OpOf(posts[ran].1, r))
    ensures var y' := Call(y, posts[ran].0, posts[ran].1, r); Finished(y'.conn, y'.log, posts, ran + 1)
  {
    var task := posts[ran].1;
    if !task.Foreign? {
      PerformFinished(y, OpOf(task, r), posts, ran);
      if task.Finish? {
        FinishEnds(y, task.id, r);
      }
    }
  }

  lemma LaterFinished(conn: P.Conn, log: P.Log, posts: seq<(nat, Task)>, posts': seq<(nat, Task)>, ran: nat)
    requires Finished(conn, log, posts, ran) && |posts| <= |posts'| && posts'[..|posts|] == posts
    ensures Finished(conn, log, posts', ran)
  {
    assert forall i :: 0 <= i < |posts| ==> posts'[i] == posts[i];
  }

  ghost predicate FinishedIn(y: System) {
    Finished(y.conn, y.log, y.loop.queue.enqueued, y.ran)
  }

  lemma FunctorFinished(y: System, s: E.LoopStep<Task>, r: int)
    requires F.QueueOk(y.loop.queue) && y.ran == Q.Low(y.loop.queue) && S.Inv(y.conn, y.log)
    requires Can(y, Remote(s, r)) && F.Runs(s) && FinishedIn(y) && y.ran < |y.loop.queue.enqueued|
    ensures var y' := Step(y, Remote(s, r)); Finished(y'.conn, y'.log, y.loop.queue.enqueued, y'.ran)
  {
    F.NextPosted(y.loop.queue);
    CallFinished(y, y.loop.queue.enqueued, y.ran, r);
  }

  lemma PostsKept(y: System, s: E.LoopStep<Task>, r: int, conn: P.Conn, log: P.Log)
    requires Inv(y, conn, log) && Can(y, Remote(s, r))
    ensures var posts, posts' := y.loop.queue.enqueued, Step(y, Remote(s, r)).loop.queue.enqueued;
            |posts| <= |posts'| && posts'[..|posts|] == posts
    ensures F.Runs(s) ==> y.ran < |y.loop.queue.enqueued|
  {
    F.QueueKeeps(y.loop, s);
    if F.Runs(s) {
      F.NextPosted(y.loop.queue);
    }
  }

  lemma RemoteFinished(y: System, s: E.LoopStep<Task>, r: int, conn: P.Conn, log: P.Log)
    requires Inv(y, conn, log) && Can(y, Remote(s, r)) && FinishedIn(y)
    ensures FinishedIn(Step(y, Remote(s, r)))
  {
    var y' := Step(y, Remote(s, r));
    PostsKept(y, s, r, conn, log);
    if F.Runs(s) {
      FunctorFinished(y, s, r);
    }
    LaterFinished(y'.conn, y'.log, y.loop.queue.enqueued, y'.loop.queue.enqueued, y'.ran);
  }

  lemma StepFinished(y: System, e: Event, conn: P.Conn, log: P.Log)
    requires Inv(y, conn, log) && Can(y, e) && FinishedIn(y)
    ensures FinishedIn(Step(y, e))
  {
    match e {
      case Local(op) => PerformFinished(y, op, y.loop.queue.enqueued, y.ran);
      case Remote(s, r) => RemoteFinished(y, s, r, conn, log);
    }
  }

  lemma {:induction false} RunFinished(y: System, events: seq<Event>, y': System, conn: P.Conn, log: P.Log)
    requires Inv(y, conn, log) && IsRun(y, events, y') && !y'.conn.corrupt && FinishedIn(y)
    ensures FinishedIn(y')
    decreases |events|
  {
    if events != [] {
      var y1 := Step(y, events[0]);
      StepFinished(y, events[0], conn, log);
      if !y1.conn.corrupt {
        StepKeeps(y, events[0], conn, log);
        RunFinished(y1, events[1..], y', conn, log);
      }
    }
  }

  // ---------------------------------------------------------------- whole runs

  /** Whatever all threads do: once the loop has run the functor that puts a stream into the list, the
      stream has its slot; once it has run the posted end of a stream, the stream is closed and its
      node, wherever it stands, is done, from then on. */
  lemma FinishLasts(conn: P.Conn, log: P.Log, events: seq<Event>, y: System, k: nat)
    requires S.Inv(conn, log) && conn.status == P.Connected
    requires IsRun(Begin(conn, log), events, y) && !y.conn.corrupt
    requires k < y.ran && k < |y.loop.queue.enqueued|
    ensures var task := y.loop.queue.enqueued[k].1;
            && (task.Attach? ==> task.id in y.log.slot)
            && (task.Finish? ==> D.Ended(y.conn, task.id))
  {
    BeginOk(conn, log);
    RunFinished(Begin(conn, log), events, y, conn, log);
  }

  /** No data among the functors from `j` on. */
  lemma {:induction false} NoDataFrom(tasks: seq<Task>, id: nat, j: nat)
    requires j <= |tasks| && forall k :: j <= k < |tasks| ==> OfChunk(tasks[k], id) == []
    ensures Data(tasks, id) == Data(tasks[..j], id)
    decreases |tasks|
  {
    if j < |tasks| {
      NoDataFrom(tasks[..|tasks| - 1], id, j);
      assert tasks[..|tasks| - 1][..j] == tasks[..j];
    } else {
      assert tasks[..j] == tasks;
    }
  }

  /** In a thread's own order too, no data was run after the end. */
  lemma NoDataAfterEnd(conn: P.Conn, log: P.Log, posts: seq<(nat, Task)>, ran: nat, p: nat, j: nat, id: nat)
    requires Finished(conn, log, posts, ran) && j < |R.By(posts[..ran], p)| && R.By(posts[..ran], p)[j] == Finish(id)
    ensures D.Ended(conn, id)
    ensures Data(R.By(posts[..ran], p), id) == Data(R.By(posts[..ran], p)[..j], id)
  {
    var mine := R.By(posts[..ran], p);
    var at := F.Place(posts[..ran], p, j);
    forall k | j <= k < |mine| ensures OfChunk(mine[k], id) == [] {
      if k > j {
        var a, b := F.Places(posts[..ran], p, j, k);
        assert posts[a].1 == mine[j] && posts[b].1 == mine[k];
      }
    }
    assert posts[at].1 == mine[j];
    NoDataFrom(mine, id, j);
  }

  /** A thread feeds a stream and ends it (its `j`-th functor). Once the loop has run the end, the
      stream has been given exactly the data that the thread posted before, in order; and when its
      node has left the list, the socket has taken all of it, behind everything accepted before. */
  lemma FinishAfterChunks(before: seq<P.Op>, conn: P.Conn, log: P.Log, events: seq<Event>, y: System,
                          p: nat, j: nat, id: nat)
    requires S.Trace(P.Fresh(), P.Log([], map[]), before, conn, log)
    requires conn.status == P.Connected && S.Given(conn.detached, log, id) == []
    requires IsRun(Begin(conn, log), events, y) && !y.conn.corrupt && id !in y.local
    requires FedOnlyBy(y.loop.queue.enqueued, id, p) && y.ran <= |y.loop.queue.enqueued|
    requires j < |R.By(y.loop.queue.enqueued[..y.ran], p)| && j < |R.By(y.loop.queue.calls, p)|
    requires R.By(y.loop.queue.calls, p)[j] == Finish(id)
    ensures var data := Data(R.By(y.loop.queue.calls, p)[..j], id);
            && D.Ended(y.conn, id) && S.Given(y.conn.detached, y.log, id) == data
            && (D.HasLeft(y.conn, y.log, id) ==>
                  && y.log.slot[id] < |y.log.segments|
                  && P.Joined(y.log.segments[..y.log.slot[id]]) + data <= y.conn.sent)
  {
    var q := y.loop.queue;
    RunIsTrace(Begin(conn, log), events, y);
    var ops := OpsOf(Begin(conn, log), events, y);
    BeginReached(before, conn, log, ops, y);
    BeginOk(conn, log);
    RunFinished(Begin(conn, log), events, y, conn, log);
    StreamOrder(conn, log, events, y, p, id);
    OwnPrefix(conn, log, events, y, p, j);
    NoDataAfterEnd(y.conn, y.log, q.enqueued, y.ran, p, j, id);
    if D.HasLeft(y.conn, y.log, id) {
      S.TraceJoin(P.Fresh(), P.Log([], map[]), before, conn, log, ops, y.conn, y.log);
      D.LeavesWhenSent(before + ops, y.conn, y.log, id);
    }
  }

  lemma BeginReached(before: seq<P.Op>, conn: P.Conn, log: P.Log, ops: seq<P.Op>, y: System)
    requires S.Trace(P.Fresh(), P.Log([], map[]), before, conn, log)
    requires S.Trace(conn, log, ops, y.conn, y.log) && !y.conn.corrupt
    ensures S.Inv(conn, log)
  {
    S.TraceInv(P.Fresh(), P.Log([], map[]), before, conn, log);
  }

  /** What the loop has run of a thread's functors comes first among its calls. */
  lemma OwnPrefix(conn: P.Conn, log: P.Log, events: seq<Event>, y: System, p: nat, j: nat)
    requires S.Inv(conn, log) && conn.status == P.Connected
    requires IsRun(Begin(conn, log), events, y) && !y.conn.corrupt && y.ran <= |y.loop.queue.enqueued|
    requires j < |R.By(y.loop.queue.enqueued[..y.ran], p)| && j < |R.By(y.loop.queue.calls, p)|
    ensures var ran := R.By(y.loop.queue.enqueued[..y.ran], p);
            ran[j] == R.By(y.loop.queue.calls, p)[j] && ran[..j] == R.By(y.loop.queue.calls, p)[..j]
  {
    BeginOk(conn, log);
    RunKeeps(Begin(conn, log), events, y, conn, log);
    F.RunInCallOrder(y.loop.queue, y.ran, p);
  }
}
