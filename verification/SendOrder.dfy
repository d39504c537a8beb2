/**
  Sending from other threads: a message, a stream's data and its end are posted to the
  connection's loop as functors, the loop runs its functors one by one, and each functor sends on
  the loop's thread. This composes the lock-free queue, the event loop and the outgoing pipeline.
 */
module SendOrder {
  import opened Options
  import Q = MpscQueue
  import R = MpscRuns
  import E = EventLoop
  import F = Functors
  import P = SendPipeline
  import C = SendConservation
  import S = SendRuns

  /** What a functor does with the connection at hand; `Foreign` does something else. */
  datatype Task =
    | Message(data: P.Bytes)
    | Attach(id: nat)
    | Chunk(id: nat, data: P.Bytes)
    | Finish(id: nat)
    | Foreign

  /** `r` is what `write` returns. A stream's functors do not look at the status again. */
  function OpOf(task: Task, r: int): P.Op
    requires !task.Foreign?
  {
    match task
    case Message(data) => P.Send(data, r)
    case Attach(id) => P.AttachStream(id, r)
    case Chunk(id, data) => P.StreamSend(id, data, r, true)
    case Finish(id) => P.StreamClose(id, true)
  }

  /** The loop with its queue, the connection, and the history: how many functors have been run
      (`ran`), how many of those before the connection stopped being connected (`cut`), the
      messages that entered the outgoing stream with the thread that sent each, their places
      among the accepted segments, and the streams fed by the loop's own thread. */
  datatype System = System(loop: E.Loop<Task>, conn: P.Conn, log: P.Log, ran: nat, cut: nat,
                           accepted: seq<(nat, P.Bytes)>, at: seq<nat>, local: set<nat>)

  /** `Remote` is any step of any thread on the queue or the loop; when it is the end of a
      dequeue the functor runs. `Local` is anything the loop's thread itself does with the
      connection. */
  datatype Event =
    | Remote(s: E.LoopStep<Task>, r: int)
    | Local(op: P.Op)

  function Begin(conn: P.Conn, log: P.Log): System {
    System(E.Begin(), conn, log, 0, 0, [], [], {})
  }

  predicate Can(y: System, e: Event) {
    !y.conn.corrupt &&
    match e
    case Remote(s, r) =>
      && E.CanStep(y.loop, s) && E.SafeStep(y.loop, s)
      && (F.Runs(s) ==>
            && F.Dequeued(y.loop.queue)
            && (!F.Posted(y.loop.queue).1.Foreign? ==> P.Legal(y.conn, y.log, OpOf(F.Posted(y.loop.queue).1, r))))
    case Local(op) => P.Legal(y.conn, y.log, op)
  }

  predicate Connected(y: System) {
    y.conn.status == P.Connected
  }

  function Perform(y: System, op: P.Op): System {
    y.(conn := P.Step(y.conn, op), log := P.Record(y.log, op, Connected(y), y.conn.detached))
  }

  /** A functor is called. */
  function Call(y: System, sender: nat, task: Task, r: int): System {
    var y1 := if task.Foreign? then y else Perform(y, OpOf(task, r));
    if !Connected(y) then
      y1.(ran := y.ran + 1)
    else if task.Message? then
      y1.(ran := y.ran + 1, cut := y.ran + 1, accepted := y.accepted + [(sender, task.data)],
          at := y.at + [|y.log.segments|])
    else
      y1.(ran := y.ran + 1, cut := y.ran + 1)
  }

  function Step(y: System, e: Event): System
    requires Can(y, e)
  {
    match e
    case Remote(s, r) =>
      var y1 := if F.Runs(s)
                then Call(y, F.Posted(y.loop.queue).0, F.Posted(y.loop.queue).1, r) else y;
      y1.(loop := E.Do(y.loop, s))
    case Local(op) =>
      Perform(y, op).(local := if op.StreamSend? then y.local + {op.id} else y.local)
  }

  // ---------------------------------------------------------------- what was posted

  function OfMessage(task: Task): seq<P.Bytes> {
    if task.Message? then [task.data] else []
  }

  /** The messages for this connection among posted functors. */
  function Mine(tasks: seq<Task>): seq<P.Bytes> {
    if tasks == [] then [] else Mine(tasks[..|tasks| - 1]) + OfMessage(tasks[|tasks| - 1])
  }

  /** The messages for this connection among posted functors, with their senders. */
  function Messages(posts: seq<(nat, Task)>): seq<(nat, P.Bytes)> {
    if posts == [] then
      []
    else
      var k := |posts| - 1;
      Messages(posts[..k]) + if posts[k].1.Message? then [(posts[k].0, posts[k].1.data)] else []
  }

  function OfChunk(task: Task, id: nat): P.Bytes {
    if task.Chunk? && task.id == id then task.data else []
  }

  /** The data for stream `id` among functors, joined. */
  function Data(tasks: seq<Task>, id: nat): P.Bytes {
    if tasks == [] then [] else Data(tasks[..|tasks| - 1], id) + OfChunk(tasks[|tasks| - 1], id)
  }

  function Tasks(posts: seq<(nat, Task)>): (t: seq<Task>)
    ensures |t| == |posts| && forall i :: 0 <= i < |posts| ==> t[i] == posts[i].1
  {
    seq(|posts|, i requires 0 <= i < |posts| => posts[i].1)
  }

  lemma MineAppend(a: seq<Task>, x: Task)
    ensures Mine(a + [x]) == Mine(a) + OfMessage(x)
  {
  }

  lemma {:induction false} MinePrefix(a: seq<Task>, b: seq<Task>)
    requires a <= b
    ensures Mine(a) <= Mine(b)
    decreases |b|
  {
    if |a| < |b| {
      MinePrefix(a, b[..|b| - 1]);
    } else {
      assert a == b;
    }
  }

  lemma DataAppend(a: seq<Task>, x: Task, id: nat)
    ensures Data(a + [x], id) == Data(a, id) + OfChunk(x, id)
  {
  }

  lemma {:induction false} DataPrefix(a: seq<Task>, b: seq<Task>, id: nat)
    requires a <= b
    ensures Data(a, id) <= Data(b, id)
    decreases |b|
  {
    if |a| < |b| {
      DataPrefix(a, b[..|b| - 1], id);
    } else {
      assert a == b;
    }
  }

  /** Picking one thread and picking this connection commute. */
  lemma {:induction false} MessagesBy(posts: seq<(nat, Task)>, p: nat)
    ensures R.By(Messages(posts), p) == Mine(R.By(posts, p))
  {
    if posts != [] {
      var k := |posts| - 1;
      MessagesBy(posts[..k], p);
      var x := posts[k];
      var m, b := Messages(posts[..k]), R.By(posts[..k], p);
      MineAppend(b, x.1);
      if x.1.Message? {
        R.ByAppend(m, (x.0, x.1.data), p);
      }
      assert Messages(posts) == if x.1.Message? then m + [(x.0, x.1.data)] else m;
      assert R.By(posts, p) == if x.0 == p then b + [x.1] else b;
    }
  }

  /** Thread `p` has posted all data for the stream. */
  ghost predicate FedOnlyBy(posts: seq<(nat, Task)>, id: nat, p: nat) {
    forall k :: 0 <= k < |posts| && posts[k].1.Chunk? && posts[k].1.id == id ==> posts[k].0 == p
  }

  lemma {:induction false} DataBy(posts: seq<(nat, Task)>, id: nat, p: nat)
    requires FedOnlyBy(posts, id, p)
    ensures Data(Tasks(posts), id) == Data(R.By(posts, p), id)
  {
    if posts != [] {
      var k := |posts| - 1;
      DataBy(posts[..k], id, p);
      assert Tasks(posts)[..k] == Tasks(posts[..k]);
      var b := R.By(posts[..k], p);
      DataAppend(b, posts[k].1, id);
      assert R.By(posts, p) == if posts[k].0 == p then b + [posts[k].1] else b;
    }
  }

  // ---------------------------------------------------------------- what every event keeps

  /** The accepted messages stand among the segments, in this order. */
  ghost predicate Placed(accepted: seq<(nat, P.Bytes)>, at: seq<nat>, segments: seq<P.Segment>) {
    && |at| == |accepted|
    && (forall k :: 0 <= k < |at| ==> at[k] < |segments| && segments[at[k]] == P.Segment(None, accepted[k].1))
    && (forall j, k :: 0 <= j < k < |at| ==> at[j] < at[k])
  }

  ghost predicate Counted(y: System, enqueued: seq<(nat, Task)>) {
    && y.cut <= y.ran <= |enqueued| && (Connected(y) ==> y.cut == y.ran)
    && y.conn.status != P.Connecting
    && y.accepted == Messages(enqueued[..y.cut])
  }

  /** From `conn` and `log` on: every stream that the loop's thread has not fed has been given
      the data of the functors run, and nothing else. */
  ghost predicate Fed(y: System, enqueued: seq<(nat, Task)>, conn: P.Conn, log: P.Log) {
    && y.ran <= |enqueued|
    && forall id :: id !in y.local ==>
         S.Given(y.conn.detached, y.log, id) ==
         S.Given(conn.detached, log, id) + Data(Tasks(enqueued[..y.ran]), id)
  }

  ghost predicate ConnOk(y: System) {
    S.Inv(y.conn, y.log) && Placed(y.accepted, y.at, y.log.segments)
  }

  ghost predicate Inv(y: System, conn: P.Conn, log: P.Log) {
    && F.QueueOk(y.loop.queue) && y.ran == Q.Low(y.loop.queue) && ConnOk(y)
    && Counted(y, y.loop.queue.enqueued) && Fed(y, y.loop.queue.enqueued, conn, log)
  }

  lemma SegmentsKept(c: P.Conn, log: P.Log, op: P.Op, k: nat)
    requires S.Inv(c, log) && k < |log.segments| && log.segments[k].stream.None?
    ensures var log' := P.Record(log, op, c.status == P.Connected, c.detached);
            k < |log'.segments| && log'.segments[k] == log.segments[k]
  {
  }

  lemma StaysUnconnected(c: P.Conn, op: P.Op)
    requires c.status != P.Connecting && !c.closeOnEmpty
    ensures P.Step(c, op).status != P.Connecting
    ensures c.status != P.Connected ==> P.Step(c, op).status != P.Connected
  {
    match op {
      case Writable(results) => S.WriteLoopKeepsOpen(c, results);
      case Send(data, r) => S.DirectSendGrows(c, data, r);
      case StreamSend(id, data, r, remote) => S.StreamSendGrows(c, id, data, r, remote);
      case AttachStream(id, r) => S.AttachGrows(c, id, r);
      case _ =>
    }
  }

  lemma PerformKeeps(y: System, op: P.Op)
    requires ConnOk(y) && P.Legal(y.conn, y.log, op) && !Perform(y, op).conn.corrupt
    ensures ConnOk(Perform(y, op))
  {
    S.StepInv(y.conn, y.log, op);
    forall k | 0 <= k < |y.at|
      ensures y.at[k] < |Perform(y, op).log.segments|
      ensures Perform(y, op).log.segments[y.at[k]] == P.Segment(None, y.accepted[k].1)
    {
      SegmentsKept(y.conn, y.log, op, y.at[k]);
    }
  }

  lemma PerformFeeds(y: System, op: P.Op, id: nat)
    requires ConnOk(y) && P.Legal(y.conn, y.log, op)
    ensures S.Given(Perform(y, op).conn.detached, Perform(y, op).log, id) ==
            S.Given(y.conn.detached, y.log, id) + S.GivenBy(op, Connected(y), id)
  {
    S.GivenGrows(y.conn, y.log, op, id);
  }

  lemma LocalKeeps(y: System, op: P.Op, conn: P.Conn, log: P.Log)
    requires Inv(y, conn, log) && Can(y, Local(op)) && !Step(y, Local(op)).conn.corrupt
    ensures Inv(Step(y, Local(op)), conn, log)
  {
    PerformKeeps(y, op);
    StaysUnconnected(y.conn, op);
    forall id | id !in Step(y, Local(op)).local
      ensures S.Given(Perform(y, op).conn.detached, Perform(y, op).log, id) == S.Given(y.conn.detached, y.log, id)
    {
      PerformFeeds(y, op, id);
    }
  }

  // ---------------------------------------------------------------- a functor runs

  lemma CallConn(y: System, sender: nat, task: Task, r: int)
    requires ConnOk(y) && (!task.Foreign? ==> P.Legal(y.conn, y.log, OpOf(task, r)))
    requires !Call(y, sender, task, r).conn.corrupt
    ensures ConnOk(Call(y, sender, task, r))
  {
    if !task.Foreign? {
      PerformKeeps(y, OpOf(task, r));
    }
  }

  lemma MessagesNext(posts: seq<(nat, Task)>, k: nat)
    requires k < |posts|
    ensures Messages(posts[..k + 1]) ==
            Messages(posts[..k]) + if posts[k].1.Message? then [(posts[k].0, posts[k].1.data)] else []
  {
    assert posts[..k + 1][..k] == posts[..k];
  }

  lemma CallCounted(y: System, posts: seq<(nat, Task)>, r: int)
    requires Counted(y, posts) && y.ran < |posts| && !y.conn.closeOnEmpty
    ensures Counted(Call(y, posts[y.ran].0, posts[y.ran].1, r), posts)
  {
    MessagesNext(posts, y.ran);
    if !posts[y.ran].1.Foreign? {
      StaysUnconnected(y.conn, OpOf(posts[y.ran].1, r));
    }
  }

  lemma CallFeeds(y: System, posts: seq<(nat, Task)>, r: int, conn: P.Conn, log: P.Log)
    requires ConnOk(y) && y.ran < |posts| && Fed(y, posts, conn, log)
    requires !posts[y.ran].1.Foreign? ==> P.Legal(y.conn, y.log, OpOf(posts[y.ran].1, r))
    ensures Fed(Call(y, posts[y.ran].0, posts[y.ran].1, r), posts, conn, log)
  {
    var task := posts[y.ran].1;
    var y' := Call(y, posts[y.ran].0, task, r);
    forall id | id !in y.local
      ensures S.Given(y'.conn.detached, y'.log, id) ==
              S.Given(conn.detached, log, id) + Data(Tasks(posts[..y.ran + 1]), id)
    {
      var before := Tasks(posts[..y.ran]);
      assert Tasks(posts[..y.ran + 1]) == before + [task];
      DataAppend(before, task, id);
      C.Assoc(S.Given(conn.detached, log, id), Data(before, id), OfChunk(task, id));
      CallGives(y, posts[y.ran].0, task, r, id);
    }
  }

  lemma CallGives(y: System, sender: nat, task: Task, r: int, id: nat)
    requires ConnOk(y) && (!task.Foreign? ==> P.Legal(y.conn, y.log, OpOf(task, r)))
    ensures var y' := Call(y, sender, task, r);
            S.Given(y'.conn.detached, y'.log, id) == S.Given(y.conn.detached, y.log, id) + OfChunk(task, id)
  {
    if !task.Foreign? {
      PerformFeeds(y, OpOf(task, r), id);
    }
  }

  lemma LaterPosts(y: System, posts: seq<(nat, Task)>, posts': seq<(nat, Task)>, conn: P.Conn, log: P.Log)
    requires Counted(y, posts) && Fed(y, posts, conn, log) && |posts| <= |posts'| && posts'[..|posts|] == posts
    ensures Counted(y, posts') && Fed(y, posts', conn, log)
  {
    assert posts'[..y.cut] == posts[..y.cut] && posts'[..y.ran] == posts[..y.ran];
  }

  lemma CallKeeps(y: System, s: E.LoopStep<Task>, r: int, conn: P.Conn, log: P.Log)
    requires Inv(y, conn, log) && Can(y, Remote(s, r)) && F.Runs(s) && !Step(y, Remote(s, r)).conn.corrupt
    ensures Inv(Step(y, Remote(s, r)), conn, log)
  {
    var posts := y.loop.queue.enqueued;
    F.QueueKeeps(y.loop, s);
    F.NextPosted(y.loop.queue);
    CallConn(y, posts[y.ran].0, posts[y.ran].1, r);
    CallCounted(y, posts, r);
    CallFeeds(y, posts, r, conn, log);
    var y1 := Call(y, posts[y.ran].0, posts[y.ran].1, r);
    LaterPosts(y1, posts, E.Do(y.loop, s).queue.enqueued, conn, log);
  }

  lemma QueueOnlyKeeps(y: System, s: E.LoopStep<Task>, r: int, conn: P.Conn, log: P.Log)
    requires Inv(y, conn, log) && Can(y, Remote(s, r)) && !F.Runs(s)
    ensures Inv(Step(y, Remote(s, r)), conn, log)
  {
    F.QueueKeeps(y.loop, s);
    LaterPosts(y, y.loop.queue.enqueued, E.Do(y.loop, s).queue.enqueued, conn, log);
  }

  lemma StepKeeps(y: System, e: Event, conn: P.Conn, log: P.Log)
    requires Inv(y, conn, log) && Can(y, e) && !Step(y, e).conn.corrupt
    ensures Inv(Step(y, e), conn, log)
  {
    match e {
      case Local(op) => LocalKeeps(y, op, conn, log);
      case Remote(s, r) =>
        if F.Runs(s) {
          CallKeeps(y, s, r, conn, log);
        } else {
          QueueOnlyKeeps(y, s, r, conn, log);
        }
    }
  }

  ghost predicate IsRun(y: System, events: seq<Event>, y': System)
    decreases |events|
  {
    if events == [] then y' == y else Can(y, events[0]) && IsRun(Step(y, events[0]), events[1..], y')
  }

  lemma {:induction false} RunKeeps(y: System, events: seq<Event>, y': System, conn: P.Conn, log: P.Log)
    requires Inv(y, conn, log) && IsRun(y, events, y') && !y'.conn.corrupt
    ensures Inv(y', conn, log)
    decreases |events|
  {
    if events != [] {
      var y1 := Step(y, events[0]);
      if !y1.conn.corrupt {
        StepKeeps(y, events[0], conn, log);
        RunKeeps(y1, events[1..], y', conn, log);
      }
    }
  }

  lemma BeginOk(conn: P.Conn, log: P.Log)
    requires S.Inv(conn, log) && conn.status == P.Connected
    ensures Inv(Begin(conn, log), conn, log)
  {
    Q.CreateInv<Task>();
    assert Tasks([]) == [];
  }

  // ---------------------------------------------------------------- whole runs

  /** From a connected connection on, whatever all threads do: the messages of one thread enter
      the outgoing stream in the order of its calls, without gaps, and stand in that order in
      what is accepted for the socket. While the connection stays connected, none that the loop
      has run is missing. */
  lemma CrossThreadOrder(conn: P.Conn, log: P.Log, events: seq<Event>, y: System, p: nat)
    requires S.Inv(conn, log) && conn.status == P.Connected
    requires IsRun(Begin(conn, log), events, y) && !y.conn.corrupt
    ensures R.By(y.accepted, p) <= Mine(R.By(y.loop.queue.calls, p))
    ensures Placed(y.accepted, y.at, y.log.segments)
    ensures P.Joined(y.log.segments) == y.conn.sent + P.Pending(y.conn.nodes)
    ensures Connected(y) ==> y.ran <= |y.loop.queue.enqueued| && y.accepted == Messages(y.loop.queue.enqueued[..y.ran])
  {
    BeginOk(conn, log);
    RunKeeps(Begin(conn, log), events, y, conn, log);
    var q := y.loop.queue;
    F.RunInCallOrder(q, y.cut, p);
    MessagesBy(q.enqueued[..y.cut], p);
    MinePrefix(R.By(q.enqueued[..y.cut], p), R.By(q.calls, p));
  }

  /** The data of a stream that one thread feeds enters the stream's slot in the order of the
      thread's calls, without gaps: it is the data of those functors of the thread that the loop
      has run, connected or not. */
  lemma StreamOrder(conn: P.Conn, log: P.Log, events: seq<Event>, y: System, p: nat, id: nat)
    requires S.Inv(conn, log) && conn.status == P.Connected && S.Given(conn.detached, log, id) == []
    requires IsRun(Begin(conn, log), events, y) && !y.conn.corrupt && id !in y.local
    requires FedOnlyBy(y.loop.queue.enqueued, id, p)
    ensures y.ran <= |y.loop.queue.enqueued|
    ensures S.Given(y.conn.detached, y.log, id) == Data(R.By(y.loop.queue.enqueued[..y.ran], p), id)
    ensures S.Given(y.conn.detached, y.log, id) <= Data(R.By(y.loop.queue.calls, p), id)
  {
    BeginOk(conn, log);
    RunKeeps(Begin(conn, log), events, y, conn, log);
    var q := y.loop.queue;
    DataBy(q.enqueued[..y.ran], id, p);
    F.RunInCallOrder(q, y.ran, p);
    DataPrefix(R.By(q.enqueued[..y.ran], p), R.By(q.calls, p), id);
  }
}
