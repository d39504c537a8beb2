# A verified model of xiaoNet

xiaoNet is a reactor library: event loops over epoll, connections with outgoing queues, timers and a
timing wheel. This project models the algorithms under its I/O and proves what they promise.

| files | what they model |
|---|---|
| `WheelModel.dfy`, `WheelProof.dfy`, `WheelRuns.dfy`, `WheelObject.dfy`, `Arithmetic.dfy` | the hierarchical timing wheel: rows of buckets, entries wrapped in destructor callbacks, the cascade of one tick; proved to be one flat table of deadlines |
| `IdleKick.dfy`, `KickSwitch.dfy` | idle connections closed by the wheel, in seconds of the loop's clock; streams that suspend this |
| `MpscQueue.dfy`, `MpscRuns.dfy` | the lock-free queue as interleaved atomic steps of any number of producers and one consumer |
| `EventLoop.dfy`, `LoopRuns.dfy`, `Functors.dfy` | posting, quitting, wakeup, polling and draining over that queue; what the loop's state says about the steps before; the order in which functors run |
| `MsgBuffer.dfy`, `BufferShape.dfy`, `BufferRuns.dfy` | the byte buffer, as an object whose vector and indices change in place; its indices alone, as a value; any sequence of calls |
| `SendPipeline.dfy`, `SendConservation.dfy`, `SendRuns.dfy`, `TcpConnection.dfy` | the outgoing bytes of one plaintext connection, with the buffers of the listed nodes |
| `SendProgress.dfy`, `SendBuffers.dfy`, `SendClose.dfy`, `StreamEnd.dfy` | when pending bytes move and when they stall; when a node's buffer breaks; shutdown and force-close; the end of a stream |
| `SendOrder.dfy`, `FinishOrder.dfy` | messages, stream data and ends of streams from other threads: queue, loop and pipeline composed |
| `TimerModel.dfy`, `TimerProof.dfy`, `TimerRuns.dfy`, `TimerBatch.dfy`, `TimerQueue.dfy` | the timer queue, with callbacks that add and cancel timers during a batch |
| `TimerOrder.dfy` | timers added and cancelled from other threads: queue, loop and timers composed |
| `Utf8.dfy` | the wide-string codec |
| `Epoll.dfy`, `EpollRuns.dfy` | channel index, poller table and kernel set; the masks bit by bit |

Where the source works in place, a class with the source's fields does the same in the model, and each
of its methods is proved equal to a step function on values; the properties of whole runs are lemmas
about those step functions. Concurrency is a machine of atomic, sequentially consistent steps. Results
of system calls are parameters.

Seven places where the code does less than its surroundings suggest are stated exactly, for all inputs:

- The wheel that the constructor builds for a maximum timeout is exact for every delay up to it if and
  only if it has two rows or the maximum is below the bucket count (`WheelRuns.Capacity`).
- A short write enables reading instead of writing (TcpConnectionImpl.cpp line 730). Write events are
  enabled by the end of the stream at the front of the list and by nothing else
  (`SendProgress.WritingTurnsOn`), and a writable socket takes pending bytes if and only if they are
  enabled and the first bytes stand behind removable nodes only (`SendProgress.WritableSends`). Closing a
  stream further back leaves the bytes pending (`SendProgress.ClosedBehindStalls`); once enabled, a socket
  that takes everything gets all bytes up to the first open stream (`SendProgress.Drains`).
- A shutdown with bytes pending is forgotten (`SendRuns.ShutdownNotDeferred`). One that is not forgotten
  half-closes at once (`SendProgress.ShutdownHalfCloses`), and bytes may still be written afterwards,
  because the functors of a stream do not look at the status again. Functors may carry data of the streams
  opened by then, since a thread looks at the status before it posts any; nothing more is written, whatever
  they carry, if and only if every stream that still waits to be put into the list is closed and empty
  (`SendProgress.AfterHalfClose`, `SendProgress.BytesAfterHalfClose`).
- A force-close, too, can be followed by bytes: nothing more is written, over all continuations, if and
  only if a message or a closed stream stands at the front, or the list is empty and every stream that
  waits to enter it is closed and empty (`SendClose.AfterForceClose`).
- A `MsgBuffer` whose initial capacity is below 8 is shrunk under its own indices when it is emptied
  (`MsgBuffers.MsgBuffer.RetrieveAll`), and a stream's buffer is made for its first queued chunk
  (AsyncStreamBufferNode.cpp line 63). Over whole runs the buffers in the list stay intact if and only if
  the last byte of an open stream is never taken out of such a buffer (`SendBuffers.RunFits`), which holds
  when no stream queues a first chunk under 8 bytes (`SendBuffers.LargeChunksFit`). Two streams and three
  bytes are enough to break one and to append to it afterwards (`SendBuffers.SmallChunkCorrupts`); what is
  proved about the bytes of a connection is proved up to such an append.
- The idle close that a stream has suspended comes back at the end of any stream; a second suspension on
  top of the first turns it off for good (`KickSwitch.ResumesExactly`, `KickSwitch.ComesBack`).
- After `invalidateTimer` the timer is never called again if and only if its id has been given out and the
  timer is not still on its way into the queue (`TimerRuns.CancelWorksExactly`).

## Model

| member | source | states |
|---|---|---|
| WheelModel.LevelStep | xiaoNet/utils/TimingWheel.cpp:105-120 | the row above plus the slot captured in the callback is exactly the position asked for: nothing is lost in the division and the remainder |
| WheelProof.RotateKeeps | xiaoNet/utils/TimingWheel.cpp:45-55 | a rotating row keeps every pending deadline; an entry whose bucket is dropped lands one row down at the deadline it stood for |
| WheelProof.RotateAddsNothing | xiaoNet/utils/TimingWheel.cpp:45-55 | every deadline pending after a rotation was pending before it |
| WheelProof.UpperRows | xiaoNet/utils/TimingWheel.cpp:45-57 | the cascade through rows 1 and up neither loses nor gains a deadline and keeps the rows well formed |
| WheelProof.RowZero | xiaoNet/utils/TimingWheel.cpp:45-55 | row 0 drops exactly what is due on this tick |
| WheelProof.DueLater | xiaoNet/utils/TimingWheel.cpp:40-57 | between ticks nothing is overdue, and what is due next is exactly the front bucket of row 0 |
| WheelProof.TickPending | xiaoNet/utils/TimingWheel.cpp:40-57 | one tick removes exactly the deadlines that fall on it, through all rows |
| WheelProof.InsertFromPending | xiaoNet/utils/TimingWheel.cpp:95-121 | from any row up, wrapping and storing adds the deadline T + D, less the shortfall of the clamp |
| WheelProof.InsertPending | xiaoNet/utils/TimingWheel.cpp:89-122 | an insertion at tick T with delay D adds the one deadline T + D; a clamped one is early by exactly (top delay - N) * N^(W-1) |
| WheelRuns.UntilLater | xiaoNet/utils/TimingWheel.cpp:97-120 | no insertion is dropped at once and none is held longer than asked, clamped or not |
| WheelRuns.RefinesTick | xiaoNet/utils/TimingWheel.cpp:40-57 | a tick of the rows is a tick of the flat table |
| WheelRuns.RefinesAdd | xiaoNet/utils/TimingWheel.cpp:89-122 | an insertion into the rows is an update of the flat table with the later of two deadlines |
| WheelRuns.WheelRefinesFlat | xiaoNet/utils/TimingWheel.cpp:40-122 | over every run of insertions and ticks the rows are one table from entry to deadline |
| WheelRuns.HeldUntilLastDeadline | xiaoNet/utils/TimingWheel.cpp:40-122 | if its own insertions avoid the clamp, an entry is alive exactly while the largest T + D of them is ahead of the counter, whatever other entries do |
| WheelRuns.ReleaseTick | xiaoNet/utils/TimingWheel.cpp:40-57 | an entry dies on a tick if and only if that tick is its last deadline: neither early nor late |
| WheelRuns.ReleasedOnce | xiaoNet/utils/TimingWheel.h:38-51 | over a whole run an entry inserted again only while alive is released once, or not yet |
| WheelRuns.EnoughRows | xiaoNet/utils/TimingWheel.cpp:95-121 | a delay avoids the clamp at every counter if and only if it is at most R(W), where R(1) = N and R(W+1) = N * R(W) + 1 |
| WheelRuns.Capacity | xiaoNet/utils/TimingWheel.cpp:27-34 | with the row count of the constructor, all delays up to the maximum are exact at every counter if and only if W >= 2 or maxTickNum < N |
| WheelRuns.ServerGeometry | xiaoNet/net/TcpServer.cpp:122-128 | the geometry TcpServer picks never clamps its idle timeout |
| WheelObject.TimingWheel.constructor | xiaoNet/utils/TimingWheel.cpp:16-39 | the loop finds the least row count whose capacity covers the maximum; all rows are empty and of N buckets |
| WheelObject.TimingWheel.DestroyBucket | xiaoNet/utils/TimingWheel.h:44-47 | destroying a bucket runs each callback in it once, in any order, into buckets that exist |
| WheelObject.TimingWheel.RotateRow | xiaoNet/utils/TimingWheel.cpp:49-54 | the front bucket is swapped out, the row shifts, the bucket dies |
| WheelObject.TimingWheel.Turn | xiaoNet/utils/TimingWheel.cpp:40-57 | the tick loop, with its growing power of N, rotates exactly the rows that are due; the entries released are those whose last reference went away |
| WheelObject.TimingWheel.InsertEntry | xiaoNet/utils/TimingWheel.cpp:89-122 | the insertion loop leaves the rows of the insertion with D = delay + 1, which adds the one deadline T + D |
| WheelObject.TimingWheel.ClearRow | xiaoNet/utils/TimingWheel.cpp:64-67 | clearing a row above row 0 releases no entry and inserts only into rows not yet cleared |
| WheelObject.TimingWheel.Destroy | xiaoNet/utils/TimingWheel.cpp:60-69 | clearing from the top row down empties the wheel; every entry dies while row 0 is cleared, none before |
| IdleKick.StepIsWatchStep | xiaoNet/net/inner/TcpConnectionImpl.cpp:176-192 | ticks, activity and other connections' insertions act on this connection as on one deadline |
| IdleKick.StepInv | xiaoNet/net/inner/TcpConnectionImpl.cpp:176-192 | the last insertion is less than a second older than the last activity, although updates closer than a second are suppressed |
| IdleKick.IdleKickBound | xiaoNet/net/inner/TcpConnectionImpl.h:44-51 | a connection whose last activity is at a is closed later than a + idle - 1 for any tick spacing of a second or more, and by a + idle + 1 with ticks a second apart |
| IdleKick.UpdatesExactly | xiaoNet/net/inner/TcpConnectionImpl.cpp:176-192 | activity inserts the entry at times a second or more apart, and every activity is less than a second later than one of them; nothing else inserts it |
| IdleKick.ServerWheelExact | xiaoNet/net/TcpServer.cpp:122-128 | the server's wheel meets the bound's assumption |
| KickSwitch.ResumesExactly | xiaoNet/net/inner/TcpConnectionImpl.cpp:894-990 | after any suspensions, ends of streams and keepAlive calls the idle close is on, with its old timeout, if and only if a stream has ended since the last suspension, no suspension came on top of another, and no keepAlive outside one |
| KickSwitch.ComesBack | xiaoNet/net/inner/TcpConnectionImpl.cpp:979-990 | a later end of a stream can turn the idle close on again if and only if it was not lost in one of these two ways |
| MpscQueue.InvSafe | xiaoNet/utils/LockFreeQueue.h:47-84 | no step of a producer or of the consumer touches a deleted node or payload |
| MpscQueue.StepInv | xiaoNet/utils/LockFreeQueue.h:47-84 | every atomic step keeps the chain, the accounting of memory, and every control point consistent |
| MpscRuns.StepCalls | xiaoNet/utils/LockFreeQueue.h:47-61 | a producer's exchanges happen in the order of its calls |
| MpscRuns.NeverUnsafe | xiaoNet/utils/LockFreeQueue.h:47-84 | in reachable states memory never blocks a step that control allows |
| MpscRuns.Linearizable | xiaoNet/utils/LockFreeQueue.h:47-84 | the dequeued values are a prefix of the enqueued ones in head-exchange order, and first in, first out for each producer |
| MpscRuns.FailsOnlyWhenEmpty | xiaoNet/utils/LockFreeQueue.h:70-91 | dequeue fails exactly when nothing is left or the next producer has not linked; with no producer in between, exactly when nothing is left |
| MpscRuns.NothingRefersToFreed | xiaoNet/utils/LockFreeQueue.h:70-84 | the node deleted by dequeue is no producer's previous head and no producer's node, nor head, nor tail |
| MpscRuns.DeletedOnce | xiaoNet/utils/LockFreeQueue.h:79-83 | no node and no payload is deleted twice, and a deleted node is not live |
| MpscRuns.Dequeue | xiaoNet/utils/LockFreeQueue.h:70-84 | with no producer inside enqueue, dequeue yields the next value, or fails and changes nothing when none is left |
| MpscRuns.Destroy | xiaoNet/utils/LockFreeQueue.h:31-39 | after the destructor every node and every payload of the whole run has been deleted exactly once |
| EventLoop.QueuePart | xiaoNet/net/EventLoop.cpp:228-247 | every step of the loop and of posting threads is safe and keeps the queue consistent |
| EventLoop.DrainLeavesCovered | xiaoNet/net/EventLoop.cpp:297-313 | what the drain leaves behind belongs to a thread that has still to wake the loop |
| EventLoop.StepKeepsCovered | xiaoNet/net/EventLoop.cpp:183-200 | whenever the loop is stopped, checks its condition or polls, the queue is empty, the counter is set, or a thread is on its way to wakeup |
| EventLoop.NoLostWakeup | xiaoNet/net/EventLoop.cpp:228-247 | blocked in poll with the counter at zero, no functor is left or another thread will still call wakeup, although in-loop posts skip it |
| LoopRuns.RunsExactly | xiaoNet/net/EventLoop.cpp:137-201 | from the steps alone: the loop runs if and only if it has been started and no check of its condition has come after a request to quit made since the start |
| LoopRuns.RoundsExactly | xiaoNet/net/EventLoop.cpp:183-200 | the loop goes round in one order: condition, poll, the wakeup counter read if and only if poll reported it, events, functors until the queue is empty, condition again; each step is possible exactly there |
| LoopRuns.WakeupsCounted | xiaoNet/net/EventLoop.cpp:314-341 | the wakeup counter is the number of wakeups since it was last read |
| LoopRuns.OwingExactly | xiaoNet/net/EventLoop.cpp:228-247 | a thread has still to wake the loop if and only if it has posted and not called wakeup since; the loop's own thread only if it posted while the loop was not running |
| LoopRuns.QuitIsHeard | xiaoNet/net/EventLoop.cpp:137-146 | a loop that polls although it has been asked to quit since its start has a wakeup to read, or the thread that asked has still to wake it |
| MsgBuffers.FromToBytes | xiaoNet/utils/MsgBuffer.cpp:79-122 | an integer put into the buffer in network order is read back unchanged, for every width |
| MsgBuffers.ToFromBytes | xiaoNet/utils/MsgBuffer.cpp:111-122 | reading an integer loses no bytes: writing it again gives them back |
| MsgBuffers.NetworkOrder | xiaoNet/utils/MsgBuffer.cpp:74-88 | the byte at place i of a k-byte integer has the weight 256^(k-1-i): most significant first |
| MsgBuffers.MsgBuffer.constructor | xiaoNet/utils/MsgBuffer.cpp:26-29 | an empty buffer with an 8-byte gap; safe to empty again if and only if the capacity is at least 8 |
| MsgBuffers.MsgBuffer.EnsureWritableBytes | xiaoNet/utils/MsgBuffer.cpp:31-54 | room for len bytes, contents unchanged, no move to the right; recursion one level deep |
| MsgBuffers.MsgBuffer.AppendBuffer | xiaoNet/utils/MsgBuffer.cpp:62-67 | appends the other buffer's readable bytes, which may be its own |
| MsgBuffers.MsgBuffer.Append | xiaoNet/utils/MsgBuffer.cpp:68-73 | appends to the readable bytes |
| MsgBuffers.MsgBuffer.AddInFront | xiaoNet/utils/MsgBuffer.cpp:201-225 | prepends to the readable bytes through the gap, the shift or the new buffer |
| MsgBuffers.MsgBuffer.HasWritten | xiaoNet/utils/MsgBuffer.h:308-312 | bytes written behind the tail become readable |
| MsgBuffers.MsgBuffer.ReadFd | xiaoNet/utils/MsgBuffer.cpp:141-166 | a scatter read appends exactly what the kernel delivered, an error nothing |
| MsgBuffers.MsgBuffer.RetrieveAll | xiaoNet/utils/MsgBuffer.cpp:133-140 | empties the buffer; the indices stay inside the vector if and only if it is not shrunk below 8 bytes |
| MsgBuffers.MsgBuffer.Retrieve | xiaoNet/utils/MsgBuffer.cpp:124-132 | drops len readable bytes, or all of them |
| MsgBuffers.MsgBuffer.Read | xiaoNet/utils/MsgBuffer.cpp:168-175 | returns the first len readable bytes, or all, from any buffer, leaves the rest unless the buffer is emptied and shrunk below 8 bytes, and moves the indices as a retrieve |
| MsgBuffers.MsgBuffer.RetrieveUntil | xiaoNet/utils/MsgBuffer.h:277-282 | drops what stands before a position, with the exact condition under which the indices survive and where they are then |
| MsgBuffers.MsgBuffer.Unwrite | xiaoNet/utils/MsgBuffer.h:320-324 | drops bytes at the end |
| MsgBuffers.MsgBuffer.FindCrlf | xiaoNet/utils/MsgBuffer.h:289-293 | the first CR LF, or nothing exactly when there is none |
| MsgBuffers.MsgBuffer.ReadInt | xiaoNet/utils/MsgBuffer.cpp:188-199 | consumes k bytes of any buffer and moves the indices as a retrieve; an integer written in front of any rest comes out unchanged and leaves the rest |
| BufferRuns.RunAll | xiaoNet/utils/MsgBuffer.cpp:31-225 | with an initial capacity of at least 8, any sequence of append, addInFront, ensureWritableBytes, hasWritten, readFd, retrieve, retrieveAll, retrieveUntil, read, readInt and unwrite acts like the same calls on a plain sequence, returns the same bytes, and keeps head <= tail <= size |
| BufferRuns.Pipe | xiaoNet/utils/MsgBuffer.cpp:62-175 | over any such sequence that puts bytes behind and reads from the front, the bytes read followed by the bytes left are the bytes there before followed by the bytes put |
| SendConservation.BehindConserved | xiaoNet/net/inner/TcpConnectionImpl.cpp:390-399 | a queued message goes behind everything pending and everything accepted |
| SendConservation.GrowConserved | xiaoNet/net/inner/TcpConnectionImpl.cpp:942-969 | data of an open stream goes behind its own slot, in the queue as among the accepted bytes, even with later messages queued |
| SendConservation.CutConserved | xiaoNet/net/inner/TcpConnectionImpl.cpp:675-705 | a partial write moves bytes from the front of the queue to the socket |
| SendConservation.PopConserved | xiaoNet/net/inner/TcpConnectionImpl.cpp:206-220 | dropping an empty front node loses nothing |
| SendRuns.WriteRawSplits | xiaoNet/net/inner/TcpConnectionImpl.cpp:708-734 | what the socket takes and what it leaves are the data in order, an error takes nothing, bytesSent advances with the bytes; a short write never touches write events and enables reading if they are off |
| SendRuns.SentDirectly | xiaoNet/net/inner/TcpConnectionImpl.cpp:379-399 | a direct, possibly short write equals queueing the message and writing its front |
| SendRuns.WriteLoopInv | xiaoNet/net/inner/TcpConnectionImpl.cpp:193-238 | the write callback conserves the stream under any results of the writes |
| SendRuns.AttachInv | xiaoNet/net/inner/TcpConnectionImpl.cpp:912-938 | a stream opened on another thread keeps what it was given before it enters the list |
| SendRuns.StepInv | xiaoNet/net/inner/TcpConnectionImpl.cpp:193-243 | every operation keeps sent plus pending equal to accepted, in slot order, and the buffers holding the bytes, unless it appends to a broken buffer |
| SendRuns.StreamConserved | xiaoNet/net/inner/TcpConnectionImpl.cpp:367-416 | over whole runs without an append to a broken buffer, the bytes the socket took followed by the pending ones are the accepted ones, and bytesSent counts the former |
| SendRuns.GivenGrows | xiaoNet/net/inner/TcpConnectionImpl.cpp:912-969 | an operation adds to a stream, listed or still detached, exactly the data it is handed for that stream |
| SendRuns.HalfCloseOnlyWhenDrained | xiaoNet/net/inner/TcpConnectionImpl.cpp:317-349 | only shutdown half-closes, with an empty list and every accepted byte taken by the socket |
| SendRuns.SentOnlyGrows | xiaoNet/net/inner/TcpConnectionImpl.cpp:708-734 | what the socket took is never taken back |
| SendProgress.WritableSends | xiaoNet/net/inner/TcpConnectionImpl.cpp:193-243 | in every reachable state some write results let the write callback send a byte if and only if write events are enabled and the first bytes stand behind removable nodes only |
| SendProgress.WritingTurnsOn | xiaoNet/net/inner/TcpConnectionImpl.cpp:973-977 | write events are enabled exactly by the handled end of the stream at the front; a short write never enables them |
| SendProgress.StillWriting | xiaoNet/net/inner/TcpConnectionImpl.cpp:199-238 | a write callback leaves write events enabled exactly when it leaves bytes at the front |
| SendProgress.PendingStalls | xiaoNet/net/inner/TcpConnectionImpl.cpp:726-731 | from any state without write events, until a stream is closed at the front the write callback changes nothing, whatever is pending |
| SendProgress.ClosedBehindStalls | xiaoNet/net/inner/TcpConnectionImpl.cpp:973-977 | a run in which a stream is closed behind a half-sent message ends with a byte that no writable socket gets |
| SendProgress.Drains | xiaoNet/net/inner/TcpConnectionImpl.cpp:199-238 | on a socket that takes everything one callback sends all bytes up to and including those of the first open stream, removes what stood before it, and disables write events |
| SendProgress.CallbackTakes | xiaoNet/net/inner/TcpConnectionImpl.cpp:199-238 | a write callback gives the socket whole nodes until a write falls short or an open stream is emptied: the count, from the list and the results alone |
| BufferShape.FirstChunkDecides | xiaoNet/utils/MsgBuffer.cpp:124-140 | a buffer made for its first chunk stays inside its vector under any later appends and retrieves if and only if the chunk has 8 bytes or more, or the buffer is not emptied before it has once held more than the chunk |
| SendBuffers.BreaksExactly | xiaoNet/net/inner/AsyncStreamBufferNode.cpp:51-66 | from intact buffers, an operation breaks one that stays in the list if and only if, by the list and the socket's results, it takes the last byte of an open stream out of a buffer with a capacity below 8 |
| SendBuffers.CorruptsExactly | xiaoNet/net/inner/AsyncStreamBufferNode.cpp:59-66 | bytes are appended to a broken buffer exactly when handled stream data that the socket does not take at once meets a broken node |
| SendBuffers.SmallExactly | xiaoNet/net/inner/AsyncStreamBufferNode.cpp:59-66 | the first buffer with a capacity below 8 is made exactly by an operation that queues a first chunk below 8 bytes |
| SendBuffers.RunFits | xiaoNet/utils/MsgBuffer.cpp:133-140 | over whole runs all buffers in the list stay inside their vectors if and only if no operation takes the last byte of an open stream out of a small buffer; then nothing is appended to a broken one |
| SendBuffers.LargeChunksFit | xiaoNet/net/inner/AsyncStreamBufferNode.cpp:59-66 | runs in which no stream queues a first chunk below 8 bytes keep all buffers intact and every byte accounted for |
| SendBuffers.SmallChunkCorrupts | xiaoNet/net/inner/AsyncStreamBufferNode.cpp:59-66 | two streams in ordinary use, three bytes queued and sent, end in an append to a broken buffer |
| SendRuns.ShutdownNotDeferred | xiaoNet/net/inner/TcpConnectionImpl.cpp:337-342 | shutdown acts if and only if connected with an empty list; the deferring flag is never set |
| SendProgress.ShutdownHalfCloses | xiaoNet/net/inner/TcpConnectionImpl.cpp:317-349 | in every reachable state a shutdown half-closes if and only if the connection is connected with an empty list: write events are then off |
| SendProgress.AfterHalfClose | xiaoNet/net/inner/TcpConnectionImpl.cpp:912-970 | after a shutdown has half-closed, no continuation in which functors carry data of streams opened before writes another byte, if and only if every stream waiting to enter the list is closed and empty |
| SendProgress.BytesAfterHalfClose | xiaoNet/net/inner/TcpConnectionImpl.cpp:912-957 | a thread opens a stream and sends on it, the loop handles a shutdown first, and the two functors then write a byte to the half-closed socket |
| SendClose.StatusExactly | xiaoNet/net/inner/TcpConnectionImpl.cpp:244-361 | over whole runs: connecting until established, disconnected if and only if force-closed after that, otherwise connected until a shutdown has half-closed the socket |
| SendClose.SentExactly | xiaoNet/net/inner/TcpConnectionImpl.cpp:193-969 | the number of bytes that each operation writes: a message on an idle connected socket, handled data of the empty stream at the front, a node put into the empty list, an enabled write callback, and nothing else |
| SendClose.ReadingExactly | xiaoNet/net/inner/TcpConnectionImpl.cpp:726-731 | read events are enabled by the establishment and by every write that falls short while write events are off, and disabled by a force-close only |
| SendClose.CallbackRemoves | xiaoNet/net/inner/TcpConnectionImpl.cpp:199-220 | a write callback removes emptied messages and closed streams from the front, and no open stream; what is left is empty, or begins with bytes or an open stream |
| SendClose.AttachStays | xiaoNet/net/inner/TcpConnectionImpl.cpp:930-938 | a stream put into the empty list does not stay in it if and only if it is closed, had bytes, and the socket takes them all |
| SendClose.AfterForceClose | xiaoNet/net/inner/TcpConnectionImpl.cpp:351-365 | after a force-close no continuation in which functors carry data of streams opened before writes another byte, if and only if a message or a closed stream stands at the front, or the list is empty and every waiting stream is closed and empty |
| SendClose.ForceCloseIsFinal | xiaoNet/net/inner/TcpConnectionImpl.cpp:260-271 | after a force-close the connection is never connected again: messages, data sent in the loop and shutdowns do nothing and are not accepted, and write callbacks do nothing until a functor closes the stream at the front |
| StreamEnd.CloseEnds | xiaoNet/net/inner/TcpConnectionImpl.cpp:971-977 | the handled end of a stream marks its one node, in the list or not in it yet, and enables write events if the node is at the front |
| StreamEnd.EndedTrace | xiaoNet/net/inner/TcpConnectionImpl.cpp:971-977 | an ended stream stays ended under every continuation |
| StreamEnd.LeavesWhenSent | xiaoNet/net/inner/TcpConnectionImpl.cpp:199-220 | over whole runs a stream's node leaves the list only when the socket has taken all data ever given to the stream, behind everything accepted before it |
| TcpConnections.TcpConnection.SendInLoop | xiaoNet/net/inner/TcpConnectionImpl.cpp:367-416 | the accepted bytes grow by exactly this message if connected, by nothing if not, and stay equal to sent plus pending |
| TcpConnections.TcpConnection.SendAsyncStream | xiaoNet/net/inner/TcpConnectionImpl.cpp:894-909 | a stream opened in the loop takes the next slot |
| TcpConnections.TcpConnection.SendAsyncData | xiaoNet/net/inner/TcpConnectionImpl.cpp:865-871 | on the loop's thread, stream data is dropped unless connected and else handled as below |
| TcpConnections.TcpConnection.SendAsyncDataInLoop | xiaoNet/net/inner/TcpConnectionImpl.cpp:942-970 | whatever the status, stream data is written directly only from an empty front node, else appended to its node, and is accepted in the stream's slot |
| TcpConnections.TcpConnection.CloseAsyncStream | xiaoNet/net/inner/TcpConnectionImpl.cpp:865-871 | on the loop's thread, the end of a stream reaches its node only while connected |
| TcpConnections.TcpConnection.CloseAsyncStreamInLoop | xiaoNet/net/inner/TcpConnectionImpl.cpp:971-977 | whatever the status, marks the node done and enables writing if it is at the front |
| TcpConnections.TcpConnection.ShutdownInLoop | xiaoNet/net/inner/TcpConnectionImpl.cpp:317-349 | half-closes only when connected with an empty list and no write interest; sent plus pending stays equal to accepted |
| TcpConnections.TcpConnection.ForceCloseInLoop | xiaoNet/net/inner/TcpConnectionImpl.cpp:351-365 | disconnects for good (`SendClose.ForceCloseIsFinal`) and clears both interests, if up, and forgets nothing that was accepted |
| TcpConnections.TcpConnection.SendFront | xiaoNet/net/inner/TcpConnectionImpl.cpp:679-704 | writes the front node until the socket takes less than asked |
| TcpConnections.TcpConnection.WriteCallback | xiaoNet/net/inner/TcpConnectionImpl.cpp:193-243 | for any results of the writes the loop drains the list in order, stops at an open empty stream, and accepts nothing new: sent plus pending is what it was |
| SendOrder.MessagesBy | xiaoNet/net/inner/TcpConnectionImpl.cpp:444-460 | picking one thread's posts and picking this connection's messages commute |
| SendOrder.StepKeeps | xiaoNet/net/EventLoop.cpp:297-313 | running the functors one by one keeps the messages in the order of the head exchanges, whatever else the loop does |
| SendOrder.CrossThreadOrder | xiaoNet/net/inner/TcpConnectionImpl.cpp:417-537 | one thread's messages enter the outgoing stream in call order without gaps, whatever other threads post; none that was run is missing while connected |
| SendOrder.StreamOrder | xiaoNet/net/inner/TcpConnectionImpl.cpp:872-890 | the data of a stream that one thread feeds enters its slot in the order of the thread's calls without gaps, connected or not when the functors run |
| FinishOrder.RunIsTrace | xiaoNet/net/inner/TcpConnectionImpl.cpp:872-938 | whatever the threads do, what happens to the connection is a run of its own operations: the functors in the order in which the loop runs them, among what the loop does itself |
| FinishOrder.FunctorSends | xiaoNet/net/inner/TcpConnectionImpl.cpp:417-460 | the number of bytes written while a functor runs, from what it carries, the state and the result of write; no other step of the queue or the loop writes |
| FinishOrder.FinishEnds | xiaoNet/net/inner/TcpConnectionImpl.cpp:882-889 | when the posted end of a stream is run, the stream is closed and its node done, and write events are enabled if the node is at the front, connected or not |
| FinishOrder.FinishLasts | xiaoNet/net/inner/TcpConnectionImpl.cpp:872-938 | over all runs: a stream whose functor for the list has run has its slot, and one whose end has run stays ended |
| FinishOrder.FinishAfterChunks | xiaoNet/net/inner/TcpConnectionImpl.cpp:872-977 | once a thread's end of a stream has run, the stream has been given exactly the data that the thread posted before it, in order; when its node has left the list, the socket has taken all of it, behind everything accepted before |
| TimerModel.FiresOnTime | xiaoNet/net/inner/TimerQueue.cpp:36-49 | the timerfd fires at the deadline, early by less than a microsecond, or 100 microseconds after arming; its fields are in range |
| TimerProof.ReenterIs | xiaoNet/net/inner/TimerQueue.cpp:220-239 | the loop of reset puts back exactly the live repeating timers and retires exactly the one-shots |
| TimerProof.StepKeeps | xiaoNet/net/inner/TimerQueue.cpp:76-96 | every step keeps one timer per id in one place, the live ids, the arming, and the order and number of calls |
| TimerRuns.OneShotOnce | xiaoNet/net/inner/TimerQueue.cpp:220-237 | a one-shot timer is called at most once in its life |
| TimerRuns.ErasedNeverRuns | xiaoNet/net/inner/TimerQueue.cpp:184-188 | an erased timer is never called again, even if already popped into the running batch |
| TimerRuns.CancelWorksExactly | xiaoNet/net/inner/TimerQueue.cpp:150-188 | after a cancellation the timer is never called again, over all continuations, if and only if its id has been given out and its timer is not waiting to be inserted |
| TimerRuns.BatchesOrdered | xiaoNet/net/inner/TimerQueue.cpp:204-218 | each batch calls in nondecreasing deadline order and no timer twice |
| TimerRuns.LiveHasOneTimer | xiaoNet/net/inner/TimerQueue.cpp:172-182 | outside a batch every live id has exactly one timer in the queue |
| TimerRuns.ArmedForEarliest | xiaoNet/net/inner/TimerQueue.cpp:190-202 | outside a batch the timerfd is set for the earliest deadline of a nonempty queue |
| TimerRuns.ArmedNow | xiaoNet/net/inner/TimerQueue.cpp:190-247 | the timerfd is set only by an insertion or the end of a batch, and for the time of that step; it is taken back only by a batch, and only when due |
| TimerRuns.DeadlineFixedInQueue | xiaoNet/net/inner/Timer.cpp:42-50 | while a timer is in the queue no step gives its id another deadline: it stays as it is or leaves overdue, and no other timer has its id |
| TimerRuns.RepeatsLater | xiaoNet/net/inner/Timer.cpp:42-50 | a live repeating timer re-enters one interval after the batch's now, strictly later than before; any other timer of the batch is gone |
| TimerBatch.RoundIs | xiaoNet/net/inner/TimerQueue.cpp:85-92 | a round of the loop calls its timer if and only if the id is live when its turn comes |
| TimerBatch.RoundsAre | xiaoNet/net/inner/TimerQueue.cpp:85-92 | over a batch the calls are those of the timers whose ids are live at their turn, and the timers created, inserted and cancelled in between are what the callbacks of exactly these calls ask for, in order |
| TimerOrder.StepKeeps | xiaoNet/net/EventLoop.cpp:297-313 | running the functors one by one, a timer whose insertion has run has arrived, and one erased after it is dead |
| TimerOrder.CancelAfterAdd | xiaoNet/net/inner/TimerQueue.cpp:150-188 | a timer that a thread adds and then cancels is never called once the loop has run the cancellation, whatever other threads and callbacks do |
| TimerQueues.TimerQueue.Insert | xiaoNet/net/inner/TimerQueue.cpp:190-202 | reports exactly whether the earliest deadline has changed |
| TimerQueues.TimerQueue.AddTimerInLoop | xiaoNet/net/inner/TimerQueue.cpp:172-182 | the timer's id becomes live, its timer is in the queue, and the timerfd is set for the earliest deadline again |
| TimerQueues.TimerQueue.InvalidateTimer | xiaoNet/net/inner/TimerQueue.cpp:184-188 | a live id stops being live for good, while its timer stays where it is |
| TimerQueues.TimerQueue.GetExpired | xiaoNet/net/inner/TimerQueue.cpp:204-218 | returns exactly the overdue timers, each once, earliest first, and leaves the others |
| TimerQueues.TimerQueue.Reset | xiaoNet/net/inner/TimerQueue.cpp:220-247 | the specified re-entry, then arming for an earliest timer |
| TimerQueues.TimerQueue.CallOne | xiaoNet/net/inner/TimerQueue.cpp:85-92 | after the model's call the steps of the timer's callback follow, in order, if and only if its id is in the set; otherwise nothing follows |
| TimerQueues.TimerQueue.HandleRead | xiaoNet/net/inner/TimerQueue.cpp:76-96 | with callbacks that add and cancel in any way, time passing between them, and also on readiness that is stale: the start of a batch, one round for each expired timer in order, and the end; the calls are those of live ids and the changes those that their callbacks ask for |
| Utf8.ParseOne | xiaoNet/utils/Utilities.cpp:51-84 | an encoded character in front of any bytes is parsed back and leaves them |
| Utf8.CharacterNumber | xiaoNet/utils/Utilities.cpp:51-81 | the number of a character is the one that section 3 of RFC 3629 gives to its bytes |
| Utf8.EncodedForm | xiaoNet/utils/Utilities.cpp:97-130 | the length of each unit's form; a unit without a form is cut to its low byte if negative, else to its low 16 bits |
| Utf8.DecodeExactly | xiaoNet/utils/Utilities.cpp:42-95 | the result is empty if and only if the bytes are, or some form starts wrongly or is cut short; otherwise it has one unit for each form |
| Utf8.WideRoundTrip | xiaoNet/utils/Utilities.cpp:97-130 | a wide string survives encoding and decoding if and only if all its units are below 0x10000 |
| Utf8.DecodeStable | xiaoNet/utils/Utilities.cpp:42-95 | for all bytes, well-formed or not, decode, encode, decode equals one decode |
| Utf8.BytesRoundTrip | xiaoNet/utils/Utilities.cpp:42-130 | bytes survive decoding and encoding if and only if they are shortest forms (section 4 of RFC 3629, one to three bytes, surrogates included) |
| Utf8.Utf16ToUtf8 | xiaoNet/utils/Utilities.cpp:97-130 | the loop computes the encoding |
| Utf8.Utf8ToUtf16 | xiaoNet/utils/Utilities.cpp:42-95 | the index loop computes the decoding, with nothing returned for any malformed input |
| Epoll.RunInv | xiaoNet/net/inner/poller/EpollPoller.cpp:119-182 | any legal sequence of calls keeps index, table and kernel set in step |
| Epoll.RegistrationInStep | xiaoNet/net/inner/poller/EpollPoller.cpp:119-182 | over every legal sequence the kernel refuses nothing, registration follows the index, and where the masks differ no callback is started |
| EpollRuns.EachBit | xiaoNet/net/Channel.h:187-220 | each call turns its own bits on or off and leaves all others: POLLIN and POLLPRI for reading, POLLOUT for writing |
| EpollRuns.MaskExactly | xiaoNet/net/Channel.h:162-222 | over every legal sequence a bit of a channel's mask is on if and only if the last call on its descriptor that turned the bit on or off turned it on |
| EpollRuns.KernelWatches | xiaoNet/net/inner/poller/EpollPoller.cpp:119-162 | the kernel watches a descriptor for an event if and only if the calls up to the last one that the poller was told had turned that bit on |
| EpollRuns.TableExactly | xiaoNet/net/inner/poller/EpollPoller.cpp:119-182 | over every legal sequence the poller's table has a channel if and only if a call has handed it over since it was made or last removed, even with all events disabled meanwhile |
| EpollRuns.RegisteredNext | xiaoNet/net/inner/poller/EpollPoller.cpp:119-182 | in every reachable state handing a channel over registers it with the kernel, except that an empty mask takes back a registration; removal leaves none |
| EpollRuns.WatchedAsAsked | xiaoNet/net/Channel.cpp:44-49 | unless the last call was `disableAll` the kernel watches exactly what is enabled; after one, whatever it reports starts no callback |
| Epoll.CallbacksExact | xiaoNet/net/Channel.cpp:44-104 | a silenced or ownerless channel starts nothing, an event callback stands for all; else those set run, once each, in the order close on hang-up without input, error on an error or an invalid descriptor, read on input, priority input or the peer's half-close, write on writability |
| Epoll.EpollPoller.UpdateChannel | xiaoNet/net/inner/poller/EpollPoller.cpp:119-162 | adds, changes or deletes the registration of one descriptor by its index and mask, and leaves all other descriptors alone |
| Epoll.EpollPoller.RemoveChannel | xiaoNet/net/inner/poller/EpollPoller.cpp:163-182 | takes one descriptor out of the table and, if registered, out of the kernel set, and leaves all other descriptors alone |
| Epoll.EpollPoller.OpenChannel | xiaoNet/net/Channel.cpp:27-30 | a descriptor whose channel is not with the poller, or that had none, gets a new channel, and the invariant over all channels holds |
| Epoll.EpollPoller.PerformAmongAll | xiaoNet/net/Channel.h:162-222 | a channel's own methods, among all channels, keep the invariant |

## Left out

- WheelObject.TimingWheel.InsertEntry: takes delays in whole ticks, because the source's float conversion rounds; an interval of 1 makes them the same.
- WheelObject.TimingWheel.Turn: an insertion made by an entry's own destructor in the middle of a tick is not modelled; insertions happen between ticks.
- WheelModel.RunCallbacks: a CallbackEntry has no owner but its bucket (or the callback around it), as the source creates it, so it dies with the bucket; counters are unbounded, so `size_t` overflow is not modelled.
- IdleKick.IdleKickBound: one clock for ticks and activity, and a stretch of time without `keepAlive` or a stream that suspends kicking off; when the idle close is on is `KickSwitch.ResumesExactly`.
- MpscQueue.StepInv: sequentially consistent steps stand for the source's acquire and release orderings; node names are never used again, where an allocator may reuse an address.
- EventLoop.NoLostWakeup: exceptions thrown by functors, `runOnQuit`, moving a loop to another thread and fork are not modelled; neither is a `quit` between the two stores at the start of `loop`, which is one step.
- MsgBuffers.MsgBuffer.ReadFd: the truncation of the room to `int` in the iovec is not modelled.
- MsgBuffers.MsgBuffer.AddInFront: the overlapping `std::copy` to the right is taken as a `memmove`, which it is for `char` in common implementations.
- MsgBuffers.MsgBuffer.ReadInt: 16-bit reads, because `peekInt16` returns nothing in the source.
- SendRuns.StreamConserved: says nothing after bytes have been appended to a broken buffer, which is undefined in the source. High-water-mark callbacks, and what they might do to the connection, are left out.
- SendOrder.StreamOrder: a functor of a stream is run in a state where its stream may be used, which one owner of the handle gives.
- TcpConnections.TcpConnection.SendAsyncData: a stream's node is named by an id, where the source shares a pointer between the list and the stream's handle.
- TimerQueues.TimerQueue.Top: the priority queue is a set with some earliest element on top; the order of equal deadlines is left open.
- TimerOrder.CancelAfterAdd: a functor that inserts a timer finds it constructed and not inserted yet, because `addTimer` posts each timer once.
- TimerRuns.CancelWorksExactly: the check that the loop is running before a cancellation is posted is left out.
- Epoll.RegistrationInStep: `epoll_wait` itself and the growth of its event list; a reported event is any mask for a registered descriptor.
- File nodes and stream-callback nodes of the outgoing list: separate code paths that do not queue reliably in the source.
- TLS: no provider is implemented in the repository.
- Draining of pending bytes as a liveness property: the code does not give it (see `SendProgress.PendingStalls`).
- Sockets, addresses, acceptor, connector, client and server start-up: thin wrappers over system calls.
- Task queues and the thread pool: single-lock code with easy members.
