/** The connection object: fields updated in place by the send paths and the write callback. */
module TcpConnections {
  import opened Options
  import opened SendPipeline
  import opened SendRuns

  class TcpConnection {
    var status: Status
    var nodes: seq<Node>
    var detached: map<nat, Node>
    var closed: set<nat>
    var writing: bool
    var reading: bool
    var closeOnEmpty: bool
    var bytesSent: nat
    var sent: Bytes
    var halfClosed: bool
    ghost var corrupt: bool
    ghost var log: Log

    ghost function View(): Conn
      reads this
    {
      Conn(status, nodes, detached, closed, writing, reading, closeOnEmpty, sent, bytesSent, halfClosed, corrupt)
    }

    /** In particular: sent bytes followed by pending bytes are the accepted bytes, and nothing
        has been appended to a broken buffer. */
    ghost predicate Valid()
      reads this
    {
      Inv(View(), log)
    }

    /** The state after `op`, and what `op` adds to the accepted bytes. */
    twostate predicate Did(op: Op)
      reads this
    {
      View() == Step(old(View()), op) &&
      log == Record(old(log), op, old(status) == Connected, old(detached))
    }

    constructor ()
      ensures Valid() && View() == Fresh() && log == Log([], map[])
    {
      status, nodes, detached, closed := Connecting, [], map[], {};
      writing, reading, closeOnEmpty := false, false, false;
      sent, bytesSent, halfClosed := [], 0, false;
      log, corrupt := Log([], map[]), false;
    }

    /** `writeRaw`; `r` is what `write` returns. */
    method WriteRawInLoop(data: Bytes, r: int) returns (n: nat)
      modifies this`sent, this`bytesSent, this`reading
      ensures View() == WriteRaw(old(View()), data, r) && n == Taken(r, |data|)
    {
      n := if r > |data| then |data| else if r > 0 then r else 0;
      sent := sent + data[..n];
      bytesSent := bytesSent + n;
      if n < |data| && !writing {
        reading := true;
      }
    }

    method SendInLoop(data: Bytes, r: int)
      requires Valid()
      modifies this
      ensures Valid() && Did(Send(data, r))
    {
      log := Record(log, Send(data, r), status == Connected, detached);
      if status == Connected {
        var rest := data;
        if !writing && nodes == [] {
          var n := WriteRawInLoop(data, r);
          rest := data[n..];
        }
        if |rest| > 0 {
          AppendToBack(rest);
        }
      }
      assert View() == SendStep(old(View()), data, r);
      SendInv(old(View()), old(log), data, r);
    }

    method AppendToBack(data: Bytes)
      modifies this`nodes
      ensures nodes == AppendBack(old(nodes), data)
    {
      if nodes == [] || nodes[|nodes| - 1].stream.Some? {
        nodes := nodes + [MemNode()];
      }
      var k := |nodes| - 1;
      nodes := nodes[k := Fill(nodes[k], data)];
    }

    /** The branch of `sendAsyncStream` taken on the loop's thread. */
    method SendAsyncStream(id: nat)
      requires Valid() && Legal(View(), log, OpenStream(id))
      modifies this
      ensures Valid() && Did(OpenStream(id))
    {
      OpenInv(View(), log, id);
      log := Record(log, OpenStream(id), status == Connected, detached);
      nodes := nodes + [StreamNode(id)];
    }

    /** The stream's callback with data, on the loop's thread. */
    method SendAsyncData(id: nat, data: Bytes, r: int)
      requires Valid() && Legal(View(), log, StreamSend(id, data, r, false))
      modifies this
      ensures Did(StreamSend(id, data, r, false)) && (!corrupt ==> Valid())
    {
      if status == Connected {
        SendAsyncDataInLoop(id, data, r);
      }
    }

    /** `sendAsyncDataInLoop` with data. It does not look at the status. */
    method SendAsyncDataInLoop(id: nat, data: Bytes, r: int)
      requires Valid() && Legal(View(), log, StreamSend(id, data, r, true))
      modifies this
      ensures Did(StreamSend(id, data, r, true)) && (!corrupt ==> Valid())
    {
      log := Record(log, StreamSend(id, data, r, true), status == Connected, detached);
      if data != [] {
        if nodes != [] && nodes[0].stream == Some(id) && nodes[0].data == [] {
          var n := WriteRawInLoop(data, r);
          if n < |data| {
            AppendToNode(id, data[n..]);
          }
        } else {
          AppendToNode(id, data);
        }
      }
      assert View() == StreamSendStep(old(View()), id, data, r, true);
      StreamSendInv(old(View()), old(log), id, data, r, true);
    }

    method AppendToNode(id: nat, data: Bytes)
      modifies this`nodes, this`detached, this`corrupt
      ensures View() == AppendNode(old(View()), id, data)
    {
      var i := IndexOf(nodes, id);
      if i < |nodes| {
        corrupt := corrupt || Broken(nodes[i]);
        nodes := nodes[i := Fill(nodes[i], data)];
      } else if id in detached {
        corrupt := corrupt || Broken(detached[id]);
        detached := detached[id := Fill(detached[id], data)];
      }
    }

    /** The stream's callback without data, on the loop's thread; the handle is gone afterwards. */
    method CloseAsyncStream(id: nat)
      requires Valid() && Legal(View(), log, StreamClose(id, false))
      modifies this
      ensures Valid() && Did(StreamClose(id, false))
    {
      if status == Connected {
        CloseAsyncStreamInLoop(id);
      } else {
        StreamCloseInv(View(), log, id, false);
        closed := closed + {id};
      }
    }

    /** `sendAsyncDataInLoop` without data. */
    method CloseAsyncStreamInLoop(id: nat)
      requires Valid() && Legal(View(), log, StreamClose(id, true))
      modifies this
      ensures Valid() && Did(StreamClose(id, true))
    {
      closed := closed + {id};
      MarkNodeDone(id);
      WriteIfAtFront(id);
      assert View() == StreamCloseStep(old(View()), id, true);
      StreamCloseInv(old(View()), log, id, true);
    }

    method WriteIfAtFront(id: nat)
      modifies this`writing
      ensures View() == EnabledAtFront(old(View()), id)
    {
      if nodes != [] && nodes[0].stream == Some(id) && !writing {
        writing := true;
      }
    }

    /** `done()` on the stream's node, in the list or not in it yet. */
    method MarkNodeDone(id: nat)
      modifies this`nodes, this`detached
      ensures View() == MarkDone(old(View()), id)
    {
      var i := IndexOf(nodes, id);
      if i < |nodes| {
        nodes := nodes[i := nodes[i].(done := true)];
      } else if id in detached {
        detached := detached[id := detached[id].(done := true)];
      }
    }

    /** `forceClose`, through `handleClose`. */
    method ForceCloseInLoop()
      requires Valid()
      modifies this
      ensures Valid() && Did(ForceClose)
    {
      StatusInv(View(), log, ForceClose);
      if status == Connected || status == Disconnecting {
        status := Disconnected;
        writing, reading := false, false;
      }
    }

    /** `shutdown`, run on the loop's thread. */
    method ShutdownInLoop()
      requires Valid()
      modifies this
      ensures Valid() && Did(Shutdown)
    {
      StatusInv(View(), log, Shutdown);
      if status == Connected {
        if nodes != [] {
          return;
        }
        status := Disconnecting;
        if !writing {
          halfClosed := true;
        }
      }
    }

    /** `writeCallback`. */
    method WriteCallback(results: seq<int>)
      requires Valid()
      modifies this
      ensures Valid() && Did(Writable(results))
    {
      WriteLoopInv(View(), log, results);
      if writing {
        WriteAll(results);
      }
    }

    /** The loop of `writeCallback`; `results` are what the writes return. */
    method WriteAll(results: seq<int>)
      modifies this
      ensures View() == WriteLoop(old(View()), results) && log == old(log)
    {
      ghost var after := WriteLoop(View(), results);
      var left := results;
      while nodes != []
        invariant WriteLoop(View(), left) == after && log == old(log)
        decreases |left| + |nodes|, |nodes|
      {
        var go;
        left, go := WriteRound(left);
        if !go {
          return;
        }
      }
      NothingLeft(left);
    }

    /** One round of the loop: the front is removed, or ends the callback, or is written. */
    method WriteRound(results: seq<int>) returns (left: seq<int>, go: bool)
      requires nodes != []
      modifies this
      ensures log == old(log)
      ensures go ==> WriteLoop(View(), left) == WriteLoop(old(View()), results)
      ensures go ==> |left| + |nodes| < |results| + |old(nodes)|
      ensures !go ==> View() == WriteLoop(old(View()), results)
    {
      left, go := results, true;
      if nodes[0].data != [] {
        left := SendFront(results);
        go := nodes[0].data == [];
      } else if nodes[0].stream.None? || nodes[0].done {
        nodes := nodes[1..];
      } else {
        writing, go := false, false;
      }
    }

    /** `sendNodeInLoop` on the front node: writes until the socket takes less than asked. */
    method SendFront(results: seq<int>) returns (left: seq<int>)
      requires nodes != [] && nodes[0].data != []
      modifies this
      ensures log == old(log) && |nodes| == |old(nodes)| && nodes != [] && |left| <= |results|
      ensures nodes[0].data == [] ==> |left| < |results| && WriteLoop(View(), left) == WriteLoop(old(View()), results)
      ensures nodes[0].data != [] ==> View() == WriteLoop(old(View()), results)
    {
      var r := if results == [] then 0 else results[0];
      left := if results == [] then [] else results[1..];
      var front := nodes[0];
      var n := WriteRawInLoop(front.data, r);
      nodes := nodes[0 := Drain(front, n)];
    }

    /** After the loop: the list is empty. */
    method NothingLeft(ghost left: seq<int>)
      requires nodes == []
      modifies this`writing, this`status, this`halfClosed
      ensures View() == WriteLoop(old(View()), left)
    {
      writing := false;
      if closeOnEmpty {
        if status == Connected {
          status := Disconnecting;
          halfClosed := true;
        }
      }
    }
  }
}
