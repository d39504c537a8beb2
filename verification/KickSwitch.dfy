/**
  Suspending the idle close of one connection: a stream opened with `disableKickoff` parks the
  timeout, the end of a stream takes it back, and `keepAlive` clears it
  (xiaoNet/net/inner/TcpConnectionImpl.cpp, TcpConnectionImpl.h).
 */
module KickSwitch {

  /** `idleTimeout_`, `idleTimeoutBackup_`, and whether `kickoffEntry_` is an entry that closes the
      connection when the wheel releases it. */
  datatype State = State(timeout: nat, backup: nat, armed: bool)

  /** `StreamEnds` is the handled end of any stream; `wheel` says that the wheel is still there. */
  datatype Op =
    | Suspend
    | StreamEnds(wheel: bool)
    | KeepAlive

  function Step(s: State, op: Op): State {
    match op
    case Suspend => State(0, s.timeout, false)
    case StreamEnds(wheel) => if s.backup > 0 && wheel then State(s.backup, 0, true) else s
    case KeepAlive => s.(timeout := 0, armed := false)
  }

  /** After kicking off has been enabled with `timeout`. */
  function Run(timeout: nat, ops: seq<Op>): State {
    if ops == [] then State(timeout, 0, true) else Step(Run(timeout, ops[..|ops| - 1]), ops[|ops| - 1])
  }

  // ---------------------------------------------------------------- in the caller's terms

  predicate TakesBack(op: Op) {
    op.StreamEnds? && op.wheel
  }

  /** No stream has ended since the last suspension. */
  predicate Suspended(ops: seq<Op>) {
    exists i :: 0 <= i < |ops| && ops[i].Suspend? && forall j :: i < j < |ops| ==> !TakesBack(ops[j])
  }

  /** A second suspension on top of the first, or a `keepAlive` outside a suspension. */
  predicate Loses(ops: seq<Op>, k: nat)
    requires k < |ops|
  {
    (ops[k].Suspend? && Suspended(ops[..k])) || (ops[k].KeepAlive? && !Suspended(ops[..k]))
  }

  predicate Lost(ops: seq<Op>) {
    exists k: nat :: k < |ops| && Loses(ops, k)
  }

  lemma SuspendedNext(ops: seq<Op>, op: Op)
    ensures Suspended(ops + [op]) <==> op.Suspend? || (Suspended(ops) && !TakesBack(op))
  {
    var next := ops + [op];
    if op.Suspend? {
      assert next[|ops|].Suspend?;
    } else if Suspended(ops) && !TakesBack(op) {
      var i :| 0 <= i < |ops| && ops[i].Suspend? && forall j :: i < j < |ops| ==> !TakesBack(ops[j]);
      assert next[i].Suspend?;
    }
    if Suspended(next) && !op.Suspend? {
      var i :| 0 <= i < |next| && next[i].Suspend? && forall j :: i < j < |next| ==> !TakesBack(next[j]);
      assert ops[i].Suspend? && next[|ops|] == op;
      assert forall j :: i < j < |ops| ==> ops[j] == next[j];
    }
  }

  lemma LostNext(ops: seq<Op>, op: Op)
    ensures Lost(ops + [op]) <==>
            Lost(ops) || (op.Suspend? && Suspended(ops)) || (op.KeepAlive? && !Suspended(ops))
  {
    var next := ops + [op];
    assert next[..|ops|] == ops && next[|ops|] == op;
    assert forall k :: 0 <= k < |ops| ==> next[..k] == ops[..k] && next[k] == ops[k];
    if Lost(ops) {
      var k: nat :| k < |ops| && Loses(ops, k);
      assert Loses(next, k);
    }
    if (op.Suspend? && Suspended(ops)) || (op.KeepAlive? && !Suspended(ops)) {
      assert Loses(next, |ops|);
    }
    if Lost(next) {
      var k: nat :| k < |next| && Loses(next, k);
      assert k < |ops| ==> Loses(ops, k);
    }
  }

  lemma {:induction false} RunIs(timeout: nat, ops: seq<Op>)
    requires timeout > 0
    ensures Run(timeout, ops) ==
            if Lost(ops) then State(0, 0, false)
            else if Suspended(ops) then State(0, timeout, false)
            else State(timeout, 0, true)
  {
    if ops != [] {
      var before, op := ops[..|ops| - 1], ops[|ops| - 1];
      assert ops == before + [op];
      RunIs(timeout, before);
      SuspendedNext(before, op);
      LostNext(before, op);
    }
  }

  /** The idle close is on again if and only if some stream, not necessarily the one that
      suspended it, has ended since the last suspension, no suspension came on top of another,
      and no `keepAlive` came outside one. */
  lemma ResumesExactly(timeout: nat, ops: seq<Op>)
    requires timeout > 0
    ensures Run(timeout, ops).armed <==> !Lost(ops) && !Suspended(ops)
    ensures Run(timeout, ops).timeout == if Run(timeout, ops).armed then timeout else 0
  {
    RunIs(timeout, ops);
  }

  lemma LostStays(ops: seq<Op>, more: seq<Op>)
    requires Lost(ops)
    ensures Lost(ops + more)
  {
    var all := ops + more;
    var k: nat :| k < |ops| && Loses(ops, k);
    assert all[..k] == ops[..k] && all[k] == ops[k];
    assert Loses(all, k);
  }

  /** Some later end of a stream can turn it on again if and only if it is not lost. */
  lemma ComesBack(timeout: nat, ops: seq<Op>)
    requires timeout > 0
    ensures (exists more :: Run(timeout, ops + more).armed) <==> !Lost(ops)
  {
    if Lost(ops) {
      forall more ensures !Run(timeout, ops + more).armed {
        LostStays(ops, more);
        RunIs(timeout, ops + more);
      }
    } else {
      var end := StreamEnds(true);
      SuspendedNext(ops, end);
      LostNext(ops, end);
      RunIs(timeout, ops + [end]);
      assert Run(timeout, ops + [end]).armed;
    }
  }

  // ---------------------------------------------------------------- the object

  class Kicking {
    var idleTimeout: nat
    var idleTimeoutBackup: nat
    var entryLive: bool

    ghost function View(): State
      reads this
    {
      State(idleTimeout, idleTimeoutBackup, entryLive)
    }

    /** `enableKickingOff`. */
    constructor (timeout: nat)
      ensures View() == Run(timeout, [])
    {
      idleTimeout, idleTimeoutBackup, entryLive := timeout, 0, true;
    }

    /** The part of `sendAsyncStream` for `disableKickoff`. */
    method SuspendKickoff()
      modifies this
      ensures View() == Step(old(View()), Suspend)
    {
      if entryLive {
        entryLive := false;
      }
      idleTimeoutBackup := idleTimeout;
      idleTimeout := 0;
    }

    /** The part of `sendAsyncDataInLoop` for the end of a stream. */
    method StreamEnded(wheel: bool)
      modifies this
      ensures View() == Step(old(View()), StreamEnds(wheel))
    {
      if idleTimeoutBackup > 0 {
        if wheel {
          entryLive := true;
          idleTimeout := idleTimeoutBackup;
          idleTimeoutBackup := 0;
        }
      }
    }

    method SetKeepAlive()
      modifies this
      ensures View() == Step(old(View()), KeepAlive)
    {
      idleTimeout := 0;
      if entryLive {
        entryLive := false;
      }
    }
  }
}
