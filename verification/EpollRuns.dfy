/** What a channel's mask and the kernel's say about the calls that have led to them. */
module EpollRuns {
  import opened Options
  import opened Epoll

  // ---------------------------------------------------------------- one bit

  predicate IsBit(b: Mask) {
    b != 0 && b & (b - 1) == 0
  }

  predicate ReadBit(b: Mask) {
    b == POLLIN || b == POLLPRI
  }

  predicate WriteBit(b: Mask) {
    b == POLLOUT
  }

  /** What a call does to one bit of the mask, whatever the mask was. */
  datatype Effect = TurnsOn | TurnsOff | Leaves

  function OnIf(condition: bool): Effect {
    if condition then TurnsOn else Leaves
  }

  function OffIf(condition: bool): Effect {
    if condition then TurnsOff else Leaves
  }

  function EffectOf(op: Op, b: Mask): Effect {
    match op
    case EnableReading(_) => OnIf(ReadBit(b))
    case DisableReading(_) => OffIf(ReadBit(b))
    case EnableWriting(_) => OnIf(WriteBit(b))
    case DisableWriting(_) => OffIf(WriteBit(b))
    case UpdateEvents(_, mask) => if mask & b != 0 then TurnsOn else TurnsOff
    case DisableAll(_) => TurnsOff
    case Remove(_) => Leaves
    case Open(_) => TurnsOff
  }

  predicate After(on: bool, effect: Effect) {
    effect == TurnsOn || (on && effect != TurnsOff)
  }

  lemma ReadBits(events: Mask, b: Mask)
    requires IsBit(b)
    ensures (events | READ_EVENT) & b != 0 <==> ReadBit(b) || events & b != 0
    ensures (events & !READ_EVENT) & b != 0 <==> !ReadBit(b) && events & b != 0
  {
  }

  lemma WriteBits(events: Mask, b: Mask)
    requires IsBit(b)
    ensures (events | WRITE_EVENT) & b != 0 <==> WriteBit(b) || events & b != 0
    ensures (events & !WRITE_EVENT) & b != 0 <==> !WriteBit(b) && events & b != 0
  {
  }

  lemma NoBits(b: Mask)
    ensures NONE_EVENT & b == 0
  {
  }

  lemma ReadingBit(events: Mask, op: Op, b: Mask)
    requires IsBit(b) && (op.EnableReading? || op.DisableReading?)
    ensures NewEvents(events, op) & b != 0 <==> After(events & b != 0, EffectOf(op, b))
  {
    ReadBits(events, b);
  }

  lemma WritingBit(events: Mask, op: Op, b: Mask)
    requires IsBit(b) && (op.EnableWriting? || op.DisableWriting?)
    ensures NewEvents(events, op) & b != 0 <==> After(events & b != 0, EffectOf(op, b))
  {
    WriteBits(events, b);
  }

  /** Every call turns its own bits on or off and leaves all others as they are. */
  lemma EachBit(events: Mask, op: Op, b: Mask)
    requires IsBit(b)
    ensures NewEvents(events, op) & b != 0 <==> After(events & b != 0, EffectOf(op, b))
  {
    if op.EnableReading? || op.DisableReading? {
      ReadingBit(events, op, b);
    } else if op.EnableWriting? || op.DisableWriting? {
      WritingBit(events, op, b);
    } else {
      NoBits(b);
    }
  }

  // ---------------------------------------------------------------- the calls, looked at backwards

  ghost predicate OnAt(effects: seq<Effect>, i: nat) {
    i < |effects| && effects[i] == TurnsOn && forall k :: i < k < |effects| ==> effects[k] != TurnsOff
  }

  /** The last of these effects that is not to leave the bit alone turns it on. */
  ghost predicate IsOn(effects: seq<Effect>) {
    exists i :: OnAt(effects, i)
  }

  lemma OnNext(effects: seq<Effect>, e: Effect)
    ensures IsOn(effects + [e]) <==> After(IsOn(effects), e)
  {
    var effects' := effects + [e];
    assert effects'[|effects|] == e && forall k :: 0 <= k < |effects| ==> effects'[k] == effects[k];
    assert OnAt(effects', |effects|) <==> e == TurnsOn;
    if i: nat :| OnAt(effects, i) {
      assert OnAt(effects', i) <==> e != TurnsOff;
    }
    if i: nat :| OnAt(effects', i) {
      assert i < |effects| ==> OnAt(effects, i);
    }
  }

  function EffectOn(op: Op, fd: int, b: Mask): Effect {
    if op.fd == fd then EffectOf(op, b) else Leaves
  }

  function Effects(ops: seq<Op>, fd: int, b: Mask): (e: seq<Effect>)
    ensures |e| == |ops|
  {
    if ops == [] then [] else Effects(ops[..|ops| - 1], fd, b) + [EffectOn(ops[|ops| - 1], fd, b)]
  }

  /** The last call on the descriptor that has turned the bit on or off has turned it on. */
  ghost predicate SetBy(ops: seq<Op>, fd: int, b: Mask) {
    IsOn(Effects(ops, fd, b))
  }

  lemma SetByNext(ops: seq<Op>, op: Op, fd: int, b: Mask)
    ensures SetBy(ops + [op], fd, b) <==> After(SetBy(ops, fd, b), EffectOn(op, fd, b))
  {
    assert (ops + [op])[..|ops|] == ops;
    OnNext(Effects(ops, fd, b), EffectOn(op, fd, b));
  }

  /** How many calls there have been up to the last one about the descriptor that the poller was told:
      `disableAll` does not tell it. */
  function Told(ops: seq<Op>, fd: int): (n: nat)
    ensures n <= |ops|
  {
    if ops == [] then
      0
    else
      var last := ops[|ops| - 1];
      if last.fd == fd && !last.DisableAll? then |ops| else Told(ops[..|ops| - 1], fd)
  }

  /** A run without its last call. */
  lemma {:induction false} RunBack(r: Reactor, ops: seq<Op>, r': Reactor) returns (mid: Reactor)
    requires Run(r, ops, r') && ops != []
    ensures var last := ops[|ops| - 1];
            Run(r, ops[..|ops| - 1], mid) && Legal(mid, last) && r' == Step(mid, last)
    decreases |ops|
  {
    if |ops| == 1 {
      mid := r;
    } else {
      mid := RunBack(Step(r, ops[0]), ops[1..], r');
      assert ops[1..][..|ops| - 2] == ops[..|ops| - 1][1..];
    }
  }

  // ---------------------------------------------------------------- the channel's mask

  function At(r: Reactor, fd: int): Entry {
    if fd in r then r[fd] else NoEntry()
  }

  /** Over every legal sequence of calls: a bit of a channel's mask is on if and only if the last call
      on its descriptor that has turned the bit on or off has turned it on. */
  lemma {:induction false} MaskExactly(fds: set<int>, ops: seq<Op>, r: Reactor, fd: int, b: Mask)
    requires Run(Begin(fds), ops, r) && IsBit(b)
    ensures At(r, fd).events & b != 0 <==> SetBy(ops, fd, b)
    decreases |ops|
  {
    if ops != [] {
      var last, before := ops[|ops| - 1], ops[..|ops| - 1];
      var mid := RunBack(Begin(fds), ops, r);
      MaskExactly(fds, before, mid, fd, b);
      assert ops == before + [last];
      SetByNext(before, last, fd, b);
      if last.fd == fd {
        StepMask(mid, last);
        EachBit(At(mid, fd).events, last, b);
      }
    }
  }

  lemma StepMask(r: Reactor, op: Op)
    requires Legal(r, op)
    ensures Step(r, op)[op.fd].events == NewEvents(At(r, op.fd).events, op)
  {
  }

  // ---------------------------------------------------------------- the kernel's mask

  /** The kernel watches the descriptor for this event. */
  predicate Watches(e: Entry, b: Mask) {
    e.registered.Some? && e.registered.value & b != 0
  }

  /** A channel with a mask is with the kernel. */
  predicate Reaches(e: Entry) {
    InStep(e) && (e.events != NONE_EVENT ==> e.index == Added)
  }

  lemma ReachesStep(e: Entry, op: Op)
    requires Reaches(e)
    requires (op.Remove? ==> e.events == NONE_EVENT && e.index != New) && (op.Open? ==> e.index == New)
    ensures Reaches(StepEntry(e, op))
    ensures StepEntry(e, op).stale == op.DisableAll?
    ensures op.DisableAll? ==> StepEntry(e, op).registered == e.registered
  {
    EntryInStep(e, op);
    if !op.Remove? && !op.DisableAll? && !op.Open? {
      UpdatedReaches(e.(events := NewEvents(e.events, op)));
    }
  }

  lemma UpdatedReaches(e: Entry)
    ensures Updated(e).events == e.events && !Updated(e).stale
    ensures e.events != NONE_EVENT ==> Updated(e).index == Added
  {
  }

  lemma {:induction false} AllReach(fds: set<int>, ops: seq<Op>, r: Reactor, fd: int)
    requires Run(Begin(fds), ops, r)
    ensures Reaches(At(r, fd))
    decreases |ops|
  {
    if ops != [] {
      var mid := RunBack(Begin(fds), ops, r);
      AllReach(fds, ops[..|ops| - 1], mid, fd);
      if ops[|ops| - 1].fd == fd {
        ReachesStep(At(mid, fd), ops[|ops| - 1]);
      }
    }
  }

  lemma WatchesMask(e: Entry, b: Mask)
    requires Reaches(e) && !e.stale && IsBit(b)
    ensures Watches(e, b) <==> e.events & b != 0
  {
  }

  /** The kernel watches a descriptor for an event if and only if the last call that turned that bit
      on or off, among those up to the last one that the poller was told, turned it on. */
  lemma {:induction false} KernelWatches(fds: set<int>, ops: seq<Op>, r: Reactor, fd: int, b: Mask)
    requires Run(Begin(fds), ops, r) && IsBit(b)
    ensures Watches(At(r, fd), b) <==> SetBy(ops[..Told(ops, fd)], fd, b)
    decreases |ops|
  {
    if ops != [] {
      var last, before := ops[|ops| - 1], ops[..|ops| - 1];
      var mid := RunBack(Begin(fds), ops, r);
      KernelWatches(fds, before, mid, fd, b);
      if last.fd == fd {
        AllReach(fds, before, mid, fd);
        ReachesStep(At(mid, fd), last);
        if !last.DisableAll? {
          MaskExactly(fds, ops, r, fd, b);
          WatchesMask(At(r, fd), b);
          assert ops[..|ops|] == ops;
        }
      }
      assert before[..Told(before, fd)] == ops[..Told(before, fd)];
    }
  }

  /** Unless the last call about a channel was `disableAll`, the kernel watches exactly what the calls
      have turned on; after a `disableAll` it watches what it did, and no report starts a callback. */
  lemma WatchedAsAsked(fds: set<int>, ops: seq<Op>, r: Reactor, fd: int, b: Mask)
    requires Run(Begin(fds), ops, r) && fd in r && IsBit(b)
    ensures !r[fd].stale ==> (Watches(r[fd], b) <==> SetBy(ops, fd, b))
    ensures r[fd].stale ==>
              forall revents, owned, given :: CallbacksFor(r[fd].events, revents, owned, given) == []
  {
    AllReach(fds, ops, r, fd);
    MaskExactly(fds, ops, r, fd, b);
    if !r[fd].stale {
      WatchesMask(r[fd], b);
    }
  }

  // ---------------------------------------------------------------- the table and the registration

  /** The call hands the channel to the poller. */
  predicate Updates(op: Op) {
    !op.DisableAll? && !op.Remove? && !op.Open?
  }

  ghost predicate UpdatedAt(ops: seq<Op>, fd: int, i: nat) {
    && i < |ops| && ops[i].fd == fd && Updates(ops[i])
    && forall k :: i < k < |ops| && ops[k].fd == fd ==> !ops[k].Remove? && !ops[k].Open?
  }

  /** The channel has been handed to the poller since it was made or last removed. */
  ghost predicate Handed(ops: seq<Op>, fd: int) {
    exists i :: UpdatedAt(ops, fd, i)
  }

  lemma HandedNext(ops: seq<Op>, op: Op, fd: int)
    ensures Handed(ops + [op], fd) <==>
            if op.fd == fd then Updates(op) || (Handed(ops, fd) && op.DisableAll?) else Handed(ops, fd)
  {
    var ops' := ops + [op];
    assert ops'[|ops|] == op && forall k :: 0 <= k < |ops| ==> ops'[k] == ops[k];
    assert UpdatedAt(ops', fd, |ops|) <==> op.fd == fd && Updates(op);
    if i: nat :| UpdatedAt(ops, fd, i) {
      assert UpdatedAt(ops', fd, i) <==> op.fd != fd || (!op.Remove? && !op.Open?);
    }
    if i: nat :| UpdatedAt(ops', fd, i) {
      assert i < |ops| ==> UpdatedAt(ops, fd, i);
    }
  }

  /** The poller's table has a channel if and only if some call has handed it to the poller since it
      was made or last removed, even if all its events have been disabled meanwhile. */
  lemma {:induction false} TableExactly(fds: set<int>, ops: seq<Op>, r: Reactor, fd: int)
    requires Run(Begin(fds), ops, r)
    ensures At(r, fd).listed <==> Handed(ops, fd)
    decreases |ops|
  {
    if ops != [] {
      var last, before := ops[|ops| - 1], ops[..|ops| - 1];
      var mid := RunBack(Begin(fds), ops, r);
      TableExactly(fds, before, mid, fd);
      assert ops == before + [last];
      HandedNext(before, last, fd);
      if last.fd == fd {
        AllReach(fds, before, mid, fd);
        ListedStep(At(mid, fd), last);
      }
    }
  }

  lemma ListedStep(e: Entry, op: Op)
    requires Reaches(e)
    requires (op.Remove? ==> e.events == NONE_EVENT && e.index != New) && (op.Open? ==> e.index == New)
    ensures StepEntry(e, op).listed <==> Updates(op) || (e.listed && op.DisableAll?)
  {
    if Updates(op) {
      UpdatedListed(e.(events := NewEvents(e.events, op)));
    }
  }

  lemma UpdatedListed(e: Entry)
    requires Tabled(e)
    ensures Updated(e).listed
  {
  }

  /** Handing a channel over registers it with the kernel, except that an empty mask takes back a
      registration. */
  lemma RegisteredNext(fds: set<int>, ops: seq<Op>, r: Reactor, op: Op)
    requires Run(Begin(fds), ops, r) && Legal(r, op)
    ensures var e, e' := At(r, op.fd), At(Step(r, op), op.fd);
            && (Updates(op) ==> (e'.registered.Some? <==> e'.events != NONE_EVENT || e.registered.None?))
            && (op.Remove? || op.Open? ==> e'.registered.None?)
            && (op.DisableAll? ==> e'.registered == e.registered)
  {
    AllReach(fds, ops, r, op.fd);
    var e := At(r, op.fd);
    EntryInStep(e, op);
    if Updates(op) {
      UpdatedRegisters(e.(events := NewEvents(e.events, op)));
    }
  }

  lemma UpdatedRegisters(e: Entry)
    requires Tabled(e)
    ensures Updated(e).events == e.events
    ensures Updated(e).registered.Some? <==> e.events != NONE_EVENT || e.registered.None?
  {
  }
}
