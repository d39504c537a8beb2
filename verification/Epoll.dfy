/**
  Registration of channels with epoll (xiaoNet/net/inner/poller/EpollPoller.cpp,
  xiaoNet/net/Channel.h, Channel.cpp): the channel's index, the poller's table of channels and
  the kernel's interest set, which follow one another only through update and remove.
 */
module Epoll {
  import opened Options

  type Mask = bv16

  const POLLIN: Mask := 0x1
  const POLLPRI: Mask := 0x2
  const POLLOUT: Mask := 0x4
  const POLLERR: Mask := 0x8
  const POLLHUP: Mask := 0x10
  const POLLNVAL: Mask := 0x20
  const POLLRDHUP: Mask := 0x2000

  const NONE_EVENT: Mask := 0
  const READ_EVENT: Mask := 0x3
  const WRITE_EVENT: Mask := 0x4

  datatype Index = New | Added | Deleted

  /** One descriptor: its channel's mask and index, whether the poller's table has it, the mask
      the kernel has for it, and how many `epoll_ctl` calls for it the kernel has refused.
      `stale` is history: the mask was cleared by `disableAll` and not handed on since. */
  datatype Entry = Entry(events: Mask, index: Index, listed: bool, registered: Option<Mask>, refused: nat, stale: bool)

  type Reactor = map<int, Entry>

  datatype Ctl = CtlAdd | CtlMod | CtlDel

  /** `epoll_ctl`: adding a present descriptor, or touching an absent one, is refused. */
  function Control(e: Entry, op: Ctl): Entry {
    if op.CtlAdd? != e.registered.None? then
      e.(refused := e.refused + 1)
    else
      e.(registered := if op.CtlDel? then None else Some(e.events))
  }

  /** `updateChannel`. */
  function Updated(e: Entry): Entry {
    var e0 := e.(stale := false);
    if e.index != Added then
      Control(e0.(listed := e.listed || e.index == New, index := Added), CtlAdd)
    else if e.events == NONE_EVENT then
      Control(e0, CtlDel).(index := Deleted)
    else
      Control(e0, CtlMod)
  }

  /** `removeChannel`. */
  function Removed(e: Entry): Entry {
    var e0 := e.(stale := false, listed := false);
    (if e.index == Added then Control(e0, CtlDel) else e0).(index := New)
  }

  datatype Op =
    | EnableReading(fd: int)
    | DisableReading(fd: int)
    | EnableWriting(fd: int)
    | DisableWriting(fd: int)
    | UpdateEvents(fd: int, mask: Mask)
    | DisableAll(fd: int)
    | Remove(fd: int)
    | Open(fd: int)

  /** `remove` asserts that nothing is enabled and that the poller knows the channel. A descriptor
      gets a new channel when it has had none, or when its channel is not with the poller. */
  predicate Legal(r: Reactor, op: Op) {
    if op.Open? then
      op.fd in r ==> r[op.fd].index == New
    else
      op.fd in r && (op.Remove? ==> r[op.fd].events == NONE_EVENT && r[op.fd].index != New)
  }

  function NewEvents(events: Mask, op: Op): Mask {
    match op
    case EnableReading(_) => events | READ_EVENT
    case DisableReading(_) => events & !READ_EVENT
    case EnableWriting(_) => events | WRITE_EVENT
    case DisableWriting(_) => events & !WRITE_EVENT
    case UpdateEvents(_, mask) => mask
    case DisableAll(_) => NONE_EVENT
    case Remove(_) => events
    case Open(_) => NONE_EVENT
  }

  function StepEntry(e: Entry, op: Op): Entry {
    var e0 := e.(events := NewEvents(e.events, op));
    match op
    case DisableAll(_) => e0.(stale := true)
    case Remove(_) => Removed(e0)
    case Open(_) => e0.(index := New, stale := false)
    case _ => Updated(e0)
  }

  function NoEntry(): Entry {
    Entry(NONE_EVENT, New, false, None, 0, false)
  }

  function Step(r: Reactor, op: Op): Reactor
    requires Legal(r, op)
  {
    r[op.fd := StepEntry(if op.fd in r then r[op.fd] else NoEntry(), op)]
  }

  predicate Tabled(e: Entry) {
    && e.refused == 0
    && (e.registered.Some? <==> e.index == Added)
    && (e.listed <==> e.index != New)
  }

  /** Index, table and kernel set say the same about a descriptor; the kernel's mask is the
      channel's unless the channel was silenced behind the poller's back. */
  predicate InStep(e: Entry) {
    && Tabled(e)
    && (e.stale ==> e.events == NONE_EVENT)
    && (e.registered.Some? && !e.stale ==> e.registered.value == e.events)
  }

  ghost predicate Inv(r: Reactor) {
    forall fd :: fd in r ==> InStep(r[fd])
  }

  function Begin(fds: set<int>): Reactor {
    map fd | fd in fds :: NoEntry()
  }

  /** Whatever mask the channel has, the poller brings the three in step again. */
  lemma UpdatedInStep(e: Entry)
    requires Tabled(e)
    ensures InStep(Updated(e))
  {
  }

  lemma RemovedInStep(e: Entry)
    requires Tabled(e) && e.index != New
    ensures InStep(Removed(e))
  {
  }

  lemma SilencedInStep(e: Entry, op: Op)
    requires InStep(e) && (op.DisableAll? || (op.Open? && e.index == New))
    ensures InStep(StepEntry(e, op))
  {
  }

  lemma EntryInStep(e: Entry, op: Op)
    requires InStep(e) && (op.Remove? ==> e.index != New) && (op.Open? ==> e.index == New)
    ensures InStep(StepEntry(e, op))
  {
    var e0 := e.(events := NewEvents(e.events, op));
    if op.Remove? {
      RemovedInStep(e0);
    } else if op.DisableAll? || op.Open? {
      SilencedInStep(e, op);
    } else {
      UpdatedInStep(e0);
    }
  }

  lemma StepInv(r: Reactor, op: Op)
    requires Inv(r) && Legal(r, op)
    ensures Inv(Step(r, op))
  {
    EntryInStep(if op.fd in r then r[op.fd] else NoEntry(), op);
  }

  ghost predicate Run(r: Reactor, ops: seq<Op>, r': Reactor)
    decreases |ops|
  {
    if ops == [] then r' == r else Legal(r, ops[0]) && Run(Step(r, ops[0]), ops[1..], r')
  }

  lemma {:induction false} RunInv(r: Reactor, ops: seq<Op>, r': Reactor)
    requires Inv(r) && Run(r, ops, r')
    ensures Inv(r')
    decreases |ops|
  {
    if ops != [] {
      StepInv(r, ops[0]);
      RunInv(Step(r, ops[0]), ops[1..], r');
    }
  }

  // ---------------------------------------------------------------- events

  datatype Callback = EventCb | CloseCb | ErrorCb | ReadCb | WriteCb

  /** The callbacks that the reported events ask for. */
  datatype Wants = Wants(close: bool, error: bool, read: bool, write: bool)

  function WantsOf(revents: Mask): Wants {
    Wants(revents & POLLHUP != 0 && revents & POLLIN == 0,
          revents & (POLLNVAL | POLLERR) != 0,
          revents & (POLLIN | POLLPRI | POLLRDHUP) != 0,
          revents & POLLOUT != 0)
  }

  /** `handleEvent`: the callbacks that are started. `owned` says that the tie, if there is one,
      can still be locked; `given` are the callbacks the user has set. */
  function CallbacksFor(events: Mask, revents: Mask, owned: bool, given: set<Callback>): seq<Callback> {
    if events == NONE_EVENT || !owned then [] else Started(WantsOf(revents), given)
  }

  function Started(wants: Wants, given: set<Callback>): seq<Callback> {
    if EventCb in given then
      [EventCb]
    else
      InOrder(wants.close && CloseCb in given, wants.error && ErrorCb in given,
              wants.read && ReadCb in given, wants.write && WriteCb in given)
  }

  function InOrder(close: bool, error: bool, read: bool, write: bool): seq<Callback> {
    If(close, CloseCb) + If(error, ErrorCb) + If(read, ReadCb) + If(write, WriteCb)
  }

  function If(condition: bool, cb: Callback): seq<Callback> {
    if condition then [cb] else []
  }

  predicate Wanted(cb: Callback, wants: Wants) {
    match cb
    case EventCb => false
    case CloseCb => wants.close
    case ErrorCb => wants.error
    case ReadCb => wants.read
    case WriteCb => wants.write
  }

  function Rank(cb: Callback): nat {
    match cb
    case EventCb => 0
    case CloseCb => 1
    case ErrorCb => 2
    case ReadCb => 3
    case WriteCb => 4
  }

  ghost predicate ByRank(s: seq<Callback>, below: nat) {
    && (forall i, j :: 0 <= i < j < |s| ==> Rank(s[i]) < Rank(s[j]))
    && (forall i :: 0 <= i < |s| ==> Rank(s[i]) < below)
  }

  lemma RankedAppend(s: seq<Callback>, condition: bool, cb: Callback)
    requires ByRank(s, Rank(cb))
    ensures ByRank(s + If(condition, cb), Rank(cb) + 1)
    ensures forall x :: x in s + If(condition, cb) <==> x in s || (condition && x == cb)
  {
  }

  lemma InOrderExact(close: bool, error: bool, read: bool, write: bool)
    ensures ByRank(InOrder(close, error, read, write), 5)
    ensures forall cb :: cb in InOrder(close, error, read, write) <==>
              (cb == CloseCb && close) || (cb == ErrorCb && error) || (cb == ReadCb && read) || (cb == WriteCb && write)
  {
    RankedAppend([], close, CloseCb);
    assert [] + If(close, CloseCb) == If(close, CloseCb);
    RankedAppend(If(close, CloseCb), error, ErrorCb);
    RankedAppend(If(close, CloseCb) + If(error, ErrorCb), read, ReadCb);
    RankedAppend(If(close, CloseCb) + If(error, ErrorCb) + If(read, ReadCb), write, WriteCb);
  }

  lemma StartedExact(wants: Wants, given: set<Callback>, cb: Callback)
    ensures cb in Started(wants, given) <==>
              cb in given && if EventCb in given then cb == EventCb else Wanted(cb, wants)
    ensures ByRank(Started(wants, given), 5)
  {
    if EventCb in given {
      assert Started(wants, given) == [EventCb];
    } else {
      var close, error := wants.close && CloseCb in given, wants.error && ErrorCb in given;
      var read, write := wants.read && ReadCb in given, wants.write && WriteCb in given;
      assert Started(wants, given) == InOrder(close, error, read, write);
      InOrderExact(close, error, read, write);
      match cb {
        case EventCb =>
        case CloseCb =>
        case ErrorCb =>
        case ReadCb =>
        case WriteCb =>
      }
    }
  }

  /** A silenced channel and one whose owner is gone start nothing. Otherwise an event callback, if
      given, is started alone; without one, the callbacks that were given are started by these events,
      each once and in the order close, error, read, write: hang-up without input, an error or an
      invalid descriptor, input of any kind or the peer's half-close, and writability. */
  lemma CallbacksExact(events: Mask, revents: Mask, owned: bool, given: set<Callback>)
    ensures var started := CallbacksFor(events, revents, owned, given);
            && (events == NONE_EVENT || !owned ==> started == [])
            && (events != NONE_EVENT && owned && EventCb in given ==> started == [EventCb])
            && (events != NONE_EVENT && owned && EventCb !in given ==>
                  && ByRank(started, 5) && EventCb !in started
                  && (CloseCb in started <==> CloseCb in given && revents & POLLHUP != 0 && revents & POLLIN == 0)
                  && (ErrorCb in started <==>
                        ErrorCb in given && (revents & POLLNVAL != 0 || revents & POLLERR != 0))
                  && (ReadCb in started <==>
                        ReadCb in given
                        && (revents & POLLIN != 0 || revents & POLLPRI != 0 || revents & POLLRDHUP != 0))
                  && (WriteCb in started <==> WriteCb in given && revents & POLLOUT != 0))
  {
    AnyOf(revents);
    forall cb
      ensures cb in Started(WantsOf(revents), given) <==>
              cb in given && if EventCb in given then cb == EventCb else Wanted(cb, WantsOf(revents))
      ensures ByRank(Started(WantsOf(revents), given), 5)
    {
      StartedExact(WantsOf(revents), given, cb);
    }
  }

  lemma AnyOf(revents: Mask)
    ensures revents & (POLLNVAL | POLLERR) != 0 <==> revents & POLLNVAL != 0 || revents & POLLERR != 0
    ensures revents & (POLLIN | POLLPRI | POLLRDHUP) != 0 <==>
            revents & POLLIN != 0 || revents & POLLPRI != 0 || revents & POLLRDHUP != 0
  {
  }

  /** Over every legal sequence of calls on channels with distinct descriptors: the kernel
      refuses nothing, a descriptor is registered exactly when its index says so and listed
      exactly when it is not new, and where the kernel's mask is not the channel's, an event that
      the kernel reports starts no callback. */
  lemma RegistrationInStep(fds: set<int>, ops: seq<Op>, r: Reactor, fd: int)
    requires Run(Begin(fds), ops, r) && fd in r
    ensures r[fd].refused == 0
    ensures r[fd].registered.Some? <==> r[fd].index == Added
    ensures r[fd].listed <==> r[fd].index != New
    ensures r[fd].registered.Some? ==>
              r[fd].registered.value == r[fd].events ||
              (r[fd].stale && forall revents, owned, given :: CallbacksFor(r[fd].events, revents, owned, given) == [])
  {
    RunInv(Begin(fds), ops, r);
    assert InStep(r[fd]);
  }

  // ---------------------------------------------------------------- the objects

  class Channel {
    const fd: int
    var events: Mask
    var index: Index
    ghost var stale: bool

    constructor (fd: int)
      ensures this.fd == fd && events == NONE_EVENT && index == New && !stale
    {
      this.fd := fd;
      events, index, stale := NONE_EVENT, New, false;
    }

    /** `handleEvent`, for what the last poll reported on the descriptor. */
    method HandleEvent(revents: Mask, owned: bool, given: set<Callback>) returns (started: seq<Callback>)
      ensures started == CallbacksFor(events, revents, owned, given)
      ensures events == NONE_EVENT ==> started == []
    {
      started := [];
      if events == NONE_EVENT || !owned {
        return;
      }
      if EventCb in given {
        return [EventCb];
      }
      var hangup := revents & POLLHUP != 0 && revents & POLLIN == 0;
      var failed := revents & (POLLNVAL | POLLERR) != 0;
      var readable := revents & (POLLIN | POLLPRI | POLLRDHUP) != 0;
      var writable := revents & POLLOUT != 0;
      if hangup && CloseCb in given {
        started := [CloseCb];
      }
      if failed && ErrorCb in given {
        started := started + [ErrorCb];
      }
      if readable && ReadCb in given {
        started := started + [ReadCb];
      }
      if writable && WriteCb in given {
        started := started + [WriteCb];
      }
    }
  }

  class EpollPoller {
    ghost var all: map<int, Channel>
    var channels: map<int, Channel>
    var kernel: map<int, Mask>
    ghost var refused: map<int, nat>

    ghost function EntryOf(c: Channel): Entry
      reads this, c
    {
      Entry(c.events, c.index, c.fd in channels, if c.fd in kernel then Some(kernel[c.fd]) else None,
            if c.fd in refused then refused[c.fd] else 0, c.stale)
    }

    ghost function View(): Reactor
      reads this, all.Values
    {
      map fd | fd in all :: EntryOf(all[fd])
    }

    ghost predicate Valid()
      reads this, all.Values
    {
      && (forall fd :: fd in all ==> all[fd].fd == fd)
      && (forall fd :: fd in channels ==> fd in all && channels[fd] == all[fd])
      && kernel.Keys <= all.Keys && refused.Keys <= all.Keys
      && Inv(View())
    }

    /** A poller for channels with distinct descriptors that no call has touched yet. */
    constructor (all: map<int, Channel>)
      requires forall fd :: fd in all ==>
                 all[fd].fd == fd && all[fd].events == NONE_EVENT && all[fd].index == New && !all[fd].stale
      ensures Valid() && this.all == all && View() == Begin(all.Keys)
    {
      this.all := all;
      channels, kernel, refused := map[], map[], map[];
      new;
      assert View().Keys == Begin(all.Keys).Keys;
      assert forall fd :: fd in all ==> View()[fd] == Begin(all.Keys)[fd];
    }

    /** What a call about `c` leaves alone. */
    twostate predicate OnlyAbout(c: Channel)
      reads this
    {
      && all == old(all)
      && kernel.Keys <= old(kernel).Keys + {c.fd} && refused.Keys <= old(refused).Keys + {c.fd}
      && (forall fd :: fd != c.fd ==> (fd in channels <==> fd in old(channels)) && (fd in kernel <==> fd in old(kernel))
                                      && (fd in refused <==> fd in old(refused)))
      && (forall fd :: fd != c.fd && fd in channels ==> channels[fd] == old(channels)[fd])
      && (forall fd :: fd != c.fd && fd in kernel ==> kernel[fd] == old(kernel)[fd])
      && (forall fd :: fd != c.fd && fd in refused ==> refused[fd] == old(refused)[fd])
      && (c.fd in channels ==> channels[c.fd] == c || (c.fd in old(channels) && channels[c.fd] == old(channels)[c.fd]))
    }

    /** `update`: one `epoll_ctl` call. */
    method Update(op: Ctl, channel: Channel)
      modifies this`kernel, this`refused
      ensures EntryOf(channel) == Control(old(EntryOf(channel)), op) && OnlyAbout(channel)
    {
      var fd := channel.fd;
      if (op == CtlAdd && fd !in kernel) || (op == CtlMod && fd in kernel) {
        kernel := kernel[fd := channel.events];
      } else if op == CtlDel && fd in kernel {
        kernel := kernel - {fd};
      } else {
        refused := refused[fd := if fd in refused then refused[fd] + 1 else 1];
      }
    }

    method UpdateChannel(channel: Channel)
      modifies this`kernel, this`refused, this`channels, channel`index, channel`stale
      ensures EntryOf(channel) == Updated(old(EntryOf(channel))) && OnlyAbout(channel)
    {
      channel.stale := false;
      if channel.index == New || channel.index == Deleted {
        if channel.index == New {
          channels := channels[channel.fd := channel];
        }
        channel.index := Added;
        Update(CtlAdd, channel);
      } else if channel.events == NONE_EVENT {
        Update(CtlDel, channel);
        channel.index := Deleted;
      } else {
        Update(CtlMod, channel);
      }
    }

    method RemoveChannel(channel: Channel)
      modifies this`kernel, this`refused, this`channels, channel`index, channel`stale
      ensures EntryOf(channel) == Removed(old(EntryOf(channel))) && OnlyAbout(channel)
    {
      channel.stale := false;
      channels := channels - {channel.fd};
      if channel.index == Added {
        Update(CtlDel, channel);
      }
      channel.index := New;
    }

    /** A channel's own method: it changes the mask and, except for `disableAll`, calls the poller. */
    method Perform(channel: Channel, op: Op)
      requires op.fd == channel.fd && !op.Open?
      modifies this`kernel, this`refused, this`channels, channel
      ensures EntryOf(channel) == StepEntry(old(EntryOf(channel)), op) && OnlyAbout(channel)
    {
      channel.events := NewEvents(channel.events, op);
      if op.DisableAll? {
        channel.stale := true;
      } else if op.Remove? {
        RemoveChannel(channel);
      } else {
        UpdateChannel(channel);
      }
    }

    /** A new channel for a descriptor that is not with the poller, used before or not. */
    method OpenChannel(channel: Channel)
      requires Valid() && Legal(View(), Open(channel.fd))
      requires channel.events == NONE_EVENT && channel.index == New && !channel.stale
      modifies this`all
      ensures Valid() && View() == Step(old(View()), Open(channel.fd)) && all == old(all)[channel.fd := channel]
    {
      ghost var after := Step(View(), Open(channel.fd));
      StepInv(View(), Open(channel.fd));
      NotWithPoller(channel.fd);
      all := all[channel.fd := channel];
      assert EntryOf(channel) == after[channel.fd];
      assert forall fd :: fd in old(all) && fd != channel.fd ==> EntryOf(all[fd]) == old(EntryOf(all[fd]));
      assert View() == after;
    }

    lemma NotWithPoller(fd: int)
      requires Valid() && Legal(View(), Open(fd))
      ensures fd !in channels && fd !in kernel && (fd in refused ==> refused[fd] == 0)
    {
      if fd in all {
        assert InStep(View()[fd]);
      }
    }

    /** The same among all channels: the invariant holds again, the others are as they were. */
    method PerformAmongAll(channel: Channel, op: Op)
      requires Valid() && Legal(View(), op) && !op.Open? && all[op.fd] == channel
      modifies this`kernel, this`refused, this`channels, channel
      ensures Valid() && View() == Step(old(View()), op)
    {
      assert forall fd :: fd in all && fd != channel.fd ==> all[fd] != channel;
      ghost var after := Step(View(), op);
      StepInv(View(), op);
      Perform(channel, op);
      assert EntryOf(channel) == after[channel.fd];
      assert forall fd :: fd in all && fd != channel.fd ==> EntryOf(all[fd]) == old(EntryOf(all[fd]));
      assert View() == after;
    }
  }
}
