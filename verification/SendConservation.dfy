/** Nothing is lost, repeated or reordered between `send` and the socket. */
module SendConservation {
  import opened Options
  import opened SendPipeline

  // ---------------------------------------------------------------- concatenations

  lemma Assoc(a: Bytes, b: Bytes, c: Bytes)
    ensures a + b + c == a + (b + c)
  {
  }

  lemma Whole<T>(s: seq<T>, n: nat)
    requires n == |s|
    ensures s[..n] == s
  {
  }

  lemma {:induction false} JoinedSplit(s: seq<Segment>, k: nat)
    requires k <= |s|
    ensures Joined(s) == Joined(s[..k]) + Joined(s[k..])
    decreases |s|
  {
    if k == |s| {
      assert s[..k] == s;
    } else {
      var m := |s| - 1;
      JoinedSplit(s[..m], k);
      assert s[..m][..k] == s[..k] && s[..m][k..] == s[k..m];
      assert s[k..][..m - k] == s[k..m];
    }
  }

  lemma JoinedCons(s: seq<Segment>)
    requires s != []
    ensures Joined(s) == s[0].data + Joined(s[1..])
  {
    JoinedSplit(s, 1);
    assert s[..1][..0] == [];
  }

  lemma JoinedSnoc(s: seq<Segment>, x: Segment)
    ensures Joined(s + [x]) == Joined(s) + x.data
  {
    assert (s + [x])[..|s|] == s;
  }

  lemma GrownBefore(s: seq<Segment>, g: nat, d: Bytes, h: nat)
    requires h <= g < |s|
    ensures GrowAt(s, g, d)[..h] == s[..h]
  {
  }

  lemma GrownLast(s: seq<Segment>, g: nat, d: Bytes)
    requires g < |s|
    ensures Joined(GrowAt(s, g, d)[..g + 1]) == Joined(s[..g + 1]) + d
  {
    assert GrowAt(s, g, d)[..g + 1] == s[..g] + [Segment(s[g].stream, s[g].data + d)];
    assert s[..g + 1] == s[..g] + [s[g]];
    JoinedSnoc(s[..g], Segment(s[g].stream, s[g].data + d));
    JoinedSnoc(s[..g], s[g]);
  }

  /** Growing segment `g` inserts `d` behind the first `g + 1` segments. */
  lemma GrownAt(s: seq<Segment>, g: nat, d: Bytes, h: nat)
    requires g < h <= |s|
    ensures Joined(GrowAt(s, g, d)[..h]) == Joined(s[..g + 1]) + d + Joined(s[g + 1..h])
  {
    var t := GrowAt(s, g, d);
    JoinedSplit(t[..h], g + 1);
    assert t[..h][..g + 1] == t[..g + 1] && t[..h][g + 1..] == s[g + 1..h];
    GrownLast(s, g, d);
  }

  // ---------------------------------------------------------------- alignment

  /** Everything accepted up to the slot of the stream at `i` has been sent or is in the queue up
      to that place. */
  ghost predicate Aligned(sent: Bytes, queue: seq<Segment>, log: Log, i: nat)
    requires i < |queue|
  {
    queue[i].stream.Some? ==>
      && queue[i].stream.value in log.slot
      && var g := log.slot[queue[i].stream.value];
         && g < |log.segments| && log.segments[g].stream == queue[i].stream
         && Joined(log.segments[..g + 1]) == sent + Joined(queue[..i + 1])
  }

  /** Streams stand in the queue in the order of their slots. */
  ghost predicate InSlotOrder(queue: seq<Segment>, log: Log, i: nat, j: nat)
    requires i < |queue| && j < |queue|
  {
    queue[i].stream.Some? && queue[j].stream.Some?
      && queue[i].stream.value in log.slot && queue[j].stream.value in log.slot ==>
      log.slot[queue[i].stream.value] < log.slot[queue[j].stream.value]
  }

  ghost predicate AllAligned(sent: Bytes, queue: seq<Segment>, log: Log) {
    forall i {:trigger Aligned(sent, queue, log, i)} :: 0 <= i < |queue| ==> Aligned(sent, queue, log, i)
  }

  ghost predicate Ordered(queue: seq<Segment>, log: Log) {
    forall i, j {:trigger InSlotOrder(queue, log, i, j)} :: 0 <= i < j < |queue| ==> InSlotOrder(queue, log, i, j)
  }

  ghost predicate Conserved(sent: Bytes, queue: seq<Segment>, log: Log) {
    && Joined(log.segments) == sent + Joined(queue)
    && AllAligned(sent, queue, log) && Ordered(queue, log)
    && (forall id :: id in log.slot ==> log.slot[id] < |log.segments| && log.segments[log.slot[id]].stream == Some(id))
  }

  /** A stream at `i` of `queue` stands at `i` of `queue'`, behind the same bytes, and its slot is
      among the segments that `log'` shares with `log`. */
  lemma StillAligned(sent: Bytes, queue: seq<Segment>, log: Log, queue': seq<Segment>, log': Log, i: nat)
    requires i < |queue| && i < |queue'| && Aligned(sent, queue, log, i) && queue'[..i + 1] == queue[..i + 1]
    requires log.segments <= log'.segments
    requires queue[i].stream.Some? && queue[i].stream.value in log.slot ==>
               queue[i].stream.value in log'.slot
               && log'.slot[queue[i].stream.value] == log.slot[queue[i].stream.value]
    ensures Aligned(sent, queue', log', i)
  {
    assert queue'[i] == queue'[..i + 1][i] == queue[..i + 1][i] == queue[i];
    if queue[i].stream.Some? {
      var g := log.slot[queue[i].stream.value];
      assert log'.segments[..g + 1] == log.segments[..g + 1];
    }
  }

  // ---------------------------------------------------------------- the back

  /** The queue after `append` to its back. */
  function Behind(queue: seq<Segment>, d: Bytes): seq<Segment> {
    if queue == [] || queue[|queue| - 1].stream.Some? then
      queue + [Segment(None, d)]
    else
      GrowAt(queue, |queue| - 1, d)
  }

  lemma BehindJoined(queue: seq<Segment>, d: Bytes)
    ensures Joined(Behind(queue, d)) == Joined(queue) + d
  {
    if queue == [] || queue[|queue| - 1].stream.Some? {
      JoinedSnoc(queue, Segment(None, d));
    } else {
      GrownLast(queue, |queue| - 1, d);
      assert queue[..|queue|] == queue && Behind(queue, d)[..|queue|] == Behind(queue, d);
    }
  }

  lemma BehindAligned(sent: Bytes, queue: seq<Segment>, log: Log, d: Bytes, log': Log, i: nat)
    requires AllAligned(sent, queue, log) && i < |Behind(queue, d)|
    requires log.segments <= log'.segments && log'.slot == log.slot
    ensures Aligned(sent, Behind(queue, d), log', i)
  {
    if Behind(queue, d)[i].stream.Some? {
      assert Aligned(sent, queue, log, i);
      assert Behind(queue, d)[..i + 1] == queue[..i + 1];
      StillAligned(sent, queue, log, Behind(queue, d), log', i);
    }
  }

  lemma BehindAllAligned(sent: Bytes, queue: seq<Segment>, log: Log, d: Bytes, log': Log)
    requires AllAligned(sent, queue, log) && log.segments <= log'.segments && log'.slot == log.slot
    ensures AllAligned(sent, Behind(queue, d), log')
  {
    forall i | 0 <= i < |Behind(queue, d)| ensures Aligned(sent, Behind(queue, d), log', i) {
      BehindAligned(sent, queue, log, d, log', i);
    }
  }

  lemma BehindOrdered(queue: seq<Segment>, log: Log, d: Bytes, log': Log)
    requires Ordered(queue, log) && log'.slot == log.slot
    ensures Ordered(Behind(queue, d), log')
  {
    var queue' := Behind(queue, d);
    forall i, j | 0 <= i < j < |queue'| ensures InSlotOrder(queue', log', i, j) {
      if queue'[j].stream.Some? {
        assert InSlotOrder(queue, log, i, j);
      }
    }
  }

  /** A message goes to the end of the queue and to the end of the log. */
  lemma BehindConserved(sent: Bytes, queue: seq<Segment>, log: Log, d: Bytes)
    requires Conserved(sent, queue, log)
    ensures Conserved(sent, Behind(queue, d), log.(segments := log.segments + [Segment(None, d)]))
  {
    var log' := log.(segments := log.segments + [Segment(None, d)]);
    assert Joined(log'.segments) == sent + Joined(Behind(queue, d)) by {
      BehindJoined(queue, d);
      JoinedSnoc(log.segments, Segment(None, d));
      Assoc(sent, Joined(queue), d);
    }
    BehindAllAligned(sent, queue, log, d, log');
    BehindOrdered(queue, log, d, log');
  }

  /** A message without bytes leaves no trace in the queue. */
  lemma EmptyConserved(sent: Bytes, queue: seq<Segment>, log: Log)
    requires Conserved(sent, queue, log)
    ensures Conserved(sent, queue, log.(segments := log.segments + [Segment(None, [])]))
  {
    var log' := log.(segments := log.segments + [Segment(None, [])]);
    JoinedSnoc(log.segments, Segment(None, []));
    forall i | 0 <= i < |queue| ensures Aligned(sent, queue, log', i) {
      assert Aligned(sent, queue, log, i);
      StillAligned(sent, queue, log, queue, log', i);
    }
    forall i, j | 0 <= i < j < |queue| ensures InSlotOrder(queue, log', i, j) {
      assert InSlotOrder(queue, log, i, j);
    }
  }

  // ---------------------------------------------------------------- a new stream

  function Opened(log: Log, id: nat, d: Bytes): Log {
    Log(log.segments + [Segment(Some(id), d)], log.slot[id := |log.segments|])
  }

  lemma OpenedJoined(sent: Bytes, queue: seq<Segment>, log: Log, id: nat, d: Bytes)
    requires Joined(log.segments) == sent + Joined(queue)
    ensures Joined(Opened(log, id, d).segments) == sent + Joined(queue + [Segment(Some(id), d)])
  {
    JoinedSnoc(queue, Segment(Some(id), d));
    JoinedSnoc(log.segments, Segment(Some(id), d));
    Assoc(sent, Joined(queue), d);
  }

  lemma OpenedLast(sent: Bytes, queue: seq<Segment>, log: Log, id: nat, d: Bytes)
    requires Joined(log.segments) == sent + Joined(queue)
    ensures Aligned(sent, queue + [Segment(Some(id), d)], Opened(log, id, d), |queue|)
  {
    OpenedJoined(sent, queue, log, id, d);
    Whole(queue + [Segment(Some(id), d)], |queue| + 1);
    Whole(Opened(log, id, d).segments, |log.segments| + 1);
  }

  lemma OpenedAligned(sent: Bytes, queue: seq<Segment>, log: Log, id: nat, d: Bytes, i: nat)
    requires i < |queue| && Aligned(sent, queue, log, i) && id !in log.slot
    ensures Aligned(sent, queue + [Segment(Some(id), d)], Opened(log, id, d), i)
  {
    var queue' := queue + [Segment(Some(id), d)];
    assert queue'[..i + 1] == queue[..i + 1];
    StillAligned(sent, queue, log, queue', Opened(log, id, d), i);
  }

  lemma OpenedOrdered(sent: Bytes, queue: seq<Segment>, log: Log, id: nat, d: Bytes)
    requires Conserved(sent, queue, log) && id !in log.slot
    ensures Ordered(queue + [Segment(Some(id), d)], Opened(log, id, d))
  {
    var queue', log' := queue + [Segment(Some(id), d)], Opened(log, id, d);
    forall i, j | 0 <= i < j < |queue'| ensures InSlotOrder(queue', log', i, j) {
      assert Aligned(sent, queue, log, i);
      if j < |queue| {
        assert Aligned(sent, queue, log, j) && InSlotOrder(queue, log, i, j);
      }
    }
  }

  lemma OpenedAllAligned(sent: Bytes, queue: seq<Segment>, log: Log, id: nat, d: Bytes)
    requires Joined(log.segments) == sent + Joined(queue) && AllAligned(sent, queue, log) && id !in log.slot
    ensures AllAligned(sent, queue + [Segment(Some(id), d)], Opened(log, id, d))
  {
    var queue', log' := queue + [Segment(Some(id), d)], Opened(log, id, d);
    forall i | 0 <= i < |queue'| ensures Aligned(sent, queue', log', i) {
      if i < |queue| {
        assert Aligned(sent, queue, log, i);
        OpenedAligned(sent, queue, log, id, d, i);
      } else {
        OpenedLast(sent, queue, log, id, d);
      }
    }
  }

  /** A stream takes the next slot and the next place, with what it has been given before. */
  lemma OpenedConserved(sent: Bytes, queue: seq<Segment>, log: Log, id: nat, d: Bytes)
    requires Conserved(sent, queue, log) && id !in log.slot
    ensures Conserved(sent, queue + [Segment(Some(id), d)], Opened(log, id, d))
  {
    OpenedJoined(sent, queue, log, id, d);
    OpenedAllAligned(sent, queue, log, id, d);
    OpenedOrdered(sent, queue, log, id, d);
  }

  // ---------------------------------------------------------------- data of a stream

  lemma InsertBetween(sent: Bytes, a1: Bytes, a2: Bytes, p1: Bytes, p2: Bytes, d: Bytes)
    requires a1 == sent + p1 && a1 + a2 == sent + (p1 + p2)
    ensures a1 + d + a2 == sent + (p1 + d + p2)
  {
    assert a1 + p2 == sent + (p1 + p2);
    assert a2 == (a1 + a2)[|a1|..] == (a1 + p2)[|a1|..] == p2;
  }

  /** Data for an open stream lands behind its slot, in the queue as in the log. */
  lemma GrownBoth(sent: Bytes, queue: seq<Segment>, segments: seq<Segment>, i: nat, d: Bytes, g: nat, j: nat, h: nat)
    requires i < j <= |queue| && g < h <= |segments|
    requires Joined(segments[..g + 1]) == sent + Joined(queue[..i + 1])
    requires Joined(segments[..h]) == sent + Joined(queue[..j])
    ensures Joined(GrowAt(segments, g, d)[..h]) == sent + Joined(GrowAt(queue, i, d)[..j])
  {
    GrownAt(segments, g, d, h);
    GrownAt(queue, i, d, j);
    JoinedSplit(segments[..h], g + 1);
    JoinedSplit(queue[..j], i + 1);
    assert segments[..h][..g + 1] == segments[..g + 1] && segments[..h][g + 1..] == segments[g + 1..h];
    assert queue[..j][..i + 1] == queue[..i + 1] && queue[..j][i + 1..] == queue[i + 1..j];
    InsertBetween(sent, Joined(segments[..g + 1]), Joined(segments[g + 1..h]),
                  Joined(queue[..i + 1]), Joined(queue[i + 1..j]), d);
  }

  function GrowLog(log: Log, g: nat, d: Bytes): Log
    requires g < |log.segments|
  {
    log.(segments := GrowAt(log.segments, g, d))
  }

  lemma GrownAlignedBefore(sent: Bytes, queue: seq<Segment>, log: Log, i: nat, d: Bytes, g: nat, j: nat)
    requires j < i < |queue| && g < |log.segments| && Aligned(sent, queue, log, j)
    requires queue[j].stream.Some? && log.slot[queue[j].stream.value] < g
    ensures Aligned(sent, GrowAt(queue, i, d), GrowLog(log, g, d), j)
  {
    GrownBefore(queue, i, d, j + 1);
    GrownBefore(log.segments, g, d, log.slot[queue[j].stream.value] + 1);
  }

  lemma GrownAlignedAfter(sent: Bytes, queue: seq<Segment>, log: Log, i: nat, d: Bytes, g: nat, j: nat)
    requires i <= j < |queue| && Aligned(sent, queue, log, i) && Aligned(sent, queue, log, j)
    requires queue[i].stream.Some? && queue[j].stream.Some?
    requires g == log.slot[queue[i].stream.value] <= log.slot[queue[j].stream.value]
    ensures Aligned(sent, GrowAt(queue, i, d), GrowLog(log, g, d), j)
  {
    GrownBoth(sent, queue, log.segments, i, d, g, j + 1, log.slot[queue[j].stream.value] + 1);
  }

  lemma GrownAligned(sent: Bytes, queue: seq<Segment>, log: Log, i: nat, d: Bytes, g: nat, j: nat)
    requires AllAligned(sent, queue, log) && Ordered(queue, log)
    requires i < |queue| && j < |queue| && queue[i].stream.Some?
    requires Aligned(sent, queue, log, i) && g == log.slot[queue[i].stream.value]
    ensures Aligned(sent, GrowAt(queue, i, d), GrowLog(log, g, d), j)
  {
    assert Aligned(sent, queue, log, j);
    if queue[j].stream.Some? {
      if j < i {
        assert InSlotOrder(queue, log, j, i);
        GrownAlignedBefore(sent, queue, log, i, d, g, j);
      } else {
        assert j > i ==> InSlotOrder(queue, log, i, j);
        GrownAlignedAfter(sent, queue, log, i, d, g, j);
      }
    }
  }

  lemma GrownOrdered(queue: seq<Segment>, log: Log, i: nat, d: Bytes, g: nat)
    requires Ordered(queue, log) && i < |queue| && g < |log.segments|
    ensures Ordered(GrowAt(queue, i, d), GrowLog(log, g, d))
  {
    var queue', log' := GrowAt(queue, i, d), GrowLog(log, g, d);
    forall j, k | 0 <= j < k < |queue'| ensures InSlotOrder(queue', log', j, k) {
      assert InSlotOrder(queue, log, j, k);
    }
  }

  lemma GrowConserved(sent: Bytes, queue: seq<Segment>, log: Log, i: nat, d: Bytes)
    requires Conserved(sent, queue, log) && i < |queue| && queue[i].stream.Some?
    ensures Aligned(sent, queue, log, i)
    ensures Conserved(sent, GrowAt(queue, i, d), GrowLog(log, log.slot[queue[i].stream.value], d))
  {
    assert Aligned(sent, queue, log, i);
    var g := log.slot[queue[i].stream.value];
    var queue', log' := GrowAt(queue, i, d), GrowLog(log, g, d);
    assert queue[..|queue|] == queue && queue'[..|queue|] == queue';
    assert log.segments[..|log.segments|] == log.segments && log'.segments[..|log.segments|] == log'.segments;
    GrownBoth(sent, queue, log.segments, i, d, g, |queue|, |log.segments|);
    forall j | 0 <= j < |queue'| ensures Aligned(sent, queue', log', j) {
      GrownAligned(sent, queue, log, i, d, g, j);
    }
    GrownOrdered(queue, log, i, d, g);
  }

  // ---------------------------------------------------------------- the front

  function CutFront(queue: seq<Segment>, n: nat): (r: seq<Segment>)
    requires queue != [] && n <= |queue[0].data|
    ensures |r| == |queue| && forall j :: 0 <= j < |queue| ==> r[j].stream == queue[j].stream
  {
    queue[0 := queue[0].(data := queue[0].data[n..])]
  }

  /** Bytes taken from the front are the bytes sent, seen from every later place. */
  lemma CutPrefix(sent: Bytes, queue: seq<Segment>, n: nat, k: nat)
    requires queue != [] && n <= |queue[0].data| && 0 < k <= |queue|
    ensures sent + queue[0].data[..n] + Joined(CutFront(queue, n)[..k]) == sent + Joined(queue[..k])
  {
    JoinedCons(queue[..k]);
    JoinedCons(CutFront(queue, n)[..k]);
    assert CutFront(queue, n)[..k][1..] == queue[..k][1..];
    assert queue[0].data == queue[0].data[..n] + queue[0].data[n..];
  }

  lemma CutAligned(sent: Bytes, queue: seq<Segment>, log: Log, n: nat, i: nat)
    requires queue != [] && n <= |queue[0].data| && i < |queue| && Aligned(sent, queue, log, i)
    ensures Aligned(sent + queue[0].data[..n], CutFront(queue, n), log, i)
  {
    CutPrefix(sent, queue, n, i + 1);
  }

  /** A write moves bytes from the front of the queue to the socket. */
  lemma CutConserved(sent: Bytes, queue: seq<Segment>, log: Log, n: nat)
    requires Conserved(sent, queue, log) && queue != [] && n <= |queue[0].data|
    ensures Conserved(sent + queue[0].data[..n], CutFront(queue, n), log)
  {
    var sent', queue' := sent + queue[0].data[..n], CutFront(queue, n);
    CutPrefix(sent, queue, n, |queue|);
    assert queue[..|queue|] == queue && queue'[..|queue|] == queue';
    forall i | 0 <= i < |queue'| ensures Aligned(sent', queue', log, i) {
      assert Aligned(sent, queue, log, i);
      CutAligned(sent, queue, log, n, i);
    }
    forall i, j | 0 <= i < j < |queue'| ensures InSlotOrder(queue', log, i, j) {
      assert InSlotOrder(queue, log, i, j);
    }
  }

  lemma PopAligned(sent: Bytes, queue: seq<Segment>, log: Log, i: nat)
    requires i + 1 < |queue| && queue[0].data == [] && Aligned(sent, queue, log, i + 1)
    ensures Aligned(sent, queue[1..], log, i)
  {
    JoinedCons(queue[..i + 2]);
    assert queue[..i + 2][1..] == queue[1..][..i + 1];
  }

  /** Dropping an empty front loses nothing. */
  lemma PopConserved(sent: Bytes, queue: seq<Segment>, log: Log)
    requires Conserved(sent, queue, log) && queue != [] && queue[0].data == []
    ensures Conserved(sent, queue[1..], log)
  {
    var queue' := queue[1..];
    JoinedCons(queue);
    forall i | 0 <= i < |queue'| ensures Aligned(sent, queue', log, i) {
      assert Aligned(sent, queue, log, i + 1);
      PopAligned(sent, queue, log, i);
    }
    forall i, j | 0 <= i < j < |queue'| ensures InSlotOrder(queue', log, i, j) {
      assert InSlotOrder(queue, log, i + 1, j + 1);
    }
  }
}
