/**
  The indices of a MsgBuffer without its bytes (xiaoNet/utils/MsgBuffer.cpp): how they move, and
  exactly when they stay inside the vector.
 */
module BufferShape {

  const BUFFER_OFFSET: nat := 8

  /** `head_`, `tail_`, the size of the vector, and `initCap_`. */
  datatype Shape = Shape(head: nat, tail: nat, size: nat, cap: nat)

  predicate Fits(b: Shape) {
    b.head <= b.tail <= b.size
  }

  /** The indices are inside the vector and stay inside when it is emptied. */
  predicate Safe(b: Shape) {
    Fits(b) && b.size >= BUFFER_OFFSET && b.cap >= BUFFER_OFFSET
  }

  function Readable(b: Shape): nat
    requires Fits(b)
  {
    b.tail - b.head
  }

  function New(len: nat): Shape {
    Shape(BUFFER_OFFSET, BUFFER_OFFSET, len + BUFFER_OFFSET, len)
  }

  /** `ensureWritableBytes`: nothing, compaction, or a new buffer. */
  function Ensured(b: Shape, len: nat): (r: Shape)
    requires Fits(b)
    ensures Safe(b) ==> Safe(r)
  {
    var readable := b.tail - b.head;
    if b.size - b.tail > len then
      b
    else if b.head + (b.size - b.tail) >= len + BUFFER_OFFSET then
      b.(head := BUFFER_OFFSET, tail := BUFFER_OFFSET + readable)
    else
      var newLen := if b.size * 2 > BUFFER_OFFSET + readable + len then b.size * 2 else BUFFER_OFFSET + readable + len;
      Shape(BUFFER_OFFSET, BUFFER_OFFSET + readable, newLen + BUFFER_OFFSET, newLen)
  }

  function Appended(b: Shape, len: nat): (r: Shape)
    requires Fits(b)
    ensures Fits(r) && Readable(r) == Readable(b) + len
    ensures Safe(b) ==> Safe(r)
  {
    var e := Ensured(b, len);
    e.(tail := e.tail + len)
  }

  /** `addInFront`: the gap in front, the room behind, or a new buffer. */
  function Prepended(b: Shape, len: nat): (r: Shape)
    requires Fits(b)
    ensures Safe(b) ==> Safe(r)
  {
    if b.head >= len then
      b.(head := b.head - len)
    else if len <= b.size - b.tail then
      b.(tail := b.tail + len)
    else
      var need := len + Readable(b);
      Appended(Appended(New(if need < b.cap then b.cap else need), len), Readable(b))
  }

  /** `readFd`: the room behind the tail, then an append of what was read beyond it. */
  function Received(b: Shape, len: nat): (r: Shape)
    requires Fits(b)
    ensures Safe(b) ==> Safe(r)
  {
    if len <= b.size - b.tail then
      b.(tail := b.tail + len)
    else
      Appended(b.(tail := b.size), len - (b.size - b.tail))
  }

  /** `retrieveAll` may shrink the vector below the front gap. */
  function Emptied(b: Shape): (r: Shape)
    ensures Safe(b) ==> Safe(r)
  {
    Shape(BUFFER_OFFSET, BUFFER_OFFSET, if b.size > b.cap * 2 then b.cap else b.size, b.cap)
  }

  function Retrieved(b: Shape, len: nat): (r: Shape)
    requires Fits(b)
    ensures Safe(b) ==> Safe(r)
  {
    if len >= Readable(b) then Emptied(b) else b.(head := b.head + len)
  }

  /** What holds of a buffer that is appended to and taken from, as a node's is: the gap in front
      stays, and a capacity below 8 means that the vector is still the first one. */
  predicate Grows(b: Shape) {
    Fits(b) && b.head >= BUFFER_OFFSET && (b.cap < BUFFER_OFFSET ==> b.size == b.cap + BUFFER_OFFSET)
  }

  /** An append to a buffer of capacity below 8 replaces the vector, for good, exactly when the
      pending bytes would exceed the capacity. */
  lemma AppendGrows(b: Shape, len: nat)
    requires Grows(b)
    ensures Grows(Appended(b, len))
    ensures b.cap < BUFFER_OFFSET && Readable(b) + len <= b.cap ==> Appended(b, len).cap == b.cap
    ensures b.cap >= BUFFER_OFFSET || Readable(b) + len > b.cap ==> Appended(b, len).cap >= BUFFER_OFFSET
  {
  }

  /** Taking bytes out leaves the indices outside the vector exactly when it takes all of them
      from a buffer whose capacity is below 8. */
  lemma RetrieveBreaks(b: Shape, len: nat)
    requires Grows(b)
    ensures Fits(Retrieved(b, len)) <==> len < Readable(b) || b.cap >= BUFFER_OFFSET
    ensures Fits(Retrieved(b, len)) ==> Grows(Retrieved(b, len))
    ensures Retrieved(b, len).cap == b.cap
    ensures Fits(Retrieved(b, len)) ==>
              Readable(Retrieved(b, len)) == if len < Readable(b) then Readable(b) - len else 0
  {
  }

  datatype Use = Put(len: nat) | Get(len: nat)

  /** The indices are inside the vector after each of the uses. */
  ghost predicate AlwaysFits(b: Shape, uses: seq<Use>)
    decreases |uses|
  {
    Fits(b) &&
    (uses == [] ||
     AlwaysFits(if uses[0].Put? then Appended(b, uses[0].len) else Retrieved(b, uses[0].len), uses[1..]))
  }

  /** In terms of the caller's bytes: with `first` bytes in the first chunk and `pending` bytes
      in the buffer, it is not emptied before the pending bytes have once exceeded `first`. */
  ghost predicate NotEmptiedSmall(first: nat, pending: nat, uses: seq<Use>)
    decreases |uses|
  {
    uses == [] ||
    match uses[0]
    case Put(len) => pending + len > first || NotEmptiedSmall(first, pending + len, uses[1..])
    case Get(len) => len < pending && NotEmptiedSmall(first, pending - len, uses[1..])
  }

  lemma {:induction false} LargeAlwaysFits(b: Shape, uses: seq<Use>)
    requires Grows(b) && b.cap >= BUFFER_OFFSET
    ensures AlwaysFits(b, uses)
    decreases |uses|
  {
    if uses != [] {
      match uses[0] {
        case Put(len) =>
          AppendGrows(b, len);
          LargeAlwaysFits(Appended(b, len), uses[1..]);
        case Get(len) =>
          RetrieveBreaks(b, len);
          LargeAlwaysFits(Retrieved(b, len), uses[1..]);
      }
    }
  }

  lemma {:induction false} SmallFits(b: Shape, uses: seq<Use>)
    requires Grows(b) && b.cap < BUFFER_OFFSET
    ensures AlwaysFits(b, uses) <==> NotEmptiedSmall(b.cap, Readable(b), uses)
    decreases |uses|
  {
    if uses != [] {
      match uses[0] {
        case Put(len) =>
          AppendGrows(b, len);
          if Readable(b) + len <= b.cap {
            SmallFits(Appended(b, len), uses[1..]);
          } else {
            LargeAlwaysFits(Appended(b, len), uses[1..]);
          }
        case Get(len) =>
          RetrieveBreaks(b, len);
          if len < Readable(b) {
            SmallFits(Retrieved(b, len), uses[1..]);
          }
      }
    }
  }

  /** A buffer made for its first chunk keeps its indices inside the vector, whatever is appended
      and taken out afterwards, if and only if the chunk has at least 8 bytes or the buffer is
      not emptied before it has once held more than the chunk. */
  lemma FirstChunkDecides(first: nat, uses: seq<Use>)
    ensures AlwaysFits(Appended(New(first), first), uses) <==>
            first >= BUFFER_OFFSET || NotEmptiedSmall(first, first, uses)
  {
    AppendGrows(New(first), first);
    if first >= BUFFER_OFFSET {
      LargeAlwaysFits(Appended(New(first), first), uses);
    } else {
      SmallFits(Appended(New(first), first), uses);
    }
  }
}
