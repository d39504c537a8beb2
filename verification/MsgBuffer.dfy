/**
  The byte buffer of xiaoNet/utils/MsgBuffer.cpp: one vector of bytes with a head and a tail
  index. Every operation is proved to act on the readable bytes like the matching operation
  on a plain sequence.
 */
module MsgBuffers {
  import opened Arithmetic
  import opened Options
  import opened BufferShape

  type Byte = x: nat | x < 256

  const EXT_BUFFER: nat := 8192

  // ---------------------------------------------------------------- integers in network order

  function Pow256(k: nat): (r: nat)
    ensures r > 0
  {
    if k == 0 then 1 else 256 * Pow256(k - 1)
  }

  /** The `k` low bytes of `x`, most significant first. */
  function ToBytes(x: nat, k: nat): (s: seq<Byte>)
    ensures |s| == k
  {
    if k == 0 then [] else ToBytes(x / 256, k - 1) + [x % 256]
  }

  function FromBytes(s: seq<Byte>): (x: nat)
  {
    if s == [] then 0 else 256 * FromBytes(s[..|s| - 1]) + s[|s| - 1]
  }

  lemma {:induction false} FromToBytes(x: nat, k: nat)
    requires x < Pow256(k)
    ensures FromBytes(ToBytes(x, k)) == x
    decreases k
  {
    if k > 0 {
      FromToBytes(x / 256, k - 1);
      assert ToBytes(x, k)[..k - 1] == ToBytes(x / 256, k - 1);
    }
  }

  lemma {:induction false} ToFromBytes(s: seq<Byte>)
    ensures FromBytes(s) < Pow256(|s|)
    ensures ToBytes(FromBytes(s), |s|) == s
  {
    if s != [] {
      var front := s[..|s| - 1];
      ToFromBytes(front);
      var x := FromBytes(s);
      assert x / 256 == FromBytes(front) && x % 256 == s[|s| - 1];
      assert s == front + [s[|s| - 1]];
    }
  }

  /** Network order: the byte at `i` has the weight 256^(k - 1 - i). */
  lemma {:induction false} NetworkOrder(x: nat, k: nat, i: nat)
    requires i < k
    ensures ToBytes(x, k)[i] == x / Pow256(k - 1 - i) % 256
    decreases k
  {
    if i < k - 1 {
      NetworkOrder(x / 256, k - 1, i);
      DivDiv(x, 256, Pow256(k - 2 - i));
    }
  }

  /** Where the first CR LF starts, or the length if there is none. */
  ghost predicate IsFirstCrlf(s: seq<Byte>, at: nat) {
    && at + 1 < |s| && s[at] == 13 && s[at + 1] == 10
    && forall j :: 0 <= j < at ==> !(s[j] == 13 && s[j + 1] == 10)
  }

  ghost predicate HasCrlf(s: seq<Byte>) {
    exists j :: 0 <= j && j + 1 < |s| && s[j] == 13 && s[j + 1] == 10
  }

  /** `memcpy` or `std::copy` of `data` to position `at`. */
  function Written(buffer: seq<Byte>, at: nat, data: seq<Byte>): (r: seq<Byte>)
    requires at + |data| <= |buffer|
    ensures |r| == |buffer|
    ensures r[at..at + |data|] == data
    ensures r[..at] == buffer[..at] && r[at + |data|..] == buffer[at + |data|..]
  {
    buffer[..at] + data + buffer[at + |data|..]
  }

  /** A write that starts where the kept bytes end. */
  lemma WrittenAfter(buffer: seq<Byte>, lo: nat, at: nat, data: seq<Byte>)
    requires lo <= at && at + |data| <= |buffer|
    ensures Written(buffer, at, data)[lo..at + |data|] == buffer[lo..at] + data
  {
  }

  class MsgBuffer {
    var head: nat
    var initCap: nat
    var buffer: seq<Byte>
    var tail: nat

    ghost predicate Valid()
      reads this
    {
      head <= tail <= |buffer| && |buffer| >= BUFFER_OFFSET
    }

    /** Valid, and still valid after the vector is shrunk to its initial capacity. */
    ghost predicate Sound()
      reads this
    {
      Valid() && initCap >= BUFFER_OFFSET
    }

    /** The indices without the bytes. */
    ghost function Indices(): Shape
      reads this
    {
      Shape(head, tail, |buffer|, initCap)
    }

    /** The vector is not shrunk when the buffer is emptied, or not below the front gap. */
    ghost predicate SurvivesEmptying()
      reads this
    {
      |buffer| <= initCap * 2 || initCap >= BUFFER_OFFSET
    }

    /** The readable bytes. */
    ghost function Contents(): seq<Byte>
      reads this
      requires Valid()
    {
      buffer[head..tail]
    }

    constructor (len: nat)
      ensures Indices() == New(len)
      ensures Valid() && Contents() == [] && WritableBytes() == len
      ensures Sound() <==> len >= BUFFER_OFFSET
    {
      head := BUFFER_OFFSET;
      initCap := len;
      buffer := seq(len + BUFFER_OFFSET, _ => 0);
      tail := BUFFER_OFFSET;
    }

    function ReadableBytes(): (n: nat)
      reads this
      requires Valid()
      ensures n == |Contents()|
    {
      tail - head
    }

    function WritableBytes(): nat
      reads this
      requires Valid()
    {
      |buffer| - tail
    }

    /** 0 if a call that needs `len` bytes returns at once, 1 if it has to move or copy. */
    ghost function Work(len: nat): nat
      reads this
      requires Valid()
    {
      if WritableBytes() > len then 0 else 1
    }

    // ---------------------------------------------------------------- room

    /** Afterwards `len` bytes fit. Compaction needs `head >= 8`, so it never moves bytes to the
        right; growth appends to a buffer that has room already, so it recurs once at most. */
    method EnsureWritableBytes(len: nat)
      requires Valid()
      modifies this
      ensures Valid() && Contents() == old(Contents()) && WritableBytes() >= len
      ensures Indices() == Ensured(old(Indices()), len)
      ensures old(WritableBytes()) > len ==> unchanged(this)
      ensures old(WritableBytes()) <= len ==> head == BUFFER_OFFSET
      ensures |buffer| == old(|buffer|) ==> head <= old(head)
      ensures |buffer| == old(|buffer|) <==>
              old(WritableBytes()) > len || old(head + WritableBytes()) >= len + BUFFER_OFFSET
      ensures |buffer| == old(|buffer|) || |buffer| >= 2 * old(|buffer|) + BUFFER_OFFSET
      ensures old(Sound()) ==> Sound()
      decreases Work(len), 0
    {
      if WritableBytes() > len {
        return;
      }
      if head + WritableBytes() >= len + BUFFER_OFFSET {
        var n := tail - head;
        buffer := Written(buffer, BUFFER_OFFSET, buffer[head..tail]);
        tail := BUFFER_OFFSET + n;
        head := BUFFER_OFFSET;
        return;
      }
      var newLen := if |buffer| * 2 > BUFFER_OFFSET + ReadableBytes() + len
                    then |buffer| * 2 else BUFFER_OFFSET + ReadableBytes() + len;
      var newBuffer := new MsgBuffer(newLen);
      newBuffer.AppendBuffer(this);
      Swap(newBuffer);
    }

    method Swap(other: MsgBuffer)
      modifies this, other
      ensures head == old(other.head) && tail == old(other.tail)
      ensures buffer == old(other.buffer) && initCap == old(other.initCap)
      ensures other.head == old(head) && other.tail == old(tail)
      ensures other.buffer == old(buffer) && other.initCap == old(initCap)
    {
      buffer, other.buffer := other.buffer, buffer;
      head, other.head := other.head, head;
      tail, other.tail := other.tail, tail;
      initCap, other.initCap := other.initCap, initCap;
    }

    // ---------------------------------------------------------------- writing

    /** `append(const MsgBuffer &)`; the argument may be this very buffer. */
    method AppendBuffer(other: MsgBuffer)
      requires Valid() && other.Valid()
      modifies this
      ensures Valid() && Contents() == old(Contents()) + old(other.Contents())
      ensures Indices() == Appended(old(Indices()), old(other.ReadableBytes()))
      ensures old(Sound()) ==> Sound()
      decreases Work(other.ReadableBytes()), 1
    {
      EnsureWritableBytes(other.ReadableBytes());
      var n := other.ReadableBytes();
      WrittenAfter(buffer, head, tail, other.buffer[other.head..other.tail]);
      buffer := Written(buffer, tail, other.buffer[other.head..other.tail]);
      tail := tail + n;
    }

    method Append(data: seq<Byte>)
      requires Valid()
      modifies this
      ensures Valid() && Contents() == old(Contents()) + data
      ensures Indices() == Appended(old(Indices()), |data|)
      ensures old(Sound()) ==> Sound()
    {
      EnsureWritableBytes(|data|);
      WrittenAfter(buffer, head, tail, data);
      buffer := Written(buffer, tail, data);
      tail := tail + |data|;
    }

    /** The gap in front, the room behind, or a new buffer, in this order. */
    method AddInFront(data: seq<Byte>)
      requires Valid()
      modifies this
      ensures Valid() && Contents() == data + old(Contents())
      ensures Indices() == Prepended(old(Indices()), |data|)
      ensures old(Sound()) ==> Sound()
    {
      var len := |data|;
      if head >= len {
        WrittenBefore(buffer, head - len, data, tail);
        buffer := Written(buffer, head - len, data);
        head := head - len;
        return;
      }
      if len <= WritableBytes() {
        ShiftInFront(data);
        return;
      }
      GrowInFront(data);
    }

    /** The middle branch of `addInFront`: the readable bytes move right to make room. */
    method ShiftInFront(data: seq<Byte>)
      requires Valid() && |data| <= WritableBytes()
      modifies this
      ensures Valid() && Contents() == data + old(Contents())
      ensures Indices() == old(Indices()).(tail := old(tail) + |data|)
    {
      ShiftedRight(buffer, head, tail, data);
      buffer := Written(buffer, head + |data|, buffer[head..tail]);
      buffer := Written(buffer, head, data);
      tail := tail + |data|;
    }

    /** The last branch of `addInFront`: a new buffer takes `data`, then the old contents. */
    method GrowInFront(data: seq<Byte>)
      requires Valid()
      modifies this
      ensures Valid() && Contents() == data + old(Contents())
      ensures var need := |data| + old(ReadableBytes());
              Indices() == Appended(Appended(New(if need < old(initCap) then old(initCap) else need), |data|),
                                    old(ReadableBytes()))
      ensures old(Sound()) ==> Sound()
    {
      var need := |data| + ReadableBytes();
      var newBuffer := new MsgBuffer(if need < initCap then initCap else need);
      newBuffer.Append(data);
      assert newBuffer.Contents() == data;
      newBuffer.AppendBuffer(this);
      Swap(newBuffer);
    }

    /** The caller has written `data` behind the tail through `beginWrite()`. */
    method HasWritten(data: seq<Byte>)
      requires Valid() && |data| <= WritableBytes()
      modifies this
      ensures Valid() && Contents() == old(Contents()) + data
      ensures Indices() == old(Indices()).(tail := old(tail) + |data|)
      ensures old(Sound()) ==> Sound()
    {
      WrittenAfter(buffer, head, tail, data);
      buffer := Written(buffer, tail, data);
      tail := tail + |data|;
    }

    /** `readv` into the room behind the tail and, if that is under 8192 bytes, into 8192 bytes
        on the stack. `delivered` is what the kernel wrote, or nothing on an error. */
    method ReadFd(delivered: Option<seq<Byte>>) returns (n: int)
      requires Valid()
      requires delivered.Some? ==>
                 |delivered.value| <= WritableBytes() + if WritableBytes() < EXT_BUFFER then EXT_BUFFER else 0
      modifies this
      ensures Valid() && n == (if delivered.Some? then |delivered.value| else -1)
      ensures Contents() == old(Contents()) + (if delivered.Some? then delivered.value else [])
      ensures Indices() == if delivered.Some? then Received(old(Indices()), |delivered.value|) else old(Indices())
      ensures old(Sound()) ==> Sound()
    {
      var writable := WritableBytes();
      if delivered.None? {
        return -1;
      }
      var data := delivered.value;
      if |data| <= writable {
        HasWritten(data);
      } else {
        HasWritten(data[..writable]);
        assert tail == |buffer|;
        Append(data[writable..]);
        assert data == data[..writable] + data[writable..];
      }
      return |data|;
    }

    // ---------------------------------------------------------------- consuming

    /** The indices survive exactly when the vector is not shrunk below the front gap. */
    method RetrieveAll()
      requires Valid()
      modifies this
      ensures Valid() <==> old(SurvivesEmptying())
      ensures Valid() ==> Contents() == []
      ensures Indices() == Emptied(old(Indices()))
    {
      if |buffer| > initCap * 2 {
        buffer := buffer[..initCap];
      }
      tail, head := BUFFER_OFFSET, BUFFER_OFFSET;
    }

    method Retrieve(len: nat)
      requires Valid()
      modifies this
      ensures Valid() <==> len < old(ReadableBytes()) || old(SurvivesEmptying())
      ensures Valid() ==> Contents() == if len < |old(Contents())| then old(Contents())[len..] else []
      ensures Indices() == Retrieved(old(Indices()), len)
    {
      if len >= ReadableBytes() {
        RetrieveAll();
        return;
      }
      head := head + len;
    }

    method Read(len: nat) returns (data: seq<Byte>)
      requires Valid()
      modifies this
      ensures data == if len < |old(Contents())| then old(Contents())[..len] else old(Contents())
      ensures Valid() <==> len < |old(Contents())| || old(SurvivesEmptying())
      ensures Valid() ==> old(Contents()) == data + Contents()
      ensures Indices() == Retrieved(old(Indices()), len)
      ensures old(Sound()) ==> Sound()
    {
      var n := if len > ReadableBytes() then ReadableBytes() else len;
      data := buffer[head..head + n];
      assert data == Contents()[..n];
      Retrieve(n);
    }

    /** `end` is a position in the vector, between the head and the tail. */
    method RetrieveUntil(end: nat)
      requires Valid() && head <= end <= tail
      modifies this
      ensures Valid() <==> end < old(tail) || old(SurvivesEmptying())
      ensures Valid() ==> Contents() == old(buffer[end..tail])
      ensures Indices() == Retrieved(old(Indices()), end - old(head))
      ensures old(Sound()) ==> Sound()
    {
      Retrieve(end - head);
    }

    method Unwrite(offset: nat)
      requires Valid() && ReadableBytes() >= offset
      modifies this
      ensures Valid() && Contents() == old(Contents())[..|old(Contents())| - offset]
      ensures Indices() == old(Indices()).(tail := old(tail) - offset)
      ensures old(Sound()) ==> Sound()
    {
      tail := tail - offset;
    }

    /** `findCRLF`: an index into the readable bytes, or nothing. */
    method FindCrlf() returns (at: Option<nat>)
      requires Valid()
      ensures at.None? <==> !HasCrlf(Contents())
      ensures at.Some? ==> IsFirstCrlf(Contents(), at.value)
    {
      var i := 0;
      while i + 1 < tail - head
        invariant 0 <= i
        invariant forall j :: 0 <= j < i && j + 1 < tail - head ==> !(Contents()[j] == 13 && Contents()[j + 1] == 10)
      {
        if buffer[head + i] == 13 && buffer[head + i + 1] == 10 {
          return Some(i);
        }
        i := i + 1;
      }
      return None;
    }

    // ---------------------------------------------------------------- integers

    /** `appendInt32` is `k == 4`, `appendInt64` is `k == 8`. */
    method AppendInt(x: nat, k: nat)
      requires Valid() && x < Pow256(k)
      modifies this
      ensures Valid() && Contents() == old(Contents()) + ToBytes(x, k)
      ensures Indices() == Appended(old(Indices()), k)
      ensures old(Sound()) ==> Sound()
    {
      Append(ToBytes(x, k));
    }

    method AddInFrontInt(x: nat, k: nat)
      requires Valid() && x < Pow256(k)
      modifies this
      ensures Valid() && Contents() == ToBytes(x, k) + old(Contents())
      ensures Indices() == Prepended(old(Indices()), k)
      ensures old(Sound()) ==> Sound()
    {
      AddInFront(ToBytes(x, k));
    }

    method PeekInt(k: nat) returns (x: nat)
      requires Valid() && ReadableBytes() >= k
      ensures x == FromBytes(Contents()[..k]) && x < Pow256(k)
    {
      ToFromBytes(Contents()[..k]);
      assert buffer[head..head + k] == Contents()[..k];
      x := FromBytes(buffer[head..head + k]);
    }

    /** What `AppendInt` or `AddInFrontInt` has put in front of `rest` comes out unchanged. */
    method ReadInt(k: nat) returns (x: nat)
      requires Valid() && ReadableBytes() >= k
      modifies this
      ensures x == FromBytes(old(Contents())[..k])
      ensures Valid() <==> k < |old(Contents())| || old(SurvivesEmptying())
      ensures Valid() ==> Contents() == old(Contents())[k..]
      ensures Indices() == Retrieved(old(Indices()), k)
      ensures old(Sound()) ==> Sound()
      ensures forall written: nat, rest :: written < Pow256(k) && old(Contents()) == ToBytes(written, k) + rest ==>
                x == written && (Valid() ==> Contents() == rest)
    {
      x := PeekInt(k);
      Retrieve(k);
      forall written: nat, rest | written < Pow256(k) && old(Contents()) == ToBytes(written, k) + rest
        ensures x == written && (Valid() ==> Contents() == rest)
      {
        FromToBytes(written, k);
        assert old(Contents())[..k] == ToBytes(written, k);
      }
    }
  }

  /** Moving the readable bytes to the right makes room for `data` in front of them. */
  lemma ShiftedRight(buffer: seq<Byte>, head: nat, tail: nat, data: seq<Byte>)
    requires head <= tail && tail + |data| <= |buffer|
    ensures Written(Written(buffer, head + |data|, buffer[head..tail]), head, data)[head..tail + |data|] ==
            data + buffer[head..tail]
  {
  }

  /** A write that ends where the kept bytes start. */
  lemma WrittenBefore(buffer: seq<Byte>, at: nat, data: seq<Byte>, hi: nat)
    requires at + |data| <= hi <= |buffer|
    ensures Written(buffer, at, data)[at..hi] == data + buffer[at + |data|..hi]
  {
  }
}
