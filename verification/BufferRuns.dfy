/** Any sequence of calls on a buffer is the same sequence of calls on a plain sequence of bytes. */
module BufferRuns {
  import opened Options
  import opened BufferShape
  import opened MsgBuffers

  /** A call on a buffer. `delivered` is what the kernel has written, or nothing on an error. */
  datatype Op =
    | Append(data: seq<Byte>)
    | AppendSelf
    | AddInFront(data: seq<Byte>)
    | AppendInt(x: nat, k: nat)
    | AddInFrontInt(x: nat, k: nat)
    | EnsureWritable(len: nat)
    | HasWritten(data: seq<Byte>)
    | ReadFd(delivered: Option<seq<Byte>>)
    | Retrieve(len: nat)
    | RetrieveAll
    | RetrieveUntil(len: nat)
    | Read(len: nat)
    | ReadInt(k: nat)
    | Unwrite(len: nat)

  // ---------------------------------------------------------------- on a plain sequence

  /** All but the first `n` bytes. */
  function Dropped(s: seq<Byte>, n: nat): seq<Byte> {
    if n < |s| then s[n..] else []
  }

  function Applied(s: seq<Byte>, op: Op): seq<Byte> {
    match op
    case Append(data) => s + data
    case AppendSelf => s + s
    case AddInFront(data) => data + s
    case AppendInt(x, k) => s + ToBytes(x, k)
    case AddInFrontInt(x, k) => ToBytes(x, k) + s
    case EnsureWritable(_) => s
    case HasWritten(data) => s + data
    case ReadFd(delivered) => if delivered.Some? then s + delivered.value else s
    case Retrieve(len) => Dropped(s, len)
    case RetrieveAll => []
    case RetrieveUntil(len) => Dropped(s, len)
    case Read(len) => Dropped(s, len)
    case ReadInt(k) => Dropped(s, k)
    case Unwrite(len) => if len < |s| then s[..|s| - len] else []
  }

  /** What the call gives to the caller; an integer as its bytes in network order. */
  function Returned(s: seq<Byte>, op: Op): seq<Byte> {
    match op
    case Read(len) => if len < |s| then s[..len] else s
    case ReadInt(k) => if k < |s| then s[..k] else s
    case _ => []
  }

  function Run(s: seq<Byte>, ops: seq<Op>): seq<Byte>
    decreases |ops|
  {
    if ops == [] then s else Run(Applied(s, ops[0]), ops[1..])
  }

  /** What the calls of a run give to the caller, one after the other. */
  function Output(s: seq<Byte>, ops: seq<Op>): seq<Byte>
    decreases |ops|
  {
    if ops == [] then [] else Returned(s, ops[0]) + Output(Applied(s, ops[0]), ops[1..])
  }

  // ---------------------------------------------------------------- on the indices

  /** What the source asserts of a call, and how much the kernel can deliver. */
  predicate Legal(b: Shape, op: Op)
    requires Fits(b)
  {
    match op
    case AppendInt(x, k) => x < Pow256(k)
    case AddInFrontInt(x, k) => x < Pow256(k)
    case HasWritten(data) => |data| <= b.size - b.tail
    case ReadFd(delivered) =>
      delivered.Some? ==>
        |delivered.value| <= b.size - b.tail + if b.size - b.tail < EXT_BUFFER then EXT_BUFFER else 0
    case RetrieveUntil(len) => len <= Readable(b)
    case ReadInt(k) => k <= Readable(b)
    case Unwrite(len) => len <= Readable(b)
    case _ => true
  }

  function Moved(b: Shape, op: Op): (r: Shape)
    requires Safe(b) && Legal(b, op)
    ensures Safe(r)
  {
    match op
    case Append(data) => Appended(b, |data|)
    case AppendSelf => Appended(b, Readable(b))
    case AddInFront(data) => Prepended(b, |data|)
    case AppendInt(_, k) => Appended(b, k)
    case AddInFrontInt(_, k) => Prepended(b, k)
    case EnsureWritable(len) => Ensured(b, len)
    case HasWritten(data) => b.(tail := b.tail + |data|)
    case ReadFd(delivered) => if delivered.Some? then Received(b, |delivered.value|) else b
    case Retrieve(len) => Retrieved(b, len)
    case RetrieveAll => Emptied(b)
    case RetrieveUntil(len) => Retrieved(b, len)
    case Read(len) => Retrieved(b, len)
    case ReadInt(k) => Retrieved(b, k)
    case Unwrite(len) => b.(tail := b.tail - len)
  }

  predicate LegalRun(b: Shape, ops: seq<Op>)
    requires Safe(b)
    decreases |ops|
  {
    ops == [] || (Legal(b, ops[0]) && LegalRun(Moved(b, ops[0]), ops[1..]))
  }

  // ---------------------------------------------------------------- the object

  /** One call. */
  method Call(b: MsgBuffer, op: Op) returns (out: seq<Byte>)
    requires b.Sound() && Legal(b.Indices(), op)
    modifies b
    ensures b.Sound() && b.Indices() == Moved(old(b.Indices()), op)
    ensures b.Contents() == Applied(old(b.Contents()), op) && out == Returned(old(b.Contents()), op)
  {
    out := [];
    match op {
      case Retrieve(len) => b.Retrieve(len);
      case RetrieveAll => b.RetrieveAll();
      case RetrieveUntil(len) => b.RetrieveUntil(b.head + len);
      case Read(len) => out := b.Read(len);
      case ReadInt(k) => out := CallReadInt(b, k);
      case Unwrite(len) => b.Unwrite(len);
      case _ => CallPut(b, op);
    }
  }

  predicate Puts(op: Op) {
    op.Append? || op.AppendSelf? || op.AddInFront? || op.AppendInt? || op.AddInFrontInt? || op.EnsureWritable?
    || op.HasWritten? || op.ReadFd?
  }

  method CallPut(b: MsgBuffer, op: Op)
    requires b.Sound() && Legal(b.Indices(), op) && Puts(op)
    modifies b
    ensures b.Sound() && b.Indices() == Moved(old(b.Indices()), op)
    ensures b.Contents() == Applied(old(b.Contents()), op)
  {
    match op {
      case Append(data) => b.Append(data);
      case AppendSelf => b.AppendBuffer(b);
      case AddInFront(data) => b.AddInFront(data);
      case AppendInt(x, k) => b.AppendInt(x, k);
      case AddInFrontInt(x, k) => b.AddInFrontInt(x, k);
      case EnsureWritable(len) => b.EnsureWritableBytes(len);
      case HasWritten(data) => b.HasWritten(data);
      case ReadFd(delivered) => var _ := b.ReadFd(delivered);
    }
  }

  method CallReadInt(b: MsgBuffer, k: nat) returns (out: seq<Byte>)
    requires b.Sound() && k <= b.ReadableBytes()
    modifies b
    ensures b.Sound() && b.Indices() == Retrieved(old(b.Indices()), k)
    ensures b.Contents() == Dropped(old(b.Contents()), k) && out == old(b.Contents())[..k]
  {
    ToFromBytes(b.Contents()[..k]);
    var x := b.ReadInt(k);
    out := ToBytes(x, k);
  }

  /** From any state with an initial capacity of at least 8, any sequence of calls acts like the
      same calls on the readable bytes, gives the same results, and keeps the indices inside the
      vector. */
  method RunAll(b: MsgBuffer, ops: seq<Op>) returns (out: seq<Byte>)
    requires b.Sound() && LegalRun(b.Indices(), ops)
    modifies b
    ensures b.Sound() && b.head <= b.tail <= |b.buffer|
    ensures b.Contents() == Run(old(b.Contents()), ops) && out == Output(old(b.Contents()), ops)
  {
    out := [];
    for i := 0 to |ops|
      invariant b.Sound() && LegalRun(b.Indices(), ops[i..])
      invariant Run(b.Contents(), ops[i..]) == Run(old(b.Contents()), ops)
      invariant out + Output(b.Contents(), ops[i..]) == Output(old(b.Contents()), ops)
    {
      ghost var s := b.Contents();
      assert ops[i..][0] == ops[i] && ops[i..][1..] == ops[i + 1..];
      var returned := Call(b, ops[i]);
      ghost var rest := Output(b.Contents(), ops[i + 1..]);
      assert out + (returned + rest) == out + returned + rest;
      out := out + returned;
    }
  }

  // ---------------------------------------------------------------- a pipe

  /** Bytes are only put behind and read from the front. */
  predicate PutsOrReads(ops: seq<Op>) {
    forall i :: 0 <= i < |ops| ==>
      ops[i].Append? || ops[i].AppendInt? || ops[i].HasWritten? || ops[i].ReadFd? || ops[i].EnsureWritable?
      || ops[i].Read? || ops[i].ReadInt?
  }

  function PutBy(op: Op): seq<Byte> {
    match op
    case Append(data) => data
    case AppendInt(x, k) => ToBytes(x, k)
    case HasWritten(data) => data
    case ReadFd(delivered) => if delivered.Some? then delivered.value else []
    case _ => []
  }

  function Put(ops: seq<Op>): seq<Byte>
    decreases |ops|
  {
    if ops == [] then [] else PutBy(ops[0]) + Put(ops[1..])
  }

  lemma PipeStep(s: seq<Byte>, op: Op)
    requires PutsOrReads([op])
    ensures Returned(s, op) + Applied(s, op) == s + PutBy(op)
  {
    assert [op][0] == op;
  }

  lemma Regrouped(s: seq<Byte>, out: seq<Byte>, put: seq<Byte>, s': seq<Byte>, out': seq<Byte>, put': seq<Byte>,
                  end: seq<Byte>)
    requires out + s' == s + put && out' + end == s' + put'
    ensures out + out' + end == s + (put + put')
  {
    calc {
      out + out' + end;
      out + (out' + end);
      out + (s' + put');
      (out + s') + put';
      (s + put) + put';
      s + (put + put');
    }
  }

  /** What has been read, followed by what is left, is what was there followed by what was put:
      nothing is lost, repeated or reordered. */
  lemma {:induction false} Pipe(s: seq<Byte>, ops: seq<Op>)
    requires PutsOrReads(ops)
    ensures Output(s, ops) + Run(s, ops) == s + Put(ops)
    decreases |ops|
  {
    if ops != [] {
      var op, rest := ops[0], ops[1..];
      PipeStep(s, op);
      Pipe(Applied(s, op), rest);
      Regrouped(s, Returned(s, op), PutBy(op), Applied(s, op), Output(Applied(s, op), rest), Put(rest),
                Run(Applied(s, op), rest));
    }
  }
}
