/**
  The UTF-8 codec of xiaoNet/utils/Utilities.cpp, for forms of one to three bytes. Bytes are
  8-bit words; a wide character is a 32-bit word.
 */
module Utf8 {

  type Bytes = seq<bv8>
  type Wide = seq<bv32>

  // ---------------------------------------------------------------- one character

  /** `wchar_t` is signed, so words with the top bit set compare as small. */
  predicate IsLow(u: bv32) {
    u <= 0x7F || u >= 0x80000000
  }

  function EncodeOne(u: bv32): (b: Bytes)
    ensures 1 <= |b| <= 3
  {
    if IsLow(u) then [Low8(u)]
    else if u <= 0x7FF then [Low8(0xC0 | ((u >> 6) & 0x1F)), Low8(0x80 | (u & 0x3F))]
    else [Low8(0xE0 | ((u >> 12) & 0x0F)), Low8(0x80 | ((u >> 6) & 0x3F)), Low8(0x80 | (u & 0x3F))]
  }

  /** `static_cast<char>`. */
  function Low8(u: bv32): bv8 {
    (u & 0xFF) as bv8
  }

  /** How many bytes the first byte asks for, or 0 if it starts no form. */
  function Need(b: bv8): (n: nat)
    ensures n <= 3
  {
    if b & 0x80 == 0 then 1
    else if b & 0xE0 == 0xC0 then 2
    else if b & 0xF0 == 0xE0 then 3
    else 0
  }

  function One(a: bv8): bv32 {
    a as bv32
  }

  function Two(a: bv8, b: bv8): bv32 {
    ((a & 0x1F) as bv32 << 6) | ((b & 0x3F) as bv32)
  }

  function Three(a: bv8, b: bv8, c: bv8): bv32 {
    ((a & 0x0F) as bv32 << 12) | ((b & 0x3F) as bv32 << 6) | ((c & 0x3F) as bv32)
  }

  lemma EncodeTwo(u: bv32)
    requires 0x7F < u <= 0x7FF
    ensures Low8(0xC0 | ((u >> 6) & 0x1F)) & 0x80 != 0
    ensures Low8(0xC0 | ((u >> 6) & 0x1F)) & 0xE0 == 0xC0
    ensures Two(Low8(0xC0 | ((u >> 6) & 0x1F)), Low8(0x80 | (u & 0x3F))) == u
  {
  }

  lemma EncodeThree(u: bv32)
    requires 0x7FF < u <= 0xFFFF
    ensures Low8(0xE0 | ((u >> 12) & 0x0F)) & 0xF0 == 0xE0
    ensures Low8(0xE0 | ((u >> 12) & 0x0F)) & 0x80 != 0
    ensures Low8(0xE0 | ((u >> 12) & 0x0F)) & 0xE0 != 0xC0
    ensures Three(Low8(0xE0 | ((u >> 12) & 0x0F)), Low8(0x80 | ((u >> 6) & 0x3F)), Low8(0x80 | (u & 0x3F))) == u
  {
  }

  lemma EncodeLow(u: bv32)
    requires u <= 0x7F
    ensures Low8(u) & 0x80 == 0 && One(Low8(u)) == u
  {
  }

  lemma UnitsSmall(a: bv8, b: bv8, c: bv8)
    ensures One(a) <= 0xFFFF && Two(a, b) <= 0xFFFF && Three(a, b, c) <= 0xFFFF
  {
  }

  // ---------------------------------------------------------------- whole strings

  function Encode(w: Wide): Bytes {
    if w == [] then [] else EncodeOne(w[0]) + Encode(w[1..])
  }

  datatype Decoded = Malformed | Text(w: Wide)

  function Unit(b: Bytes, n: nat): bv32
    requires 1 <= n <= 3 && n <= |b|
  {
    if n == 1 then One(b[0]) else if n == 2 then Two(b[0], b[1]) else Three(b[0], b[1], b[2])
  }

  function Parse(b: Bytes): Decoded {
    if b == [] then
      Text([])
    else
      var n := Need(b[0]);
      if n == 0 || n > |b| then
        Malformed
      else
        match Parse(b[n..])
        case Malformed => Malformed
        case Text(w) => Text([Unit(b, n)] + w)
  }

  /** A malformed string decodes to the empty one. */
  function Decode(b: Bytes): Wide {
    match Parse(b)
    case Malformed => []
    case Text(w) => w
  }

  // ---------------------------------------------------------------- forms

  function Prepend(w: Wide, d: Decoded): Decoded {
    if d.Malformed? then Malformed else Text(w + d.w)
  }

  lemma PrependOne(w: Wide, u: bv32, d: Decoded)
    ensures Prepend(w, Prepend([u], d)) == Prepend(w + [u], d)
  {
  }

  /** No form stands at `at`: its first byte starts none, or bytes are missing. */
  predicate BadAt(b: Bytes, at: nat)
    requires at < |b|
  {
    Need(b[at]) == 0 || at + Need(b[at]) > |b|
  }

  /** `cuts` are the places where forms follow one another from the beginning. */
  ghost predicate AreCuts(b: Bytes, cuts: seq<nat>) {
    && cuts != [] && cuts[0] == 0 && (forall i :: 0 <= i < |cuts| ==> cuts[i] <= |b|)
    && (forall i :: 0 <= i < |cuts| - 1 ==> IsForm(b, cuts[i], cuts[i + 1]))
  }

  predicate IsForm(b: Bytes, from: nat, to: nat) {
    from < to <= |b| && Need(b[from]) == to - from
  }

  lemma OneForm(b: Bytes, from: nat, to: nat)
    requires IsForm(b, from, to)
    ensures Parse(b[from..]) == Prepend([Unit(b[from..], to - from)], Parse(b[to..]))
  {
    assert b[from..][to - from..] == b[to..];
  }

  ghost predicate AreUnits(b: Bytes, cuts: seq<nat>, w: Wide)
    requires AreCuts(b, cuts)
  {
    && |w| == |cuts| - 1
    && forall i :: 0 <= i < |w| ==> IsForm(b, cuts[i], cuts[i + 1]) && w[i] == Unit(b[cuts[i]..], cuts[i + 1] - cuts[i])
  }

  lemma FewerCuts(b: Bytes, cuts: seq<nat>)
    requires AreCuts(b, cuts) && |cuts| > 1
    ensures AreCuts(b, cuts[..|cuts| - 1]) && IsForm(b, cuts[|cuts| - 2], cuts[|cuts| - 1])
  {
  }

  lemma UnitsNext(b: Bytes, cuts: seq<nat>, w: Wide, u: bv32)
    requires AreCuts(b, cuts) && |cuts| > 1
    requires AreCuts(b, cuts[..|cuts| - 1]) && AreUnits(b, cuts[..|cuts| - 1], w)
    requires var from, to := cuts[|cuts| - 2], cuts[|cuts| - 1]; IsForm(b, from, to) && u == Unit(b[from..], to - from)
    ensures AreUnits(b, cuts, w + [u])
  {
  }

  lemma {:induction false} ParseAlong(b: Bytes, cuts: seq<nat>) returns (w: Wide)
    requires AreCuts(b, cuts)
    ensures AreUnits(b, cuts, w) && Parse(b) == Prepend(w, Parse(b[cuts[|cuts| - 1]..]))
    decreases |cuts|
  {
    if |cuts| == 1 {
      w := [];
      assert b[0..] == b;
    } else {
      FewerCuts(b, cuts);
      var before := ParseAlong(b, cuts[..|cuts| - 1]);
      w := OneMore(b, cuts, before);
    }
  }

  lemma OneMore(b: Bytes, cuts: seq<nat>, before: Wide) returns (w: Wide)
    requires AreCuts(b, cuts) && |cuts| > 1
    requires AreCuts(b, cuts[..|cuts| - 1]) && AreUnits(b, cuts[..|cuts| - 1], before)
    requires Parse(b) == Prepend(before, Parse(b[cuts[|cuts| - 2]..]))
    ensures AreUnits(b, cuts, w) && Parse(b) == Prepend(w, Parse(b[cuts[|cuts| - 1]..]))
  {
    var from, to := cuts[|cuts| - 2], cuts[|cuts| - 1];
    FewerCuts(b, cuts);
    OneForm(b, from, to);
    var u := Unit(b[from..], to - from);
    PrependOne(before, u, Parse(b[to..]));
    w := before + [u];
    UnitsNext(b, cuts, before, u);
  }

  /** The forms up to the end, or to the first place where there is none. */
  lemma CutAll(b: Bytes) returns (cuts: seq<nat>)
    ensures AreCuts(b, cuts)
    ensures var end := cuts[|cuts| - 1]; end == |b| || BadAt(b, end)
  {
    cuts := [0];
    while cuts[|cuts| - 1] < |b| && !BadAt(b, cuts[|cuts| - 1])
      invariant AreCuts(b, cuts)
      decreases |b| - cuts[|cuts| - 1]
    {
      cuts := cuts + [cuts[|cuts| - 1] + Need(b[cuts[|cuts| - 1]])];
    }
  }

  /** Forms lead to a place where there is none. */
  ghost predicate Breaks(b: Bytes) {
    exists cuts :: BreaksAfter(b, cuts)
  }

  ghost predicate BreaksAfter(b: Bytes, cuts: seq<nat>) {
    AreCuts(b, cuts) && cuts[|cuts| - 1] < |b| && BadAt(b, cuts[|cuts| - 1])
  }

  /** `cuts` divide all of the bytes into forms. */
  ghost predicate Divides(b: Bytes, cuts: seq<nat>) {
    AreCuts(b, cuts) && cuts[|cuts| - 1] == |b|
  }

  lemma DividedDecodes(b: Bytes, cuts: seq<nat>)
    requires Divides(b, cuts)
    ensures Parse(b).Text? && AreUnits(b, cuts, Decode(b))
  {
    var w := ParseAlong(b, cuts);
    assert b[|b|..] == [] && w + [] == w;
  }

  lemma BrokenDecodes(b: Bytes, cuts: seq<nat>)
    requires BreaksAfter(b, cuts)
    ensures Parse(b).Malformed?
  {
    var w := ParseAlong(b, cuts);
  }

  /** The result is empty if and only if the bytes are, or some form starts wrongly or is cut short;
      otherwise it has one unit for each form. */
  lemma DecodeExactly(b: Bytes)
    ensures Decode(b) == [] <==> b == [] || Breaks(b)
    ensures !Breaks(b) <==> exists cuts :: Divides(b, cuts)
    ensures forall cuts :: Divides(b, cuts) ==> AreUnits(b, cuts, Decode(b))
  {
    forall cuts | Divides(b, cuts) ensures Parse(b).Text? && AreUnits(b, cuts, Decode(b)) {
      DividedDecodes(b, cuts);
    }
    forall cuts | BreaksAfter(b, cuts) ensures Parse(b).Malformed? {
      BrokenDecodes(b, cuts);
    }
    var cuts := CutAll(b);
    assert Divides(b, cuts) || BreaksAfter(b, cuts);
  }

  /** The character number of a form (section 3 of RFC 3629), from the bits that follow its marks. */
  lemma CharacterNumber(a: bv8, b: bv8, c: bv8)
    ensures a <= 0x7F ==> Need(a) == 1 && One(a) == a as bv32
    ensures 0xC0 <= a <= 0xDF && IsTail(b) ==>
              Need(a) == 2 && Two(a, b) == (a - 0xC0) as bv32 * 64 + (b - 0x80) as bv32
    ensures 0xE0 <= a <= 0xEF && IsTail(b) && IsTail(c) ==>
              && Need(a) == 3
              && Three(a, b, c) == (a - 0xE0) as bv32 * 4096 + (b - 0x80) as bv32 * 64 + (c - 0x80) as bv32
    ensures 0x80 <= a <= 0xBF || 0xF0 <= a ==> Need(a) == 0
  {
  }

  /** How long a form is, and what is left of a unit that has none: the low byte of a negative one,
      the low 16 bits of one too large. */
  lemma EncodedForm(u: bv32)
    ensures var b := EncodeOne(u);
            && (|b| == 1 <==> u <= 0x7F || u >= 0x80000000) && (|b| == 2 <==> 0x7F < u <= 0x7FF)
            && (|b| == 1 ==> One(b[0]) == u & 0xFF)
            && (|b| == 2 ==> Two(b[0], b[1]) == u)
            && (|b| == 3 ==> Three(b[0], b[1], b[2]) == u & 0xFFFF)
  {
    ThreeLow(u);
    if 0x7F < u <= 0x7FF {
      EncodeTwo(u);
    }
  }

  lemma ThreeLow(u: bv32)
    ensures One(Low8(u)) == u & 0xFF
    ensures Three(Low8(0xE0 | ((u >> 12) & 0x0F)), Low8(0x80 | ((u >> 6) & 0x3F)), Low8(0x80 | (u & 0x3F))) ==
            u & 0xFFFF
  {
  }

  ghost predicate InRange(w: Wide) {
    forall i :: 0 <= i < |w| ==> w[i] <= 0xFFFF
  }

  predicate IsTail(b: bv8) {
    b & 0xC0 == 0x80
  }

  /** The shortest forms of section 4 of RFC 3629 up to three bytes, surrogates included. */
  predicate ShortestForm(b: Bytes, n: nat)
    requires 1 <= n <= 3 && n <= |b|
  {
    if n == 1 then b[0] <= 0x7F
    else if n == 2 then 0xC2 <= b[0] <= 0xDF && IsTail(b[1])
    else 0xE0 <= b[0] <= 0xEF && IsTail(b[1]) && IsTail(b[2]) && (b[0] == 0xE0 ==> b[1] >= 0xA0)
  }

  predicate Canonical(b: Bytes) {
    b == [] ||
    var n := Need(b[0]);
    n > 0 && n <= |b| && ShortestForm(b, n) && Canonical(b[n..])
  }

  // ---------------------------------------------------------------- the loops

  /** `utf16Toutf8`. */
  method Utf16ToUtf8(w: Wide) returns (b: Bytes)
    ensures b == Encode(w)
  {
    b := [];
    var i := 0;
    while i < |w|
      invariant 0 <= i <= |w|
      invariant b + Encode(w[i..]) == Encode(w)
    {
      b := b + EncodeOne(w[i]);
      assert w[i..][1..] == w[i + 1..];
      i := i + 1;
    }
  }

  /** `utf8Toutf16`: an index moves by the length of each form; any error returns nothing. */
  method Utf8ToUtf16(b: Bytes) returns (w: Wide)
    ensures w == Decode(b)
  {
    w := [];
    var i := 0;
    while i < |b|
      invariant 0 <= i <= |b|
      invariant Parse(b) == Prepend(w, Parse(b[i..]))
    {
      var n := Need(b[i]);
      if n == 0 || i + n > |b| {
        return [];
      }
      assert b[i..][n..] == b[i + n..];
      PrependOne(w, Unit(b[i..], n), Parse(b[i + n..]));
      w := w + [Unit(b[i..], n)];
      i := i + n;
    }
  }

  // ---------------------------------------------------------------- the pair

  /** One encoded character in front of `rest` is parsed back and leaves `rest`. */
  lemma ParseOne(u: bv32, rest: Bytes)
    requires u <= 0xFFFF
    ensures var b, n := EncodeOne(u) + rest, |EncodeOne(u)|;
            Need(b[0]) == n && Unit(b, n) == u && b[n..] == rest && ShortestForm(b, n)
  {
    if u <= 0x7F {
      EncodeLow(u);
    } else if u <= 0x7FF {
      EncodeTwo(u);
      ShortTwo(u);
    } else {
      EncodeThree(u);
      ShortThree(u);
    }
  }

  lemma ShortTwo(u: bv32)
    requires 0x7F < u <= 0x7FF
    ensures 0xC2 <= Low8(0xC0 | ((u >> 6) & 0x1F)) <= 0xDF && IsTail(Low8(0x80 | (u & 0x3F)))
  {
  }

  lemma ShortThree(u: bv32)
    requires 0x7FF < u <= 0xFFFF
    ensures var a, b, c := Low8(0xE0 | ((u >> 12) & 0x0F)), Low8(0x80 | ((u >> 6) & 0x3F)), Low8(0x80 | (u & 0x3F));
            0xE0 <= a <= 0xEF && IsTail(b) && IsTail(c) && (a == 0xE0 ==> b >= 0xA0)
  {
  }

  lemma {:induction false} ParseEncode(w: Wide)
    requires InRange(w)
    ensures Parse(Encode(w)) == Text(w) && Canonical(Encode(w))
  {
    if w != [] {
      ParseEncode(w[1..]);
      ParseOne(w[0], Encode(w[1..]));
      assert w == [w[0]] + w[1..];
    }
  }

  lemma {:induction false} ParsedInRange(b: Bytes)
    ensures Parse(b).Text? ==> InRange(Parse(b).w)
    decreases |b|
  {
    if b != [] {
      var n := Need(b[0]);
      if 0 < n <= |b| {
        ParsedInRange(b[n..]);
        UnitsSmall(b[0], if n > 1 then b[1] else 0, if n > 2 then b[2] else 0);
      }
    }
  }

  /** A wide string survives encoding and decoding if and only if every unit is below 0x10000. */
  lemma WideRoundTrip(w: Wide)
    ensures Decode(Encode(w)) == w <==> InRange(w)
  {
    if InRange(w) {
      ParseEncode(w);
    }
    ParsedInRange(Encode(w));
  }

  /** For any bytes, well-formed or not, decoding once says all there is to say. */
  lemma DecodeStable(b: Bytes)
    ensures Decode(Encode(Decode(b))) == Decode(b)
  {
    ParsedInRange(b);
    ParseEncode(Decode(b));
  }

  /** A shortest form is what its character is encoded to. */
  lemma EncodeUnit(b: Bytes, n: nat)
    requires 1 <= n <= 3 && n <= |b| && n == Need(b[0]) && ShortestForm(b, n)
    ensures EncodeOne(Unit(b, n)) == b[..n]
  {
    if n == 1 {
      BackOne(b[0]);
    } else if n == 2 {
      BackTwo(b[0], b[1]);
    } else {
      BackThree(b[0], b[1], b[2]);
    }
  }

  lemma BackOne(a: bv8)
    requires a <= 0x7F
    ensures EncodeOne(One(a)) == [a]
  {
  }

  lemma BackTwoRange(a: bv8, b: bv8)
    requires 0xC2 <= a <= 0xDF
    ensures 0x7F < Two(a, b) <= 0x7FF
  {
  }

  lemma BackTwoParts(a: bv8, b: bv8)
    requires 0xC2 <= a <= 0xDF && IsTail(b)
    ensures Low8(0xC0 | ((Two(a, b) >> 6) & 0x1F)) == a && Low8(0x80 | (Two(a, b) & 0x3F)) == b
  {
  }

  lemma BackTwo(a: bv8, b: bv8)
    requires 0xC2 <= a <= 0xDF && IsTail(b)
    ensures EncodeOne(Two(a, b)) == [a, b]
  {
    BackTwoRange(a, b);
    BackTwoParts(a, b);
  }

  lemma BackThreeFirst(a: bv8, b: bv8, c: bv8)
    requires 0xE0 <= a <= 0xEF
    ensures Low8(0xE0 | ((Three(a, b, c) >> 12) & 0x0F)) == a
  {
  }

  lemma BackThreeTails(a: bv8, b: bv8, c: bv8)
    requires IsTail(b) && IsTail(c)
    ensures Low8(0x80 | ((Three(a, b, c) >> 6) & 0x3F)) == b
    ensures Low8(0x80 | (Three(a, b, c) & 0x3F)) == c
  {
  }

  lemma BackThreeRange(a: bv8, b: bv8, c: bv8)
    requires 0xE0 <= a <= 0xEF && IsTail(b) && (a == 0xE0 ==> b >= 0xA0)
    ensures 0x7FF < Three(a, b, c) <= 0xFFFF
  {
  }

  lemma BackThree(a: bv8, b: bv8, c: bv8)
    requires 0xE0 <= a <= 0xEF && IsTail(b) && IsTail(c) && (a == 0xE0 ==> b >= 0xA0)
    ensures EncodeOne(Three(a, b, c)) == [a, b, c]
  {
    BackThreeRange(a, b, c);
    BackThreeFirst(a, b, c);
    BackThreeTails(a, b, c);
  }

  /** The first form of canonical bytes, and its character. */
  lemma FirstForm(b: Bytes) returns (n: nat, u: bv32)
    requires Canonical(b) && b != []
    ensures 1 <= n <= 3 && n <= |b| && Canonical(b[n..]) && EncodeOne(u) == b[..n]
    ensures Parse(b) == Prepend([u], Parse(b[n..]))
  {
    n := Need(b[0]);
    u := Unit(b, n);
    EncodeUnit(b, n);
  }

  lemma EncodeCons(u: bv32, w: Wide)
    ensures Encode([u] + w) == EncodeOne(u) + Encode(w)
  {
    assert ([u] + w)[1..] == w;
  }

  lemma TakeDrop(b: Bytes, n: nat)
    requires n <= |b|
    ensures b[..n] + b[n..] == b
  {
  }

  lemma {:induction false} EncodeParsed(b: Bytes)
    requires Canonical(b)
    ensures Parse(b).Text? && Encode(Parse(b).w) == b
    decreases |b|
  {
    if b != [] {
      var n, u := FirstForm(b);
      EncodeParsed(b[n..]);
      EncodeCons(u, Parse(b[n..]).w);
      TakeDrop(b, n);
    }
  }

  /** Bytes survive decoding and encoding if and only if they are shortest forms throughout. */
  lemma BytesRoundTrip(b: Bytes)
    ensures Encode(Decode(b)) == b <==> Canonical(b)
  {
    if Canonical(b) {
      EncodeParsed(b);
    }
    ParsedInRange(b);
    ParseEncode(Decode(b));
  }
}
