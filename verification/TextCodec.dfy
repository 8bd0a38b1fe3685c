/**
  `TextEncoder`, the streaming `TextDecoder` and `TextDecoderStream`.

  Strings are sequences of UTF-16 code units, lone surrogates included. Shifts and masks are
  written as division and remainder by powers of two, and `|` of disjoint bit fields as `+`.
 */
module TextCodec {
  import opened Bytes
  import opened Wrappers

  type Unit = u: int | 0 <= u < 0x1_0000

  const REPLACEMENT: Unit := 0xFFFD

  // ---------------------------------------------------------------- encoding

  predicate IsHigh(u: int) { 0xD800 <= u <= 0xDBFF }

  predicate IsLow(u: int) { 0xDC00 <= u <= 0xDFFF }

  /** A surrogate pair stands at the front. */
  predicate PairAt(s: seq<Unit>) { |s| >= 2 && IsHigh(s[0]) && IsLow(s[1]) }

  function Combine(hi: int, lo: int): int { 0x1_0000 + (hi - 0xD800) * 0x400 + (lo - 0xDC00) }

  /** The one to four bytes pushed for a code point (or a lone surrogate). */
  function EncodePoint(c: int): seq<Byte>
    requires 0 <= c < 0x11_0000
  {
    if c < 0x80 then [c]
    else if c < 0x800 then [0xC0 + c / 0x40, 0x80 + c % 0x40]
    else if c < 0x1_0000 then [0xE0 + c / 0x1000, 0x80 + c / 0x40 % 0x40, 0x80 + c % 0x40]
    else [0xF0 + c / 0x4_0000, 0x80 + c / 0x1000 % 0x40, 0x80 + c / 0x40 % 0x40, 0x80 + c % 0x40]
  }

  function Encode(s: seq<Unit>): seq<Byte> {
    if s == [] then []
    else if PairAt(s) then EncodePoint(Combine(s[0], s[1])) + Encode(s[2..])
    else EncodePoint(s[0]) + Encode(s[1..])
  }

  // ---------------------------------------------------------------- decoding

  /** How many bytes a sequence led by `b` takes; 0 for a byte that leads nothing. */
  function Need(b: Byte): nat {
    if b < 0x80 then 1
    else if 0xC0 <= b < 0xE0 then 2
    else if 0xE0 <= b < 0xF0 then 3
    else if 0xF0 <= b < 0xF8 then 4
    else 0
  }

  /** The sequence at the front runs past the end. */
  predicate Truncated(bytes: seq<Byte>) { bytes != [] && Need(bytes[0]) > |bytes| }

  /** `b & 0x3F`. */
  function Low6(b: int): (r: int)
    ensures 0 <= r < 0x40
  {
    b % 0x40
  }

  /** The value of the complete sequence at the front. Continuation bytes are not checked. */
  function CodePoint(bytes: seq<Byte>): (cp: int)
    requires bytes != [] && 0 < Need(bytes[0]) <= |bytes|
    ensures 0 <= cp < 0x20_0000
  {
    var b: int := bytes[0];
    if Need(b) == 1 then b
    else if Need(b) == 2 then b % 0x20 * 0x40 + Low6(bytes[1])
    else if Need(b) == 3 then b % 0x10 * 0x1000 + Low6(bytes[1]) * 0x40 + Low6(bytes[2])
    else b % 0x08 * 0x4_0000 + Low6(bytes[1]) * 0x1000 + Low6(bytes[2]) * 0x40 + Low6(bytes[3])
  }

  /** The one or two code units appended for a value. */
  function Units(cp: int): seq<Unit>
    requires 0 <= cp < 0x20_0000
  {
    if cp > 0xFFFF then [0xD800 + (cp - 0x1_0000) / 0x400, 0xDC00 + (cp - 0x1_0000) % 0x400] else [cp]
  }

  /** One round of the loop: what it appends and how many bytes it takes. */
  function First(bytes: seq<Byte>): seq<Unit>
    requires bytes != [] && !Truncated(bytes)
  {
    if Need(bytes[0]) == 0 then [REPLACEMENT] else Units(CodePoint(bytes))
  }

  function Taken(bytes: seq<Byte>): (n: nat)
    requires bytes != [] && !Truncated(bytes)
    ensures 0 < n <= |bytes|
  {
    if Need(bytes[0]) == 0 then 1 else Need(bytes[0])
  }

  /** Everything complete in `bytes`, decoded. */
  function Scan(bytes: seq<Byte>): seq<Unit> {
    if bytes == [] || Truncated(bytes) then [] else First(bytes) + Scan(bytes[Taken(bytes)..])
  }

  /** The truncated sequence left at the end. */
  function Leftover(bytes: seq<Byte>): (rest: seq<Byte>)
    ensures rest == [] || Truncated(rest)
  {
    if bytes == [] || Truncated(bytes) then bytes else Leftover(bytes[Taken(bytes)..])
  }

  /** `decode(bytes)` on a fresh decoder: a truncated sequence at the end becomes one U+FFFD. */
  function DecodeAll(bytes: seq<Byte>): seq<Unit> {
    Scan(bytes) + (if Leftover(bytes) == [] then [] else [REPLACEMENT])
  }

  /** `decode(chunk, {stream: true})` for each chunk, from pending bytes `pending`, then `decode()`. */
  function DecodeChunks(pending: seq<Byte>, chunks: seq<seq<Byte>>): seq<Unit>
    decreases |chunks|
  {
    if chunks == [] then DecodeAll(pending)
    else Scan(pending + chunks[0]) + DecodeChunks(Leftover(pending + chunks[0]), chunks[1..])
  }

  lemma FirstIsLocal(a: seq<Byte>, b: seq<Byte>)
    requires a != [] && !Truncated(a)
    ensures !Truncated(a + b) && First(a + b) == First(a) && Taken(a + b) == Taken(a)
    ensures (a + b)[Taken(a)..] == a[Taken(a)..] + b
  {
    assert forall i :: 0 <= i < |a| ==> (a + b)[i] == a[i];
  }

  /** Scanning may stop anywhere and go on from what was left over. */
  lemma {:induction false} ScanSplits(a: seq<Byte>, b: seq<Byte>)
    ensures Scan(a + b) == Scan(a) + Scan(Leftover(a) + b)
    ensures Leftover(a + b) == Leftover(Leftover(a) + b)
    decreases |a|
  {
    if a == [] || Truncated(a) {
      assert Scan(a) + Scan(a + b) == Scan(a + b);
    } else {
      FirstIsLocal(a, b);
      var rest := a[Taken(a)..];
      ScanSplits(rest, b);
      Assoc(First(a), Scan(rest), Scan(Leftover(rest) + b));
    }
  }

  /** However a byte sequence is cut into chunks, malformed and truncated input included, streaming it
      gives what decoding it whole gives. */
  lemma {:induction false} ChunkingIsInvisible(pending: seq<Byte>, chunks: seq<seq<Byte>>)
    ensures DecodeChunks(pending, chunks) == DecodeAll(pending + Flatten(chunks))
    decreases |chunks|
  {
    if chunks == [] {
      assert pending + [] == pending;
    } else {
      var first, later := pending + chunks[0], Flatten(chunks[1..]);
      ChunkingIsInvisible(Leftover(first), chunks[1..]);
      Assoc(pending, chunks[0], later);
      DecodeSplits(first, later);
    }
  }

  lemma DecodeSplits(a: seq<Byte>, b: seq<Byte>)
    ensures DecodeAll(a + b) == Scan(a) + DecodeAll(Leftover(a) + b)
  {
    ScanSplits(a, b);
    Assoc(Scan(a), Scan(Leftover(a) + b), if Leftover(a + b) == [] then [] else [REPLACEMENT]);
  }

  // ---------------------------------------------------------------- round trip

  lemma Shifts(c: int)
    requires 0 <= c < 0x11_0000
    ensures c == c / 0x40 * 0x40 + c % 0x40
    ensures c / 0x40 == c / 0x1000 * 0x40 + c / 0x40 % 0x40
    ensures c / 0x1000 == c / 0x4_0000 * 0x40 + c / 0x1000 % 0x40
    ensures c < 0x800 ==> c / 0x40 < 0x20
    ensures c < 0x1_0000 ==> c / 0x1000 < 0x10
    ensures c / 0x4_0000 < 0x05
  {}

  lemma Payloads(x: int)
    ensures 0 <= x < 0x20 ==> (0xC0 + x) % 0x20 == x
    ensures 0 <= x < 0x10 ==> (0xE0 + x) % 0x10 == x
    ensures 0 <= x < 0x08 ==> (0xF0 + x) % 0x08 == x
    ensures 0 <= x < 0x40 ==> Low6(0x80 + x) == x
  {}

  lemma PointDecodes(c: int, bytes: seq<Byte>)
    requires 0 <= c < 0x11_0000 && EncodePoint(c) <= bytes
    ensures Need(bytes[0]) == |EncodePoint(c)| && CodePoint(bytes) == c
  {
    var e := EncodePoint(c);
    assert forall i :: 0 <= i < |e| ==> bytes[i] == e[i];
    Shifts(c);
    Payloads(c % 0x40);
    if c < 0x800 {
      Payloads(c / 0x40);
    } else if c < 0x1_0000 {
      Payloads(c / 0x40 % 0x40);
      Payloads(c / 0x1000);
    } else {
      Payloads(c / 0x40 % 0x40);
      Payloads(c / 0x1000 % 0x40);
      Payloads(c / 0x4_0000);
    }
  }

  lemma PairSplitsBack(hi: int, lo: int)
    requires IsHigh(hi) && IsLow(lo)
    ensures 0x1_0000 <= Combine(hi, lo) < 0x11_0000 && Units(Combine(hi, lo)) == [hi, lo]
  {}

  /** Encoding loses nothing: every string decodes back, lone surrogates included. */
  lemma {:induction false} RoundTrip(s: seq<Unit>)
    ensures Scan(Encode(s)) == s && Leftover(Encode(s)) == []
    ensures DecodeAll(Encode(s)) == s
  {
    if s != [] {
      var n, c := if PairAt(s) then 2 else 1, if PairAt(s) then Combine(s[0], s[1]) else s[0];
      if PairAt(s) {
        PairSplitsBack(s[0], s[1]);
      }
      assert Units(c) == s[..n];
      RoundTrip(s[n..]);
      var e, more := EncodePoint(c), Encode(s[n..]);
      PointDecodes(c, e + more);
      assert (e + more)[|e|..] == more;
      assert s == s[..n] + s[n..];
    }
  }

  /** Streaming the encoding of a string back, in any chunks, gives the string. */
  lemma StreamedRoundTrip(s: seq<Unit>, chunks: seq<seq<Byte>>)
    requires Flatten(chunks) == Encode(s)
    ensures DecodeChunks([], chunks) == s
  {
    ChunkingIsInvisible([], chunks);
    assert [] + Encode(s) == Encode(s);
    RoundTrip(s);
  }

  // ---------------------------------------------------------------- RFC 3629

  predicate Tail(b: Byte) { 0x80 <= b <= 0xBF }

  /** The length of the well-formed character at the front by the grammar of section 4 of RFC 3629, or 0. */
  function Utf8Char(b: seq<Byte>): (n: nat)
    ensures n <= |b|
  {
    if |b| >= 1 && b[0] <= 0x7F then 1
    else if |b| >= 2 && 0xC2 <= b[0] <= 0xDF && Tail(b[1]) then 2
    else if |b| >= 3 && Tail(b[2]) &&
      ((b[0] == 0xE0 && 0xA0 <= b[1] <= 0xBF) || (0xE1 <= b[0] <= 0xEC && Tail(b[1]))
       || (b[0] == 0xED && 0x80 <= b[1] <= 0x9F) || (0xEE <= b[0] <= 0xEF && Tail(b[1]))) then 3
    else if |b| >= 4 && Tail(b[2]) && Tail(b[3]) &&
      ((b[0] == 0xF0 && 0x90 <= b[1] <= 0xBF) || (0xF1 <= b[0] <= 0xF3 && Tail(b[1]))
       || (b[0] == 0xF4 && 0x80 <= b[1] <= 0x8F)) then 4
    else 0
  }

  predicate IsUtf8(b: seq<Byte>) {
    b == [] || (Utf8Char(b) > 0 && IsUtf8(b[Utf8Char(b)..]))
  }

  predicate NoLoneSurrogate(s: seq<Unit>) {
    if s == [] then true
    else if PairAt(s) then NoLoneSurrogate(s[2..])
    else !IsHigh(s[0]) && !IsLow(s[0]) && NoLoneSurrogate(s[1..])
  }

  lemma PointIsUtf8(c: int, more: seq<Byte>)
    requires 0 <= c < 0x11_0000
    ensures Utf8Char(EncodePoint(c) + more) == if IsHigh(c) || IsLow(c) then 0 else |EncodePoint(c)|
  {
    var e := EncodePoint(c);
    assert forall i :: 0 <= i < |e| ==> (e + more)[i] == e[i];
  }

  /** The encoder writes UTF-8 in the sense of RFC 3629 exactly for strings without lone surrogates. */
  lemma {:induction false} EncodesUtf8(s: seq<Unit>)
    ensures IsUtf8(Encode(s)) <==> NoLoneSurrogate(s)
  {
    if s != [] {
      var n, c := if PairAt(s) then 2 else 1, if PairAt(s) then Combine(s[0], s[1]) else s[0];
      var e, more := EncodePoint(c), Encode(s[n..]);
      PointIsUtf8(c, more);
      EncodesUtf8(s[n..]);
      assert (e + more)[|e|..] == more;
    }
  }

  lemma TwoParts(x: int, y: int)
    requires 0 <= y < 0x40
    ensures (x * 0x40 + y) / 0x40 == x && (x * 0x40 + y) % 0x40 == y
  {}

  lemma ThreeParts(x: int, y: int, z: int)
    requires 0 <= y < 0x40 && 0 <= z < 0x40
    ensures var c := x * 0x1000 + y * 0x40 + z;
      c / 0x1000 == x && c / 0x40 % 0x40 == y && c % 0x40 == z
  {
    TwoParts(x * 0x40 + y, z);
    TwoParts(x, y);
  }

  lemma FourParts(x: int, y: int, z: int, w: int)
    requires 0 <= y < 0x40 && 0 <= z < 0x40 && 0 <= w < 0x40
    ensures var c := x * 0x4_0000 + y * 0x1000 + z * 0x40 + w;
      c / 0x4_0000 == x && c / 0x1000 % 0x40 == y && c / 0x40 % 0x40 == z && c % 0x40 == w
  {
    ThreeParts(x * 0x40 + y, z, w);
    TwoParts(x, y);
  }

  lemma LeadParts(b: int)
    ensures 0xC0 <= b < 0xE0 ==> b % 0x20 == b - 0xC0
    ensures 0xE0 <= b < 0xF0 ==> b % 0x10 == b - 0xE0
    ensures 0xF0 <= b < 0xF8 ==> b % 0x08 == b - 0xF0
    ensures 0x80 <= b < 0xC0 ==> Low6(b) == b - 0x80
  {}

  /** The value a well-formed character gives is no surrogate and encodes to it. */
  predicate Undone(b: seq<Byte>, n: nat)
    requires b != [] && 0 < Need(b[0]) <= |b|
  {
    var c := CodePoint(b);
    n <= |b| && c < 0x11_0000 && !IsHigh(c) && !IsLow(c) && EncodePoint(c) == b[..n]
  }

  lemma TwoRoundTrip(b: seq<Byte>)
    requires Utf8Char(b) == 2
    ensures Need(b[0]) == 2 && Undone(b, 2)
  {
    LeadParts(b[0]);
    LeadParts(b[1]);
    TwoParts(b[0] - 0xC0, b[1] - 0x80);
  }

  lemma ThreeRoundTrip(b: seq<Byte>)
    requires Utf8Char(b) == 3
    ensures Need(b[0]) == 3 && Undone(b, 3)
  {
    LeadParts(b[0]);
    LeadParts(b[1]);
    LeadParts(b[2]);
    ThreeParts(b[0] - 0xE0, b[1] - 0x80, b[2] - 0x80);
    ThreeBytes(b, b[0] - 0xE0, b[1] - 0x80, b[2] - 0x80);
  }

  lemma ThreeBytes(b: seq<Byte>, x: int, y: int, z: int)
    requires |b| >= 3 && b[0] == 0xE0 + x && b[1] == 0x80 + y && b[2] == 0x80 + z
    requires 0 <= x < 0x10 && 0 <= y < 0x40 && 0 <= z < 0x40 && (x == 0 ==> y >= 0x20)
    requires var c := x * 0x1000 + y * 0x40 + z; c / 0x1000 == x && c / 0x40 % 0x40 == y && c % 0x40 == z
    ensures EncodePoint(x * 0x1000 + y * 0x40 + z) == b[..3]
  {}

  lemma FourRoundTrip(b: seq<Byte>)
    requires Utf8Char(b) == 4
    ensures Need(b[0]) == 4 && Undone(b, 4)
  {
    LeadParts(b[0]);
    LeadParts(b[1]);
    LeadParts(b[2]);
    LeadParts(b[3]);
    FourParts(b[0] - 0xF0, b[1] - 0x80, b[2] - 0x80, b[3] - 0x80);
    FourBytes(b, b[0] - 0xF0, b[1] - 0x80, b[2] - 0x80, b[3] - 0x80);
  }

  lemma FourBytes(b: seq<Byte>, x: int, y: int, z: int, w: int)
    requires |b| >= 4 && b[0] == 0xF0 + x && b[1] == 0x80 + y && b[2] == 0x80 + z && b[3] == 0x80 + w
    requires 0 <= x <= 4 && 0 <= y < 0x40 && 0 <= z < 0x40 && 0 <= w < 0x40
    requires (x == 0 ==> y >= 0x10) && (x == 4 ==> y < 0x10)
    requires var c := x * 0x4_0000 + y * 0x1000 + z * 0x40 + w;
      c / 0x4_0000 == x && c / 0x1000 % 0x40 == y && c / 0x40 % 0x40 == z && c % 0x40 == w
    ensures var c := x * 0x4_0000 + y * 0x1000 + z * 0x40 + w;
      0x1_0000 <= c < 0x11_0000 && EncodePoint(c) == b[..4]
  {}

  lemma CharRoundTrip(b: seq<Byte>)
    requires Utf8Char(b) > 0
    ensures Need(b[0]) == Utf8Char(b) && Undone(b, Utf8Char(b))
  {
    if Utf8Char(b) == 2 {
      TwoRoundTrip(b);
    } else if Utf8Char(b) == 3 {
      ThreeRoundTrip(b);
    } else if Utf8Char(b) == 4 {
      FourRoundTrip(b);
    }
  }

  /** A code point that is no surrogate encodes by itself, whatever follows. */
  lemma EncodeFirst(units: seq<Unit>, more: seq<Unit>, cp: int)
    requires 0 <= cp < 0x11_0000 && !IsHigh(cp) && !IsLow(cp) && units == Units(cp)
    ensures Encode(units + more) == EncodePoint(cp) + Encode(more)
  {
    var s := units + more;
    if cp > 0xFFFF {
      assert PairAt(s) && Combine(s[0], s[1]) == cp && s[2..] == more;
    } else {
      assert s[0] == cp && s[1..] == more;
    }
  }

  lemma ScanOne(b: seq<Byte>, n: nat)
    requires b != [] && 0 < n == Need(b[0]) <= |b|
    ensures Scan(b) == Units(CodePoint(b)) + Scan(b[n..]) && Leftover(b) == Leftover(b[n..])
  {}

  lemma Rejoin(b: seq<Byte>, n: nat, units: seq<Unit>, cp: int)
    requires n <= |b| && 0 <= cp < 0x11_0000 && !IsHigh(cp) && !IsLow(cp)
    requires EncodePoint(cp) == b[..n] && Encode(units) == b[n..]
    ensures Encode(Units(cp) + units) == b
  {
    EncodeFirst(Units(cp), units, cp);
    assert b == b[..n] + b[n..];
  }

  lemma {:induction false} ScanRoundTrip(b: seq<Byte>)
    requires IsUtf8(b)
    ensures Leftover(b) == [] && Encode(Scan(b)) == b
  {
    if b != [] {
      var n := Utf8Char(b);
      ScanRoundTrip(b[n..]);
      CharRoundTrip(b);
      ScanOne(b, n);
      Rejoin(b, n, Scan(b[n..]), CodePoint(b));
    }
  }

  /** Decoding loses nothing of well-formed UTF-8. */
  lemma BytesRoundTrip(b: seq<Byte>)
    requires IsUtf8(b)
    ensures Encode(DecodeAll(b)) == b
  {
    ScanRoundTrip(b);
    assert Scan(b) + [] == Scan(b);
  }

  // ---------------------------------------------------------------- what any bytes decode to

  /** A byte that leads nothing, or a lead byte and as many bytes as it asks for, whatever they are. */
  predicate Piece(p: seq<Byte>) {
    || (|p| == 1 && !(0xC0 <= p[0] <= 0xF7))
    || (|p| == 2 && 0xC0 <= p[0] <= 0xDF)
    || (|p| == 3 && 0xE0 <= p[0] <= 0xEF)
    || (|p| == 4 && 0xF0 <= p[0] <= 0xF7)
  }

  /** A lead byte with too few bytes after it. */
  predicate Stub(p: seq<Byte>) {
    || (|p| == 1 && 0xC0 <= p[0] <= 0xF7)
    || (|p| == 2 && 0xE0 <= p[0] <= 0xF7)
    || (|p| == 3 && 0xF0 <= p[0] <= 0xF7)
  }

  /** A byte that leads nothing is U+FFFD; the others give the value their low bits make. */
  function Meaning(p: seq<Byte>): seq<Unit>
    requires Piece(p)
  {
    if |p| == 1 then (if p[0] < 0x80 then [p[0]] else [0xFFFD])
    else if |p| == 2 then [Joined(0, 0, p[0] - 0xC0, p[1] % 64)]
    else if |p| == 3 then [Joined(0, p[0] - 0xE0, p[1] % 64, p[2] % 64)]
    else
      var value := Joined(p[0] - 0xF0, p[1] % 64, p[2] % 64, p[3] % 64);
      if value < 0x1_0000 then [value] else [0xD800 + (value - 0x1_0000) / 1024, 0xDC00 + (value - 0x1_0000) % 1024]
  }

  /** The number with these digits in base 64. */
  function Joined(x: int, y: int, z: int, w: int): int { ((x * 64 + y) * 64 + z) * 64 + w }

  function Meanings(pieces: seq<seq<Byte>>): seq<Unit>
    requires forall k :: 0 <= k < |pieces| ==> Piece(pieces[k])
  {
    if pieces == [] then [] else Meaning(pieces[0]) + Meanings(pieces[1..])
  }

  lemma PieceValue(p: seq<Byte>)
    requires Piece(p) && |p| > 1
    ensures Need(p[0]) == |p|
    ensures CodePoint(p) == Joined(if |p| == 4 then p[0] - 0xF0 else 0,
                                   if |p| == 4 then p[1] % 64 else if |p| == 3 then p[0] - 0xE0 else 0,
                                   if |p| == 2 then p[0] - 0xC0 else p[|p| - 2] % 64, p[|p| - 1] % 64)
  {
    LeadParts(p[0]);
  }

  lemma PieceFirst(p: seq<Byte>)
    requires Piece(p)
    ensures !Truncated(p) && First(p) == Meaning(p) && Taken(p) == |p|
  {
    if |p| > 1 {
      PieceValue(p);
    }
  }

  lemma PieceDecodes(p: seq<Byte>, more: seq<Byte>)
    requires Piece(p)
    ensures !Truncated(p + more) && First(p + more) == Meaning(p) && Taken(p + more) == |p|
    ensures (p + more)[|p|..] == more
  {
    PieceFirst(p);
    FirstIsLocal(p, more);
  }

  lemma StubIsTruncated(p: seq<Byte>)
    ensures Stub(p) <==> Truncated(p)
  {}

  /** Any bytes that are pieces, and perhaps a cut one at the end, decode piece by piece; the cut one is one U+FFFD. */
  lemma {:induction false} DecodesByPieces(pieces: seq<seq<Byte>>, rest: seq<Byte>)
    requires (forall k :: 0 <= k < |pieces| ==> Piece(pieces[k])) && (rest == [] || Stub(rest))
    ensures Scan(Flatten(pieces) + rest) == Meanings(pieces) && Leftover(Flatten(pieces) + rest) == rest
    ensures DecodeAll(Flatten(pieces) + rest) == Meanings(pieces) + (if rest == [] then [] else [0xFFFD])
  {
    if pieces == [] {
      assert Flatten(pieces) + rest == rest;
      StubIsTruncated(rest);
    } else {
      var more := Flatten(pieces[1..]) + rest;
      assert Flatten(pieces) + rest == pieces[0] + more;
      PieceDecodes(pieces[0], more);
      DecodesByPieces(pieces[1..], rest);
    }
  }

  /** And all bytes are such pieces. */
  lemma {:induction false} BytesArePieces(b: seq<Byte>) returns (pieces: seq<seq<Byte>>, rest: seq<Byte>)
    ensures (forall k :: 0 <= k < |pieces| ==> Piece(pieces[k])) && (rest == [] || Stub(rest))
    ensures Flatten(pieces) + rest == b
  {
    StubIsTruncated(b);
    if b == [] || Truncated(b) {
      pieces, rest := [], b;
      assert Flatten(pieces) + rest == b;
    } else {
      var n := Taken(b);
      pieces, rest := BytesArePieces(b[n..]);
      var first := b[..n];
      assert b == first + b[n..];
      assert ([first] + pieces)[1..] == pieces;
      Assoc(first, Flatten(pieces), rest);
      pieces := [first] + pieces;
    }
  }

  // ---------------------------------------------------------------- the loops

  method EncodeText(s: seq<Unit>) returns (bytes: seq<Byte>)
    ensures bytes == Encode(s)
  {
    bytes := [];
    var i := 0;
    ghost var goal, todo := Encode(s), Encode(s);
    assert s[0..] == s;
    while i < |s|
      invariant i <= |s| && todo == Encode(s[i..]) && goal == bytes + todo
    {
      EncodeAt(s, i);
      var c: int := s[i];
      if 0xD800 <= c <= 0xDBFF && i + 1 < |s| {
        var c2 := s[i + 1];
        if 0xDC00 <= c2 <= 0xDFFF {
          c := 0x1_0000 + (c - 0xD800) * 0x400 + (c2 - 0xDC00);
          i := i + 1;
        }
      }
      i := i + 1;
      Produce(goal, bytes, todo, EncodePoint(c), Encode(s[i..]));
      todo := Encode(s[i..]);
      bytes := PushPoint(bytes, c);
    }
  }

  /** One round of the encoder. */
  lemma EncodeAt(s: seq<Unit>, i: nat)
    requires i < |s|
    ensures var pair := i + 1 < |s| && IsHigh(s[i]) && IsLow(s[i + 1]);
      Encode(s[i..]) == if pair then EncodePoint(Combine(s[i], s[i + 1])) + Encode(s[i + 2..])
                        else EncodePoint(s[i]) + Encode(s[i + 1..])
  {
    var rest := s[i..];
    assert rest[1..] == s[i + 1..];
    if PairAt(rest) {
      assert rest[2..] == s[i + 2..];
    }
  }

  /** The four-way `bytes.push` of the encoder. */
  method PushPoint(bytes: seq<Byte>, c: int) returns (r: seq<Byte>)
    requires 0 <= c < 0x11_0000
    ensures r == bytes + EncodePoint(c)
  {
    if c < 0x80 {
      r := bytes + [c];
    } else if c < 0x800 {
      r := bytes + [0xC0 + c / 0x40, 0x80 + c % 0x40];
    } else if c < 0x1_0000 {
      r := bytes + [0xE0 + c / 0x1000, 0x80 + c / 0x40 % 0x40, 0x80 + c % 0x40];
    } else {
      r := bytes + [0xF0 + c / 0x4_0000, 0x80 + c / 0x1000 % 0x40, 0x80 + c / 0x40 % 0x40, 0x80 + c % 0x40];
    }
  }

  /** The decoder's choice of `need`, 0 standing for the branch that appends U+FFFD and continues. */
  method LeadNeed(b: Byte) returns (need: nat)
    ensures need == Need(b)
  {
    if b < 0x80 { need := 1; }
    else if 0xC0 <= b < 0xE0 { need := 2; }
    else if 0xE0 <= b < 0xF0 { need := 3; }
    else if 0xF0 <= b < 0xF8 { need := 4; }
    else { need := 0; }
  }

  /** The decoder's assembly of a code point and of its code units. */
  method Assemble(bytes: seq<Byte>, i: nat, need: nat) returns (units: seq<Unit>)
    requires i + need <= |bytes| && need > 0 && Need(bytes[i]) == need
    ensures Scan(bytes[i..]) == units + Scan(bytes[i + need..])
    ensures Leftover(bytes[i..]) == Leftover(bytes[i + need..])
  {
    RoundAt(bytes, i);
    ghost var window := bytes[i..];
    assert forall k :: 0 <= k < need ==> window[k] == bytes[i + k];
    var b: int := bytes[i];
    var cp: int;
    if need == 1 { cp := b; }
    else if need == 2 { cp := b % 0x20 * 0x40 + Low6(bytes[i + 1]); }
    else if need == 3 { cp := b % 0x10 * 0x1000 + Low6(bytes[i + 1]) * 0x40 + Low6(bytes[i + 2]); }
    else { cp := b % 0x08 * 0x4_0000 + Low6(bytes[i + 1]) * 0x1000 + Low6(bytes[i + 2]) * 0x40 + Low6(bytes[i + 3]); }
    assert cp == CodePoint(window);
    if cp > 0xFFFF {
      cp := cp - 0x1_0000;
      units := [0xD800 + cp / 0x400, 0xDC00 + cp % 0x400];
    } else {
      units := [cp];
    }
  }

  class TextDecoder {
    var pending: Option<seq<Byte>>
    var pendingNeed: nat

    /** The bytes kept from earlier calls. */
    function Pending(): seq<Byte>
      reads this
    {
      if pending.Some? then pending.value else []
    }

    /** They begin one sequence, which is `pendingNeed` bytes short. */
    ghost predicate Valid()
      reads this
    {
      && (pending.Some? ==> pending.value != [] && Need(pending.value[0]) == |pending.value| + pendingNeed)
      && (pendingNeed > 0 <==> pending.Some?)
    }

    constructor ()
      ensures Valid() && Pending() == []
    {
      pending, pendingNeed := None, 0;
    }

    method Decode(input: Option<seq<Byte>>, stream: bool) returns (out: seq<Unit>)
      requires Valid()
      modifies this
      ensures Valid()
      ensures var all := old(Pending()) + (if input.Some? then input.value else []);
        && out == (if stream then Scan(all) else DecodeAll(all))
        && Pending() == (if stream then Leftover(all) else [])
    {
      var u := if input.Some? then input.value else [];
      var bytes := u;
      if pending.Some? && |pending.value| > 0 {
        bytes := pending.value + u;
        pending, pendingNeed := None, 0;
      }
      assert bytes == old(Pending()) + u;
      out := DecodeLoop(bytes, stream);
    }

    /** The loop of `decode`, from a clean decoder. */
    method DecodeLoop(bytes: seq<Byte>, stream: bool) returns (out: seq<Unit>)
      requires Valid() && pending == None
      modifies this
      ensures Valid()
      ensures out == (if stream then Scan(bytes) else DecodeAll(bytes))
      ensures Pending() == (if stream then Leftover(bytes) else [])
    {
      out := [];
      var i, n := 0, |bytes|;
      ghost var goal, todo := Scan(bytes), Scan(bytes);
      assert bytes[0..] == bytes;
      while i < n
        invariant i <= n == |bytes| && pending == None && pendingNeed == 0
        invariant todo == Scan(bytes[i..]) && goal == out + todo
        invariant Leftover(bytes) == Leftover(bytes[i..])
      {
        var need := LeadNeed(bytes[i]);
        if need == 0 {
          Skip(bytes, i);
          i := i + 1;
          Produce(goal, out, todo, [REPLACEMENT], Scan(bytes[i..]));
          todo := Scan(bytes[i..]);
          out := out + [REPLACEMENT];
          continue;
        }
        if i + need > n {
          Cut(bytes, i);
          if stream {
            pending, pendingNeed := Some(bytes[i..]), need - (n - i);
            return;
          }
          out := out + [REPLACEMENT];
          return;
        }
        var units := Assemble(bytes, i, need);
        i := i + need;
        Produce(goal, out, todo, units, Scan(bytes[i..]));
        todo := Scan(bytes[i..]);
        out := out + units;
      }
    }
  }

  lemma Skip(bytes: seq<Byte>, i: nat)
    requires i < |bytes| && Need(bytes[i]) == 0
    ensures Scan(bytes[i..]) == [REPLACEMENT] + Scan(bytes[i + 1..]) && Leftover(bytes[i..]) == Leftover(bytes[i + 1..])
  {
    RoundAt(bytes, i);
  }

  lemma Cut(bytes: seq<Byte>, i: nat)
    requires i < |bytes| < i + Need(bytes[i])
    ensures Scan(bytes[i..]) == [] && Leftover(bytes[i..]) == bytes[i..]
  {}

  /** One round of the decoder. */
  lemma RoundAt(bytes: seq<Byte>, i: nat)
    requires i < |bytes|
    ensures var window := bytes[i..];
      if Truncated(window) then
        Scan(window) == [] && Leftover(window) == window
      else
        var rest := bytes[i + Taken(window)..];
        Scan(window) == First(window) + Scan(rest) && Leftover(window) == Leftover(rest)
  {
    var window := bytes[i..];
    if !Truncated(window) {
      DropDrop(bytes, i, Taken(window));
    }
  }

  /** `TextDecoderStream`: one transform per chunk, then flush; empty outputs are not enqueued. */
  method DecodeStream(chunks: seq<seq<Byte>>) returns (enqueued: seq<seq<Unit>>)
    ensures Flatten(enqueued) == DecodeAll(Flatten(chunks))
    ensures forall k :: 0 <= k < |enqueued| ==> enqueued[k] != []
  {
    var decoder := new TextDecoder();
    enqueued := [];
    ghost var goal, todo := DecodeChunks([], chunks), DecodeChunks([], chunks);
    assert chunks[0..] == chunks;
    for i := 0 to |chunks|
      invariant decoder.Valid() && fresh(decoder)
      invariant todo == DecodeChunks(decoder.Pending(), chunks[i..]) && goal == Flatten(enqueued) + todo
      invariant forall k :: 0 <= k < |enqueued| ==> enqueued[k] != []
    {
      ghost var rest := chunks[i + 1..];
      assert chunks[i..] == [chunks[i]] + rest;
      var out := decoder.Decode(Some(chunks[i]), true);
      Produce(goal, Flatten(enqueued), todo, out, DecodeChunks(decoder.Pending(), rest));
      todo := DecodeChunks(decoder.Pending(), rest);
      enqueued := Enqueue(enqueued, out);
    }
    ghost var pending := decoder.Pending();
    var out := decoder.Decode(None, false);
    assert pending + [] == pending;
    enqueued := Enqueue(enqueued, out);
    ChunkingIsInvisible([], chunks);
    assert [] + Flatten(chunks) == Flatten(chunks);
  }

  /** `if (out.length > 0) controller.enqueue(out)`. */
  method Enqueue(enqueued: seq<seq<Unit>>, out: seq<Unit>) returns (r: seq<seq<Unit>>)
    requires forall k :: 0 <= k < |enqueued| ==> enqueued[k] != []
    ensures Flatten(r) == Flatten(enqueued) + out
    ensures forall k :: 0 <= k < |r| ==> r[k] != []
  {
    r := enqueued;
    if |out| > 0 {
      FlattenAppend(enqueued, out);
      r := r + [out];
    } else {
      assert Flatten(enqueued) + out == Flatten(enqueued);
    }
  }
}
