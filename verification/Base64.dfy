/**
  The two base64 codecs (`buffer.js` and `atob`/`btoa`), the base64url variant and hex.

  `Unpack` is what sections 4 and 5 of RFC 4648 say a run of sextets stands for; both decoders
  are proved to compute it for every input string, and every encoder to be undone by it.
  Shifts and masks are written as division and remainder by powers of two.
 */
module Base64 {
  import opened Bytes

  type Sextet = v: int | 0 <= v < 64

  // ---------------------------------------------------------------- alphabet

  /** `B64_ALPHABET[v]`. */
  function Letter(v: Sextet): char {
    if v < 26 then (v + 'A' as int) as char
    else if v < 52 then (v - 26 + 'a' as int) as char
    else if v < 62 then (v - 52 + '0' as int) as char
    else if v == 62 then '+' else '/'
  }

  /** `B64_LOOKUP[c]` and `B64.indexOf(c)`: -1 outside the alphabet. */
  function Value(c: char): (v: int)
    ensures -1 <= v < 64
  {
    if 'A' <= c <= 'Z' then c as int - 'A' as int
    else if 'a' <= c <= 'z' then c as int - 'a' as int + 26
    else if '0' <= c <= '9' then c as int - '0' as int + 52
    else if c == '+' then 62 else if c == '/' then 63 else -1
  }

  /** The alphabet of table 1 of RFC 4648, in order of the values. */
  const CAPITALS: string := "ABCDEFGHIJKLMNOPQRSTUVWXYZ"
  const SMALLS: string := "abcdefghijklmnopqrstuvwxyz"
  const DIGITS: string := "0123456789"
  const ALPHABET: string := CAPITALS + SMALLS + DIGITS + "+/"

  lemma LetterIs(v: Sextet)
    ensures |ALPHABET| == 64 && Letter(v) == ALPHABET[v]
  {
    if v < 26 {
      assert CAPITALS[v] == Letter(v);
    } else if v < 52 {
      assert SMALLS[v - 26] == Letter(v);
    } else if v < 62 {
      assert DIGITS[v - 52] == Letter(v);
    }
  }

  /** A letter of the alphabet has its place as value; anything else has none. */
  lemma ValueIs(c: char)
    ensures c in ALPHABET ==> 0 <= Value(c) < |ALPHABET| && ALPHABET[Value(c)] == c
    ensures c !in ALPHABET ==> Value(c) == -1
  {
    if Value(c) >= 0 {
      LetterIs(Value(c));
      assert Letter(Value(c)) == c;
    } else if c in ALPHABET {
      var v: int :| 0 <= v < |ALPHABET| && ALPHABET[v] == c;
      LetterIs(v);
      LetterHasValue(v);
    }
  }

  lemma LetterHasValue(v: Sextet)
    ensures Value(Letter(v)) == v
  {}

  /** The sextets a string stands for, everything outside the alphabet skipped. */
  function Sextets(s: string): seq<Sextet> {
    if s == [] then []
    else if Value(s[0]) < 0 then Sextets(s[1..])
    else [Value(s[0])] + Sextets(s[1..])
  }

  lemma {:induction false} SextetsConcat(s: string, t: string)
    ensures Sextets(s + t) == Sextets(s) + Sextets(t)
  {
    if s == [] {
      assert s + t == t;
    } else {
      assert (s + t)[1..] == s[1..] + t;
      SextetsConcat(s[1..], t);
    }
  }

  // ---------------------------------------------------------------- what sextets mean

  /** The three octets that four sextets make. */
  function Octet0(a: int, b: int): Byte
    requires 0 <= a < 64 && 0 <= b < 64
  {
    a * 4 + b / 16
  }

  function Octet1(b: int, c: int): Byte
    requires 0 <= b < 64 && 0 <= c < 64
  {
    b % 16 * 16 + c / 4
  }

  function Octet2(c: int, d: int): Byte
    requires 0 <= c < 64 && 0 <= d < 64
  {
    c % 4 * 64 + d
  }

  /** The octets cut from a bit string of `bits` bits worth `left`, followed by six bits per sextet;
      a last incomplete octet is dropped. */
  function Drain(bits: nat, left: nat, v: seq<Sextet>): seq<Byte>
    requires Carry(bits, left)
    decreases |v|
  {
    if v == [] then []
    else match bits
      case 0 => Drain(6, v[0], v[1..])
      case 6 => [Octet0(left, v[0])] + Drain(4, v[0] % 16, v[1..])
      case 4 => [Octet1(left, v[0])] + Drain(2, v[0] % 4, v[1..])
      case _ => [Octet2(left, v[0])] + Drain(0, 0, v[1..])
  }

  predicate Carry(bits: nat, left: nat) {
    (bits == 0 && left == 0) || (bits == 6 && left < 64) || (bits == 4 && left < 16) || (bits == 2 && left < 4)
  }

  function Unpack(v: seq<Sextet>): seq<Byte> { Drain(0, 0, v) }

  lemma UnpackGroup(v: seq<Sextet>)
    requires |v| >= 4
    ensures Unpack(v) == [Octet0(v[0], v[1]), Octet1(v[1], v[2]), Octet2(v[2], v[3])] + Unpack(v[4..])
  {
    DropDrop(v, 1, 1);
    DropDrop(v, 2, 1);
    DropDrop(v, 3, 1);
    var rest := Unpack(v[4..]);
    assert Drain(2, v[2] % 4, v[3..]) == [Octet2(v[2], v[3])] + rest;
    assert Drain(4, v[1] % 16, v[2..]) == [Octet1(v[1], v[2])] + Drain(2, v[2] % 4, v[3..]);
    assert Drain(6, v[0], v[1..]) == [Octet0(v[0], v[1])] + Drain(4, v[1] % 16, v[2..]);
  }

  lemma UnpackShort(v: seq<Sextet>)
    requires |v| < 4
    ensures Unpack(v) == if |v| < 2 then []
                         else if |v| == 2 then [Octet0(v[0], v[1])]
                         else [Octet0(v[0], v[1]), Octet1(v[1], v[2])]
  {
    if |v| == 1 {
      assert Drain(6, v[0], v[1..]) == [];
    } else if |v| == 2 {
      DropDrop(v, 1, 1);
      assert Drain(4, v[1] % 16, v[2..]) == [];
      assert Drain(6, v[0], v[1..]) == [Octet0(v[0], v[1])];
    } else if |v| == 3 {
      DropDrop(v, 1, 1);
      DropDrop(v, 2, 1);
      assert Drain(2, v[2] % 4, v[3..]) == [];
      assert Drain(4, v[1] % 16, v[2..]) == [Octet1(v[1], v[2])];
      assert Drain(6, v[0], v[1..]) == [Octet0(v[0], v[1])] + [Octet1(v[1], v[2])];
    }
  }

  /** Each octet is made of the eight bits at its place: octet m of the output spans bits 8m to 8m+7. */
  function Octet(v: seq<Sextet>, m: nat): Byte
    requires m < |v| * 6 / 8
  {
    var k := m / 3 * 4;
    if m % 3 == 0 then Octet0(v[k], v[k + 1])
    else if m % 3 == 1 then Octet1(v[k + 1], v[k + 2])
    else Octet2(v[k + 2], v[k + 3])
  }

  lemma {:induction false} OctetAt(v: seq<Sextet>, m: nat)
    ensures |Unpack(v)| == |v| * 6 / 8
    ensures m < |Unpack(v)| ==> Unpack(v)[m] == Octet(v, m)
    decreases |v|
  {
    if |v| >= 4 {
      UnpackGroup(v);
      OctetAt(v[4..], if m < 3 then 0 else m - 3);
      if 3 <= m < |Unpack(v)| {
        OctetShift(v, m);
      }
    } else {
      UnpackShort(v);
    }
  }

  lemma OctetShift(v: seq<Sextet>, m: nat)
    requires |v| >= 4 && 3 <= m < |v| * 6 / 8
    ensures Octet(v, m) == Octet(v[4..], m - 3)
  {
    var k := m / 3 * 4;
    assert (m - 3) / 3 * 4 == k - 4 && (m - 3) % 3 == m % 3;
  }

  // ---------------------------------------------------------------- encoding

  /** The four sextets of three bytes. */
  function Bits0(a: Byte): Sextet { a / 4 }

  function Bits1(a: Byte, b: Byte): Sextet { a % 4 * 16 + b / 16 }

  function Bits2(b: Byte, c: Byte): Sextet { b % 16 * 4 + c / 64 }

  function Bits3(c: Byte): Sextet { c % 64 }

  lemma BitsRegroup(a: Byte, b: Byte, c: Byte)
    ensures Octet0(Bits0(a), Bits1(a, b)) == a
    ensures Octet1(Bits1(a, b), Bits2(b, c)) == b
    ensures Octet2(Bits2(b, c), Bits3(c)) == c
  {}

  function Encode(b: seq<Byte>): string {
    if b == [] then []
    else if |b| == 1 then [Letter(Bits0(b[0])), Letter(Bits1(b[0], 0)), '=', '=']
    else if |b| == 2 then [Letter(Bits0(b[0])), Letter(Bits1(b[0], b[1])), Letter(Bits2(b[1], 0)), '=']
    else Quad(b[0], b[1], b[2]) + Encode(b[3..])
  }

  function Quad(a: Byte, b: Byte, c: Byte): string {
    [Letter(Bits0(a)), Letter(Bits1(a, b)), Letter(Bits2(b, c)), Letter(Bits3(c))]
  }

  /** The byte at a place, zero past the end. */
  function ByteAt(b: seq<Byte>, i: nat): Byte { if i < |b| then b[i] else 0 }

  /** The i-th group of six bits, cut from the 24 bits of three bytes (section 4 of RFC 4648). */
  function SextetAt(b: seq<Byte>, i: nat): Sextet {
    var k := i / 4 * 3;
    var group := ByteAt(b, k) * 0x1_0000 + ByteAt(b, k + 1) * 0x100 + ByteAt(b, k + 2);
    if i % 4 == 0 then group / 0x4_0000 % 64
    else if i % 4 == 1 then group / 0x1000 % 64
    else if i % 4 == 2 then group / 64 % 64
    else group % 64
  }

  lemma FirstBits(a: Byte, b: Byte, c: Byte)
    ensures (a * 0x1_0000 + b * 0x100 + c) / 0x4_0000 == a / 4
  {}

  lemma SecondBits(a: Byte, b: Byte, c: Byte)
    ensures (a * 0x1_0000 + b * 0x100 + c) / 0x1000 == a * 16 + b / 16
  {}

  lemma ThirdBits(a: Byte, b: Byte, c: Byte)
    ensures (a * 0x1_0000 + b * 0x100 + c) / 64 == a * 0x400 + b * 4 + c / 64
  {}

  lemma LastBits(a: Byte, b: Byte, c: Byte)
    ensures (a * 0x1_0000 + b * 0x100 + c) % 64 == c % 64
  {}

  lemma GroupIsBits(a: Byte, b: Byte, c: Byte)
    ensures var group := a * 0x1_0000 + b * 0x100 + c;
      && group / 0x4_0000 % 64 == Bits0(a) && group / 0x1000 % 64 == Bits1(a, b)
      && group / 64 % 64 == Bits2(b, c) && group % 64 == Bits3(c)
  {
    FirstBits(a, b, c);
    SecondBits(a, b, c);
    ThirdBits(a, b, c);
    LastBits(a, b, c);
    SecondRemainder(a, b / 16);
    ThirdRemainder(a, b, c / 64);
  }

  lemma SecondRemainder(a: Byte, x: int)
    requires 0 <= x < 16
    ensures (a * 16 + x) % 64 == a % 4 * 16 + x
  {
    assert a * 16 + x == 64 * (a / 4) + (a % 4 * 16 + x);
  }

  lemma ThirdRemainder(a: Byte, b: Byte, x: int)
    requires 0 <= x < 4
    ensures (a * 0x400 + b * 4 + x) % 64 == b % 16 * 4 + x
  {
    assert a * 0x400 + b * 4 + x == 64 * (a * 16 + b / 16) + (b % 16 * 4 + x);
  }

  /** How many characters carry bits of n bytes; the rest of the last four is padding. */
  function Carrying(n: nat): nat { (8 * n + 5) / 6 }

  lemma SextetShift(b: seq<Byte>, i: nat)
    requires |b| >= 3 && i >= 4
    ensures SextetAt(b, i) == SextetAt(b[3..], i - 4)
  {
    assert (i - 4) / 4 * 3 == i / 4 * 3 - 3 && (i - 4) % 4 == i % 4;
  }

  /** The first four characters, of which fewer than three bytes leave some to padding. */
  lemma FirstFour(b: seq<Byte>, i: nat)
    requires b != [] && i < 4
    ensures |Encode(b)| >= 4
    ensures Encode(b)[i] == if i < Carrying(if |b| < 3 then |b| else 3) then Letter(SextetAt(b, i)) else '='
  {
    GroupIsBits(ByteAt(b, 0), ByteAt(b, 1), ByteAt(b, 2));
  }

  lemma CarryingMore(n: nat)
    requires n >= 3
    ensures Carrying(n) == Carrying(n - 3) + 4
  {}

  lemma {:induction false} EncodingLength(b: seq<Byte>)
    ensures |Encode(b)| == (|b| + 2) / 3 * 4
  {
    if |b| >= 3 {
      EncodingLength(b[3..]);
    }
  }

  lemma EncodeTail(b: seq<Byte>, i: nat)
    requires |b| >= 3 && 4 <= i < |Encode(b)|
    ensures i - 4 < |Encode(b[3..])| && Encode(b)[i] == Encode(b[3..])[i - 4]
  {}

  lemma {:induction false} EncodesSextet(b: seq<Byte>, i: nat)
    requires i < |Encode(b)|
    ensures Encode(b)[i] == if i < Carrying(|b|) then Letter(SextetAt(b, i)) else '='
    decreases |b|
  {
    if i < 4 {
      FirstFour(b, i);
      CarryingFour(|b|, i);
    } else if |b| >= 3 {
      EncodeTail(b, i);
      EncodesSextet(b[3..], i - 4);
      CarryingMore(|b|);
      SextetShift(b, i);
    }
  }

  lemma CarryingFour(n: nat, i: nat)
    requires i < 4
    ensures i < Carrying(n) <==> i < Carrying(if n < 3 then n else 3)
  {}

  /** Every character of the encoding: letters for the groups of six bits, in order, then padding. */
  lemma EncodingIs(b: seq<Byte>, i: nat)
    ensures |Encode(b)| == (|b| + 2) / 3 * 4
    ensures i < |Encode(b)| ==> Encode(b)[i] == if i < Carrying(|b|) then ALPHABET[SextetAt(b, i)] else '='
  {
    EncodingLength(b);
    LetterIs(SextetAt(b, i));
    if i < |Encode(b)| {
      EncodesSextet(b, i);
    }
  }

  lemma FourSextets(w: Sextet, x: Sextet, y: Sextet, z: Sextet)
    ensures Sextets([Letter(w), Letter(x), Letter(y), Letter(z)]) == [w, x, y, z]
  {
    var s := [Letter(w), Letter(x), Letter(y), Letter(z)];
    LetterHasValue(w);
    LetterHasValue(x);
    LetterHasValue(y);
    LetterHasValue(z);
    assert s[1..] == [Letter(x), Letter(y), Letter(z)];
    assert s[1..][1..] == [Letter(y), Letter(z)];
    assert s[1..][1..][1..] == [Letter(z)];
    assert Sextets([Letter(z)]) == [z];
    assert Sextets([Letter(y), Letter(z)]) == [y, z];
    assert Sextets([Letter(x), Letter(y), Letter(z)]) == [x, y, z];
  }

  lemma OneRoundTrip(a: Byte)
    ensures Unpack(Sextets(Encode([a]))) == [a]
  {
    PaddedSextets(Bits0(a), Bits1(a, 0), []);
    UnpackShort([Bits0(a), Bits1(a, 0)]);
    BitsRegroup(a, 0, 0);
  }

  lemma TwoRoundTrip(a: Byte, b: Byte)
    ensures Unpack(Sextets(Encode([a, b]))) == [a, b]
  {
    PaddedSextets(Bits0(a), Bits1(a, b), [Bits2(b, 0)]);
    UnpackShort([Bits0(a), Bits1(a, b), Bits2(b, 0)]);
    BitsRegroup(a, b, 0);
  }

  lemma QuadRoundTrip(a: Byte, b: Byte, c: Byte, more: string)
    ensures Unpack(Sextets(Quad(a, b, c) + more)) == [a, b, c] + Unpack(Sextets(more))
  {
    var q := Quad(a, b, c);
    SextetsConcat(q, more);
    FourSextets(Bits0(a), Bits1(a, b), Bits2(b, c), Bits3(c));
    BitsRegroup(a, b, c);
    UnpackGroup(Sextets(q) + Sextets(more));
    assert (Sextets(q) + Sextets(more))[4..] == Sextets(more);
  }

  /** Both decoders, which compute `Unpack`, undo the encoder. */
  lemma {:induction false} RoundTrip(b: seq<Byte>)
    ensures Unpack(Sextets(Encode(b))) == b
  {
    if |b| == 1 {
      assert b == [b[0]];
      OneRoundTrip(b[0]);
    } else if |b| == 2 {
      assert b == [b[0], b[1]];
      TwoRoundTrip(b[0], b[1]);
    } else if |b| >= 3 {
      RoundTrip(b[3..]);
      QuadRoundTrip(b[0], b[1], b[2], Encode(b[3..]));
      assert b == [b[0], b[1], b[2]] + b[3..];
    }
  }

  lemma PaddedSextets(x: Sextet, y: Sextet, z: seq<Sextet>)
    requires |z| <= 1
    ensures z == [] ==> Sextets([Letter(x), Letter(y), '=', '=']) == [x, y]
    ensures |z| == 1 ==> Sextets([Letter(x), Letter(y), Letter(z[0]), '=']) == [x, y, z[0]]
  {
    LetterHasValue(x);
    LetterHasValue(y);
    var s := if z == [] then [Letter(x), Letter(y), '=', '='] else [Letter(x), Letter(y), Letter(z[0]), '='];
    assert s[1..][1..][1..] == ['='];
    assert Sextets(['=']) == [];
    if z == [] {
      assert Sextets(s[1..][1..]) == [];
    } else {
      LetterHasValue(z[0]);
      assert Sextets(s[1..][1..]) == [z[0]];
    }
  }

  // ---------------------------------------------------------------- base64url

  /** `.replace(/\+/g, "-").replace(/\//g, "_")`. */
  function ToUrl(s: string): (r: string)
    ensures |r| == |s|
  {
    if s == [] then [] else [if s[0] == '+' then '-' else if s[0] == '/' then '_' else s[0]] + ToUrl(s[1..])
  }

  /** `.replace(/-/g, "+").replace(/_/g, "/")`. */
  function FromUrl(s: string): string {
    if s == [] then [] else [if s[0] == '-' then '+' else if s[0] == '_' then '/' else s[0]] + FromUrl(s[1..])
  }

  /** `.replace(/=+$/, "")`. */
  function StripPadding(s: string): string {
    if s != [] && s[|s| - 1] == '=' then StripPadding(s[..|s| - 1]) else s
  }

  function EncodeUrl(b: seq<Byte>): string { StripPadding(ToUrl(Encode(b))) }

  lemma {:induction false} StripKeepsSextets(s: string)
    ensures Sextets(StripPadding(s)) == Sextets(s)
    ensures Sextets(FromUrl(StripPadding(s))) == Sextets(FromUrl(s))
  {
    if s != [] && s[|s| - 1] == '=' {
      var t := s[..|s| - 1];
      StripKeepsSextets(t);
      assert s == t + ['='];
      SextetsConcat(t, ['=']);
      FromUrlConcat(t, ['=']);
      SextetsConcat(FromUrl(t), FromUrl(['=']));
      assert Sextets(['=']) == [] && FromUrl(['=']) == ['='];
    }
  }

  lemma {:induction false} FromUrlConcat(s: string, t: string)
    ensures FromUrl(s + t) == FromUrl(s) + FromUrl(t)
  {
    if s == [] {
      assert s + t == t;
    } else {
      assert (s + t)[1..] == s[1..] + t;
      FromUrlConcat(s[1..], t);
    }
  }

  lemma {:induction false} UrlIsUndone(s: string)
    requires forall i :: 0 <= i < |s| ==> s[i] != '-' && s[i] != '_'
    ensures FromUrl(ToUrl(s)) == s
  {
    if s != [] {
      UrlIsUndone(s[1..]);
    }
  }

  lemma {:induction false} EncodeLetters(b: seq<Byte>)
    ensures forall i :: 0 <= i < |Encode(b)| ==> Value(Encode(b)[i]) >= 0 || Encode(b)[i] == '='
  {
    forall v: Sextet
      ensures Value(Letter(v)) >= 0
    {
      LetterHasValue(v);
    }
    if |b| >= 3 {
      EncodeLetters(b[3..]);
    }
  }

  /** The characters of the url alphabet, and the padding that encoding leaves for stripping. */
  predicate IsUrlChar(c: char) { (Value(c) >= 0 && c != '+' && c != '/') || c == '-' || c == '_' }

  lemma {:induction false} ToUrlChars(s: string)
    requires forall i :: 0 <= i < |s| ==> Value(s[i]) >= 0 || s[i] == '='
    ensures forall i :: 0 <= i < |s| ==> IsUrlChar(ToUrl(s)[i]) || ToUrl(s)[i] == '='
    ensures forall i :: 0 <= i < |s| ==> (ToUrl(s)[i] == '=' <==> s[i] == '=')
  {
    if s != [] {
      ToUrlChars(s[1..]);
    }
  }

  /** Padding stands only at the end, so stripping leaves none. */
  predicate PaddedAtEnd(s: string) { forall i, j :: 0 <= i < j < |s| && s[i] == '=' ==> s[j] == '=' }

  lemma {:induction false} StripLeavesNone(s: string)
    requires PaddedAtEnd(s)
    ensures StripPadding(s) <= s && '=' !in StripPadding(s)
  {
    if s != [] && s[|s| - 1] == '=' {
      StripLeavesNone(s[..|s| - 1]);
    }
  }

  lemma {:induction false} EncodePadsAtEnd(b: seq<Byte>)
    ensures PaddedAtEnd(Encode(b))
  {
    forall v: Sextet ensures Letter(v) != '=' {
      LetterHasValue(v);
    }
    if |b| >= 3 {
      EncodePadsAtEnd(b[3..]);
    }
  }

  /** The url alphabet (section 5 of RFC 4648) without padding is undone as well, and uses no `+`, `/` or `=`. */
  lemma UrlRoundTrip(b: seq<Byte>)
    ensures Unpack(Sextets(FromUrl(EncodeUrl(b)))) == b
    ensures forall i :: 0 <= i < |EncodeUrl(b)| ==> IsUrlChar(EncodeUrl(b)[i])
  {
    EncodeLetters(b);
    UrlIsUndone(Encode(b));
    StripKeepsSextets(ToUrl(Encode(b)));
    RoundTrip(b);
    EncodePadsAtEnd(b);
    ToUrlChars(Encode(b));
    StripLeavesNone(ToUrl(Encode(b)));
  }

  /** The alphabet of table 2 of RFC 4648. */
  const URL_ALPHABET: string := CAPITALS + SMALLS + DIGITS + "-_"

  lemma {:induction false} ToUrlAt(s: string, i: nat)
    requires i < |s|
    ensures ToUrl(s)[i] == if s[i] == '+' then '-' else if s[i] == '/' then '_' else s[i]
  {
    if i > 0 {
      ToUrlAt(s[1..], i - 1);
    }
  }

  lemma {:induction false} StripsTo(s: string, n: nat)
    requires n <= |s| && (n > 0 ==> s[n - 1] != '=') && forall i :: n <= i < |s| ==> s[i] == '='
    ensures StripPadding(s) == s[..n]
  {
    if n == |s| {
      assert s[..n] == s;
    } else {
      StripsTo(s[..|s| - 1], n);
      assert s[..|s| - 1][..n] == s[..n];
    }
  }

  lemma UrlLetter(v: Sextet)
    ensures |URL_ALPHABET| == 64 && ALPHABET[v] != '='
    ensures URL_ALPHABET[v] == if ALPHABET[v] == '+' then '-' else if ALPHABET[v] == '/' then '_' else ALPHABET[v]
  {
    LetterIs(v);
  }

  /** The url encoding has the letters of its alphabet for the groups of six bits, and nothing else. */
  lemma UrlEncodingIs(b: seq<Byte>)
    ensures |EncodeUrl(b)| == Carrying(|b|)
    ensures forall i :: 0 <= i < |EncodeUrl(b)| ==> EncodeUrl(b)[i] == URL_ALPHABET[SextetAt(b, i)]
  {
    var s, n := ToUrl(Encode(b)), Carrying(|b|);
    EncodingIs(b, 0);
    forall i | 0 <= i < |s| ensures s[i] == if i < n then URL_ALPHABET[SextetAt(b, i)] else '=' {
      EncodingIs(b, i);
      ToUrlAt(Encode(b), i);
      UrlLetter(SextetAt(b, i));
    }
    if n > 0 {
      UrlLetter(SextetAt(b, n - 1));
    }
    StripsTo(s, n);
  }

  // ---------------------------------------------------------------- buffer.js

  method Base64Encode(b: seq<Byte>) returns (out: string)
    ensures out == Encode(b)
  {
    out := [];
    var i := 0;
    ghost var goal, todo := Encode(b), Encode(b);
    assert b[0..] == b;
    while i + 2 < |b|
      invariant i <= |b| && todo == Encode(b[i..]) && goal == out + todo
    {
      DropDrop(b, i, 3);
      Produce(goal, out, todo, Quad(b[i], b[i + 1], b[i + 2]), Encode(b[i + 3..]));
      todo := Encode(b[i + 3..]);
      out := PushQuad(out, b[i], b[i + 1], b[i + 2]);
      i := i + 3;
    }
    out := PushTail(out, b[i..]);
  }

  /** The body of the encoding loop. */
  method PushQuad(out: string, a: Byte, b: Byte, c: Byte) returns (r: string)
    ensures r == out + Quad(a, b, c)
  {
    r := out + [Letter(Bits0(a))];
    r := r + [Letter(Bits1(a, b))];
    r := r + [Letter(Bits2(b, c))];
    r := r + [Letter(Bits3(c))];
  }

  /** What follows the encoding loop, for the one or two bytes that remain. */
  method PushTail(out: string, b: seq<Byte>) returns (r: string)
    requires |b| < 3
    ensures r == out + Encode(b)
  {
    r := out;
    if |b| == 1 {
      r := r + [Letter(Bits0(b[0]))];
      r := r + [Letter(Bits1(b[0], 0))];
      r := r + "==";
    } else if |b| == 2 {
      r := r + [Letter(Bits0(b[0]))];
      r := r + [Letter(Bits1(b[0], b[1]))];
      r := r + [Letter(Bits2(b[1], 0))];
      r := r + "=";
    }
  }

  /** `str.replace(/[^A-Za-z0-9+/]/g, "")`. */
  function Clean(s: string): (r: string)
    ensures forall i :: 0 <= i < |r| ==> Value(r[i]) >= 0
  {
    if s == [] then [] else if Value(s[0]) >= 0 then [s[0]] + Clean(s[1..]) else Clean(s[1..])
  }

  lemma {:induction false} CleanSextets(s: string)
    ensures |Sextets(s)| == |Clean(s)|
    ensures forall i :: 0 <= i < |Clean(s)| ==> Sextets(s)[i] == Value(Clean(s)[i])
  {
    if s != [] {
      CleanSextets(s[1..]);
    }
  }

  /** What `B64_LOOKUP[padded.charCodeAt(i)] | 0` yields past the letters: -1, for the padding. */
  function LookupAt(clean: string, i: nat): int {
    if i < |clean| then Value(clean[i]) else -1
  }

  /** Group g of four sextets gives octets 3g to 3g+2, as far as there are any. */
  predicate GroupGives(v: seq<Sextet>, u: seq<Byte>, g: nat) {
    && (3 * g < |u| ==> 4 * g + 1 < |v| && u[3 * g] == Octet0(v[4 * g], v[4 * g + 1]))
    && (3 * g + 1 < |u| ==> 4 * g + 2 < |v| && u[3 * g + 1] == Octet1(v[4 * g + 1], v[4 * g + 2]))
    && (3 * g + 2 < |u| ==> 4 * g + 3 < |v| && u[3 * g + 2] == Octet2(v[4 * g + 2], v[4 * g + 3]))
  }

  lemma GroupOctets(v: seq<Sextet>, g: nat)
    ensures GroupGives(v, Unpack(v), g)
  {
    OctetAt(v, 3 * g);
    OctetAt(v, 3 * g + 1);
    OctetAt(v, 3 * g + 2);
  }

  /** The length arithmetic of the decoder: pad to a multiple of four, then three bytes per group less the padding. */
  method PaddedGroups(n: nat) returns (groups: nat, outLen: nat)
    ensures outLen == n * 6 / 8 <= 3 * groups
  {
    var padding := if n % 4 == 0 then 0 else 3 - (n + 3) % 4;
    var paddedLength := n + padding;
    groups := paddedLength / 4;
    outLen := groups * 3 - padding;
  }

  method Base64Decode(s: string) returns (out: array<Byte>)
    ensures out[..] == Unpack(Sextets(s))
  {
    var clean := Clean(s);
    ghost var v := Sextets(s);
    CleanSextets(s);
    var groups, outLen := PaddedGroups(|clean|);
    out := new Byte[outLen](_ => 0);
    OctetAt(v, 0);
    ghost var u := Unpack(v);
    var oi := 0;
    for g := 0 to groups
      invariant oi == if 3 * g <= outLen then 3 * g else outLen
      invariant out[..oi] == u[..oi]
    {
      GroupOctets(v, g);
      oi := FillGroup(clean, out, g, oi, v, u);
    }
  }

  /** The body of the decoding loop for the group at 4g: up to three octets, as room allows. */
  method FillGroup(clean: string, out: array<Byte>, g: nat, oi: nat, ghost v: seq<Sextet>, ghost u: seq<Byte>)
    returns (next: nat)
    requires |u| == out.Length && |clean| == |v| && (forall i :: 0 <= i < |v| ==> v[i] == Value(clean[i]))
    requires GroupGives(v, u, g)
    requires oi == (if 3 * g <= |u| then 3 * g else |u|) && out[..oi] == u[..oi]
    modifies out
    ensures next == (if 3 * g + 3 <= |u| then 3 * g + 3 else |u|) && out[..next] == u[..next]
  {
    next := oi;
    var i := 4 * g;
    var a, b, c, d := LookupAt(clean, i), LookupAt(clean, i + 1), LookupAt(clean, i + 2), LookupAt(clean, i + 3);
    if next < out.Length {
      out[next] := Octet0(a, b);
      next := next + 1;
      assert out[..next] == u[..next];
    }
    if next < out.Length {
      out[next] := Octet1(b, c);
      next := next + 1;
      assert out[..next] == u[..next];
    }
    if next < out.Length {
      out[next] := Octet2(c, d);
      next := next + 1;
      assert out[..next] == u[..next];
    }
  }

  // ---------------------------------------------------------------- btoa and atob

  type Unit = u: int | 0 <= u < 0x1_0000

  /** `charCodeAt(i) & 0xFF` for each code unit. */
  function LowBytes(s: seq<Unit>): (b: seq<Byte>)
    ensures |b| == |s|
  {
    if s == [] then [] else [s[0] % 0x100] + LowBytes(s[1..])
  }

  predicate IsLatin1(s: seq<Unit>) { forall i :: 0 <= i < |s| ==> s[i] < 0x100 }

  /** `atob` yields one code unit per byte. */
  function AsUnits(b: seq<Byte>): (s: seq<Unit>)
    ensures |s| == |b|
  {
    if b == [] then [] else [b[0]] + AsUnits(b[1..])
  }

  lemma {:induction false} Latin1Only(s: seq<Unit>)
    ensures AsUnits(LowBytes(s)) == s <==> IsLatin1(s)
  {
    if s != [] {
      Latin1Only(s[1..]);
      var t := AsUnits(LowBytes(s));
      assert t == [s[0] % 0x100] + AsUnits(LowBytes(s[1..]));
      assert IsLatin1(s) <==> s[0] < 0x100 && IsLatin1(s[1..]) by {
        assert forall i :: 0 <= i < |s| - 1 ==> s[1..][i] == s[i + 1];
        assert forall i :: 1 <= i < |s| ==> s[i] == s[1..][i - 1];
      }
      assert t[1..] == AsUnits(LowBytes(s[1..])) && s == [s[0]] + s[1..];
    }
  }

  method Btoa(s: seq<Unit>) returns (out: string)
    ensures out == Encode(LowBytes(s))
  {
    out := [];
    var i := 0;
    ghost var b := LowBytes(s);
    ghost var goal, todo := Encode(b), Encode(b);
    LowByteAt(s);
    assert b[0..] == b;
    while i < |s|
      invariant i <= |s| && todo == Encode(b[i..]) && goal == out + todo
    {
      ghost var start := i;
      var b1: Byte := s[i] % 0x100;
      i := i + 1;
      var b2: int := -1;    // NaN
      if i < |s| {
        b2 := s[i] % 0x100;
        i := i + 1;
      }
      var b3: int := -1;
      if i < |s| {
        b3 := s[i] % 0x100;
        i := i + 1;
      }
      DropDrop(b, start, i - start);
      ghost var piece := if b2 < 0 then Encode([b1]) else if b3 < 0 then Encode([b1, b2]) else Quad(b1, b2, b3);
      assert b2 < 0 ==> b[start..] == [b1];
      assert 0 <= b2 && b3 < 0 ==> b[start..] == [b1, b2];
      Produce(goal, out, todo, piece, Encode(b[i..]));
      todo := Encode(b[i..]);
      out := PushUnits(out, b1, b2, b3);
    }
  }

  /** The four appends of `btoa`; a negative `b2` or `b3` stands for NaN. */
  method PushUnits(out: string, b1: Byte, b2: int, b3: int) returns (r: string)
    requires b2 < 0x100 && b3 < 0x100 && (b2 < 0 ==> b3 < 0)
    ensures r == out + (if b2 < 0 then Encode([b1]) else if b3 < 0 then Encode([b1, b2]) else Quad(b1, b2, b3))
  {
    r := out + [Letter(Bits0(b1))];
    r := r + [Letter(Bits1(b1, if b2 < 0 then 0 else b2))];
    r := r + [if b2 < 0 then '=' else Letter(Bits2(b2, if b3 < 0 then 0 else b3))];
    r := r + [if b3 < 0 then '=' else Letter(Bits3(b3))];
  }

  lemma {:induction false} LowByteAt(s: seq<Unit>)
    ensures forall i :: 0 <= i < |s| ==> LowBytes(s)[i] == s[i] % 0x100
  {
    if s != [] {
      LowByteAt(s[1..]);
    }
  }

  const TWO_31: int := 0x8000_0000
  const TWO_32: int := 0x1_0000_0000

  /** JavaScript's `<<`, `>>` and `|` work on signed 32-bit integers. */
  function ToInt32(n: int): int { (n + TWO_31) % TWO_32 - TWO_31 }

  function Pow(bits: nat): int
    requires bits <= 6
  {
    match bits
    case 0 => 1
    case 2 => 4
    case 4 => 16
    case 6 => 64
    case _ => 0
  }

  /** `(buf << 6) | idx`, wrapped. */
  function Shifted(buf: int, idx: Sextet): int { ToInt32(buf * 64) + idx }

  lemma ShiftKeepsLowBits(buf: int, idx: Sextet)
    ensures Shifted(buf, idx) % 0x1000 == (buf % 64) * 64 + idx
  {
    var k := (buf * 64 + TWO_31) / TWO_32;
    assert ToInt32(buf * 64) == buf * 64 - k * TWO_32;
    var q := buf / 64;
    assert buf == q * 64 + buf % 64;
    assert Shifted(buf, idx) == 0x1000 * (q - k * 0x10_0000) + (buf % 64) * 64 + idx;
  }

  /** One letter taken by `atob`, with `bits` bits of `buf` pending: what it emits and leaves, despite the wrap. */
  lemma AtobStep(buf: int, bits: nat, idx: Sextet, more: seq<Sextet>)
    requires bits in {0, 2, 4, 6}
    ensures var next, left, kept := Shifted(buf, idx), buf % Pow(bits), if bits == 0 then 6 else bits - 2;
      && Carry(bits, left) && Carry(kept, next % Pow(kept))
      && Drain(bits, left, [idx] + more)
         == (if bits == 0 then [] else [next / Pow(kept) % 0x100]) + Drain(kept, next % Pow(kept), more)
  {
    ShiftKeepsLowBits(buf, idx);
    assert ([idx] + more)[1..] == more;
    AtobArithmetic(Shifted(buf, idx), buf, idx);
  }

  lemma AtobArithmetic(next: int, buf: int, idx: Sextet)
    requires next % 0x1000 == (buf % 64) * 64 + idx
    ensures next % 64 == idx
    ensures next % 0x100 == Octet2(buf % 4, idx)
    ensures next / 4 % 0x100 == Octet1(buf % 16, idx) && next % 4 == idx % 4
    ensures next / 16 % 0x100 == Octet0(buf % 64, idx) && next % 16 == idx % 16
  {
    var q, b := next / 0x1000, buf % 64;
    assert next == 0x1000 * q + 64 * b + idx;
    Emit2(q, b, idx);
    Emit4(q, b, idx);
    Emit6(q, b, idx);
    LowBits(buf);
  }

  lemma LowBits(n: int)
    ensures n % 64 % 16 == n % 16 && n % 64 % 4 == n % 4
  {
    var p, b := n / 64, n % 64;
    assert n == 64 * p + b;
    Mod16(n, 4 * p + b / 16, b % 16);
    Mod4(n, 16 * p + b / 4, b % 4);
  }

  lemma Mod4(n: int, k: int, r: int)
    requires n == 4 * k + r && 0 <= r < 4
    ensures n / 4 == k && n % 4 == r
  {}

  lemma Mod16(n: int, k: int, r: int)
    requires n == 16 * k + r && 0 <= r < 16
    ensures n / 16 == k && n % 16 == r
  {}

  lemma Mod64(n: int, k: int, r: int)
    requires n == 64 * k + r && 0 <= r < 64
    ensures n / 64 == k && n % 64 == r
  {}

  lemma Mod256(n: int, k: int, r: int)
    requires n == 0x100 * k + r && 0 <= r < 0x100
    ensures n / 0x100 == k && n % 0x100 == r
  {}

  lemma Emit2(q: int, b: int, idx: int)
    requires 0 <= b < 64 && 0 <= idx < 64
    ensures var n := 0x1000 * q + 64 * b + idx; n % 64 == idx && n % 0x100 == b % 4 * 64 + idx
  {
    var n := 0x1000 * q + 64 * b + idx;
    Mod64(n, 64 * q + b, idx);
    Mod256(n, 16 * q + b / 4, b % 4 * 64 + idx);
  }

  lemma Emit4(q: int, b: int, idx: int)
    requires 0 <= b < 64 && 0 <= idx < 64
    ensures var n := 0x1000 * q + 64 * b + idx; n / 4 % 0x100 == b % 16 * 16 + idx / 4 && n % 4 == idx % 4
  {
    var n, m := 0x1000 * q + 64 * b + idx, 0x400 * q + 16 * b + idx / 4;
    Mod4(n, m, idx % 4);
    Mod256(m, 4 * q + b / 16, b % 16 * 16 + idx / 4);
  }

  lemma Emit6(q: int, b: int, idx: int)
    requires 0 <= b < 64 && 0 <= idx < 64
    ensures var n := 0x1000 * q + 64 * b + idx; n / 16 % 0x100 == b * 4 + idx / 16 && n % 16 == idx % 16
  {
    var n, m := 0x1000 * q + 64 * b + idx, 0x100 * q + 4 * b + idx / 16;
    Mod16(n, m, idx % 16);
    Mod256(m, q, 4 * b + idx / 16);
  }

  method Atob(s: string) returns (out: seq<Unit>)
    ensures out == AsUnits(Unpack(Sextets(s)))
  {
    var str := StripPadding(s);
    StripKeepsSextets(s);
    out := [];
    var buf, bits := 0, 0;
    ghost var bytes: seq<Byte> := [];
    ghost var goal, todo := Unpack(Sextets(s)), Unpack(Sextets(s));
    assert str[0..] == str;
    for i := 0 to |str|
      invariant bits in {0, 2, 4, 6} && Carry(bits, buf % Pow(bits))
      invariant out == AsUnits(bytes) && goal == bytes + todo
      invariant todo == Drain(bits, buf % Pow(bits), Sextets(str[i..]))
    {
      ghost var later := Sextets(str[i + 1..]);
      DropDrop(str, i, 1);
      var idx := Value(str[i]);
      if idx < 0 {
        assert Sextets(str[i..]) == later;
        continue;
      }
      assert Sextets(str[i..]) == [idx] + later;
      AtobStep(buf, bits, idx, later);
      ghost var before := todo;
      buf := Shifted(buf, idx);
      bits := bits + 6;
      if bits >= 8 {
        bits := bits - 8;
        var byte := buf / Pow(bits) % 0x100;
        todo := Drain(bits, buf % Pow(bits), later);
        Produce(goal, bytes, before, [byte], todo);
        AsUnitsAppend(bytes, byte);
        bytes := bytes + [byte];
        out := out + [byte];
      } else {
        assert todo == Drain(bits, buf % Pow(bits), later);
      }
    }
    assert todo == [];
    assert bytes == goal;
  }

  lemma {:induction false} AsUnitsAppend(b: seq<Byte>, x: Byte)
    ensures AsUnits(b + [x]) == AsUnits(b) + [x]
  {
    if b == [] {
      assert b + [x] == [x];
    } else {
      assert (b + [x])[1..] == b[1..] + [x];
      AsUnitsAppend(b[1..], x);
    }
  }

  /** `atob(btoa(s))`, by the contracts of the two methods: it is `s` exactly for Latin-1 strings. */
  lemma AtobOfBtoa(s: seq<Unit>)
    ensures AsUnits(Unpack(Sextets(Encode(LowBytes(s))))) == s <==> IsLatin1(s)
  {
    RoundTrip(LowBytes(s));
    Latin1Only(s);
  }

  // ---------------------------------------------------------------- hex

  /** A digit of `toString(16)`. */
  function HexDigit(n: int): char
    requires 0 <= n < 16
  {
    if n < 10 then (n + '0' as int) as char else (n - 10 + 'a' as int) as char
  }

  /** -1 outside `[0-9a-fA-F]`. */
  function HexValue(c: char): (n: int)
    ensures -1 <= n < 16
  {
    if '0' <= c <= '9' then c as int - '0' as int
    else if 'a' <= c <= 'f' then c as int - 'a' as int + 10
    else if 'A' <= c <= 'F' then c as int - 'A' as int + 10
    else -1
  }

  /** The digits of a string, everything else skipped. */
  function HexDigits(s: string): (d: seq<int>)
    ensures forall i :: 0 <= i < |d| ==> 0 <= d[i] < 16
  {
    if s == [] then [] else if HexValue(s[0]) < 0 then HexDigits(s[1..]) else [HexValue(s[0])] + HexDigits(s[1..])
  }

  /** Pairs of digits as bytes; an odd digit at the end is dropped. */
  function HexBytes(d: seq<int>): seq<Byte>
    requires forall i :: 0 <= i < |d| ==> 0 <= d[i] < 16
  {
    if |d| < 2 then [] else [d[0] * 16 + d[1]] + HexBytes(d[2..])
  }

  function HexOf(b: seq<Byte>): string {
    if b == [] then [] else [HexDigit(b[0] / 16), HexDigit(b[0] % 16)] + HexOf(b[1..])
  }

  const HEX: string := "0123456789abcdef"
  const HEX_CAPITALS: string := "0123456789ABCDEF"

  /** Two lower-case digits per byte, the high one first. */
  lemma {:induction false} HexIs(b: seq<Byte>, k: nat)
    ensures |HexOf(b)| == 2 * |b|
    ensures k < |b| ==> HexOf(b)[2 * k] == HEX[b[k] / 16] && HexOf(b)[2 * k + 1] == HEX[b[k] % 16]
  {
    if b != [] {
      HexIs(b[1..], if k == 0 then 0 else k - 1);
      DigitIs(b[0] / 16);
      DigitIs(b[0] % 16);
    }
  }

  lemma DigitIs(n: int)
    requires 0 <= n < 16
    ensures HexDigit(n) == HEX[n]
  {}

  /** Digits of either case count, and nothing else. */
  lemma HexValueIs(c: char)
    ensures forall n :: 0 <= n < 16 && (c == HEX[n] || c == HEX_CAPITALS[n]) ==> HexValue(c) == n
    ensures c !in HEX && c !in HEX_CAPITALS ==> HexValue(c) == -1
  {
    if HexValue(c) >= 0 {
      assert c == HEX[HexValue(c)] || c == HEX_CAPITALS[HexValue(c)];
    }
  }

  lemma {:induction false} HexRoundTrip(b: seq<Byte>)
    ensures HexBytes(HexDigits(HexOf(b))) == b
  {
    if b != [] {
      HexRoundTrip(b[1..]);
      var s := HexOf(b);
      var hi, lo := b[0] / 16, b[0] % 16;
      assert HexValue(HexDigit(hi)) == hi && HexValue(HexDigit(lo)) == lo;
      assert s[1..][1..] == HexOf(b[1..]);
      assert HexDigits(s[1..]) == [lo] + HexDigits(HexOf(b[1..]));
      var d := HexDigits(s);
      assert d[2..] == HexDigits(HexOf(b[1..]));
    }
  }

  method HexEncode(b: seq<Byte>) returns (out: string)
    ensures out == HexOf(b)
  {
    out := [];
    ghost var goal, todo := HexOf(b), HexOf(b);
    assert b[0..] == b;
    for i := 0 to |b|
      invariant todo == HexOf(b[i..]) && goal == out + todo
    {
      DropDrop(b, i, 1);
      var v := b[i];
      Produce(goal, out, todo, [HexDigit(v / 16), HexDigit(v % 16)], HexOf(b[i + 1..]));
      todo := HexOf(b[i + 1..]);
      assert v < 16 ==> "0" + [HexDigit(v)] == [HexDigit(v / 16), HexDigit(v % 16)];
      out := out + (if v < 16 then "0" + [HexDigit(v)] else [HexDigit(v / 16), HexDigit(v % 16)]);
    }
  }

  /** `str.replace(/[^0-9a-fA-F]/g, "")`. */
  function CleanHex(s: string): string {
    if s == [] then [] else if HexValue(s[0]) >= 0 then [s[0]] + CleanHex(s[1..]) else CleanHex(s[1..])
  }

  lemma {:induction false} CleanHexDigits(s: string)
    ensures |HexDigits(s)| == |CleanHex(s)|
    ensures forall i :: 0 <= i < |CleanHex(s)| ==> HexDigits(s)[i] == HexValue(CleanHex(s)[i])
  {
    if s != [] {
      CleanHexDigits(s[1..]);
    }
  }

  lemma {:induction false} HexByteAt(d: seq<int>, k: nat)
    requires forall i :: 0 <= i < |d| ==> 0 <= d[i] < 16
    ensures |HexBytes(d)| == |d| / 2
    ensures k < |d| / 2 ==> HexBytes(d)[k] == d[2 * k] * 16 + d[2 * k + 1]
  {
    if |d| >= 2 {
      HexByteAt(d[2..], if k == 0 then 0 else k - 1);
    }
  }

  method HexDecode(s: string) returns (out: array<Byte>)
    ensures out[..] == HexBytes(HexDigits(s))
  {
    var clean := CleanHex(s);
    CleanHexDigits(s);
    ghost var d := HexDigits(s);
    ghost var u := HexBytes(d);
    HexByteAt(d, 0);
    out := new Byte[|clean| / 2](_ => 0);
    for k := 0 to |clean| / 2
      invariant out[..k] == u[..k]
    {
      HexByteAt(d, k);
      out[k] := HexValue(clean[2 * k]) * 16 + HexValue(clean[2 * k + 1]);
    }
  }
}
