/**
 * Wide strings as UTF-8 (gtest.cc): CodePointToUtf8 and WideStringToUtf8 against the strict decoders of RFC 3629
 * (UTF-8, section 3) and RFC 2781 (UTF-16, section 2.2).
 */
module Utf8 {
  import opened Helpers
  import opened Ordering

  type Octet = b: bv32 | b <= 0xFF

  // ---- one code point

  const MAX1: bv32 := 0x7F
  const MAX2: bv32 := 0x7FF
  const MAX3: bv32 := 0xFFFF
  const MAX4: bv32 := 0x1F_FFFF

  /** The `n` lowest bits, and the rest shifted down. */
  function ChopLowBits(bits: bv32, n: bv32): (bv32, bv32)
    requires n < 32
  {
    (bits & ((1 << n) - 1), bits >> n)
  }

  function HexOctet(d: bv32): (b: Octet)
    requires d <= 0xF
    ensures 0 < b <= 0x7F
  {
    if d <= 9 then 0x30 + d else 0x37 + d
  }

  /** `%X` of a number with at most `n` digits. */
  function Hex(x: bv32, n: nat): (s: seq<Octet>)
    ensures |s| <= n + 1 && forall i :: 0 <= i < |s| ==> 0 < s[i] <= 0x7F
  {
    if x <= 0xF || n == 0 then [HexOctet(x & 0xF)] else Hex(x >> 4, n - 1) + [HexOctet(x & 0xF)]
  }

  /** "(Invalid Unicode 0x" */
  const INVALID: seq<Octet> := [
    0x28, 0x49, 0x6E, 0x76, 0x61, 0x6C, 0x69, 0x64, 0x20, 0x55, 0x6E, 0x69, 0x63, 0x6F, 0x64, 0x65, 0x20, 0x30, 0x78]

  predicate Tail(b: Octet) {
    b & 0xC0 == 0x80
  }

  predicate Lead2(b: Octet) {
    b & 0xE0 == 0xC0
  }

  predicate Lead3(b: Octet) {
    b & 0xF0 == 0xE0
  }

  predicate Lead4(b: Octet) {
    b & 0xF8 == 0xF0
  }

  function Head2(c: bv32): (b: Octet)
    requires c <= MAX2
    ensures Lead2(b) && b > 0x7F
  {
    0xC0 | (c >> 6)
  }

  function Head3(c: bv32): (b: Octet)
    requires c <= MAX3
    ensures Lead3(b) && !Lead2(b) && b > 0x7F
  {
    0xE0 | (c >> 12)
  }

  function Head4(c: bv32): (b: Octet)
    requires c <= MAX4
    ensures Lead4(b) && !Lead3(b) && !Lead2(b) && b > 0x7F
  {
    0xF0 | (c >> 18)
  }

  /** The continuation byte with the six bits from bit `n`. */
  function Tail6(c: bv32, n: bv32): (b: Octet)
    requires n < 32
    ensures Tail(b)
  {
    0x80 | ((c >> n) & 0x3F)
  }

  /** The bytes for a code point; more than 21 bits are spelled out as an error. */
  function Encoded(c: bv32): seq<Octet> {
    if c <= MAX1 then [c]
    else if c <= MAX2 then [Head2(c), Tail6(c, 0)]
    else if c <= MAX3 then [Head3(c), Tail6(c, 6), Tail6(c, 0)]
    else if c <= MAX4 then [Head4(c), Tail6(c, 12), Tail6(c, 6), Tail6(c, 0)]
    else INVALID + Hex(c, 7) + [0x29]
  }

  function EncodedAll(cs: seq<bv32>): seq<Octet> {
    if cs == [] then [] else Encoded(cs[0]) + EncodedAll(cs[1..])
  }

  // ---- strict decoding of UTF-8

  predicate Surrogate(c: bv32) {
    0xD800 <= c <= 0xDFFF
  }

  /** A Unicode scalar value: what UTF-8 and UTF-16 can carry. */
  predicate Scalar(c: bv32) {
    c <= 0x10_FFFF && !Surrogate(c)
  }

  predicate AllScalar(cs: seq<bv32>) {
    forall i :: 0 <= i < |cs| ==> Scalar(cs[i])
  }

  /** A continuation byte at position `i`. */
  predicate Continues(s: seq<Octet>, i: nat) {
    i < |s| && Tail(s[i])
  }

  function Join2(a: Octet, b: Octet): bv32 {
    ((a & 0x1F) << 6) | (b & 0x3F)
  }

  function Join3(a: Octet, b: Octet, c: Octet): bv32 {
    ((a & 0xF) << 12) | ((b & 0x3F) << 6) | (c & 0x3F)
  }

  function Join4(a: Octet, b: Octet, c: Octet, d: Octet): bv32 {
    ((a & 0x7) << 18) | ((b & 0x3F) << 12) | ((c & 0x3F) << 6) | (d & 0x3F)
  }

  /** The first character and its length, if it is well formed: no overlong form, no surrogate, nothing too large. */
  function DecodeFirst(s: seq<Octet>): (r: Option<(bv32, nat)>)
    ensures r.Some? ==> 1 <= r.value.1 <= |s|
  {
    if s == [] then None
    else if s[0] <= 0x7F then Some((s[0], 1))
    else if Lead2(s[0]) && Continues(s, 1) then Checked(Join2(s[0], s[1]), 0x80, 2)
    else if Lead3(s[0]) && Continues(s, 1) && Continues(s, 2) then Checked(Join3(s[0], s[1], s[2]), 0x800, 3)
    else if Lead4(s[0]) && Continues(s, 1) && Continues(s, 2) && Continues(s, 3) then
      Checked(Join4(s[0], s[1], s[2], s[3]), 0x1_0000, 4)
    else None
  }

  function Checked(c: bv32, least: bv32, n: nat): (r: Option<(bv32, nat)>)
    ensures r.Some? ==> r.value.1 == n
  {
    if least <= c && Scalar(c) then Some((c, n)) else None
  }

  function DecodeUtf8(s: seq<Octet>): Option<seq<bv32>>
    decreases |s|
  {
    if s == [] then Some([])
    else
      match DecodeFirst(s)
      case None => None
      case Some((c, n)) =>
        match DecodeUtf8(s[n..])
        case None => None
        case Some(cs) => Some([c] + cs)
  }

  /** The encoding of a code point of up to 21 bits decodes to it if it is a scalar value and is malformed otherwise. */
  lemma DecodeEncodedFirst(c: bv32, rest: seq<Octet>)
    requires c <= MAX4
    ensures DecodeFirst(Encoded(c) + rest) == if Scalar(c) then Some((c, |Encoded(c)|)) else None
  {
    if c <= MAX1 {
    } else if c <= MAX2 {
      Two(c, rest);
    } else if c <= MAX3 {
      Three(c, rest);
    } else {
      Four(c, rest);
    }
  }

  lemma Join2Split(c: bv32)
    requires c <= MAX2
    ensures Join2(Head2(c), Tail6(c, 0)) == c
  {
  }

  lemma Join3Split(c: bv32)
    requires c <= MAX3
    ensures Join3(Head3(c), Tail6(c, 6), Tail6(c, 0)) == c
  {
  }

  lemma Join4Split(c: bv32)
    requires c <= MAX4
    ensures Join4(Head4(c), Tail6(c, 12), Tail6(c, 6), Tail6(c, 0)) == c
  {
  }

  lemma Two(c: bv32, rest: seq<Octet>)
    requires MAX1 < c <= MAX2
    ensures DecodeFirst(Encoded(c) + rest) == if Scalar(c) then Some((c, |Encoded(c)|)) else None
  {
    hide Lead2, Tail, Join2, Head2, Tail6, Scalar;
    Join2Split(c);
  }

  lemma Three(c: bv32, rest: seq<Octet>)
    requires MAX2 < c <= MAX3
    ensures DecodeFirst(Encoded(c) + rest) == if Scalar(c) then Some((c, |Encoded(c)|)) else None
  {
    hide Lead2, Lead3, Tail, Join3, Head3, Tail6, Scalar;
    Join3Split(c);
  }

  lemma Four(c: bv32, rest: seq<Octet>)
    requires MAX3 < c <= MAX4
    ensures DecodeFirst(Encoded(c) + rest) == if Scalar(c) then Some((c, |Encoded(c)|)) else None
  {
    hide Lead2, Lead3, Lead4, Tail, Join4, Head4, Tail6, Scalar;
    Join4Split(c);
  }

  /** What can be read of a number: itself, or the error text. */
  function Shown(c: bv32): seq<bv32> {
    if c <= MAX4 then [c] else Encoded(c)
  }

  function ShownAll(cs: seq<bv32>): seq<bv32> {
    if cs == [] then [] else Shown(cs[0]) + ShownAll(cs[1..])
  }

  predicate Legible(c: bv32) {
    Scalar(c) || c > MAX4
  }

  predicate AllLegible(cs: seq<bv32>) {
    forall i :: 0 <= i < |cs| ==> Legible(cs[i])
  }

  function Prepend(a: seq<bv32>, r: Option<seq<bv32>>): Option<seq<bv32>> {
    if r.Some? then Some(a + r.value) else None
  }

  lemma DecodeStep(a: seq<Octet>, rest: seq<Octet>)
    requires a != []
    requires DecodeFirst(a + rest).Some? ==> DecodeFirst(a + rest).value.1 == |a|
    ensures DecodeFirst(a + rest).None? ==> DecodeUtf8(a + rest) == None
    ensures DecodeFirst(a + rest).Some? ==>
      DecodeUtf8(a + rest) == Prepend([DecodeFirst(a + rest).value.0], DecodeUtf8(rest))
  {
    hide DecodeFirst;
    assert (a + rest)[|a|..] == rest;
  }

  lemma {:induction false} AsciiDecodes(a: seq<Octet>, rest: seq<Octet>)
    requires forall i :: 0 <= i < |a| ==> a[i] <= 0x7F
    ensures DecodeUtf8(a + rest) == Prepend(a, DecodeUtf8(rest))
  {
    hide DecodeUtf8, DecodeFirst, Prepend;
    if a == [] {
      assert a + rest == rest;
      PrependNothing(DecodeUtf8(rest));
    } else {
      AsciiDecodes(a[1..], rest);
      AsciiFirst(a[0], a[1..] + rest);
      DecodeStep([a[0]], a[1..] + rest);
      assert a + rest == [a[0]] + (a[1..] + rest);
      assert a == [a[0]] + a[1..];
      PrependTwice([a[0]], a[1..], DecodeUtf8(rest));
    }
  }

  lemma PrependNothing(r: Option<seq<bv32>>)
    ensures Prepend([], r) == r
  {
    if r.Some? {
      assert [] + r.value == r.value;
    }
  }

  lemma PrependTwice(a: seq<bv32>, b: seq<bv32>, r: Option<seq<bv32>>)
    ensures Prepend(a, Prepend(b, r)) == Prepend(a + b, r)
  {
    if r.Some? {
      assert a + (b + r.value) == a + b + r.value;
    }
  }

  lemma AsciiFirst(b: Octet, rest: seq<Octet>)
    requires b <= 0x7F
    ensures DecodeFirst([b] + rest) == Some((b, 1))
  {
  }

  lemma ErrorTextIsAscii(c: bv32)
    requires c > MAX4
    ensures forall i :: 0 <= i < |Encoded(c)| ==> Encoded(c)[i] <= 0x7F
  {
    hide Hex;
  }

  /** One number in front of others. */
  lemma DecodeEncodedNext(c: bv32, rest: seq<Octet>)
    ensures DecodeUtf8(Encoded(c) + rest) == if Legible(c) then Prepend(Shown(c), DecodeUtf8(rest)) else None
  {
    hide DecodeFirst, Encoded, Scalar, DecodeUtf8;
    EncodedNonEmpty(c);
    if c <= MAX4 {
      DecodeEncodedFirst(c, rest);
      DecodeStep(Encoded(c), rest);
    } else {
      ErrorTextIsAscii(c);
      AsciiDecodes(Encoded(c), rest);
    }
  }

  /** The bytes for any numbers decode to what can be read of them; one surrogate or number in between spoils it. */
  lemma {:induction false} DecodeEncodedAll(cs: seq<bv32>)
    ensures DecodeUtf8(EncodedAll(cs)) == if AllLegible(cs) then Some(ShownAll(cs)) else None
  {
    hide DecodeFirst, Encoded, Legible, Shown;
    if cs != [] {
      DecodeEncodedNext(cs[0], EncodedAll(cs[1..]));
      DecodeEncodedAll(cs[1..]);
      AllNext(cs);
    }
  }

  lemma {:induction false} ShownIsSame(cs: seq<bv32>)
    requires forall i :: 0 <= i < |cs| ==> cs[i] <= MAX4
    ensures ShownAll(cs) == cs && (AllLegible(cs) <==> AllScalar(cs))
  {
    hide Legible, Scalar, Encoded;
    if cs != [] {
      ShownIsSame(cs[1..]);
      LegibleIsScalar(cs[0]);
      AllNext(cs);
    }
  }

  lemma LegibleIsScalar(c: bv32)
    requires c <= MAX4
    ensures Legible(c) <==> Scalar(c)
  {
  }

  lemma AllNext(cs: seq<bv32>)
    requires cs != []
    ensures AllLegible(cs) <==> Legible(cs[0]) && AllLegible(cs[1..])
    ensures AllScalar(cs) <==> Scalar(cs[0]) && AllScalar(cs[1..])
  {
    hide Legible, Scalar;
    assert cs == [cs[0]] + cs[1..];
  }

  /** Only scalar values are ever decoded. */
  lemma {:induction false} DecodedIsScalar(s: seq<Octet>)
    ensures DecodeUtf8(s).Some? ==> AllScalar(DecodeUtf8(s).value)
    decreases |s|
  {
    hide Scalar;
    if s != [] && DecodeFirst(s).Some? {
      FirstIsScalar(s);
      DecodedIsScalar(s[DecodeFirst(s).value.1..]);
    }
  }

  lemma FirstIsScalar(s: seq<Octet>)
    ensures DecodeFirst(s).Some? ==> Scalar(DecodeFirst(s).value.0)
  {
  }

  lemma EncodedNonEmpty(c: bv32)
    ensures 1 <= |Encoded(c)| <= 28
  {
  }

  // ---- UTF-16

  predicate High(u: bv32) {
    0xD800 <= u <= 0xDBFF
  }

  predicate Low(u: bv32) {
    0xDC00 <= u <= 0xDFFF
  }

  function Pair(first: bv32, second: bv32): bv32 {
    0x1_0000 + (((first & 0x3FF) << 10) | (second & 0x3FF))
  }

  /** UTF-16 as RFC 2781 decodes it: a surrogate outside a pair is an error. */
  function DecodeUtf16(u: seq<bv32>): Option<seq<bv32>>
    decreases |u|
  {
    if u == [] then Some([])
    else if !Surrogate(u[0]) then
      match DecodeUtf16(u[1..])
      case None => None
      case Some(cs) => Some([u[0]] + cs)
    else if High(u[0]) && |u| >= 2 && Low(u[1]) then
      match DecodeUtf16(u[2..])
      case None => None
      case Some(cs) => Some([Pair(u[0], u[1])] + cs)
    else None
  }

  // ---- what the program makes of a wide string

  /** IsUtf16SurrogatePair, for a wchar_t of `size` bytes. */
  predicate IsSurrogatePair(size: int, first: bv32, second: bv32) {
    size == 2 && first & 0xFC00 == 0xD800 && second & 0xFC00 == 0xDC00
  }

  /** The code points: surrogates outside a pair stand for themselves. */
  function CodePoints(size: int, u: seq<bv32>): seq<bv32>
    decreases |u|
  {
    if u == [] then []
    else if |u| >= 2 && IsSurrogatePair(size, u[0], u[1]) then [Pair(u[0], u[1])] + CodePoints(size, u[2..])
    else [u[0]] + CodePoints(size, u[1..])
  }

  lemma PairBits(first: bv32, second: bv32)
    requires first <= 0xFFFF && second <= 0xFFFF
    ensures IsSurrogatePair(2, first, second) <==> High(first) && Low(second)
    ensures Pair(first, second) <= 0x10_FFFF && Scalar(Pair(first, second))
  {
  }

  /** The code points of 16-bit units are what UTF-16 decodes to, except that a lone surrogate is no error. */
  lemma {:induction false} CodePointsAreUtf16(u: seq<bv32>)
    requires forall i :: 0 <= i < |u| ==> u[i] <= 0xFFFF
    ensures var cs := CodePoints(2, u); DecodeUtf16(u) == if AllScalar(cs) then Some(cs) else None
    ensures forall i :: 0 <= i < |CodePoints(2, u)| ==> CodePoints(2, u)[i] <= 0x10_FFFF
    decreases |u|
  {
    hide Pair, IsSurrogatePair, Scalar, High, Low;
    if u != [] {
      UnitIsScalar(u[0]);
      if |u| >= 2 {
        PairBits(u[0], u[1]);
      }
      if |u| >= 2 && IsSurrogatePair(2, u[0], u[1]) {
        CodePointsAreUtf16(u[2..]);
        FirstScalar(Pair(u[0], u[1]), CodePoints(2, u[2..]));
      } else {
        CodePointsAreUtf16(u[1..]);
        FirstScalar(u[0], CodePoints(2, u[1..]));
      }
    }
  }

  lemma UnitIsScalar(u: bv32)
    requires u <= 0xFFFF
    ensures Scalar(u) <==> !Surrogate(u)
    ensures High(u) ==> Surrogate(u)
  {
  }

  lemma FirstScalar(c: bv32, cs: seq<bv32>)
    ensures AllScalar([c] + cs) <==> Scalar(c) && AllScalar(cs)
  {
    hide Scalar;
    assert forall i :: 0 <= i < |cs| ==> ([c] + cs)[i + 1] == cs[i];
    assert ([c] + cs)[0] == c;
  }

  // ---- the conversion of a whole string

  /** The position of the first NUL, or the length. */
  function Terminator(str: seq<bv32>): (n: nat)
    ensures n <= |str| && (n < |str| ==> str[n] == 0) && forall i :: 0 <= i < n ==> str[i] != 0
  {
    if str == [] || str[0] == 0 then 0 else 1 + Terminator(str[1..])
  }

  /** The units that are converted: up to a NUL, and at most `numChars` unless that is -1. */
  function Units(str: seq<bv32>, numChars: int): seq<bv32> {
    var limit := if numChars == -1 then ToInt32(Terminator(str)) else numChars;
    str[..if limit < 0 then 0 else if limit < Terminator(str) then limit else Terminator(str)]
  }

  /** They are the longest piece of the string without a NUL and within the limit. */
  lemma UnitsAre(str: seq<bv32>, numChars: int)
    requires numChars >= -1 && |str| < 0x8000_0000
    ensures
      var u := Units(str, numChars);
      && |u| <= |str| && u == str[..|u|] && (forall i :: 0 <= i < |u| ==> u[i] != 0)
      && (numChars >= 0 ==> |u| <= numChars)
      && (|u| == |str| || str[|u|] == 0 || |u| == numChars)
  {
  }

  /** The characters of a C string in an array. */
  predicate Spells(a: seq<Octet>, s: seq<Octet>) {
    |s| < |a| && a[|s|] == 0 && forall i :: 0 <= i < |s| ==> a[i] == s[i] != 0
  }

  lemma NoNulInside(c: bv32)
    ensures c != 0 ==> forall i :: 0 <= i < |Encoded(c)| ==> Encoded(c)[i] != 0
  {
    hide Hex;
    assert forall b: Octet :: Tail(b) ==> b != 0;
  }

  /** The bits of a byte: a mark and the payload. */
  function Or(mark: bv32, bits: bv32): bv32 {
    mark | bits
  }

  /** Chopping six bits at a time gives the continuation bytes from the last to the first. */
  lemma ChopFirst(c: bv32)
    ensures ChopLowBits(c, 6).1 == c >> 6 && Or(0x80, ChopLowBits(c, 6).0) == Tail6(c, 0)
  {
  }

  lemma ChopSecond(c: bv32)
    ensures ChopLowBits(c >> 6, 6).1 == c >> 12 && Or(0x80, ChopLowBits(c >> 6, 6).0) == Tail6(c, 6)
  {
  }

  lemma ChopThird(c: bv32)
    ensures ChopLowBits(c >> 12, 6).1 == c >> 18 && Or(0x80, ChopLowBits(c >> 12, 6).0) == Tail6(c, 12)
  {
  }

  lemma OneByte(c: bv32)
    requires c <= MAX1
    ensures Encoded(c) == [c]
  {
  }

  lemma ChoppedTwo(c: bv32)
    requires MAX1 < c <= MAX2
    ensures
      var (a, c1) := ChopLowBits(c, 6);
      Or(0x80, a) <= 0xFF && Or(0xC0, c1) <= 0xFF && Encoded(c) == [Or(0xC0, c1), Or(0x80, a)]
  {
    ChopFirst(c);
  }

  lemma ChoppedThree(c: bv32)
    requires MAX2 < c <= MAX3
    ensures
      var (a, c1) := ChopLowBits(c, 6);
      var (b, c2) := ChopLowBits(c1, 6);
      && Or(0x80, a) <= 0xFF && Or(0x80, b) <= 0xFF && Or(0xE0, c2) <= 0xFF
      && Encoded(c) == [Or(0xE0, c2), Or(0x80, b), Or(0x80, a)]
  {
    hide ChopLowBits;
    ChopFirst(c);
    ChopSecond(c);
  }

  lemma ChoppedFour(c: bv32)
    requires MAX3 < c <= MAX4
    ensures
      var (a, c1) := ChopLowBits(c, 6);
      var (b, c2) := ChopLowBits(c1, 6);
      var (d, c3) := ChopLowBits(c2, 6);
      && Or(0x80, a) <= 0xFF && Or(0x80, b) <= 0xFF && Or(0x80, d) <= 0xFF && Or(0xF0, c3) <= 0xFF
      && Encoded(c) == [Or(0xF0, c3), Or(0x80, d), Or(0x80, b), Or(0x80, a)]
  {
    hide ChopLowBits;
    ChopFirst(c);
    ChopSecond(c);
    ChopThird(c);
  }

  /** Copies a C string and its terminator. */
  method StrNCpy(str: array<Octet>, text: seq<Octet>)
    requires |text| < 31 < str.Length && forall i :: 0 <= i < |text| ==> text[i] != 0
    modifies str
    ensures forall i :: 0 <= i < |text| ==> str[i] == text[i]
    ensures str[|text|] == 0
  {
    for i := 0 to |text|
      invariant forall j :: 0 <= j < i ==> str[j] == text[j]
    {
      str[i] := text[i];
    }
    str[|text|] := 0;
  }

  /** The branch of CodePointToUtf8 for four bytes. */
  method FourBytes(codePoint: bv32, str: array<Octet>)
    requires MAX3 < codePoint <= MAX4 && str.Length >= 32
    modifies str
    ensures Spells(str[..], Encoded(codePoint))
  {
    hide Hex, ChopLowBits, Or, Encoded;
    NoNulInside(codePoint);
    ChoppedFour(codePoint);
    str[4] := 0;
    var low := ChopLowBits(codePoint, 6);
    var c := low.1;
    str[3] := Or(0x80, low.0);
    low := ChopLowBits(c, 6);
    str[2], c := Or(0x80, low.0), low.1;
    low := ChopLowBits(c, 6);
    str[1], c := Or(0x80, low.0), low.1;
    str[0] := Or(0xF0, c);
  }

  /** Fills `str` with the bytes for a code point and a NUL. */
  method CodePointToUtf8(codePoint: bv32, str: array<Octet>)
    requires str.Length >= 32
    modifies str
    ensures codePoint != 0 ==> Spells(str[..], Encoded(codePoint))
    ensures codePoint == 0 ==> str[0] == 0
  {
    hide Hex, ChopLowBits, Or, Encoded;
    NoNulInside(codePoint);
    EncodedNonEmpty(codePoint);
    var c := codePoint;
    if c <= MAX1 {
      OneByte(c);
      str[1] := 0;
      str[0] := c;
    } else if c <= MAX2 {
      ChoppedTwo(codePoint);
      str[2] := 0;
      var low := ChopLowBits(c, 6);
      str[1], c := Or(0x80, low.0), low.1;
      str[0] := Or(0xC0, c);
    } else if c <= MAX3 {
      ChoppedThree(codePoint);
      str[3] := 0;
      var low := ChopLowBits(c, 6);
      str[2], c := Or(0x80, low.0), low.1;
      low := ChopLowBits(c, 6);
      str[1], c := Or(0x80, low.0), low.1;
      str[0] := Or(0xE0, c);
    } else if c <= MAX4 {
      FourBytes(c, str);
    } else {
      StrNCpy(str, Encoded(codePoint));
      str[31] := 0;
    }
  }

  lemma SpelledIsRead(a: seq<Octet>, s: seq<Octet>)
    requires Spells(a, s)
    ensures a[..Terminator(a)] == s
  {
  }

  /** The memory that the conversion may read: up to a NUL, or as far as `numChars` reaches. */
  predicate Readable(size: int, str: seq<bv32>, numChars: int) {
    && (size == 2 || size == 4) && (size == 2 ==> forall i :: 0 <= i < |str| ==> str[i] <= 0xFFFF)
    && (numChars == -1 || numChars > |str| ==> Terminator(str) < |str|)
  }

  method WideStringToUtf8(size: int, str: seq<bv32>, numChars: int) returns (stream: seq<Octet>)
    requires Readable(size, str, numChars)
    ensures stream == EncodedAll(CodePoints(size, Units(str, numChars)))
  {
    hide EncodedAll, CodePoints, IsSurrogatePair, Pair, Encoded, Spells, Terminator;
    var num := numChars;
    if num == -1 {
      num := ToInt32(Terminator(str));
    }
    ghost var u := Units(str, numChars);
    stream := [];
    var i := 0;
    assert u[0..] == u;
    while i < num
      invariant 0 <= i <= |u|
      invariant stream + EncodedAll(CodePoints(size, u[i..])) == EncodedAll(CodePoints(size, u))
      decreases num - i
    {
      var codePoint: bv32;
      NextCodePoint(size, u, i);
      NulIsNoSurrogate(size, str[i]);
      if str[i] == 0 {
        break;
      } else if i + 1 < num && IsSurrogatePair(size, str[i], str[i + 1]) {
        codePoint := Pair(str[i], str[i + 1]);
        PairIsNotNul(str[i], str[i + 1]);
        i := i + 1;
      } else {
        codePoint := str[i];
      }
      var buffer := new Octet[32];
      CodePointToUtf8(codePoint, buffer);
      SpelledIsRead(buffer[..], Encoded(codePoint));
      stream := stream + buffer[..Terminator(buffer[..])];
      i := i + 1;
    }
    assert i == |u|;
    NextCodePoint(size, u, i);
  }

  lemma PairIsNotNul(first: bv32, second: bv32)
    ensures Pair(first, second) != 0
  {
  }

  lemma NulIsNoSurrogate(size: int, first: bv32)
    ensures !IsSurrogatePair(size, first, 0)
  {
  }

  /** One turn of the conversion loop at unit `i`. */
  lemma NextCodePoint(size: int, u: seq<bv32>, i: nat)
    requires i <= |u|
    ensures i == |u| ==> EncodedAll(CodePoints(size, u[i..])) == []
    ensures i + 1 < |u| && IsSurrogatePair(size, u[i], u[i + 1]) ==>
      EncodedAll(CodePoints(size, u[i..])) == Encoded(Pair(u[i], u[i + 1])) + EncodedAll(CodePoints(size, u[i + 2..]))
    ensures i < |u| && !(i + 1 < |u| && IsSurrogatePair(size, u[i], u[i + 1])) ==>
      EncodedAll(CodePoints(size, u[i..])) == Encoded(u[i]) + EncodedAll(CodePoints(size, u[i + 1..]))
  {
    hide IsSurrogatePair, Pair, Encoded;
    if i < |u| {
      assert u[i..][1..] == u[i + 1..];
      if i + 1 < |u| {
        assert u[i..][2..] == u[i + 2..];
      }
    }
  }

  // ---- what the conversion means

  /**
   * With a 16-bit wchar_t the bytes decode to what the wide string decodes to as UTF-16, and are malformed exactly if
   * it is: a lone surrogate is encoded like any other unit.
   */
  lemma Utf16IsPreserved(u: seq<bv32>)
    requires forall i :: 0 <= i < |u| ==> u[i] <= 0xFFFF
    ensures DecodeUtf8(EncodedAll(CodePoints(2, u))) == DecodeUtf16(u)
  {
    hide Scalar;
    CodePointsAreUtf16(u);
    DecodeEncodedAll(CodePoints(2, u));
    ShownIsSame(CodePoints(2, u));
  }

  /**
   * With a 32-bit wchar_t the bytes decode to the units exactly if these are scalar values; beyond that, numbers of more
   * than 21 bits read as the error text and everything else is malformed.
   */
  lemma Utf32IsPreserved(u: seq<bv32>)
    ensures DecodeUtf8(EncodedAll(CodePoints(4, u))) == if AllLegible(u) then Some(ShownAll(u)) else None
    ensures DecodeUtf8(EncodedAll(CodePoints(4, u))) == Some(u) <==> AllScalar(u)
  {
    hide AllLegible, EncodedAll, DecodeUtf8, ShownAll;
    CodePointsAreUnits(u);
    DecodeEncodedAll(u);
    DecodedIsScalar(EncodedAll(u));
    if AllScalar(u) {
      assert forall i :: 0 <= i < |u| ==> Scalar(u[i]);
      ShownIsSame(u);
    }
  }

  lemma {:induction false} CodePointsAreUnits(u: seq<bv32>)
    ensures CodePoints(4, u) == u
  {
    if u != [] {
      CodePointsAreUnits(u[1..]);
    }
  }

  /**
   * The error text is promised for everything above U+10FFFF but appears only above 21 bits; in between the bytes are
   * four and malformed.
   */
  lemma ErrorTextIff(c: bv32)
    ensures INVALID <= Encoded(c) <==> c > MAX4
    ensures 0x10_FFFF < c <= MAX4 ==> |Encoded(c)| == 4 && DecodeFirst(Encoded(c)) == None
  {
    hide Hex, DecodeFirst;
    if c > MAX4 {
      assert Encoded(c) == INVALID + (Hex(c, 7) + [0x29]);
    } else {
      DecodeEncodedFirst(c, []);
      assert Encoded(c) + [] == Encoded(c);
    }
  }

  // ---- the number in the error text

  /** The value of a hexadecimal digit, upper case. */
  function DigitValue(b: Octet): bv32 {
    if 0x30 <= b <= 0x39 then b - 0x30 else if 0x41 <= b <= 0x46 then b - 0x37 else 0
  }

  function ReadHex(s: seq<Octet>): bv32 {
    if s == [] then 0 else (ReadHex(s[..|s| - 1]) << 4) | DigitValue(s[|s| - 1])
  }

  /** `x` has at most `n` + 1 hexadecimal digits. */
  predicate HasDigits(x: bv32, n: nat) {
    if n == 0 then x <= 0xF else HasDigits(x >> 4, n - 1)
  }

  lemma DigitReads(d: bv32)
    requires d <= 0xF
    ensures DigitValue(HexOctet(d)) == d
  {
  }

  lemma {:induction false} HexReads(x: bv32, n: nat)
    requires HasDigits(x, n)
    ensures ReadHex(Hex(x, n)) == x && Hex(x, n) != []
    ensures Hex(x, n)[0] == 0x30 ==> x == 0
    decreases n
  {
    hide ReadHex, Hex, HexOctet, DigitValue;
    HexLast(x, n);
    if x <= 0xF || n == 0 {
      FewDigits(x, n);
      OneDigitReads(x);
    } else {
      DigitReads(x & 0xF);
      LowDigit(x);
      HexReads(x >> 4, n - 1);
      ReadLast(Hex(x >> 4, n - 1), HexOctet(x & 0xF));
    }
  }

  lemma OneDigitReads(x: bv32)
    requires x <= 0xF
    ensures ReadHex([HexOctet(x & 0xF)]) == x && (HexOctet(x & 0xF) == 0x30 ==> x == 0)
  {
    hide ReadHex, HexOctet, DigitValue;
    DigitReads(x & 0xF);
    LowDigit(x);
    ReadLast([], HexOctet(x & 0xF));
    assert [] + [HexOctet(x & 0xF)] == [HexOctet(x & 0xF)];
    NothingReads();
    OnlyDigit(x & 0xF);
  }

  lemma HexLast(x: bv32, n: nat)
    ensures Hex(x, n) != []
    ensures Hex(x, n) == if x <= 0xF || n == 0 then [HexOctet(x & 0xF)] else Hex(x >> 4, n - 1) + [HexOctet(x & 0xF)]
    ensures x > 0xF && n > 0 ==> Hex(x >> 4, n - 1) != []
  {
  }

  lemma ReadLast(s: seq<Octet>, b: Octet)
    ensures ReadHex(s + [b]) == (ReadHex(s) << 4) | DigitValue(b)
  {
    assert (s + [b])[..|s|] == s;
  }

  lemma LowDigit(x: bv32)
    ensures ((x >> 4) << 4) | (x & 0xF) == x && x & 0xF <= 0xF && (x <= 0xF ==> x & 0xF == x)
    ensures x > 0xF ==> x >> 4 != 0
    ensures (0 as bv32 << 4) | (x & 0xF) == x & 0xF
  {
  }

  lemma FewDigits(x: bv32, n: nat)
    requires HasDigits(x, n) && (x <= 0xF || n == 0)
    ensures x <= 0xF
  {
  }

  lemma OnlyDigit(d: bv32)
    requires d <= 0xF
    ensures HexOctet(d) == 0x30 ==> d == 0
  {
  }

  lemma EightDigits(c: bv32)
    ensures HasDigits(c, 7)
  {
    var x := c >> 4 >> 4 >> 4 >> 4 >> 4 >> 4 >> 4;
    assert x <= 0xF;
    assert HasDigits(x, 0);
    assert HasDigits(c >> 4 >> 4 >> 4 >> 4 >> 4 >> 4, 1);
    assert HasDigits(c >> 4 >> 4 >> 4 >> 4, 3);
    assert HasDigits(c >> 4 >> 4, 5);
  }

  /** The error text holds the number, in upper-case hexadecimal without leading zeros. */
  lemma ErrorTextReads(c: bv32) returns (digits: seq<Octet>)
    requires c > MAX4
    ensures Encoded(c) == INVALID + digits + [0x29]
    ensures ReadHex(digits) == c && digits != [] && digits[0] != 0x30
  {
    hide Hex, HasDigits, ReadHex;
    digits := Hex(c, 7);
    EightDigits(c);
    HexReads(c, 7);
    if digits == [] {
      NothingReads();
    }
  }

  lemma NothingReads()
    ensures ReadHex([]) == 0
  {
  }
}
