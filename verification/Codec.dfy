/**
 * The byte format of a message (MP1/message/message.cc): printer, parser and the bound on the encode buffer.
 * Integers are four bytes in the order of a little-endian machine.
 */
module Codec {
  import opened Arithmetic
  import opened Ordering
  import opened Handlers
  import opened Helpers

  type Byte = x: int | 0 <= x < 256

  /** A message as it travels: every number is a 32-bit `int`. */
  datatype Wire = Wire(
    sender: Int32, number: Int32, clock: map<Int32, Int32>, kind: Kind, body: seq<Byte>,
    acks: map<Int32, Int32>, failed: set<Int32>)

  /** The ways in which the decoding constructor stops: an assertion, `std::length_error`, the end of the packet. */
  datatype Failure = BadSize | BadTag | BadLength | Truncated

  datatype Result<T> = Ok(value: T) | Err(error: Failure)

  // ---- integers

  function Bytes4(v: Int32): (b: seq<Byte>)
    ensures |b| == 4
  {
    var u := if v < 0 then v + 0x1_0000_0000 else v;
    [u % 256, u / 256 % 256, u / 0x1_0000 % 256, u / 0x100_0000]
  }

  function Int4(b: seq<Byte>): Int32
    requires |b| == 4
  {
    var u := (b[0] as int) + 256 * (b[1] as int) + 0x1_0000 * (b[2] as int) + 0x100_0000 * (b[3] as int);
    if u < 0x8000_0000 then u else u - 0x1_0000_0000
  }

  lemma Int4OfBytes4(v: Int32)
    ensures Int4(Bytes4(v)) == v
  {
    var u := if v < 0 then v + 0x1_0000_0000 else v;
    assert u / 256 / 256 == u / 0x1_0000 && u / 0x1_0000 / 256 == u / 0x100_0000;
  }

  // ---- printing

  function Tag(kind: Kind): Byte {
    match kind
    case HEARTBEAT => 'H' as int
    case RETRANSREQUEST => 'R' as int
    case MESSAGE => 'M' as int
  }

  function PrintText(body: seq<Byte>): seq<Byte> {
    Bytes4(ToInt32(|body| + 1)) + (body + [0])
  }

  function PrintHead(kind: Kind, body: seq<Byte>): seq<Byte> {
    Bytes4(1) + ([Tag(kind)] + (if kind == HEARTBEAT then [] else PrintText(body)))
  }

  function PrintOne(v: Int32): seq<Byte> {
    Bytes4(1) + Bytes4(v)
  }

  function PrintPair(k: Int32, v: Int32): (b: seq<Byte>)
    ensures |b| == 8
  {
    Bytes4(k) + Bytes4(v)
  }

  function PrintPairs(m: map<Int32, Int32>, keys: seq<Int32>): (b: seq<Byte>)
    requires forall k :: k in keys ==> k in m
    ensures |b| == 8 * |keys|
  {
    if keys == [] then [] else PrintPair(keys[0], m[keys[0]]) + PrintPairs(m, keys[1..])
  }

  function PrintInts(keys: seq<Int32>): (b: seq<Byte>)
    ensures |b| == 4 * |keys|
  {
    if keys == [] then [] else Bytes4(keys[0]) + PrintInts(keys[1..])
  }

  /** A map in ascending key order behind a count, which is `unit` for each entry. */
  function PrintMap(m: map<Int32, Int32>, unit: int): seq<Byte> {
    SortedElements(m.Keys);
    Bytes4(ToInt32(|m| * unit)) + PrintPairs(m, Sorted(m.Keys))
  }

  function PrintSet(s: set<Int32>): seq<Byte> {
    Bytes4(ToInt32(|s| * 4)) + PrintInts(Sorted(s))
  }

  function Encoded(m: Wire): seq<Byte> {
    PrintHead(m.kind, m.body)
    + (PrintOne(m.sender) + (PrintOne(m.number) + (PrintMap(m.acks, 8) + (PrintMap(m.clock, 4) + PrintSet(m.failed)))))
  }

  lemma NoPairs(m: map<Int32, Int32>)
    ensures PrintPairs(m, []) == []
  {
  }

  lemma {:induction false} PrintPairsSnoc(m: map<Int32, Int32>, keys: seq<Int32>, k: Int32)
    requires k in m && forall j :: j in keys ==> j in m
    ensures PrintPairs(m, keys + [k]) == PrintPairs(m, keys) + PrintPair(k, m[k])
  {
    if keys == [] {
      assert [k][1..] == [] && PrintPairs(m, []) == [];
      assert keys + [k] == [k];
    } else {
      PrintPairsSnoc(m, keys[1..], k);
      assert (keys + [k])[1..] == keys[1..] + [k];
    }
  }

  lemma {:induction false} PrintIntsSnoc(keys: seq<Int32>, k: Int32)
    ensures PrintInts(keys + [k]) == PrintInts(keys) + Bytes4(k)
  {
    if keys == [] {
      assert [k][1..] == [] && PrintInts([]) == [];
      assert keys + [k] == [k];
    } else {
      PrintIntsSnoc(keys[1..], k);
      assert (keys + [k])[1..] == keys[1..] + [k];
    }
  }

  // ---- parsing: every function takes the packet and a position, and returns what it read and the next position

  function Munch(d: seq<Byte>, p: nat): Result<Int32> {
    if p + 4 <= |d| then Ok(Int4(d[p..p + 4])) else Err(Truncated)
  }

  function ParseKind(tag: Byte): Result<Kind> {
    if tag == 'H' as int then Ok(HEARTBEAT)
    else if tag == 'R' as int then Ok(RETRANSREQUEST)
    else if tag == 'M' as int then Ok(MESSAGE)
    else Err(BadTag)
  }

  /** The body, its size and the terminator, which is skipped unread. */
  function ParseBody(d: seq<Byte>, p: nat): (r: Result<(seq<Byte>, nat)>)
    ensures r.Ok? ==> r.value.1 >= p + 5
  {
    match Munch(d, p)
    case Err(e) => Err(e)
    case Ok(size) =>
      if size <= 0 then Err(BadLength)
      else if p + 4 + size > |d| then Err(Truncated)
      else Ok((d[p + 4..p + 4 + size - 1], p + 4 + size))
  }

  function ParseHead(d: seq<Byte>, p: nat): Result<(Kind, seq<Byte>, nat)> {
    match Munch(d, p)
    case Err(e) => Err(e)
    case Ok(size) =>
      if size != 1 then Err(BadSize)
      else if p + 4 >= |d| then Err(Truncated)
      else
        match ParseKind(d[p + 4])
        case Err(e) => Err(e)
        case Ok(kind) =>
          if kind == HEARTBEAT then Ok((kind, [], p + 5))
          else
            match ParseBody(d, p + 5)
            case Err(e) => Err(e)
            case Ok((body, q)) => Ok((kind, body, q))
  }

  function ParseOne(d: seq<Byte>, p: nat): Result<Int32> {
    match Munch(d, p)
    case Err(e) => Err(e)
    case Ok(size) => if size != 1 then Err(BadSize) else Munch(d, p + 4)
  }

  /** `n` pairs, entered into `m` one after the other. */
  function ParsePairs(d: seq<Byte>, p: nat, n: int, m: map<Int32, Int32>): Result<(map<Int32, Int32>, nat)>
    decreases n
  {
    if n <= 0 then Ok((m, p))
    else
      match Munch(d, p)
      case Err(e) => Err(e)
      case Ok(k) =>
        match Munch(d, p + 4)
        case Err(e) => Err(e)
        case Ok(v) => ParsePairs(d, p + 8, n - 1, m[k := v])
  }

  function ParseInts(d: seq<Byte>, p: nat, n: int, s: set<Int32>): Result<(set<Int32>, nat)>
    decreases n
  {
    if n <= 0 then Ok((s, p))
    else
      match Munch(d, p)
      case Err(e) => Err(e)
      case Ok(k) => ParseInts(d, p + 4, n - 1, s + {k})
  }

  /** The number of entries is the count divided in 64-bit unsigned arithmetic, then stored in an `int`. */
  function ParseMap(d: seq<Byte>, p: nat, unit: int): Result<(map<Int32, Int32>, nat)>
    requires unit > 0
  {
    match Munch(d, p)
    case Err(e) => Err(e)
    case Ok(size) => ParsePairs(d, p + 4, EntryCount(size, unit), map[])
  }

  function ParseSet(d: seq<Byte>, p: nat): Result<(set<Int32>, nat)> {
    match Munch(d, p)
    case Err(e) => Err(e)
    case Ok(size) => ParseInts(d, p + 4, EntryCount(size, 4), {})
  }

  function EntryCount(size: Int32, unit: int): Int32
    requires unit > 0
  {
    ToInt32((if size < 0 then size + 0x1_0000_0000_0000_0000 else size) / unit)
  }

  function ParseRest(d: seq<Byte>, kind: Kind, body: seq<Byte>, p: nat): Result<(Wire, nat)> {
    match ParseOne(d, p)
    case Err(e) => Err(e)
    case Ok(sender) =>
      match ParseOne(d, p + 8)
      case Err(e) => Err(e)
      case Ok(number) =>
        match ParseMap(d, p + 16, 8)
        case Err(e) => Err(e)
        case Ok((acks, p1)) =>
          match ParseMap(d, p1, 4)
          case Err(e) => Err(e)
          case Ok((clock, p2)) =>
            match ParseSet(d, p2)
            case Err(e) => Err(e)
            case Ok((failed, p3)) => Ok((Wire(sender, number, clock, kind, body, acks, failed), p3))
  }

  /** The message in a packet and the number of bytes it takes. */
  function Decoded(d: seq<Byte>): Result<(Wire, nat)> {
    match ParseHead(d, 0)
    case Err(e) => Err(e)
    case Ok((kind, body, p)) => ParseRest(d, kind, body, p)
  }

  // ---- decoding undoes encoding

  /** `s` stands in the packet `d` at position `p`. */
  predicate Has(d: seq<Byte>, p: nat, s: seq<Byte>) {
    p + |s| <= |d| && d[p..p + |s|] == s
  }

  lemma HasParts(d: seq<Byte>, p: nat, a: seq<Byte>, b: seq<Byte>)
    requires Has(d, p, a + b)
    ensures Has(d, p, a) && Has(d, p + |a|, b)
  {
    assert d[p..p + |a|] == (a + b)[..|a|];
    assert d[p + |a|..p + |a| + |b|] == (a + b)[|a|..];
  }

  lemma MunchPrinted(d: seq<Byte>, p: nat, v: Int32)
    requires Has(d, p, Bytes4(v))
    ensures Munch(d, p) == Ok(v)
  {
    Int4OfBytes4(v);
  }

  lemma ParsePrintedOne(d: seq<Byte>, p: nat, v: Int32)
    requires Has(d, p, PrintOne(v))
    ensures ParseOne(d, p) == Ok(v)
  {
    hide Bytes4, Int4, Has, Munch;
    HasParts(d, p, Bytes4(1), Bytes4(v));
    MunchPrinted(d, p, 1);
    MunchPrinted(d, p + 4, v);
  }

  lemma ParsePrintedHead(d: seq<Byte>, p: nat, kind: Kind, body: seq<Byte>)
    requires Has(d, p, PrintHead(kind, body)) && |body| + 1 < 0x8000_0000
    ensures
      var end: nat := p + |PrintHead(kind, body)|;
      ParseHead(d, p) == Ok((kind, if kind == HEARTBEAT then [] else body, end))
  {
    hide Bytes4, Int4, Has, Munch, PrintText, ParseBody;
    var text := if kind == HEARTBEAT then [] else PrintText(body);
    HasParts(d, p, Bytes4(1), [Tag(kind)] + text);
    MunchPrinted(d, p, 1);
    HasParts(d, p + 4, [Tag(kind)], text);
    HasByte(d, p + 4, Tag(kind));
    if kind != HEARTBEAT {
      ParsePrintedBody(d, p + 5, body);
    }
  }

  lemma HasByte(d: seq<Byte>, p: nat, b: Byte)
    requires Has(d, p, [b])
    ensures p < |d| && d[p] == b
  {
    assert d[p..p + 1][0] == b;
  }

  lemma ParsePrintedBody(d: seq<Byte>, p: nat, body: seq<Byte>)
    requires |body| + 1 < 0x8000_0000 && Has(d, p, PrintText(body))
    ensures ParseBody(d, p) == Ok((body, p + |PrintText(body)|))
  {
    hide Bytes4, Int4;
    HasParts(d, p, Bytes4(|body| + 1), body + [0]);
    MunchPrinted(d, p, |body| + 1);
    HasParts(d, p + 4, body, [0]);
  }

  /** `acc` after the entries of `m` at `keys` have been entered. */
  function Entered(m: map<Int32, Int32>, keys: seq<Int32>, acc: map<Int32, Int32>): map<Int32, Int32>
    requires forall k :: k in keys ==> k in m
  {
    if keys == [] then acc else Entered(m, keys[1..], acc[keys[0] := m[keys[0]]])
  }

  lemma {:induction false} ParsePrintedPairs(
      d: seq<Byte>, p: nat, m: map<Int32, Int32>, keys: seq<Int32>, acc: map<Int32, Int32>)
    requires (forall k :: k in keys ==> k in m) && Has(d, p, PrintPairs(m, keys))
    ensures ParsePairs(d, p, |keys|, acc) == Ok((Entered(m, keys, acc), p + 8 * |keys|))
    decreases |keys|
  {
    hide Bytes4, Int4, Has, Munch;
    if keys != [] {
      var k := keys[0];
      HasParts(d, p, PrintPair(k, m[k]), PrintPairs(m, keys[1..]));
      HasParts(d, p, Bytes4(k), Bytes4(m[k]));
      MunchPrinted(d, p, k);
      MunchPrinted(d, p + 4, m[k]);
      ParsePrintedPairs(d, p + 8, m, keys[1..], acc[k := m[k]]);
    }
  }

  lemma {:induction false} EnteredAt(m: map<Int32, Int32>, keys: seq<Int32>, acc: map<Int32, Int32>, k: Int32)
    requires forall j :: j in keys ==> j in m
    ensures k in Entered(m, keys, acc) <==> k in keys || k in acc
    ensures k in keys ==> Entered(m, keys, acc)[k] == m[k]
    ensures k in acc && k !in keys ==> Entered(m, keys, acc)[k] == acc[k]
    decreases |keys|
  {
    if keys != [] {
      EnteredAt(m, keys[1..], acc[keys[0] := m[keys[0]]], k);
      assert keys == [keys[0]] + keys[1..];
    }
  }

  lemma EnteredAll(m: map<Int32, Int32>, keys: seq<Int32>)
    requires forall k :: k in keys <==> k in m
    ensures Entered(m, keys, map[]) == m
  {
    forall k: Int32 ensures k in Entered(m, keys, map[]) <==> k in m
                    ensures k in m ==> Entered(m, keys, map[])[k] == m[k] {
      EnteredAt(m, keys, map[], k);
    }
  }

  lemma {:induction false} ParsePrintedInts(d: seq<Byte>, p: nat, keys: seq<Int32>, acc: set<Int32>)
    requires Has(d, p, PrintInts(keys))
    ensures var end: nat := p + 4 * |keys|; ParseInts(d, p, |keys|, acc) == Ok((acc + Elements(keys), end))
    decreases |keys|
  {
    hide Bytes4, Int4, Has, Munch;
    if keys == [] {
      assert acc + Elements(keys) == acc;
    } else {
      HasParts(d, p, Bytes4(keys[0]), PrintInts(keys[1..]));
      MunchPrinted(d, p, keys[0]);
      ParsePrintedInts(d, p + 4, keys[1..], acc + {keys[0]});
      assert keys == [keys[0]] + keys[1..];
      assert acc + {keys[0]} + Elements(keys[1..]) == acc + Elements(keys);
    }
  }

  lemma CountOfEntries(n: nat, unit: int)
    requires unit == 4 || unit == 8
    requires n * unit < 0x8000_0000
    ensures ToInt32(n * unit) == n * unit && EntryCount(ToInt32(n * unit), unit) == n
  {
  }

  lemma ParsePrintedMap(d: seq<Byte>, p: nat, m: map<Int32, Int32>, unit: int)
    requires (unit == 4 || unit == 8) && |m| * unit < 0x8000_0000
    requires Has(d, p, PrintMap(m, unit))
    ensures ParseMap(d, p, unit) == Ok((m, p + |PrintMap(m, unit)|))
  {
    hide Bytes4, Int4, Has, Munch, Sorted, ToInt32, EntryCount, PrintPairs, ParsePairs, Entered;
    var keys := Sorted(m.Keys);
    SortedElements(m.Keys);
    CountOfEntries(|m|, unit);
    HasParts(d, p, Bytes4(ToInt32(|m| * unit)), PrintPairs(m, keys));
    MunchPrinted(d, p, ToInt32(|m| * unit));
    ParsePrintedPairs(d, p + 4, m, keys, map[]);
    EnteredAll(m, keys);
  }

  lemma ParsePrintedSet(d: seq<Byte>, p: nat, s: set<Int32>)
    requires |s| * 4 < 0x8000_0000
    requires Has(d, p, PrintSet(s))
    ensures ParseSet(d, p) == Ok((s, p + |PrintSet(s)|))
  {
    hide Bytes4, Int4, Has, Munch, Sorted, ToInt32, EntryCount, PrintInts, ParseInts;
    var keys := Sorted(s);
    SortedElements(s);
    CountOfEntries(|s|, 4);
    HasParts(d, p, Bytes4(ToInt32(|s| * 4)), PrintInts(keys));
    MunchPrinted(d, p, ToInt32(|s| * 4));
    ParsePrintedInts(d, p + 4, keys, {});
    assert {} + Elements(keys) == s;
  }

  /** The sizes that the format counts fit into an `int`. */
  predicate SizesFit(m: Wire) {
    && |m.body| + 1 < 0x8000_0000 && 8 * |m.acks| < 0x8000_0000
    && 4 * |m.clock| < 0x8000_0000 && 4 * |m.failed| < 0x8000_0000
  }

  /** What is left of a message by a trip over the wire: a heartbeat carries no body. */
  function OnArrival(m: Wire): Wire {
    if m.kind == HEARTBEAT then m.(body := []) else m
  }

  lemma ParsePrintedRest(d: seq<Byte>, p: nat, m: Wire)
    requires SizesFit(m)
    requires Has(d, p, PrintOne(m.sender) + (PrintOne(m.number)
      + (PrintMap(m.acks, 8) + (PrintMap(m.clock, 4) + PrintSet(m.failed)))))
    ensures ParseRest(d, m.kind, m.body, p)
      == Ok((m, p + 16 + |PrintMap(m.acks, 8)| + |PrintMap(m.clock, 4)| + |PrintSet(m.failed)|))
  {
    hide Has, PrintMap, PrintSet, ParseOne, ParseMap, ParseSet;
    var failed := PrintSet(m.failed);
    var clock := PrintMap(m.clock, 4) + failed;
    var acks := PrintMap(m.acks, 8) + clock;
    HasParts(d, p, PrintOne(m.sender), PrintOne(m.number) + acks);
    ParsePrintedOne(d, p, m.sender);
    HasParts(d, p + 8, PrintOne(m.number), acks);
    ParsePrintedOne(d, p + 8, m.number);
    HasParts(d, p + 16, PrintMap(m.acks, 8), clock);
    ParsePrintedMap(d, p + 16, m.acks, 8);
    var p1 := p + 16 + |PrintMap(m.acks, 8)|;
    HasParts(d, p1, PrintMap(m.clock, 4), failed);
    ParsePrintedMap(d, p1, m.clock, 4);
    ParsePrintedSet(d, p1 + |PrintMap(m.clock, 4)|, m.failed);
  }

  /** Decoding what was encoded gives the message back and takes exactly its bytes, whatever follows them. */
  lemma DecodeEncoded(m: Wire, suffix: seq<Byte>)
    requires SizesFit(m)
    ensures Decoded(Encoded(m) + suffix) == Ok((OnArrival(m), |Encoded(m)|))
  {
    hide Has, PrintHead, PrintMap, PrintSet, PrintOne, ParseHead, ParseRest;
    var d := Encoded(m) + suffix;
    var head := PrintHead(m.kind, m.body);
    var rest := PrintOne(m.sender) + (PrintOne(m.number)
      + (PrintMap(m.acks, 8) + (PrintMap(m.clock, 4) + PrintSet(m.failed))));
    Starts(d, head + rest, suffix);
    HasParts(d, 0, head, rest);
    ParsePrintedHead(d, 0, m.kind, m.body);
    ParsePrintedRest(d, |head|, OnArrival(m));
    OneLength(m.sender);
    OneLength(m.number);
  }

  lemma Starts(d: seq<Byte>, s: seq<Byte>, suffix: seq<Byte>)
    requires d == s + suffix
    ensures Has(d, 0, s)
  {
    assert d[0..|s|] == s;
  }

  lemma OneLength(v: Int32)
    ensures |PrintOne(v)| == 8
  {
  }

  /** So the trip is lossless exactly for messages that are no heartbeat with a body. */
  lemma RoundTripIff(m: Wire, suffix: seq<Byte>)
    requires SizesFit(m)
    ensures Decoded(Encoded(m) + suffix) == Ok((m, |Encoded(m)|)) <==> (m.kind == HEARTBEAT ==> m.body == [])
  {
    DecodeEncoded(m, suffix);
  }

  /** No encoding is a proper prefix of another: packets can be told apart without their lengths. */
  lemma PrefixFree(a: Wire, b: Wire, x: seq<Byte>, y: seq<Byte>)
    requires SizesFit(a) && SizesFit(b) && Encoded(a) + x == Encoded(b) + y
    ensures OnArrival(a) == OnArrival(b) && x == y
  {
    hide Encoded, Decoded;
    DecodeEncoded(a, x);
    DecodeEncoded(b, y);
    assert x == (Encoded(a) + x)[|Encoded(a)|..];
    assert y == (Encoded(b) + y)[|Encoded(b)|..];
  }

  // ---- the size of the encode buffer

  const ENCODE_BUFFER := 1000

  /** The longest line the chat client sends: a buffer of 256 characters with its terminator. */
  const LONGEST_LINE := 255

  // ---- what the decoder accepts

  lemma Bytes4OfInt4(b: seq<Byte>)
    requires |b| == 4
    ensures Bytes4(Int4(b)) == b
  {
    var u := (b[0] as int) + 256 * (b[1] as int) + 0x1_0000 * (b[2] as int) + 0x100_0000 * (b[3] as int);
    var high := (b[2] as int) + 256 * (b[3] as int);
    QuotientIs(u, 256, b[1] as int + 256 * high, b[0] as int);
    QuotientIs(b[1] as int + 256 * high, 256, high, b[1] as int);
    QuotientIs(u, 0x1_0000, high, b[0] as int + 256 * (b[1] as int));
    QuotientIs(high, 256, b[3] as int, b[2] as int);
    QuotientIs(u, 0x100_0000, b[3] as int, b[0] as int + 256 * (b[1] as int) + 0x1_0000 * (b[2] as int));
    BytesOf(u, Int4(b), b);
  }

  lemma BytesOf(u: int, v: Int32, b: seq<Byte>)
    requires |b| == 4 && u == if v < 0 then v + 0x1_0000_0000 else v
    requires u % 256 == b[0] && u / 256 % 256 == b[1] && u / 0x1_0000 % 256 == b[2] && u / 0x100_0000 == b[3]
    ensures Bytes4(v) == b
  {
  }

  lemma MunchIs(d: seq<Byte>, p: nat)
    ensures Munch(d, p).Ok? ==> p + 4 <= |d| && d[p..p + 4] == Bytes4(Munch(d, p).value)
  {
    hide Bytes4, Int4;
    if p + 4 <= |d| {
      Bytes4OfInt4(d[p..p + 4]);
    }
  }

  lemma OneIs(d: seq<Byte>, p: nat)
    ensures ParseOne(d, p).Ok? ==> p + 8 <= |d| && d[p..p + 8] == Bytes4(1) + Bytes4(ParseOne(d, p).value)
  {
    hide Bytes4, Munch;
    MunchIs(d, p);
    MunchIs(d, p + 4);
    if p + 8 <= |d| {
      assert d[p..p + 8] == d[p..p + 4] + d[p + 4..p + 8];
    }
  }

  lemma BodyIs(d: seq<Byte>, p: nat)
    ensures ParseBody(d, p).Ok? ==>
      var (body, q) := ParseBody(d, p).value;
      && q == p + 5 + |body| <= |d| && |body| + 1 < 0x8000_0000
      && d[p..p + 4] == Bytes4(|body| + 1) && d[p + 4..p + 4 + |body|] == body
  {
    hide Bytes4, Munch;
    MunchIs(d, p);
  }

  lemma HeadIs(d: seq<Byte>)
    ensures ParseHead(d, 0).Ok? ==>
      var (kind, body, q) := ParseHead(d, 0).value;
      && 5 <= q <= |d| && d[..4] == Bytes4(1) && d[4] == Tag(kind)
      && if kind == HEARTBEAT then q == 5 && body == []
         else
           && q == 10 + |body| && |body| + 1 < 0x8000_0000
           && d[5..9] == Bytes4(|body| + 1) && d[9..9 + |body|] == body
  {
    hide Bytes4, Munch, ParseBody;
    MunchIs(d, 0);
    BodyIs(d, 5);
  }

  /**
   * A packet that is accepted starts with a header of 1 and one of the three tags, then has the body with its size, and
   * sender and number behind headers of 1: a wrong header or tag stops the decoder.
   */
  lemma AcceptedStart(d: seq<Byte>)
    requires Decoded(d).Ok?
    ensures
      var m := Decoded(d).value.0;
      var q := if m.kind == HEARTBEAT then 5 else 10 + |m.body|;
      && q + 16 <= |d| && d[..4] == Bytes4(1) && d[4] == Tag(m.kind)
      && (if m.kind == HEARTBEAT then m.body == []
          else |m.body| + 1 < 0x8000_0000 && d[5..9] == Bytes4(|m.body| + 1) && d[9..9 + |m.body|] == m.body)
      && d[q..q + 8] == Bytes4(1) + Bytes4(m.sender) && d[q + 8..q + 16] == Bytes4(1) + Bytes4(m.number)
  {
    hide Bytes4, ParseHead, ParseOne, ParseMap, ParseSet;
    HeadIs(d);
    var q := ParseHead(d, 0).value.2;
    OneIs(d, q);
    OneIs(d, q + 8);
  }

  // ---- the layout of one message

  lemma HeadLayout()
    ensures PrintHead(HEARTBEAT, []) == [1, 0, 0, 0, 72]
    ensures PrintHead(RETRANSREQUEST, [104, 105]) == [1, 0, 0, 0, 82, 3, 0, 0, 0, 104, 105, 0]
    ensures PrintHead(MESSAGE, [104, 105]) == [1, 0, 0, 0, 77, 3, 0, 0, 0, 104, 105, 0]
  {
  }

  lemma SortedOne(k: Int32)
    ensures Sorted({k}) == [k]
  {
    SortedElements({k});
    assert Sorted({k})[0] in Sorted({k});
  }

  lemma SortedTwo(j: Int32, k: Int32)
    requires j < k
    ensures Sorted({j, k}) == [j, k]
  {
    SortedElements({j, k});
    SortedAscends({j, k});
    var q := Sorted({j, k});
    assert |{j, k}| == 2;
    assert q[0] in q && q[1] in q;
  }

  lemma OnePair(m: map<Int32, Int32>, k: Int32)
    requires m.Keys == {k}
    ensures PrintMap(m, 4) == Bytes4(4) + PrintPair(k, m[k])
  {
    hide Bytes4;
    SortedOne(k);
    assert |m.Keys| == |m|;
    PrintPairsSnoc(m, [], k);
    NoPairs(m);
    assert [] + [k] == [k];
  }

  lemma TwoPairs(m: map<Int32, Int32>, j: Int32, k: Int32)
    requires m.Keys == {j, k} && j < k
    ensures PrintMap(m, 8) == Bytes4(16) + (PrintPair(j, m[j]) + PrintPair(k, m[k]))
  {
    hide Bytes4;
    SortedTwo(j, k);
    assert |m.Keys| == |m|;
    PrintPairsSnoc(m, [], j);
    PrintPairsSnoc(m, [j], k);
    NoPairs(m);
    assert [] + [j] == [j] && [j] + [k] == [j, k];
  }

  lemma OneInt(k: Int32)
    ensures PrintSet({k}) == Bytes4(4) + Bytes4(k)
  {
    hide Bytes4;
    SortedOne(k);
    PrintIntsSnoc([], k);
    assert [] + [k] == [k] && PrintInts([]) == [];
  }

  lemma NumberLayout()
    ensures Bytes4(1) == [1, 0, 0, 0] && Bytes4(4) == [4, 0, 0, 0] && Bytes4(5) == [5, 0, 0, 0]
    ensures Bytes4(7) == [7, 0, 0, 0] && Bytes4(9) == [9, 0, 0, 0] && Bytes4(16) == [16, 0, 0, 0]
    ensures Bytes4(0x04030201) == [1, 2, 3, 4] && Bytes4(-1) == [255, 255, 255, 255]
  {
  }

  /** The bytes of a multicast of process 5 with text "hi", two acknowledgements, one clock entry and one failed process. */
  lemma Layout()
    ensures Encoded(Wire(5, 0x04030201, map[7 := 1], MESSAGE, [104, 105], map[5 := -1, 7 := 9], {9})) ==
      [1, 0, 0, 0, 77, 3, 0, 0, 0, 104, 105, 0]
      + [1, 0, 0, 0, 5, 0, 0, 0] + [1, 0, 0, 0, 1, 2, 3, 4]
      + [16, 0, 0, 0, 5, 0, 0, 0, 255, 255, 255, 255, 7, 0, 0, 0, 9, 0, 0, 0]
      + [4, 0, 0, 0, 7, 0, 0, 0, 1, 0, 0, 0] + [4, 0, 0, 0, 9, 0, 0, 0]
  {
    hide Bytes4, PrintHead, PrintOne, PrintMap, PrintSet;
    HeadLayout();
    OneLayout();
    ListLayout();
    Regroup(PrintHead(MESSAGE, [104, 105]), PrintOne(5), PrintOne(0x04030201), PrintMap(map[5 := -1, 7 := 9], 8),
            PrintMap(map[7 := 1], 4), PrintSet({9}));
  }

  lemma OneLayout()
    ensures PrintOne(5) == [1, 0, 0, 0, 5, 0, 0, 0] && PrintOne(0x04030201) == [1, 0, 0, 0, 1, 2, 3, 4]
  {
    hide Bytes4;
    NumberLayout();
  }

  lemma ListLayout()
    ensures PrintMap(map[5 := -1, 7 := 9], 8)
      == [16, 0, 0, 0, 5, 0, 0, 0, 255, 255, 255, 255, 7, 0, 0, 0, 9, 0, 0, 0]
    ensures PrintMap(map[7 := 1], 4) == [4, 0, 0, 0, 7, 0, 0, 0, 1, 0, 0, 0]
    ensures PrintSet({9}) == [4, 0, 0, 0, 9, 0, 0, 0]
  {
    hide Bytes4, PrintMap, PrintSet;
    NumberLayout();
    TwoPairs(map[5 := -1, 7 := 9], 5, 7);
    OnePair(map[7 := 1], 7);
    OneInt(9);
  }

  lemma Regroup(a: seq<Byte>, b: seq<Byte>, c: seq<Byte>, d: seq<Byte>, e: seq<Byte>, f: seq<Byte>)
    ensures a + (b + (c + (d + (e + f)))) == a + b + c + d + e + f
  {
  }

  lemma EncodedLength(m: Wire)
    ensures |Encoded(m)|
      == 33 + (if m.kind == HEARTBEAT then 0 else |m.body| + 5) + 8 * |m.acks| + 8 * |m.clock| + 4 * |m.failed|
  {
    hide Bytes4, Sorted, PrintPairs, PrintInts;
    assert |m.acks.Keys| == |m.acks| && |m.clock.Keys| == |m.clock|;
  }

  /** A message that a member of `group` encodes for another member, which it does not believe to have failed. */
  predicate Encodable(m: Wire, group: set<Int32>, dest: Int32) {
    && m.sender in group && dest in group && dest != m.sender && dest !in m.failed
    && m.acks.Keys == group && m.clock.Keys == group && m.failed <= group
    && |m.body| <= LONGEST_LINE && forall i :: 0 <= i < |m.body| ==> m.body[i] != 0
  }

  /** The buffer holds every message that a group encodes exactly if the group has at most 35 members. */
  lemma BufferSuffices(group: set<Int32>)
    ensures (forall m, dest | Encodable(m, group, dest) :: |Encoded(m)| <= ENCODE_BUFFER) <==> |group| <= 35
  {
    hide Encoded;
    if |group| <= 35 {
      forall m, dest | Encodable(m, group, dest) ensures |Encoded(m)| <= ENCODE_BUFFER {
        EncodedLength(m);
        SubsetSize(m.failed, group - {dest});
        assert |m.acks.Keys| == |m.acks| && |m.clock.Keys| == |m.clock|;
      }
    } else {
      var all := map k | k in group :: 0;
      assert all.Keys == group;
      assert |all.Keys| == |all|;
      var a :| a in group;
      var rest := group - {a};
      assert |rest| == |group| - 1;
      var b :| b in rest;
      var m := Wire(a, 0, all, MESSAGE, seq(LONGEST_LINE, i => 'x' as int), all, rest - {b});
      EncodedLength(m);
      assert Encodable(m, group, b);
    }
  }

  // ---- the encoder: a cursor through a buffer

  lemma HeadParts(kind: Kind, body: seq<Byte>)
    ensures kind == HEARTBEAT ==> PrintHead(kind, body) == Bytes4(1) + [Tag(kind)]
    ensures kind != HEARTBEAT ==>
      PrintHead(kind, body) == Bytes4(1) + [Tag(kind)] + PrintText(body)
  {
    hide Bytes4, PrintText;
  }

  class Writer {
    const buffer: array<Byte>
    var pos: nat

    ghost predicate Room(n: int)
      reads this
    {
      pos + n <= buffer.Length
    }

    ghost function Written(): seq<Byte>
      requires Room(0)
      reads this, buffer
    {
      buffer[..pos]
    }

    /** What has been written grows by `more`; nothing beyond it has changed. */
    twostate predicate Appended(more: seq<Byte>)
      requires old(Room(0))
      reads this, buffer
    {
      && Room(0) && Written() == old(Written()) + more
      && forall i :: pos <= i < buffer.Length ==> buffer[i] == old(buffer[i])
    }

    constructor (buffer: array<Byte>)
      ensures this.buffer == buffer && pos == 0
    {
      this.buffer := buffer;
      pos := 0;
    }

    method AppendInteger(val: Int32)
      requires Room(4)
      modifies this, buffer
      ensures Appended(Bytes4(val))
    {
      var b := Bytes4(val);
      AppendBytes(b);
    }

    /** memcpy at the cursor. */
    method AppendBytes(b: seq<Byte>)
      requires Room(|b|)
      modifies this, buffer
      ensures Appended(b)
    {
      for i := 0 to |b|
        invariant pos == old(pos)
        invariant buffer[..pos + i] == old(buffer[..pos]) + b[..i]
        invariant forall j :: pos + i <= j < buffer.Length ==> buffer[j] == old(buffer[j])
      {
        buffer[pos + i] := b[i];
      }
      pos := pos + |b|;
    }

    method AppendChar(c: Byte)
      requires Room(1)
      modifies this, buffer
      ensures Appended([c])
    {
      buffer[pos] := c;
      pos := pos + 1;
    }

    /** An integer behind a count of 1. */
    method AppendOne(val: Int32)
      requires Room(8)
      modifies this, buffer
      ensures Appended(PrintOne(val))
    {
      hide Bytes4;
      AppendInteger(1);
      AppendInteger(val);
    }

    method AppendPair(key: Int32, value: Int32)
      requires Room(8)
      modifies this, buffer
      ensures Appended(PrintPair(key, value))
    {
      hide Bytes4;
      AppendInteger(key);
      AppendInteger(value);
    }

    method AppendMap(m: map<Int32, Int32>, unit: int)
      requires Room(|PrintMap(m, unit)|)
      modifies this, buffer
      ensures Appended(PrintMap(m, unit))
    {
      hide Bytes4, Sorted, ToInt32, PrintPair, PrintPairs;
      var keys := Sorted(m.Keys);
      SortedElements(m.Keys);
      AppendInteger(ToInt32(|m| * unit));
      ghost var before := Written();
      NoPairs(m);
      for i := 0 to |keys|
        invariant Room(8 * (|keys| - i)) && Written() == before + PrintPairs(m, keys[..i])
        invariant forall j :: pos <= j < buffer.Length ==> buffer[j] == old(buffer[j])
      {
        AppendPair(keys[i], m[keys[i]]);
        PrintPairsSnoc(m, keys[..i], keys[i]);
        assert keys[..i + 1] == keys[..i] + [keys[i]];
      }
      assert keys[..|keys|] == keys;
    }

    method AppendSet(s: set<Int32>)
      requires Room(|PrintSet(s)|)
      modifies this, buffer
      ensures Appended(PrintSet(s))
    {
      hide Bytes4, Sorted, ToInt32;
      var keys := Sorted(s);
      AppendInteger(ToInt32(|s| * 4));
      ghost var before := Written();
      for i := 0 to |keys|
        invariant Room(4 * (|keys| - i)) && Written() == before + PrintInts(keys[..i])
        invariant forall j :: pos <= j < buffer.Length ==> buffer[j] == old(buffer[j])
      {
        AppendInteger(keys[i]);
        PrintIntsSnoc(keys[..i], keys[i]);
        assert keys[..i + 1] == keys[..i] + [keys[i]];
      }
      assert keys[..|keys|] == keys;
    }

    /** The size with the terminator, the body and the terminator. */
    method AppendText(body: seq<Byte>)
      requires Room(|PrintText(body)|)
      modifies this, buffer
      ensures Appended(PrintText(body))
    {
      hide Bytes4, ToInt32;
      AppendInteger(ToInt32(|body| + 1));
      AppendBytes(body + [0]);
    }

    method AppendHead(kind: Kind, body: seq<Byte>)
      requires Room(|PrintHead(kind, body)|)
      modifies this, buffer
      ensures Appended(PrintHead(kind, body))
    {
      hide Bytes4, PrintText, PrintHead;
      HeadParts(kind, body);
      AppendInteger(1);
      match kind {
        case HEARTBEAT =>
          AppendChar('H' as int);
        case RETRANSREQUEST =>
          AppendChar('R' as int);
          AppendText(body);
        case MESSAGE =>
          AppendChar('M' as int);
          AppendText(body);
      }
    }
  }

  /** The sections in the order in which they are written. */
  lemma Assemble(m: Wire, h: seq<Byte>, a: seq<Byte>, b: seq<Byte>, c: seq<Byte>, d: seq<Byte>)
    requires h == PrintHead(m.kind, m.body) && a == h + PrintOne(m.sender) && b == a + PrintOne(m.number)
    requires c == b + PrintMap(m.acks, 8) && d == c + PrintMap(m.clock, 4)
    ensures Encoded(m) == d + PrintSet(m.failed)
  {
    hide PrintHead, PrintMap, PrintSet, PrintOne;
  }

  /** Serializes `m` into `result` and returns the number of bytes; the caller provides the room. */
  method GetEncodedMessage(m: Wire, result: array<Byte>) returns (size: nat)
    requires |Encoded(m)| <= result.Length
    modifies result
    ensures size == |Encoded(m)| && result[..size] == Encoded(m)
    ensures forall i :: size <= i < result.Length ==> result[i] == old(result[i])
  {
    hide PrintHead, PrintMap, PrintSet, PrintOne, Encoded;
    ghost var h := PrintHead(m.kind, m.body);
    ghost var a := h + PrintOne(m.sender);
    ghost var b := a + PrintOne(m.number);
    ghost var c := b + PrintMap(m.acks, 8);
    ghost var d := c + PrintMap(m.clock, 4);
    Assemble(m, h, a, b, c, d);
    OneLength(m.sender);
    OneLength(m.number);
    var w := new Writer(result);
    w.AppendHead(m.kind, m.body);
    assert w.Written() == h;
    w.AppendOne(m.sender);
    w.AppendOne(m.number);
    w.AppendMap(m.acks, 8);
    w.AppendMap(m.clock, 4);
    w.AppendSet(m.failed);
    return w.pos;
  }

  // ---- the decoder: a cursor through a packet

  class Reader {
    const data: seq<Byte>
    var pos: nat

    constructor (data: seq<Byte>)
      ensures this.data == data && pos == 0
    {
      this.data := data;
      pos := 0;
    }

    method MunchInteger() returns (r: Result<Int32>)
      modifies this
      ensures r == Munch(data, old(pos)) && pos == old(pos) + 4
    {
      r := if pos + 4 <= |data| then Ok(Int4(data[pos..pos + 4])) else Err(Truncated);
      pos := pos + 4;
    }

    method MunchOne() returns (r: Result<Int32>)
      modifies this
      ensures r == ParseOne(data, old(pos))
      ensures r.Ok? ==> pos == old(pos) + 8
    {
      var size := MunchInteger();
      if size.Err? {
        return size;
      }
      if size.value != 1 {
        return Err(BadSize);
      }
      r := MunchInteger();
    }

    method MunchHead() returns (r: Result<(Kind, seq<Byte>)>)
      modifies this
      ensures ParseHead(data, old(pos)) == if r.Ok? then Ok((r.value.0, r.value.1, pos)) else Err(r.error)
    {
      var typeSize := MunchInteger();
      if typeSize.Err? {
        return Err(typeSize.error);
      }
      if typeSize.value != 1 {
        return Err(BadSize);
      }
      if pos >= |data| {
        return Err(Truncated);
      }
      var kind := ParseKind(data[pos]);
      pos := pos + 1;
      if kind.Err? {
        return Err(kind.error);
      }
      if kind.value == HEARTBEAT {
        return Ok((kind.value, []));
      }
      var size := MunchInteger();
      if size.Err? {
        return Err(size.error);
      }
      if size.value <= 0 {
        return Err(BadLength);
      }
      if pos + size.value > |data| {
        return Err(Truncated);
      }
      r := Ok((kind.value, data[pos..pos + size.value - 1]));
      pos := pos + size.value;
    }

    method MunchMap(unit: int) returns (r: Result<map<Int32, Int32>>)
      requires unit > 0
      modifies this
      ensures ParseMap(data, old(pos), unit) == if r.Ok? then Ok((r.value, pos)) else Err(r.error)
    {
      var size := MunchInteger();
      if size.Err? {
        return Err(size.error);
      }
      var pairs := EntryCount(size.value, unit);
      var m: map<Int32, Int32> := map[];
      var i := 0;
      while i < pairs
        invariant i <= pairs || i == 0
        invariant ParseMap(data, old(pos), unit) == ParsePairs(data, pos, pairs - i, m)
      {
        var id := MunchInteger();
        if id.Err? {
          return Err(id.error);
        }
        var number := MunchInteger();
        if number.Err? {
          return Err(number.error);
        }
        m := m[id.value := number.value];
        i := i + 1;
      }
      return Ok(m);
    }

    method MunchSet() returns (r: Result<set<Int32>>)
      modifies this
      ensures ParseSet(data, old(pos)) == if r.Ok? then Ok((r.value, pos)) else Err(r.error)
    {
      var size := MunchInteger();
      if size.Err? {
        return Err(size.error);
      }
      var count := EntryCount(size.value, 4);
      var s: set<Int32> := {};
      var i := 0;
      while i < count
        invariant i <= count || i == 0
        invariant ParseSet(data, old(pos)) == ParseInts(data, pos, count - i, s)
      {
        var id := MunchInteger();
        if id.Err? {
          return Err(id.error);
        }
        s := s + {id.value};
        i := i + 1;
      }
      return Ok(s);
    }
  }

  /** The decoding constructor. */
  method DecodeMessage(encoded: seq<Byte>) returns (r: Result<Wire>)
    ensures
      match Decoded(encoded)
      case Ok((m, n)) => r == Ok(m)
      case Err(e) => r == Err(e)
  {
    hide ParseHead, ParseOne, ParseMap, ParseSet;
    var c := new Reader(encoded);
    var head := c.MunchHead();
    if head.Err? {
      return Err(head.error);
    }
    var sender := c.MunchOne();
    if sender.Err? {
      return Err(sender.error);
    }
    var number := c.MunchOne();
    if number.Err? {
      return Err(number.error);
    }
    var acks := c.MunchMap(8);
    if acks.Err? {
      return Err(acks.error);
    }
    var clock := c.MunchMap(4);
    if clock.Err? {
      return Err(clock.error);
    }
    var failed := c.MunchSet();
    if failed.Err? {
      return Err(failed.error);
    }
    r := Ok(Wire(sender.value, number.value, clock.value, head.value.0, head.value.1, acks.value, failed.value));
  }
}
