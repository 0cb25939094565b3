/** The part of CBOR (section 3.1 of RFC 8949) that duck-rkp/duck_rkp.cpp needs from its library:
    definite lengths, integers, strings, arrays, maps, tags and the simple values false, true and null.
    Encoding writes shortest heads; parsing accepts longer ones. */
module Cbor {

  type byte = b: int | 0 <= b < 256

  const TWO_TO_THE_63 := 0x8000_0000_0000_0000
  const TWO_TO_THE_64 := 0x1_0000_0000_0000_0000

  /** A map keeps its entries in order as key, value, key, value. NInt(n) is the integer -1 - n. */
  datatype Item =
    | UInt(n: nat)
    | NInt(n: nat)
    | Bstr(bytes: seq<byte>)
    | Tstr(bytes: seq<byte>)
    | Array(items: seq<Item>)
    | Map(entries: seq<Item>)
    | Tag(tag: nat, item: Item)
    | Simple(code: nat)

  predicate WellFormed(item: Item) {
    match item
    case UInt(n) => n < TWO_TO_THE_64
    case NInt(n) => n < TWO_TO_THE_63
    case Bstr(bytes) => |bytes| < TWO_TO_THE_64
    case Tstr(bytes) => |bytes| < TWO_TO_THE_64
    case Array(items) => |items| < TWO_TO_THE_64 && forall x <- items :: WellFormed(x)
    case Map(entries) =>
      |entries| % 2 == 0 && |entries| / 2 < TWO_TO_THE_64 && forall x <- entries :: WellFormed(x)
    case Tag(tag, x) => tag < TWO_TO_THE_64 && WellFormed(x)
    case Simple(code) => 20 <= code <= 22
  }

  // ---------------------------------------------------------------- heads

  function Pow256(k: nat): (p: nat)
    ensures p > 0
  {
    if k == 0 then 1 else 256 * Pow256(k - 1)
  }

  function BigEndian(n: nat, k: nat): (bytes: seq<byte>)
    ensures |bytes| == k
  {
    if k == 0 then [] else BigEndian(n / 256, k - 1) + [n % 256]
  }

  function Value(bytes: seq<byte>): (n: nat)
    ensures n < Pow256(|bytes|)
  {
    if bytes == [] then 0 else 256 * Value(bytes[..|bytes| - 1]) + bytes[|bytes| - 1]
  }

  lemma ShrinkBelow(n: nat, p: nat)
    requires n < 256 * p
    ensures n / 256 < p && n == 256 * (n / 256) + n % 256
  {
  }

  lemma {:induction false} ValueOfBigEndian(n: nat, k: nat)
    requires n < Pow256(k)
    ensures Value(BigEndian(n, k)) == n
  {
    if k > 0 {
      ShrinkBelow(n, Pow256(k - 1));
      var front := BigEndian(n / 256, k - 1);
      ValueOfBigEndian(n / 256, k - 1);
      assert (front + [n % 256])[..k - 1] == front;
    }
  }

  lemma Powers()
    ensures Pow256(1) == 0x100 && Pow256(2) == 0x1_0000 && Pow256(4) == 0x1_0000_0000
    ensures Pow256(8) == TWO_TO_THE_64
  {
    assert Pow256(3) == 0x100_0000;
    assert Pow256(5) == 0x100_0000_0000;
    assert Pow256(6) == 0x1_0000_0000_0000;
    assert Pow256(7) == 0x100_0000_0000_0000;
  }

  /** How many bytes follow the initial byte in the shortest head for `n`. */
  function Extra(n: nat): nat {
    if n < 24 then 0 else if n < 0x100 then 1 else if n < 0x1_0000 then 2
    else if n < 0x1_0000_0000 then 4 else 8
  }

  function Info(extra: nat): nat {
    match extra case 1 => 24 case 2 => 25 case 4 => 26 case _ => 27
  }

  function Head(major: nat, n: nat): (bytes: seq<byte>)
    requires major < 8
    ensures |bytes| == 1 + Extra(n)
  {
    if n < 24 then [32 * major + n]
    else [32 * major + Info(Extra(n))] + BigEndian(n, Extra(n))
  }

  datatype ParsedHead = NoHead | GotHead(major: nat, short: bool, n: nat, rest: seq<byte>)

  function ParseHead(bytes: seq<byte>): (h: ParsedHead)
    ensures h.GotHead? ==> h.major < 8 && h.n < TWO_TO_THE_64 && |h.rest| < |bytes|
    ensures h.GotHead? ==> 1 + Extra(h.n) + |h.rest| <= |bytes|
  {
    if bytes == [] then NoHead
    else
      var major, info, tail := bytes[0] / 32, bytes[0] % 32, bytes[1..];
      if info < 24 then GotHead(major, true, info, tail)
      else
        var extra := if info == 24 then 1 else if info == 25 then 2 else if info == 26 then 4 else 8;
        if info > 27 || |tail| < extra then NoHead
        else
          Powers();
          GotHead(major, false, Value(tail[..extra]), tail[extra..])
  }

  lemma ExtraFits(n: nat)
    requires 24 <= n < TWO_TO_THE_64
    ensures n < Pow256(Extra(n))
  {
    Powers();
  }

  lemma ReadLongHead(bytes: seq<byte>, major: nat, extra: nat, tail: seq<byte>, rest: seq<byte>)
    requires major < 8 && (extra == 1 || extra == 2 || extra == 4 || extra == 8) && |tail| == extra
    requires bytes != [] && bytes[0] == 32 * major + Info(extra) && bytes[1..] == tail + rest
    ensures ParseHead(bytes) == GotHead(major, false, Value(tail), rest)
  {
    assert bytes[0] / 32 == major && bytes[0] % 32 == Info(extra);
    assert (tail + rest)[..extra] == tail && (tail + rest)[extra..] == rest;
  }

  lemma ParseOfLongHead(major: nat, n: nat, rest: seq<byte>)
    requires major < 8 && 24 <= n < TWO_TO_THE_64
    ensures ParseHead(Head(major, n) + rest) == GotHead(major, false, n, rest)
  {
    var extra := Extra(n);
    var tail := BigEndian(n, extra);
    ExtraFits(n);
    ValueOfBigEndian(n, extra);
    var bytes := Head(major, n) + rest;
    assert bytes == [32 * major + Info(extra)] + (tail + rest);
    ReadLongHead(bytes, major, extra, tail, rest);
  }

  lemma ParseOfHead(major: nat, n: nat, rest: seq<byte>)
    requires major < 8 && n < TWO_TO_THE_64
    ensures ParseHead(Head(major, n) + rest) == GotHead(major, n < 24, n, rest)
  {
    if n < 24 {
      assert ([32 * major + n] + rest)[1..] == rest;
    } else {
      ParseOfLongHead(major, n, rest);
    }
  }

  // ---------------------------------------------------------------- items

  function Encode(item: Item): seq<byte>
    decreases item, 0
  {
    match item
    case UInt(n) => Head(0, n)
    case NInt(n) => Head(1, n)
    case Bstr(bytes) => Head(2, |bytes|) + bytes
    case Tstr(bytes) => Head(3, |bytes|) + bytes
    case Array(items) => Head(4, |items|) + EncodeAll(items)
    case Map(entries) => Head(5, |entries| / 2) + EncodeAll(entries)
    case Tag(tag, x) => Head(6, tag) + Encode(x)
    case Simple(code) => Head(7, code)
  }

  function EncodeAll(items: seq<Item>): seq<byte>
    decreases items, 1
  {
    if items == [] then [] else Encode(items[0]) + EncodeAll(items[1..])
  }

  datatype Parsed = Malformed | Item(item: Item, rest: seq<byte>)
  datatype ParsedAll = MalformedAll | Items(items: seq<Item>, rest: seq<byte>)

  function Parse(bytes: seq<byte>): (p: Parsed)
    ensures p.Item? ==> |p.rest| < |bytes|
    decreases |bytes|, 0
  {
    match ParseHead(bytes)
    case NoHead => Malformed
    case GotHead(major, short, n, rest) =>
      if major == 0 then Item(UInt(n), rest)
      else if major == 1 then (if n < TWO_TO_THE_63 then Item(NInt(n), rest) else Malformed)
      else if major == 2 then (if n <= |rest| then Item(Bstr(rest[..n]), rest[n..]) else Malformed)
      else if major == 3 then (if n <= |rest| then Item(Tstr(rest[..n]), rest[n..]) else Malformed)
      else if major == 4 then
        (match ParseAll(rest, n)
         case MalformedAll => Malformed
         case Items(items, tail) => Item(Array(items), tail))
      else if major == 5 then
        (match ParseAll(rest, 2 * n)
         case MalformedAll => Malformed
         case Items(items, tail) => Item(Map(items), tail))
      else if major == 6 then
        (match Parse(rest)
         case Malformed => Malformed
         case Item(x, tail) => Item(Tag(n, x), tail))
      else if short && 20 <= n <= 22 then Item(Simple(n), rest)
      else Malformed
  }

  function ParseAll(bytes: seq<byte>, count: nat): (p: ParsedAll)
    ensures p.Items? ==> |p.rest| <= |bytes| && |p.items| == count
    decreases |bytes|, 1
  {
    if count == 0 then Items([], bytes)
    else
      match Parse(bytes)
      case Malformed => MalformedAll
      case Item(x, rest) =>
        match ParseAll(rest, count - 1)
        case MalformedAll => MalformedAll
        case Items(xs, tail) => Items([x] + xs, tail)
  }

  /** Parsing what was encoded, with anything behind it, gives the item back and leaves what is behind it. */
  lemma {:induction false} ParseOfEncode(item: Item, rest: seq<byte>)
    requires WellFormed(item)
    ensures Parse(Encode(item) + rest) == Item(item, rest)
    decreases item, 0
  {
    match item
    case Array(items) =>
      ParseOfEncodeAll(items, rest);
      ParseOfArray(items, rest);
    case Map(entries) =>
      ParseOfEncodeAll(entries, rest);
      ParseOfMap(entries, rest);
    case Tag(tag, x) =>
      ParseOfEncode(x, rest);
      ParseOfTag(tag, x, rest);
    case _ => ParseOfLeaf(item, rest);
  }

  lemma ParseOfLeaf(item: Item, rest: seq<byte>)
    requires WellFormed(item) && !item.Array? && !item.Map? && !item.Tag?
    ensures Parse(Encode(item) + rest) == Item(item, rest)
  {
    match item
    case UInt(n) => ParseOfHead(0, n, rest);
    case NInt(n) => ParseOfHead(1, n, rest);
    case Bstr(bytes) => ParseOfString(2, bytes, rest);
    case Tstr(bytes) => ParseOfString(3, bytes, rest);
    case Simple(code) => ParseOfHead(7, code, rest);
  }

  lemma ParseHeadBefore(major: nat, n: nat, body: seq<byte>, rest: seq<byte>)
    requires major < 8 && n < TWO_TO_THE_64
    ensures ParseHead(Head(major, n) + body + rest) == GotHead(major, n < 24, n, body + rest)
  {
    ParseOfHead(major, n, body + rest);
    assert Head(major, n) + body + rest == Head(major, n) + (body + rest);
  }

  lemma ParseOfTag(tag: nat, x: Item, rest: seq<byte>)
    requires tag < TWO_TO_THE_64 && Parse(Encode(x) + rest) == Item(x, rest)
    ensures Parse(Encode(Tag(tag, x)) + rest) == Item(Tag(tag, x), rest)
  {
    ParseHeadBefore(6, tag, Encode(x), rest);
  }

  lemma ParseOfString(major: nat, bytes: seq<byte>, rest: seq<byte>)
    requires major < 8 && |bytes| < TWO_TO_THE_64
    ensures var all := Head(major, |bytes|) + bytes + rest;
            && ParseHead(all) == GotHead(major, |bytes| < 24, |bytes|, bytes + rest)
            && (bytes + rest)[..|bytes|] == bytes && (bytes + rest)[|bytes|..] == rest
  {
    ParseHeadBefore(major, |bytes|, bytes, rest);
  }

  lemma ReadCollection(bytes: seq<byte>, h: ParsedHead, items: seq<Item>, rest: seq<byte>)
    requires ParseHead(bytes) == h && h.GotHead? && (h.major == 4 || h.major == 5)
    requires ParseAll(h.rest, if h.major == 4 then h.n else 2 * h.n) == Items(items, rest)
    ensures Parse(bytes) == Item(if h.major == 4 then Array(items) else Map(items), rest)
  {
  }

  lemma ParseOfArray(items: seq<Item>, rest: seq<byte>)
    requires |items| < TWO_TO_THE_64
    requires ParseAll(EncodeAll(items) + rest, |items|) == Items(items, rest)
    ensures Parse(Encode(Array(items)) + rest) == Item(Array(items), rest)
  {
    var n, body := |items|, EncodeAll(items);
    ParseHeadBefore(4, n, body, rest);
    ReadCollection(Head(4, n) + body + rest, GotHead(4, n < 24, n, body + rest), items, rest);
  }

  lemma ParseOfMap(entries: seq<Item>, rest: seq<byte>)
    requires |entries| % 2 == 0 && |entries| / 2 < TWO_TO_THE_64
    requires ParseAll(EncodeAll(entries) + rest, |entries|) == Items(entries, rest)
    ensures Parse(Encode(Map(entries)) + rest) == Item(Map(entries), rest)
  {
    var n, body := |entries| / 2, EncodeAll(entries);
    assert 2 * n == |entries|;
    ParseHeadBefore(5, n, body, rest);
    ReadCollection(Head(5, n) + body + rest, GotHead(5, n < 24, n, body + rest), entries, rest);
  }

  lemma {:induction false} ParseOfEncodeAll(items: seq<Item>, rest: seq<byte>)
    requires forall x <- items :: WellFormed(x)
    ensures ParseAll(EncodeAll(items) + rest, |items|) == Items(items, rest)
    decreases items, 1
  {
    if items == [] {
      assert [] + rest == rest;
    } else {
      var tail := EncodeAll(items[1..]) + rest;
      assert EncodeAll(items) + rest == Encode(items[0]) + tail;
      ParseOfEncode(items[0], tail);
      ParseOfEncodeAll(items[1..], rest);
      assert [items[0]] + items[1..] == items;
    }
  }

  /** Whatever parses is well formed, and encoding it again never takes more bytes than were read. */
  lemma {:induction false} ReencodeNoLonger(bytes: seq<byte>)
    requires Parse(bytes).Item?
    ensures WellFormed(Parse(bytes).item)
    ensures |Encode(Parse(bytes).item)| + |Parse(bytes).rest| <= |bytes|
    decreases |bytes|, 0
  {
    var h := ParseHead(bytes);
    if h.major == 4 {
      ReencodeAllNoLonger(h.rest, h.n);
    } else if h.major == 5 {
      ReencodeAllNoLonger(h.rest, 2 * h.n);
    } else if h.major == 6 {
      ReencodeNoLonger(h.rest);
    }
  }

  lemma {:induction false} ReencodeAllNoLonger(bytes: seq<byte>, count: nat)
    requires ParseAll(bytes, count).Items?
    ensures forall x <- ParseAll(bytes, count).items :: WellFormed(x)
    ensures |EncodeAll(ParseAll(bytes, count).items)| + |ParseAll(bytes, count).rest| <= |bytes|
    decreases |bytes|, 1
  {
    if count > 0 {
      ReencodeNoLonger(bytes);
      var first := Parse(bytes);
      ReencodeAllNoLonger(first.rest, count - 1);
      var others := ParseAll(first.rest, count - 1);
      assert ([first.item] + others.items)[1..] == others.items;
    }
  }

  /** What the parser does not take: negative integers below -2^63, simple values other than false, true and null, and
      these in two bytes. */
  lemma NotTaken(bytes: seq<byte>)
    ensures var head := ParseHead(bytes);
            && (head.GotHead? && head.major == 1 ==>
                  (Parse(bytes).Item? <==> head.n < 9223372036854775808))
            && (head.GotHead? && head.major == 7 && (!head.short || head.n < 20 || 22 < head.n) ==>
                  Parse(bytes) == Malformed)
            && (head.NoHead? ==> Parse(bytes) == Malformed)
  {
  }

  /** Some encodings of appendix A of RFC 8949. */
  lemma ExamplesOfTheStandard()
    ensures Encode(UInt(10)) == [0x0a]
    ensures Encode(UInt(24)) == [0x18, 0x18]
    ensures Encode(UInt(1000)) == [0x19, 0x03, 0xe8]
    ensures Encode(NInt(99)) == [0x38, 0x63]
    ensures Encode(Bstr([1, 2, 3, 4])) == [0x44, 0x01, 0x02, 0x03, 0x04]
  {
  }

  lemma CollectionsOfTheStandard()
    ensures Encode(Array([UInt(1), UInt(2)])) == [0x82, 0x01, 0x02]
    ensures Encode(Map([UInt(1), UInt(2)])) == [0xa1, 0x01, 0x02]
  {
    assert [UInt(1), UInt(2)][1..] == [UInt(2)];
    assert EncodeAll([UInt(2)]) == [0x02];
  }
}
