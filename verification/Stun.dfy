/** STUN binding responses: the attribute loop, the grammar it refines, and the addresses it recovers
    (sections 6, 15, 15.1 and 15.2 of RFC 5389). */
module Stun {
  import opened Bytes

  const MAGIC: nat := 0x2112A442
  const BINDING_SUCCESS: nat := 0x0101
  const ATTR_MAPPED: nat := 0x0001
  const ATTR_XOR_MAPPED: nat := 0x0020
  const HEADER: nat := 20
  const FAMILY_IPV4: byte := 1

  /** Bitwise exclusive or. */
  function Xor(a: nat, b: nat): nat
    decreases a + b
  {
    if a == 0 && b == 0 then 0 else (a + b) % 2 + 2 * Xor(a / 2, b / 2)
  }

  lemma Halves(q: nat, r: nat)
    requires r < 2
    ensures (r + 2 * q) % 2 == r && (r + 2 * q) / 2 == q
  {}

  lemma {:induction false} XorBit(a: nat, b: nat)
    ensures Xor(a, b) % 2 == (a + b) % 2 && Xor(a, b) / 2 == Xor(a / 2, b / 2)
  {
    Halves(Xor(a / 2, b / 2), (a + b) % 2);
  }

  /** Bit i of x, the least significant first. */
  function Bit(x: nat, i: nat): nat { if i == 0 then x % 2 else Bit(x / 2, i - 1) }

  /** Exclusive or, bit by bit. */
  lemma {:induction false} XorBits(a: nat, b: nat, i: nat)
    ensures Bit(Xor(a, b), i) == 1 <==> Bit(a, i) != Bit(b, i)
    ensures Bit(a, i) < 2
    decreases i
  {
    XorBit(a, b);
    if i > 0 {
      XorBits(a / 2, b / 2, i - 1);
    }
  }

  lemma ParityTwice(a: nat, b: nat, x: nat)
    requires x % 2 == (a + b) % 2
    ensures (x + b) % 2 == a % 2
  {}

  lemma {:induction false} XorTwice(a: nat, b: nat)
    ensures Xor(Xor(a, b), b) == a
    decreases a + b
  {
    var x := Xor(a, b);
    XorBit(a, b);
    XorBit(x, b);
    ParityTwice(a, b, x);
    if a != 0 || b != 0 {
      XorTwice(a / 2, b / 2);
    }
  }

  lemma {:induction false} XorFits(a: nat, b: nat, bits: nat)
    requires a < Pow2(bits) && b < Pow2(bits)
    ensures Xor(a, b) < Pow2(bits)
    decreases bits
  {
    if bits > 0 {
      XorFits(a / 2, b / 2, bits - 1);
    }
  }

  function Pow2(n: nat): nat { if n == 0 then 1 else 2 * Pow2(n - 1) }

  lemma Pow2Values()
    ensures Pow2(16) == 0x1_0000 && Pow2(32) == 0x1_0000_0000
  {
    assert Pow2(4) == 16 && Pow2(8) == 256 && Pow2(12) == 4096 && Pow2(16) == 0x1_0000;
    assert Pow2(20) == 0x10_0000 && Pow2(24) == 0x100_0000 && Pow2(28) == 0x1000_0000;
  }

  lemma Xor16(a: nat, b: nat)
    requires a < 0x1_0000 && b < 0x1_0000
    ensures Xor(a, b) < 0x1_0000
  {
    Pow2Values();
    XorFits(a, b, 16);
  }

  lemma Xor32(a: nat, b: nat)
    requires a < 0x1_0000_0000 && b < 0x1_0000_0000
    ensures Xor(a, b) < 0x1_0000_0000
  {
    Pow2Values();
    XorFits(a, b, 32);
  }

  /** A mapped IPv4 address: four address bytes and a port. */
  datatype Mapped = Mapped(ip: seq<byte>, port: nat)

  datatype Attr = Attr(kind: nat, value: seq<byte>)

  // ----- The two attribute values -----

  /** parseXorMappedAddress; `magic` is the cookie read from the packet. */
  function ParseXorMapped(v: seq<byte>, magic: nat): Option<Mapped>
    requires magic < 0x1_0000_0000
  {
    if |v| < 8 || v[1] != FAMILY_IPV4 then None
    else
      var port := Xor(Be16(v[2], v[3]), magic / 0x1_0000);
      var ip := Xor(Be32(v[4..8]), magic);
      (Xor32(Be32(v[4..8]), magic);
       Some(Mapped(Be32Bytes(ip), port)))
  }

  type Decoder = seq<byte> -> Option<Mapped>

  function XorDecoder(magic: nat): Decoder
    requires magic < 0x1_0000_0000
  {
    v => ParseXorMapped(v, magic)
  }

  function ParseMapped(v: seq<byte>): Option<Mapped> {
    if |v| < 8 || v[1] != FAMILY_IPV4 then None else Some(Mapped(v[4..8], Be16(v[2], v[3])))
  }

  /** A value decodes exactly when it has eight bytes or more and its family is IPv4; one of another family does not. */
  lemma DecodesIff(v: seq<byte>)
    ensures ParseMapped(v).Some? <==> |v| >= 8 && v[1] == 0x01
    ensures ParseXorMapped(v, MAGIC).Some? <==> |v| >= 8 && v[1] == 0x01
  {}

  /** What it decodes to: the port and address bytes as they stand, or each combined with the magic cookie. */
  lemma DecodesTo(v: seq<byte>)
    requires |v| >= 8 && v[1] == 0x01
    ensures ParseMapped(v) == Some(Mapped(v[4..8], Be16(v[2], v[3])))
    ensures ParseXorMapped(v, MAGIC).value.port == Xor(Be16(v[2], v[3]), 0x2112)
    ensures var ip := ParseXorMapped(v, MAGIC).value.ip;
            |ip| == 4 && Be32(ip) == Xor(Be32(v[4..8]), 0x2112_A442)
  {
    Xor32(Be32(v[4..8]), 0x2112_A442);
  }

  // ----- The attribute list -----

  function Pad(n: nat): nat { if n % 4 == 0 then 0 else 4 - n % 4 }

  /** Padding fills up to the next multiple of four. */
  lemma PadFills(n: nat)
    ensures Pad(n) < 4 && (n + Pad(n)) % 4 == 0
  {}

  /** The declared type and length at the front of a body. */
  function Kind(body: seq<byte>): nat
    requires |body| >= 4
  {
    Be16(body[0], body[1])
  }

  function Length(body: seq<byte>): nat
    requires |body| >= 4
  {
    Be16(body[2], body[3])
  }

  /** The attribute at the front of a body and the body after its padding, when header and value lie inside. */
  function Split(body: seq<byte>): Option<(Attr, seq<byte>)> {
    if |body| < 4 || 4 + Length(body) > |body| then None
    else
      var n := Length(body);
      Some((Attr(Kind(body), body[4..4 + n]), body[Min(4 + n + Pad(n), |body|)..]))
  }

  /** The first attribute of a kind that decodes. */
  function First(attrs: seq<Attr>, kind: nat, decode: Decoder): Option<Mapped> {
    if attrs == [] then None
    else if attrs[0].kind == kind && decode(attrs[0].value).Some? then decode(attrs[0].value)
    else First(attrs[1..], kind, decode)
  }

  /** What a list says: its first decodable XOR-MAPPED-ADDRESS wherever it stands, else its first decodable
      MAPPED-ADDRESS. */
  function Address(attrs: seq<Attr>): Option<Mapped> {
    OrElse(First(attrs, ATTR_XOR_MAPPED, XorDecoder(MAGIC)), First(attrs, ATTR_MAPPED, ParseMapped))
  }

  function OrElse(a: Option<Mapped>, b: Option<Mapped>): Option<Mapped> { if a.Some? then a else b }

  // ----- The grammar -----

  /** An attribute as section 15 of RFC 5389 lays it out: type, length, value and padding bytes. */
  datatype Encoded = Encoded(attr: Attr, padding: seq<byte>)

  ghost predicate Fields(e: Encoded) {
    e.attr.kind < 0x1_0000 && |e.attr.value| < 0x1_0000 && |e.padding| <= Pad(|e.attr.value|)
  }

  ghost function EncodeAttr(e: Encoded): seq<byte>
    requires Fields(e)
  {
    Be16Bytes(e.attr.kind) + Be16Bytes(|e.attr.value|) + e.attr.value + e.padding
  }

  ghost function EncodeAttrs(es: seq<Encoded>): seq<byte>
    requires forall i :: 0 <= i < |es| ==> Fields(es[i])
  {
    if es == [] then [] else EncodeAttr(es[0]) + EncodeAttrs(es[1..])
  }

  function Attrs(es: seq<Encoded>): (attrs: seq<Attr>)
    ensures |attrs| == |es|
  {
    if es == [] then [] else [es[0].attr] + Attrs(es[1..])
  }

  /** Each attribute is padded to a multiple of four bytes; only at the very end may padding be missing. */
  ghost predicate Padded(es: seq<Encoded>, tail: seq<byte>) {
    forall i :: 0 <= i < |es| ==>
      Fields(es[i]) && (|es[i].padding| == Pad(|es[i].attr.value|) || (i == |es| - 1 && tail == []))
  }

  /** The bytes start with this attribute, padding left aside. */
  ghost predicate Starts(bytes: seq<byte>, a: Attr) {
    Fields(Encoded(a, [])) && EncodeAttr(Encoded(a, [])) <= bytes
  }

  /** A body laid out as padded attributes, then bytes with which no attribute starts. */
  ghost predicate Lays(body: seq<byte>, es: seq<Encoded>, tail: seq<byte>) {
    Padded(es, tail) && body == EncodeAttrs(es) + tail && forall a :: !Starts(tail, a)
  }

  /** The grammar: a body derives the attributes of any such layout of it. */
  ghost predicate Derives(body: seq<byte>, attrs: seq<Attr>) {
    exists es, tail :: Lays(body, es, tail) && Attrs(es) == attrs
  }

  lemma HeaderBytes(body: seq<byte>)
    requires |body| >= 4
    ensures Be16Bytes(Kind(body)) == body[..2] && Be16Bytes(Length(body)) == body[2..4]
  {
    Be16Injective(Be16Bytes(Kind(body)), body[..2]);
    Be16Injective(Be16Bytes(Length(body)), body[2..4]);
  }

  lemma SplitEncoded(e: Encoded, rest: seq<byte>)
    requires Fields(e) && (|e.padding| == Pad(|e.attr.value|) || rest == [])
    ensures Split(EncodeAttr(e) + rest) == Some((e.attr, rest))
  {
    AttrLayout(Be16Bytes(e.attr.kind), Be16Bytes(|e.attr.value|), e.attr.value, e.padding, rest);
  }

  lemma AttrLayout(kind: seq<byte>, len: seq<byte>, value: seq<byte>, padding: seq<byte>, rest: seq<byte>)
    requires |kind| == 2 && |len| == 2
    ensures var body := kind + len + value + padding + rest;
            && body[0] == kind[0] && body[1] == kind[1] && body[2] == len[0] && body[3] == len[1]
            && body[4..4 + |value|] == value && body[4 + |value| + |padding|..] == rest
  {}

  /** What is split off a body is an attribute laid out there, with as much padding as there is. */
  lemma SplitLays(body: seq<byte>) returns (e: Encoded)
    requires Split(body).Some?
    ensures Fields(e) && e.attr == Split(body).value.0 && body == EncodeAttr(e) + Split(body).value.1
    ensures |e.padding| == Pad(|e.attr.value|) || Split(body).value.1 == []
  {
    var n := Length(body);
    var next := Min(4 + n + Pad(n), |body|);
    e := Encoded(Attr(Kind(body), body[4..4 + n]), body[4 + n..next]);
    HeaderBytes(body);
    FiveParts(body, 4 + n, next);
  }

  lemma FiveParts(body: seq<byte>, end: nat, next: nat)
    requires 4 <= end <= next <= |body|
    ensures body == body[..2] + body[2..4] + body[4..end] + body[end..next] + body[next..]
  {}

  /** An attribute can be split off exactly when one starts there. */
  lemma SplitIff(body: seq<byte>)
    ensures Split(body).Some? <==> exists a :: Starts(body, a)
  {
    if Split(body).Some? {
      var e := SplitLays(body);
      var bare := EncodeAttr(Encoded(e.attr, []));
      assert EncodeAttr(e) == bare + e.padding;
      assert Starts(body, e.attr);
    }
    forall a | Starts(body, a) ensures Split(body).Some? {
      var bare := EncodeAttr(Encoded(a, []));
      var rest := body[|bare|..];
      assert body == bare + rest;
      AttrLayout(Be16Bytes(a.kind), Be16Bytes(|a.value|), a.value, [], rest);
    }
  }

  /** Every layout of a body has the attributes that can be split off it ... */
  lemma {:induction false} LayoutIsSplit(body: seq<byte>, es: seq<Encoded>, tail: seq<byte>)
    requires Lays(body, es, tail)
    ensures Attrs(es) == AttrsOf(body)
    decreases |es|
  {
    if es == [] {
      assert body == tail;
      SplitIff(body);
    } else {
      var rest := EncodeAttrs(es[1..]) + tail;
      assert body == EncodeAttr(es[0]) + rest;
      if |es| > 1 {
        assert |es[0].padding| == Pad(|es[0].attr.value|);
      }
      SplitEncoded(es[0], rest);
      LayoutIsSplit(rest, es[1..], tail);
    }
  }

  /** ... and every body has a layout. */
  lemma {:induction false} LayoutFound(body: seq<byte>) returns (es: seq<Encoded>, tail: seq<byte>)
    ensures Lays(body, es, tail) && Attrs(es) == AttrsOf(body)
    ensures body == [] ==> es == [] && tail == []
    decreases |body|
  {
    SplitIff(body);
    if Split(body).None? {
      es, tail := [], body;
    } else {
      var e := SplitLays(body);
      var rest := Split(body).value.1;
      es, tail := LayoutFound(rest);
      LaysMore(e, rest, es, tail);
      es := [e] + es;
    }
  }

  lemma LaysMore(e: Encoded, rest: seq<byte>, es: seq<Encoded>, tail: seq<byte>)
    requires Lays(rest, es, tail)
    requires Fields(e) && (|e.padding| == Pad(|e.attr.value|) || (es == [] && tail == []))
    ensures Lays(EncodeAttr(e) + rest, [e] + es, tail) && Attrs([e] + es) == [e.attr] + Attrs(es)
  {
    var all := [e] + es;
    assert all[1..] == es;
    assert forall i :: 0 < i < |all| ==> all[i] == es[i - 1];
    assert EncodeAttrs(all) + tail == EncodeAttr(e) + (EncodeAttrs(es) + tail);
  }

  /** A body derives exactly one list: what can be split off it. */
  lemma DerivesIff(body: seq<byte>, attrs: seq<Attr>)
    ensures Derives(body, attrs) <==> attrs == AttrsOf(body)
  {
    if Derives(body, attrs) {
      var es, tail :| Lays(body, es, tail) && Attrs(es) == attrs;
      LayoutIsSplit(body, es, tail);
    }
    var es, tail := LayoutFound(body);
  }

  // ----- The parser -----

  predicate HeaderOk(data: seq<byte>, txID: seq<byte>) {
    && |txID| == 12 && |data| >= HEADER
    && Be16(data[0], data[1]) == BINDING_SUCCESS
    && Be32(data[4..8]) == MAGIC
    && data[8..20] == txID
    && |data| >= HEADER + Be16(data[2], data[3])
  }

  function Body(data: seq<byte>): seq<byte>
    requires |data| >= HEADER && |data| >= HEADER + Be16(data[2], data[3])
  {
    data[HEADER..HEADER + Be16(data[2], data[3])]
  }

  /** The attributes that can be split off a body one after the other. */
  ghost function AttrsOf(body: seq<byte>): seq<Attr>
    decreases |body|
  {
    match Split(body)
    case None => []
    case Some((a, rest)) => [a] + AttrsOf(rest)
  }

  /** The loop's answer from a point in the list, given the MAPPED-ADDRESS it has already seen. */
  function Answer(seen: Option<Mapped>, attrs: seq<Attr>, xor: Decoder, plain: Decoder): Option<Mapped> {
    OrElse(First(attrs, ATTR_XOR_MAPPED, xor), OrElse(seen, First(attrs, ATTR_MAPPED, plain)))
  }

  /** One turn of the loop, on the list. */
  lemma AnswerStep(seen: Option<Mapped>, attrs: seq<Attr>, xor: Decoder, plain: Decoder)
    requires attrs != []
    ensures var a := attrs[0];
            Answer(seen, attrs, xor, plain) ==
              if a.kind == ATTR_XOR_MAPPED && xor(a.value).Some? then xor(a.value)
              else Answer(if a.kind == ATTR_MAPPED && seen == None then plain(a.value) else seen,
                          attrs[1..], xor, plain)
  {}

  lemma SliceOfSlice(data: seq<byte>, pos: nat, end: nat, from: nat, to: nat)
    requires pos <= end <= |data| && from <= to <= end - pos
    ensures data[pos..end][from..to] == data[pos + from..pos + to]
  {
    var a, b := data[pos..end][from..to], data[pos + from..pos + to];
    forall i | 0 <= i < |a| ensures a[i] == b[i] {
      assert a[i] == data[pos..end][from + i] == data[pos + (from + i)];
    }
  }

  function Next(pos: nat, len: nat, end: nat): nat { Min(pos + 4 + len + Pad(len), end) }

  /** Splitting what is left of the packet at a position. */
  lemma SplitAt(data: seq<byte>, pos: nat, end: nat)
    requires pos + 4 <= end <= |data|
    ensures var kind, len := Be16(data[pos], data[pos + 1]), Be16(data[pos + 2], data[pos + 3]);
            Split(data[pos..end]) ==
              if pos + 4 + len > end then None
              else Some((Attr(kind, data[pos + 4..pos + 4 + len]), data[Next(pos, len, end)..end]))
  {
    var body, len := data[pos..end], Be16(data[pos + 2], data[pos + 3]);
    assert Kind(body) == Be16(data[pos], data[pos + 1]) && Length(body) == len;
    if pos + 4 + len <= end {
      SliceOfSlice(data, pos, end, 4, 4 + len);
      SliceOfSlice(data, pos, end, Next(pos, len, end) - pos, end - pos);
    }
  }

  lemma AttrsOfSplit(body: seq<byte>, a: Attr, rest: seq<byte>)
    requires Split(body) == Some((a, rest))
    ensures AttrsOf(body) == [a] + AttrsOf(rest)
  {}

  /** One turn of the loop, on the lists that remain at each position of the packet. */
  ghost predicate Turn(lists: seq<seq<Attr>>, data: seq<byte>, end: nat, pos: nat)
    requires pos + 4 <= end <= |data| && |lists| == end + 1
  {
    var kind, len := Be16(data[pos], data[pos + 1]), Be16(data[pos + 2], data[pos + 3]);
    if pos + 4 + len > end then lists[pos] == []
    else
      && lists[pos] != [] && lists[pos][0] == Attr(kind, data[pos + 4..pos + 4 + len])
      && lists[pos][1..] == lists[Next(pos, len, end)]
  }

  ghost predicate Table(lists: seq<seq<Attr>>, data: seq<byte>, end: nat)
    requires end <= |data|
  {
    && |lists| == end + 1
    && (forall pos :: 0 <= pos <= end && pos + 4 > end ==> lists[pos] == [])
    && (forall pos: nat :: pos + 4 <= end ==> Turn(lists, data, end, pos))
  }

  /** What remains at each position is what the grammar derives from there. */
  lemma TableOf(data: seq<byte>, end: nat) returns (lists: seq<seq<Attr>>)
    requires end <= |data|
    ensures Table(lists, data, end)
    ensures forall pos :: 0 <= pos <= end ==> lists[pos] == AttrsOf(data[pos..end])
  {
    lists := seq(end + 1, pos requires 0 <= pos <= end => AttrsOf(data[pos..end]));
    forall pos: nat | pos + 4 <= end
      ensures Turn(lists, data, end, pos)
    {
      TurnHolds(lists, data, end, pos);
    }
  }

  lemma TurnHolds(lists: seq<seq<Attr>>, data: seq<byte>, end: nat, pos: nat)
    requires pos + 4 <= end <= |data| && |lists| == end + 1
    requires forall p :: 0 <= p <= end ==> lists[p] == AttrsOf(data[p..end])
    ensures Turn(lists, data, end, pos)
  {
    SplitAt(data, pos, end);
    var split := Split(data[pos..end]);
    if split.Some? {
      AttrsOfSplit(data[pos..end], split.value.0, split.value.1);
    }
  }

  /** The attribute loop of parseSTUNBindingResponse, with the two decoders it uses. */
  method ScanAttributes(data: seq<byte>, end: nat, xor: Decoder, plain: Decoder, ghost lists: seq<seq<Attr>>)
    returns (r: Option<Mapped>)
    requires HEADER <= end <= |data| && Table(lists, data, end)
    ensures r == Answer(None, lists[HEADER], xor, plain)
  {
    var mapped: Option<Mapped> := None;
    var pos := HEADER;
    while pos + 4 <= end
      invariant HEADER <= pos
      invariant Answer(mapped, lists[Min(pos, end)], xor, plain) == Answer(None, lists[HEADER], xor, plain)
      decreases end - pos
    {
      assert Turn(lists, data, end, pos);
      var attrType := Be16(data[pos], data[pos + 1]);
      var attrLen := Be16(data[pos + 2], data[pos + 3]);
      ghost var here := lists[pos];
      pos := pos + 4;
      if pos + attrLen > end {
        break;
      }
      AnswerStep(mapped, here, xor, plain);
      var value := data[pos..pos + attrLen];
      if attrType == ATTR_XOR_MAPPED {
        var m := xor(value);
        if m.Some? {
          return m;
        }
      } else if attrType == ATTR_MAPPED {
        if mapped == None {
          mapped := plain(value);
        }
      }
      pos := SkipPadded(pos, attrLen);
    }
    return mapped;
  }

  /** Attributes are padded to a multiple of four bytes. */
  method SkipPadded(pos: nat, len: nat) returns (next: nat)
    ensures next == pos + len + Pad(len)
  {
    next := pos + len;
    if len % 4 != 0 {
      next := next + (4 - len % 4);
    }
  }

  /** The checks before the loop. */
  method CheckHeader(data: seq<byte>, txID: seq<byte>) returns (ok: bool)
    requires |txID| == 12
    ensures ok == HeaderOk(data, txID)
  {
    if |data| < HEADER || Be16(data[0], data[1]) != BINDING_SUCCESS || Be32(data[4..8]) != MAGIC {
      return false;
    }
    for i := 0 to 12
      invariant data[8..8 + i] == txID[..i]
    {
      if data[8 + i] != txID[i] {
        assert data[8..20][i] != txID[i];
        return false;
      }
    }
    assert txID[..12] == txID;
    return |data| >= HEADER + Be16(data[2], data[3]);
  }

  /** What the parser returns. */
  ghost function Parsed(data: seq<byte>, txID: seq<byte>): Option<Mapped> {
    if HeaderOk(data, txID) then Address(AttrsOf(Body(data))) else None
  }

  /** parseSTUNBindingResponse on any byte string: an address exactly when the header is good and the derived
      attribute list has a decodable one, the first XOR-MAPPED-ADDRESS wherever it stands, else the first
      MAPPED-ADDRESS. */
  method ParseResponse(data: seq<byte>, txID: seq<byte>) returns (r: Option<Mapped>)
    requires |txID| == 12
    ensures r == Parsed(data, txID)
    ensures !HeaderOk(data, txID) ==> r == None
    ensures HeaderOk(data, txID) ==> forall attrs :: Derives(Body(data), attrs) ==> r == Address(attrs)
  {
    var ok := CheckHeader(data, txID);
    if !ok {
      return None;
    }
    var end := HEADER + Be16(data[2], data[3]);
    ghost var lists := TableOf(data, end);
    r := ScanAttributes(data, end, XorDecoder(Be32(data[4..8])), ParseMapped, lists);
    forall attrs | Derives(Body(data), attrs) ensures attrs == AttrsOf(Body(data)) {
      DerivesIff(Body(data), attrs);
    }
  }

  // ----- Recovering what was encoded -----

  /** The value of an XOR-MAPPED-ADDRESS for an address, section 15.2. */
  function XorMappedValue(m: Mapped, reserved: byte): seq<byte>
    requires |m.ip| == 4 && m.port < 0x1_0000
  {
    Xor16(m.port, MAGIC / 0x1_0000);
    Xor32(Be32(m.ip), MAGIC);
    [reserved, FAMILY_IPV4] + Be16Bytes(Xor(m.port, MAGIC / 0x1_0000)) + Be32Bytes(Xor(Be32(m.ip), MAGIC))
  }

  /** The value of a MAPPED-ADDRESS, section 15.1. */
  function MappedValue(m: Mapped, reserved: byte): seq<byte>
    requires |m.ip| == 4 && m.port < 0x1_0000
  {
    [reserved, FAMILY_IPV4] + Be16Bytes(m.port) + m.ip
  }

  lemma Be32Unique(bs: seq<byte>)
    requires |bs| == 4
    ensures Be32Bytes(Be32(bs)) == bs
  {
    Be32Injective(Be32Bytes(Be32(bs)), bs);
  }

  lemma XorMappedRoundTrip(m: Mapped, reserved: byte)
    requires |m.ip| == 4 && m.port < 0x1_0000
    ensures ParseXorMapped(XorMappedValue(m, reserved), MAGIC) == Some(m)
  {
    var v := XorMappedValue(m, reserved);
    Xor16(m.port, MAGIC / 0x1_0000);
    Xor32(Be32(m.ip), MAGIC);
    assert v[4..8] == Be32Bytes(Xor(Be32(m.ip), MAGIC));
    assert v[2..4] == Be16Bytes(Xor(m.port, MAGIC / 0x1_0000));
    assert v[2] == v[2..4][0] && v[3] == v[2..4][1];
    XorTwice(m.port, MAGIC / 0x1_0000);
    XorTwice(Be32(m.ip), MAGIC);
    Be32Unique(m.ip);
  }

  lemma MappedRoundTrip(m: Mapped, reserved: byte)
    requires |m.ip| == 4 && m.port < 0x1_0000
    ensures ParseMapped(MappedValue(m, reserved)) == Some(m)
  {
    var v := MappedValue(m, reserved);
    assert v[4..8] == m.ip && v[2..4] == Be16Bytes(m.port);
    assert v[2] == v[2..4][0] && v[3] == v[2..4][1];
  }

  ghost predicate Undecodable(attrs: seq<Attr>, kind: nat, decode: Decoder) {
    forall i :: 0 <= i < |attrs| ==> attrs[i].kind != kind || decode(attrs[i].value).None?
  }

  lemma {:induction false} FirstAt(attrs: seq<Attr>, k: nat, kind: nat, decode: Decoder)
    requires k < |attrs| && attrs[k].kind == kind && decode(attrs[k].value).Some?
              && Undecodable(attrs[..k], kind, decode)
    ensures First(attrs, kind, decode) == decode(attrs[k].value)
    decreases k
  {
    if k > 0 {
      assert attrs[..k][0] == attrs[0] && attrs[..k][1..] == attrs[1..][..k - 1];
      FirstAt(attrs[1..], k - 1, kind, decode);
    }
  }

  lemma {:induction false} NoFirst(attrs: seq<Attr>, kind: nat, decode: Decoder)
    requires Undecodable(attrs, kind, decode)
    ensures First(attrs, kind, decode) == None
  {
    if attrs != [] {
      NoFirst(attrs[1..], kind, decode);
    }
  }

  /** A whole binding success response: header, body, and anything after it in the datagram. */
  ghost function Response(txID: seq<byte>, body: seq<byte>, trailer: seq<byte>): seq<byte>
    requires |txID| == 12 && |body| < 0x1_0000
  {
    [0x01, 0x01] + Be16Bytes(|body|) + [0x21, 0x12, 0xA4, 0x42] + txID + body + trailer
  }

  lemma ResponseReads(txID: seq<byte>, body: seq<byte>, trailer: seq<byte>)
    requires |txID| == 12 && |body| < 0x1_0000
    ensures var data := Response(txID, body, trailer);
            HeaderOk(data, txID) && Body(data) == body
  {
    LayoutReads([0x01, 0x01], Be16Bytes(|body|), [0x21, 0x12, 0xA4, 0x42], txID, body, trailer);
  }

  /** The header check passes exactly the responses with this transaction id: success type, magic cookie, and as many
      bytes of body as announced. */
  lemma HeaderIff(data: seq<byte>, txID: seq<byte>)
    requires |txID| == 12
    ensures HeaderOk(data, txID) <==> exists body, trailer :: |body| < 0x1_0000 && data == Response(txID, body, trailer)
  {
    if HeaderOk(data, txID) {
      var n := Be16(data[2], data[3]);
      var body, trailer := data[20..20 + n], data[20 + n..];
      Be16Injective(data[..2], [0x01, 0x01]);
      Be16Injective(data[2..4], Be16Bytes(n));
      Be32Injective(data[4..8], [0x21, 0x12, 0xA4, 0x42]);
      assert data == data[..2] + data[2..4] + data[4..8] + data[8..20] + body + trailer;
      assert data == Response(txID, body, trailer);
    }
    forall body: seq<byte>, trailer: seq<byte> | |body| < 0x1_0000 && data == Response(txID, body, trailer)
      ensures HeaderOk(data, txID)
    {
      ResponseReads(txID, body, trailer);
    }
  }

  lemma LayoutReads(kind: seq<byte>, len: seq<byte>, magic: seq<byte>, txID: seq<byte>, body: seq<byte>,
                    trailer: seq<byte>)
    requires |kind| == 2 && |len| == 2 && |magic| == 4 && |txID| == 12
    ensures var data := kind + len + magic + txID + body + trailer;
            && data[0] == kind[0] && data[1] == kind[1] && data[2] == len[0] && data[3] == len[1]
            && data[4..8] == magic && data[8..20] == txID && data[HEADER..HEADER + |body|] == body
  {}

  /** No attribute of the kind has an IPv4 address in it. */
  ghost predicate NoAddress(attrs: seq<Attr>, kind: nat) {
    forall i :: 0 <= i < |attrs| && attrs[i].kind == kind ==> |attrs[i].value| < 8 || attrs[i].value[1] != 0x01
  }

  lemma NoAddressUndecodable(attrs: seq<Attr>)
    ensures NoAddress(attrs, ATTR_XOR_MAPPED) ==> Undecodable(attrs, ATTR_XOR_MAPPED, XorDecoder(MAGIC))
    ensures NoAddress(attrs, ATTR_MAPPED) ==> Undecodable(attrs, ATTR_MAPPED, ParseMapped)
  {
    forall i | 0 <= i < |attrs|
      ensures ParseMapped(attrs[i].value).Some? <==> |attrs[i].value| >= 8 && attrs[i].value[1] == 0x01
      ensures ParseXorMapped(attrs[i].value, MAGIC).Some? <==> |attrs[i].value| >= 8 && attrs[i].value[1] == 0x01
    {
      DecodesIff(attrs[i].value);
    }
  }

  /** Attribute k carries address m, and no XOR-MAPPED-ADDRESS, or no attribute of its kind, goes before it. */
  ghost predicate Carries(attrs: seq<Attr>, k: nat, m: Mapped, reserved: byte)
    requires |m.ip| == 4 && m.port < 0x1_0000
  {
    && k < |attrs|
    && (|| (attrs[k] == Attr(0x0020, XorMappedValue(m, reserved)) && NoAddress(attrs[..k], 0x0020))
        || (attrs[k] == Attr(0x0001, MappedValue(m, reserved)) && NoAddress(attrs[..k], 0x0001)
            && NoAddress(attrs, 0x0020)))
  }

  lemma AddressCarried(attrs: seq<Attr>, k: nat, m: Mapped, reserved: byte)
    requires |m.ip| == 4 && m.port < 0x1_0000 && Carries(attrs, k, m, reserved)
    ensures Address(attrs) == Some(m)
  {
    NoAddressUndecodable(attrs);
    NoAddressUndecodable(attrs[..k]);
    if attrs[k].kind == ATTR_XOR_MAPPED {
      XorMappedRoundTrip(m, reserved);
      FirstAt(attrs, k, ATTR_XOR_MAPPED, XorDecoder(MAGIC));
    } else {
      MappedRoundTrip(m, reserved);
      NoFirst(attrs, ATTR_XOR_MAPPED, XorDecoder(MAGIC));
      FirstAt(attrs, k, ATTR_MAPPED, ParseMapped);
    }
  }

  /** The parser returns any address sent in an XOR-MAPPED-ADDRESS among arbitrary other padded attributes, and
      any sent in a MAPPED-ADDRESS when there is no XOR-MAPPED-ADDRESS. */
  lemma RecoversAddress(txID: seq<byte>, body: seq<byte>, trailer: seq<byte>, es: seq<Encoded>, tail: seq<byte>,
                        k: nat, m: Mapped, reserved: byte)
    requires |txID| == 12 && |body| < 0x1_0000 && Lays(body, es, tail)
    requires |m.ip| == 4 && m.port < 0x1_0000 && Carries(Attrs(es), k, m, reserved)
    ensures Parsed(Response(txID, body, trailer), txID) == Some(m)
  {
    ResponseReads(txID, body, trailer);
    LayoutIsSplit(body, es, tail);
    AddressCarried(Attrs(es), k, m, reserved);
  }
}
