/** The unsigned variable-length integers that prefix every compressed-stream frame. */
module Uvarint {
  import opened Bytes

  const MAX_BYTES: nat := 10

  /** Little-endian groups of seven bits, the high bit set on every byte but the last. */
  function Encode(v: nat): seq<byte> {
    if v < 0x80 then [v] else [v % 0x80 + 0x80] + Encode(v / 0x80)
  }

  /** The format: least significant seven bits first, the high bit on every byte but the last, and no superfluous
      byte at the end. */
  lemma {:induction false} EncodeShape(v: nat)
    ensures var bs := Encode(v);
            && |bs| > 0 && bs[0] == (if |bs| > 1 then v % 0x80 + 0x80 else v)
            && (forall i :: 0 <= i < |bs| - 1 ==> bs[i] >= 0x80) && bs[|bs| - 1] < 0x80
            && (|bs| > 1 ==> bs[|bs| - 1] > 0)
  {
    if v >= 0x80 {
      EncodeShape(v / 0x80);
      assert forall i :: 0 < i < |Encode(v)| ==> Encode(v)[i] == Encode(v / 0x80)[i - 1];
    }
  }

  datatype Decoded =
    | Got(value: nat, rest: seq<byte>)
    | Truncated                     // the input ended inside the number
    | Overflow(rest: seq<byte>)     // more than 64 bits

  /** Decode the number whose first i bytes have already been taken. */
  function DecodeFrom(w: seq<byte>, i: nat): Decoded
    requires i <= MAX_BYTES
    decreases |w|
  {
    if i == MAX_BYTES then Overflow(w)
    else if w == [] then Truncated
    else if w[0] < 0x80 then
      if i == MAX_BYTES - 1 && w[0] > 1 then Overflow(w[1..]) else Got(w[0], w[1..])
    else
      match DecodeFrom(w[1..], i + 1)
      case Got(v, rest) => Got(w[0] - 0x80 + 0x80 * v, rest)
      case other => other
  }

  /** One more than the largest number that fits in the bytes from position i on. */
  function Limit(i: nat): nat
    requires i < MAX_BYTES
    decreases MAX_BYTES - i
  {
    if i == MAX_BYTES - 1 then 2 else 0x80 * Limit(i + 1)
  }

  /** Decoding undoes encoding in front of any further bytes, for every 64-bit number. */
  lemma {:induction false} RoundTrip(v: nat, rest: seq<byte>, i: nat)
    requires i < MAX_BYTES && v < Limit(i)
    ensures DecodeFrom(Encode(v) + rest, i) == Got(v, rest)
    decreases v
  {
    var w := Encode(v) + rest;
    if v < 0x80 {
      assert w[1..] == rest;
    } else {
      assert w[1..] == Encode(v / 0x80) + rest;
      RoundTrip(v / 0x80, rest, i + 1);
    }
  }

  /** A number cut anywhere before its last byte reads as truncated. */
  lemma {:induction false} CutIsTruncated(v: nat, k: nat, i: nat)
    requires i < MAX_BYTES && v < Limit(i) && k < |Encode(v)|
    ensures DecodeFrom(Encode(v)[..k], i) == Truncated
    decreases v
  {
    var w := Encode(v)[..k];
    if v >= 0x80 && k > 0 {
      assert w[1..] == Encode(v / 0x80)[..k - 1];
      CutIsTruncated(v / 0x80, k - 1, i + 1);
    }
  }

  lemma LimitIs64Bits()
    ensures Limit(0) == 0x1_0000_0000_0000_0000
  {
    assert Limit(8) == 0x80 * Limit(9);
    assert Limit(6) == 0x80 * Limit(7);
    assert Limit(4) == 0x80 * Limit(5);
    assert Limit(2) == 0x80 * Limit(3);
  }

  /** A larger number never has a shorter encoding. */
  lemma {:induction false} LengthMonotone(v: nat, w: nat)
    requires v <= w
    ensures |Encode(v)| <= |Encode(w)|
    decreases w
  {
    if w >= 0x80 && v >= 0x80 {
      LengthMonotone(v / 0x80, w / 0x80);
    }
  }

  /** What a decoder consumed is a non-empty prefix of its input. */
  lemma {:induction false} DecodeConsumes(w: seq<byte>, i: nat)
    requires i < MAX_BYTES
    ensures match DecodeFrom(w, i)
            case Got(_, rest) => |rest| < |w| && rest == w[|w| - |rest|..]
            case Overflow(rest) => |rest| < |w| && rest == w[|w| - |rest|..]
            case Truncated => true
    decreases |w|
  {
    if w != [] && w[0] >= 0x80 && i + 1 < MAX_BYTES {
      DecodeConsumes(w[1..], i + 1);
    }
  }

  /** Nothing that takes more than 64 bits is accepted. */
  lemma {:induction false} DecodeFits(w: seq<byte>, i: nat)
    requires i < MAX_BYTES
    ensures DecodeFrom(w, i).Got? ==> DecodeFrom(w, i).value < Limit(i)
    decreases |w|
  {
    if w != [] && w[0] >= 0x80 && i + 1 < MAX_BYTES {
      DecodeFits(w[1..], i + 1);
    } else if i + 1 < MAX_BYTES {
      LimitIsWide(i);
    }
  }

  lemma {:induction false} LimitIsWide(i: nat)
    requires i < MAX_BYTES - 1
    ensures Limit(i) >= 0x100
    decreases MAX_BYTES - i
  {
    if i + 1 < MAX_BYTES - 1 {
      LimitIsWide(i + 1);
    }
  }

  /** PutUvarint: emit seven bits at a time. */
  method Put(v: nat) returns (bs: seq<byte>)
    ensures bs == Encode(v)
  {
    bs := [];
    var x := v;
    while x >= 0x80
      invariant bs + Encode(x) == Encode(v)
    {
      bs := bs + [x % 0x80 + 0x80];
      x := x / 0x80;
    }
    bs := bs + [x];
  }

  /** The length the writer charges for a frame header is the length really written. */
  method UvarintLen(value: nat) returns (l: nat)
    ensures l == |Encode(value)|
  {
    l := 1;
    var v := value;
    while v >= 0x80
      invariant l >= 1
      invariant l - 1 + |Encode(v)| == |Encode(value)|
    {
      v := v / 0x80;
      l := l + 1;
    }
  }
}
