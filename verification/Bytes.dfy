/** Bytes, optional values and the sequence facts shared by every module. */
module Bytes {
  type byte = x: int | 0 <= x < 256

  datatype Option<+T> = None | Some(value: T)

  function Min(a: nat, b: nat): nat { if a < b then a else b }

  /** Concatenation of a sequence of sequences. */
  function Flatten<T>(parts: seq<seq<T>>): seq<T> {
    if parts == [] then [] else parts[0] + Flatten(parts[1..])
  }

  lemma {:induction false} FlattenAppend<T>(a: seq<seq<T>>, b: seq<seq<T>>)
    ensures Flatten(a + b) == Flatten(a) + Flatten(b)
  {
    if a == [] {
      assert a + b == b;
    } else {
      assert (a + b)[1..] == a[1..] + b;
      FlattenAppend(a[1..], b);
    }
  }

  /** How many leading parts lie wholly within the first k elements of their concatenation. */
  function Whole<T>(parts: seq<seq<T>>, k: nat): (m: nat)
    ensures m <= |parts|
  {
    if parts == [] || k < |parts[0]| then 0 else 1 + Whole(parts[1..], k - |parts[0]|)
  }

  /** A cut concatenation is that of its whole parts and a proper beginning of the next one. */
  lemma {:induction false} FlattenCut<T>(parts: seq<seq<T>>, k: nat) returns (rest: seq<T>)
    requires k <= |Flatten(parts)|
    ensures var m := Whole(parts, k);
            && Flatten(parts)[..k] == Flatten(parts[..m]) + rest
            && (rest != [] ==> m < |parts| && rest < parts[m])
    decreases |parts|
  {
    rest := [];
    if parts != [] {
      if k < |parts[0]| {
        rest := parts[0][..k];
        assert Flatten(parts)[..k] == rest;
      } else {
        rest := FlattenCut(parts[1..], k - |parts[0]|);
        var m := Whole(parts, k);
        assert parts[..m][1..] == parts[1..][..m - 1];
        assert Flatten(parts)[..k] == parts[0] + Flatten(parts[1..])[..k - |parts[0]|];
      }
    }
  }

  /** Big-endian 16-bit value of two bytes. */
  function Be16(hi: byte, lo: byte): (v: nat)
    ensures v < 0x1_0000
  {
    256 * hi + lo
  }

  /** The two bytes of a 16-bit value, most significant first. */
  function Be16Bytes(v: nat): (bs: seq<byte>)
    requires v < 0x1_0000
    ensures |bs| == 2 && Be16(bs[0], bs[1]) == v
  {
    [v / 256, v % 256]
  }

  /** Big-endian 32-bit value of four bytes. */
  function Be32(bs: seq<byte>): (v: nat)
    requires |bs| == 4
    ensures v < 0x1_0000_0000
  {
    0x1_0000 * Be16(bs[0], bs[1]) + Be16(bs[2], bs[3])
  }

  /** The four bytes of a 32-bit value, most significant first. */
  function Be32Bytes(v: nat): (bs: seq<byte>)
    requires v < 0x1_0000_0000
    ensures |bs| == 4 && Be32(bs) == v
  {
    Be16Bytes(v / 0x1_0000) + Be16Bytes(v % 0x1_0000)
  }

  /** Network byte order: the first byte is the most significant. */
  lemma NetworkOrder(a: seq<byte>, b: seq<byte>)
    requires |a| == |b| == 4
    ensures Be16(a[0], a[1]) < Be16(b[0], b[1]) <==> a[0] < b[0] || (a[0] == b[0] && a[1] < b[1])
    ensures a[0] < b[0] ==> Be32(a) < Be32(b)
    ensures a[0] == b[0] && a[1] < b[1] ==> Be32(a) < Be32(b)
    ensures a[..2] == b[..2] && a[2] < b[2] ==> Be32(a) < Be32(b)
    ensures a[..3] == b[..3] && a[3] < b[3] ==> Be32(a) < Be32(b)
  {
    assert forall i :: 0 <= i < 2 ==> a[..2][i] == a[i] && b[..2][i] == b[i];
    assert forall i :: 0 <= i < 3 ==> a[..3][i] == a[i] && b[..3][i] == b[i];
  }

  lemma Be16Injective(a: seq<byte>, b: seq<byte>)
    requires |a| == |b| == 2 && Be16(a[0], a[1]) == Be16(b[0], b[1])
    ensures a == b
  {}

  lemma Be32Injective(a: seq<byte>, b: seq<byte>)
    requires |a| == |b| == 4 && Be32(a) == Be32(b)
    ensures a == b
  {
    assert Be16(a[0], a[1]) == Be16(b[0], b[1]) && Be16(a[2], a[3]) == Be16(b[2], b[3]);
  }
}
