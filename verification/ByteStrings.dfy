/**
 Byte strings and big-endian integers: Python's `int.to_bytes`, `int.from_bytes` and
 `int.bit_length`, the repository's minimal integer encoder, and the scalar encoding of the
 Ethereum Yellow Paper, Appendix B.
 */
module ByteStrings {

  type byte = b: int | 0 <= b < 256

  function Pow256(w: nat): (p: nat)
    ensures p > 0
  {
    if w == 0 then 1 else 256 * Pow256(w - 1)
  }

  /** `int.from_bytes(bs, "big")` */
  function Value(bs: seq<byte>): nat {
    if bs == [] then 0 else 256 * Value(bs[..|bs| - 1]) + bs[|bs| - 1]
  }

  /** `v.to_bytes(w, "big")` for a `v` that fits in `w` bytes */
  function BigEndian(v: nat, w: nat): (bs: seq<byte>)
    ensures |bs| == w
  {
    if w == 0 then [] else BigEndian(v / 256, w - 1) + [v % 256]
  }

  /** `v.bit_length()` */
  function BitLength(v: nat): nat {
    if v == 0 then 0 else 1 + BitLength(v / 2)
  }

  /** `_int_to_rlp_bytes`: empty for zero, otherwise as many bytes as the bit length asks for */
  function IntToRlpBytes(value: nat): seq<byte> {
    if value == 0 then [] else BigEndian(value, (BitLength(value) + 7) / 8)
  }

  /** The Yellow Paper's BE function: the digits of `n` in base 256, none for zero. */
  function ScalarBytes(n: nat): seq<byte> {
    if n == 0 then [] else ScalarBytes(n / 256) + [n % 256]
  }

  /** A scalar has no leading zero byte. */
  predicate NoLeadingZero(bs: seq<byte>) {
    bs != [] ==> bs[0] != 0
  }

  // ---------------------------------------------------------------- fixed width

  lemma {:induction false} ValueOfBigEndian(v: nat, w: nat)
    requires v < Pow256(w)
    ensures Value(BigEndian(v, w)) == v
  {
    if w == 0 {
    } else {
      ValueOfBigEndian(v / 256, w - 1);
      assert BigEndian(v, w)[..w - 1] == BigEndian(v / 256, w - 1);
    }
  }

  lemma {:induction false} BigEndianOfValue(bs: seq<byte>)
    ensures Value(bs) < Pow256(|bs|)
    ensures BigEndian(Value(bs), |bs|) == bs
  {
    if bs == [] {
    } else {
      BigEndianOfValue(bs[..|bs| - 1]);
      assert bs == bs[..|bs| - 1] + [bs[|bs| - 1]];
    }
  }

  lemma {:induction false} Pow256Sum(a: nat, b: nat)
    ensures Pow256(a + b) == Pow256(a) * Pow256(b)
  {
    if a == 0 {
    } else {
      Pow256Sum(a - 1, b);
      assert Pow256(a + b) == 256 * (Pow256(a - 1) * Pow256(b));
    }
  }

  lemma {:induction false} Pow256Of8And32()
    ensures Pow256(8) == 0x1_0000_0000_0000_0000
    ensures Pow256(32) == 0x1_0000_0000_0000_0000 * 0x1_0000_0000_0000_0000
                          * 0x1_0000_0000_0000_0000 * 0x1_0000_0000_0000_0000
  {
    assert Pow256(2) == 0x1_0000;
    Pow256Sum(2, 2);
    Pow256Sum(4, 4);
    Pow256Sum(8, 8);
    Pow256Sum(16, 16);
  }

  // ---------------------------------------------------------------- minimal width

  /** Scalars are exactly the byte strings without a leading zero. */
  lemma {:induction false} ScalarBytesValue(n: nat)
    ensures Value(ScalarBytes(n)) == n && NoLeadingZero(ScalarBytes(n))
    ensures n > 0 ==> ScalarBytes(n) != []
  {
    if n == 0 {
    } else {
      ScalarBytesValue(n / 256);
      assert ScalarBytes(n)[..|ScalarBytes(n)| - 1] == ScalarBytes(n / 256);
    }
  }

  lemma {:induction false} ScalarBytesOfValue(bs: seq<byte>)
    requires NoLeadingZero(bs)
    ensures ScalarBytes(Value(bs)) == bs
    ensures bs != [] ==> Value(bs) > 0
  {
    if bs == [] {
    } else {
      var front := bs[..|bs| - 1];
      ScalarBytesOfValue(front);
      assert bs == front + [bs[|bs| - 1]];
      assert Value(bs) / 256 == Value(front) && Value(bs) % 256 == bs[|bs| - 1];
    }
  }

  /** A scalar below 256^w has at most w bytes, and no fewer than its value needs. */
  lemma {:induction false} ScalarBytesWidth(n: nat, w: nat)
    ensures n < Pow256(w) <==> |ScalarBytes(n)| <= w
  {
    if n == 0 {
    } else if w == 0 {
    } else {
      ScalarBytesWidth(n / 256, w - 1);
    }
  }

  /** Eight halvings are one division by 256. */
  lemma {:induction false} BitLengthByByte(v: nat)
    requires v > 0
    ensures BitLength(v) > 0
    ensures (BitLength(v) + 7) / 8 == 1 + (BitLength(v / 256) + 7) / 8
  {
    var a := v / 2;
    var b := a / 2;
    var c := b / 2;
    var d := c / 2;
    var e := d / 2;
    var f := e / 2;
    var g := f / 2;
    assert v / 256 == g / 2;
    assert BitLength(v) == if a == 0 then 1 else 1 + BitLength(a);
    assert BitLength(a) == if a == 0 then 0 else 1 + BitLength(b);
    assert BitLength(b) == if b == 0 then 0 else 1 + BitLength(c);
    assert BitLength(c) == if c == 0 then 0 else 1 + BitLength(d);
    assert BitLength(d) == if d == 0 then 0 else 1 + BitLength(e);
    assert BitLength(e) == if e == 0 then 0 else 1 + BitLength(f);
    assert BitLength(f) == if f == 0 then 0 else 1 + BitLength(g);
    assert BitLength(g) == if g == 0 then 0 else 1 + BitLength(v / 256);
  }

  /** The bit-length encoder of the repository computes the Yellow Paper's scalar. */
  lemma {:induction false} IntToRlpBytesIsScalar(v: nat)
    ensures IntToRlpBytes(v) == ScalarBytes(v)
  {
    if v == 0 {
    } else {
      BitLengthByByte(v);
      IntToRlpBytesIsScalar(v / 256);
      assert v / 256 == 0 ==> BitLength(v / 256) == 0;
    }
  }

  /** `_int_to_rlp_bytes` is a bijection onto the byte strings with no leading zero; `Value` inverts it. */
  lemma {:induction false} IntToRlpBytesBijection(v: nat, bs: seq<byte>)
    ensures NoLeadingZero(IntToRlpBytes(v)) && Value(IntToRlpBytes(v)) == v
    ensures NoLeadingZero(bs) <==> IntToRlpBytes(Value(bs)) == bs
  {
    IntToRlpBytesIsScalar(v);
    ScalarBytesValue(v);
    IntToRlpBytesIsScalar(Value(bs));
    ScalarBytesValue(Value(bs));
    if NoLeadingZero(bs) {
      ScalarBytesOfValue(bs);
    }
  }
}
