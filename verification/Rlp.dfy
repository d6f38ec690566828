/**
 Recursive Length Prefix encoding, Appendix B of the Ethereum Yellow Paper, with a strict
 decoder. The encoder has no value for a payload of 2^64 bytes or more.
 */
module Rlp {
  import opened Outcomes
  import opened ByteStrings

  datatype Item = Bytes(bs: seq<byte>) | List(items: seq<Item>)

  const STRING_OFFSET := 0x80
  const LIST_OFFSET := 0xc0
  const LENGTH_LIMIT := 0x1_0000_0000_0000_0000

  // ---------------------------------------------------------------- encoder

  /** The prefix of a payload of `n` bytes */
  function Header(isList: bool, n: nat): Option<seq<byte>> {
    var offset := if isList then LIST_OFFSET else STRING_OFFSET;
    if n < 56 then Some([offset + n])
    else if n < LENGTH_LIMIT then
      LengthBytesFit(n);
      Some([offset + 55 + |ScalarBytes(n)|] + ScalarBytes(n))
    else None
  }

  /** One payload with its prefix; a single byte below 0x80 is its own encoding. */
  function Frame(isList: bool, payload: seq<byte>): Option<seq<byte>> {
    if !isList && |payload| == 1 && payload[0] < STRING_OFFSET then Some(payload)
    else
      var header :- Header(isList, |payload|);
      Some(header + payload)
  }

  function Encode(x: Item): Option<seq<byte>>
    decreases x, 1
  {
    match x
    case Bytes(bs) => Frame(false, bs)
    case List(items) =>
      var payload :- EncodeAll(items);
      Frame(true, payload)
  }

  function EncodeAll(xs: seq<Item>): Option<seq<byte>>
    decreases xs, 0
  {
    if xs == [] then Some([])
    else
      var head :- Encode(xs[0]);
      var tail :- EncodeAll(xs[1..]);
      Some(head + tail)
  }

  // ---------------------------------------------------------------- strict decoder

  datatype Framed = Framed(isList: bool, payload: seq<byte>, rest: seq<byte>)

  /** Header length and payload length announced at the front of `bs`; only shortest forms are read. */
  function ReadHeader(offset: byte, bs: seq<byte>): (r: Option<(nat, nat)>)
    requires bs != [] && offset <= bs[0] < offset + 64
    ensures r.Some? ==> 1 <= r.value.0 <= |bs|
  {
    var k := bs[0] - offset;
    if k < 56 then Some((1, k))
    else if |bs| < 1 + (k - 55) then None
    else
      var width := k - 55;
      var digits := bs[1..1 + width];
      if digits[0] == 0 || Value(digits) < 56 then None
      else Some((1 + width, Value(digits)))
  }

  function Split(bs: seq<byte>): (r: Option<Framed>)
    ensures r.Some? ==> |r.value.payload| + |r.value.rest| <= |bs|
    ensures r.Some? ==> |r.value.rest| < |bs|
    ensures r.Some? && r.value.isList ==> |r.value.payload| < |bs|
  {
    if bs == [] then None
    else if bs[0] < STRING_OFFSET then Some(Framed(false, bs[..1], bs[1..]))
    else
      var offset := if bs[0] < LIST_OFFSET then STRING_OFFSET else LIST_OFFSET;
      var (h, n) :- ReadHeader(offset, bs);
      if |bs| < h + n then None
      else if offset == STRING_OFFSET && n == 1 && bs[h] < STRING_OFFSET then None
      else Some(Framed(offset == LIST_OFFSET, bs[h..h + n], bs[h + n..]))
  }

  /** The first item of `bs` and what follows it */
  function DecodeItem(bs: seq<byte>): (r: Option<(Item, seq<byte>)>)
    ensures r.Some? ==> |r.value.1| < |bs|
    decreases |bs|, 0
  {
    var f :- Split(bs);
    if f.isList then
      var items :- DecodeAll(f.payload);
      Some((List(items), f.rest))
    else Some((Bytes(f.payload), f.rest))
  }

  function DecodeAll(bs: seq<byte>): Option<seq<Item>>
    decreases |bs|, 1
  {
    if bs == [] then Some([])
    else
      var (x, rest) :- DecodeItem(bs);
      var xs :- DecodeAll(rest);
      Some([x] + xs)
  }

  /** `rlp.decode`: one item and nothing after it */
  function Decode(bs: seq<byte>): Option<Item> {
    var (x, rest) :- DecodeItem(bs);
    if rest == [] then Some(x) else None
  }

  // ---------------------------------------------------------------- the definition in numbers

  /** `d` is the shortest big-endian form of `n`. */
  predicate Digits(d: seq<byte>, n: nat) {
    NoLeadingZero(d) && Value(d) == n
  }

  /** The cases of Appendix B for byte strings, up to 2^64 bytes */
  lemma {:induction false} StringForm(bs: seq<byte>)
    ensures |bs| == 1 && bs[0] < 0x80 ==> Encode(Bytes(bs)) == Some(bs)
    ensures |bs| < 56 && !(|bs| == 1 && bs[0] < 0x80) ==> Encode(Bytes(bs)) == Some([0x80 + |bs|] + bs)
    ensures 56 <= |bs| < 0x1_0000_0000_0000_0000 ==>
              exists d :: Digits(d, |bs|) && |d| <= 8 && Encode(Bytes(bs)) == Some([0xb7 + |d|] + d + bs)
    ensures |bs| >= 0x1_0000_0000_0000_0000 ==> Encode(Bytes(bs)).None?
  {
    if 56 <= |bs| < LENGTH_LIMIT {
      LengthBytesFit(|bs|);
      ScalarBytesValue(|bs|);
      var d := ScalarBytes(|bs|);
      assert Digits(d, |bs|) && [0xb7 + |d|] + d == Header(false, |bs|).value;
    }
  }

  /** The cases of Appendix B for lists, over the concatenated encodings of the members */
  lemma {:induction false} ListForm(xs: seq<Item>)
    requires EncodeAll(xs).Some?
    ensures var payload := EncodeAll(xs).value;
            && (|payload| < 56 ==> Encode(List(xs)) == Some([0xc0 + |payload|] + payload))
            && (56 <= |payload| < 0x1_0000_0000_0000_0000 ==>
                exists d :: Digits(d, |payload|) && |d| <= 8 && Encode(List(xs)) == Some([0xf7 + |d|] + d + payload))
            && (|payload| >= 0x1_0000_0000_0000_0000 ==> Encode(List(xs)).None?)
  {
    var n := |EncodeAll(xs).value|;
    if 56 <= n < LENGTH_LIMIT {
      LengthBytesFit(n);
      ScalarBytesValue(n);
      var d := ScalarBytes(n);
      assert Digits(d, n) && [0xf7 + |d|] + d == Header(true, n).value;
    }
  }

  // ---------------------------------------------------------------- one level

  lemma {:induction false} LengthBytesFit(n: nat)
    requires n < LENGTH_LIMIT
    ensures |ScalarBytes(n)| <= 8
  {
    Pow256Of8And32();
    ScalarBytesWidth(n, 8);
  }

  lemma {:induction false} ReadHeaderOfHeader(isList: bool, n: nat, rest: seq<byte>)
    requires Header(isList, n).Some?
    ensures var h := Header(isList, n).value;
            var offset := if isList then LIST_OFFSET else STRING_OFFSET;
            && h != [] && offset <= h[0] < offset + 64
            && ReadHeader(offset, h + rest) == Some((|h|, n))
  {
    var h := Header(isList, n).value;
    if n >= 56 {
      LengthBytesFit(n);
      ScalarBytesValue(n);
      assert (h + rest)[1..|h|] == ScalarBytes(n);
    }
  }

  lemma {:induction false} HeaderOfReadHeader(isList: bool, bs: seq<byte>)
    requires bs != []
    requires var offset := if isList then LIST_OFFSET else STRING_OFFSET;
             offset <= bs[0] < offset + 64 && ReadHeader(offset, bs).Some?
    ensures var offset := if isList then LIST_OFFSET else STRING_OFFSET;
            var (h, n) := ReadHeader(offset, bs).value;
            Header(isList, n) == Some(bs[..h])
  {
    var offset := if isList then LIST_OFFSET else STRING_OFFSET;
    var (h, n) := ReadHeader(offset, bs).value;
    if bs[0] - offset >= 56 {
      var digits := bs[1..h];
      ScalarBytesOfValue(digits);
      Pow256Of8And32();
      ScalarBytesWidth(n, 8);
      assert ScalarBytes(n) == digits && n < LENGTH_LIMIT;
      assert bs[..h] == [bs[0]] + digits;
    } else {
      assert bs[..h] == [bs[0]];
    }
  }

  lemma {:induction false} SplitOfFrame(isList: bool, payload: seq<byte>, rest: seq<byte>)
    requires Frame(isList, payload).Some?
    ensures Frame(isList, payload).value != []
    ensures Split(Frame(isList, payload).value + rest) == Some(Framed(isList, payload, rest))
  {
    var e := Frame(isList, payload).value;
    var bs := e + rest;
    if !isList && |payload| == 1 && payload[0] < STRING_OFFSET {
      assert bs[..1] == payload && bs[1..] == rest;
    } else {
      var h := Header(isList, |payload|).value;
      ReadHeaderOfHeader(isList, |payload|, payload + rest);
      assert bs == h + (payload + rest);
      var offset := if isList then LIST_OFFSET else STRING_OFFSET;
      assert bs[0] == h[0] && ReadHeader(offset, bs) == Some((|h|, |payload|));
      assert bs[|h|..|h| + |payload|] == payload && bs[|h| + |payload|..] == rest;
      assert |payload| == 1 ==> bs[|h|] == payload[0];
    }
  }

  lemma {:induction false} ThreeParts(bs: seq<byte>, i: nat, j: nat)
    requires i <= j <= |bs|
    ensures bs == bs[..i] + bs[i..j] + bs[j..]
  {
  }

  lemma {:induction false} FrameOfSplit(bs: seq<byte>)
    requires Split(bs).Some?
    ensures var f := Split(bs).value;
            && Frame(f.isList, f.payload).Some?
            && Frame(f.isList, f.payload).value + f.rest == bs
  {
    var f := Split(bs).value;
    if bs[0] < STRING_OFFSET {
      assert bs == bs[..1] + bs[1..];
    } else {
      HeaderOfReadHeader(f.isList, bs);
      var offset := if f.isList then LIST_OFFSET else STRING_OFFSET;
      var (h, n) := ReadHeader(offset, bs).value;
      ThreeParts(bs, h, h + n);
      assert n == 1 ==> f.payload[0] == bs[h];
    }
  }

  // ---------------------------------------------------------------- whole items

  /** Decoding an encoding gives the item back and leaves exactly what followed it. */
  lemma {:induction false} DecodeOfEncode(x: Item, rest: seq<byte>)
    requires Encode(x).Some?
    ensures Encode(x).value != []
    ensures DecodeItem(Encode(x).value + rest) == Some((x, rest))
    decreases x, 1
  {
    match x
    case Bytes(bs) =>
      SplitOfFrame(false, bs, rest);
    case List(items) =>
      var payload := EncodeAll(items).value;
      SplitOfFrame(true, payload, rest);
      DecodeAllOfEncodeAll(items);
  }

  lemma {:induction false} DecodeAllOfEncodeAll(xs: seq<Item>)
    requires EncodeAll(xs).Some?
    ensures DecodeAll(EncodeAll(xs).value) == Some(xs)
    decreases xs, 0
  {
    if xs == [] {
    } else {
      var tail := EncodeAll(xs[1..]).value;
      DecodeOfEncode(xs[0], tail);
      DecodeAllOfEncodeAll(xs[1..]);
      assert [xs[0]] + xs[1..] == xs;
    }
  }

  /** Whatever the decoder accepts is the one encoding of what it returns. */
  lemma {:induction false} EncodeOfDecode(bs: seq<byte>)
    requires DecodeItem(bs).Some?
    ensures var (x, rest) := DecodeItem(bs).value;
            Encode(x).Some? && Encode(x).value + rest == bs
    decreases |bs|, 0
  {
    FrameOfSplit(bs);
    var f := Split(bs).value;
    if f.isList {
      EncodeAllOfDecodeAll(f.payload);
    }
  }

  lemma {:induction false} EncodeAllOfDecodeAll(bs: seq<byte>)
    requires DecodeAll(bs).Some?
    ensures EncodeAll(DecodeAll(bs).value) == Some(bs)
    decreases |bs|, 1
  {
    if bs == [] {
    } else {
      var (x, rest) := DecodeItem(bs).value;
      EncodeOfDecode(bs);
      EncodeAllOfDecodeAll(rest);
      assert ([x] + DecodeAll(rest).value)[1..] == DecodeAll(rest).value;
    }
  }

  /** `Decode` and `Encode` are inverse bijections between encodable items and accepted strings. */
  lemma {:induction false} RoundTrip(x: Item, bs: seq<byte>)
    ensures Encode(x).Some? ==> Decode(Encode(x).value) == Some(x)
    ensures Decode(bs).Some? ==> Encode(Decode(bs).value) == Some(bs)
  {
    if Encode(x).Some? {
      DecodeOfEncode(x, []);
      assert Encode(x).value + [] == Encode(x).value;
    }
    if Decode(bs).Some? {
      EncodeOfDecode(bs);
      var e := Encode(Decode(bs).value).value;
      assert e + [] == e;
    }
  }

  /** No encoding is a prefix of another: a stream of encodings parses in one way only. */
  lemma {:induction false} PrefixFree(x: Item, y: Item)
    requires Encode(x).Some? && Encode(y).Some?
    requires Encode(x).value <= Encode(y).value
    ensures x == y
  {
    var a, b := Encode(x).value, Encode(y).value;
    var rest := b[|a|..];
    DecodeOfEncode(x, rest);
    DecodeOfEncode(y, []);
    assert b == a + rest && b + [] == b;
  }

  lemma {:induction false} EncodeInjective(x: Item, y: Item)
    requires Encode(x).Some? && Encode(x) == Encode(y)
    ensures x == y
  {
    PrefixFree(x, y);
  }

  // ---------------------------------------------------------------- when there is an encoding

  /** Bytes of the prefix of an `n`-byte payload */
  function HeaderLength(n: nat): nat {
    if n < 56 then 1 else 1 + |ScalarBytes(n)|
  }

  /** Bytes of the payload of an item, computed from its shape */
  function PayloadLength(x: Item): nat
    decreases x, 0
  {
    match x
    case Bytes(bs) => |bs|
    case List(items) => LengthAll(items)
  }

  /** Bytes of the whole encoding */
  function Length(x: Item): (n: nat)
    ensures n >= 1 && n >= PayloadLength(x)
    decreases x, 1
  {
    if x.Bytes? && |x.bs| == 1 && x.bs[0] < STRING_OFFSET then 1
    else HeaderLength(PayloadLength(x)) + PayloadLength(x)
  }

  function LengthAll(xs: seq<Item>): nat
    decreases xs, 0
  {
    if xs == [] then 0 else Length(xs[0]) + LengthAll(xs[1..])
  }

  /**
   An item has an encoding exactly when its payload has fewer than 2^64 bytes, and the encoding has
   the length computed from the item; the payloads inside a list need no condition of their own.
   */
  lemma {:induction false} EncodeExistsIff(x: Item)
    ensures Encode(x).Some? <==> PayloadLength(x) < 0x1_0000_0000_0000_0000
    ensures Encode(x).Some? ==> |Encode(x).value| == Length(x)
    decreases x, 1
  {
    if x.List? {
      EncodeAllExists(x.items);
    }
  }

  lemma {:induction false} EncodeAllExists(xs: seq<Item>)
    ensures LengthAll(xs) < LENGTH_LIMIT ==> EncodeAll(xs).Some?
    ensures EncodeAll(xs).Some? ==> |EncodeAll(xs).value| == LengthAll(xs)
    decreases xs, 0
  {
    if xs == [] {
    } else {
      EncodeExistsIff(xs[0]);
      EncodeAllExists(xs[1..]);
    }
  }

  lemma {:induction false} LengthAllSum(xs: seq<Item>, ys: seq<Item>)
    ensures LengthAll(xs + ys) == LengthAll(xs) + LengthAll(ys)
  {
    if xs == [] {
      assert xs + ys == ys;
    } else {
      LengthAllSum(xs[1..], ys);
      assert (xs + ys)[1..] == xs[1..] + ys;
    }
  }

  /** Items of at most `k` bytes each */
  lemma {:induction false} LengthAllBound(xs: seq<Item>, k: nat)
    requires forall i :: 0 <= i < |xs| ==> Length(xs[i]) <= k
    ensures LengthAll(xs) <= k * |xs|
  {
    if xs == [] {
    } else {
      LengthAllBound(xs[1..], k);
      OneMore(k, |xs[1..]|);
    }
  }

  lemma {:induction false} OneMore(k: nat, n: nat)
    ensures k * (n + 1) == k * n + k
  {
  }

  /** Every item takes a byte at least, and a member no more than the list. */
  lemma {:induction false} LengthAllAtLeast(xs: seq<Item>)
    ensures LengthAll(xs) >= |xs|
    ensures forall i :: 0 <= i < |xs| ==> Length(xs[i]) <= LengthAll(xs)
  {
    if xs == [] {
    } else {
      LengthAllAtLeast(xs[1..]);
      assert forall i :: 1 <= i < |xs| ==> xs[i] == xs[1..][i - 1];
    }
  }
}
