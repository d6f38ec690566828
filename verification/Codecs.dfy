/**
 Pairs of a printer to RLP items and a strict parser, and the list combinator over them. A codec
 is exact when its two halves are inverse to each other, so exactness of a record follows from
 exactness of its fields.
 */
module Codecs {
  import opened Outcomes
  import opened ByteStrings
  import opened Rlp

  datatype Codec<!T> = Codec(put: T -> Item, get: Item -> Option<T>)

  /** Reading back gives what was printed, and only printed items are read. */
  ghost predicate Exact<T(!new)>(c: Codec<T>) {
    && (forall t: T :: c.get(c.put(t)) == Some(t))
    && (forall x: Item :: c.get(x).Some? ==> c.put(c.get(x).value) == x)
  }

  function PutAll<T>(c: Codec<T>, ts: seq<T>): (xs: seq<Item>)
    ensures |xs| == |ts|
  {
    if ts == [] then [] else [c.put(ts[0])] + PutAll(c, ts[1..])
  }

  function GetAll<T>(c: Codec<T>, xs: seq<Item>): Option<seq<T>> {
    if xs == [] then Some([])
    else
      var t :- c.get(xs[0]);
      var ts :- GetAll(c, xs[1..]);
      Some([t] + ts)
  }

  function PutList<T>(c: Codec<T>, ts: seq<T>): Item {
    List(PutAll(c, ts))
  }

  function GetList<T>(c: Codec<T>, x: Item): Option<seq<T>> {
    if x.List? then GetAll(c, x.items) else None
  }

  lemma {:induction false} GetAllOfPutAll<T(!new)>(c: Codec<T>, ts: seq<T>)
    requires Exact(c)
    ensures GetAll(c, PutAll(c, ts)) == Some(ts)
  {
    if ts == [] {
    } else {
      GetAllOfPutAll(c, ts[1..]);
      assert c.get(c.put(ts[0])) == Some(ts[0]);
      assert [ts[0]] + ts[1..] == ts;
    }
  }

  lemma {:induction false} PutAllOfGetAll<T(!new)>(c: Codec<T>, xs: seq<Item>)
    requires Exact(c) && GetAll(c, xs).Some?
    ensures PutAll(c, GetAll(c, xs).value) == xs
  {
    if xs == [] {
    } else {
      PutAllOfGetAll(c, xs[1..]);
      var t := c.get(xs[0]).value;
      var ts := GetAll(c, xs[1..]).value;
      assert c.put(t) == xs[0];
      assert ([t] + ts)[1..] == ts;
    }
  }

  /** An exact codec stays exact on lists of any length. */
  lemma {:induction false} ListExact<T(!new)>(c: Codec<T>, ts: seq<T>, x: Item)
    requires Exact(c)
    ensures GetList(c, PutList(c, ts)) == Some(ts)
    ensures GetList(c, x).Some? ==> PutList(c, GetList(c, x).value) == x
  {
    GetAllOfPutAll(c, ts);
    if GetList(c, x).Some? {
      PutAllOfGetAll(c, x.items);
    }
  }

  // ---------------------------------------------------------------- leaves

  /** An address as the source holds one: 20 bytes, or empty */
  type Address = a: seq<byte> | |a| == 0 || |a| == 20

  type Address20 = a: seq<byte> | |a| == 20 witness seq(20, _ => 0)

  type Bytes32 = b: seq<byte> | |b| == 32 witness seq(32, _ => 0)

  type Selector = b: seq<byte> | |b| == 4 witness [0, 0, 0, 0]

  /** A raw integer handed to the RLP library */
  function PutInt(n: nat): Item {
    Bytes(ScalarBytes(n))
  }

  function GetInt(x: Item): Option<nat> {
    if x.Bytes? && NoLeadingZero(x.bs) then Some(Value(x.bs)) else None
  }

  function PutAddress(a: Address): Item {
    Bytes(a)
  }

  function GetAddress(x: Item): Option<Address> {
    if x.Bytes? && (|x.bs| == 0 || |x.bs| == 20) then Some(x.bs) else None
  }

  function PutAddress20(a: Address20): Item {
    Bytes(a)
  }

  function GetAddress20(x: Item): Option<Address20> {
    if x.Bytes? && |x.bs| == 20 then Some(x.bs) else None
  }

  function PutBytes32(b: Bytes32): Item {
    Bytes(b)
  }

  function GetBytes32(x: Item): Option<Bytes32> {
    if x.Bytes? && |x.bs| == 32 then Some(x.bs) else None
  }

  const ADDRESS := Codec(PutAddress, GetAddress)
  const BYTES32 := Codec(PutBytes32, GetBytes32)

  lemma {:induction false} IntExact(n: nat, x: Item)
    ensures GetInt(PutInt(n)) == Some(n)
    ensures GetInt(x).Some? ==> PutInt(GetInt(x).value) == x
  {
    ScalarBytesValue(n);
    if GetInt(x).Some? {
      ScalarBytesOfValue(x.bs);
    }
  }

  lemma {:induction false} LeavesExact()
    ensures Exact(ADDRESS) && Exact(BYTES32)
  {
  }
}
