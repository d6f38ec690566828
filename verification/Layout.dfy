/**
 The three serialized forms of `tempo/transaction.py`, field by field over the transaction: what a
 decoder that knows only RLP and the documented field numbers finds in the bytes.
 */
module Layout {
  import opened Outcomes
  import opened ByteStrings
  import opened Rlp
  import opened Codecs
  import opened Signatures
  import opened Transactions

  /** The item is the shortest big-endian form of the number. */
  predicate Says(x: Item, n: nat) {
    x.Bytes? && Digits(x.bs, n)
  }

  /** Field 4: a list of [to, value, data] */
  ghost predicate SaysCalls(x: Item, calls: seq<Call>) {
    && x.List? && |x.items| == |calls|
    && forall i :: 0 <= i < |calls| ==> SaysCall(x.items[i], calls[i])
  }

  predicate SaysCall(x: Item, c: Call) {
    && x.List? && |x.items| == 3
    && x.items[0] == Bytes(c.to) && Says(x.items[1], c.value) && x.items[2] == Bytes(c.data)
  }

  /** Field 5: a list of [address, [key, ...]]; any other object becomes an empty entry */
  ghost predicate SaysEntries(x: Item, entries: seq<AccessEntry>) {
    && x.List? && |x.items| == |entries|
    && forall i :: 0 <= i < |entries| ==> SaysEntry(x.items[i], entries[i])
  }

  predicate SaysEntry(x: Item, e: AccessEntry) {
    && x.List? && |x.items| == 2
    && match e {
         case Foreign => x.items[0] == Bytes([]) && x.items[1] == List([])
         case AccessListItem(address, keys) =>
           && x.items[0] == Bytes(address)
           && x.items[1].List? && |x.items[1].items| == |keys|
           && forall i :: 0 <= i < |keys| ==> x.items[1].items[i] == Bytes(keys[i])
       }
  }

  /** Fields 0 to 9 and 12, the same in all three forms */
  ghost predicate SaysCommon(xs: seq<Item>, tx: Tx) {
    && |xs| >= 13
    && Says(xs[0], tx.core.chainId)
    && Says(xs[1], tx.core.maxPriorityFeePerGas)
    && Says(xs[2], tx.core.maxFeePerGas)
    && Says(xs[3], tx.core.gasLimit)
    && SaysCalls(xs[4], tx.core.calls)
    && SaysEntries(xs[5], tx.core.accessList)
    && Says(xs[6], tx.core.nonceKey)
    && Says(xs[7], tx.core.nonce)
    && Says(xs[8], if tx.validBefore.Some? then tx.validBefore.value else 0)
    && Says(xs[9], if tx.validAfter.Some? then tx.validAfter.value else 0)
    && xs[12] == List([])
  }

  /** Field 11 of the forms that carry the fee payer signature: [parity, r, s], the byte 0x00, or nothing */
  predicate SaysPayer(x: Item, tx: Tx) {
    match tx.feePayerSignature
    case Some(sig) =>
      && x.List? && |x.items| == 3
      && x.items[0] == Bytes(if sig.v in {0, 27} then [] else [1])
      && Says(x.items[1], sig.r) && Says(x.items[2], sig.s)
    case None => x == Bytes(if tx.awaitingFeePayer then [0x00] else [])
  }

  function TokenBytes(tx: Tx): seq<byte> {
    if tx.feeToken.Some? then tx.feeToken.value else []
  }

  /** The key authorization, if there is one, as field 13 */
  function AuthorizationField(tx: Tx): seq<Item> {
    if tx.keyAuthorization.Some? then [tx.keyAuthorization.value] else []
  }

  lemma {:induction false} IntSays(n: nat)
    ensures Says(PutInt(n), n)
  {
    ScalarBytesValue(n);
  }

  lemma {:induction false} PutAllAt<T>(c: Codec<T>, ts: seq<T>, i: nat)
    requires i < |ts|
    ensures PutAll(c, ts)[i] == c.put(ts[i])
  {
    if i > 0 {
      PutAllAt(c, ts[1..], i - 1);
    }
  }

  lemma {:induction false} CallsSay(calls: seq<Call>)
    ensures SaysCalls(PutList(CALL, calls), calls)
  {
    forall i | 0 <= i < |calls|
      ensures SaysCall(PutAll(CALL, calls)[i], calls[i])
    {
      PutAllAt(CALL, calls, i);
      IntSays(calls[i].value);
    }
  }

  lemma {:induction false} EntrySays(e: AccessEntry)
    ensures SaysEntry(AccessItem(e), e)
  {
    if e.AccessListItem? {
      forall i | 0 <= i < |e.storageKeys|
        ensures PutAll(BYTES32, e.storageKeys)[i] == Bytes(e.storageKeys[i])
      {
        PutAllAt(BYTES32, e.storageKeys, i);
      }
    }
  }

  lemma {:induction false} EntriesSay(entries: seq<AccessEntry>)
    ensures SaysEntries(PutList(ACCESS, entries), entries)
  {
    forall i | 0 <= i < |entries|
      ensures SaysEntry(PutAll(ACCESS, entries)[i], entries[i])
    {
      PutAllAt(ACCESS, entries, i);
      EntrySays(entries[i]);
    }
  }

  lemma {:induction false} CommonSays(tx: Tx, v: View)
    requires v.core == tx.core
    requires v.validBefore == tx.validBefore.GetOr(0) && v.validAfter == tx.validAfter.GetOr(0)
    ensures SaysCommon(ViewItems(v), tx)
  {
    var xs, core, window := ViewItems(v), CoreItems(v.core), WindowItems(v);
    assert forall i :: 0 <= i < 8 ==> xs[i] == core[i];
    assert forall i :: 8 <= i < 13 ==> xs[i] == window[i - 8];
    CallsSay(tx.core.calls);
    EntriesSay(tx.core.accessList);
    IntSays(v.core.chainId);
    IntSays(v.core.maxPriorityFeePerGas);
    IntSays(v.core.maxFeePerGas);
    IntSays(v.core.gasLimit);
    IntSays(v.core.nonceKey);
    IntSays(v.core.nonce);
    IntSays(v.validBefore);
    IntSays(v.validAfter);
  }

  lemma {:induction false} PayerSays(tx: Tx)
    ensures SaysPayer(PayerItem(PayerOf(tx)), tx)
  {
    if tx.feePayerSignature.Some? {
      var sig := tx.feePayerSignature.value;
      CanonicalForm(sig);
      assert ScalarBytes(0) == [] && ScalarBytes(1) == [1];
      IntSays(sig.r);
      IntSays(sig.s);
    }
  }

  lemma {:induction false} PayloadDecodes(prefix: byte, v: View)
    requires Payload(prefix, v).Some?
    ensures Payload(prefix, v).value != [] && Payload(prefix, v).value[0] == prefix
    ensures Decode(Payload(prefix, v).value[1..]) == Some(List(ViewItems(v)))
    ensures var xs := ViewItems(v);
            && |xs| >= 13 && xs[10] == TokenItem(v.feeToken) && xs[11] == PayerItem(v.payer)
            && xs[13..] == TailItems(v.keyAuthorization, v.envelope)
  {
    RoundTrip(List(ViewItems(v)), []);
    assert Payload(prefix, v).value[1..] == Encode(List(ViewItems(v))).value;
    var xs, window := ViewItems(v), WindowItems(v);
    assert xs[10] == window[2] && xs[11] == window[3];
  }

  /** The sender's pre-image: 0x76, no fee token beside a fee payer, and no sender signature */
  lemma {:induction false} SenderPreimageSays(tx: Tx) returns (xs: seq<Item>)
    requires SigningBytes(tx).Some?
    ensures SigningBytes(tx).value != [] && SigningBytes(tx).value[0] == 0x76
    ensures Decode(SigningBytes(tx).value[1..]) == Some(List(xs))
    ensures SaysCommon(xs, tx)
    ensures xs[10] == Bytes(if tx.awaitingFeePayer || tx.feePayerSignature.Some? then [] else TokenBytes(tx))
    ensures SaysPayer(xs[11], tx)
    ensures xs[13..] == AuthorizationField(tx)
  {
    xs := ViewItems(SenderView(tx));
    PayloadDecodes(SENDER_TYPE, SenderView(tx));
    CommonSays(tx, SenderView(tx));
    PayerSays(tx);
  }

  /** The fee payer's pre-image: 0x78, always the fee token, the sender in field 11, no signature */
  lemma {:induction false} FeePayerPreimageSays(tx: Tx, sender: Address) returns (xs: seq<Item>)
    requires FeePayerBytes(tx, sender).Some?
    ensures FeePayerBytes(tx, sender).value != [] && FeePayerBytes(tx, sender).value[0] == 0x78
    ensures Decode(FeePayerBytes(tx, sender).value[1..]) == Some(List(xs))
    ensures SaysCommon(xs, tx)
    ensures xs[10] == Bytes(TokenBytes(tx))
    ensures xs[11] == Bytes(sender)
    ensures xs[13..] == AuthorizationField(tx)
  {
    xs := ViewItems(FeePayerView(tx, sender));
    PayloadDecodes(FEE_PAYER_TYPE, FeePayerView(tx, sender));
    CommonSays(tx, FeePayerView(tx, sender));
  }

  /** The broadcast: 0x76, fee token, fee payer field, and the envelope of the sender's signature last */
  lemma {:induction false} BroadcastSays(tx: Tx) returns (xs: seq<Item>)
    requires BroadcastBytes(tx).Some?
    ensures BroadcastBytes(tx).value != [] && BroadcastBytes(tx).value[0] == 0x76
    ensures Decode(BroadcastBytes(tx).value[1..]) == Some(List(xs))
    ensures SaysCommon(xs, tx)
    ensures xs[10] == Bytes(TokenBytes(tx))
    ensures SaysPayer(xs[11], tx)
    ensures xs[13..] == AuthorizationField(tx)
            + match tx.senderSignature {
                case None => []
                case Some(BySecp(sig)) => [Bytes(BigEndian(sig.r, 32) + BigEndian(sig.s, 32) + [sig.v])]
                case Some(ByKeychain(ks)) => [Bytes(ks)]
              }
  {
    xs := ViewItems(BroadcastView(tx));
    PayloadDecodes(SENDER_TYPE, BroadcastView(tx));
    CommonSays(tx, BroadcastView(tx));
    PayerSays(tx);
  }
}
