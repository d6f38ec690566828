/**
 The serializers of `tempo/transaction.py` as they are written, with their loops, appends and the
 overwrite of field 11, proved to write exactly the items of the views.
 */
module Serialization {
  import opened Outcomes
  import opened ByteStrings
  import opened Rlp
  import opened Codecs
  import opened Signatures
  import opened Transactions

  lemma {:induction false} PutAllSnoc<T>(c: Codec<T>, ts: seq<T>, t: T)
    ensures PutAll(c, ts + [t]) == PutAll(c, ts) + [c.put(t)]
  {
    if ts == [] {
    } else {
      PutAllSnoc(c, ts[1..], t);
      assert (ts + [t])[1..] == ts[1..] + [t];
    }
  }

  /** `_encode_calls`, which hands over bytes where `Call.as_rlp_list` hands over a raw integer */
  method EncodeCalls(calls: seq<Call>) returns (result: seq<Item>)
    ensures List(result) == PutList(CALL, calls)
  {
    result := [];
    for i := 0 to |calls|
      invariant result == PutAll(CALL, calls[..i])
    {
      var c := calls[i];
      var toBytes := if c.to != [] then c.to else [];
      IntToRlpBytesIsScalar(c.value);
      PutAllSnoc(CALL, calls[..i], c);
      assert calls[..i + 1] == calls[..i] + [c];
      result := result + [List([Bytes(toBytes), Bytes(IntToRlpBytes(c.value)), Bytes(c.data)])];
    }
    assert calls[..|calls|] == calls;
  }

  /** `_encode_access_list` */
  method EncodeAccessList(accessList: seq<AccessEntry>) returns (result: seq<Item>)
    ensures List(result) == PutList(ACCESS, accessList)
  {
    result := [];
    for i := 0 to |accessList|
      invariant result == PutAll(ACCESS, accessList[..i])
    {
      PutAllSnoc(ACCESS, accessList[..i], accessList[i]);
      assert accessList[..i + 1] == accessList[..i] + [accessList[i]];
      match accessList[i]
      case AccessListItem(address, storageKeys) =>
        var keys: seq<Item> := [];
        for j := 0 to |storageKeys|
          invariant keys == PutAll(BYTES32, storageKeys[..j])
        {
          PutAllSnoc(BYTES32, storageKeys[..j], storageKeys[j]);
          assert storageKeys[..j + 1] == storageKeys[..j] + [storageKeys[j]];
          keys := keys + [Bytes(storageKeys[j])];
        }
        assert storageKeys[..|storageKeys|] == storageKeys;
        result := result + [List([Bytes(address), List(keys)])];
      case Foreign =>
        result := result + [List([Bytes([]), List([])])];
    }
    assert accessList[..|accessList|] == accessList;
  }

  /** `_encode_fee_payer_field` */
  function EncodeFeePayerField(tx: Tx): Item {
    if tx.feePayerSignature.Some? then
      var sig := tx.feePayerSignature.value;
      List([PutInt(YParity(sig)), PutInt(sig.r), PutInt(sig.s)])
    else if tx.awaitingFeePayer then Bytes([0])
    else Bytes([])
  }

  /** `_encode_fee_token` */
  function EncodeFeeToken(tx: Tx, skip: bool): Item {
    if skip || tx.feeToken.None? then Bytes([]) else Bytes(tx.feeToken.value)
  }

  /** The view `_build_rlp_fields` writes for its two flags */
  function FieldsView(tx: Tx, skipFeeToken: bool, dropSignatures: bool): View {
    BroadcastView(tx).(
      feeToken := if skipFeeToken then None else tx.feeToken,
      envelope := if dropSignatures then None else BroadcastView(tx).envelope)
  }

  method BuildRlpFields(tx: Tx, skipFeeToken: bool, dropSignatures: bool) returns (fields: seq<Item>)
    ensures fields == ViewItems(FieldsView(tx, skipFeeToken, dropSignatures))
    ensures |fields| == 13 + (if tx.keyAuthorization.Some? then 1 else 0)
                           + (if !dropSignatures && tx.senderSignature.Some? then 1 else 0)
  {
    var calls := EncodeCalls(tx.core.calls);
    var accessList := EncodeAccessList(tx.core.accessList);
    fields := [
      Bytes(IntToRlpBytes(tx.core.chainId)),
      Bytes(IntToRlpBytes(tx.core.maxPriorityFeePerGas)),
      Bytes(IntToRlpBytes(tx.core.maxFeePerGas)),
      Bytes(IntToRlpBytes(tx.core.gasLimit)),
      List(calls),
      List(accessList),
      Bytes(IntToRlpBytes(tx.core.nonceKey)),
      Bytes(IntToRlpBytes(tx.core.nonce)),
      Bytes(IntToRlpBytes(tx.validBefore.GetOr(0))),
      Bytes(IntToRlpBytes(tx.validAfter.GetOr(0))),
      EncodeFeeToken(tx, skipFeeToken),
      EncodeFeePayerField(tx),
      List([])
    ];
    ghost var v := FieldsView(tx, skipFeeToken, dropSignatures);
    assert fields == BodyItems(v) by {
      IntToRlpBytesIsScalar(tx.core.chainId);
      IntToRlpBytesIsScalar(tx.core.maxPriorityFeePerGas);
      IntToRlpBytesIsScalar(tx.core.maxFeePerGas);
      IntToRlpBytesIsScalar(tx.core.gasLimit);
      IntToRlpBytesIsScalar(tx.core.nonceKey);
      IntToRlpBytesIsScalar(tx.core.nonce);
      IntToRlpBytesIsScalar(tx.validBefore.GetOr(0));
      IntToRlpBytesIsScalar(tx.validAfter.GetOr(0));
    }
    if tx.keyAuthorization.Some? {
      fields := fields + [tx.keyAuthorization.value];
    }
    if !dropSignatures && tx.senderSignature.Some? {
      fields := fields + [Bytes(EnvelopeBytes(tx.senderSignature.value))];
    }
  }

  method SerializeForSigning(tx: Tx) returns (r: Option<seq<byte>>)
    ensures r == SigningBytes(tx)
  {
    var skipFeeToken := tx.awaitingFeePayer || tx.feePayerSignature.Some?;
    var fields := BuildRlpFields(tx, skipFeeToken, true);
    assert FieldsView(tx, skipFeeToken, true) == SenderView(tx);
    var encoded := Encode(List(fields));
    r := if encoded.None? then None else Some([SENDER_TYPE] + encoded.value);
  }

  method SerializeForFeePayerSigning(tx: Tx, sender: Address) returns (r: Option<seq<byte>>)
    ensures r == FeePayerBytes(tx, sender)
  {
    var fields := BuildRlpFields(tx, false, true);
    fields := fields[11 := Bytes(sender)];
    assert fields == ViewItems(FeePayerView(tx, sender)) by {
      var v, w := FieldsView(tx, false, true), FeePayerView(tx, sender);
      assert BodyItems(w) == BodyItems(v)[11 := Bytes(sender)];
    }
    var encoded := Encode(List(fields));
    r := if encoded.None? then None else Some([FEE_PAYER_TYPE] + encoded.value);
  }

  method Serialize(tx: Tx) returns (r: Option<seq<byte>>)
    ensures r == BroadcastBytes(tx)
  {
    var fields := BuildRlpFields(tx, false, false);
    assert FieldsView(tx, false, false) == BroadcastView(tx);
    var encoded := Encode(List(fields));
    r := if encoded.None? then None else Some([SENDER_TYPE] + encoded.value);
  }

  /** The raw integers of `Call.as_rlp_list` and the byte strings of `_encode_calls` give one encoding. */
  lemma {:induction false} CallEncodingsAgree(c: Call)
    ensures Encode(List([Bytes(c.to), Bytes(IntToRlpBytes(c.value)), Bytes(c.data)])) == Encode(CallItem(c))
  {
    IntToRlpBytesIsScalar(c.value);
  }
}
