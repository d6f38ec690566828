/**
 What a receiver can do with broadcast bytes alone: rebuild both signed pre-images and reach the
 verdict the sender's side reaches on the transaction record. Also why a signature made for one of
 the four kinds of pre-image is never one for another kind.
 */
module Receiver {
  import opened Outcomes
  import opened ByteStrings
  import opened Rlp
  import opened Codecs
  import opened Signatures
  import opened Authorization
  import opened Transactions
  import opened SigningFlow

  // ---------------------------------------------------------------- rebuilding pre-images

  /** The sender view inside a broadcast view */
  function SenderPart(v: View): View {
    v.(feeToken := if v.payer.NoPayer? then v.feeToken else None, envelope := None)
  }

  /** The fee payer view inside a broadcast view, for a given sender */
  function FeePayerPart(v: View, sender: Address): View {
    v.(payer := if sender == [] then NoPayer else SenderIs(sender), envelope := None)
  }

  /** An envelope of 65 bytes is a plain signature, any other a keychain blob. */
  function ReadEnvelope(bs: seq<byte>): Result<SenderSignature, SignatureError> {
    if |bs| == INNER_SIGNATURE_LENGTH then
      var sig :- FromBytes(bs);
      Ok(BySecp(sig))
    else
      var ks :- MakeKeychain(bs);
      Ok(ByKeychain(ks))
  }

  /** The view of a broadcast: a payload of the transaction type */
  function ParseBroadcast(bs: seq<byte>): Option<View> {
    var (prefix, v) :- ParsePayload(bs);
    if prefix == SENDER_TYPE then Some(v) else None
  }

  /** The sender of a broadcast, from its bytes */
  function SenderOf(c: Crypto, bs: seq<byte>): Result<Address20, FlowError> {
    match ParseBroadcast(bs)
    case None => Err(NotABroadcast)
    case Some(v) =>
      if v.envelope.None? then Err(NoSenderSignature)
      else
        match ReadEnvelope(v.envelope.value) {
          case Err(e) => Err(Malformed(e))
          case Ok(s) =>
            var h :- HashOf(c, Payload(SENDER_TYPE, SenderPart(v)));
            RecoverSender(c, h, s)
        }
  }

  /** The fee payer of a broadcast, from its bytes and the sender */
  function FeePayerOf(c: Crypto, bs: seq<byte>, sender: Address): Result<Address20, FlowError> {
    match ParseBroadcast(bs)
    case None => Err(NotABroadcast)
    case Some(v) =>
      if !v.payer.PayerSigned? then Err(NoFeePayerSignature)
      else
        var h :- HashOf(c, Payload(FEE_PAYER_TYPE, FeePayerPart(v, sender)));
        match c.recover(h, v.payer.r, v.payer.s, v.payer.yParity)
        case Some(a) => Ok(a)
        case None => Err(UnrecoverableSignature)
  }

  lemma {:induction false} PartsOfBroadcast(tx: Tx, sender: Address)
    ensures SenderPart(BroadcastView(tx)) == SenderView(tx)
    ensures FeePayerPart(BroadcastView(tx), sender) == FeePayerView(tx, sender)
  {
  }

  lemma {:induction false} ReadEnvelopeOfBytes(s: SenderSignature)
    requires s.ByKeychain? ==> |s.ks| != INNER_SIGNATURE_LENGTH
    ensures ReadEnvelope(EnvelopeBytes(s)) == Ok(s)
  {
    if s.BySecp? {
      FromBytesOfToBytes(s.sig);
    }
  }

  /** The keychain blobs that have the length of a plain signature */
  predicate LooksPlain(tx: Tx) {
    && tx.senderSignature.Some? && tx.senderSignature.value.ByKeychain?
    && |tx.senderSignature.value.ks| == INNER_SIGNATURE_LENGTH
  }

  /** On the record such a blob is refused for its length; from bytes it is read as a plain signature. */
  lemma {:induction false} PlainReadingDiffers(c: Crypto, tx: Tx)
    requires BroadcastBytes(tx).Some? && LooksPlain(tx)
    ensures VerifySignature(c, tx) == Err(Malformed(NotSecp256k1))
    ensures SenderOf(c, BroadcastBytes(tx).value) != VerifySignature(c, tx)
  {
    BroadcastCanBeSigned(tx);
    ParseOfPayload(SENDER_TYPE, BroadcastView(tx));
  }

  /**
   The bytes of a broadcast are enough: the receiver finds the sender that `verify_signature` finds on
   the record, or the same error, exactly for the transactions whose keychain blob, if they have one,
   is not 65 bytes long.
   */
  lemma {:induction false} ReceiverAgreesOnSender(c: Crypto, tx: Tx)
    requires BroadcastBytes(tx).Some?
    ensures SenderOf(c, BroadcastBytes(tx).value) == VerifySignature(c, tx) <==> !LooksPlain(tx)
  {
    ParseOfPayload(SENDER_TYPE, BroadcastView(tx));
    PartsOfBroadcast(tx, []);
    if LooksPlain(tx) {
      PlainReadingDiffers(c, tx);
    } else if tx.senderSignature.Some? {
      ReadEnvelopeOfBytes(tx.senderSignature.value);
    }
  }

  /** And the fee payer that `verify_fee_payer_signature` finds, for every sender */
  lemma {:induction false} ReceiverAgreesOnFeePayer(c: Crypto, tx: Tx, sender: Address)
    requires BroadcastBytes(tx).Some?
    ensures FeePayerOf(c, BroadcastBytes(tx).value, sender) == VerifyFeePayerSignature(c, tx, sender)
  {
    ParseOfPayload(SENDER_TYPE, BroadcastView(tx));
    PartsOfBroadcast(tx, sender);
  }

  /** What is refused as no broadcast, by both: exactly what does not parse or has another type byte than 0x76 */
  lemma {:induction false} RefusedIff(c: Crypto, bs: seq<byte>, sender: Address)
    ensures SenderOf(c, bs) == Err(NotABroadcast) <==> ParsePayload(bs).None? || bs[0] != 0x76
    ensures FeePayerOf(c, bs, sender) == Err(NotABroadcast) <==> ParsePayload(bs).None? || bs[0] != 0x76
  {
  }

  /** What the fee payer signs is not taken for a broadcast. */
  lemma {:induction false} FeePayerPayloadIsNoBroadcast(c: Crypto, tx: Tx, sender: Address)
    requires FeePayerBytes(tx, sender).Some?
    ensures SenderOf(c, FeePayerBytes(tx, sender).value) == Err(NotABroadcast)
  {
    ParseOfPayload(FEE_PAYER_TYPE, FeePayerView(tx, sender));
  }

  /** Every secp256k1 signature a run of sender steps leaves is confirmed by the receiver of the bytes. */
  lemma {:induction false} SteadyRunsConvince(c: Crypto, tx: Tx, steps: seq<Step>)
    requires Sound(c) && Unsigned(tx) && Run(c, Start(tx), steps).Ok?
    requires forall i :: 0 <= i < |steps| ==> Steady(steps[i])
    requires var st := Run(c, Start(tx), steps).value;
             (st.sender.SignedBySecp? || st.sender.SignedByAccessKey?) && BroadcastBytes(st.tx).Some?
    ensures var st := Run(c, Start(tx), steps).value;
            st.tx.senderAddress.Some?
            && SenderOf(c, BroadcastBytes(st.tx).value) == Ok(st.tx.senderAddress.value)
  {
    var st := Run(c, Start(tx), steps).value;
    SteadyRunsVerify(c, tx, steps);
    RunKeepsInv(c, Start(tx), steps);
    BlobLength(c, st);
    ReceiverAgreesOnSender(c, st.tx);
  }

  lemma {:induction false} BlobLength(c: Crypto, st: State)
    requires SenderInv(c, st.tx, st.sender)
    requires st.sender.SignedBySecp? || st.sender.SignedByAccessKey?
    ensures !LooksPlain(st.tx)
  {
    match st.sender
    case SignedBySecp(_, _) =>
    case SignedByAccessKey(k, root, v) =>
      FromInnerUnambiguous(
        SecpInner(c.sign(k, SigningHash(c, c.keccak(Payload(SENDER_TYPE, v).value), root))), root);
  }

  // ---------------------------------------------------------------- domains

  /** A list encoding starts at 0xc0 or above. */
  lemma {:induction false} ListFirstByte(items: seq<Item>)
    requires Encode(List(items)).Some?
    ensures Encode(List(items)).value != [] && Encode(List(items)).value[0] >= LIST_OFFSET
  {
    var payload := EncodeAll(items).value;
    ReadHeaderOfHeader(true, |payload|, payload);
  }

  /**
   Sender payloads, fee payer payloads, access key pre-images and authorizations differ in their first
   byte, so no byte string is hashed for two purposes.
   */
  lemma {:induction false} DomainsSeparated(tx: Tx, other: Tx, sender: Address,
                                            h: Hash, root: Address, a: KeyAuthorization)
    ensures SigningBytes(tx).Some? ==>
              && SigningBytes(tx) != FeePayerBytes(other, sender)
              && SigningBytes(tx) != Some([0x04] + h + root)
              && SigningBytes(tx) != Encode(ToRlp(a))
    ensures FeePayerBytes(tx, sender).Some? ==>
              && FeePayerBytes(tx, sender) != Some([0x04] + h + root)
              && FeePayerBytes(tx, sender) != Encode(ToRlp(a))
    ensures Encode(ToRlp(a)) != Some([0x04] + h + root)
  {
    assert ([0x04] + h + root)[0] == 0x04;
    if SigningBytes(tx).Some? {
      assert SigningBytes(tx).value[0] == SENDER_TYPE;
      SenderAndFeePayerDisjoint(tx, other, sender);
    }
    if FeePayerBytes(tx, sender).Some? {
      assert FeePayerBytes(tx, sender).value[0] == FEE_PAYER_TYPE;
    }
    if Encode(ToRlp(a)).Some? {
      ListFirstByte(ToRlp(a).items);
    }
  }

  /** One access key pre-image stands for one payload hash and one root. */
  lemma {:induction false} KeychainPreimageInjective(h: Hash, root: Address, g: Hash, other: Address)
    ensures [0x04] + h + root == [0x04] + g + other <==> h == g && root == other
  {
    var a, b := [0x04] + h + root, [0x04] + g + other;
    assert a[1..33] == h && a[33..] == root;
    assert b[1..33] == g && b[33..] == other;
  }
}
