/**
 The transaction record (`tempo/models.py`) and its three serialized forms
 (`tempo/transaction.py`). A `View` is what a payload says; field lists and views are in bijection,
 so two payloads of a form are equal exactly when their views are.
 */
module Transactions {
  import opened Outcomes
  import opened ByteStrings
  import opened Rlp
  import opened Codecs
  import opened Signatures

  datatype Call = Call(to: Address, value: nat, data: seq<byte>)

  /** `Foreign` stands for any object in the access list that is not an `AccessListItem`. */
  datatype AccessEntry = AccessListItem(address: Address20, storageKeys: seq<Bytes32>) | Foreign

  /** A key authorization as a transaction carries it: already an RLP list */
  type ListItem = x: Item | x.List? witness List([])

  /** The fields every payload commits to as they stand */
  datatype Core = Core(
    chainId: nat,
    maxPriorityFeePerGas: nat,
    maxFeePerGas: nat,
    gasLimit: nat,
    calls: seq<Call>,
    accessList: seq<AccessEntry>,
    nonceKey: nat,
    nonce: nat)

  datatype Tx = Tx(
    core: Core,
    validBefore: Option<nat>,
    validAfter: Option<nat>,
    feeToken: Option<Address20>,
    senderSignature: Option<SenderSignature>,
    feePayerSignature: Option<Secp>,
    awaitingFeePayer: bool,
    senderAddress: Option<Address20>,
    authorizationList: seq<seq<byte>>,
    keyAuthorization: Option<ListItem>)

  // ---------------------------------------------------------------- views

  /** The four readings of field 11 */
  datatype PayerField =
    | PayerSigned(yParity: nat, r: nat, s: nat)
    | PayerAwaited
    | NoPayer
    | SenderIs(sender: Address20)

  datatype View = View(
    core: Core,
    validBefore: nat,
    validAfter: nat,
    feeToken: Option<Address20>,
    payer: PayerField,
    keyAuthorization: Option<ListItem>,
    envelope: Option<seq<byte>>)

  function PayerOf(tx: Tx): PayerField {
    match tx.feePayerSignature
    case Some(sig) => PayerSigned(YParity(sig), sig.r, sig.s)
    case None => if tx.awaitingFeePayer then PayerAwaited else NoPayer
  }

  /** A fee payer is involved, by signature or by announcement. */
  predicate Sponsored(tx: Tx) {
    tx.awaitingFeePayer || tx.feePayerSignature.Some?
  }

  /** What the sender signs: no fee token when sponsored, nothing of the sender's own signature */
  function SenderView(tx: Tx): View {
    View(tx.core, tx.validBefore.GetOr(0), tx.validAfter.GetOr(0),
         if Sponsored(tx) then None else tx.feeToken,
         PayerOf(tx), tx.keyAuthorization, None)
  }

  /** What the fee payer signs: always the fee token, and the sender instead of any signature */
  function FeePayerView(tx: Tx, sender: Address): View {
    View(tx.core, tx.validBefore.GetOr(0), tx.validAfter.GetOr(0), tx.feeToken,
         if sender == [] then NoPayer else SenderIs(sender), tx.keyAuthorization, None)
  }

  function BroadcastView(tx: Tx): View {
    View(tx.core, tx.validBefore.GetOr(0), tx.validAfter.GetOr(0), tx.feeToken,
         PayerOf(tx), tx.keyAuthorization,
         if tx.senderSignature.None? then None else Some(EnvelopeBytes(tx.senderSignature.value)))
  }

  // ---------------------------------------------------------------- fields of a view

  /** `Call.as_rlp_list`, with its raw integer */
  function CallItem(c: Call): Item {
    List([Bytes(c.to), PutInt(c.value), Bytes(c.data)])
  }

  function AccessItem(e: AccessEntry): Item {
    match e
    case AccessListItem(address, keys) => List([Bytes(address), PutList(BYTES32, keys)])
    case Foreign => List([Bytes([]), List([])])
  }

  function PayerItem(p: PayerField): Item {
    match p
    case PayerSigned(y, r, s) => List([PutInt(y), PutInt(r), PutInt(s)])
    case PayerAwaited => Bytes([0])
    case NoPayer => Bytes([])
    case SenderIs(sender) => Bytes(sender)
  }

  function TokenItem(t: Option<Address20>): Item {
    Bytes(if t.None? then [] else t.value)
  }

  function TailItems(keyAuthorization: Option<ListItem>, envelope: Option<seq<byte>>): seq<Item> {
    (if keyAuthorization.None? then [] else [keyAuthorization.value])
    + (if envelope.None? then [] else [Bytes(envelope.value)])
  }

  /** Fields 0 to 7 */
  function CoreItems(c: Core): (xs: seq<Item>)
    ensures |xs| == 8
  {
    [ PutInt(c.chainId),
      PutInt(c.maxPriorityFeePerGas),
      PutInt(c.maxFeePerGas),
      PutInt(c.gasLimit),
      PutList(CALL, c.calls),
      PutList(ACCESS, c.accessList),
      PutInt(c.nonceKey),
      PutInt(c.nonce) ]
  }

  /** Fields 8 to 12 */
  function WindowItems(v: View): (xs: seq<Item>)
    ensures |xs| == 5
  {
    [ PutInt(v.validBefore),
      PutInt(v.validAfter),
      TokenItem(v.feeToken),
      PayerItem(v.payer),
      List([]) ]
  }

  function BodyItems(v: View): (xs: seq<Item>)
    ensures |xs| == 13
  {
    CoreItems(v.core) + WindowItems(v)
  }

  function ViewItems(v: View): seq<Item> {
    BodyItems(v) + TailItems(v.keyAuthorization, v.envelope)
  }

  // ---------------------------------------------------------------- parser

  function ParseCall(x: Item): Option<Call> {
    if x.Bytes? || |x.items| != 3 || x.items[2].List? then None
    else
      var to :- GetAddress(x.items[0]);
      var value :- GetInt(x.items[1]);
      Some(Call(to, value, x.items[2].bs))
  }

  function ParseAccess(x: Item): Option<AccessEntry> {
    if x == List([Bytes([]), List([])]) then Some(Foreign)
    else if x.Bytes? || |x.items| != 2 then None
    else
      var address :- GetAddress20(x.items[0]);
      var keys :- GetList(BYTES32, x.items[1]);
      Some(AccessListItem(address, keys))
  }

  function ParsePayer(x: Item): Option<PayerField> {
    match x
    case List(items) =>
      if |items| != 3 then None
      else
        var y :- GetInt(items[0]);
        var r :- GetInt(items[1]);
        var s :- GetInt(items[2]);
        Some(PayerSigned(y, r, s))
    case Bytes(bs) =>
      if bs == [] then Some(NoPayer)
      else if bs == [0] then Some(PayerAwaited)
      else if |bs| == 20 then Some(SenderIs(bs))
      else None
  }

  function ParseToken(x: Item): Option<Option<Address20>> {
    if x == Bytes([]) then Some(None)
    else
      var t :- GetAddress20(x);
      Some(Some(t))
  }

  /** Items 13 and 14: a list is a key authorization, a byte string the signature envelope. */
  function ParseTail(tail: seq<Item>): Option<(Option<ListItem>, Option<seq<byte>>)> {
    if tail == [] then Some((None, None))
    else if |tail| == 1 && tail[0].List? then Some((Some(tail[0]), None))
    else if |tail| == 1 then Some((None, Some(tail[0].bs)))
    else if |tail| == 2 && tail[0].List? && tail[1].Bytes? then Some((Some(tail[0]), Some(tail[1].bs)))
    else None
  }

  function ParseCore(xs: seq<Item>): Option<Core>
    requires |xs| == 8
  {
    var chainId :- GetInt(xs[0]);
    var priority :- GetInt(xs[1]);
    var maxFee :- GetInt(xs[2]);
    var gas :- GetInt(xs[3]);
    var calls :- GetList(CALL, xs[4]);
    var access :- GetList(ACCESS, xs[5]);
    var nonceKey :- GetInt(xs[6]);
    var nonce :- GetInt(xs[7]);
    Some(Core(chainId, priority, maxFee, gas, calls, access, nonceKey, nonce))
  }

  /** Fields 8 to 12 put onto a core, without the tail */
  function ParseWindow(core: Core, xs: seq<Item>): Option<View>
    requires |xs| == 5
  {
    if xs[4] != List([]) then None
    else
      var before :- GetInt(xs[0]);
      var after :- GetInt(xs[1]);
      var token :- ParseToken(xs[2]);
      var payer :- ParsePayer(xs[3]);
      Some(View(core, before, after, token, payer, None, None))
  }

  function ParseView(xs: seq<Item>): Option<View> {
    if |xs| < 13 then None
    else
      var core :- ParseCore(xs[..8]);
      var v :- ParseWindow(core, xs[8..13]);
      var (auth, envelope) :- ParseTail(xs[13..]);
      Some(v.(keyAuthorization := auth, envelope := envelope))
  }

  const CALL := Codec(CallItem, ParseCall)
  const ACCESS := Codec(AccessItem, ParseAccess)

  // ---------------------------------------------------------------- fields and views are in bijection

  lemma {:induction false} CallExact()
    ensures Exact(CALL)
  {
    forall c: Call ensures ParseCall(CallItem(c)) == Some(c) {
      IntExact(c.value, Bytes([]));
    }
    forall x: Item | ParseCall(x).Some? ensures CallItem(ParseCall(x).value) == x {
      IntExact(0, x.items[1]);
      assert x.items == [x.items[0], x.items[1], x.items[2]];
    }
  }

  lemma {:induction false} AccessExact()
    ensures Exact(ACCESS)
  {
    LeavesExact();
    forall e: AccessEntry ensures ParseAccess(AccessItem(e)) == Some(e) {
      if e.AccessListItem? {
        ListExact(BYTES32, e.storageKeys, Bytes([]));
        assert AccessItem(e).items[0] != Bytes([]);
      }
    }
    forall x: Item | ParseAccess(x).Some? ensures AccessItem(ParseAccess(x).value) == x {
      if x != List([Bytes([]), List([])]) {
        ListExact(BYTES32, [], x.items[1]);
        assert x.items == [x.items[0], x.items[1]];
      }
    }
  }

  /** The four shapes of field 11 never collide. */
  lemma {:induction false} PayerExact(p: PayerField, x: Item)
    ensures ParsePayer(PayerItem(p)) == Some(p)
    ensures ParsePayer(x).Some? ==> PayerItem(ParsePayer(x).value) == x
  {
    if p.PayerSigned? {
      IntExact(p.yParity, x);
      IntExact(p.r, x);
      IntExact(p.s, x);
    }
    if ParsePayer(x).Some? && x.List? {
      IntExact(0, x.items[0]);
      IntExact(0, x.items[1]);
      IntExact(0, x.items[2]);
      assert x.items == [x.items[0], x.items[1], x.items[2]];
    }
  }

  /** 13, 14 or 15 items: the tail tells which optional fields are there. */
  lemma {:induction false} TailExact(a: Option<ListItem>, e: Option<seq<byte>>, tail: seq<Item>)
    ensures ParseTail(TailItems(a, e)) == Some((a, e))
    ensures ParseTail(tail).Some? ==> TailItems(ParseTail(tail).value.0, ParseTail(tail).value.1) == tail
  {
  }

  lemma {:induction false} ParseOfCoreItems(c: Core)
    ensures ParseCore(CoreItems(c)) == Some(c)
  {
    CallExact();
    AccessExact();
    ListExact(CALL, c.calls, Bytes([]));
    ListExact(ACCESS, c.accessList, Bytes([]));
    IntExact(c.chainId, Bytes([]));
    IntExact(c.maxPriorityFeePerGas, Bytes([]));
    IntExact(c.maxFeePerGas, Bytes([]));
    IntExact(c.gasLimit, Bytes([]));
    IntExact(c.nonceKey, Bytes([]));
    IntExact(c.nonce, Bytes([]));
  }

  lemma {:induction false} TokenExact(t: Option<Address20>, x: Item)
    ensures ParseToken(TokenItem(t)) == Some(t)
    ensures ParseToken(x).Some? ==> TokenItem(ParseToken(x).value) == x
  {
    if t.Some? {
      assert |t.value| == 20;
    }
  }

  lemma {:induction false} ParseOfWindowItems(v: View)
    ensures ParseWindow(v.core, WindowItems(v)) == Some(v.(keyAuthorization := None, envelope := None))
  {
    TokenExact(v.feeToken, Bytes([]));
    IntExact(v.validBefore, Bytes([]));
    IntExact(v.validAfter, Bytes([]));
    PayerExact(v.payer, Bytes([]));
  }

  /** Every field list reads back as exactly the view it was built from. */
  lemma {:induction false} ParseOfViewItems(v: View)
    ensures ParseView(ViewItems(v)) == Some(v)
  {
    var xs := ViewItems(v);
    ParseOfCoreItems(v.core);
    ParseOfWindowItems(v);
    TailExact(v.keyAuthorization, v.envelope, []);
    assert xs[..8] == CoreItems(v.core);
    assert xs[8..13] == WindowItems(v);
    assert xs[13..] == TailItems(v.keyAuthorization, v.envelope);
  }

  lemma {:induction false} CoreFieldsOfParse(xs: seq<Item>)
    requires |xs| == 8 && ParseCore(xs).Some?
    ensures var c := ParseCore(xs).value;
            && xs[0] == PutInt(c.chainId) && xs[1] == PutInt(c.maxPriorityFeePerGas)
            && xs[2] == PutInt(c.maxFeePerGas) && xs[3] == PutInt(c.gasLimit)
            && xs[4] == PutList(CALL, c.calls) && xs[5] == PutList(ACCESS, c.accessList)
            && xs[6] == PutInt(c.nonceKey) && xs[7] == PutInt(c.nonce)
  {
    CallExact();
    AccessExact();
    ListExact(CALL, [], xs[4]);
    ListExact(ACCESS, [], xs[5]);
    IntExact(0, xs[0]);
    IntExact(0, xs[1]);
    IntExact(0, xs[2]);
    IntExact(0, xs[3]);
    IntExact(0, xs[6]);
    IntExact(0, xs[7]);
  }

  lemma {:induction false} CoreItemsOfParse(xs: seq<Item>)
    requires |xs| == 8 && ParseCore(xs).Some?
    ensures CoreItems(ParseCore(xs).value) == xs
  {
    CoreFieldsOfParse(xs);
  }

  lemma {:induction false} WindowItemsOfParse(core: Core, xs: seq<Item>)
    requires |xs| == 5 && ParseWindow(core, xs).Some?
    ensures WindowItems(ParseWindow(core, xs).value) == xs
  {
    IntExact(0, xs[0]);
    IntExact(0, xs[1]);
    TokenExact(None, xs[2]);
    PayerExact(NoPayer, xs[3]);
  }

  lemma {:induction false} BodyItemsOfParse(xs: seq<Item>)
    requires ParseView(xs).Some?
    ensures BodyItems(ParseView(xs).value) == xs[..8] + xs[8..13]
  {
    var core := ParseCore(xs[..8]).value;
    CoreItemsOfParse(xs[..8]);
    WindowItemsOfParse(core, xs[8..13]);
    assert WindowItems(ParseView(xs).value) == WindowItems(ParseWindow(core, xs[8..13]).value);
  }

  /** Conversely every field list the parser accepts is the one built from what was read. */
  lemma {:induction false} ViewItemsOfParse(xs: seq<Item>)
    requires ParseView(xs).Some?
    ensures ViewItems(ParseView(xs).value) == xs
  {
    BodyItemsOfParse(xs);
    TailExact(None, None, xs[13..]);
    assert xs == xs[..8] + xs[8..13] + xs[13..];
  }

  // ---------------------------------------------------------------- payload bytes

  const SENDER_TYPE: byte := 0x76
  const FEE_PAYER_TYPE: byte := 0x78

  /** The type byte and the encoded field list of a view; `None` beyond the length limit of RLP */
  function Payload(prefix: byte, v: View): Option<seq<byte>> {
    var body :- Encode(List(ViewItems(v)));
    Some([prefix] + body)
  }

  /** Reads a payload of either type */
  function ParsePayload(bs: seq<byte>): Option<(byte, View)> {
    if bs == [] then None
    else
      var x :- Decode(bs[1..]);
      if x.Bytes? then None
      else
        var v :- ParseView(x.items);
        Some((bs[0], v))
  }

  /** Every payload decodes to the type byte and view it was made from. */
  lemma {:induction false} ParseOfPayload(prefix: byte, v: View)
    requires Payload(prefix, v).Some?
    ensures ParsePayload(Payload(prefix, v).value) == Some((prefix, v))
  {
    var x := List(ViewItems(v));
    RoundTrip(x, []);
    ParseOfViewItems(v);
    assert Payload(prefix, v).value[1..] == Encode(x).value;
  }

  /** Every byte string that decodes is the one payload of its view: payloads are canonical. */
  lemma {:induction false} PayloadOfParse(bs: seq<byte>)
    requires ParsePayload(bs).Some?
    ensures Payload(ParsePayload(bs).value.0, ParsePayload(bs).value.1) == Some(bs)
  {
    var x := Decode(bs[1..]).value;
    RoundTrip(x, bs[1..]);
    ViewItemsOfParse(x.items);
    assert x == List(ViewItems(ParsePayload(bs).value.1));
    assert bs == [bs[0]] + bs[1..];
  }

  lemma {:induction false} PayloadInjective(p: byte, v: View, q: byte, w: View)
    requires Payload(p, v).Some?
    ensures Payload(p, v) == Payload(q, w) <==> p == q && v == w
  {
    if Payload(p, v) == Payload(q, w) {
      ParseOfPayload(p, v);
      ParseOfPayload(q, w);
    }
  }

  // ---------------------------------------------------------------- size

  /** Bytes of the field list of a view, computed from the view */
  function ViewSize(v: View): nat {
    LengthAll(ViewItems(v))
  }

  /** A payload exists exactly when its fields take fewer than 2^64 bytes. */
  lemma {:induction false} PayloadExistsIff(prefix: byte, v: View)
    ensures Payload(prefix, v).Some? <==> ViewSize(v) < LENGTH_LIMIT
    ensures Payload(prefix, v).Some? ==> |Payload(prefix, v).value| == 1 + HeaderLength(ViewSize(v)) + ViewSize(v)
  {
    EncodeExistsIff(List(ViewItems(v)));
  }

  /** A key authorization adds its own length and nothing else. */
  lemma {:induction false} SizeOfAuthorization(v: View, x: ListItem)
    ensures ViewSize(v.(keyAuthorization := Some(x))) == ViewSize(v.(keyAuthorization := None)) + Length(x)
  {
    var none := v.(keyAuthorization := None);
    var some := v.(keyAuthorization := Some(x));
    var last := TailItems(None, v.envelope);
    assert TailItems(Some(x), v.envelope) == [x] + last;
    LengthAllSum(BodyItems(v), last);
    LengthAllSum(BodyItems(v), [x] + last);
    LengthAllSum([x], last);
    assert BodyItems(none) == BodyItems(v) && BodyItems(some) == BodyItems(v);
  }

  // ---------------------------------------------------------------- the three forms

  function SigningBytes(tx: Tx): Option<seq<byte>> {
    Payload(SENDER_TYPE, SenderView(tx))
  }

  function FeePayerBytes(tx: Tx, sender: Address): Option<seq<byte>> {
    Payload(FEE_PAYER_TYPE, FeePayerView(tx, sender))
  }

  function BroadcastBytes(tx: Tx): Option<seq<byte>> {
    Payload(SENDER_TYPE, BroadcastView(tx))
  }

  lemma {:induction false} SizeInParts(v: View)
    ensures ViewSize(v) == LengthAll(CoreItems(v.core))
                           + Length(PutInt(v.validBefore)) + Length(PutInt(v.validAfter))
                           + Length(TokenItem(v.feeToken)) + Length(PayerItem(v.payer)) + Length(List([]))
                           + LengthAll(TailItems(v.keyAuthorization, v.envelope))
  {
    LengthAllSum(BodyItems(v), TailItems(v.keyAuthorization, v.envelope));
    LengthAllSum(CoreItems(v.core), WindowItems(v));
    FiveLengths(PutInt(v.validBefore), PutInt(v.validAfter), TokenItem(v.feeToken), PayerItem(v.payer), List([]));
  }

  lemma {:induction false} FiveLengths(a: Item, b: Item, c: Item, d: Item, e: Item)
    ensures LengthAll([a, b, c, d, e]) == Length(a) + Length(b) + Length(c) + Length(d) + Length(e)
  {
    LengthAllSum([a], [b, c, d, e]);
    LengthAllSum([b], [c, d, e]);
    LengthAllSum([c], [d, e]);
    LengthAllSum([d], [e]);
    assert [a] + [b, c, d, e] == [a, b, c, d, e] && [b] + [c, d, e] == [b, c, d, e];
    assert [c] + [d, e] == [c, d, e] && [d] + [e] == [d, e];
    assert forall x: Item :: LengthAll([x]) == Length(x) + LengthAll([x][1..]);
  }

  /** What can be broadcast could be signed: the sender's payload is never longer than the broadcast. */
  lemma {:induction false} BroadcastCanBeSigned(tx: Tx)
    requires BroadcastBytes(tx).Some?
    ensures SigningBytes(tx).Some? && ViewSize(SenderView(tx)) <= ViewSize(BroadcastView(tx))
  {
    var v, w := SenderView(tx), BroadcastView(tx);
    SizeInParts(v);
    SizeInParts(w);
    var auth, envelope := TailItems(v.keyAuthorization, None), TailItems(None, w.envelope);
    assert TailItems(w.keyAuthorization, w.envelope) == auth + envelope;
    LengthAllSum(auth, envelope);
    PayloadExistsIff(SENDER_TYPE, v);
    PayloadExistsIff(SENDER_TYPE, w);
  }

  /**
   The sender commits to exactly the sender view: everything but the reserved authorization list,
   the sender's signature and address, the fee token of a sponsored transaction, and the
   difference between an absent and a zero validity bound.
   */
  lemma {:induction false} SenderCommitment(a: Tx, b: Tx)
    requires SigningBytes(a).Some?
    ensures SigningBytes(a) == SigningBytes(b) <==>
            && a.core == b.core
            && a.validBefore.GetOr(0) == b.validBefore.GetOr(0)
            && a.validAfter.GetOr(0) == b.validAfter.GetOr(0)
            && PayerOf(a) == PayerOf(b)
            && (Sponsored(a) || a.feeToken == b.feeToken)
            && a.keyAuthorization == b.keyAuthorization
  {
    PayloadInjective(SENDER_TYPE, SenderView(a), SENDER_TYPE, SenderView(b));
    assert PayerOf(a).NoPayer? <==> !Sponsored(a);
    assert PayerOf(b).NoPayer? <==> !Sponsored(b);
  }

  /**
   The fee payer commits to the same core and key authorization, always to the fee token, and to the
   sender; to no signature and not to `awaiting_fee_payer`.
   */
  lemma {:induction false} FeePayerCommitment(a: Tx, s: Address, b: Tx, t: Address)
    requires FeePayerBytes(a, s).Some?
    ensures FeePayerBytes(a, s) == FeePayerBytes(b, t) <==>
            && a.core == b.core
            && a.validBefore.GetOr(0) == b.validBefore.GetOr(0)
            && a.validAfter.GetOr(0) == b.validAfter.GetOr(0)
            && a.feeToken == b.feeToken
            && a.keyAuthorization == b.keyAuthorization
            && s == t
  {
    PayloadInjective(FEE_PAYER_TYPE, FeePayerView(a, s), FEE_PAYER_TYPE, FeePayerView(b, t));
  }

  /** What a broadcast determines: all of the above and the signature envelopes. */
  lemma {:induction false} BroadcastCommitment(a: Tx, b: Tx)
    requires BroadcastBytes(a).Some?
    ensures BroadcastBytes(a) == BroadcastBytes(b) <==>
            && a.core == b.core
            && a.validBefore.GetOr(0) == b.validBefore.GetOr(0)
            && a.validAfter.GetOr(0) == b.validAfter.GetOr(0)
            && a.feeToken == b.feeToken
            && PayerOf(a) == PayerOf(b)
            && a.keyAuthorization == b.keyAuthorization
            && BroadcastView(a).envelope == BroadcastView(b).envelope
  {
    PayloadInjective(SENDER_TYPE, BroadcastView(a), SENDER_TYPE, BroadcastView(b));
  }

  /** A broadcast determines the sender signature itself, but for the one ambiguous case. */
  lemma {:induction false} BroadcastDeterminesSignature(a: Tx, b: Tx)
    requires BroadcastBytes(a).Some? && BroadcastBytes(a) == BroadcastBytes(b)
    ensures || a.senderSignature == b.senderSignature
            || (a.senderSignature.Some? && b.senderSignature.Some?
                && Ambiguous(a.senderSignature.value, b.senderSignature.value))
  {
    BroadcastCommitment(a, b);
    if a.senderSignature.Some? && b.senderSignature.Some? {
      EnvelopeInjective(a.senderSignature.value, b.senderSignature.value);
    }
  }

  /** The two pre-images never coincide: their type bytes differ. */
  lemma {:induction false} SenderAndFeePayerDisjoint(a: Tx, b: Tx, sender: Address)
    requires SigningBytes(a).Some?
    ensures SigningBytes(a) != FeePayerBytes(b, sender)
  {
    PayloadInjective(SENDER_TYPE, SenderView(a), FEE_PAYER_TYPE, FeePayerView(b, sender));
  }

  /**
   A broadcast shares its type byte with sender pre-images. It is one, of some transaction, exactly
   when it carries no envelope and no fee token beside a fee payer; a signed broadcast never is.
   */
  lemma {:induction false} BroadcastIsPreimageIff(a: Tx)
    requires BroadcastBytes(a).Some?
    ensures (exists b: Tx :: SigningBytes(b) == BroadcastBytes(a)) <==>
            a.senderSignature.None? && (Sponsored(a) ==> a.feeToken.None?)
  {
    forall b: Tx | SigningBytes(b) == BroadcastBytes(a)
      ensures a.senderSignature.None? && (Sponsored(a) ==> a.feeToken.None?)
    {
      PayloadInjective(SENDER_TYPE, BroadcastView(a), SENDER_TYPE, SenderView(b));
      assert PayerOf(b).NoPayer? <==> !Sponsored(b);
      assert PayerOf(a).NoPayer? <==> !Sponsored(a);
    }
    if a.senderSignature.None? && (Sponsored(a) ==> a.feeToken.None?) {
      assert SenderView(a) == BroadcastView(a);
      assert SigningBytes(a) == BroadcastBytes(a);
    }
  }

  // ---------------------------------------------------------------- field 11 in the sender's payload

  /**
   The docstring of `serialize_for_signing` says all signatures are removed. Removing the fee payer's
   signature leaves the sender's pre-image as it is exactly when there is none to remove.
   */
  lemma {:induction false} FeePayerSignatureIsCommitted(tx: Tx)
    requires SigningBytes(tx).Some?
    ensures SigningBytes(tx) == SigningBytes(tx.(feePayerSignature := None)) <==> tx.feePayerSignature.None?
  {
    SenderCommitment(tx, tx.(feePayerSignature := None));
  }

  /** The sender's own signature and address are outside the pre-image. */
  lemma {:induction false} SenderSignatureIsNotCommitted(tx: Tx, sig: Option<SenderSignature>,
                                                         address: Option<Address20>)
    ensures SigningBytes(tx.(senderSignature := sig, senderAddress := address)) == SigningBytes(tx)
  {
    assert SenderView(tx.(senderSignature := sig, senderAddress := address)) == SenderView(tx);
  }

  /** Exchanging one fee payer signature for another keeps the pre-image only for one (r, s, parity). */
  lemma {:induction false} ReplacingFeePayerSignature(tx: Tx, sig: Secp)
    requires SigningBytes(tx).Some?
    ensures SigningBytes(tx) == SigningBytes(tx.(feePayerSignature := Some(sig))) <==>
            && tx.feePayerSignature.Some?
            && Canonical(tx.feePayerSignature.value) == Canonical(sig)
  {
    SenderCommitment(tx, tx.(feePayerSignature := Some(sig)));
  }
}
