/** Concrete inputs for every point at which the code and its documentation differ. */
module Witnesses {
  import opened Outcomes
  import opened ByteStrings
  import opened Rlp
  import opened Codecs
  import opened Signatures
  import opened Authorization
  import opened Permissions
  import opened Transactions
  import opened SigningFlow
  import D = DevnetConfigs
  import C = Compose

  // ---------------------------------------------------------------- field 11

  const EMPTY_CORE := Core(0, 0, 0, 0, [], [], 0, 0)

  /** A transaction with nothing in it */
  const EMPTY_TX := Tx(EMPTY_CORE, None, None, None, None, None, false, None, [], None)

  lemma {:induction false} SmallIntLength(n: nat)
    requires n < Pow256(32)
    ensures Length(PutInt(n)) <= 33
  {
    ScalarBytesWidth(n, 32);
  }

  lemma {:induction false} SmallHeader(n: nat)
    requires n < 256
    ensures HeaderLength(n) <= 2
  {
    assert n > 0 ==> ScalarBytes(n) == [n];
  }

  lemma {:induction false} ThreeLengths(x: Item, y: Item, z: Item)
    requires Length(x) <= 33 && Length(y) <= 33 && Length(z) <= 33
    ensures Length(List([x, y, z])) <= 110
  {
    var items := [x, y, z];
    LengthAllBound(items, 33);
    SmallHeader(LengthAll(items));
  }

  lemma {:induction false} PayerItemLength(p: PayerField)
    requires p.PayerSigned? ==> p.yParity < Pow256(32) && p.r < Pow256(32) && p.s < Pow256(32)
    ensures Length(PayerItem(p)) <= 110
  {
    match p
    case PayerSigned(y, r, s) =>
      SmallIntLength(y);
      SmallIntLength(r);
      SmallIntLength(s);
      ThreeLengths(PutInt(y), PutInt(r), PutInt(s));
    case _ =>
  }

  /** Payloads of the empty transaction are small, whoever is named or has signed in field 11. */
  lemma {:induction false} EmptyTxIsSmall(v: View)
    requires v.core == EMPTY_CORE && v.validBefore == 0 && v.validAfter == 0 && v.feeToken.None?
    requires v.keyAuthorization.None? && v.envelope.None?
    requires Length(PayerItem(v.payer)) <= 110
    ensures ViewSize(v) <= 1430
  {
    var xs := ViewItems(v);
    assert forall i :: 0 <= i < 13 ==> xs[i] == BodyItems(v)[i];
    assert PutInt(0) == Bytes([]);
    assert PutList(CALL, []) == List([]) && PutList(ACCESS, []) == List([]);
    assert Length(Bytes([])) == 1 && Length(List([])) == 1;
    assert forall i :: 0 <= i < 13 ==> Length(xs[i]) <= 110;
    LengthAllBound(xs, 110);
  }

  lemma {:induction false} SignatureInts(sig: Secp)
    ensures sig.r < Pow256(32) && sig.s < Pow256(32) && YParity(sig) < Pow256(32)
  {
    Pow256Of8And32();
  }

  lemma {:induction false} EmptyTxSigns(c: Crypto, user: Key)
    ensures SigningBytes(EMPTY_TX).Some? && SignTransaction(c, EMPTY_TX, user).Ok?
  {
    EmptyTxIsSmall(SenderView(EMPTY_TX));
    PayloadExistsIff(SENDER_TYPE, SenderView(EMPTY_TX));
  }

  lemma {:induction false} SignedEmptyTxIsPaid(c: Crypto, tx: Tx, payer: Key)
    requires tx == EMPTY_TX.(senderSignature := tx.senderSignature, senderAddress := tx.senderAddress)
    requires tx.senderSignature.Some? && tx.senderAddress.Some?
    ensures AddFeePayerSignature(c, tx, payer).Ok?
    ensures AddFeePayerSignature(c, tx, payer).value.core == EMPTY_CORE
  {
    EmptyTxIsSmall(FeePayerView(tx, tx.senderAddress.value));
    StepSucceedsIff(c, tx, AddFeePayer(payer));
  }

  /**
   The sponsored flow on the empty transaction, for all keys: both steps succeed, both sender
   pre-images exist, and they differ.
   */
  lemma {:induction false} SponsoringChangesThePreimage(c: Crypto, user: Key, payer: Key)
    requires Sound(c)
    ensures SignTransaction(c, EMPTY_TX, user).Ok?
    ensures AddFeePayerSignature(c, SignTransaction(c, EMPTY_TX, user).value, payer).Ok?
    ensures var signed := SignTransaction(c, EMPTY_TX, user).value;
            var final := AddFeePayerSignature(c, signed, payer).value;
            && SigningBytes(signed).Some? && SigningBytes(final).Some?
            && SigningBytes(final) != SigningBytes(signed)
            && SigningBytes(final) != SigningBytes(final.(feePayerSignature := None))
  {
    EmptyTxSigns(c, user);
    var signed := SignTransaction(c, EMPTY_TX, user).value;
    SignedEmptyTxIsPaid(c, signed, payer);
    var final := AddFeePayerSignature(c, signed, payer).value;
    SponsoredFlow(c, EMPTY_TX, user, payer);
    SponsoredEmptyTx(final);
  }

  /** The empty transaction with any fee payer signature */
  lemma {:induction false} SponsoredEmptyTx(tx: Tx)
    requires tx.core == EMPTY_CORE && tx.validBefore.None? && tx.validAfter.None? && tx.keyAuthorization.None?
    requires tx.feePayerSignature.Some?
    ensures SigningBytes(tx).Some?
    ensures SigningBytes(tx) != SigningBytes(tx.(feePayerSignature := None))
  {
    SignatureInts(tx.feePayerSignature.value);
    PayerItemLength(PayerOf(tx));
    EmptyTxIsSmall(SenderView(tx));
    PayloadExistsIff(SENDER_TYPE, SenderView(tx));
    FeePayerSignatureIsCommitted(tx);
  }

  /** The empty transaction signed for the empty root: a sender signature and no sender address */
  lemma {:induction false} EmptyRootLeavesNoSender(c: Crypto, signer: AccessSigner)
    ensures var signed := SignTxRegisteredKey(c, EMPTY_TX, signer, [], Bare(None));
            && signed.Ok?
            && signed.value.senderSignature.Some?
            && !Layered(signed.value)
  {
    EmptyTxIsSmall(SenderView(EMPTY_TX));
    StepSucceedsIff(c, EMPTY_TX, SignRegistered(signer, [], Bare(None)));
    RegisteredKeySender(c, EMPTY_TX, signer, [], Bare(None));
  }

  // ---------------------------------------------------------------- the key that is recovered

  const FIRST: Address20 := [1, 0, 0, 0, 0, 0, 0, 0, 0, 0, 0, 0, 0, 0, 0, 0, 0, 0, 0, 0]
  const SECOND: Address20 := [2, 0, 0, 0, 0, 0, 0, 0, 0, 0, 0, 0, 0, 0, 0, 0, 0, 0, 0, 0]

  /** A signature scheme of two addresses: key 0 has the first, every other key the second. */
  const TWO_KEYS := Crypto(
    (bs: seq<byte>) => BigEndian(0, 32),
    (k: Key) => if k == 0 then FIRST else SECOND,
    (k: Key, h: Hash) => if k == 0 then Signature(1, 1, 0) else Signature(2, 1, 0),
    (h: Hash, r: nat, s: nat, y: nat) => Some(if r == 1 then FIRST else SECOND),
    (k: Key, h: Hash, pre: bool) => OneFields(),
    (h: Hash) => [],
    (k: Key, auth: AuthData, json: seq<byte>) => OneFields())

  function OneFields(): CurveFields {
    OneIsValid();
    Fields(BigEndian(1, 32), BigEndian(1, 32), BigEndian(1, 32), BigEndian(1, 32))
  }

  /** The assumption about the primitives can be met, with keys that have different addresses. */
  lemma {:induction false} SoundIsSatisfiable()
    ensures Sound(TWO_KEYS)
    ensures TWO_KEYS.address(0) == FIRST && TWO_KEYS.address(1) == SECOND && FIRST != SECOND
  {
    assert FIRST[0] != SECOND[0];
  }

  /** The plainest authorization of a key */
  function GrantOf(keyId: Address20): KeyAuthorization {
    KeyAuthorization(keyId, 0, None, 0, 0, None, None, [], false)
  }

  lemma {:induction false} GrantLength(keyId: Address20)
    ensures Length(ToRlp(GrantOf(keyId))) <= 65
  {
    var items := ToRlp(GrantOf(keyId)).items;
    TrailingShape(Optionals(GrantOf(keyId)));
    assert items == [Bytes([]), Bytes([]), Bytes(keyId)];
    LengthAllBound(items, 21);
    SmallHeader(LengthAll(items));
  }

  lemma {:induction false} GrantSizeIsSmall(keyId: Address20)
    ensures GrantSize(GrantOf(keyId)) <= 134
  {
    GrantLength(keyId);
    SmallHeader(Length(ToRlp(GrantOf(keyId))) + 67);
  }

  lemma {:induction false} GrantIsHashed(c: Crypto, keyId: Address20)
    ensures AuthorizationHash(c, GrantOf(keyId)).Ok?
  {
    GrantLength(keyId);
    EncodeExistsIff(ToRlp(GrantOf(keyId)));
  }

  function EmptyTxWith(item: ListItem): Tx {
    Tx(EMPTY_CORE, None, None, None, None, None, false, None, [], Some(item))
  }

  lemma {:induction false} EmptyTxWithFits(item: ListItem)
    requires Length(item) <= 134
    ensures ViewSize(SenderView(EmptyTxWith(item))) < LENGTH_LIMIT
  {
    var v := SenderView(EmptyTxWith(item));
    SizeOfAuthorization(v, item);
    assert v.(keyAuthorization := Some(item)) == v;
    EmptyTxIsSmall(v.(keyAuthorization := None));
  }

  /** The empty transaction with the owner's signed authorization of a key */
  function GrantingTx(c: Crypto, owner: Key, keyId: Address20): (tx: Tx)
    ensures AuthorizationHash(c, GrantOf(keyId)).Ok?
    ensures tx == EmptyTxWith(
              SignedAuthorization(c, GrantOf(keyId), owner, AuthorizationHash(c, GrantOf(keyId)).value))
  {
    GrantIsHashed(c, keyId);
    EmptyTxWith(SignedAuthorization(c, GrantOf(keyId), owner, AuthorizationHash(c, GrantOf(keyId)).value))
  }

  lemma {:induction false} GrantingTxFits(c: Crypto, owner: Key, keyId: Address20)
    ensures ViewSize(SenderView(GrantingTx(c, owner, keyId))) < LENGTH_LIMIT
    ensures AuthorizedKey(GrantingTx(c, owner, keyId)) == Some(keyId)
  {
    GrantIsHashed(c, keyId);
    var h := AuthorizationHash(c, GrantOf(keyId)).value;
    SignedAuthorizationLength(c, GrantOf(keyId), owner, h);
    GrantSizeIsSmall(keyId);
    EmptyTxWithFits(SignedAuthorization(c, GrantOf(keyId), owner, h));
    ParseOfToRlp(GrantOf(keyId));
  }

  /**
   In every sound scheme, for any two keys with different addresses: the owner's transaction grants the
   one, is signed by the other as a registered key of the owner, and verifies as the owner, although
   the key that is recovered is not the authorized one.
   */
  lemma {:induction false} UnauthorizedKeyVerifies(c: Crypto, owner: Key, granted: Key, other: Key)
    requires Sound(c) && c.address(granted) != c.address(other)
    ensures var tx := GrantingTx(c, owner, c.address(granted));
            var signed := SignTxRegisteredKey(c, tx, SecpSigner(other), c.address(owner), Bare(None));
            && signed.Ok?
            && VerifySignature(c, signed.value) == Ok(c.address(owner))
            && AuthorizedKey(signed.value) == Some(c.address(granted))
            && RecoveredKey(c, signed.value) == Some(c.address(other))
  {
    var tx := GrantingTx(c, owner, c.address(granted));
    GrantingTxFits(c, owner, c.address(granted));
    EveryKeyVerifiesAsRoot(c, tx, other, c.address(owner));
    RegisteredKeyIsAuthorizedIff(c, tx, other, c.address(owner));
  }

  // ---------------------------------------------------------------- the ambiguous envelope

  lemma {:induction false} ValueCons(d: byte, ds: seq<byte>)
    ensures Value([d] + ds) == d * Pow256(|ds|) + Value(ds)
  {
    if ds == [] {
      assert Value([d]) == 256 * Value([d][..0]) + d;
    } else {
      var front := ds[..|ds| - 1];
      ValueCons(d, front);
      assert ([d] + ds)[..|ds|] == [d] + front;
      assert d * Pow256(|ds|) == 256 * (d * Pow256(|front|));
    }
  }

  /** A 65-byte keychain blob that is also a plain signature */
  function AmbiguousBlob(): Keychain {
    [KEYCHAIN_SIGNATURE_TYPE] + BigEndian(0, 31) + BigEndian(1, 32) + [27]
  }

  lemma {:induction false} AmbiguousR()
    ensures 0 < Value([KEYCHAIN_SIGNATURE_TYPE] + BigEndian(0, 31)) < SECP256K1_N
  {
    ValueCons(KEYCHAIN_SIGNATURE_TYPE, BigEndian(0, 31));
    ValueOfBigEndian(0, 31);
    Pow256Of8And32();
    assert Pow256(32) == 256 * Pow256(31);
  }

  lemma {:induction false} EnvelopesCollide()
    ensures FromBytes(AmbiguousBlob()).Ok?
    ensures var plain := BySecp(FromBytes(AmbiguousBlob()).value);
            && plain != ByKeychain(AmbiguousBlob())
            && EnvelopeBytes(plain) == EnvelopeBytes(ByKeychain(AmbiguousBlob()))
  {
    var bs := AmbiguousBlob();
    var r := [KEYCHAIN_SIGNATURE_TYPE] + BigEndian(0, 31);
    assert bs[..32] == r && bs[32..64] == BigEndian(1, 32);
    AmbiguousR();
    OneIsValid();
    ToBytesOfFromBytes(bs);
  }

  // ---------------------------------------------------------------- the selector beside rules

  const TARGET: Address20 := BigEndian(1, 20)
  const A: Selector := [0, 0, 0, 1]
  const B: Selector := [0, 0, 0, 2]

  /** Documented for A; the rule names B */
  const MIXED := CallScope(TARGET, A, [SelectorRule(B, [])])
  const PLAIN := CallScope(TARGET, B, [SelectorRule(B, [])])

  function Granting(s: CallScope): KeyAuthorization {
    KeyAuthorization(TARGET, 0, None, 0, 0, None, Some([s]), [], false)
  }

  lemma {:induction false} OneScopeItem(s: CallScope)
    ensures ScopeItems([s]) == [ScopeItem(s)]
  {
    assert [s][1..] == [];
    assert ScopeItems([s]) == [ScopeItem(s)] + ScopeItems([]);
  }

  /**
   The two scopes have one wire form, which grants B; under the documented reading the first permits
   no call at all, so authorizations with the same items, and hence bytes, are documented differently.
   */
  lemma {:induction false} SelectorBesideRulesIsDropped(recipient: Address)
    ensures Fold(MIXED) == Fold(PLAIN) && ToRlp(Granting(MIXED)) == ToRlp(Granting(PLAIN))
    ensures WireScopeAllows(Fold(MIXED), TARGET, B, recipient)
    ensures DocumentedAllows(Granting(PLAIN), TARGET, B, recipient)
    ensures !DocumentedAllows(Granting(MIXED), TARGET, B, recipient)
    ensures !DocumentedAllows(Granting(MIXED), TARGET, A, recipient)
  {
    var r := SelectorRule(B, []);
    assert r in Fold(MIXED).rules && RuleAllows(r, B, recipient);
    assert A[3] != B[3];
    OneScopeItem(MIXED);
    OneScopeItem(PLAIN);
    assert Fold(MIXED) == Fold(PLAIN);
    assert ScopeItem(MIXED) == ScopeItem(PLAIN);
    assert Optionals(Granting(MIXED)) == Optionals(Granting(PLAIN));
    assert DocumentedScope(PLAIN, TARGET, B, recipient);
    assert Granting(PLAIN).allowedCalls.value[0] == PLAIN;
  }

  // ---------------------------------------------------------------- devnet configurations

  function RawWith(docker: D.RawDocker, validators: seq<D.RawValidator>): D.Raw {
    D.Raw(None, None, None, None, None, None, None, None, None, None, None, None,
          map[], map[], map[], [], [], docker, validators)
  }

  /** A two-network configuration whose validator network has a name and no subnet */
  function PartialNetwork(): D.Raw {
    RawWith(D.RawDocker(None, None, None, Some(D.NetworkDict(Some("v"), None, map[])), None, [], [], []), [])
  }

  /** It comes back with the default subnet written out. */
  lemma {:induction false} RebuiltDiffers()
    ensures D.Accepted(PartialNetwork())
    ensures D.Accepted(D.DictOf(D.Normalize(PartialNetwork())))
    ensures D.Normalize(D.DictOf(D.Normalize(PartialNetwork()))) != D.Normalize(PartialNetwork())
  {
    D.NothingLostIff(PartialNetwork());
  }

  /** One validator, not called node0, and one follow node */
  function Renamed(): D.Raw {
    RawWith(D.RawDocker(None, None, None, Some(D.NO_NETWORK), None, [D.RawNode(Some("follower0"), None)], [], []),
            [D.RawValidator(None, None, Some("alpha"), None, None, None)])
  }

  /** All addresses exist and all names differ, yet the follow node depends on a service that is not there. */
  lemma {:induction false} DependencyMissing()
    ensures D.Accepted(Renamed())
    ensures var s := D.Normalize(Renamed());
            && C.Composable(s) && C.DistinctMonikers(s) && C.DistinctNetworks(s)
            && !C.DependenciesClosed(s)
  {
    var s := D.Normalize(Renamed());
    assert |s.validators| == 1 && |s.docker.followNodes| == 1 && C.Total(s) == 2;
    assert s.docker.subnet == D.DEFAULT_DOCKER_SUBNET && D.PublicSubnet(s.docker) == D.DEFAULT_DOCKER_PUBLIC_SUBNET;
    assert D.Pow2(4) == 16;
    C.Pow2Sum(4, 4);
    C.ComposableUnderBound(s);
    assert C.MonikerOf(s, 0) == "alpha" && C.MonikerOf(s, 1) == "follower0";
    assert "alpha"[0] == 'a' && "follower0"[0] == 'f' && C.FIRST_NODE[0] == 'n';
    C.DependenciesClosedIff(s);
  }
}
