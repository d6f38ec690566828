/**
 Signing and verification (`tempo/transaction.py`, `tempo/keychain.py`) as steps on a transaction,
 and what every run of steps keeps. Hashing and the curves are parameters; the one assumption
 about them is `Sound`.
 */
module SigningFlow {
  import opened Outcomes
  import opened ByteStrings
  import opened Rlp
  import opened Codecs
  import opened Signatures
  import opened Authorization
  import opened Transactions

  type Hash = Bytes32
  type Key = nat
  type AuthData = b: seq<byte> | |b| == AUTH_DATA_LENGTH witness seq(37, _ => 0)
  type CurveFields = f: Fields | ValidFields(f)
    witness (OneIsValid(); Fields(BigEndian(1, 32), BigEndian(1, 32), BigEndian(1, 32), BigEndian(1, 32)))

  lemma {:induction false} OneIsValid()
    ensures Value(BigEndian(1, 32)) == 1
  {
    Pow256Of8And32();
    ValueOfBigEndian(1, 32);
  }

  /** The primitives: `recover` reads `r`, `s` and the parity, never the form of `v`. */
  datatype Crypto = Crypto(
    keccak: seq<byte> -> Hash,
    address: Key -> Address20,
    sign: (Key, Hash) -> Secp,
    recover: (Hash, nat, nat, nat) -> Option<Address20>,
    signP256: (Key, Hash, bool) -> CurveFields,
    clientData: Hash -> seq<byte>,
    signAssertion: (Key, AuthData, seq<byte>) -> CurveFields)

  /** A signature over a digest leads back to an address; 27 and 28 are other forms of 0 and 1. */
  predicate Recovers(c: Crypto, digest: Hash, sig: Secp, a: Address20) {
    c.recover(digest, sig.r, sig.s, if sig.v in {0, 27} then 0 else 1) == Some(a)
  }

  /** A signature recovers to the address of the key that made it. */
  ghost predicate Sound(c: Crypto) {
    forall k: Key, h: Hash {:trigger c.sign(k, h)} :: Recovers(c, h, c.sign(k, h), c.address(k))
  }

  datatype FlowError =
    | TooLong
    | NoSenderSignature
    | NoFeePayerSignature
    | NoSenderAddress
    | UnrecoverableSignature
    | Malformed(error: SignatureError)
    | KeyTypeNotSecp256k1
    | InvalidAuthorization
    | NeedsP256Signer
    | UnexpectedArgument
    | NotABroadcast

  // ---------------------------------------------------------------- payload hashes

  /** `recover_address` */
  function Recover(c: Crypto, h: Hash, sig: Secp): Result<Address20, FlowError> {
    match c.recover(h, sig.r, sig.s, YParity(sig))
    case Some(a) => Ok(a)
    case None => Err(UnrecoverableSignature)
  }

  function HashOf(c: Crypto, bytes: Option<seq<byte>>): Result<Hash, FlowError> {
    if bytes.None? then Err(TooLong) else Ok(c.keccak(bytes.value))
  }

  function GetSignPayload(c: Crypto, tx: Tx): Result<Hash, FlowError> {
    HashOf(c, SigningBytes(tx))
  }

  function GetFeePayerSignPayload(c: Crypto, tx: Tx, sender: Address): Result<Hash, FlowError> {
    HashOf(c, FeePayerBytes(tx, sender))
  }

  /** The bytes that are hashed for an access key's signature */
  function KeychainPreimage(h: Hash, root: Address): seq<byte> {
    [KEYCHAIN_SIGNATURE_TYPE] + h + root
  }

  /** `KeychainSignature.signing_hash` */
  function SigningHash(c: Crypto, h: Hash, root: Address): Hash {
    c.keccak(KeychainPreimage(h, root))
  }

  /** `KeyAuthorization.signature_hash` */
  function AuthorizationHash(c: Crypto, a: KeyAuthorization): Result<Hash, FlowError> {
    HashOf(c, Encode(ToRlp(a)))
  }

  // ---------------------------------------------------------------- _replace_fields and clone

  /** The keyword arguments of `_replace_fields` that are not signatures; `None` is "not given" */
  datatype Changes = Changes(
    core: Option<Core>,
    validBefore: Option<Option<nat>>,
    validAfter: Option<Option<nat>>,
    feeToken: Option<Option<Address20>>,
    authorizationList: Option<seq<seq<byte>>>,
    keyAuthorization: Option<Option<ListItem>>)

  const NO_CHANGES := Changes(None, None, None, None, None, None)

  /** A signature argument of `None` keeps the old signature; an empty address becomes `None`. */
  function ReplaceFields(tx: Tx, senderSignature: Option<SenderSignature>, feePayerSignature: Option<Secp>,
                         senderAddress: Option<Address>, awaitingFeePayer: Option<bool>, ch: Changes): Tx {
    Tx(ch.core.GetOr(tx.core),
       ch.validBefore.GetOr(tx.validBefore),
       ch.validAfter.GetOr(tx.validAfter),
       ch.feeToken.GetOr(tx.feeToken),
       if senderSignature.Some? then senderSignature else tx.senderSignature,
       if feePayerSignature.Some? then feePayerSignature else tx.feePayerSignature,
       awaitingFeePayer.GetOr(tx.awaitingFeePayer),
       if senderAddress.None? then tx.senderAddress
       else if senderAddress.value == [] then None else Some(senderAddress.value),
       ch.authorizationList.GetOr(tx.authorizationList),
       ch.keyAuthorization.GetOr(tx.keyAuthorization))
  }

  function CloneTx(tx: Tx): Tx {
    tx.(senderSignature := None, feePayerSignature := None)
  }

  // ---------------------------------------------------------------- signing

  function SignTransaction(c: Crypto, tx: Tx, key: Key): Result<Tx, FlowError> {
    var h :- GetSignPayload(c, tx);
    Ok(ReplaceFields(tx, Some(BySecp(c.sign(key, h))), None, Some(c.address(key)), None, NO_CHANGES))
  }

  function AddFeePayerSignature(c: Crypto, tx: Tx, key: Key): Result<Tx, FlowError> {
    if tx.senderSignature.None? then Err(NoSenderSignature)
    else if tx.senderAddress.None? then Err(NoSenderAddress)
    else
      var h :- GetFeePayerSignPayload(c, tx, tx.senderAddress.value);
      Ok(ReplaceFields(tx, None, Some(c.sign(key, h)), None, None, NO_CHANGES))
  }

  /** The keyword arguments of `sign_tx_access_key` */
  datatype Grant = Grant(
    chainId: Option<nat>,
    keyType: nat,
    keyId: Option<Address>,
    expiry: nat,
    limits: Option<seq<TokenLimit>>,
    allowedCalls: Option<seq<CallScope>>,
    isAdmin: bool)

  /** The authorization a grant builds, if its validators pass */
  function GrantedAuthorization(c: Crypto, tx: Tx, accessKey: Key, root: Key, g: Grant): Option<KeyAuthorization> {
    var keyId: Address := g.keyId.GetOr(c.address(accessKey));
    if |keyId| != 20 then None
    else
      var a := KeyAuthorization(keyId, g.chainId.GetOr(tx.core.chainId), Some(c.address(root)), g.keyType,
                                g.expiry, g.limits, g.allowedCalls, [], g.isAdmin);
      if Valid(a) then Some(a) else None
  }

  /** `[authorization, root_sig]` with the root signature in canonical form */
  function SignedAuthorization(c: Crypto, a: KeyAuthorization, root: Key, h: Hash): ListItem {
    List([ToRlp(a), Bytes(ToCanonicalBytes(c.sign(root, h)))])
  }

  function SignTxAccessKey(c: Crypto, tx: Tx, accessKey: Key, root: Key, g: Grant): Result<Tx, FlowError> {
    if g.keyType != 0 then Err(KeyTypeNotSecp256k1)
    else
      var granted := GrantedAuthorization(c, tx, accessKey, root, g);
      if granted.None? then Err(InvalidAuthorization)
      else
        var rootAddress := c.address(root);
        var authHash :- AuthorizationHash(c, granted.value);
        var withAuth := ReplaceFields(tx, None, None, None, None, NO_CHANGES.(
            keyAuthorization := Some(Some(SignedAuthorization(c, granted.value, root, authHash)))));
        var h :- GetSignPayload(c, withAuth);
        var inner := SecpInner(c.sign(accessKey, SigningHash(c, h, rootAddress)));
        Ok(ReplaceFields(withAuth, Some(ByKeychain(FromInner(inner, rootAddress))), None,
                         Some(rootAddress), None, NO_CHANGES))
  }

  datatype AccessSigner = SecpSigner(key: Key) | P256Signer(p256Key: Key)

  /** A bare signature, with `pre_hash` if it is passed on, or a passkey assertion */
  datatype Scheme = Bare(preHash: Option<bool>) | WebAuthn(authData: AuthData)

  function SignInner(c: Crypto, signer: AccessSigner, scheme: Scheme, h: Hash): Result<Inner, FlowError> {
    match (signer, scheme)
    case (SecpSigner(k), Bare(preHash)) =>
      if preHash.Some? then Err(UnexpectedArgument) else Ok(SecpInner(c.sign(k, h)))
    case (P256Signer(k), Bare(preHash)) =>
      Ok(P256Inner(c.signP256(k, h, preHash.GetOr(false)), preHash.GetOr(false)))
    case (P256Signer(k), WebAuthn(auth)) =>
      Ok(WebAuthnInner(c.signAssertion(k, auth, c.clientData(h)), auth, c.clientData(h)))
    case (SecpSigner(_), WebAuthn(_)) => Err(NeedsP256Signer)
  }

  function SignTxRegisteredKey(c: Crypto, tx: Tx, signer: AccessSigner, root: Address, scheme: Scheme)
    : Result<Tx, FlowError>
  {
    var h :- GetSignPayload(c, tx);
    var inner :- SignInner(c, signer, scheme, SigningHash(c, h, root));
    Ok(ReplaceFields(tx, Some(ByKeychain(FromInner(inner, root))), None, Some(root), None, NO_CHANGES))
  }

  // ---------------------------------------------------------------- verification

  /**
   The sender a signature over payload hash `h` stands for. For a keychain blob the inner signature is
   recovered over the domain-separated hash, and the result is the root it names.
   */
  function RecoverSender(c: Crypto, h: Hash, s: SenderSignature): Result<Address20, FlowError> {
    match s
    case BySecp(sig) => Recover(c, h, sig)
    case ByKeychain(ks) =>
      match InnerSignature(ks) {
        case Err(e) => Err(Malformed(e))
        case Ok(inner) =>
          var _ :- Recover(c, SigningHash(c, h, UserAddress(ks)), inner);
          Ok(UserAddress(ks))
      }
  }

  function VerifySignature(c: Crypto, tx: Tx): Result<Address20, FlowError> {
    if tx.senderSignature.None? then Err(NoSenderSignature)
    else
      var h :- GetSignPayload(c, tx);
      RecoverSender(c, h, tx.senderSignature.value)
  }

  function VerifyFeePayerSignature(c: Crypto, tx: Tx, sender: Address): Result<Address20, FlowError> {
    if tx.feePayerSignature.None? then Err(NoFeePayerSignature)
    else
      var h :- GetFeePayerSignPayload(c, tx, sender);
      Recover(c, h, tx.feePayerSignature.value)
  }

  // ---------------------------------------------------------------- steps and runs

  datatype Step =
    | SignSender(key: Key)
    | AddFeePayer(key: Key)
    | SignAccess(accessKey: Key, root: Key, grant: Grant)
    | SignRegistered(signer: AccessSigner, rootAddress: Address, scheme: Scheme)
    | Clone
    | Revise(awaitingFeePayer: Option<bool>, changes: Changes)

  function Apply(c: Crypto, tx: Tx, step: Step): Result<Tx, FlowError> {
    match step
    case SignSender(k) => SignTransaction(c, tx, k)
    case AddFeePayer(k) => AddFeePayerSignature(c, tx, k)
    case SignAccess(a, r, g) => SignTxAccessKey(c, tx, a, r, g)
    case SignRegistered(s, r, scheme) => SignTxRegisteredKey(c, tx, s, r, scheme)
    case Clone => Ok(CloneTx(tx))
    case Revise(awaiting, ch) => Ok(ReplaceFields(tx, None, None, None, awaiting, ch))
  }

  /**
   Who signed last for the sender, and the sender view at that moment. `SignedOtherwise` is a P-256 or
   WebAuthn key, or any key with the empty root address.
   */
  datatype SenderLog =
    | NotSigned
    | SignedBySecp(key: Key, view: View)
    | SignedByAccessKey(key: Key, root: Address20, view: View)
    | SignedOtherwise(namedRoot: Address, view: View)

  /** Who signed last as fee payer, and the fee payer view at that moment */
  datatype PayerLog = NotPaid | PaidBy(key: Key, view: View)

  datatype State = State(tx: Tx, sender: SenderLog, payer: PayerLog)

  function LogSender(c: Crypto, log: SenderLog, step: Step, tx: Tx): SenderLog {
    match step
    case SignSender(k) => SignedBySecp(k, SenderView(tx))
    case SignAccess(a, r, _) => SignedByAccessKey(a, c.address(r), SenderView(tx))
    case SignRegistered(signer, r, _) =>
      if signer.SecpSigner? && r != [] then SignedByAccessKey(signer.key, r, SenderView(tx))
      else SignedOtherwise(r, SenderView(tx))
    case Clone => NotSigned
    case _ => log
  }

  function LogPayer(log: PayerLog, step: Step, tx: Tx): PayerLog {
    match step
    case AddFeePayer(k) =>
      if tx.senderAddress.None? then log else PaidBy(k, FeePayerView(tx, tx.senderAddress.value))
    case Clone => NotPaid
    case _ => log
  }

  function Next(c: Crypto, st: State, step: Step): Result<State, FlowError> {
    var tx :- Apply(c, st.tx, step);
    Ok(State(tx, LogSender(c, st.sender, step, tx), LogPayer(st.payer, step, tx)))
  }

  function Run(c: Crypto, st: State, steps: seq<Step>): Result<State, FlowError>
    decreases |steps|
  {
    if steps == [] then Ok(st)
    else
      var next :- Next(c, st, steps[0]);
      Run(c, next, steps[1..])
  }

  /** What `create` and `build` return carries no signature; `create` and `build` set no sender address. */
  predicate Unsigned(tx: Tx) {
    tx.senderSignature.None? && tx.feePayerSignature.None?
  }

  function Start(tx: Tx): State {
    State(tx, NotSigned, NotPaid)
  }

  // ---------------------------------------------------------------- the invariant of every run

  /** The sender's signature is the one the log speaks of, over the view the log remembers. */
  ghost predicate SenderInv(c: Crypto, tx: Tx, log: SenderLog) {
    match log
    case NotSigned => tx.senderSignature.None?
    case SignedBySecp(k, v) =>
      && Payload(SENDER_TYPE, v).Some?
      && tx.senderSignature == Some(BySecp(c.sign(k, c.keccak(Payload(SENDER_TYPE, v).value))))
      && tx.senderAddress == Some(c.address(k))
    case SignedByAccessKey(k, root, v) =>
      && Payload(SENDER_TYPE, v).Some?
      && tx.senderSignature == Some(ByKeychain(FromInner(
             SecpInner(c.sign(k, SigningHash(c, c.keccak(Payload(SENDER_TYPE, v).value), root))), root)))
      && tx.senderAddress == Some(root)
    case SignedOtherwise(root, v) =>
      && tx.senderSignature.Some? && tx.senderSignature.value.ByKeychain?
      && InnerSignature(tx.senderSignature.value.ks) == Err(NotSecp256k1)
      && tx.senderAddress == (if root == [] then None else Some(root))
  }

  ghost predicate PayerInv(c: Crypto, tx: Tx, log: PayerLog) {
    match log
    case NotPaid => tx.feePayerSignature.None?
    case PaidBy(k, v) =>
      && Payload(FEE_PAYER_TYPE, v).Some?
      && tx.feePayerSignature == Some(c.sign(k, c.keccak(Payload(FEE_PAYER_TYPE, v).value)))
  }

  /** A fee payer signature comes with a sender signature, and a sender signature with an address. */
  predicate Layered(tx: Tx) {
    && (tx.feePayerSignature.Some? ==> tx.senderSignature.Some?)
    && (tx.senderSignature.Some? ==> tx.senderAddress.Some?)
  }

  ghost predicate Inv(c: Crypto, st: State) {
    && SenderInv(c, st.tx, st.sender)
    && PayerInv(c, st.tx, st.payer)
    && (st.tx.feePayerSignature.Some? ==> st.tx.senderSignature.Some?)
  }

  lemma {:induction false} SignSenderKeepsInv(c: Crypto, st: State, k: Key)
    requires Inv(c, st) && Next(c, st, SignSender(k)).Ok?
    ensures Inv(c, Next(c, st, SignSender(k)).value)
  {
    assert SenderView(Next(c, st, SignSender(k)).value.tx) == SenderView(st.tx);
  }

  lemma {:induction false} AddFeePayerKeepsInv(c: Crypto, st: State, k: Key)
    requires Inv(c, st) && Next(c, st, AddFeePayer(k)).Ok?
    ensures Inv(c, Next(c, st, AddFeePayer(k)).value)
  {
    var a := st.tx.senderAddress.value;
    assert FeePayerView(Next(c, st, AddFeePayer(k)).value.tx, a) == FeePayerView(st.tx, a);
  }

  lemma {:induction false} SignRegisteredKeepsInv(c: Crypto, st: State, step: Step)
    requires step.SignRegistered? && Inv(c, st) && Next(c, st, step).Ok?
    ensures Inv(c, Next(c, st, step).value)
  {
    var tx := Next(c, st, step).value.tx;
    assert SenderView(tx) == SenderView(st.tx);
    RegisteredKeySender(c, st.tx, step.signer, step.rootAddress, step.scheme);
  }

  lemma {:induction false} StepKeepsInv(c: Crypto, st: State, step: Step)
    requires Inv(c, st) && Next(c, st, step).Ok?
    ensures Inv(c, Next(c, st, step).value)
  {
    match step
    case SignSender(k) => SignSenderKeepsInv(c, st, k);
    case AddFeePayer(k) => AddFeePayerKeepsInv(c, st, k);
    case SignAccess(a, r, g) => AccessKeyStep(c, st.tx, a, r, g);
    case SignRegistered(_, _, _) => SignRegisteredKeepsInv(c, st, step);
    case Clone =>
    case Revise(_, _) =>
  }

  /** The shape of what `sign_tx_access_key` returns */
  lemma {:induction false} AccessKeyStep(c: Crypto, tx: Tx, accessKey: Key, root: Key, g: Grant)
    requires SignTxAccessKey(c, tx, accessKey, root, g).Ok?
    ensures GrantedAuthorization(c, tx, accessKey, root, g).Some?
    ensures var tx' := SignTxAccessKey(c, tx, accessKey, root, g).value;
            var a := GrantedAuthorization(c, tx, accessKey, root, g).value;
            && AuthorizationHash(c, a).Ok?
            && GetSignPayload(c, tx').Ok?
            && tx' == tx.(
                 keyAuthorization := Some(SignedAuthorization(c, a, root, AuthorizationHash(c, a).value)),
                 senderSignature := Some(ByKeychain(FromInner(SecpInner(
                     c.sign(accessKey, SigningHash(c, GetSignPayload(c, tx').value, c.address(root)))),
                     c.address(root)))),
                 senderAddress := Some(c.address(root)))
  {
    var tx' := SignTxAccessKey(c, tx, accessKey, root, g).value;
    var a := GrantedAuthorization(c, tx, accessKey, root, g).value;
    var withAuth := tx.(keyAuthorization := Some(SignedAuthorization(c, a, root, AuthorizationHash(c, a).value)));
    assert SenderView(tx') == SenderView(withAuth);
  }

  lemma {:induction false} RunKeepsInv(c: Crypto, st: State, steps: seq<Step>)
    requires Inv(c, st) && Run(c, st, steps).Ok?
    ensures Inv(c, Run(c, st, steps).value)
    decreases |steps|
  {
    if steps == [] {
    } else {
      StepKeepsInv(c, st, steps[0]);
      RunKeepsInv(c, Next(c, st, steps[0]).value, steps[1..]);
    }
  }

  // ---------------------------------------------------------------- what every run guarantees

  /** The last sender step was a registered key with the empty root address. */
  predicate EmptyRoot(log: SenderLog) {
    log.SignedOtherwise? && log.namedRoot == []
  }

  /**
   In every run from an unsigned transaction, a fee payer signature comes with a sender signature; and
   the signatures are layered exactly unless the last sender step named the empty root.
   */
  lemma {:induction false} RunsStayLayered(c: Crypto, tx: Tx, steps: seq<Step>)
    requires Unsigned(tx) && Run(c, Start(tx), steps).Ok?
    ensures var st := Run(c, Start(tx), steps).value;
            && (st.tx.feePayerSignature.Some? ==> st.tx.senderSignature.Some?)
            && (Layered(st.tx) <==> !EmptyRoot(st.sender))
  {
    RunKeepsInv(c, Start(tx), steps);
  }

  predicate NamesRoot(step: Step) {
    step.SignRegistered? ==> step.rootAddress != []
  }

  lemma {:induction false} NamedRootsAreLogged(c: Crypto, st: State, steps: seq<Step>)
    requires Run(c, st, steps).Ok? && !EmptyRoot(st.sender)
    requires forall i :: 0 <= i < |steps| ==> NamesRoot(steps[i])
    ensures !EmptyRoot(Run(c, st, steps).value.sender)
    decreases |steps|
  {
    if steps == [] {
    } else {
      assert NamesRoot(steps[0]);
      NamedRootsAreLogged(c, Next(c, st, steps[0]).value, steps[1..]);
    }
  }

  /** Runs in which every registered key names a full root stay layered throughout. */
  lemma {:induction false} RunsWithRootsStayLayered(c: Crypto, tx: Tx, steps: seq<Step>)
    requires Unsigned(tx) && Run(c, Start(tx), steps).Ok?
    requires forall i :: 0 <= i < |steps| ==> NamesRoot(steps[i])
    ensures Layered(Run(c, Start(tx), steps).value.tx)
  {
    RunsStayLayered(c, tx, steps);
    NamedRootsAreLogged(c, Start(tx), steps);
  }

  /**
   After every run, `verify_signature` returns the sender address as long as the sender view is
   what it was when a secp256k1 key last signed, directly or as an access key; for every other
   signer it reports that the inner signature is not secp256k1.
   */
  lemma {:induction false} RunsVerifySender(c: Crypto, tx: Tx, steps: seq<Step>)
    requires Sound(c) && Unsigned(tx) && Run(c, Start(tx), steps).Ok?
    ensures var st := Run(c, Start(tx), steps).value;
            match st.sender {
              case NotSigned => VerifySignature(c, st.tx) == Err(NoSenderSignature)
              case SignedBySecp(k, v) =>
                && st.tx.senderAddress == Some(c.address(k))
                && (SenderView(st.tx) == v ==> VerifySignature(c, st.tx) == Ok(c.address(k)))
              case SignedByAccessKey(k, root, v) =>
                && st.tx.senderAddress == Some(root)
                && (SenderView(st.tx) == v ==> VerifySignature(c, st.tx) == Ok(root))
              case SignedOtherwise(root, v) =>
                && st.tx.senderAddress == (if root == [] then None else Some(root))
                && (SigningBytes(st.tx).Some? ==> VerifySignature(c, st.tx) == Err(Malformed(NotSecp256k1)))
            }
  {
    RunKeepsInv(c, Start(tx), steps);
    var st := Run(c, Start(tx), steps).value;
    match st.sender
    case NotSigned =>
    case SignedBySecp(k, v) =>
      DirectVerifies(c, st.tx, k, v);
    case SignedByAccessKey(k, root, v) =>
      AccessKeyVerifies(c, st.tx, k, root, v);
    case SignedOtherwise(root, v) =>
  }

  lemma {:induction false} DirectVerifies(c: Crypto, tx: Tx, k: Key, v: View)
    requires Sound(c) && SenderInv(c, tx, SignedBySecp(k, v))
    ensures SenderView(tx) == v ==> VerifySignature(c, tx) == Ok(c.address(k))
  {
  }

  lemma {:induction false} AccessKeyVerifies(c: Crypto, tx: Tx, k: Key, root: Address20, v: View)
    requires Sound(c) && SenderInv(c, tx, SignedByAccessKey(k, root, v))
    ensures SenderView(tx) == v ==> VerifySignature(c, tx) == Ok(root)
  {
    if SenderView(tx) == v {
      var h := SigningHash(c, c.keccak(Payload(SENDER_TYPE, v).value), root);
      WrappedSignatureRecovers(c, k, h, root);
    }
  }

  /** A wrapped signature of an access key recovers to that key, whatever form its `v` had. */
  lemma {:induction false} WrappedSignatureRecovers(c: Crypto, k: Key, h: Hash, root: Address20)
    requires Sound(c)
    ensures var ks := FromInner(SecpInner(c.sign(k, h)), root);
            && UserAddress(ks) == root
            && InnerSignature(ks).Ok?
            && Recovers(c, h, InnerSignature(ks).value, c.address(k))
            && Recover(c, h, InnerSignature(ks).value) == Ok(c.address(k))
  {
    var sig := c.sign(k, h);
    FromInnerKeepsBoth(SecpInner(sig), root);
    InnerSignatureIff(SecpInner(sig), root);
    CanonicalForm(sig);
    CanonicalForm(Canonical(sig));
  }

  /**
   After every run, `verify_fee_payer_signature` returns the payer for every sender under which the
   fee payer view is what it was when the payer signed.
   */
  lemma {:induction false} RunsVerifyFeePayer(c: Crypto, tx: Tx, steps: seq<Step>, sender: Address)
    requires Sound(c) && Unsigned(tx) && Run(c, Start(tx), steps).Ok?
    ensures var st := Run(c, Start(tx), steps).value;
            match st.payer {
              case NotPaid => VerifyFeePayerSignature(c, st.tx, sender) == Err(NoFeePayerSignature)
              case PaidBy(k, v) =>
                FeePayerView(st.tx, sender) == v ==> VerifyFeePayerSignature(c, st.tx, sender) == Ok(c.address(k))
            }
  {
    RunKeepsInv(c, Start(tx), steps);
    var st := Run(c, Start(tx), steps).value;
    if st.payer.PaidBy? {
      PayerVerifies(c, st.tx, st.payer.key, st.payer.view, sender);
    }
  }

  lemma {:induction false} PayerVerifies(c: Crypto, tx: Tx, k: Key, v: View, sender: Address)
    requires Sound(c) && PayerInv(c, tx, PaidBy(k, v))
    ensures FeePayerView(tx, sender) == v ==> VerifyFeePayerSignature(c, tx, sender) == Ok(c.address(k))
  {
  }

  /** The remembered sender view is the transaction's own. */
  predicate ViewCurrent(st: State) {
    match st.sender
    case NotSigned => true
    case SignedBySecp(_, v) => SenderView(st.tx) == v
    case SignedByAccessKey(_, _, v) => SenderView(st.tx) == v
    case SignedOtherwise(_, v) => SenderView(st.tx) == v
  }

  predicate Steady(step: Step) {
    !step.AddFeePayer? && !step.Revise?
  }

  lemma {:induction false} SteadyRunsStayCurrent(c: Crypto, st: State, steps: seq<Step>)
    requires Inv(c, st) && ViewCurrent(st) && Run(c, st, steps).Ok?
    requires forall i :: 0 <= i < |steps| ==> Steady(steps[i])
    ensures ViewCurrent(Run(c, st, steps).value)
    decreases |steps|
  {
    if steps == [] {
    } else {
      assert Steady(steps[0]);
      StepKeepsInv(c, st, steps[0]);
      SteadyRunsStayCurrent(c, Next(c, st, steps[0]).value, steps[1..]);
    }
  }

  /**
   Sender steps and `clone` in any order and number: whatever is signed by secp256k1 at the end
   verifies as the sender address.
   */
  lemma {:induction false} SteadyRunsVerify(c: Crypto, tx: Tx, steps: seq<Step>)
    requires Sound(c) && Unsigned(tx) && Run(c, Start(tx), steps).Ok?
    requires forall i :: 0 <= i < |steps| ==> Steady(steps[i])
    ensures var st := Run(c, Start(tx), steps).value;
            st.sender.SignedBySecp? || st.sender.SignedByAccessKey? ==>
              st.tx.senderAddress.Some? && VerifySignature(c, st.tx) == Ok(st.tx.senderAddress.value)
  {
    RunsVerifySender(c, tx, steps);
    SteadyRunsStayCurrent(c, Start(tx), steps);
  }

  /** Runs compose, and a run of one step does to the transaction what the step does. */
  lemma {:induction false} RunsCompose(c: Crypto, st: State, a: seq<Step>, b: seq<Step>)
    ensures Run(c, st, a + b) == if Run(c, st, a).Err? then Run(c, st, a) else Run(c, Run(c, st, a).value, b)
    ensures |a| == 1 && Apply(c, st.tx, a[0]).Ok? ==>
              Run(c, st, a).Ok? && Run(c, st, a).value.tx == Apply(c, st.tx, a[0]).value
    ensures |a| == 1 && Apply(c, st.tx, a[0]).Err? ==> Run(c, st, a) == Err(Apply(c, st.tx, a[0]).error)
    decreases |a|
  {
    if a == [] {
      assert a + b == b;
    } else {
      assert (a + b)[1..] == a[1..] + b;
      if Next(c, st, a[0]).Ok? {
        RunsCompose(c, Next(c, st, a[0]).value, a[1..], b);
      }
    }
  }

  // ---------------------------------------------------------------- what single steps keep

  /** Replacing nothing changes nothing; replacing everything leaves only the signatures and the sender. */
  lemma {:induction false} ReviseAllOrNothing(c: Crypto, tx: Tx, other: Tx)
    ensures Apply(c, tx, Revise(None, Changes(None, None, None, None, None, None))) == Ok(tx)
    ensures Apply(c, tx, Revise(Some(other.awaitingFeePayer),
                                Changes(Some(other.core), Some(other.validBefore), Some(other.validAfter),
                                        Some(other.feeToken), Some(other.authorizationList),
                                        Some(other.keyAuthorization))))
         == Ok(other.(senderSignature := tx.senderSignature, feePayerSignature := tx.feePayerSignature,
                      senderAddress := tx.senderAddress))
  {
  }

  /** No step but `clone` clears a signature, and `clone` clears both and nothing else. */
  lemma {:induction false} OnlyCloneClears(c: Crypto, tx: Tx, step: Step)
    requires Apply(c, tx, step).Ok?
    ensures var tx' := Apply(c, tx, step).value;
            if step.Clone? then tx' == tx.(senderSignature := None, feePayerSignature := None)
            else && (tx.senderSignature.Some? ==> tx'.senderSignature.Some?)
                 && (tx.feePayerSignature.Some? ==> tx'.feePayerSignature.Some?)
  {
    if step.SignAccess? {
      AccessKeyStep(c, tx, step.accessKey, step.root, step.grant);
    }
  }

  /** The transaction already carries the signed authorization that the grant would put in. */
  predicate Carries(c: Crypto, tx: Tx, accessKey: Key, root: Key, g: Grant) {
    var granted := GrantedAuthorization(c, tx, accessKey, root, g);
    && granted.Some?
    && var h := AuthorizationHash(c, granted.value);
    && h.Ok?
    && tx.keyAuthorization == Some(SignedAuthorization(c, granted.value, root, h.value))
  }

  /** The transaction already carries, up to the form of `v`, the signature the fee payer would add. */
  predicate PaidAlike(c: Crypto, tx: Tx, payer: Key) {
    && tx.feePayerSignature.Some? && tx.senderAddress.Some?
    && var h := GetFeePayerSignPayload(c, tx, tx.senderAddress.value);
    && h.Ok?
    && Canonical(tx.feePayerSignature.value) == Canonical(c.sign(payer, h.value))
  }

  /** Replacements that leave what both signers commit to: an absent bound and a zero one are the same. */
  predicate CommonUnchanged(tx: Tx, ch: Changes) {
    && ch.core.GetOr(tx.core) == tx.core
    && ch.validBefore.GetOr(tx.validBefore).GetOr(0) == tx.validBefore.GetOr(0)
    && ch.validAfter.GetOr(tx.validAfter).GetOr(0) == tx.validAfter.GetOr(0)
    && ch.keyAuthorization.GetOr(tx.keyAuthorization) == tx.keyAuthorization
  }

  /**
   Which steps keep the sender's pre-image, exactly, over the arguments of the step. A fee payer
   signature hides the awaiting flag, and either of the two hides the fee token.
   */
  lemma {:induction false} StepsOnSenderPreimage(c: Crypto, tx: Tx, step: Step)
    requires SigningBytes(tx).Some? && Apply(c, tx, step).Ok?
    ensures SigningBytes(Apply(c, tx, step).value) == SigningBytes(tx) <==>
            match step {
              case SignSender(_) => true
              case SignRegistered(_, _, _) => true
              case SignAccess(a, r, g) => Carries(c, tx, a, r, g)
              case AddFeePayer(k) => PaidAlike(c, tx, k)
              case Clone => tx.feePayerSignature.None?
              case Revise(awaiting, ch) =>
                && CommonUnchanged(tx, ch)
                && (tx.feePayerSignature.Some? || awaiting.GetOr(tx.awaitingFeePayer) == tx.awaitingFeePayer)
                && (Sponsored(tx) || ch.feeToken.GetOr(tx.feeToken) == tx.feeToken)
            }
  {
    var tx' := Apply(c, tx, step).value;
    match step
    case SignSender(_) =>
      SenderSignatureIsNotCommitted(tx, tx'.senderSignature, tx'.senderAddress);
      assert tx' == tx.(senderSignature := tx'.senderSignature, senderAddress := tx'.senderAddress);
    case SignRegistered(_, _, _) =>
      SenderSignatureIsNotCommitted(tx, tx'.senderSignature, tx'.senderAddress);
      assert tx' == tx.(senderSignature := tx'.senderSignature, senderAddress := tx'.senderAddress);
    case SignAccess(a, r, g) =>
      AccessKeyStep(c, tx, a, r, g);
      SenderCommitment(tx, tx');
    case AddFeePayer(_) =>
      ReplacingFeePayerSignature(tx, tx'.feePayerSignature.value);
      assert tx' == tx.(feePayerSignature := tx'.feePayerSignature);
    case Clone =>
      FeePayerSignatureIsCommitted(tx);
      SenderSignatureIsNotCommitted(tx.(feePayerSignature := None), None, tx.senderAddress);
    case Revise(_, _) =>
      SenderCommitment(tx, tx');
  }

  /** Which steps keep the fee payer's pre-image for a sender, exactly: the signatures play no part in it. */
  lemma {:induction false} StepsOnFeePayerPreimage(c: Crypto, tx: Tx, step: Step, sender: Address)
    requires FeePayerBytes(tx, sender).Some? && Apply(c, tx, step).Ok?
    ensures FeePayerBytes(Apply(c, tx, step).value, sender) == FeePayerBytes(tx, sender) <==>
            match step {
              case SignAccess(a, r, g) => Carries(c, tx, a, r, g)
              case Revise(_, ch) => CommonUnchanged(tx, ch) && ch.feeToken.GetOr(tx.feeToken) == tx.feeToken
              case _ => true
            }
  {
    if step.SignAccess? {
      AccessKeyStep(c, tx, step.accessKey, step.root, step.grant);
    }
    FeePayerCommitment(tx, sender, Apply(c, tx, step).value, sender);
  }

  /** `awaiting_fee_payer` is outside the fee payer's pre-image. */
  lemma {:induction false} AwaitingIsNotPaidFor(tx: Tx, awaiting: bool, sender: Address)
    ensures FeePayerBytes(tx.(awaitingFeePayer := awaiting), sender) == FeePayerBytes(tx, sender)
  {
    assert FeePayerView(tx.(awaitingFeePayer := awaiting), sender) == FeePayerView(tx, sender);
  }

  /**
   The sponsored flow: the fee payer verifies, for the signer's address, on the final transaction,
   and the final transaction's sender pre-image is not the one the sender signed.
   */
  lemma {:induction false} SponsoredFlow(c: Crypto, tx: Tx, user: Key, payer: Key)
    requires Sound(c) && tx.feePayerSignature.None?
    requires SignTransaction(c, tx, user).Ok?
    requires AddFeePayerSignature(c, SignTransaction(c, tx, user).value, payer).Ok?
    ensures var signed := SignTransaction(c, tx, user).value;
            var final := AddFeePayerSignature(c, signed, payer).value;
            && VerifySignature(c, signed) == Ok(c.address(user))
            && VerifyFeePayerSignature(c, final, c.address(user)) == Ok(c.address(payer))
            && SigningBytes(signed) == SigningBytes(tx)
            && SigningBytes(final) != SigningBytes(signed)
  {
    var signed := SignTransaction(c, tx, user).value;
    var final := AddFeePayerSignature(c, signed, payer).value;
    StepsOnSenderPreimage(c, tx, SignSender(user));
    StepsOnSenderPreimage(c, signed, AddFeePayer(payer));
    StepsOnFeePayerPreimage(c, signed, AddFeePayer(payer), c.address(user));
  }

  // ---------------------------------------------------------------- access keys end to end

  /** The wire form of the authorization a grant asks for, over the arguments of the call */
  function GrantWire(c: Crypto, tx: Tx, accessKey: Key, root: Key, g: Grant): Wire
    requires g.keyId.Some? ==> |g.keyId.value| == 20
  {
    Wire(if g.keyId.Some? then g.keyId.value else c.address(accessKey),
         if g.chainId.Some? then g.chainId.value else tx.core.chainId,
         Some(c.address(root)), 0, g.expiry, g.limits,
         if g.allowedCalls.None? then None else Some(FoldAll(g.allowedCalls.value)),
         [], g.isAdmin)
  }

  /**
   The grant of `sign_tx_access_key`, for every starting transaction: the authorization in the
   transaction says what the arguments of the call say, and the canonical signature beside it recovers
   to the root over the hash of exactly the bytes of that authorization.
   */
  lemma {:induction false} AccessKeyGrant(c: Crypto, tx: Tx, accessKey: Key, root: Key, g: Grant)
    requires Sound(c) && SignTxAccessKey(c, tx, accessKey, root, g).Ok?
    ensures g.keyId.Some? ==> |g.keyId.value| == 20
    ensures var tx' := SignTxAccessKey(c, tx, accessKey, root, g).value;
            && tx'.keyAuthorization.Some?
            && |tx'.keyAuthorization.value.items| == 2
            && var auth, sig := tx'.keyAuthorization.value.items[0], tx'.keyAuthorization.value.items[1];
            && ParseWire(auth) == Some(GrantWire(c, tx, accessKey, root, g))
            && sig.Bytes? && FromBytes(sig.bs).Ok? && FromBytes(sig.bs).value.v in {27, 28}
            && Encode(auth).Some?
            && Recovers(c, c.keccak(Encode(auth).value), FromBytes(sig.bs).value, c.address(root))
    ensures var tx' := SignTxAccessKey(c, tx, accessKey, root, g).value;
            tx' == tx.(keyAuthorization := tx'.keyAuthorization, senderSignature := tx'.senderSignature,
                       senderAddress := Some(c.address(root)))
  {
    AccessKeyStep(c, tx, accessKey, root, g);
    var a := GrantedAuthorization(c, tx, accessKey, root, g).value;
    ParseOfToRlp(a);
    var rootSig := c.sign(root, AuthorizationHash(c, a).value);
    FromBytesOfToBytes(rootSig);
    CanonicalForm(rootSig);
  }

  /**
   Its envelope: the inner signature recovers to the access key over keccak(0x04, payload hash, root) of
   the final transaction, and the transaction verifies as the root.
   */
  lemma {:induction false} AccessKeyEnvelope(c: Crypto, tx: Tx, accessKey: Key, root: Key, g: Grant)
    requires Sound(c) && SignTxAccessKey(c, tx, accessKey, root, g).Ok?
    ensures var tx' := SignTxAccessKey(c, tx, accessKey, root, g).value;
            && SigningBytes(tx').Some?
            && tx'.senderAddress == Some(c.address(root))
            && tx'.senderSignature.Some? && tx'.senderSignature.value.ByKeychain?
            && var ks := tx'.senderSignature.value.ks;
            && UserAddress(ks) == c.address(root)
            && InnerSignature(ks).Ok?
            && Recovers(c, c.keccak([0x04] + c.keccak(SigningBytes(tx').value) + c.address(root)),
                        InnerSignature(ks).value, c.address(accessKey))
            && VerifySignature(c, tx') == Ok(c.address(root))
  {
    AccessKeyStep(c, tx, accessKey, root, g);
    var tx' := SignTxAccessKey(c, tx, accessKey, root, g).value;
    var h := SigningHash(c, GetSignPayload(c, tx').value, c.address(root));
    WrappedSignatureRecovers(c, accessKey, h, c.address(root));
  }

  /**
   Provision and use in one transaction: the authorized account is the verified sender, and the key
   that recovers is the authorized key exactly when the caller did not name a different key id.
   */
  lemma {:induction false} AccessKeyIsTheGrantedKey(c: Crypto, tx: Tx, accessKey: Key, root: Key, g: Grant)
    requires Sound(c) && SignTxAccessKey(c, tx, accessKey, root, g).Ok?
    ensures var tx' := SignTxAccessKey(c, tx, accessKey, root, g).value;
            && AuthorizedKey(tx').Some?
            && ParseWire(tx'.keyAuthorization.value.items[0]).value.account.Some?
            && VerifySignature(c, tx') == Ok(ParseWire(tx'.keyAuthorization.value.items[0]).value.account.value)
            && RecoveredKey(c, tx') == Some(c.address(accessKey))
            && (RecoveredKey(c, tx') == AuthorizedKey(tx')
                <==> g.keyId.None? || g.keyId.value == c.address(accessKey))
  {
    AccessKeyGrant(c, tx, accessKey, root, g);
    AccessKeyEnvelope(c, tx, accessKey, root, g);
    var tx' := SignTxAccessKey(c, tx, accessKey, root, g).value;
    KeychainParts(tx'.senderSignature.value.ks);
  }

  /** Bytes the signed authorization takes in the field list: the authorization, 67 bytes of signature, a prefix */
  function GrantSize(a: KeyAuthorization): nat {
    HeaderLength(Length(ToRlp(a)) + 67) + Length(ToRlp(a)) + 67
  }

  lemma {:induction false} SignedAuthorizationLength(c: Crypto, a: KeyAuthorization, root: Key, h: Hash)
    ensures Length(SignedAuthorization(c, a, root, h)) == GrantSize(a)
  {
    var sig := Bytes(ToCanonicalBytes(c.sign(root, h)));
    assert ScalarBytes(65) == [65];
    assert Length(sig) == 67;
    var items := [ToRlp(a), sig];
    LengthAllSum([ToRlp(a)], [sig]);
    assert items == [ToRlp(a)] + [sig];
    assert PayloadLength(List(items)) == Length(ToRlp(a)) + 67;
  }

  /**
   `sign_tx_access_key` succeeds exactly for secp256k1 grants that pass validation, if the sender's
   fields and the signed authorization together take fewer than 2^64 bytes.
   */
  lemma {:induction false} AccessKeySucceedsIff(c: Crypto, tx: Tx, accessKey: Key, root: Key, g: Grant)
    ensures SignTxAccessKey(c, tx, accessKey, root, g).Ok? <==>
            && g.keyType == 0
            && (g.keyId.Some? ==> |g.keyId.value| == 20)
            && (g.isAdmin ==> g.expiry == 0 && g.limits.None? && g.allowedCalls.None?)
            && ViewSize(SenderView(tx.(keyAuthorization := None)))
               + GrantSize(GrantedAuthorization(c, tx, accessKey, root, g).value) < 0x1_0000_0000_0000_0000
  {
    if GrantedAuthorization(c, tx, accessKey, root, g).Some? {
      var a := GrantedAuthorization(c, tx, accessKey, root, g).value;
      AuthorizationEncodesIff(a);
      if AuthorizationHash(c, a).Ok? {
        var h := AuthorizationHash(c, a).value;
        var item := SignedAuthorization(c, a, root, h);
        assert ReplaceFields(tx, None, None, None, None, NO_CHANGES.(keyAuthorization := Some(Some(item))))
            == tx.(keyAuthorization := Some(item));
        SignedAuthorizationLength(c, a, root, h);
        SenderSizeWithAuthorization(tx, item);
      }
    }
  }

  lemma {:induction false} SenderSizeWithAuthorization(tx: Tx, x: ListItem)
    ensures SigningBytes(tx.(keyAuthorization := Some(x))).Some? <==>
            ViewSize(SenderView(tx.(keyAuthorization := None))) + Length(x) < LENGTH_LIMIT
  {
    var v := SenderView(tx);
    PayloadExistsIff(SENDER_TYPE, v.(keyAuthorization := Some(x)));
    SizeOfAuthorization(v, x);
    assert SenderView(tx.(keyAuthorization := Some(x))) == v.(keyAuthorization := Some(x));
    assert SenderView(tx.(keyAuthorization := None)) == v.(keyAuthorization := None);
  }

  /** The key and the arguments go together: no `pre_hash` for secp256k1, WebAuthn only with P-256. */
  predicate SchemeFits(signer: AccessSigner, scheme: Scheme) {
    signer.SecpSigner? ==> scheme == Bare(None)
  }

  /** When each of the other steps succeeds, exactly */
  lemma {:induction false} StepSucceedsIff(c: Crypto, tx: Tx, step: Step)
    requires !step.SignAccess?
    ensures Apply(c, tx, step).Ok? <==>
            match step {
              case SignSender(_) => ViewSize(SenderView(tx)) < LENGTH_LIMIT
              case AddFeePayer(_) =>
                && tx.senderSignature.Some?
                && tx.senderAddress.Some?
                && ViewSize(FeePayerView(tx, tx.senderAddress.value)) < LENGTH_LIMIT
              case SignRegistered(signer, _, scheme) =>
                SchemeFits(signer, scheme) && ViewSize(SenderView(tx)) < LENGTH_LIMIT
              case _ => true
            }
  {
    PayloadExistsIff(SENDER_TYPE, SenderView(tx));
    if tx.senderAddress.Some? {
      PayloadExistsIff(FEE_PAYER_TYPE, FeePayerView(tx, tx.senderAddress.value));
    }
  }

  /** And the error when one fails: which of the conditions is looked at first */
  lemma {:induction false} StepFailsWith(c: Crypto, tx: Tx, step: Step)
    requires Apply(c, tx, step).Err?
    ensures Apply(c, tx, step).error ==
            match step {
              case SignSender(_) => TooLong
              case AddFeePayer(_) =>
                if tx.senderSignature.None? then NoSenderSignature
                else if tx.senderAddress.None? then NoSenderAddress
                else TooLong
              case SignAccess(_, _, g) =>
                if g.keyType != 0 then KeyTypeNotSecp256k1
                else if g.keyId == Some([]) then InvalidAuthorization
                else if g.isAdmin && (g.expiry != 0 || g.limits.Some? || g.allowedCalls.Some?) then InvalidAuthorization
                else TooLong
              case SignRegistered(signer, _, scheme) =>
                if ViewSize(SenderView(tx)) >= 0x1_0000_0000_0000_0000 then TooLong
                else if scheme.WebAuthn? then NeedsP256Signer
                else UnexpectedArgument
              case _ => Apply(c, tx, step).error
            }
    ensures !step.Clone? && !step.Revise?
  {
    PayloadExistsIff(SENDER_TYPE, SenderView(tx));
  }

  /** A registered key signs for the root it names; only a full root address becomes the sender address. */
  lemma {:induction false} RegisteredKeySender(c: Crypto, tx: Tx, signer: AccessSigner, root: Address, scheme: Scheme)
    requires SignTxRegisteredKey(c, tx, signer, root, scheme).Ok?
    ensures var tx' := SignTxRegisteredKey(c, tx, signer, root, scheme).value;
            && tx'.senderSignature.Some? && tx'.senderSignature.value.ByKeychain?
            && tx'.senderAddress == (if |root| == 20 then Some(root) else None)
            && (UserAddress(tx'.senderSignature.value.ks) == root <==> |root| == 20)
            && (signer.P256Signer? || root == [] ==> InnerSignature(tx'.senderSignature.value.ks) == Err(NotSecp256k1))
            && (signer.SecpSigner? && root != [] ==> InnerSignature(tx'.senderSignature.value.ks).Ok?)
  {
    var h := GetSignPayload(c, tx).value;
    var inner := SignInner(c, signer, scheme, SigningHash(c, h, root)).value;
    RootReadsBackIff(inner, root);
    InnerLengths(inner);
    InnerSignatureIff(inner, root);
  }

  /**
   The envelope of a registered key byte by byte, for every scheme and root: 0x04, the root, and the
   signature over keccak(0x04, payload hash, root) with the key and the pre-hash flag or client data.
   */
  lemma {:induction false} RegisteredKeyEnvelope(c: Crypto, tx: Tx, signer: AccessSigner, root: Address, scheme: Scheme)
    requires SignTxRegisteredKey(c, tx, signer, root, scheme).Ok?
    ensures SigningBytes(tx).Some?
    ensures var digest := c.keccak([0x04] + c.keccak(SigningBytes(tx).value) + root);
            var tx' := SignTxRegisteredKey(c, tx, signer, root, scheme).value;
            && tx'.senderSignature.Some? && tx'.senderSignature.value.ByKeychain?
            && tx'.senderSignature.value.ks == [0x04] + root + match signer {
                 case SecpSigner(k) => ToCanonicalBytes(c.sign(k, digest))
                 case P256Signer(k) =>
                   match scheme {
                     case Bare(preHash) =>
                       var f := c.signP256(k, digest, preHash == Some(true));
                       [0x01] + f.r + f.s + f.pubKeyX + f.pubKeyY + [if preHash == Some(true) then 1 else 0]
                     case WebAuthn(auth) =>
                       var f := c.signAssertion(k, auth, c.clientData(digest));
                       [0x02] + auth + c.clientData(digest) + f.r + f.s + f.pubKeyX + f.pubKeyY
                   }
               }
  {
    var digest := SigningHash(c, GetSignPayload(c, tx).value, root);
    var inner := SignInner(c, signer, scheme, digest).value;
    InnerLayout(inner);
    if inner.SecpInner? {
      CanonicalForm(inner.sig);
    }
  }

  // ---------------------------------------------------------------- verdicts

  lemma {:induction false} KeychainParts(ks: Keychain)
    ensures UserAddress(ks) == ks[1..21]
    ensures InnerSignature(ks) == if |ks| == 86 then FromBytes(ks[21..]) else Err(NotSecp256k1)
  {
    KeychainLayout(SecpInner(Signature(1, 1, 0)), [], ks, ks);
  }

  /** The key a keychain signature was made with, recovered over keccak(0x04, payload hash, root) */
  function RecoveredKey(c: Crypto, tx: Tx): Option<Address20> {
    if tx.senderSignature.None? || !tx.senderSignature.value.ByKeychain? || SigningBytes(tx).None? then None
    else
      var ks := tx.senderSignature.value.ks;
      if |ks| != 86 || FromBytes(ks[21..]).Err? then None
      else
        var sig := FromBytes(ks[21..]).value;
        c.recover(c.keccak([0x04] + c.keccak(SigningBytes(tx).value) + ks[1..21]),
                  sig.r, sig.s, if sig.v in {0, 27} then 0 else 1)
  }

  /**
   The verdict on a keychain signature: the root in bytes 1 to 20, exactly when some key can be recovered
   from the bytes after it; which key it is plays no part.
   */
  lemma {:induction false} KeychainVerdict(c: Crypto, tx: Tx, ks: Keychain)
    requires tx.senderSignature == Some(ByKeychain(ks))
    ensures VerifySignature(c, tx) ==
            if SigningBytes(tx).None? then Err(TooLong)
            else if |ks| != 86 then Err(Malformed(NotSecp256k1))
            else if FromBytes(ks[21..]).Err? then Err(Malformed(FromBytes(ks[21..]).error))
            else if RecoveredKey(c, tx).Some? then Ok(ks[1..21])
            else Err(UnrecoverableSignature)
  {
    KeychainParts(ks);
    if InnerSignature(ks).Ok? {
      CanonicalForm(InnerSignature(ks).value);
    }
  }

  /** The verdict on a plain signature */
  lemma {:induction false} PlainVerdict(c: Crypto, tx: Tx, sig: Secp)
    requires tx.senderSignature == Some(BySecp(sig))
    ensures VerifySignature(c, tx).Err? ==>
              VerifySignature(c, tx).error == if SigningBytes(tx).None? then TooLong else UnrecoverableSignature
    ensures forall a: Address20 ::
              VerifySignature(c, tx) == Ok(a) <==>
              SigningBytes(tx).Some? && Recovers(c, c.keccak(SigningBytes(tx).value), sig, a)
  {
    CanonicalForm(sig);
  }

  /** The verdict on a fee payer signature, for every sender */
  lemma {:induction false} FeePayerVerdict(c: Crypto, tx: Tx, sender: Address)
    ensures VerifyFeePayerSignature(c, tx, sender).Err? ==>
              VerifyFeePayerSignature(c, tx, sender).error ==
                if tx.feePayerSignature.None? then NoFeePayerSignature
                else if FeePayerBytes(tx, sender).None? then TooLong
                else UnrecoverableSignature
    ensures forall a: Address20 ::
              VerifyFeePayerSignature(c, tx, sender) == Ok(a) <==>
              && tx.feePayerSignature.Some? && FeePayerBytes(tx, sender).Some?
              && Recovers(c, c.keccak(FeePayerBytes(tx, sender).value), tx.feePayerSignature.value, a)
  {
    if tx.feePayerSignature.Some? {
      CanonicalForm(tx.feePayerSignature.value);
    }
  }

  // ---------------------------------------------------------------- which key a keychain transaction names

  /** The key id of the authorization a transaction carries */
  function AuthorizedKey(tx: Tx): Option<Address20> {
    if tx.keyAuthorization.None? || tx.keyAuthorization.value.items == [] then None
    else
      var w :- ParseWire(tx.keyAuthorization.value.items[0]);
      Some(w.keyId)
  }

  /**
   Every secp256k1 key passes for every root: whatever key signs as a registered key of `root`, the
   result verifies as `root`.
   */
  lemma {:induction false} EveryKeyVerifiesAsRoot(c: Crypto, tx: Tx, k: Key, root: Address20)
    requires Sound(c) && ViewSize(SenderView(tx)) < LENGTH_LIMIT
    ensures var signed := SignTxRegisteredKey(c, tx, SecpSigner(k), root, Bare(None));
            && signed.Ok?
            && VerifySignature(c, signed.value) == Ok(root)
            && RecoveredKey(c, signed.value) == Some(c.address(k))
  {
    StepSucceedsIff(c, tx, SignRegistered(SecpSigner(k), root, Bare(None)));
    var signed := SignTxRegisteredKey(c, tx, SecpSigner(k), root, Bare(None)).value;
    assert SenderView(signed) == SenderView(tx);
    WrappedSignatureRecovers(c, k, SigningHash(c, GetSignPayload(c, tx).value, root), root);
    var ks := signed.senderSignature.value.ks;
    KeychainParts(ks);
    KeychainVerdict(c, signed, ks);
  }

  /**
   The documented meaning of verification, that the recovered key is the authorized one, holds for a
   registered key on a transaction that carries an authorization exactly when that key is granted.
   */
  lemma {:induction false} RegisteredKeyIsAuthorizedIff(c: Crypto, tx: Tx, k: Key, root: Address20)
    requires Sound(c) && ViewSize(SenderView(tx)) < LENGTH_LIMIT && AuthorizedKey(tx).Some?
    ensures var signed := SignTxRegisteredKey(c, tx, SecpSigner(k), root, Bare(None));
            && signed.Ok?
            && AuthorizedKey(signed.value) == AuthorizedKey(tx)
            && (RecoveredKey(c, signed.value) == AuthorizedKey(tx) <==> Some(c.address(k)) == AuthorizedKey(tx))
  {
    EveryKeyVerifiesAsRoot(c, tx, k, root);
  }
}
