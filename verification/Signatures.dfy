/**
 Signature records and their byte envelopes: secp256k1 (`tempo/models.py`), P-256 and WebAuthn
 (`tempo/p256.py`), and the Keychain V2 wrapper around them (`tempo/keychain.py`).
 */
module Signatures {
  import opened Outcomes
  import opened ByteStrings
  import opened Codecs

  const SECP256K1_N := 0xFFFFFFFFFFFFFFFFFFFFFFFFFFFFFFFEBAAEDCE6AF48A03BBFD25E8CD0364141
  const SECP256K1_HALF_N := SECP256K1_N / 2
  const P256_N := 0xFFFFFFFF00000000FFFFFFFFFFFFFFFFBCE6FAADA7179E84F3B9CAC2FC632551
  const P256_HALF_N := P256_N / 2

  const P256_SIGNATURE_TYPE: byte := 0x01
  const WEBAUTHN_SIGNATURE_TYPE: byte := 0x02
  const KEYCHAIN_SIGNATURE_TYPE: byte := 0x04
  const AUTH_DATA_LENGTH := 37
  const INNER_SIGNATURE_LENGTH := 65
  const KEYCHAIN_SIGNATURE_LENGTH := 86
  const INNER_OFFSET := 21

  datatype SignatureError = BadR | BadS | BadV | BadLength | BadTypeByte | NotSecp256k1

  // ---------------------------------------------------------------- secp256k1

  datatype Triple = Signature(r: nat, s: nat, v: nat)

  predicate InRange(sig: Triple) {
    && 0 < sig.r < SECP256K1_N
    && 0 < sig.s <= SECP256K1_HALF_N
    && sig.v in {0, 1, 27, 28}
  }

  type Secp = sig: Triple | InRange(sig) witness Signature(1, 1, 0)

  /** The record's validators, in the order attrs runs them */
  function MakeSignature(r: int, s: int, v: int): Result<Secp, SignatureError> {
    if !(0 < r < SECP256K1_N) then Err(BadR)
    else if !(0 < s <= SECP256K1_HALF_N) then Err(BadS)
    else if v !in {0, 1, 27, 28} then Err(BadV)
    else Ok(Signature(r, s, v))
  }

  function YParity(sig: Secp): nat {
    if sig.v in {0, 1} then sig.v else sig.v - 27
  }

  function ToBytes(sig: Secp): seq<byte> {
    BigEndian(sig.r, 32) + BigEndian(sig.s, 32) + [sig.v]
  }

  function ToCanonicalBytes(sig: Secp): seq<byte> {
    BigEndian(sig.r, 32) + BigEndian(sig.s, 32) + [27 + YParity(sig)]
  }

  function FromBytes(bs: seq<byte>): Result<Secp, SignatureError> {
    if |bs| != INNER_SIGNATURE_LENGTH then Err(BadLength)
    else MakeSignature(Value(bs[..32]), Value(bs[32..64]), bs[64])
  }

  /** The same signature with `v` in {27, 28} */
  function Canonical(sig: Secp): Secp {
    sig.(v := 27 + YParity(sig))
  }

  /** The parity is 0 for the two even forms of `v`; the canonical bytes end in 27 or 28 accordingly. */
  lemma {:induction false} CanonicalForm(sig: Secp)
    ensures YParity(sig) == if sig.v in {0, 27} then 0 else 1
    ensures ToCanonicalBytes(sig) == BigEndian(sig.r, 32) + BigEndian(sig.s, 32) + [if sig.v in {0, 27} then 27 else 28]
    ensures ToCanonicalBytes(sig) == ToBytes(Signature(sig.r, sig.s, if sig.v in {0, 27} then 27 else 28))
    ensures Canonical(sig) == Signature(sig.r, sig.s, if sig.v in {0, 27} then 27 else 28)
  {
  }

  lemma {:induction false} ValuesOf65(r: nat, s: nat, v: byte)
    requires r < Pow256(32) && s < Pow256(32)
    ensures var bs := BigEndian(r, 32) + BigEndian(s, 32) + [v];
            |bs| == 65 && Value(bs[..32]) == r && Value(bs[32..64]) == s && bs[64] == v
  {
    var bs := BigEndian(r, 32) + BigEndian(s, 32) + [v];
    ValueOfBigEndian(r, 32);
    ValueOfBigEndian(s, 32);
    assert bs[..32] == BigEndian(r, 32) && bs[32..64] == BigEndian(s, 32);
  }

  lemma {:induction false} RangeFits(sig: Secp)
    ensures sig.r < Pow256(32) && sig.s < Pow256(32)
  {
    Pow256Of8And32();
  }

  lemma {:induction false} FromBytesOfParts(sig: Secp)
    ensures FromBytes(BigEndian(sig.r, 32) + BigEndian(sig.s, 32) + [sig.v]) == Ok(sig)
  {
    RangeFits(sig);
    ValuesOf65(sig.r, sig.s, sig.v);
  }

  lemma {:induction false} FromBytesOfToBytes(sig: Secp)
    ensures FromBytes(ToBytes(sig)) == Ok(sig)
    ensures FromBytes(ToCanonicalBytes(sig)) == Ok(Canonical(sig))
    ensures ToCanonicalBytes(sig) == ToBytes(Canonical(sig))
  {
    FromBytesOfParts(sig);
    FromBytesOfParts(Canonical(sig));
  }

  lemma {:induction false} PartsOf65(bs: seq<byte>)
    requires |bs| == 65
    ensures BigEndian(Value(bs[..32]), 32) + BigEndian(Value(bs[32..64]), 32) + [bs[64]] == bs
  {
    var r, s := bs[..32], bs[32..64];
    BigEndianOfValue(r);
    BigEndianOfValue(s);
    CutsOf65(bs);
  }

  lemma {:induction false} CutsOf65(bs: seq<byte>)
    requires |bs| == 65
    ensures bs[..32] + bs[32..64] + [bs[64]] == bs
  {
  }

  lemma {:induction false} ToBytesOfFromBytes(bs: seq<byte>)
    requires FromBytes(bs).Ok?
    ensures ToBytes(FromBytes(bs).value) == bs
  {
    PartsOf65(bs);
  }

  /** What `from_bytes` says of every byte string: the signature, or which check failed first */
  lemma {:induction false} FromBytesVerdict(bs: seq<byte>)
    ensures FromBytes(bs) ==
            if |bs| != 65 then Err(BadLength)
            else
              var n := 0xFFFFFFFFFFFFFFFFFFFFFFFFFFFFFFFEBAAEDCE6AF48A03BBFD25E8CD0364141;
              var r, s := Value(bs[..32]), Value(bs[32..64]);
              if r == 0 || r >= n then Err(BadR)
              else if s == 0 || 2 * s > n then Err(BadS)
              else if bs[64] !in {0, 1, 27, 28} then Err(BadV)
              else Ok(Signature(r, s, bs[64]))
  {
  }

  // ---------------------------------------------------------------- P-256 and WebAuthn

  /** What every P-256 signature carries: the signature, and the key that made it */
  datatype Fields = Fields(r: Bytes32, s: Bytes32, pubKeyX: Bytes32, pubKeyY: Bytes32)

  predicate ValidFields(f: Fields) {
    && 0 < Value(f.r) < P256_N
    && 0 < Value(f.s) <= P256_HALF_N
  }

  /** `min(s, n - s)`, the normalisation the signer applies to a raw `s` */
  function LowS(s: Bytes32): Bytes32
    requires Value(s) < P256_N
  {
    var number := Value(s);
    BigEndian(if number <= P256_N - number then number else P256_N - number, 32)
  }

  /**
   Every raw `s` of a signing run, a number strictly between 0 and the group order, becomes one the
   low-s validator takes, and it is `s` or its negation.
   */
  lemma {:induction false} LowSIsAccepted(s: Bytes32)
    requires 0 < Value(s) < P256_N
    ensures 0 < 2 * Value(LowS(s)) < 0xFFFFFFFF00000000FFFFFFFFFFFFFFFFBCE6FAADA7179E84F3B9CAC2FC632551
    ensures Value(LowS(s)) == Value(s)
            || Value(LowS(s)) + Value(s) == 0xFFFFFFFF00000000FFFFFFFFFFFFFFFFBCE6FAADA7179E84F3B9CAC2FC632551
    ensures 2 * Value(s) < 0xFFFFFFFF00000000FFFFFFFFFFFFFFFFBCE6FAADA7179E84F3B9CAC2FC632551 <==> LowS(s) == s
  {
    Pow256Of8And32();
    BigEndianOfValue(s);
    ValueOfBigEndian(Value(s), 32);
    ValueOfBigEndian(P256_N - Value(s), 32);
  }

  lemma {:induction false} ValidFieldsIff(f: Fields)
    ensures ValidFields(f) <==>
            && 0 < Value(f.r) < 0xFFFFFFFF00000000FFFFFFFFFFFFFFFFBCE6FAADA7179E84F3B9CAC2FC632551
            && 0 < 2 * Value(f.s) < 0xFFFFFFFF00000000FFFFFFFFFFFFFFFFBCE6FAADA7179E84F3B9CAC2FC632551
  {
  }

  predicate ValidInner(i: InnerRecord) {
    match i
    case SecpInner(_) => true
    case P256Inner(f, _) => ValidFields(f)
    case WebAuthnInner(f, auth, _) => ValidFields(f) && |auth| == AUTH_DATA_LENGTH
  }

  datatype InnerRecord =
    | SecpInner(sig: Secp)
    | P256Inner(fields: Fields, preHash: bool)
    | WebAuthnInner(fields: Fields, authenticatorData: seq<byte>, clientDataJson: seq<byte>)

  /** A signature of any of the three schemes that passed its validators */
  type Inner = i: InnerRecord | ValidInner(i) witness SecpInner(Signature(1, 1, 0))

  function FieldBytes(f: Fields): (bs: seq<byte>)
    ensures |bs| == 128
  {
    f.r + f.s + f.pubKeyX + f.pubKeyY
  }

  function FieldsOf(bs: seq<byte>): Fields
    requires |bs| == 128
  {
    Fields(bs[..32], bs[32..64], bs[64..96], bs[96..])
  }

  /** The bytes `KeychainSignature.from_inner` embeds for each scheme */
  function InnerBytes(i: Inner): seq<byte> {
    match i
    case SecpInner(sig) => ToCanonicalBytes(sig)
    case P256Inner(f, preHash) => [P256_SIGNATURE_TYPE] + FieldBytes(f) + [if preHash then 1 else 0]
    case WebAuthnInner(f, auth, json) => [WEBAUTHN_SIGNATURE_TYPE] + auth + json + FieldBytes(f)
  }

  /** A strict reader of the three layouts, told apart by length and type byte */
  function ParseInner(bs: seq<byte>): Option<Inner> {
    if |bs| == INNER_SIGNATURE_LENGTH then
      match FromBytes(bs) {
        case Ok(sig) => if sig.v >= 27 then Some(SecpInner(sig)) else None
        case Err(_) => None
      }
    else if |bs| == 130 then
      var f := FieldsOf(bs[1..129]);
      if bs[0] == P256_SIGNATURE_TYPE && bs[129] <= 1 && ValidFields(f)
      then Some(P256Inner(f, bs[129] == 1)) else None
    else if |bs| >= 166 then
      var f := FieldsOf(bs[|bs| - 128..]);
      if bs[0] == WEBAUTHN_SIGNATURE_TYPE && ValidFields(f)
      then Some(WebAuthnInner(f, bs[1..38], bs[38..|bs| - 128])) else None
    else None
  }

  function CanonicalInner(i: Inner): Inner {
    if i.SecpInner? then SecpInner(Canonical(i.sig)) else i
  }

  lemma {:induction false} FieldsRoundTrip(f: Fields, bs: seq<byte>)
    ensures FieldsOf(FieldBytes(f)) == f
    ensures |bs| == 128 ==> FieldBytes(FieldsOf(bs)) == bs
  {
    var e := FieldBytes(f);
    assert e[..32] == f.r && e[32..64] == f.s && e[64..96] == f.pubKeyX && e[96..] == f.pubKeyY;
  }

  /** The three schemes occupy disjoint lengths. */
  lemma {:induction false} InnerLengths(i: Inner)
    ensures i.SecpInner? <==> |InnerBytes(i)| == 65
    ensures i.P256Inner? <==> |InnerBytes(i)| == 130
    ensures i.WebAuthnInner? <==> |InnerBytes(i)| >= 166
    ensures i.WebAuthnInner? ==> |InnerBytes(i)| == 166 + |i.clientDataJson|
  {
  }

  /** The layouts byte by byte, with the type bytes 0x01 and 0x02 */
  lemma {:induction false} InnerLayout(i: Inner)
    ensures InnerBytes(i) ==
            match i {
              case SecpInner(sig) =>
                BigEndian(sig.r, 32) + BigEndian(sig.s, 32) + [if sig.v in {0, 27} then 27 else 28]
              case P256Inner(f, preHash) =>
                [0x01] + f.r + f.s + f.pubKeyX + f.pubKeyY + [if preHash then 1 else 0]
              case WebAuthnInner(f, auth, json) =>
                [0x02] + auth + json + f.r + f.s + f.pubKeyX + f.pubKeyY
            }
    ensures i.WebAuthnInner? ==> |i.authenticatorData| == 37
  {
    match i
    case SecpInner(sig) => CanonicalForm(sig);
    case _ =>
  }

  /** Every envelope reads back as the signature it was made from, up to the form of `v`. */
  lemma {:induction false} ParseOfInnerBytes(i: Inner)
    ensures ParseInner(InnerBytes(i)) == Some(CanonicalInner(i))
  {
    var bs := InnerBytes(i);
    InnerLengths(i);
    match i
    case SecpInner(sig) =>
      FromBytesOfToBytes(sig);
    case P256Inner(f, preHash) =>
      assert bs[1..129] == FieldBytes(f);
      FieldsRoundTrip(f, []);
    case WebAuthnInner(f, auth, json) =>
      assert bs[|bs| - 128..] == FieldBytes(f) && bs[1..38] == auth && bs[38..|bs| - 128] == json;
      FieldsRoundTrip(f, []);
  }

  /** Conversely every accepted envelope is the one the source would write for what was read. */
  lemma {:induction false} InnerBytesOfParse(bs: seq<byte>)
    requires ParseInner(bs).Some?
    ensures InnerBytes(ParseInner(bs).value) == bs
    ensures CanonicalInner(ParseInner(bs).value) == ParseInner(bs).value
  {
    if |bs| == INNER_SIGNATURE_LENGTH {
      CanonicalPartsOf(bs);
    } else if |bs| == 130 {
      P256PartsOf(bs);
    } else {
      WebAuthnPartsOf(bs);
    }
  }

  lemma {:induction false} CanonicalPartsOf(bs: seq<byte>)
    requires FromBytes(bs).Ok? && FromBytes(bs).value.v >= 27
    ensures Canonical(FromBytes(bs).value) == FromBytes(bs).value
    ensures ToCanonicalBytes(FromBytes(bs).value) == bs
  {
    ToBytesOfFromBytes(bs);
  }

  lemma {:induction false} P256PartsOf(bs: seq<byte>)
    requires |bs| == 130
    ensures bs == [bs[0]] + FieldBytes(FieldsOf(bs[1..129])) + [bs[129]]
  {
    FieldsRoundTrip(FieldsOf(bs[1..129]), bs[1..129]);
    assert bs == [bs[0]] + bs[1..129] + [bs[129]];
  }

  lemma {:induction false} WebAuthnPartsOf(bs: seq<byte>)
    requires |bs| >= 166
    ensures bs == [bs[0]] + bs[1..38] + bs[38..|bs| - 128] + FieldBytes(FieldsOf(bs[|bs| - 128..]))
  {
    FieldsRoundTrip(FieldsOf(bs[|bs| - 128..]), bs[|bs| - 128..]);
    assert bs == [bs[0]] + bs[1..38] + bs[38..|bs| - 128] + bs[|bs| - 128..];
  }

  // ---------------------------------------------------------------- Keychain V2

  predicate KeychainShape(raw: seq<byte>) {
    |raw| > INNER_OFFSET && raw[0] == KEYCHAIN_SIGNATURE_TYPE
  }

  type Keychain = raw: seq<byte> | KeychainShape(raw) witness [4] + seq(21, _ => 0)

  function MakeKeychain(raw: seq<byte>): Result<Keychain, SignatureError> {
    if |raw| <= INNER_OFFSET then Err(BadLength)
    else if raw[0] != KEYCHAIN_SIGNATURE_TYPE then Err(BadTypeByte)
    else Ok(raw)
  }

  /** `from_inner`; `root` may be the empty address, which `as_address` lets through */
  function FromInner(i: Inner, root: Address): Keychain {
    InnerLengths(i);
    [KEYCHAIN_SIGNATURE_TYPE] + root + InnerBytes(i)
  }

  function UserAddress(ks: Keychain): Address20 {
    ks[1..INNER_OFFSET]
  }

  function InnerPart(ks: Keychain): seq<byte> {
    ks[INNER_OFFSET..]
  }

  function InnerSignature(ks: Keychain): Result<Secp, SignatureError> {
    if |ks| != KEYCHAIN_SIGNATURE_LENGTH then Err(NotSecp256k1) else FromBytes(InnerPart(ks))
  }

  /** The blob byte by byte: type 0x04, root, envelope; what is refused, and where the parts are read */
  lemma {:induction false} KeychainLayout(i: Inner, root: Address, raw: seq<byte>, ks: Keychain)
    ensures FromInner(i, root) == [0x04] + root + InnerBytes(i)
    ensures MakeKeychain(raw) ==
            if |raw| < 22 then Err(BadLength) else if raw[0] != 0x04 then Err(BadTypeByte) else Ok(raw)
    ensures |ks| >= 22 && UserAddress(ks) == ks[1..21] && InnerPart(ks) == ks[21..]
    ensures InnerSignature(ks) == if |ks| == 86 then FromBytes(ks[21..]) else Err(NotSecp256k1)
  {
  }

  /** Wrapping keeps the root and the inner signature, whatever the scheme. */
  lemma {:induction false} FromInnerKeepsBoth(i: Inner, root: Address20)
    ensures UserAddress(FromInner(i, root)) == root
    ensures InnerPart(FromInner(i, root)) == InnerBytes(i)
    ensures ParseInner(InnerPart(FromInner(i, root))) == Some(CanonicalInner(i))
  {
    var ks := FromInner(i, root);
    assert ks[1..INNER_OFFSET] == root && ks[INNER_OFFSET..] == InnerBytes(i);
    ParseOfInnerBytes(i);
  }

  /** Two wrapped signatures are the same bytes only for one root and one signature. */
  lemma {:induction false} FromInnerInjective(i: Inner, root: Address20, j: Inner, other: Address20)
    ensures FromInner(i, root) == FromInner(j, other) <==> root == other && CanonicalInner(i) == CanonicalInner(j)
  {
    FromInnerKeepsBoth(i, root);
    FromInnerKeepsBoth(j, other);
    InnerBytesOfParse(InnerBytes(i));
    InnerBytesOfParse(InnerBytes(j));
  }

  /** The root reads back exactly when it was a full address, not the empty one. */
  lemma {:induction false} RootReadsBackIff(i: Inner, root: Address)
    ensures UserAddress(FromInner(i, root)) == root <==> |root| == 20
  {
    if |root| == 20 {
      FromInnerKeepsBoth(i, root);
    }
  }

  /** `inner_signature` succeeds exactly for secp256k1 inners, and returns them with canonical `v`. */
  lemma {:induction false} InnerSignatureIff(i: Inner, root: Address)
    ensures InnerSignature(FromInner(i, root)).Ok? <==> i.SecpInner? && |root| == 20
    ensures i.SecpInner? && |root| == 20 ==> InnerSignature(FromInner(i, root)) == Ok(Canonical(i.sig))
  {
    InnerLengths(i);
    if i.SecpInner? && |root| == 20 {
      FromInnerKeepsBoth(i, root);
      FromBytesOfToBytes(i.sig);
    }
  }

  // ---------------------------------------------------------------- sender signatures

  /** What a transaction carries as its sender signature */
  datatype SenderSignature = BySecp(sig: Secp) | ByKeychain(ks: Keychain)

  /** `_encode_signature`: `to_bytes` of either class; a plain signature keeps its `v` */
  function EnvelopeBytes(s: SenderSignature): (bs: seq<byte>)
    ensures |bs| > INNER_OFFSET
  {
    match s
    case BySecp(sig) => ToBytes(sig)
    case ByKeychain(ks) => ks
  }

  /** One is a plain signature and the other a keychain blob that equals its bytes. */
  predicate Ambiguous(s: SenderSignature, t: SenderSignature) {
    || (s.BySecp? && t.ByKeychain? && t.ks == ToBytes(s.sig))
    || (t.BySecp? && s.ByKeychain? && s.ks == ToBytes(t.sig))
  }

  /**
   The envelope determines the signature, but for one case: a plain signature whose `r` starts with the
   byte 0x04 is also a well-shaped keychain blob of 65 bytes.
   */
  lemma {:induction false} EnvelopeInjective(s: SenderSignature, t: SenderSignature)
    ensures EnvelopeBytes(s) == EnvelopeBytes(t) <==> s == t || Ambiguous(s, t)
    ensures Ambiguous(s, t) ==> |EnvelopeBytes(s)| == INNER_SIGNATURE_LENGTH
  {
    if s.BySecp? && t.BySecp? {
      FromBytesOfToBytes(s.sig);
      FromBytesOfToBytes(t.sig);
    }
  }

  /** Every 65-byte blob that is also a valid secp256k1 signature is ambiguous. */
  lemma {:induction false} EnvelopeAmbiguous(ks: Keychain)
    ensures (exists sig: Secp :: EnvelopeBytes(BySecp(sig)) == EnvelopeBytes(ByKeychain(ks))) <==> FromBytes(ks).Ok?
  {
    if FromBytes(ks).Ok? {
      ToBytesOfFromBytes(ks);
      assert EnvelopeBytes(BySecp(FromBytes(ks).value)) == ks;
    }
    forall sig: Secp | EnvelopeBytes(BySecp(sig)) == ks
      ensures FromBytes(ks).Ok?
    {
      FromBytesOfToBytes(sig);
    }
  }

  /** No blob made by `from_inner` over a 20-byte root has the ambiguous length. */
  lemma {:induction false} FromInnerUnambiguous(i: Inner, root: Address20)
    ensures |FromInner(i, root)| >= KEYCHAIN_SIGNATURE_LENGTH
  {
    InnerLengths(i);
  }
}
