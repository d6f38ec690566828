# A verified model of tempo-py

tempo-py is a Python client library for Tempo transactions with a small devnet tool. This project
models the parts of it that other programs depend on byte for byte, and proves what they promise:

- **Encoding.** A transaction or key authorization becomes a nested item tree and then bytes, by
  the Recursive Length Prefix encoding of the Ethereum Yellow Paper, Appendix B. `Rlp` has the
  encoder and a strict decoder, `Codecs` the list combinator, `Transactions` and `Authorization` the
  field layouts with a parser each, `Permissions` what an authorization allows. A `View` is what a
  payload says; views and field lists are proved to be in bijection, which gives the exact commitment
  of each of the three serialized forms. `Layout` says field by field what a decoder finds in each.
  `Serialization` has the serializers with their loops and in-place updates, proved to write the
  items of the views. `GoldenVector` is the byte-exact authorization the repository's tests pin.
- **Signing.** `SigningFlow` has the signing, verification and copy functions as steps on the
  transaction record, with runs of any length; `Receiver` verifies from broadcast bytes alone.
  Hashing and curves are function values in the record `Crypto`. The one assumption about them is
  `Sound`: a signature recovers, over the hash it was made for, to the address of its key. It appears
  as a precondition wherever it is used, and `SoundIsSatisfiable` shows a scheme that meets it.
- **Signature envelopes.** `Signatures` has secp256k1, P-256, WebAuthn and Keychain V2 layouts.
- **Builder.** `TxBuilder` has the builder object, proved against the trace of its operations.
- **Run scripts.** `ShellScript` has the script printer and a tokenizer written from POSIX.1-2017,
  Shell Command Language, sections 2.2.1, 2.2.2 and 2.3.
- **Devnet.** `DevnetConfigs` reads and writes configurations, `Compose` generates the two-network
  service dictionary, `Ports` searches for free port blocks, `Ephemeral` builds a configuration on them.

## Where the code and its documentation differ

The model follows the code. Each point has a theorem with the exact condition and, in `Witnesses`, an
input at which code and documentation part.

- The docstring of `serialize_for_signing` says all signatures are removed. An attached fee payer
  signature stays in field 11, so attaching one to a transaction that has none always changes the
  sender's pre-image (`FeePayerSignatureIsCommitted`, `StepsOnSenderPreimage`, `SponsoredFlow`;
  `SponsoringChangesThePreimage`).
- The docstring of `verify_signature` says the key recovered from a keychain signature must be the
  access key. The code recovers a key and drops it (`KeychainVerdict`): every key passes for every root
  (`EveryKeyVerifiesAsRoot`). The recovered key is the authorized one exactly when the caller signed
  with the granted key (`RegisteredKeyIsAuthorizedIff`, `AccessKeyIsTheGrantedKey`;
  `UnauthorizedKeyVerifies`).
- The class documentation and `with_selector` say a call scope allows its own selector, optionally
  restricted by rules. `to_rlp` drops the selector of a scope that has rules, so what is encoded is
  what is documented exactly for scopes without rules, with the zero selector, or whose rules all name
  the scope's selector (`WireAsDocumentedIff`); `SameBytesDocumentedAlikeIff` says for which
  authorizations, also with several scopes on one target, equal bytes still mean equal documented
  permissions (`SelectorBesideRulesIsDropped`).
- `to_dict` writes both network mappings of a two-network devnet in full, so a rebuilt configuration
  has another raw mapping where a key was missing or unknown (`NothingLostIff`; every derived name and
  address survives, `DerivedValuesSurvive`; `RebuiltDiffers`).
- Follow nodes depend on the fixed service name `node0`, which need not exist
  (`DependenciesClosedIff`; `DependencyMissing`).
- A keychain blob of exactly 65 bytes can be the same bytes as a plain signature (`EnvelopeAmbiguous`;
  `EnvelopesCollide`), and is where a reader of the bytes and `verify_signature` on the record differ
  (`ReceiverAgreesOnSender`); none that `from_inner` makes over a full root has that length
  (`FromInnerUnambiguous`).
- A registered key may sign for the empty root, which `as_address` accepts. The result has a sender
  signature and no sender address (`RegisteredKeySender`, `RunsStayLayered`; `EmptyRootLeavesNoSender`).

## Reading the model

A transaction groups the eight fields every payload commits to unchanged into `Core`; the
configuration object groups fields that are set once into two records. Python exceptions are `None`
or `Err` results. Addresses are byte strings of length 0 or 20, as `as_address` allows. `Allows` reads
a scope the way `to_rlp` encodes it, `DocumentedAllows` the way the class documents it. Payloads exist
exactly below 2^64 bytes, measured on the input by `Length` and `ViewSize`. `Inside` counts the
broadcast address of a subnet in, `Usable` does not. Main statements spell out constants, hashes and
offsets in numbers and over the arguments of the call. No proof uses automatic induction.

`dafny verify dfyconfig.toml` checks the whole project.

## Model

| member | source | states |
|---|---|---|
| ByteStrings.IntToRlpBytesBijection | tempo/transaction.py:30-34 | the integer encoder is a bijection between naturals and byte strings without a leading zero, inverted by the big-endian value |
| ByteStrings.IntToRlpBytesIsScalar | tempo/transaction.py:34 | the bit-length formula gives the shortest big-endian form, the scalar of the Yellow Paper |
| Rlp.StringForm | tempo/transaction.py:122 | the encoding of every byte string, case by case in the numbers of the Yellow Paper |
| Rlp.ListForm | tempo/transaction.py:122 | the same for every list, over the encodings of its members |
| Rlp.DecodeOfEncode | tempo/transaction.py:122 | any encoding followed by any bytes decodes to its item and leaves exactly those bytes |
| Rlp.EncodeOfDecode | tempo/transaction.py:122 | whatever the strict decoder accepts is the one encoding of what it returns |
| Rlp.RoundTrip | tempo/transaction.py:143 | whole-string decoding and encoding are inverse bijections |
| Rlp.PrefixFree | tempo/keychain.py:413-415 | no encoding is a prefix of another item's encoding |
| Rlp.EncodeExistsIff | tempo/transaction.py:122 | an item has an encoding exactly when its payload, measured on the item, is below 2^64 bytes, and the encoding has the measured length |
| GoldenVector.AdminEncoding | tests/test_keychain.py:296-303 | the admin authorization of the test has exactly the pinned bytes |
| Signatures.CanonicalForm | tempo/models.py:128-147 | the parity is 0 for v of 0 and 27 and 1 otherwise, and the canonical bytes are those of the same r and s with 27 or 28 |
| Signatures.FromBytesVerdict | tempo/models.py:96-108 | every byte string is read as the stated record or refused with the first failing check, over the curve order |
| Signatures.FromBytesOfToBytes | tempo/models.py:140-164 | both byte forms of a signature parse back, the canonical one with v = 27 + parity |
| Signatures.ToBytesOfFromBytes | tempo/models.py:156-164 | every accepted 65-byte string is the byte form of the signature read from it |
| Signatures.LowSIsAccepted | tempo/p256.py:262-266 | the normalised s passes the low-s validator, is s or its negation, and equals s exactly when s was low |
| Signatures.InnerLengths | tempo/p256.py:171-200 | the three schemes occupy disjoint lengths: 65, 130, and 166 plus the client data |
| Signatures.InnerLayout | tempo/p256.py:171-200 | each envelope byte by byte, with its type byte |
| Signatures.ParseOfInnerBytes | tempo/keychain.py:465 | every embedded envelope reads back as its signature, up to the form of v |
| Signatures.InnerBytesOfParse | tempo/keychain.py:465 | every accepted envelope is the one written for what was read |
| Signatures.KeychainLayout | tempo/keychain.py:447-495 | the blob byte by byte, which blobs are refused and how, and where root and inner signature are read |
| Signatures.FromInnerKeepsBoth | tempo/keychain.py:453-483 | wrapping keeps a 20-byte root and the inner signature exactly |
| Signatures.FromInnerInjective | tempo/keychain.py:453-466 | two blobs are equal exactly for one root and one signature up to the form of v |
| Signatures.RootReadsBackIff | tempo/keychain.py:475-478 | the root reads back exactly when it was a full address |
| Signatures.InnerSignatureIff | tempo/keychain.py:485-495 | `inner_signature` succeeds exactly for secp256k1 inners under a full root, with canonical v |
| Signatures.EnvelopeInjective | tempo/transaction.py:76-80 | equal envelope bytes mean the same signature, or one plain signature and the 65-byte blob that equals its bytes |
| Signatures.EnvelopeAmbiguous | tempo/keychain.py:447-451 | a blob shares its bytes with a plain signature exactly when it parses as one |
| Signatures.FromInnerUnambiguous | tempo/keychain.py:39-46 | blobs made by `from_inner` have at least 86 bytes |
| Authorization.LimitExact | tempo/keychain.py:97-106 | token limits and their item form, with period 0 omitted, are in bijection |
| Authorization.RuleExact | tempo/keychain.py:135-137 | selector rules and their item form are in bijection |
| Authorization.ToRlpShape | tempo/keychain.py:400-411 | 3 to 9 items, never ending in the placeholder, every optional readable at its slot |
| Authorization.ToRlpIsShortest | tempo/keychain.py:392-398 | any list with the same meaning in every slot is this list with placeholders appended |
| Authorization.ParseOfToRlp | tempo/keychain.py:389-411 | the wire form reads back every field, up to the selector fold |
| Authorization.ToRlpOfParse | tempo/keychain.py:389-411 | every accepted item list is `to_rlp` of a valid authorization |
| Authorization.NoneIsNotEmpty | tempo/keychain.py:331-334 | unlimited and deny-all stay different on the wire, for limits and for calls |
| Authorization.FoldIdentifiesIff | tempo/keychain.py:177-180 | exactly which scopes have the same wire form |
| Authorization.SameBytesIffSameWire | tempo/keychain.py:389-415 | bytes are equal exactly when the wire forms are |
| Authorization.AuthorizationEncodesIff | tempo/keychain.py:413-415 | an authorization can be hashed exactly when its items take fewer than 2^64 bytes |
| Permissions.FoldKeepsScope | tempo/keychain.py:171-180 | folding a bare selector into a rule changes nothing under the reading `to_rlp` encodes, in which rules replace the selector |
| Permissions.ConstructorsEncode | tempo/keychain.py:182-221 | what unrestricted scopes, selector scopes and scopes with one rule permit once encoded, call by call |
| Permissions.UnrestrictedOrNothing | tempo/keychain.py:331-334 | None permits every call and the empty tuple none, also after encoding |
| Permissions.WireKeepsPermissions | tempo/keychain.py:171-180 | under that reading a whole authorization permits exactly the calls its wire form permits |
| Permissions.SameBytesSamePermissions | tempo/keychain.py:413-415 | equal bytes mean equal fields and limits, and equal permissions under the reading `to_rlp` encodes |
| Permissions.DocumentedIsWireAndGate | tempo/keychain.py:150-156 | the documented permission is the encoded one restricted to the scope's own selector |
| Permissions.WireAsDocumentedIff | tempo/keychain.py:209-221 | exactly which scopes encode what they document |
| Permissions.SameWireDocumentedAlikeIff | tempo/keychain.py:150-180 | two scopes with one wire form are documented alike exactly when their selectors let the same encoded rules through |
| Permissions.GatedAlikeSuffices | tempo/keychain.py:150-180 | for authorizations with one wire form, scope-wise agreement gives the same documented permissions |
| Permissions.SameBytesDocumentedAlikeIff | tempo/keychain.py:413-415 | for all authorizations with equal bytes, the documented permissions are equal exactly when they agree, rule by rule, on the recipients listed and on being open to all where none is listed |
| Permissions.DistinctTargetsAlikeIff | tempo/keychain.py:413-415 | for scopes with distinct targets, that is exactly when each pair of scopes lets the same encoded rules through |
| Transactions.CallExact | tempo/models.py:51-52 | calls and their item form are in bijection |
| Transactions.AccessExact | tempo/models.py:87-88 | access entries, also foreign ones, and their item form are in bijection |
| Transactions.PayerExact | tempo/transaction.py:83-94 | the shapes of field 11 never collide and read back |
| Transactions.TailExact | tempo/transaction.py:187-193 | the tail items tell key authorization from signature, for 13, 14 or 15 fields |
| Transactions.ParseOfViewItems | tempo/transaction.py:147-195 | every field list reads back as exactly the view it was built from |
| Transactions.ViewItemsOfParse | tempo/transaction.py:147-195 | every accepted field list is the one built from what was read |
| Transactions.ParseOfPayload | tempo/transaction.py:140-144 | every payload decodes to its type byte and view |
| Transactions.PayloadOfParse | tempo/transaction.py:140-144 | every byte string that decodes is the one payload of its view |
| Transactions.PayloadExistsIff | tempo/transaction.py:121-123 | a payload exists exactly when its fields, measured on the view, take fewer than 2^64 bytes, and has the measured length |
| Transactions.BroadcastCanBeSigned | tempo/transaction.py:109-144 | the sender payload of a transaction is never longer than its broadcast, so it exists whenever the broadcast does |
| Transactions.SenderCommitment | tempo/transaction.py:109-123 | equal sender pre-images exactly for transactions that agree on the sender view |
| Transactions.FeePayerCommitment | tempo/transaction.py:126-137 | equal fee payer pre-images exactly for the same core, bounds, fee token, key authorization and sender |
| Transactions.BroadcastCommitment | tempo/transaction.py:140-144 | equal broadcasts exactly for the same view with the same envelopes |
| Transactions.BroadcastDeterminesSignature | tempo/transaction.py:140-144 | a broadcast determines the sender signature itself, but for the one ambiguous 65-byte case |
| Transactions.SenderAndFeePayerDisjoint | tempo/models.py:198-199 | a sender pre-image is never a fee payer pre-image |
| Transactions.BroadcastIsPreimageIff | tempo/transaction.py:140-144 | a broadcast is some transaction's signing pre-image exactly when unsigned and without a fee token beside a payer |
| Transactions.FeePayerSignatureIsCommitted | tempo/transaction.py:109-123 | dropping the fee payer signature keeps the sender pre-image exactly when there is none |
| Transactions.SenderSignatureIsNotCommitted | tempo/transaction.py:191-193 | sender signature and address never change the sender pre-image |
| Transactions.ReplacingFeePayerSignature | tempo/transaction.py:90-91 | exchanging fee payer signatures keeps the sender pre-image exactly for one r, s and parity |
| Layout.SenderPreimageSays | tempo/transaction.py:109-123 | type byte and each decoded field of the sender pre-image, by number, over the transaction |
| Layout.FeePayerPreimageSays | tempo/transaction.py:126-137 | the same for the fee payer pre-image, with the sender in field 11 |
| Layout.BroadcastSays | tempo/transaction.py:140-144 | the same for the broadcast, with parity, r and s in field 11 and the signature bytes last |
| Serialization.EncodeCalls | tempo/transaction.py:50-58 | the loop writes the items of `Call.as_rlp_list`, for every call list |
| Serialization.EncodeAccessList | tempo/transaction.py:61-73 | the nested loops write every entry and key in order |
| Serialization.BuildRlpFields | tempo/transaction.py:147-195 | the appended list is the field list of the view for the two flags, of 13 to 15 items |
| Serialization.SerializeForSigning | tempo/transaction.py:109-123 | writes the payload of the sender view |
| Serialization.SerializeForFeePayerSigning | tempo/transaction.py:126-137 | overwriting field 11 gives the payload of the fee payer view |
| Serialization.Serialize | tempo/transaction.py:140-144 | writes the payload of the broadcast view |
| Serialization.CallEncodingsAgree | tempo/models.py:51-52 | raw integers and integer bytes give one encoding of a call |
| SigningFlow.StepKeepsInv | tempo/transaction.py:226-251 | every step keeps each signature the one its log entry describes, and the signatures layered |
| SigningFlow.RunsStayLayered | tempo/transaction.py:240-251 | in every run a fee payer signature implies a sender signature; a sender signature implies a sender address exactly unless the last sender step named the empty root |
| SigningFlow.RunsWithRootsStayLayered | tempo/keychain.py:623-634 | runs whose registered keys name full roots are layered throughout |
| SigningFlow.RunsVerifySender | tempo/transaction.py:254-276 | after every run `verify_signature` returns the sender address while the sender view is the signed one; other outcomes are stated for the other signers |
| SigningFlow.RunsVerifyFeePayer | tempo/transaction.py:279-285 | after every run the fee payer verifies for every sender that keeps the signed fee payer view |
| SigningFlow.SteadyRunsVerify | tempo/transaction.py:226-276 | any number of sender steps and clones ends in a transaction that verifies as its sender address |
| SigningFlow.RunsCompose | tempo/transaction.py:226-251 | a run is the run of its first part followed by the run of its second |
| SigningFlow.ReviseAllOrNothing | tempo/transaction.py:293-313 | replacing no field changes nothing, and replacing all leaves only the signatures and the sender of the old record |
| SigningFlow.OnlyCloneClears | tempo/models.py:355-361 | only `clone` clears signatures, and it clears both and nothing else |
| SigningFlow.StepsOnSenderPreimage | tempo/transaction.py:293-313 | for every step, a direct field replacement included, exactly when it keeps the sender pre-image, over the arguments of the step |
| SigningFlow.StepsOnFeePayerPreimage | tempo/transaction.py:293-313 | for every step, exactly when it keeps the fee payer pre-image, over the arguments of the step |
| SigningFlow.AwaitingIsNotPaidFor | tempo/transaction.py:126-137 | the awaiting flag is outside the fee payer pre-image |
| SigningFlow.SponsoredFlow | tempo/transaction.py:240-251 | sign then sponsor: the payer verifies, and the final sender pre-image is not the signed one |
| SigningFlow.AccessKeyGrant | tempo/keychain.py:564-584 | the embedded authorization reads as exactly the arguments of the call, and the canonical signature beside it recovers to the root over keccak of its encoding; nothing else but signature and sender changes |
| SigningFlow.AccessKeyEnvelope | tempo/keychain.py:586-593 | the inner signature recovers to the access key over keccak(0x04, payload hash, root) of the final transaction, which verifies as the root |
| SigningFlow.AccessKeyIsTheGrantedKey | tempo/keychain.py:564-593 | the account in the embedded authorization is the verified sender, and the recovered key is the key it names exactly when no other key id was given |
| SigningFlow.AccessKeySucceedsIff | tempo/keychain.py:558-593 | signing with an access key succeeds exactly for valid secp256k1 grants whose size and the transaction's, computed from the inputs, stay below 2^64 bytes |
| SigningFlow.StepSucceedsIff | tempo/transaction.py:226-251 | for each other step, exactly when it succeeds, over the inputs and their size |
| SigningFlow.StepFailsWith | tempo/transaction.py:240-251 | for each failing step, the error, over the inputs |
| SigningFlow.RegisteredKeySender | tempo/keychain.py:601-634 | a full root becomes the sender address and reads back from the blob, the empty root leaves none; which inner signatures then read as secp256k1 |
| SigningFlow.RegisteredKeyEnvelope | tempo/keychain.py:623-634 | the blob byte by byte for every scheme and root, with the hash that is signed, the pre-hash flag and the client data |
| SigningFlow.KeychainVerdict | tempo/transaction.py:265-275 | the verdict on every keychain blob: the root it names, exactly when a key recovers over keccak(0x04, payload hash, root), whichever it is, or the error |
| SigningFlow.PlainVerdict | tempo/transaction.py:254-276 | a plain signature verifies as exactly the address that recovers over the payload hash |
| SigningFlow.FeePayerVerdict | tempo/transaction.py:279-285 | a fee payer signature verifies as exactly the address that recovers over the fee payer hash, for every sender |
| SigningFlow.EveryKeyVerifiesAsRoot | tempo/transaction.py:254-276 | whatever secp256k1 key signs as a registered key of a root, the result verifies as that root, and the key recovered on the way is the signing key |
| SigningFlow.RegisteredKeyIsAuthorizedIff | tempo/transaction.py:257-259 | on a transaction that carries an authorization, the recovered key is the authorized one exactly when the caller's key has the granted key id |
| Receiver.ReceiverAgreesOnSender | tempo/transaction.py:254-276 | verification from broadcast bytes gives the verdict of verification on the record, exactly unless the transaction carries a 65-byte keychain blob |
| Receiver.ReceiverAgreesOnFeePayer | tempo/transaction.py:279-285 | the same for the fee payer and every sender |
| Receiver.RefusedIff | tempo/transaction.py:140-144 | exactly the strings that do not parse or have another type byte than 0x76 are refused as no broadcast |
| Receiver.FeePayerPayloadIsNoBroadcast | tempo/models.py:198-199 | a fee payer payload is refused as a broadcast |
| Receiver.SteadyRunsConvince | tempo/transaction.py:226-276 | what runs of sender steps leave is confirmed by a receiver of the bytes |
| Receiver.DomainsSeparated | tempo/keychain.py:468-473 | sender and fee payer payloads, authorizations and 0x04-prefixed pre-images are never equal byte strings |
| Receiver.KeychainPreimageInjective | tempo/keychain.py:468-473 | one access key pre-image stands for one payload hash and one root |
| TxBuilder.Builder.constructor | tempo/transaction.py:337-349 | a fresh builder builds the transaction of the empty trace |
| TxBuilder.Builder.Perform | tempo/transaction.py:351-406 | every setter and adder is one step of the trace; a rejected argument changes nothing |
| TxBuilder.LastCoreSetterWins | tempo/transaction.py:351-373 | each core field is the last value set, or its default |
| TxBuilder.LastBoundWins | tempo/transaction.py:375-381 | each validity bound is the last value set, or none |
| TxBuilder.LastFeeSettingWins | tempo/transaction.py:383-389 | fee token and awaiting flag are the last valid values given, the empty token standing for none |
| TxBuilder.AddersKeepOrder | tempo/transaction.py:391-406 | the calls and access entries are those of exactly the operations with valid arguments, each holding the arguments given, in order |
| TxBuilder.BuiltUnsigned | tempo/transaction.py:408-423 | nothing built carries a signature, sender or key authorization |
| TxBuilder.BuildFrom | tempo/transaction.py:408-423 | a builder driven by any trace builds the transaction of that trace |
| ShellScript.ScanEscaped | tempo/devnet/supervisor.py:119-121 | inside quotes the escaped text is exactly the text; a NUL makes the scan fail |
| ShellScript.ScanQuoted | tempo/devnet/supervisor.py:119-121 | a quoted argument is one word with nothing lost or added |
| ShellScript.TokenizeOfExecCommand | tempo/devnet/supervisor.py:77-92 | tokenizing the command gives back the argument vector, exactly for vectors without NUL |
| ShellScript.ExecCommandInjective | tempo/devnet/supervisor.py:77-92 | different argument vectors give different commands |
| ShellScript.ExecCommandLayout | tempo/devnet/supervisor.py:77-92 | the command line by line: quoted binary, indented quoted arguments, continued line ends |
| ShellScript.WriteRunScriptContent | tempo/devnet/supervisor.py:60-94 | the text of the script up to the command, and the command, whose words are the arguments; empty vectors fail |
| Ports.FindFreeBasePorts | tempo/devnet/ports.py:63-78 | the first of at most 200 offers whose whole region is free, or a failure of all of them |
| Ports.TryBase | tempo/devnet/ports.py:74-77 | an attempt succeeds exactly when every derived port is below the limit and bindable |
| Ports.DistinctIff | tempo/devnet/ports.py:74-75 | all derived ports differ exactly for one block or a stride of at least six in size |
| Ports.FreeRegionReservedIff | tempo/devnet/ports.py:74-77 | the returned blocks have distinct, bindable ports below the limit exactly for one block or a stride of at least six in size |
| Ephemeral.DecimalInjective | tempo/devnet/config.py:339 | different numbers print differently, so node names differ |
| Ephemeral.DecimalOfValue | tempo/devnet/config.py:339 | the printed digits have the number as their value, without a leading zero |
| Ephemeral.EphemeralIsUsable | tempo/devnet/config.py:335-347 | a throwaway configuration has the requested validators, each with its name, host and port ten apart, on distinct bindable ports |
| Ephemeral.EphemeralArguments | tempo/devnet/config.py:335-347 | chain id, backend and binary names are those given, or the backend's defaults |
| Ephemeral.EphemeralConfig | tempo/devnet/config.py:324-347 | the configuration object is built on the first free region found, with all its ports reserved, or the search error is returned |
| DevnetConfigs.ValidatorReads | tempo/devnet/config.py:62-128 | each field of a validator from the keys of its mapping, with the defaults |
| DevnetConfigs.DefaultValidatorsRead | tempo/devnet/config.py:224-237 | the four validators of a configuration that lists none |
| DevnetConfigs.TopologyReads | tempo/devnet/config.py:239-321 | names and subnets of both networks for every docker section, with the defaults |
| DevnetConfigs.NodesRead | tempo/devnet/config.py:270-272 | the three lists of nodes, with their default ports |
| DevnetConfigs.EmptyMappingReads | tempo/devnet/config.py:183-237 | the values an empty mapping stands for |
| DevnetConfigs.ValidatorRoundTrip | tempo/devnet/config.py:84-128 | a validator survives the round trip exactly when it has a moniker, and every one read has |
| DevnetConfigs.TopologyRoundTrip | tempo/devnet/config.py:239-272 | the docker section reads back with both network mappings spelled out |
| DevnetConfigs.RebuiltSettings | tempo/devnet/config.py:390-447 | a rebuilt configuration keeps every field but the binary names and the raw network mappings |
| DevnetConfigs.ToDictIsNormalForm | tempo/devnet/config.py:390-447 | writing a rebuilt configuration changes nothing |
| DevnetConfigs.NothingLostIff | tempo/devnet/config.py:390-447 | exactly when the rebuilt configuration is the original one |
| DevnetConfigs.DerivedValuesSurvive | tempo/devnet/config.py:279-321 | every derived name, address and genesis address survives the round trip |
| DevnetConfigs.DevnetConfig.constructor | tempo/devnet/config.py:183-237 | step-by-step initialisation gives the settings the raw mapping stands for |
| DevnetConfigs.DevnetConfig.InitDockerTopology | tempo/devnet/config.py:239-272 | defaults overridden in place give the topology, and nothing else changes |
| DevnetConfigs.DevnetConfig.ToDict | tempo/devnet/config.py:390-447 | the branches together write the mapping of the settings |
| DevnetConfigs.RewriteConfig | tempo/devnet/config.py:390-447 | on live objects, write, rebuild and write gives the same mapping twice |
| Compose.GenerateTwoNetworkCompose | tempo/devnet/supervisor.py:820-968 | the four loops succeed exactly when all addresses exist and public nodes have a follow node, and fill the dictionary of the row |
| Compose.NoSharedAddress | tempo/devnet/supervisor.py:842-968 | no two services share an address on either network |
| Compose.Isolation | tempo/devnet/supervisor.py:867-966 | every service is there, on exactly the networks of its role |
| Compose.GenesisAgrees | tempo/devnet/config.py:284-294 | genesis address i is validator i's address, where it listens, and no one else's |
| Compose.UpstreamsReachable | tempo/devnet/supervisor.py:498-576 | every upstream is a service on a shared network, at the address the dictionary gives it |
| Compose.DependenciesClosedIff | tempo/devnet/supervisor.py:893-956 | all dependencies name services exactly when there is no follow node or a service is called node0 |
| Compose.ComposableIff | tempo/devnet/config.py:279-321 | over subnets and counts, exactly when every address needed exists and public nodes have a follow node |
| Compose.AllInsideIff | tempo/devnet/config.py:279-282 | all addresses have the network bits of their subnets exactly under the count bound |
| Compose.AllUsableIff | tempo/devnet/config.py:279-282 | no network or broadcast address is handed out exactly under the strict count bound |
| Compose.AddressesInSubnets | tempo/devnet/config.py:279-321 | every address in the dictionary has the network bits of its network's configured subnet and the host bits ten plus the place of its service |
| Compose.ComposableUnderBound | tempo/devnet/supervisor.py:940-956 | under the count bound the generator succeeds exactly when public nodes have a follow node |
| Compose.ServicesSurviveRoundTrip | tempo/devnet/config.py:390-447 | a configuration that went through `to_dict` generates the same services |
| Witnesses.SponsoringChangesThePreimage | tempo/transaction.py:109-123 | the sponsored flow succeeds on the empty transaction, for all keys, and both sender pre-images exist and differ |
| Witnesses.SoundIsSatisfiable | tempo/signer.py:59-80 | a signature scheme with two addresses meets the assumption |
| Witnesses.UnauthorizedKeyVerifies | tempo/transaction.py:257-275 | in every sound scheme, for any two keys with different addresses, the owner's transaction grants the one, is signed by the other, and verifies as the owner |
| Witnesses.EmptyRootLeavesNoSender | tempo/keychain.py:601-634 | the empty transaction signed for the empty root carries a sender signature and no sender address |
| Witnesses.EnvelopesCollide | tempo/keychain.py:447-451 | a 65-byte blob is the byte form of a valid plain signature |
| Witnesses.SelectorBesideRulesIsDropped | tempo/keychain.py:168-180 | a scope documented to permit no call encodes a grant, and shares its bytes with a scope documented for it |
| Witnesses.RebuiltDiffers | tempo/devnet/config.py:422-433 | a configuration that does not come back as it was |
| Witnesses.DependencyMissing | tempo/devnet/supervisor.py:893 | a valid two-network configuration whose follow node depends on a missing service |

## Left out

- Keccak, SHA-256, ECDSA and curve arithmetic: function values under the one assumption `Sound`; P-256 and WebAuthn verification is not modelled, only their envelopes.
- Sedes inference and error messages of the RLP library; non-negative integers are minimal big-endian bytes, and payloads of 2^64 bytes or more have no encoding.
- Ill-typed inputs: negative integers in transactions and authorizations, selectors that are not 4 bytes, key authorizations that are not lists, mappings or flag lists of the wrong type in a configuration, explicit nulls for scalar configuration keys.
- Hex text: serialized forms are byte strings without the `0x` text form, and hex coercion in `tempo/types.py` is represented by its length results.
- `TempoTransaction.from_dict` with its dynamic keys, `KeyRestrictions` and the ABI call builders of `tempo/contracts`.
- ReplaceFields: takes the keyword arguments that exist on the record; the open `**kwargs` of the source would raise on any other name.
- Builder.Perform: the fluent setters return the builder itself, which the model leaves out because every operation is one call.
- Builder.Build: copying the builder's mutable lists into tuples is implicit, as sequences are values; so is that a built transaction never changes later.
- DevnetConfig: the source path given at construction is not kept by the model; `to_dict` does not write it either.
- Service: image, entrypoint, volumes, published ports, health checks and restart policies of a compose service, which do not depend on each other.
- Command lines of the node processes beyond their listen, upstream and dependency choices, and the files written along the way.
- Tokenize: text outside quotes is limited to ordinary characters, blanks and backslashes; operators, expansions, comments and double quotes are rejected, so the `cd` line of the script is not tokenized.
- FindFreeBasePorts: the port the system offers and the outcome of a probe are parameters indexed by attempt; a probe of a negative port, possible only with a negative stride, is an outcome like any other.
- The single-network compose file, supervisor configuration, command line and cluster status.
