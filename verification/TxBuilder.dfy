/**
 The fluent builder of `tempo/transaction.py`: an object whose setters and adders update it in place,
 proved to return what the trace of its operations says.
 */
module TxBuilder {
  import opened Outcomes
  import opened ByteStrings
  import opened Codecs
  import opened Transactions

  const DEFAULT_CHAIN_ID: nat := 4217
  const DEFAULT_GAS_LIMIT: nat := 21_000
  const DEFAULT_NONCE_KEY: nat := 0

  /** One call on the builder, with its arguments as byte strings and integers */
  datatype Op =
    | ChainId(n: nat)
    | MaxPriorityFee(n: nat)
    | MaxFee(n: nat)
    | GasLimit(n: nat)
    | Nonce(n: nat)
    | NonceKey(n: nat)
    | ValidBefore(n: nat)
    | ValidAfter(n: nat)
    | FeeToken(token: Option<seq<byte>>)
    | AwaitingFeePayer(val: bool)
    | AddCall(to: seq<byte>, value: int, data: seq<byte>)
    | AddAccessListEntry(address: seq<byte>, storageKeys: seq<seq<byte>>)

  /** `as_optional_address`: empty counts as none; `None` on the outside is a `ValueError` */
  function OptionalAddress(token: Option<seq<byte>>): Option<Option<Address20>> {
    if token.None? || token.value == [] then Some(None)
    else if |token.value| == 20 then Some(Some(token.value))
    else None
  }

  /** `Call.create` */
  function MakeCall(to: seq<byte>, value: int, data: seq<byte>): Option<Call> {
    if |to| !in {0, 20} || value < 0 then None else Some(Call(to, value, data))
  }

  /** `AccessListItem.create` */
  function MakeEntry(address: seq<byte>, keys: seq<seq<byte>>): Option<AccessEntry> {
    if |address| == 20 && forall i :: 0 <= i < |keys| ==> |keys[i]| == 32
    then Some(AccessListItem(address, keys)) else None
  }

  /** The operation raises no exception, over its own arguments. */
  predicate Accepted(op: Op) {
    match op
    case FeeToken(token) => token.Some? ==> |token.value| in {0, 20}
    case AddCall(to, value, _) => |to| in {0, 20} && value >= 0
    case AddAccessListEntry(address, keys) => |address| == 20 && forall key :: key in keys ==> |key| == 32
    case _ => true
  }

  class Builder {
    var chainId: nat
    var maxPriorityFee: nat
    var maxFee: nat
    var gasLimit: nat
    var calls: seq<Call>
    var accessList: seq<AccessEntry>
    var nonceKey: nat
    var nonce: nat
    var validBefore: Option<nat>
    var validAfter: Option<nat>
    var feeToken: Option<Address20>
    var awaitingFeePayer: bool

    constructor ()
      ensures Build() == Replay([])
    {
      chainId := DEFAULT_CHAIN_ID;
      maxPriorityFee := 0;
      maxFee := 0;
      gasLimit := DEFAULT_GAS_LIMIT;
      calls := [];
      accessList := [];
      nonceKey := DEFAULT_NONCE_KEY;
      nonce := 0;
      validBefore := None;
      validAfter := None;
      feeToken := None;
      awaitingFeePayer := false;
    }

    /** `build` */
    function Build(): Tx
      reads this
    {
      Tx(Core(chainId, maxPriorityFee, maxFee, gasLimit, calls, accessList, nonceKey, nonce),
         validBefore, validAfter, feeToken, None, None, awaitingFeePayer, None, [], None)
    }

    /** The setters and adders; an operation that raises leaves the builder as it was. */
    method Perform(op: Op) returns (ok: bool)
      modifies this
      ensures ok == Accepted(op)
      ensures Build() == Step(old(Build()), op)
    {
      ok := true;
      match op
      case ChainId(n) => chainId := n;
      case MaxPriorityFee(n) => maxPriorityFee := n;
      case MaxFee(n) => maxFee := n;
      case GasLimit(n) => gasLimit := n;
      case Nonce(n) => nonce := n;
      case NonceKey(n) => nonceKey := n;
      case ValidBefore(n) => validBefore := Some(n);
      case ValidAfter(n) => validAfter := Some(n);
      case FeeToken(token) =>
        var address := OptionalAddress(token);
        if address.Some? {
          feeToken := address.value;
        } else {
          ok := false;
        }
      case AwaitingFeePayer(val) => awaitingFeePayer := val;
      case AddCall(to, value, data) =>
        var call := MakeCall(to, value, data);
        if call.Some? {
          calls := calls + [call.value];
        } else {
          ok := false;
        }
      case AddAccessListEntry(address, keys) =>
        var entry := MakeEntry(address, keys);
        if entry.Some? {
          accessList := accessList + [entry.value];
        } else {
          ok := false;
        }
    }
  }

  // ---------------------------------------------------------------- traces

  function Step(tx: Tx, op: Op): Tx {
    match op
    case ChainId(n) => tx.(core := tx.core.(chainId := n))
    case MaxPriorityFee(n) => tx.(core := tx.core.(maxPriorityFeePerGas := n))
    case MaxFee(n) => tx.(core := tx.core.(maxFeePerGas := n))
    case GasLimit(n) => tx.(core := tx.core.(gasLimit := n))
    case Nonce(n) => tx.(core := tx.core.(nonce := n))
    case NonceKey(n) => tx.(core := tx.core.(nonceKey := n))
    case ValidBefore(n) => tx.(validBefore := Some(n))
    case ValidAfter(n) => tx.(validAfter := Some(n))
    case FeeToken(token) =>
      if OptionalAddress(token).Some? then tx.(feeToken := OptionalAddress(token).value) else tx
    case AwaitingFeePayer(val) => tx.(awaitingFeePayer := val)
    case AddCall(to, value, data) =>
      if MakeCall(to, value, data).None? then tx
      else tx.(core := tx.core.(calls := tx.core.calls + [MakeCall(to, value, data).value]))
    case AddAccessListEntry(address, keys) =>
      if MakeEntry(address, keys).None? then tx
      else tx.(core := tx.core.(accessList := tx.core.accessList + [MakeEntry(address, keys).value]))
  }

  function Replay(ops: seq<Op>): Tx {
    if ops == [] then
      Tx(Core(DEFAULT_CHAIN_ID, 0, 0, DEFAULT_GAS_LIMIT, [], [], DEFAULT_NONCE_KEY, 0),
         None, None, None, None, None, false, None, [], None)
    else Step(Replay(ops[..|ops| - 1]), ops[|ops| - 1])
  }

  /** The value picked from the last operation that has one, or the default */
  function LastSet<T>(ops: seq<Op>, pick: Op -> Option<T>, default: T): T {
    if ops == [] then default
    else if pick(ops[|ops| - 1]).Some? then pick(ops[|ops| - 1]).value
    else LastSet(ops[..|ops| - 1], pick, default)
  }

  /** All picked values, in the order of the operations */
  function Collected<T>(ops: seq<Op>, pick: Op -> Option<T>): seq<T> {
    if ops == [] then []
    else Collected(ops[..|ops| - 1], pick)
         + (if pick(ops[|ops| - 1]).Some? then [pick(ops[|ops| - 1]).value] else [])
  }

  function ChainIdOf(op: Op): Option<nat> { if op.ChainId? then Some(op.n) else None }
  function MaxPriorityFeeOf(op: Op): Option<nat> { if op.MaxPriorityFee? then Some(op.n) else None }
  function MaxFeeOf(op: Op): Option<nat> { if op.MaxFee? then Some(op.n) else None }
  function GasLimitOf(op: Op): Option<nat> { if op.GasLimit? then Some(op.n) else None }
  function NonceOf(op: Op): Option<nat> { if op.Nonce? then Some(op.n) else None }
  function NonceKeyOf(op: Op): Option<nat> { if op.NonceKey? then Some(op.n) else None }
  function ValidBeforeOf(op: Op): Option<Option<nat>> { if op.ValidBefore? then Some(Some(op.n)) else None }
  function ValidAfterOf(op: Op): Option<Option<nat>> { if op.ValidAfter? then Some(Some(op.n)) else None }
  /** The empty token stands for none. */
  function FeeTokenOf(op: Op): Option<Option<Address20>> {
    if !op.FeeToken? || !Accepted(op) then None
    else if op.token == Some([]) then Some(None) else Some(op.token)
  }
  function AwaitingOf(op: Op): Option<bool> { if op.AwaitingFeePayer? then Some(op.val) else None }
  function CallOf(op: Op): Option<Call> {
    if op.AddCall? && Accepted(op) then Some(Call(op.to, op.value, op.data)) else None
  }
  function EntryOf(op: Op): Option<AccessEntry> {
    if op.AddAccessListEntry? && Accepted(op) then Some(AccessListItem(op.address, op.storageKeys)) else None
  }

  /** Setters of the core: the last value wins, and an unset field keeps its default. */
  lemma {:induction false} LastCoreSetterWins(ops: seq<Op>)
    ensures var c := Replay(ops).core;
            && c.chainId == LastSet(ops, ChainIdOf, 4217)
            && c.maxPriorityFeePerGas == LastSet(ops, MaxPriorityFeeOf, 0)
            && c.maxFeePerGas == LastSet(ops, MaxFeeOf, 0)
            && c.gasLimit == LastSet(ops, GasLimitOf, 21_000)
            && c.nonce == LastSet(ops, NonceOf, 0)
            && c.nonceKey == LastSet(ops, NonceKeyOf, 0)
  {
    if ops == [] {
    } else {
      LastCoreSetterWins(ops[..|ops| - 1]);
    }
  }

  /** The validity bounds */
  lemma {:induction false} LastBoundWins(ops: seq<Op>)
    ensures Replay(ops).validBefore == LastSet(ops, ValidBeforeOf, None)
    ensures Replay(ops).validAfter == LastSet(ops, ValidAfterOf, None)
  {
    if ops == [] {
    } else {
      LastBoundWins(ops[..|ops| - 1]);
    }
  }

  /** The fee settings; a fee token that is no address is no setting. */
  lemma {:induction false} LastFeeSettingWins(ops: seq<Op>)
    ensures Replay(ops).feeToken == LastSet(ops, FeeTokenOf, None)
    ensures Replay(ops).awaitingFeePayer == LastSet(ops, AwaitingOf, false)
  {
    if ops == [] {
    } else {
      LastFeeSettingWins(ops[..|ops| - 1]);
    }
  }

  /** Nothing built carries a signature, a sender or a key authorization. */
  lemma {:induction false} BuiltUnsigned(ops: seq<Op>)
    ensures var tx := Replay(ops);
            && tx.senderSignature.None? && tx.feePayerSignature.None?
            && tx.senderAddress.None? && tx.keyAuthorization.None? && tx.authorizationList == []
  {
    if ops == [] {
    } else {
      BuiltUnsigned(ops[..|ops| - 1]);
    }
  }

  lemma {:induction false} StepAdds(tx: Tx, op: Op)
    ensures Step(tx, op).core.calls == tx.core.calls + (if CallOf(op).Some? then [CallOf(op).value] else [])
    ensures Step(tx, op).core.accessList == tx.core.accessList + (if EntryOf(op).Some? then [EntryOf(op).value] else [])
  {
  }

  /**
   Adders: the calls and access entries are those of exactly the accepted operations, each with the
   arguments it was given, in order.
   */
  lemma {:induction false} AddersKeepOrder(ops: seq<Op>)
    ensures Replay(ops).core.calls == Collected(ops, CallOf)
    ensures Replay(ops).core.accessList == Collected(ops, EntryOf)
  {
    if ops == [] {
    } else {
      AddersKeepOrder(ops[..|ops| - 1]);
      StepAdds(Replay(ops[..|ops| - 1]), ops[|ops| - 1]);
    }
  }

  /** A fresh builder driven by any trace builds the transaction of that trace. */
  method BuildFrom(ops: seq<Op>) returns (tx: Tx)
    ensures tx == Replay(ops)
    ensures tx.core.calls == Collected(ops, CallOf) && tx.core.accessList == Collected(ops, EntryOf)
  {
    var b := new Builder();
    for i := 0 to |ops|
      invariant b.Build() == Replay(ops[..i])
    {
      assert ops[..i + 1][..i] == ops[..i];
      var _ := b.Perform(ops[i]);
    }
    assert ops[..|ops|] == ops;
    AddersKeepOrder(ops);
    tx := b.Build();
  }
}
