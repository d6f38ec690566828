/**
 Key authorizations (`tempo/keychain.py`): their trailing-optional wire layout, its parser,
 and which of them share a wire form.
 */
module Authorization {
  import opened Outcomes
  import opened ByteStrings
  import opened Rlp
  import opened Codecs

  const ZERO_SELECTOR: Selector := [0, 0, 0, 0]

  datatype TokenLimit = TokenLimit(token: Address20, limit: nat, period: nat)

  datatype SelectorRule = SelectorRule(selector: Selector, recipients: seq<Address>)

  datatype CallScope = CallScope(target: Address20, selector: Selector, selectorRules: seq<SelectorRule>)

  datatype Record = KeyAuthorization(
    keyId: Address20,
    chainId: nat,
    account: Option<Address20>,
    keyType: nat,
    expiry: nat,
    limits: Option<seq<TokenLimit>>,
    allowedCalls: Option<seq<CallScope>>,
    witnessBytes: seq<byte>,
    isAdmin: bool)

  /** `__attrs_post_init__` */
  predicate Valid(a: Record) {
    && (|a.witnessBytes| == 0 || |a.witnessBytes| == 32)
    && (a.isAdmin ==> a.expiry == 0 && a.limits.None? && a.allowedCalls.None?)
  }

  type KeyAuthorization = a: Record | Valid(a)
    witness KeyAuthorization(seq(20, _ => 0), 0, None, 0, 0, None, None, [], false)

  // ---------------------------------------------------------------- to_rlp

  function LimitItem(t: TokenLimit): Item {
    if t.period == 0 then List([Bytes(t.token), PutInt(t.limit)])
    else List([Bytes(t.token), PutInt(t.limit), PutInt(t.period)])
  }

  function RuleItem(r: SelectorRule): Item {
    List([Bytes(r.selector), PutList(ADDRESS, r.recipients)])
  }

  /** The rules `CallScope.to_rlp` writes: a bare selector is folded into one rule */
  function FoldedRules(s: CallScope): seq<SelectorRule> {
    if s.selectorRules == [] && s.selector != ZERO_SELECTOR then [SelectorRule(s.selector, [])]
    else s.selectorRules
  }

  function ScopeItem(s: CallScope): Item {
    List([Bytes(s.target), PutList(RULE, FoldedRules(s))])
  }

  /** The six trailing fields, `None` where the source has `None` */
  function Optionals(a: KeyAuthorization): (os: seq<Option<Item>>)
    ensures |os| == 6
  {
    [ if a.expiry == 0 then None else Some(PutInt(a.expiry)),
      if a.limits.None? then None else Some(PutList(LIMIT, a.limits.value)),
      if a.allowedCalls.None? then None else Some(List(ScopeItems(a.allowedCalls.value))),
      if a.witnessBytes == [] then None else Some(Bytes(a.witnessBytes)),
      if a.isAdmin then Some(PutInt(1)) else None,
      if a.account.None? then None else Some(Bytes(a.account.value)) ]
  }

  function ScopeItems(ss: seq<CallScope>): seq<Item> {
    if ss == [] then [] else [ScopeItem(ss[0])] + ScopeItems(ss[1..])
  }

  /** `os` up to its last present entry, absent ones written as the empty string */
  function Trailing(os: seq<Option<Item>>): seq<Item> {
    if os == [] then []
    else if os[|os| - 1].None? then Trailing(os[..|os| - 1])
    else seq(|os|, i requires 0 <= i < |os| => os[i].GetOr(Bytes([])))
  }

  function ToRlp(a: KeyAuthorization): Item {
    List([PutInt(a.chainId), PutInt(a.keyType), Bytes(a.keyId)] + Trailing(Optionals(a)))
  }

  // ---------------------------------------------------------------- wire form and its parser

  /** What the wire says about a scope: no top-level selector */
  datatype WireScope = WireScope(target: Address20, rules: seq<SelectorRule>)

  datatype Wire = Wire(
    keyId: Address20,
    chainId: nat,
    account: Option<Address20>,
    keyType: nat,
    expiry: nat,
    limits: Option<seq<TokenLimit>>,
    allowedCalls: Option<seq<WireScope>>,
    witnessBytes: seq<byte>,
    isAdmin: bool)

  function Fold(s: CallScope): WireScope {
    WireScope(s.target, FoldedRules(s))
  }

  function FoldAll(ss: seq<CallScope>): (ws: seq<WireScope>)
    ensures |ws| == |ss| && forall i :: 0 <= i < |ss| ==> ws[i] == Fold(ss[i])
  {
    seq(|ss|, i requires 0 <= i < |ss| => Fold(ss[i]))
  }

  function ToWire(a: KeyAuthorization): Wire {
    Wire(a.keyId, a.chainId, a.account, a.keyType, a.expiry, a.limits,
         if a.allowedCalls.None? then None else Some(FoldAll(a.allowedCalls.value)),
         a.witnessBytes, a.isAdmin)
  }

  function ParseLimit(x: Item): Option<TokenLimit> {
    if x.Bytes? || !(2 <= |x.items| <= 3) then None
    else
      var token :- GetAddress20(x.items[0]);
      var limit :- GetInt(x.items[1]);
      if |x.items| == 2 then Some(TokenLimit(token, limit, 0))
      else
        var period :- GetInt(x.items[2]);
        if period == 0 then None else Some(TokenLimit(token, limit, period))
  }

  function ParseRule(x: Item): Option<SelectorRule> {
    if x.Bytes? || |x.items| != 2 || x.items[0].List? || |x.items[0].bs| != 4 then None
    else
      var recipients :- GetList(ADDRESS, x.items[1]);
      Some(SelectorRule(x.items[0].bs, recipients))
  }

  function WireScopeItem(w: WireScope): Item {
    List([Bytes(w.target), PutList(RULE, w.rules)])
  }

  function ParseScope(x: Item): Option<WireScope> {
    if x.Bytes? || |x.items| != 2 then None
    else
      var target :- GetAddress20(x.items[0]);
      var rules :- GetList(RULE, x.items[1]);
      Some(WireScope(target, rules))
  }

  const LIMIT := Codec(LimitItem, ParseLimit)
  const RULE := Codec(RuleItem, ParseRule)
  const SCOPE := Codec(WireScopeItem, ParseScope)

  /** A trailing slot: missing and empty-string both read as absent */
  function Slot(xs: seq<Item>, i: nat): Option<Item> {
    if i < |xs| && xs[i] != Bytes([]) then Some(xs[i]) else None
  }

  function GetSlot<T>(c: Codec<T>, slot: Option<Item>): Option<Option<T>> {
    match slot
    case None => Some(None)
    case Some(x) =>
      var t :- c.get(x);
      Some(Some(t))
  }

  function GetListSlot<T>(c: Codec<T>, slot: Option<Item>): Option<Option<seq<T>>> {
    match slot
    case None => Some(None)
    case Some(x) =>
      var ts :- GetList(c, x);
      Some(Some(ts))
  }

  /** Reads the wire form of an authorization */
  function ParseWire(x: Item): Option<Wire> {
    if x.Bytes? || !(3 <= |x.items| <= 9) then None
    else
      var tail := x.items[3..];
      if tail != [] && tail[|tail| - 1] == Bytes([]) then None
      else
        var chainId :- GetInt(x.items[0]);
        var keyType :- GetInt(x.items[1]);
        var keyId :- GetAddress20(x.items[2]);
        var expiry :- GetSlot(INT, Slot(tail, 0));
        var limits :- GetListSlot(LIMIT, Slot(tail, 1));
        var calls :- GetListSlot(SCOPE, Slot(tail, 2));
        var wit :- GetSlot(BYTES32, Slot(tail, 3));
        var admin :- GetSlot(INT, Slot(tail, 4));
        var account :- GetSlot(ADDRESS20, Slot(tail, 5));
        if admin.Some? && (admin.value != 1 || expiry.Some? || limits.Some? || calls.Some?) then None
        else Some(Wire(keyId, chainId, account, keyType, expiry.GetOr(0), limits, calls,
                       if wit.None? then [] else wit.value, admin.Some?))
  }

  const INT := Codec(PutInt, GetInt)
  const ADDRESS20 := Codec(PutAddress20, GetAddress20)

  // ---------------------------------------------------------------- codecs are exact

  lemma {:induction false} LimitExact()
    ensures Exact(LIMIT)
  {
    forall t: TokenLimit ensures ParseLimit(LimitItem(t)) == Some(t) {
      IntExact(t.limit, Bytes([]));
      IntExact(t.period, Bytes([]));
    }
    forall x: Item | ParseLimit(x).Some? ensures LimitItem(ParseLimit(x).value) == x {
      IntExact(0, x.items[1]);
      if |x.items| == 3 {
        IntExact(0, x.items[2]);
        assert x.items == [x.items[0], x.items[1], x.items[2]];
      } else {
        assert x.items == [x.items[0], x.items[1]];
      }
    }
  }

  lemma {:induction false} RuleExact()
    ensures Exact(RULE)
  {
    LeavesExact();
    forall r: SelectorRule ensures ParseRule(RuleItem(r)) == Some(r) {
      ListExact(ADDRESS, r.recipients, Bytes([]));
    }
    forall x: Item | ParseRule(x).Some? ensures RuleItem(ParseRule(x).value) == x {
      ListExact(ADDRESS, [], x.items[1]);
      assert x.items == [x.items[0], x.items[1]];
    }
  }

  lemma {:induction false} ScopeExact()
    ensures Exact(SCOPE)
  {
    RuleExact();
    forall w: WireScope ensures ParseScope(WireScopeItem(w)) == Some(w) {
      ListExact(RULE, w.rules, Bytes([]));
    }
    forall x: Item | ParseScope(x).Some? ensures WireScopeItem(ParseScope(x).value) == x {
      ListExact(RULE, [], x.items[1]);
      assert x.items == [x.items[0], x.items[1]];
    }
  }

  lemma {:induction false} IntCodecExact()
    ensures Exact(INT)
  {
    forall n: nat ensures GetInt(PutInt(n)) == Some(n) {
      IntExact(n, Bytes([]));
    }
    forall x: Item | GetInt(x).Some? ensures PutInt(GetInt(x).value) == x {
      IntExact(0, x);
    }
  }

  lemma {:induction false} ScopeItemsAreFolded(ss: seq<CallScope>)
    ensures ScopeItems(ss) == PutAll(SCOPE, FoldAll(ss))
  {
    if ss == [] {
    } else {
      ScopeItemsAreFolded(ss[1..]);
      assert FoldAll(ss)[1..] == FoldAll(ss[1..]);
    }
  }

  // ---------------------------------------------------------------- the trailing layout

  /** No later optional is present. */
  ghost predicate AbsentFrom(os: seq<Option<Item>>, n: nat) {
    forall i :: n <= i < |os| ==> os[i].None?
  }

  /** `Trailing` stops right after the last present optional and fills the gaps. */
  lemma {:induction false} TrailingShape(os: seq<Option<Item>>)
    ensures |Trailing(os)| <= |os|
    ensures AbsentFrom(os, |Trailing(os)|)
    ensures Trailing(os) != [] ==> os[|Trailing(os)| - 1].Some?
    ensures forall i :: 0 <= i < |Trailing(os)| ==> Trailing(os)[i] == os[i].GetOr(Bytes([]))
  {
    if os == [] {
    } else if os[|os| - 1].None? {
      TrailingShape(os[..|os| - 1]);
    }
  }

  ghost predicate NeverEmptyString(os: seq<Option<Item>>) {
    forall i :: 0 <= i < |os| ==> os[i] != Some(Bytes([]))
  }

  /** Reading the slots back gives every optional, and the last item is never the empty string. */
  lemma {:induction false} SlotsOfTrailing(os: seq<Option<Item>>)
    requires NeverEmptyString(os)
    ensures forall i :: 0 <= i < |os| ==> Slot(Trailing(os), i) == os[i]
    ensures Trailing(os) != [] ==> Trailing(os)[|Trailing(os)| - 1] != Bytes([])
  {
    TrailingShape(os);
  }

  /** Conversely the slots of a list that does not end in the empty string give that list back. */
  lemma {:induction false} TrailingOfSlots(tail: seq<Item>, os: seq<Option<Item>>)
    requires |tail| <= |os|
    requires tail != [] ==> tail[|tail| - 1] != Bytes([])
    requires forall i :: 0 <= i < |os| ==> os[i] == Slot(tail, i)
    ensures Trailing(os) == tail
  {
    TrailingShape(os);
    var t := Trailing(os);
    if tail != [] {
      assert os[|tail| - 1].Some?;
    }
    if t != [] {
      assert os[|t| - 1].Some?;
    }
    assert |t| == |tail|;
  }

  lemma {:induction false} OptionalsNeverEmptyString(a: KeyAuthorization)
    ensures NeverEmptyString(Optionals(a))
  {
    ScalarBytesValue(a.expiry);
    ScalarBytesValue(1);
  }

  /** `to_rlp` writes 3 to 9 items and never ends in the empty-string placeholder. */
  lemma {:induction false} ToRlpShape(a: KeyAuthorization)
    ensures 3 <= |ToRlp(a).items| <= 9
    ensures |ToRlp(a).items| > 3 ==> ToRlp(a).items[|ToRlp(a).items| - 1] != Bytes([])
    ensures forall i :: 0 <= i < 6 ==> Slot(ToRlp(a).items[3..], i) == Optionals(a)[i]
  {
    OptionalsNeverEmptyString(a);
    TrailingShape(Optionals(a));
    SlotsOfTrailing(Optionals(a));
    assert ToRlp(a).items[3..] == Trailing(Optionals(a));
  }

  /**
   Every other list with the same three mandatory items and the same meaning in every trailing slot
   is `to_rlp`'s list with placeholders appended: `to_rlp` writes the shortest one.
   */
  lemma {:induction false} ToRlpIsShortest(a: KeyAuthorization, items: seq<Item>)
    requires |items| >= 3 && items[..3] == ToRlp(a).items[..3]
    requires forall i: nat :: Slot(items[3..], i) == Slot(ToRlp(a).items[3..], i)
    ensures ToRlp(a).items <= items
    ensures forall i :: |ToRlp(a).items| <= i < |items| ==> items[i] == Bytes([])
  {
    ToRlpShape(a);
    var xs := ToRlp(a).items;
    var n := |xs|;
    if n > 3 {
      assert Slot(xs[3..], n - 4).Some?;
      assert Slot(items[3..], n - 4).Some?;
      assert n <= |items|;
    }
    forall i | 3 <= i < n ensures items[i] == xs[i] {
      assert Slot(items[3..], i - 3) == Slot(xs[3..], i - 3);
      assert xs[3..][i - 3] == xs[i] && items[3..][i - 3] == items[i];
    }
    forall i | 0 <= i < 3 ensures items[i] == xs[i] {
      assert items[..3][i] == xs[..3][i];
    }
    forall i | n <= i < |items| ensures items[i] == Bytes([]) {
      assert Slot(items[3..], i - 3) == Slot(xs[3..], i - 3);
      assert items[3..][i - 3] == items[i];
    }
  }

  // ---------------------------------------------------------------- round trip

  lemma {:induction false} LimitsRead(a: KeyAuthorization)
    ensures GetListSlot(LIMIT, Optionals(a)[1]) == Some(a.limits)
  {
    if a.limits.Some? {
      LimitExact();
      ListExact(LIMIT, a.limits.value, Bytes([]));
    }
  }

  lemma {:induction false} CallsRead(a: KeyAuthorization)
    ensures GetListSlot(SCOPE, Optionals(a)[2]) == Some(ToWire(a).allowedCalls)
  {
    if a.allowedCalls.Some? {
      ScopeExact();
      ScopeItemsAreFolded(a.allowedCalls.value);
      ListExact(SCOPE, FoldAll(a.allowedCalls.value), Bytes([]));
    }
  }

  lemma {:induction false} ScalarsRead(a: KeyAuthorization)
    ensures GetSlot(INT, Optionals(a)[0]) == Some(if a.expiry == 0 then None else Some(a.expiry))
    ensures GetSlot(BYTES32, Optionals(a)[3]) == Some(if a.witnessBytes == [] then None else Some(a.witnessBytes))
    ensures GetSlot(INT, Optionals(a)[4]) == Some(if a.isAdmin then Some(1) else None)
    ensures GetSlot(ADDRESS20, Optionals(a)[5]) == Some(a.account)
  {
    IntCodecExact();
  }

  lemma {:induction false} HeadReads(a: KeyAuthorization)
    ensures var xs := ToRlp(a).items;
            && |xs| >= 3
            && GetInt(xs[0]) == Some(a.chainId)
            && GetInt(xs[1]) == Some(a.keyType)
            && GetAddress20(xs[2]) == Some(a.keyId)
  {
    IntExact(a.chainId, Bytes([]));
    IntExact(a.keyType, Bytes([]));
    var xs := ToRlp(a).items;
    assert xs[0] == PutInt(a.chainId) && xs[1] == PutInt(a.keyType) && xs[2] == Bytes(a.keyId);
  }

  /** What the six slots of the written list read as */
  lemma {:induction false} TailReads(a: KeyAuthorization)
    ensures |ToRlp(a).items| >= 3
    ensures var tail, w := ToRlp(a).items[3..], ToWire(a);
            && GetSlot(INT, Slot(tail, 0)) == Some(if w.expiry == 0 then None else Some(w.expiry))
            && GetListSlot(LIMIT, Slot(tail, 1)) == Some(w.limits)
            && GetListSlot(SCOPE, Slot(tail, 2)) == Some(w.allowedCalls)
            && GetSlot(BYTES32, Slot(tail, 3)) == Some(if w.witnessBytes == [] then None else Some(w.witnessBytes))
            && GetSlot(INT, Slot(tail, 4)) == Some(if w.isAdmin then Some(1) else None)
            && GetSlot(ADDRESS20, Slot(tail, 5)) == Some(w.account)
  {
    ToRlpShape(a);
    LimitsRead(a);
    CallsRead(a);
    ScalarsRead(a);
  }

  /** `to_rlp` has a left inverse on every authorization, up to the selector fold. */
  lemma {:induction false} ParseOfToRlp(a: KeyAuthorization)
    ensures ParseWire(ToRlp(a)) == Some(ToWire(a))
  {
    ToRlpShape(a);
    HeadReads(a);
    TailReads(a);
    var xs := ToRlp(a).items;
    assert xs[3..] != [] ==> xs[3..][|xs[3..]| - 1] == xs[|xs| - 1];
  }

  function Unfold(w: WireScope): CallScope {
    CallScope(w.target, ZERO_SELECTOR, w.rules)
  }

  function UnfoldAll(ws: seq<WireScope>): (ss: seq<CallScope>)
    ensures FoldAll(ss) == ws
  {
    seq(|ws|, i requires 0 <= i < |ws| => Unfold(ws[i]))
  }

  predicate ValidWire(w: Wire) {
    && (|w.witnessBytes| == 0 || |w.witnessBytes| == 32)
    && (w.isAdmin ==> w.expiry == 0 && w.limits.None? && w.allowedCalls.None?)
  }

  /** The authorization with zero selectors that a wire form stands for */
  function FromWire(w: Wire): KeyAuthorization
    requires ValidWire(w)
  {
    KeyAuthorization(w.keyId, w.chainId, w.account, w.keyType, w.expiry, w.limits,
                     if w.allowedCalls.None? then None else Some(UnfoldAll(w.allowedCalls.value)),
                     w.witnessBytes, w.isAdmin)
  }

  lemma {:induction false} IntSlotBack(slot: Option<Item>)
    requires slot != Some(Bytes([])) && GetSlot(INT, slot).Some?
    ensures var o := GetSlot(INT, slot).value;
            slot == if o.None? then None else Some(PutInt(o.value))
    ensures GetSlot(INT, slot).value != Some(0)
  {
    IntCodecExact();
    if slot.Some? {
      ScalarBytesOfValue(slot.value.bs);
    }
  }

  lemma {:induction false} ListSlotBack<T(!new)>(c: Codec<T>, slot: Option<Item>)
    requires Exact(c) && GetListSlot(c, slot).Some?
    ensures var o := GetListSlot(c, slot).value;
            slot == if o.None? then None else Some(PutList(c, o.value))
  {
    if slot.Some? {
      ListExact(c, [], slot.value);
    }
  }

  /** What an accepted item list says, slot by slot */
  lemma {:induction false} SlotsOfParse(x: Item)
    requires ParseWire(x).Some?
    ensures ValidWire(ParseWire(x).value)
    ensures var w, tail := ParseWire(x).value, x.items[3..];
            && GetSlot(INT, Slot(tail, 0)).Some? && w.expiry == GetSlot(INT, Slot(tail, 0)).value.GetOr(0)
            && GetListSlot(LIMIT, Slot(tail, 1)) == Some(w.limits)
            && GetListSlot(SCOPE, Slot(tail, 2)) == Some(w.allowedCalls)
            && Slot(tail, 3) == (if w.witnessBytes == [] then None else Some(Bytes(w.witnessBytes)))
            && GetSlot(INT, Slot(tail, 4)) == Some(if w.isAdmin then Some(1) else None)
            && Slot(tail, 5) == (if w.account.None? then None else Some(Bytes(w.account.value)))
  {
  }

  /** The optionals of the authorization a wire form stands for */
  lemma {:induction false} OptionalsOfWire(w: Wire)
    requires ValidWire(w)
    ensures Optionals(FromWire(w)) ==
            [ if w.expiry == 0 then None else Some(PutInt(w.expiry)),
              if w.limits.None? then None else Some(PutList(LIMIT, w.limits.value)),
              if w.allowedCalls.None? then None else Some(PutList(SCOPE, w.allowedCalls.value)),
              if w.witnessBytes == [] then None else Some(Bytes(w.witnessBytes)),
              if w.isAdmin then Some(PutInt(1)) else None,
              if w.account.None? then None else Some(Bytes(w.account.value)) ]
  {
    if w.allowedCalls.Some? {
      ScopeItemsAreFolded(UnfoldAll(w.allowedCalls.value));
    }
  }

  lemma {:induction false} OptionalsOfParse(x: Item)
    requires ParseWire(x).Some?
    ensures ValidWire(ParseWire(x).value)
    ensures var tail := x.items[3..];
            Optionals(FromWire(ParseWire(x).value)) ==
            [Slot(tail, 0), Slot(tail, 1), Slot(tail, 2), Slot(tail, 3), Slot(tail, 4), Slot(tail, 5)]
  {
    SlotsOfParse(x);
    var w, tail := ParseWire(x).value, x.items[3..];
    OptionalsOfWire(w);
    IntSlotBack(Slot(tail, 0));
    LimitExact();
    ListSlotBack(LIMIT, Slot(tail, 1));
    ScopeExact();
    ListSlotBack(SCOPE, Slot(tail, 2));
    IntSlotBack(Slot(tail, 4));
  }

  lemma {:induction false} TailOfParse(x: Item)
    requires ParseWire(x).Some?
    ensures ValidWire(ParseWire(x).value)
    ensures Trailing(Optionals(FromWire(ParseWire(x).value))) == x.items[3..]
  {
    OptionalsOfParse(x);
    var tail := x.items[3..];
    var os := [Slot(tail, 0), Slot(tail, 1), Slot(tail, 2), Slot(tail, 3), Slot(tail, 4), Slot(tail, 5)];
    TrailingOfSlots(tail, os);
  }

  lemma {:induction false} HeadOfParse(x: Item)
    requires ParseWire(x).Some?
    ensures var w := ParseWire(x).value;
            x.items[..3] == [PutInt(w.chainId), PutInt(w.keyType), Bytes(w.keyId)]
  {
    IntExact(0, x.items[0]);
    IntExact(0, x.items[1]);
  }

  lemma {:induction false} ToWireOfFromWire(w: Wire)
    requires ValidWire(w)
    ensures ToWire(FromWire(w)) == w
  {
  }

  /** Every item list the parser accepts is `to_rlp` of a valid authorization with that wire form. */
  lemma {:induction false} ToRlpOfParse(x: Item)
    requires ParseWire(x).Some?
    ensures ValidWire(ParseWire(x).value)
    ensures ToRlp(FromWire(ParseWire(x).value)) == x
    ensures ToWire(FromWire(ParseWire(x).value)) == ParseWire(x).value
  {
    TailOfParse(x);
    HeadOfParse(x);
    ToWireOfFromWire(ParseWire(x).value);
    assert x.items == x.items[..3] + x.items[3..];
  }

  /** `None` (unlimited) and `()` (deny all) are different on the wire, for limits and for calls. */
  lemma {:induction false} NoneIsNotEmpty(a: KeyAuthorization, b: KeyAuthorization)
    requires ToRlp(a) == ToRlp(b)
    ensures a.limits == b.limits
    ensures a.allowedCalls.None? <==> b.allowedCalls.None?
    ensures a.allowedCalls == Some([]) <==> b.allowedCalls == Some([])
  {
    ParseOfToRlp(a);
    ParseOfToRlp(b);
    if a.allowedCalls.Some? && b.allowedCalls.Some? {
      assert |FoldAll(a.allowedCalls.value)| == |FoldAll(b.allowedCalls.value)|;
    }
  }

  // ---------------------------------------------------------------- what bytes and wire forms identify

  /** The bytes are the same exactly when the wire forms are: nothing but the fold is lost. */
  lemma {:induction false} SameBytesIffSameWire(a: KeyAuthorization, b: KeyAuthorization)
    requires Encode(ToRlp(a)).Some?
    ensures Encode(ToRlp(a)) == Encode(ToRlp(b)) <==> ToWire(a) == ToWire(b)
  {
    ParseOfToRlp(a);
    ParseOfToRlp(b);
    if ToWire(a) == ToWire(b) {
      ToRlpOfParse(ToRlp(a));
      ToRlpOfParse(ToRlp(b));
    } else if Encode(ToRlp(a)) == Encode(ToRlp(b)) {
      EncodeInjective(ToRlp(a), ToRlp(b));
    }
  }

  /** Exactly which scopes the fold identifies */
  lemma {:induction false} FoldIdentifiesIff(s: CallScope, t: CallScope)
    ensures Fold(s) == Fold(t) <==>
            && s.target == t.target
            && if s.selectorRules == [] && t.selectorRules == [] then s.selector == t.selector
               else if s.selectorRules == [] then
                 s.selector != [0, 0, 0, 0] && t.selectorRules == [SelectorRule(s.selector, [])]
               else if t.selectorRules == [] then
                 t.selector != [0, 0, 0, 0] && s.selectorRules == [SelectorRule(t.selector, [])]
               else s.selectorRules == t.selectorRules
  {
    if Fold(s) == Fold(t) {
      assert s.selectorRules == [] && s.selector != [0, 0, 0, 0] ==> Fold(s).rules[0].selector == s.selector;
      assert t.selectorRules == [] && t.selector != [0, 0, 0, 0] ==> Fold(t).rules[0].selector == t.selector;
    }
  }

  // ---------------------------------------------------------------- size

  /** An authorization can be encoded exactly when its items take fewer than 2^64 bytes. */
  lemma {:induction false} AuthorizationEncodesIff(a: KeyAuthorization)
    ensures Encode(ToRlp(a)).Some? <==> LengthAll(ToRlp(a).items) < LENGTH_LIMIT
  {
    EncodeExistsIff(ToRlp(a));
  }
}
