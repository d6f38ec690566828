/**
 What key authorizations permit (`tempo/keychain.py`), under the reading `to_rlp` encodes and under
 the reading the class documentation gives, and for which authorizations the wire keeps either.
 */
module Permissions {
  import opened Outcomes
  import opened ByteStrings
  import opened Rlp
  import opened Codecs
  import opened Authorization

  // ---------------------------------------------------------------- permissions

  /** A rule lets its selector through, to the listed recipients or, if none is listed, to all. */
  ghost predicate RuleAllows(r: SelectorRule, selector: Selector, recipient: Address) {
    r.selector == selector && (r.recipients == [] || recipient in r.recipients)
  }

  /**
   The reading of a scope that `to_rlp` encodes: one with rules is governed by them alone; without
   rules its own selector decides, and the zero selector stands for any function.
   */
  ghost predicate ScopeAllows(s: CallScope, target: Address20, selector: Selector, recipient: Address) {
    && s.target == target
    && if s.selectorRules == [] then s.selector == [0, 0, 0, 0] || s.selector == selector
       else exists r :: r in s.selectorRules && RuleAllows(r, selector, recipient)
  }

  ghost predicate Allows(a: KeyAuthorization, target: Address20, selector: Selector, recipient: Address) {
    a.allowedCalls.Some? ==>
      exists s :: s in a.allowedCalls.value && ScopeAllows(s, target, selector, recipient)
  }

  /** What the wire form says: no rules means every function on the target. */
  ghost predicate WireScopeAllows(w: WireScope, target: Address20, selector: Selector, recipient: Address) {
    && w.target == target
    && (w.rules == [] || exists r :: r in w.rules && RuleAllows(r, selector, recipient))
  }

  ghost predicate WireAllows(w: Wire, target: Address20, selector: Selector, recipient: Address) {
    w.allowedCalls.Some? ==>
      exists s :: s in w.allowedCalls.value && WireScopeAllows(s, target, selector, recipient)
  }

  /** Folding a selector into a rule changes nothing under that reading. */
  lemma {:induction false} FoldKeepsScope(s: CallScope, target: Address20, selector: Selector, recipient: Address)
    ensures ScopeAllows(s, target, selector, recipient) <==> WireScopeAllows(Fold(s), target, selector, recipient)
  {
    if s.selectorRules == [] && s.selector != [0, 0, 0, 0] {
      var r := SelectorRule(s.selector, []);
      assert Fold(s).rules == [r];
      assert r in Fold(s).rules;
    }
  }

  /**
   What the scope constructors encode: `unrestricted` every call on its target, `with_selector` the calls
   of its selector, and with a rule for that selector the calls to the recipients the rule lists.
   */
  lemma {:induction false} ConstructorsEncode(scope: CallScope, recipients: seq<Address>,
                                              target: Address20, selector: Selector, recipient: Address)
    requires scope.selectorRules == []
    ensures WireScopeAllows(Fold(scope), target, selector, recipient) <==>
            target == scope.target && (scope.selector == [0, 0, 0, 0] || selector == scope.selector)
    ensures var restricted := scope.(selectorRules := [SelectorRule(scope.selector, recipients)]);
            WireScopeAllows(Fold(restricted), target, selector, recipient) <==>
            target == scope.target && selector == scope.selector && (recipients == [] || recipient in recipients)
  {
    FoldKeepsScope(scope, target, selector, recipient);
    var r := SelectorRule(scope.selector, recipients);
    assert r in [r];
  }

  /** `None` permits every call and the empty tuple none, also after encoding. */
  lemma {:induction false} UnrestrictedOrNothing(a: KeyAuthorization, target: Address20,
                                                 selector: Selector, recipient: Address)
    ensures a.allowedCalls.None? ==> WireAllows(ToWire(a), target, selector, recipient)
    ensures a.allowedCalls == Some([]) ==> !WireAllows(ToWire(a), target, selector, recipient)
  {
  }

  lemma {:induction false} WireKeepsPermissions(a: KeyAuthorization, target: Address20,
                                                selector: Selector, recipient: Address)
    ensures Allows(a, target, selector, recipient) <==> WireAllows(ToWire(a), target, selector, recipient)
  {
    if a.allowedCalls.Some? {
      var ss := a.allowedCalls.value;
      var ws := FoldAll(ss);
      forall i | 0 <= i < |ss|
        ensures ScopeAllows(ss[i], target, selector, recipient) <==> WireScopeAllows(ws[i], target, selector, recipient)
      {
        FoldKeepsScope(ss[i], target, selector, recipient);
      }
      if Allows(a, target, selector, recipient) {
        var s :| s in ss && ScopeAllows(s, target, selector, recipient);
        var i :| 0 <= i < |ss| && ss[i] == s;
        assert ws[i] in ws;
      }
      if WireAllows(ToWire(a), target, selector, recipient) {
        var w :| w in ws && WireScopeAllows(w, target, selector, recipient);
        var i :| 0 <= i < |ws| && ws[i] == w;
        assert ss[i] in ss;
      }
    }
  }

  /**
   Authorizations with the same bytes, which is the same signature hash pre-image, agree on every
   field but the top-level selectors and permit the same calls under the reading `to_rlp` encodes.
   */
  lemma {:induction false} SameBytesSamePermissions(a: KeyAuthorization, b: KeyAuthorization,
                                 target: Address20, selector: Selector, recipient: Address)
    requires Encode(ToRlp(a)).Some? && Encode(ToRlp(a)) == Encode(ToRlp(b))
    ensures a.keyId == b.keyId && a.chainId == b.chainId && a.account == b.account
    ensures a.keyType == b.keyType && a.expiry == b.expiry && a.limits == b.limits
    ensures a.witnessBytes == b.witnessBytes && a.isAdmin == b.isAdmin
    ensures Allows(a, target, selector, recipient) <==> Allows(b, target, selector, recipient)
  {
    EncodeInjective(ToRlp(a), ToRlp(b));
    ParseOfToRlp(a);
    ParseOfToRlp(b);
    WireKeepsPermissions(a, target, selector, recipient);
    WireKeepsPermissions(b, target, selector, recipient);
  }

  // ---------------------------------------------------------------- the documented role of the selector

  /** The scope's own selector is zero, which stands for any function, or the one called. */
  predicate Gate(s: CallScope, selector: Selector) {
    s.selector == [0, 0, 0, 0] || s.selector == selector
  }

  /**
   The reading of the class documentation and of `with_selector`: the scope allows its own selector,
   optionally restricted by the rules.
   */
  ghost predicate DocumentedScope(s: CallScope, target: Address20, selector: Selector, recipient: Address) {
    && s.target == target
    && Gate(s, selector)
    && (s.selectorRules == [] || exists r :: r in s.selectorRules && RuleAllows(r, selector, recipient))
  }

  /** The wire keeps the rules of the documented reading and drops the selector beside them. */
  lemma {:induction false} DocumentedIsWireAndGate(s: CallScope, target: Address20,
                                                   selector: Selector, recipient: Address)
    ensures DocumentedScope(s, target, selector, recipient) <==>
            WireScopeAllows(Fold(s), target, selector, recipient) && Gate(s, selector)
  {
    FoldKeepsScope(s, target, selector, recipient);
  }

  /** A recipient the rule lets through */
  function SomeRecipient(r: SelectorRule): Address {
    if r.recipients == [] then [] else r.recipients[0]
  }

  lemma {:induction false} FoldedRuleIsGranted(s: CallScope, r: SelectorRule)
    requires r in FoldedRules(s)
    ensures WireScopeAllows(Fold(s), s.target, r.selector, SomeRecipient(r))
  {
    assert r in Fold(s).rules && RuleAllows(r, r.selector, SomeRecipient(r));
  }

  /** What is encoded permits exactly what is documented. */
  ghost predicate WireAsDocumented(s: CallScope) {
    forall target: Address20, selector: Selector, recipient: Address ::
      DocumentedScope(s, target, selector, recipient) <==> WireScopeAllows(Fold(s), target, selector, recipient)
  }

  /**
   The encoding grants what the documentation says exactly for scopes without rules, with the zero
   selector, or whose rules all name the scope's own selector.
   */
  lemma {:induction false} WireAsDocumentedIff(s: CallScope)
    ensures WireAsDocumented(s) <==>
            || s.selectorRules == []
            || s.selector == [0, 0, 0, 0]
            || forall r :: r in s.selectorRules ==> r.selector == s.selector
  {
    forall target: Address20, selector: Selector, recipient: Address
      ensures DocumentedScope(s, target, selector, recipient) <==>
              WireScopeAllows(Fold(s), target, selector, recipient) && Gate(s, selector)
    {
      DocumentedIsWireAndGate(s, target, selector, recipient);
    }
    if WireAsDocumented(s) {
      forall r | r in FoldedRules(s)
        ensures Gate(s, r.selector)
      {
        FoldedRuleIsGranted(s, r);
        assert DocumentedScope(s, s.target, r.selector, SomeRecipient(r));
      }
    }
  }

  ghost predicate ScopesAgree(s: CallScope, t: CallScope) {
    forall target: Address20, selector: Selector, recipient: Address ::
      DocumentedScope(s, target, selector, recipient) <==> DocumentedScope(t, target, selector, recipient)
  }

  /** The selectors of two scopes let the same encoded rules through. */
  ghost predicate SameGates(s: CallScope, t: CallScope) {
    forall r :: r in FoldedRules(s) ==> (Gate(s, r.selector) <==> Gate(t, r.selector))
  }

  /** Two scopes with one wire form are documented alike exactly when they gate its rules alike. */
  lemma {:induction false} SameWireDocumentedAlikeIff(s: CallScope, t: CallScope)
    requires Fold(s) == Fold(t)
    ensures ScopesAgree(s, t) <==> SameGates(s, t)
  {
    if SameGates(s, t) {
      forall target: Address20, selector: Selector, recipient: Address
        ensures DocumentedScope(s, target, selector, recipient) <==> DocumentedScope(t, target, selector, recipient)
      {
        DocumentedIsWireAndGate(s, target, selector, recipient);
        DocumentedIsWireAndGate(t, target, selector, recipient);
        if Fold(s).rules != [] && WireScopeAllows(Fold(s), target, selector, recipient) {
          var r :| r in Fold(s).rules && RuleAllows(r, selector, recipient);
          assert r in FoldedRules(s) && r.selector == selector;
        }
      }
    }
    if ScopesAgree(s, t) {
      forall r | r in FoldedRules(s)
        ensures Gate(s, r.selector) <==> Gate(t, r.selector)
      {
        FoldedRuleIsGranted(s, r);
        DocumentedIsWireAndGate(s, s.target, r.selector, SomeRecipient(r));
        DocumentedIsWireAndGate(t, s.target, r.selector, SomeRecipient(r));
      }
    }
  }

  /** Some scope of the list is documented to allow the call. */
  ghost predicate Documented(ss: seq<CallScope>, target: Address20, selector: Selector, recipient: Address) {
    exists i :: 0 <= i < |ss| && DocumentedScope(ss[i], target, selector, recipient)
  }

  ghost predicate DocumentedAllows(a: KeyAuthorization, target: Address20, selector: Selector, recipient: Address) {
    a.allowedCalls.Some? ==> Documented(a.allowedCalls.value, target, selector, recipient)
  }

  ghost predicate DocumentedAlike(a: KeyAuthorization, b: KeyAuthorization) {
    forall target: Address20, selector: Selector, recipient: Address ::
      DocumentedAllows(a, target, selector, recipient) <==> DocumentedAllows(b, target, selector, recipient)
  }

  /** Scope by scope, the two authorizations gate the encoded rules alike. */
  ghost predicate GatedAlike(a: KeyAuthorization, b: KeyAuthorization) {
    a.allowedCalls.Some? && b.allowedCalls.Some? ==>
      forall i :: 0 <= i < |a.allowedCalls.value| && i < |b.allowedCalls.value| ==>
        SameGates(a.allowedCalls.value[i], b.allowedCalls.value[i])
  }

  predicate DistinctTargets(a: KeyAuthorization) {
    a.allowedCalls.Some? ==>
      forall i, j :: 0 <= i < j < |a.allowedCalls.value| ==>
        a.allowedCalls.value[i].target != a.allowedCalls.value[j].target
  }

  lemma {:induction false} ScopesShareWire(a: KeyAuthorization, b: KeyAuthorization)
    requires ToWire(a) == ToWire(b) && a.allowedCalls.Some?
    ensures b.allowedCalls.Some? && |b.allowedCalls.value| == |a.allowedCalls.value|
    ensures forall i :: 0 <= i < |a.allowedCalls.value| ==>
              Fold(a.allowedCalls.value[i]) == Fold(b.allowedCalls.value[i])
  {
    assert FoldAll(a.allowedCalls.value) == FoldAll(b.allowedCalls.value);
    forall i | 0 <= i < |a.allowedCalls.value|
      ensures Fold(a.allowedCalls.value[i]) == Fold(b.allowedCalls.value[i])
    {
      assert FoldAll(a.allowedCalls.value)[i] == FoldAll(b.allowedCalls.value)[i];
    }
  }

  /** Authorizations with the same bytes that gate the encoded rules alike are documented alike. */
  lemma {:induction false} GatedAlikeSuffices(a: KeyAuthorization, b: KeyAuthorization)
    requires ToWire(a) == ToWire(b) && GatedAlike(a, b)
    ensures DocumentedAlike(a, b)
  {
    if a.allowedCalls.Some? {
      ScopesShareWire(a, b);
      var n := |a.allowedCalls.value|;
      forall i | 0 <= i < n
        ensures ScopesAgree(a.allowedCalls.value[i], b.allowedCalls.value[i])
      {
        SameWireDocumentedAlikeIff(a.allowedCalls.value[i], b.allowedCalls.value[i]);
      }
    }
  }

  lemma {:induction false} OnlyScopeOfTarget(a: KeyAuthorization, i: nat, selector: Selector, recipient: Address)
    requires DistinctTargets(a) && a.allowedCalls.Some? && i < |a.allowedCalls.value|
    ensures var s := a.allowedCalls.value[i];
            DocumentedAllows(a, s.target, selector, recipient) <==> DocumentedScope(s, s.target, selector, recipient)
  {
  }

  // ---------------------------------------------------------------- scopes that repeat a target

  /** A scope of the list lets every recipient through, by its selector and an encoded rule or by having no rule. */
  ghost predicate Open(ss: seq<CallScope>, target: Address20, selector: Selector) {
    exists i :: 0 <= i < |ss| && OpenScope(ss[i], target, selector)
  }

  ghost predicate OpenScope(s: CallScope, target: Address20, selector: Selector) {
    && s.target == target
    && Gate(s, selector)
    && (FoldedRules(s) == [] || SelectorRule(selector, []) in FoldedRules(s))
  }

  /** What one encoded rule says about its target is documented alike by the two lists. */
  ghost predicate RuleAlike(ss: seq<CallScope>, ts: seq<CallScope>, target: Address20, r: SelectorRule) {
    && (r.recipients == [] ==> (Open(ss, target, r.selector) <==> Open(ts, target, r.selector)))
    && (forall p :: p in r.recipients ==>
          (Documented(ss, target, r.selector, p) <==> Documented(ts, target, r.selector, p)))
  }

  /** Rule by rule: the calls the rules list, and the openness of the rules that list no recipient */
  ghost predicate RulesAlike(ss: seq<CallScope>, ts: seq<CallScope>) {
    forall i, r :: 0 <= i < |ss| && r in FoldedRules(ss[i]) ==> RuleAlike(ss, ts, ss[i].target, r)
  }

  predicate SameFolds(ss: seq<CallScope>, ts: seq<CallScope>) {
    |ss| == |ts| && forall i :: 0 <= i < |ss| ==> Fold(ss[i]) == Fold(ts[i])
  }

  lemma {:induction false} OpenAllowsAll(ss: seq<CallScope>, target: Address20, selector: Selector, recipient: Address)
    requires Open(ss, target, selector)
    ensures Documented(ss, target, selector, recipient)
  {
    var i :| 0 <= i < |ss| && OpenScope(ss[i], target, selector);
    DocumentedIsWireAndGate(ss[i], target, selector, recipient);
    if FoldedRules(ss[i]) != [] {
      assert SelectorRule(selector, []) in Fold(ss[i]).rules
          && RuleAllows(SelectorRule(selector, []), selector, recipient);
    }
  }

  lemma {:induction false} RulesAlikeCarries(ss: seq<CallScope>, ts: seq<CallScope>, target: Address20,
                                             selector: Selector, recipient: Address)
    requires SameFolds(ss, ts) && RulesAlike(ss, ts) && Documented(ss, target, selector, recipient)
    ensures Documented(ts, target, selector, recipient)
  {
    var i :| 0 <= i < |ss| && DocumentedScope(ss[i], target, selector, recipient);
    DocumentedIsWireAndGate(ss[i], target, selector, recipient);
    if FoldedRules(ss[i]) == [] {
      DocumentedIsWireAndGate(ts[i], target, selector, recipient);
      assert Fold(ts[i]).rules == [] && Fold(ts[i]).target == target;
    } else {
      var r :| r in Fold(ss[i]).rules && RuleAllows(r, selector, recipient);
      assert RuleAlike(ss, ts, ss[i].target, r);
      if r.recipients == [] {
        assert r == SelectorRule(selector, []) && OpenScope(ss[i], target, selector);
        OpenAllowsAll(ts, target, selector, recipient);
      }
    }
  }

  lemma {:induction false} RulesAlikeBack(ss: seq<CallScope>, ts: seq<CallScope>)
    requires SameFolds(ss, ts) && RulesAlike(ss, ts)
    ensures SameFolds(ts, ss) && RulesAlike(ts, ss)
  {
    forall i, r | 0 <= i < |ts| && r in FoldedRules(ts[i])
      ensures RuleAlike(ts, ss, ts[i].target, r)
    {
      assert r in Fold(ss[i]).rules && Fold(ss[i]).target == ts[i].target;
      assert RuleAlike(ss, ts, ss[i].target, r);
    }
  }

  // A recipient that no rule lists exists, because the lists together are shorter than 2^64.

  function RuleRecipients(rs: seq<SelectorRule>): seq<Address> {
    if rs == [] then [] else rs[0].recipients + RuleRecipients(rs[1..])
  }

  function ListedRecipients(ss: seq<CallScope>): seq<Address> {
    if ss == [] then [] else RuleRecipients(FoldedRules(ss[0])) + ListedRecipients(ss[1..])
  }

  lemma {:induction false} RuleRecipientsHold(rs: seq<SelectorRule>, r: SelectorRule)
    requires r in rs
    ensures forall p :: p in r.recipients ==> p in RuleRecipients(rs)
    decreases |rs|
  {
    if r != rs[0] {
      RuleRecipientsHold(rs[1..], r);
    }
  }

  lemma {:induction false} ListedRecipientsHold(ss: seq<CallScope>, i: nat, r: SelectorRule)
    requires i < |ss| && r in FoldedRules(ss[i])
    ensures forall p :: p in r.recipients ==> p in ListedRecipients(ss)
    decreases |ss|
  {
    if i == 0 {
      RuleRecipientsHold(FoldedRules(ss[0]), r);
    } else {
      ListedRecipientsHold(ss[1..], i - 1, r);
    }
  }

  lemma {:induction false} RuleRecipientsLength(rs: seq<SelectorRule>)
    ensures |RuleRecipients(rs)| <= LengthAll(PutAll(RULE, rs))
  {
    if rs == [] {
    } else {
      RuleRecipientsLength(rs[1..]);
      var xs := RuleItem(rs[0]).items;
      LengthAllAtLeast(PutAll(ADDRESS, rs[0].recipients));
      LengthAllAtLeast(xs);
      assert Length(xs[1]) >= |rs[0].recipients|;
      assert PutAll(RULE, rs)[1..] == PutAll(RULE, rs[1..]);
    }
  }

  lemma {:induction false} ListedRecipientsLength(ss: seq<CallScope>)
    ensures |ListedRecipients(ss)| <= LengthAll(ScopeItems(ss))
  {
    if ss == [] {
    } else {
      ListedRecipientsLength(ss[1..]);
      RuleRecipientsLength(FoldedRules(ss[0]));
      var xs := ScopeItem(ss[0]).items;
      LengthAllAtLeast(xs);
      assert Length(xs[1]) >= |RuleRecipients(FoldedRules(ss[0]))|;
      assert ScopeItems(ss)[1..] == ScopeItems(ss[1..]);
    }
  }

  /** The recipients an encodable authorization lists are fewer than 2^64. */
  lemma {:induction false} FewRecipients(a: KeyAuthorization)
    requires Encode(ToRlp(a)).Some? && a.allowedCalls.Some?
    ensures |ListedRecipients(a.allowedCalls.value)| < LENGTH_LIMIT
  {
    var xs := ToRlp(a).items;
    AuthorizationEncodesIff(a);
    TrailingShape(Optionals(a));
    assert Optionals(a)[2].Some? && xs[5] == Trailing(Optionals(a))[2];
    ListedRecipientsLength(a.allowedCalls.value);
    LengthAllAtLeast(xs);
    assert Length(xs[5]) >= LengthAll(ScopeItems(a.allowedCalls.value));
  }

  /** Among more numbers than a list has entries, one is the value of no entry. */
  lemma {:induction false} SomeNumberIsFree(listed: seq<Address>, ks: set<nat>) returns (k: nat)
    requires |ks| > |listed|
    requires forall n :: n in ks ==> n < Pow256(20)
    ensures k in ks && BigEndian(k, 20) !in listed
    decreases |listed|
  {
    if listed == [] {
      k :| k in ks;
    } else {
      var first: nat := Value(listed[0]);
      k := SomeNumberIsFree(listed[1..], ks - {first});
      ValueOfBigEndian(k, 20);
    }
  }

  lemma {:induction false} NumbersBelow(n: nat) returns (ks: set<nat>)
    ensures |ks| == n && forall k :: k in ks ==> k < n
  {
    if n == 0 {
      ks := {};
    } else {
      ks := NumbersBelow(n - 1);
      ks := ks + {n - 1};
    }
  }

  lemma {:induction false} SomeAddressIsFree(listed: seq<Address>) returns (p: Address)
    requires |listed| < LENGTH_LIMIT
    ensures p !in listed
  {
    Pow256Of8And32();
    Pow256Sum(8, 12);
    assert Pow256(20) >= Pow256(8);
    var ks := NumbersBelow(|listed| + 1);
    var k := SomeNumberIsFree(listed, ks);
    p := BigEndian(k, 20);
  }

  lemma {:induction false} UnlistedMeansOpen(ss: seq<CallScope>, target: Address20, selector: Selector, p: Address)
    requires p !in ListedRecipients(ss) && Documented(ss, target, selector, p)
    ensures Open(ss, target, selector)
  {
    var i :| 0 <= i < |ss| && DocumentedScope(ss[i], target, selector, p);
    DocumentedIsWireAndGate(ss[i], target, selector, p);
    if FoldedRules(ss[i]) != [] {
      var r :| r in Fold(ss[i]).rules && RuleAllows(r, selector, p);
      ListedRecipientsHold(ss, i, r);
      assert r == SelectorRule(selector, []);
    }
    assert OpenScope(ss[i], target, selector);
  }

  ghost predicate SameDocumented(ss: seq<CallScope>, ts: seq<CallScope>) {
    forall target: Address20, selector: Selector, recipient: Address ::
      Documented(ss, target, selector, recipient) <==> Documented(ts, target, selector, recipient)
  }

  lemma {:induction false} OpenAlike(ss: seq<CallScope>, ts: seq<CallScope>, target: Address20, selector: Selector)
    requires SameDocumented(ss, ts) && Open(ss, target, selector) && |ListedRecipients(ts)| < LENGTH_LIMIT
    ensures Open(ts, target, selector)
  {
    var p := SomeAddressIsFree(ListedRecipients(ts));
    OpenAllowsAll(ss, target, selector, p);
    UnlistedMeansOpen(ts, target, selector, p);
  }

  lemma {:induction false} RulesAlikeIff(ss: seq<CallScope>, ts: seq<CallScope>)
    requires SameFolds(ss, ts)
    requires |ListedRecipients(ss)| < LENGTH_LIMIT && |ListedRecipients(ts)| < LENGTH_LIMIT
    ensures SameDocumented(ss, ts) <==> RulesAlike(ss, ts)
  {
    if RulesAlike(ss, ts) {
      RulesAlikeBack(ss, ts);
      forall target: Address20, selector: Selector, recipient: Address
        ensures Documented(ss, target, selector, recipient) <==> Documented(ts, target, selector, recipient)
      {
        if Documented(ss, target, selector, recipient) {
          RulesAlikeCarries(ss, ts, target, selector, recipient);
        }
        if Documented(ts, target, selector, recipient) {
          RulesAlikeCarries(ts, ss, target, selector, recipient);
        }
      }
    }
    if SameDocumented(ss, ts) {
      forall i, r | 0 <= i < |ss| && r in FoldedRules(ss[i])
        ensures RuleAlike(ss, ts, ss[i].target, r)
      {
        if Open(ss, ss[i].target, r.selector) {
          OpenAlike(ss, ts, ss[i].target, r.selector);
        }
        if Open(ts, ss[i].target, r.selector) {
          OpenAlike(ts, ss, ss[i].target, r.selector);
        }
      }
    }
  }

  /**
   Authorizations with the same bytes are documented alike exactly when they are rule by rule: on the
   recipients a rule lists, and on being open to all where a rule lists none. Scopes may repeat targets.
   */
  lemma {:induction false} SameBytesDocumentedAlikeIff(a: KeyAuthorization, b: KeyAuthorization)
    requires Encode(ToRlp(a)).Some? && Encode(ToRlp(a)) == Encode(ToRlp(b))
    ensures a.allowedCalls.Some? <==> b.allowedCalls.Some?
    ensures DocumentedAlike(a, b) <==>
            (a.allowedCalls.Some? ==> RulesAlike(a.allowedCalls.value, b.allowedCalls.value))
  {
    SameBytesIffSameWire(a, b);
    if a.allowedCalls.Some? {
      ScopesShareWire(a, b);
      FewRecipients(a);
      FewRecipients(b);
      RulesAlikeIff(a.allowedCalls.value, b.allowedCalls.value);
      AlikeIsSameDocumented(a, b);
    }
  }

  lemma {:induction false} AlikeIsSameDocumented(a: KeyAuthorization, b: KeyAuthorization)
    requires a.allowedCalls.Some? && b.allowedCalls.Some?
    ensures DocumentedAlike(a, b) <==> SameDocumented(a.allowedCalls.value, b.allowedCalls.value)
  {
    if DocumentedAlike(a, b) {
      forall target: Address20, selector: Selector, recipient: Address
        ensures Documented(a.allowedCalls.value, target, selector, recipient)
           <==> Documented(b.allowedCalls.value, target, selector, recipient)
      {
        assert DocumentedAllows(a, target, selector, recipient) <==> DocumentedAllows(b, target, selector, recipient);
      }
    }
  }

  // ---------------------------------------------------------------- scopes with distinct targets

  /**
   For scopes with distinct targets, same bytes mean same documented permissions exactly when every
   pair of scopes gates the encoded rules alike.
   */
  lemma {:induction false} DistinctTargetsAlikeIff(a: KeyAuthorization, b: KeyAuthorization)
    requires Encode(ToRlp(a)).Some? && Encode(ToRlp(a)) == Encode(ToRlp(b))
    requires DistinctTargets(a)
    ensures ToWire(a) == ToWire(b)
    ensures DocumentedAlike(a, b) <==> GatedAlike(a, b)
  {
    SameBytesIffSameWire(a, b);
    if GatedAlike(a, b) {
      GatedAlikeSuffices(a, b);
    }
    if DocumentedAlike(a, b) && a.allowedCalls.Some? {
      ScopesShareWire(a, b);
      var ss, ts := a.allowedCalls.value, b.allowedCalls.value;
      assert DistinctTargets(b) by {
        assert forall i :: 0 <= i < |ss| ==> Fold(ss[i]).target == Fold(ts[i]).target;
      }
      forall i | 0 <= i < |ss|
        ensures SameGates(ss[i], ts[i])
      {
        GatesFromAgreement(a, b, i);
      }
    }
  }

  lemma {:induction false} GatesFromAgreement(a: KeyAuthorization, b: KeyAuthorization, i: nat)
    requires DocumentedAlike(a, b) && DistinctTargets(a) && DistinctTargets(b)
    requires a.allowedCalls.Some? && b.allowedCalls.Some?
    requires i < |a.allowedCalls.value| && i < |b.allowedCalls.value|
    requires Fold(a.allowedCalls.value[i]) == Fold(b.allowedCalls.value[i])
    ensures SameGates(a.allowedCalls.value[i], b.allowedCalls.value[i])
  {
    var s, t := a.allowedCalls.value[i], b.allowedCalls.value[i];
    assert s.target == Fold(s).target == Fold(t).target == t.target;
    forall r | r in FoldedRules(s)
      ensures Gate(s, r.selector) <==> Gate(t, r.selector)
    {
      var recipient := SomeRecipient(r);
      FoldedRuleIsGranted(s, r);
      DocumentedIsWireAndGate(s, s.target, r.selector, recipient);
      DocumentedIsWireAndGate(t, s.target, r.selector, recipient);
      OnlyScopeOfTarget(a, i, r.selector, recipient);
      OnlyScopeOfTarget(b, i, r.selector, recipient);
      assert DocumentedAllows(a, s.target, r.selector, recipient)
        <==> DocumentedAllows(b, s.target, r.selector, recipient);
    }
  }
}
