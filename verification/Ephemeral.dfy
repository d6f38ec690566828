/** The throwaway configuration of `tempo/devnet/config.py`, on ports found free. */
module Ephemeral {
  import opened Outcomes
  import opened Ports
  import opened DevnetConfigs

  const STRIDE := 10

  /** `str(n)` */
  function Decimal(n: nat): (s: string)
    ensures s != ""
  {
    (if n < 10 then "" else Decimal(n / 10)) + ['0' + (n % 10) as char]
  }

  lemma {:induction false} DecimalInjective(m: nat, n: nat)
    requires Decimal(m) == Decimal(n)
    ensures m == n
  {
    var s := Decimal(m);
    assert s[|s| - 1] == '0' + (m % 10) as char == '0' + (n % 10) as char;
    assert m % 10 == n % 10;
    if m >= 10 && n >= 10 {
      assert Decimal(m / 10) == s[..|s| - 1] == Decimal(n / 10);
      DecimalInjective(m / 10, n / 10);
    }
  }

  function DigitsValue(s: string): int {
    if s == "" then 0 else 10 * DigitsValue(s[..|s| - 1]) + (s[|s| - 1] as int - '0' as int)
  }

  /** Decimal digits of the number, without a leading zero */
  lemma {:induction false} DecimalOfValue(n: nat)
    ensures DigitsValue(Decimal(n)) == n
    ensures forall c :: c in Decimal(n) ==> '0' <= c <= '9'
    ensures n > 0 ==> Decimal(n)[0] != '0'
  {
    var s := Decimal(n);
    if n >= 10 {
      DecimalOfValue(n / 10);
      assert s[..|s| - 1] == Decimal(n / 10);
    } else {
      assert s[..|s| - 1] == "";
    }
  }

  function Moniker(i: nat): string {
    "node" + Decimal(i)
  }

  function EphemeralValidators(host: string, bases: seq<int>): (vs: seq<RawValidator>)
    ensures |vs| == |bases|
  {
    seq(|bases|, i requires 0 <= i < |bases| =>
      RawValidator(Some(host), Some(bases[i]), Some(Moniker(i)), None, None, Some(host)))
  }

  /** An empty or missing binary name is not passed on. */
  function GivenName(name: Option<string>): Option<string> {
    if name == Some("") then None else name
  }

  function EphemeralData(backend: string, chainId: int, host: string, nodeBin: Option<string>, xtaskBin: Option<string>,
                         bases: seq<int>): Raw
  {
    Raw(Some(chainId), None, None, None, None, None, Some(backend), GivenName(nodeBin), GivenName(xtaskBin),
        None, None, None, map[], map[], map[], [], [], NO_DOCKER, EphemeralValidators(host, bases))
  }

  /** The base ports of the validators of a configuration */
  function BasePorts(s: Settings): (bs: seq<int>)
    ensures |bs| == |s.validators|
  {
    seq(|s.validators|, i requires 0 <= i < |s.validators| => s.validators[i].basePort)
  }

  /**
   A throwaway configuration has the requested number of validators, in directories of different names,
   and all their service ports are distinct, below the limit and bindable.
   */
  lemma {:induction false} EphemeralIsUsable(n: nat, backend: string, chainId: int, host: string,
                                             nodeBin: Option<string>, xtaskBin: Option<string>,
                                             base: int, canBind: int -> bool)
    requires n >= 1 && Region(base, STRIDE, n, canBind)
    ensures var s := Normalize(EphemeralData(backend, chainId, host, nodeBin, xtaskBin, Bases(base, STRIDE, n)));
            && |s.validators| == n
            && Reserved(BasePorts(s), canBind)
            && (forall i :: 0 <= i < n ==>
                  s.validators[i] ==
                  Validator(host, base + 10 * i, "node" + Decimal(i), base + 10 * i, host, host))
            && (forall i, j :: 0 <= i < j < n ==> s.validators[i].moniker != s.validators[j].moniker)
  {
    var s := Normalize(EphemeralData(backend, chainId, host, nodeBin, xtaskBin, Bases(base, STRIDE, n)));
    FreeRegionReservedIff(base, STRIDE, n, canBind);
    assert BasePorts(s) == Bases(base, STRIDE, n);
    forall i, j | 0 <= i < j < n
      ensures s.validators[i].moniker != s.validators[j].moniker
    {
      MonikersDiffer(i, j);
      assert s.validators[i].moniker == Moniker(i) && s.validators[j].moniker == Moniker(j);
    }
  }

  /** The other arguments: a binary name that is empty or missing is the default one of the backend. */
  lemma {:induction false} EphemeralArguments(backend: string, chainId: int, host: string,
                                              nodeBin: Option<string>, xtaskBin: Option<string>, bases: seq<int>)
    requires bases != []
    ensures var s := Normalize(EphemeralData(backend, chainId, host, nodeBin, xtaskBin, bases));
            && s.chain.chainId == chainId && s.node.backend == backend && !s.docker.twoNetwork
            && s.node.tempoBin == (if nodeBin.Some? && nodeBin.value != "" then nodeBin.value else backend)
            && s.node.tempoXtaskBin ==
               (if xtaskBin.Some? && xtaskBin.value != "" then xtaskBin.value else backend + "-xtask")
  {
    assert "tempo" + "-xtask" == "tempo-xtask";
  }

  lemma {:induction false} MonikersDiffer(i: nat, j: nat)
    requires i != j
    ensures Moniker(i) != Moniker(j)
  {
    if Moniker(i) == Moniker(j) {
      assert Moniker(i)[4..] == Decimal(i) && Moniker(j)[4..] == Decimal(j);
      DecimalInjective(i, j);
    }
  }

  /** Attempt `a` found the region that the settings are built on. */
  ghost predicate BuiltOn(s: Settings, a: nat, n: nat, data: Raw, offered: nat -> int, canBind: (nat, int) -> bool) {
    && FirstFree(a, STRIDE, n, offered, canBind)
    && Accepted(data) && s == Normalize(data)
    && Reserved(BasePorts(s), p => canBind(a, p))
  }

  /** `DevnetConfig.ephemeral` */
  method EphemeralConfig(n: int, backend: string, chainId: int, host: string, nodeBin: Option<string>,
                         xtaskBin: Option<string>, offered: nat -> int, canBind: (nat, int) -> bool)
    returns (r: Result<DevnetConfig, SearchError>)
    ensures r.Ok? ==> n >= 1 && fresh(r.value)
    ensures r.Ok? ==> exists a: nat ::
      BuiltOn(r.value.View(), a, n,
              EphemeralData(backend, chainId, host, nodeBin, xtaskBin, Bases(offered(a), STRIDE, n)), offered, canBind)
    ensures r.Err? ==> r.error == if n < 1 then NothingToReserve else NoFreeRegion
  {
    var found := FindFreeBasePorts(n, STRIDE, offered, canBind);
    if found.Err? {
      return Err(found.error);
    }
    ghost var a: nat :| FirstFree(a, STRIDE, n, offered, canBind) && found.value == Bases(offered(a), STRIDE, n);
    ghost var probe := p => canBind(a, p);
    EphemeralIsUsable(n, backend, chainId, host, nodeBin, xtaskBin, offered(a), probe);
    var config := new DevnetConfig(EphemeralData(backend, chainId, host, nodeBin, xtaskBin, found.value));
    assert BuiltOn(config.View(), a, n,
                   EphemeralData(backend, chainId, host, nodeBin, xtaskBin, found.value), offered, canBind);
    return Ok(config);
  }
}
