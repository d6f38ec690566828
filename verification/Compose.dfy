/**
 The two-network docker compose generator (`tempo/devnet/supervisor.py`): four loops with running
 offsets fill one dictionary of services. The specification numbers all services in one row; the
 k-th one gets the k-th address on each network it joins.
 */
module Compose {
  import opened Outcomes
  import opened DevnetConfigs

  datatype Role = ValidatorRole | FollowRole | ProxyRole | PublicRole

  /** Where a service takes its blocks from: an address on the validator network, or a service name */
  datatype Upstream = NoUpstream | AtAddress(ip: nat) | AtName(moniker: string)

  /** `listen` is the address a validator binds all its servers to. */
  datatype Service = Service(
    role: Role,
    networks: map<string, nat>,
    listen: Option<nat>,
    upstream: Upstream,
    dependsOn: Option<string>)

  datatype ComposeError = AddressOutOfRange | NoFollowNode

  const FIRST_NODE := "node0"

  // ---------------------------------------------------------------- specification

  function NValidators(s: Settings): nat { |s.validators| }
  function NFollow(s: Settings): nat { |s.docker.followNodes| }
  function NProxies(s: Settings): nat { |s.docker.p2pProxies| }
  function NPublic(s: Settings): nat { |s.docker.publicNodes| }

  /** Services on the validator network come first in the row. */
  function OnValidatorNet(s: Settings): nat {
    NValidators(s) + NFollow(s) + NProxies(s)
  }

  function Total(s: Settings): nat {
    OnValidatorNet(s) + NPublic(s)
  }

  function RoleOf(s: Settings, k: nat): Role
    requires k < Total(s)
  {
    if k < NValidators(s) then ValidatorRole
    else if k < NValidators(s) + NFollow(s) then FollowRole
    else if k < OnValidatorNet(s) then ProxyRole
    else PublicRole
  }

  function MonikerOf(s: Settings, k: nat): string
    requires k < Total(s)
  {
    match RoleOf(s, k)
    case ValidatorRole => s.validators[k].moniker
    case FollowRole => s.docker.followNodes[k - NValidators(s)].moniker
    case ProxyRole => s.docker.p2pProxies[k - NValidators(s) - NFollow(s)].moniker
    case PublicRole => s.docker.publicNodes[k - OnValidatorNet(s)].moniker
  }

  /** Every address that is needed exists, and public nodes have a follow node to depend on. */
  ghost predicate Composable(s: Settings) {
    && (forall k: nat :: k < OnValidatorNet(s) ==> DockerIp(s.docker, k).Some?)
    && (forall k: nat :: NValidators(s) <= k < Total(s) ==> DockerPublicIp(s.docker, k).Some?)
    && (NPublic(s) > 0 ==> NFollow(s) > 0)
  }

  function At(a: Option<nat>): nat {
    a.GetOr(0)
  }

  function NetworksOf(s: Settings, k: nat): map<string, nat>
    requires k < Total(s)
  {
    var private, public := ValidatorNetworkName(s.docker), PublicNetworkName(s.docker);
    match RoleOf(s, k)
    case ValidatorRole => map[private := At(DockerIp(s.docker, k))]
    case PublicRole => map[public := At(DockerPublicIp(s.docker, k))]
    case _ => map[private := At(DockerIp(s.docker, k)), public := At(DockerPublicIp(s.docker, k))]
  }

  function ServiceOf(s: Settings, k: nat): Service
    requires k < Total(s)
  {
    var networks := NetworksOf(s, k);
    var first := if NFollow(s) > 0 then s.docker.followNodes[0].moniker else "follower0";
    match RoleOf(s, k)
    case ValidatorRole => Service(ValidatorRole, networks, Some(At(DockerIp(s.docker, k))), NoUpstream, None)
    case FollowRole => Service(FollowRole, networks, None, AtAddress(At(DockerIp(s.docker, 0))), Some(FIRST_NODE))
    case ProxyRole => Service(ProxyRole, networks, None, AtAddress(At(DockerIp(s.docker, 0))), None)
    case PublicRole => Service(PublicRole, networks, None, AtName(first), Some(first))
  }

  /** The services dictionary after the first `n` assignments; a repeated moniker overwrites. */
  function Services(s: Settings, n: nat): map<string, Service>
    requires n <= Total(s)
  {
    if n == 0 then map[] else Services(s, n - 1)[MonikerOf(s, n - 1) := ServiceOf(s, n - 1)]
  }

  // ---------------------------------------------------------------- the generator as written

  method AddValidators(s: Settings) returns (r: Option<map<string, Service>>)
    ensures r.Some? <==> forall k: nat :: k < NValidators(s) ==> DockerIp(s.docker, k).Some?
    ensures r.Some? ==> r.value == Services(s, NValidators(s))
  {
    var services: map<string, Service> := map[];
    for index := 0 to |s.validators|
      invariant services == Services(s, index)
      invariant forall k: nat :: k < index ==> DockerIp(s.docker, k).Some?
    {
      var ip := DockerIp(s.docker, index);
      if ip.None? {
        return None;
      }
      services := services[s.validators[index].moniker :=
        Service(ValidatorRole, map[ValidatorNetworkName(s.docker) := ip.value], ip, NoUpstream, None)];
    }
    return Some(services);
  }

  /** Both addresses of every service from `from` up to `to` exist. */
  ghost predicate BothAddresses(s: Settings, from: nat, to: nat) {
    forall k: nat :: from <= k < to ==> DockerIp(s.docker, k).Some? && DockerPublicIp(s.docker, k).Some?
  }

  method AddFollowNodes(s: Settings, start: map<string, Service>, fStart: nat) returns (r: Option<map<string, Service>>)
    requires fStart == NValidators(s) && start == Services(s, fStart)
    ensures r.Some? <==> BothAddresses(s, fStart, fStart + NFollow(s))
    ensures r.Some? ==> r.value == Services(s, fStart + NFollow(s))
  {
    var services := start;
    for fIdx := 0 to |s.docker.followNodes|
      invariant services == Services(s, fStart + fIdx)
      invariant BothAddresses(s, fStart, fStart + fIdx)
    {
      var upstream := DockerIp(s.docker, 0);
      var valIp := DockerIp(s.docker, fStart + fIdx);
      var pubIp := DockerPublicIp(s.docker, fStart + fIdx);
      if upstream.None? || valIp.None? || pubIp.None? {
        return None;
      }
      services := services[s.docker.followNodes[fIdx].moniker :=
        Service(FollowRole,
                map[ValidatorNetworkName(s.docker) := valIp.value, PublicNetworkName(s.docker) := pubIp.value],
                None, AtAddress(upstream.value), Some(FIRST_NODE))];
    }
    return Some(services);
  }

  method AddProxies(s: Settings, start: map<string, Service>, pStart: nat) returns (r: Option<map<string, Service>>)
    requires pStart == NValidators(s) + NFollow(s) && start == Services(s, pStart)
    ensures r.Some? <==> BothAddresses(s, pStart, pStart + NProxies(s))
    ensures r.Some? ==> r.value == Services(s, pStart + NProxies(s))
  {
    var services := start;
    for pIdx := 0 to |s.docker.p2pProxies|
      invariant services == Services(s, pStart + pIdx)
      invariant BothAddresses(s, pStart, pStart + pIdx)
    {
      var upstream := DockerIp(s.docker, 0);
      var valIp := DockerIp(s.docker, pStart + pIdx);
      var pubIp := DockerPublicIp(s.docker, pStart + pIdx);
      if upstream.None? || valIp.None? || pubIp.None? {
        return None;
      }
      services := services[s.docker.p2pProxies[pIdx].moniker :=
        Service(ProxyRole,
                map[ValidatorNetworkName(s.docker) := valIp.value, PublicNetworkName(s.docker) := pubIp.value],
                None, AtAddress(upstream.value), None)];
    }
    return Some(services);
  }

  method AddPublicNodes(s: Settings, start: map<string, Service>, nStart: nat)
    returns (r: Result<map<string, Service>, ComposeError>)
    requires nStart == OnValidatorNet(s) && start == Services(s, nStart)
    ensures r.Ok? <==> (NPublic(s) > 0 ==> NFollow(s) > 0)
                       && forall k: nat :: nStart <= k < Total(s) ==> DockerPublicIp(s.docker, k).Some?
    ensures r.Ok? ==> r.value == Services(s, Total(s))
    ensures r == Err(NoFollowNode) <==>
            NPublic(s) > 0 && NFollow(s) == 0 && DockerPublicIp(s.docker, nStart).Some?
  {
    var services := start;
    for nIdx := 0 to |s.docker.publicNodes|
      invariant services == Services(s, nStart + nIdx)
      invariant forall k: nat :: nStart <= k < nStart + nIdx ==> DockerPublicIp(s.docker, k).Some?
      invariant nIdx > 0 ==> NFollow(s) > 0
    {
      var follow := s.docker.followNodes;
      var upstream := if follow != [] then follow[0].moniker else "follower0";
      var pubIp := DockerPublicIp(s.docker, nStart + nIdx);
      if pubIp.None? {
        return Err(AddressOutOfRange);
      }
      if follow == [] {
        return Err(NoFollowNode);
      }
      services := services[s.docker.publicNodes[nIdx].moniker :=
        Service(PublicRole, map[PublicNetworkName(s.docker) := pubIp.value], None, AtName(upstream),
                Some(follow[0].moniker))];
    }
    return Ok(services);
  }

  /** The addresses up to the first public node exist, and it has no follow node to depend on. */
  ghost predicate OnlyFollowNodeMissing(s: Settings) {
    && NPublic(s) > 0 && NFollow(s) == 0
    && (forall k: nat :: k < OnValidatorNet(s) ==> DockerIp(s.docker, k).Some?)
    && (forall k: nat :: NValidators(s) <= k <= OnValidatorNet(s) ==> DockerPublicIp(s.docker, k).Some?)
  }

  /** `_generate_two_network_compose`: the four loops one after the other, each from the running offset */
  method GenerateTwoNetworkCompose(s: Settings) returns (r: Result<map<string, Service>, ComposeError>)
    ensures r.Ok? <==> Composable(s)
    ensures r.Ok? ==> r.value == Services(s, Total(s))
    ensures r == Err(NoFollowNode) <==> OnlyFollowNodeMissing(s)
  {
    var fStart := |s.validators|;
    var validators := AddValidators(s);
    if validators.None? {
      return Err(AddressOutOfRange);
    }
    var withFollow := AddFollowNodes(s, validators.value, fStart);
    if withFollow.None? {
      return Err(AddressOutOfRange);
    }
    var pStart := fStart + |s.docker.followNodes|;
    var withProxies := AddProxies(s, withFollow.value, pStart);
    if withProxies.None? {
      return Err(AddressOutOfRange);
    }
    var nStart := |s.validators| + |s.docker.followNodes| + |s.docker.p2pProxies|;
    r := AddPublicNodes(s, withProxies.value, nStart);
  }

  // ---------------------------------------------------------------- what the dictionary holds

  /** Every service found under a name is the last one in the row with that moniker. */
  lemma {:induction false} ServiceHasIndex(s: Settings, n: nat, m: string) returns (k: nat)
    requires n <= Total(s) && m in Services(s, n)
    ensures k < n && MonikerOf(s, k) == m && Services(s, n)[m] == ServiceOf(s, k)
    ensures forall j :: k < j < n ==> MonikerOf(s, j) != m
  {
    if MonikerOf(s, n - 1) == m {
      k := n - 1;
    } else {
      k := ServiceHasIndex(s, n - 1, m);
    }
  }

  /** Every moniker of the row is in the dictionary. */
  lemma {:induction false} MonikersAreKeys(s: Settings, n: nat, k: nat)
    requires k < n <= Total(s)
    ensures MonikerOf(s, k) in Services(s, n)
  {
    if k < n - 1 {
      MonikersAreKeys(s, n - 1, k);
    }
  }

  predicate DistinctMonikers(s: Settings) {
    forall i: nat, j: nat :: i < Total(s) && j < Total(s) && MonikerOf(s, i) == MonikerOf(s, j) ==> i == j
  }

  predicate DistinctNetworks(s: Settings) {
    ValidatorNetworkName(s.docker) != PublicNetworkName(s.docker)
  }

  lemma {:induction false} ServiceAt(s: Settings, k: nat)
    requires DistinctMonikers(s) && k < Total(s)
    ensures MonikerOf(s, k) in Services(s, Total(s))
    ensures Services(s, Total(s))[MonikerOf(s, k)] == ServiceOf(s, k)
  {
    MonikersAreKeys(s, Total(s), k);
    var j := ServiceHasIndex(s, Total(s), MonikerOf(s, k));
  }

  lemma {:induction false} AddressesInjective(s: Settings, i: nat, j: nat, network: string)
    requires Composable(s) && DistinctNetworks(s)
    requires i < Total(s) && j < Total(s)
    requires network in NetworksOf(s, i) && network in NetworksOf(s, j)
    requires NetworksOf(s, i)[network] == NetworksOf(s, j)[network]
    ensures i == j
  {
    if network == ValidatorNetworkName(s.docker) {
      assert RoleOf(s, i) != PublicRole && RoleOf(s, j) != PublicRole;
      assert DockerIp(s.docker, i).Some? && DockerIp(s.docker, j).Some?;
    } else {
      assert RoleOf(s, i) != ValidatorRole && RoleOf(s, j) != ValidatorRole;
      assert DockerPublicIp(s.docker, i).Some? && DockerPublicIp(s.docker, j).Some?;
    }
  }

  /** No two services share an address on either network, for any numbers of nodes and any monikers. */
  lemma {:induction false} NoSharedAddress(s: Settings, m: string, n: string, network: string)
    requires Composable(s) && DistinctNetworks(s)
    requires m in Services(s, Total(s)) && n in Services(s, Total(s)) && m != n
    requires network in Services(s, Total(s))[m].networks && network in Services(s, Total(s))[n].networks
    ensures Services(s, Total(s))[m].networks[network] != Services(s, Total(s))[n].networks[network]
  {
    var i := ServiceHasIndex(s, Total(s), m);
    var j := ServiceHasIndex(s, Total(s), n);
    if NetworksOf(s, i)[network] == NetworksOf(s, j)[network] {
      AddressesInjective(s, i, j, network);
    }
  }

  /**
   Isolation: every configured service is there, under its own moniker; validators are on the
   private network only, public nodes on the public one only, the rest on both.
   */
  lemma {:induction false} Isolation(s: Settings, k: nat)
    requires DistinctMonikers(s) && DistinctNetworks(s) && k < Total(s)
    ensures MonikerOf(s, k) in Services(s, Total(s))
    ensures var service := Services(s, Total(s))[MonikerOf(s, k)];
            var private, public := ValidatorNetworkName(s.docker), PublicNetworkName(s.docker);
            && service.role == RoleOf(s, k)
            && service.networks.Keys == match service.role {
                 case ValidatorRole => {private}
                 case PublicRole => {public}
                 case _ => {private, public}
               }
  {
    ServiceAt(s, k);
  }

  /** Genesis address i is the private address of validator i, where it listens, and of no other service. */
  lemma {:induction false} GenesisAgrees(s: Settings, i: nat, m: string)
    requires Composable(s) && DistinctMonikers(s) && DistinctNetworks(s)
    requires i < |s.validators|
    ensures var services, private := Services(s, Total(s)), ValidatorNetworkName(s.docker);
            var name := s.validators[i].moniker;
            && name in services
            && private in services[name].networks
            && GenesisAddresses(s)[i] == Some(services[name].networks[private])
            && services[name].listen == GenesisAddresses(s)[i]
            && (m in services && m != name && private in services[m].networks ==>
                GenesisAddresses(s)[i] != Some(services[m].networks[private]))
  {
    ServiceAt(s, i);
    assert MonikerOf(s, i) == s.validators[i].moniker;
    assert DockerIp(s.docker, i).Some?;
    var services, private := Services(s, Total(s)), ValidatorNetworkName(s.docker);
    if m in services && m != s.validators[i].moniker && private in services[m].networks {
      NoSharedAddress(s, s.validators[i].moniker, m, private);
    }
  }

  /** The service a name stands for shares a network with another service. */
  ghost predicate ShareNetwork(a: Service, b: Service) {
    a.networks.Keys * b.networks.Keys != {}
  }

  /**
   Every upstream is reachable: an upstream address is the private address of the first validator,
   an upstream name is a service, and in both cases the two share a network.
   */
  lemma {:induction false} UpstreamsReachable(s: Settings, k: nat)
    requires Composable(s) && DistinctMonikers(s) && DistinctNetworks(s)
    requires k < Total(s) && s.validators != []
    ensures var services, service := Services(s, Total(s)), ServiceOf(s, k);
            match service.upstream {
              case NoUpstream => service.role == ValidatorRole
              case AtAddress(ip) =>
                var v := s.validators[0].moniker;
                && v in services
                && ShareNetwork(service, services[v])
                && ValidatorNetworkName(s.docker) in services[v].networks
                && services[v].networks[ValidatorNetworkName(s.docker)] == ip
              case AtName(name) => name in services && services[name].role == FollowRole
                                   && ShareNetwork(service, services[name])
            }
  {
    var service := ServiceOf(s, k);
    ServiceAt(s, 0);
    assert MonikerOf(s, 0) == s.validators[0].moniker;
    var private, public := ValidatorNetworkName(s.docker), PublicNetworkName(s.docker);
    if service.upstream.AtAddress? {
      assert private in service.networks.Keys * ServiceOf(s, 0).networks.Keys;
    } else if service.upstream.AtName? {
      var f := NValidators(s);
      ServiceAt(s, f);
      assert MonikerOf(s, f) == s.docker.followNodes[0].moniker;
      assert public in service.networks.Keys * ServiceOf(s, f).networks.Keys;
    }
  }

  /** Every `depends_on` names a service of the file. */
  ghost predicate DependenciesClosed(s: Settings) {
    forall m :: m in Services(s, Total(s)) && Services(s, Total(s))[m].dependsOn.Some? ==>
      Services(s, Total(s))[m].dependsOn.value in Services(s, Total(s))
  }

  /**
   Follow nodes depend on the fixed name `node0`: the dependencies are closed exactly when there is
   no follow node or some service has that moniker.
   */
  lemma {:induction false} DependenciesClosedIff(s: Settings)
    requires Composable(s) && DistinctMonikers(s)
    ensures DependenciesClosed(s) <==>
            NFollow(s) == 0 || exists k: nat :: k < Total(s) && MonikerOf(s, k) == "node0"
  {
    var services := Services(s, Total(s));
    if NFollow(s) > 0 {
      var f := NValidators(s);
      ServiceAt(s, f);
      assert services[MonikerOf(s, f)].dependsOn == Some(FIRST_NODE);
      assert MonikerOf(s, f) == s.docker.followNodes[0].moniker;
    }
    if FIRST_NODE in services {
      var k := ServiceHasIndex(s, Total(s), FIRST_NODE);
    }
    forall k: nat | k < Total(s) ensures MonikerOf(s, k) in services {
      MonikersAreKeys(s, Total(s), k);
    }
    if NFollow(s) == 0 || FIRST_NODE in services {
      forall m | m in services && services[m].dependsOn.Some?
        ensures services[m].dependsOn.value in services
      {
        var k := ServiceHasIndex(s, Total(s), m);
        assert RoleOf(s, k).FollowRole? || RoleOf(s, k).PublicRole?;
      }
    }
  }

  // ---------------------------------------------------------------- inside the subnets

  lemma {:induction false} Pow2Sum(a: nat, b: nat)
    ensures Pow2(a + b) == Pow2(a) * Pow2(b)
  {
    if a == 0 {
    } else {
      Pow2Sum(a - 1, b);
      assert Pow2(a + b) == 2 * (Pow2(a - 1) * Pow2(b));
    }
  }

  lemma {:induction false} Pow2Of32()
    ensures Pow2(32) == ADDRESS_SPACE
  {
    assert Pow2(4) == 16;
    Pow2Sum(4, 4);
    Pow2Sum(8, 8);
    Pow2Sum(16, 16);
  }

  /** `a` in the terms of division by `size`, and of the block of `size` numbers it lies in */
  lemma {:induction false} Blocks(a: nat, size: nat, offset: nat)
    requires size > 0 && offset < size
    ensures RoundDown(a, size) == a / size * size
    ensures (RoundDown(a, size) + offset) / size == a / size
    ensures (RoundDown(a, size) + offset) % size == offset
  {
    var q := a / size;
    assert a == q * size + a % size;
    QuotientOf(q, size, offset);
  }

  lemma {:induction false} NextMultiple(p: nat, q: nat, size: nat)
    requires p < q
    ensures p * size + size <= q * size
  {
    assert q * size == p * size + (q - p) * size;
    assert (q - p) * size == size + (q - p - 1) * size;
  }

  lemma {:induction false} QuotientOf(q: nat, size: nat, offset: nat)
    requires offset < size
    ensures (q * size + offset) / size == q && (q * size + offset) % size == offset
  {
    var x := q * size + offset;
    var d := x / size;
    assert x == d * size + x % size;
    if d > q {
      NextMultiple(q, d, size);
    } else if d < q {
      NextMultiple(d, q, size);
    }
  }

  lemma {:induction false} BlockEnd(a: nat, size: nat, q: nat)
    requires size > 0 && a < q * size
    ensures a / size * size + size <= q * size
  {
    var d := a / size;
    assert a == d * size + a % size;
    if d < q {
      NextMultiple(d, q, size);
    } else if d > q {
      NextMultiple(q, d, size);
    }
  }

  /** A subnet lies inside the address space. */
  lemma {:induction false} SubnetFits(s: Subnet)
    ensures s.address / SubnetSize(s) * SubnetSize(s) + SubnetSize(s) <= ADDRESS_SPACE
  {
    Pow2Sum(s.prefix, 32 - s.prefix);
    Pow2Of32();
    BlockEnd(s.address, SubnetSize(s), Pow2(s.prefix));
  }

  /** The address has the network bits of the subnet; its last (broadcast) address is included. */
  predicate Inside(s: Subnet, a: Option<nat>) {
    a.Some? && a.value / Pow2(32 - s.prefix) == s.address / Pow2(32 - s.prefix)
  }

  /** The network bits are those of the subnet, the host bits ten plus the index. */
  predicate Placed(s: Subnet, a: nat, index: nat) {
    var size := Pow2(32 - s.prefix);
    a / size == s.address / size && a % size == 10 + index
  }

  lemma {:induction false} HostAddressInSubnet(s: Subnet, index: nat)
    requires 10 + index < Pow2(32 - s.prefix)
    ensures HostAddress(s, index).Some? && Placed(s, HostAddress(s, index).value, index)
  {
    SubnetFits(s);
    Blocks(s.address, Pow2(32 - s.prefix), 10 + index);
  }

  /** An address exists exactly when it is an IPv4 address: the host part may leave the subnet. */
  lemma {:induction false} HostAddressExistsIff(s: Subnet, index: nat)
    ensures var size := Pow2(32 - s.prefix);
            HostAddress(s, index).Some? <==> s.address / size * size + 10 + index < 0x1_0000_0000
  {
    Blocks(s.address, Pow2(32 - s.prefix), 0);
  }

  /** When the generator succeeds, over subnets and counts: the last service of each network has an address. */
  lemma {:induction false} ComposableIff(s: Settings)
    ensures var private, public := s.docker.subnet, PublicSubnet(s.docker);
            var privateSize, publicSize := Pow2(32 - private.prefix), Pow2(32 - public.prefix);
            Composable(s) <==>
            && (OnValidatorNet(s) > 0 ==>
                  private.address / privateSize * privateSize + 9 + OnValidatorNet(s) < 0x1_0000_0000)
            && (Total(s) > NValidators(s) ==>
                  public.address / publicSize * publicSize + 9 + Total(s) < 0x1_0000_0000)
            && (NPublic(s) > 0 ==> NFollow(s) > 0)
  {
    forall k: nat
      ensures HostAddress(s.docker.subnet, k).Some? <==>
              var size := Pow2(32 - s.docker.subnet.prefix);
              s.docker.subnet.address / size * size + 10 + k < 0x1_0000_0000
      ensures HostAddress(PublicSubnet(s.docker), k).Some? <==>
              var size := Pow2(32 - PublicSubnet(s.docker).prefix);
              PublicSubnet(s.docker).address / size * size + 10 + k < 0x1_0000_0000
    {
      HostAddressExistsIff(s.docker.subnet, k);
      HostAddressExistsIff(PublicSubnet(s.docker), k);
    }
    if Composable(s) {
      assert OnValidatorNet(s) > 0 ==> DockerIp(s.docker, OnValidatorNet(s) - 1).Some?;
      assert Total(s) > NValidators(s) ==> DockerPublicIp(s.docker, Total(s) - 1).Some?;
    }
  }

  lemma {:induction false} HostInsideIff(s: Subnet, index: nat)
    ensures Inside(s, HostAddress(s, index)) <==> 10 + index < Pow2(32 - s.prefix)
  {
    var size := Pow2(32 - s.prefix);
    if 10 + index < size {
      HostAddressInSubnet(s, index);
    } else if HostAddress(s, index).Some? {
      var q := s.address / size;
      Blocks(s.address, size, 0);
      BeyondBlock(HostAddress(s, index).value, q, size);
    }
  }

  lemma {:induction false} BeyondBlock(a: nat, q: nat, size: nat)
    requires size > 0 && a >= q * size + size
    ensures a / size != q
  {
    var d := a / size;
    assert a == d * size + a % size;
  }

  /** All addresses handed out lie inside their subnets. */
  ghost predicate AllInside(s: Settings) {
    && (forall k: nat :: k < OnValidatorNet(s) ==> Inside(s.docker.subnet, DockerIp(s.docker, k)))
    && (forall k: nat :: NValidators(s) <= k < Total(s) ==> Inside(PublicSubnet(s.docker), DockerPublicIp(s.docker, k)))
  }

  /** The exact count bound of the range: ten reserved addresses and every service up to the last one on a network */
  predicate CountsFit(s: Settings) {
    && (OnValidatorNet(s) > 0 ==> 10 + OnValidatorNet(s) <= Pow2(32 - s.docker.subnet.prefix))
    && (Total(s) > NValidators(s) ==> 10 + Total(s) <= Pow2(32 - PublicSubnet(s.docker).prefix))
  }

  lemma {:induction false} AllInsideIff(s: Settings)
    ensures AllInside(s) <==> CountsFit(s)
  {
    forall k: nat
      ensures Inside(s.docker.subnet, DockerIp(s.docker, k)) <==> 10 + k < Pow2(32 - s.docker.subnet.prefix)
      ensures Inside(PublicSubnet(s.docker), DockerPublicIp(s.docker, k)) <==>
              10 + k < Pow2(32 - PublicSubnet(s.docker).prefix)
    {
      HostInsideIff(s.docker.subnet, k);
      HostInsideIff(PublicSubnet(s.docker), k);
    }
    if AllInside(s) && OnValidatorNet(s) > 0 {
      assert Inside(s.docker.subnet, DockerIp(s.docker, OnValidatorNet(s) - 1));
    }
    if AllInside(s) && Total(s) > NValidators(s) {
      assert Inside(PublicSubnet(s.docker), DockerPublicIp(s.docker, Total(s) - 1));
    }
  }

  /** A host can use it: the host bits are neither all zero (the network) nor all one (broadcast). */
  predicate Usable(s: Subnet, a: Option<nat>) {
    && Inside(s, a)
    && 0 < a.value % Pow2(32 - s.prefix) < Pow2(32 - s.prefix) - 1
  }

  lemma {:induction false} HostUsableIff(s: Subnet, index: nat)
    ensures Usable(s, HostAddress(s, index)) <==> 10 + index < Pow2(32 - s.prefix) - 1
  {
    HostInsideIff(s, index);
    if 10 + index < Pow2(32 - s.prefix) {
      HostAddressInSubnet(s, index);
    }
  }

  ghost predicate AllUsable(s: Settings) {
    && (forall k: nat :: k < OnValidatorNet(s) ==> Usable(s.docker.subnet, DockerIp(s.docker, k)))
    && (forall k: nat :: NValidators(s) <= k < Total(s) ==> Usable(PublicSubnet(s.docker), DockerPublicIp(s.docker, k)))
  }

  /** One address less on each network: the broadcast address is not handed out. */
  lemma {:induction false} AllUsableIff(s: Settings)
    ensures AllUsable(s) <==>
            && (OnValidatorNet(s) > 0 ==> 10 + OnValidatorNet(s) < Pow2(32 - s.docker.subnet.prefix))
            && (Total(s) > NValidators(s) ==> 10 + Total(s) < Pow2(32 - PublicSubnet(s.docker).prefix))
  {
    forall k: nat
      ensures Usable(s.docker.subnet, DockerIp(s.docker, k)) <==> 10 + k < Pow2(32 - s.docker.subnet.prefix) - 1
      ensures Usable(PublicSubnet(s.docker), DockerPublicIp(s.docker, k)) <==>
              10 + k < Pow2(32 - PublicSubnet(s.docker).prefix) - 1
    {
      HostUsableIff(s.docker.subnet, k);
      HostUsableIff(PublicSubnet(s.docker), k);
    }
    if AllUsable(s) && OnValidatorNet(s) > 0 {
      assert Usable(s.docker.subnet, DockerIp(s.docker, OnValidatorNet(s) - 1));
    }
    if AllUsable(s) && Total(s) > NValidators(s) {
      assert Usable(PublicSubnet(s.docker), DockerPublicIp(s.docker, Total(s) - 1));
    }
  }

  /** The configured subnet of a network of the file */
  function SubnetOf(s: Settings, network: string): Subnet {
    if network == ValidatorNetworkName(s.docker) then s.docker.subnet else PublicSubnet(s.docker)
  }

  /**
   Every address in the dictionary has the network bits of its network's configured subnet, and the
   host bits ten plus the place of its service in the row.
   */
  lemma {:induction false} AddressesInSubnets(s: Settings, m: string, network: string) returns (k: nat)
    requires CountsFit(s) && DistinctNetworks(s)
    requires m in Services(s, Total(s)) && network in Services(s, Total(s))[m].networks
    ensures k < Total(s) && MonikerOf(s, k) == m
    ensures network in {ValidatorNetworkName(s.docker), PublicNetworkName(s.docker)}
    ensures Placed(SubnetOf(s, network), Services(s, Total(s))[m].networks[network], k)
  {
    k := ServiceHasIndex(s, Total(s), m);
    NetworksOfRow(s, k, network);
    HostAddressInSubnet(SubnetOf(s, network), k);
  }

  lemma {:induction false} NetworksOfRow(s: Settings, k: nat, network: string)
    requires DistinctNetworks(s) && k < Total(s) && network in NetworksOf(s, k)
    ensures network == ValidatorNetworkName(s.docker) ==>
              k < OnValidatorNet(s) && NetworksOf(s, k)[network] == At(DockerIp(s.docker, k))
    ensures network != ValidatorNetworkName(s.docker) ==>
              && network == PublicNetworkName(s.docker) && NValidators(s) <= k
              && NetworksOf(s, k)[network] == At(DockerPublicIp(s.docker, k))
  {
  }

  /** Under the count bound the generator succeeds exactly when public nodes have a follow node. */
  lemma {:induction false} ComposableUnderBound(s: Settings)
    requires CountsFit(s)
    ensures Composable(s) <==> (NPublic(s) > 0 ==> NFollow(s) > 0)
  {
    AllInsideIff(s);
  }

  // ---------------------------------------------------------------- configuration round trip

  lemma {:induction false} SameInputsSameServices(s: Settings, t: Settings, n: nat)
    requires n <= Total(s)
    requires t.validators == s.validators && t.docker == FilledIn(s.docker)
    requires s.docker.twoNetwork ==> s.docker.network == ValidatorNetworkName(s.docker)
    ensures Services(t, n) == Services(s, n)
  {
    if n > 0 {
      SameInputsSameServices(s, t, n - 1);
      assert MonikerOf(t, n - 1) == MonikerOf(s, n - 1);
      assert ServiceOf(t, n - 1) == ServiceOf(s, n - 1);
    }
  }

  /** A configuration that went through `to_dict` generates the same services. */
  lemma {:induction false} ServicesSurviveRoundTrip(data: Raw)
    requires Accepted(data)
    ensures Accepted(DictOf(Normalize(data)))
    ensures var s := Normalize(data);
            var t := Normalize(DictOf(s));
            Total(t) == Total(s) && Services(t, Total(t)) == Services(s, Total(s))
  {
    RebuiltSettings(data);
    var s := Normalize(data);
    SameInputsSameServices(s, Normalize(DictOf(s)), Total(s));
  }
}
