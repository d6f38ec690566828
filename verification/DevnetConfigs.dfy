/**
 Devnet configuration (`tempo/devnet/config.py`): reading a raw mapping, writing it back, and the
 addresses and names derived from it. A subnet is a network address and a prefix length, an
 address an integer. A missing, null or empty collection is the empty collection.
 */
module DevnetConfigs {
  import opened Outcomes

  const DEFAULT_CHAIN_ID := 1337
  const DEFAULT_ACCOUNTS := 10_000
  const DEFAULT_EPOCH_LENGTH := 100
  const DEFAULT_GAS_LIMIT := 500_000_000
  const DEFAULT_MNEMONIC := "test test test test test test test test test test test junk"
  const DEFAULT_BACKEND := "tempo"
  const DEFAULT_TEMPO_BIN := "tempo"
  const DEFAULT_TEMPO_XTASK_BIN := "tempo-xtask"
  const DEFAULT_DOCKER_IMAGE := "ghcr.io/tempoxyz/tempo:latest"
  const DEFAULT_DOCKER_NETWORK := "tempo-devnet"
  const DEFAULT_VALIDATOR_NETWORK := "tempo-validator-net"
  const DEFAULT_DOCKER_PUBLIC_NETWORK := "tempo-public-net"
  const DEFAULT_DOCKER_SUBNET: Subnet := Subnet(0x0A58_0000, 24)
  const DEFAULT_DOCKER_PUBLIC_SUBNET: Subnet := Subnet(0x0A59_0000, 24)
  const HARDFORKS := 9
  const HOST_OCTET_BASE := 10
  const ADDRESS_SPACE := 0x1_0000_0000

  // ---------------------------------------------------------------- raw data

  datatype Cidr = Subnet(address: nat, prefix: nat)

  type Subnet = s: Cidr | s.address < ADDRESS_SPACE && s.prefix <= 32 witness Subnet(0, 0)

  datatype RawValidator = RawValidator(
    host: Option<string>,
    port: Option<int>,
    moniker: Option<string>,
    basePort: Option<int>,
    p2pHost: Option<string>,
    rpcHost: Option<string>)

  datatype RawNode = RawNode(moniker: Option<string>, port: Option<int>)

  /** A network mapping; `other` are the keys that are not read. */
  datatype NetworkDict = NetworkDict(name: Option<string>, subnet: Option<Subnet>, other: map<string, string>)

  /** `Some(NO_NETWORK)` is a key that is there with an empty or null value. */
  datatype RawDocker = RawDocker(
    image: Option<string>,
    network: Option<string>,
    subnet: Option<Subnet>,
    validatorNetwork: Option<NetworkDict>,
    publicNetwork: Option<NetworkDict>,
    followNodes: seq<RawNode>,
    p2pProxies: seq<RawNode>,
    publicNodes: seq<RawNode>)

  datatype Raw = Raw(
    chainId: Option<int>,
    accounts: Option<int>,
    epochLength: Option<int>,
    gasLimit: Option<int>,
    seed: Option<int>,
    mnemonic: Option<string>,
    backend: Option<string>,
    tempoBin: Option<string>,
    tempoXtaskBin: Option<string>,
    noDkgInGenesis: Option<bool>,
    noExtraTokens: Option<bool>,
    noPairwiseLiquidity: Option<bool>,
    hardforks: map<nat, int>,
    patchGenesis: map<string, string>,
    patchReth: map<string, string>,
    patchNodeFlags: seq<string>,
    patchGenesisFlags: seq<string>,
    docker: RawDocker,
    validators: seq<RawValidator>)

  const NO_NETWORK := NetworkDict(None, None, map[])
  const NO_DOCKER := RawDocker(None, None, None, None, None, [], [], [])

  // ---------------------------------------------------------------- nodes

  datatype Validator = Validator(
    host: string,
    port: int,
    moniker: string,
    basePort: int,
    p2pHost: string,
    rpcHost: string)

  datatype Node = Node(moniker: string, port: int)

  function DefaultMoniker(port: int): string {
    "node" + ['0' + (port / 10 % 10) as char]
  }

  /** `ValidatorConfig.from_dict` */
  function ReadValidator(d: RawValidator): Validator {
    var host := d.host.GetOr("127.0.0.1");
    var port := d.port.GetOr(d.basePort.GetOr(8000));
    var moniker := d.moniker.GetOr("");
    Validator(host, port, if moniker == "" then DefaultMoniker(port) else moniker,
              d.basePort.GetOr(port), d.p2pHost.GetOr(host), d.rpcHost.GetOr("0.0.0.0"))
  }

  /** `ValidatorConfig.to_dict` */
  function ValidatorDict(v: Validator): RawValidator {
    RawValidator(Some(v.host), Some(v.port), Some(v.moniker), Some(v.basePort),
                 if v.p2pHost != v.host then Some(v.p2pHost) else None,
                 if v.rpcHost != "0.0.0.0" then Some(v.rpcHost) else None)
  }

  /** `from_dict` of the three node classes, which differ in the default port; the moniker is required. */
  function ReadNode(d: RawNode, defaultPort: int): Node
    requires d.moniker.Some?
  {
    Node(d.moniker.value, d.port.GetOr(defaultPort))
  }

  function NodeDict(n: Node): RawNode {
    RawNode(Some(n.moniker), Some(n.port))
  }

  predicate Named(ds: seq<RawNode>) {
    forall i :: 0 <= i < |ds| ==> ds[i].moniker.Some?
  }

  function ReadNodes(ds: seq<RawNode>, defaultPort: int): (ns: seq<Node>)
    requires Named(ds)
    ensures |ns| == |ds|
  {
    seq(|ds|, i requires 0 <= i < |ds| => ReadNode(ds[i], defaultPort))
  }

  function NodeDicts(ns: seq<Node>): (ds: seq<RawNode>)
    ensures |ds| == |ns| && Named(ds)
  {
    seq(|ns|, i requires 0 <= i < |ns| => NodeDict(ns[i]))
  }

  function ReadValidators(ds: seq<RawValidator>): (vs: seq<Validator>)
    ensures |vs| == |ds|
  {
    seq(|ds|, i requires 0 <= i < |ds| => ReadValidator(ds[i]))
  }

  function ValidatorDicts(vs: seq<Validator>): (ds: seq<RawValidator>)
    ensures |ds| == |vs|
  {
    seq(|vs|, i requires 0 <= i < |vs| => ValidatorDict(vs[i]))
  }

  function DefaultValidators(): seq<RawValidator> {
    seq(4, i requires 0 <= i < 4 =>
      RawValidator(Some("127.0.0.1"), Some(8000 + 10 * i), Some(DefaultMoniker(8000 + 10 * i)), None, None, None))
  }

  // ---------------------------------------------------------------- settings

  /** The values of all fields of a configuration */
  datatype Settings = Settings(chain: ChainSettings, node: NodeSettings, docker: Topology, validators: seq<Validator>)

  /** What goes into the genesis */
  datatype ChainSettings = ChainSettings(
    chainId: int,
    accounts: int,
    epochLength: int,
    gasLimit: int,
    seed: Option<int>,
    mnemonic: string,
    noDkgInGenesis: bool,
    noExtraTokens: bool,
    noPairwiseLiquidity: bool,
    hardforks: seq<int>)

  /** Binaries, image and patches */
  datatype NodeSettings = NodeSettings(
    backend: string,
    tempoBin: string,
    tempoXtaskBin: string,
    patchGenesis: map<string, string>,
    patchReth: map<string, string>,
    patchNodeFlags: seq<string>,
    patchGenesisFlags: seq<string>,
    dockerImage: string)

  datatype Topology = Topology(
    twoNetwork: bool,
    network: string,
    subnet: Subnet,
    validatorNetwork: NetworkDict,
    publicNetwork: NetworkDict,
    followNodes: seq<Node>,
    p2pProxies: seq<Node>,
    publicNodes: seq<Node>)

  predicate TwoNetwork(d: RawDocker) {
    d.validatorNetwork.Some? || d.publicNetwork.Some?
  }

  /** In two-network mode every listed node has a moniker. */
  predicate NodesNamed(d: RawDocker) {
    TwoNetwork(d) ==> Named(d.followNodes) && Named(d.p2pProxies) && Named(d.publicNodes)
  }

  /** Reading succeeds. */
  predicate Accepted(data: Raw) {
    NodesNamed(data.docker)
  }

  function DefaultBin(backend: string): string {
    if backend == DEFAULT_BACKEND then DEFAULT_TEMPO_BIN else backend
  }

  function DefaultXtaskBin(backend: string): string {
    if backend == DEFAULT_BACKEND then DEFAULT_TEMPO_XTASK_BIN else backend + "-xtask"
  }

  /** `given or default` for a network mapping */
  function OrElse(given: Option<NetworkDict>, default: NetworkDict): NetworkDict {
    if given.None? || given.value == NO_NETWORK then default else given.value
  }

  function ReadTopology(d: RawDocker): Topology
    requires NodesNamed(d)
  {
    var network := d.network.GetOr(DEFAULT_DOCKER_NETWORK);
    var subnet := d.subnet.GetOr(DEFAULT_DOCKER_SUBNET);
    if !TwoNetwork(d) then Topology(false, network, subnet, NO_NETWORK, NO_NETWORK, [], [], [])
    else
      var v := OrElse(d.validatorNetwork, NetworkDict(Some(network), Some(subnet), map[]));
      var p := OrElse(d.publicNetwork,
                      NetworkDict(Some(DEFAULT_DOCKER_PUBLIC_NETWORK), Some(DEFAULT_DOCKER_PUBLIC_SUBNET), map[]));
      Topology(true, v.name.GetOr(DEFAULT_VALIDATOR_NETWORK), v.subnet.GetOr(DEFAULT_DOCKER_SUBNET), v, p,
               ReadNodes(d.followNodes, 9000), ReadNodes(d.p2pProxies, 7000), ReadNodes(d.publicNodes, 6000))
  }

  function ReadHardforks(m: map<nat, int>): (hs: seq<int>)
    ensures |hs| == HARDFORKS
  {
    seq(HARDFORKS, i requires 0 <= i < HARDFORKS => if i in m then m[i] else 0)
  }

  function HardforkDict(hs: seq<int>): map<nat, int>
    requires |hs| == HARDFORKS
  {
    map i: nat | i < HARDFORKS && hs[i] != 0 :: hs[i]
  }

  function ReadChain(data: Raw): ChainSettings {
    ChainSettings(
      data.chainId.GetOr(DEFAULT_CHAIN_ID), data.accounts.GetOr(DEFAULT_ACCOUNTS),
      data.epochLength.GetOr(DEFAULT_EPOCH_LENGTH), data.gasLimit.GetOr(DEFAULT_GAS_LIMIT),
      data.seed, data.mnemonic.GetOr(DEFAULT_MNEMONIC),
      data.noDkgInGenesis.GetOr(false), data.noExtraTokens.GetOr(false), data.noPairwiseLiquidity.GetOr(false),
      ReadHardforks(data.hardforks))
  }

  function ReadNodeSettings(data: Raw): NodeSettings {
    var backend := data.backend.GetOr(DEFAULT_BACKEND);
    NodeSettings(
      backend, data.tempoBin.GetOr(DefaultBin(backend)), data.tempoXtaskBin.GetOr(DefaultXtaskBin(backend)),
      data.patchGenesis, data.patchReth, data.patchNodeFlags, data.patchGenesisFlags,
      data.docker.image.GetOr(DEFAULT_DOCKER_IMAGE))
  }

  /** The settings a raw mapping stands for */
  function Normalize(data: Raw): Settings
    requires Accepted(data)
  {
    Settings(ReadChain(data), ReadNodeSettings(data), ReadTopology(data.docker),
             ReadValidators(if data.validators == [] then DefaultValidators() else data.validators))
  }

  // ---------------------------------------------------------------- derived names and addresses

  function ValidatorNetworkName(t: Topology): string {
    if t.twoNetwork then t.validatorNetwork.name.GetOr(t.network) else t.network
  }

  function PublicNetworkName(t: Topology): string {
    t.publicNetwork.name.GetOr(DEFAULT_DOCKER_PUBLIC_NETWORK)
  }

  function PublicSubnet(t: Topology): Subnet {
    t.publicNetwork.subnet.GetOr(DEFAULT_DOCKER_PUBLIC_SUBNET)
  }

  function Pow2(n: nat): (p: nat)
    ensures p > 0
  {
    if n == 0 then 1 else 2 * Pow2(n - 1)
  }

  /** Number of addresses of a subnet */
  function SubnetSize(s: Subnet): nat {
    Pow2(32 - s.prefix)
  }

  /** The largest multiple of `size` up to `a` */
  function RoundDown(a: nat, size: nat): (r: nat)
    requires size > 0
    ensures r <= a
  {
    a - a % size
  }

  /** `ip_network(subnet, strict=False).network_address`: host bits are cleared. */
  function NetworkAddress(s: Subnet): nat {
    RoundDown(s.address, SubnetSize(s))
  }

  /** `network_address + 10 + index`; beyond the address space the source raises an error. */
  function HostAddress(s: Subnet, index: nat): Option<nat> {
    var a := NetworkAddress(s) + HOST_OCTET_BASE + index;
    if a < ADDRESS_SPACE then Some(a) else None
  }

  function DockerIp(t: Topology, index: nat): Option<nat> {
    HostAddress(t.subnet, index)
  }

  function DockerPublicIp(t: Topology, index: nat): Option<nat> {
    HostAddress(PublicSubnet(t), index)
  }

  /** `docker_validators_arg`: the genesis address of every validator, without the common port */
  function GenesisAddresses(s: Settings): (gs: seq<Option<nat>>)
    ensures |gs| == |s.validators|
  {
    seq(|s.validators|, i requires 0 <= i < |s.validators| => DockerIp(s.docker, i))
  }

  // ---------------------------------------------------------------- writing back

  function DockerDict(image: string, t: Topology): RawDocker {
    if t.twoNetwork then
      RawDocker(Some(image), None, None,
                Some(NetworkDict(Some(ValidatorNetworkName(t)), Some(t.subnet), map[])),
                Some(NetworkDict(Some(PublicNetworkName(t)), Some(PublicSubnet(t)), map[])),
                NodeDicts(t.followNodes), NodeDicts(t.p2pProxies), NodeDicts(t.publicNodes))
    else RawDocker(Some(image), Some(t.network), Some(t.subnet), None, None, [], [], [])
  }

  function Flag(b: bool): Option<bool> {
    if b then Some(true) else None
  }

  /** `to_dict` as one value */
  function DictOf(s: Settings): Raw
    requires |s.chain.hardforks| == HARDFORKS
  {
    var c, n := s.chain, s.node;
    Raw(Some(c.chainId), Some(c.accounts), Some(c.epochLength), Some(c.gasLimit), c.seed, Some(c.mnemonic),
        if n.backend != DEFAULT_BACKEND then Some(n.backend) else None, None, None,
        Flag(c.noDkgInGenesis), Flag(c.noExtraTokens), Flag(c.noPairwiseLiquidity),
        HardforkDict(c.hardforks), n.patchGenesis, n.patchReth, n.patchNodeFlags, n.patchGenesisFlags,
        DockerDict(n.dockerImage, s.docker), ValidatorDicts(s.validators))
  }

  // ---------------------------------------------------------------- what is read, in literals

  /** A validator mapping, key by key */
  lemma {:induction false} ValidatorReads(d: RawValidator)
    ensures var v := ReadValidator(d);
            && v.host == (if d.host.Some? then d.host.value else "127.0.0.1")
            && v.port == (if d.port.Some? then d.port.value else if d.basePort.Some? then d.basePort.value else 8000)
            && v.basePort == (if d.basePort.Some? then d.basePort.value else v.port)
            && v.p2pHost == (if d.p2pHost.Some? then d.p2pHost.value else v.host)
            && v.rpcHost == (if d.rpcHost.Some? then d.rpcHost.value else "0.0.0.0")
            && (if d.moniker.Some? && d.moniker.value != "" then v.moniker == d.moniker.value
                else |v.moniker| == 5 && v.moniker[..4] == "node"
                     && v.moniker[4] as int == '0' as int + v.port / 10 % 10)
  {
  }

  /** The two hosts are written exactly when they are not what a reader would assume. */
  lemma {:induction false} ValidatorWrites(v: Validator)
    ensures var d := ValidatorDict(v);
            && (d.p2pHost.Some? <==> v.p2pHost != v.host)
            && (d.rpcHost.Some? <==> v.rpcHost != "0.0.0.0")
            && d.host.Some? && d.port.Some? && d.moniker.Some? && d.basePort.Some?
  {
  }

  /** The four validators of a configuration that lists none */
  lemma {:induction false} DefaultValidatorsRead(i: nat)
    requires i < 4
    ensures |ReadValidators(DefaultValidators())| == 4
    ensures ReadValidators(DefaultValidators())[i] ==
            Validator("127.0.0.1", 8000 + 10 * i, ["node0", "node1", "node2", "node3"][i], 8000 + 10 * i,
                      "127.0.0.1", "0.0.0.0")
  {
    var monikers := ["node0", "node1", "node2", "node3"];
    assert "node" + ['0'] == monikers[0] && "node" + ['1'] == monikers[1];
    assert "node" + ['2'] == monikers[2] && "node" + ['3'] == monikers[3];
  }

  /** A missing or empty network mapping */
  predicate Unset(d: Option<NetworkDict>) {
    d.None? || (d.value.name.None? && d.value.subnet.None? && d.value.other == map[])
  }

  /** A docker section, by its names, subnets and nodes */
  lemma {:induction false} TopologyReads(d: RawDocker)
    requires NodesNamed(d)
    ensures var t := ReadTopology(d);
            var name := if d.network.Some? then d.network.value else "tempo-devnet";
            var subnet := if d.subnet.Some? then d.subnet.value else Subnet(0x0A58_0000, 24);
            && (t.twoNetwork <==> d.validatorNetwork.Some? || d.publicNetwork.Some?)
            && ValidatorNetworkName(t) == t.network
            && (!t.twoNetwork || Unset(d.validatorNetwork) ==> t.network == name && t.subnet == subnet)
            && (t.twoNetwork && !Unset(d.validatorNetwork) ==>
                && t.network == d.validatorNetwork.value.name.GetOr("tempo-validator-net")
                && t.subnet == d.validatorNetwork.value.subnet.GetOr(Subnet(0x0A58_0000, 24)))
            && PublicNetworkName(t) ==
               (if Unset(d.publicNetwork) then "tempo-public-net"
                else d.publicNetwork.value.name.GetOr("tempo-public-net"))
            && PublicSubnet(t) ==
               (if Unset(d.publicNetwork) then Subnet(0x0A59_0000, 24)
                else d.publicNetwork.value.subnet.GetOr(Subnet(0x0A59_0000, 24)))
  {
  }

  /** The name of the validator network of any topology: its mapping's, if there are two networks and it has one */
  lemma {:induction false} ValidatorNetworkNamed(t: Topology)
    ensures ValidatorNetworkName(t) ==
            if t.twoNetwork && t.validatorNetwork.name.Some? then t.validatorNetwork.name.value else t.network
  {
  }

  /** The three lists of nodes, which a single-network section does not read */
  lemma {:induction false} NodesRead(d: RawDocker, i: nat)
    requires NodesNamed(d)
    ensures var t := ReadTopology(d);
            if d.validatorNetwork.None? && d.publicNetwork.None?
            then t.followNodes == [] && t.p2pProxies == [] && t.publicNodes == []
            else
              && |t.followNodes| == |d.followNodes|
              && |t.p2pProxies| == |d.p2pProxies|
              && |t.publicNodes| == |d.publicNodes|
              && (i < |d.followNodes| ==> NodeReads(d.followNodes[i], 9000, t.followNodes[i]))
              && (i < |d.p2pProxies| ==> NodeReads(d.p2pProxies[i], 7000, t.p2pProxies[i]))
              && (i < |d.publicNodes| ==> NodeReads(d.publicNodes[i], 6000, t.publicNodes[i]))
  {
  }

  /** A node keeps its name, and its port if it has one. */
  predicate NodeReads(d: RawNode, defaultPort: int, n: Node) {
    d.moniker == Some(n.moniker) && (if d.port.Some? then n.port == d.port.value else n.port == defaultPort)
  }

  /** An empty mapping stands for these values. */
  lemma {:induction false} EmptyMappingReads(data: Raw)
    requires data == Raw(None, None, None, None, None, None, None, None, None, None, None, None,
                         map[], map[], map[], [], [], RawDocker(None, None, None, None, None, [], [], []), [])
    ensures Normalize(data).chain ==
            ChainSettings(1337, 10_000, 100, 500_000_000, None,
                          "test test test test test test test test test test test junk",
                          false, false, false, [0, 0, 0, 0, 0, 0, 0, 0, 0])
    ensures Normalize(data).node ==
            NodeSettings("tempo", "tempo", "tempo-xtask", map[], map[], [], [], "ghcr.io/tempoxyz/tempo:latest")
    ensures |GenesisAddresses(Normalize(data))| == 4
  {
    assert ReadHardforks(map[]) == [0, 0, 0, 0, 0, 0, 0, 0, 0];
  }

  // ---------------------------------------------------------------- normal form

  /** A validator survives writing and reading exactly when it has a moniker, and every one read has. */
  lemma {:induction false} ValidatorRoundTrip(v: Validator, d: RawValidator)
    ensures ReadValidator(ValidatorDict(v)) == v <==> v.moniker != ""
    ensures ReadValidator(ValidatorDict(ReadValidator(d))) == ReadValidator(d)
  {
    assert DefaultMoniker(v.port) != "";
  }

  lemma {:induction false} NodesRoundTrip(ns: seq<Node>, defaultPort: int)
    ensures ReadNodes(NodeDicts(ns), defaultPort) == ns
  {
  }

  lemma {:induction false} ValidatorsRoundTrip(ds: seq<RawValidator>)
    ensures ReadValidators(ValidatorDicts(ReadValidators(ds))) == ReadValidators(ds)
  {
    var vs := ReadValidators(ds);
    forall i | 0 <= i < |vs| ensures ReadValidators(ValidatorDicts(vs))[i] == vs[i] {
      ValidatorRoundTrip(vs[i], ds[i]);
    }
  }

  /** The topology with the mappings of both networks spelled out */
  function FilledIn(t: Topology): Topology {
    if t.twoNetwork then
      t.(validatorNetwork := NetworkDict(Some(t.network), Some(t.subnet), map[]),
         publicNetwork := NetworkDict(Some(PublicNetworkName(t)), Some(PublicSubnet(t)), map[]))
    else t
  }

  lemma {:induction false} TopologyRoundTrip(d: RawDocker, image: string)
    requires NodesNamed(d)
    ensures NodesNamed(DockerDict(image, ReadTopology(d)))
    ensures ReadTopology(DockerDict(image, ReadTopology(d))) == FilledIn(ReadTopology(d))
  {
    var t := ReadTopology(d);
    NodesRoundTrip(t.followNodes, 9000);
    NodesRoundTrip(t.p2pProxies, 7000);
    NodesRoundTrip(t.publicNodes, 6000);
  }

  /**
   Writing a configuration and reading it again keeps every field except the two binary names, which
   are not written, and the raw mappings of the two networks, which come back spelled out.
   */
  lemma {:induction false} RebuiltSettings(data: Raw)
    requires Accepted(data)
    ensures var s := Normalize(data);
            && Accepted(DictOf(s))
            && Normalize(DictOf(s)) == s.(
                 node := s.node.(
                   tempoBin := DefaultBin(s.node.backend),
                   tempoXtaskBin := DefaultXtaskBin(s.node.backend)),
                 docker := FilledIn(s.docker))
  {
    var s := Normalize(data);
    TopologyRoundTrip(data.docker, s.node.dockerImage);
    ValidatorsRoundTrip(if data.validators == [] then DefaultValidators() else data.validators);
    assert ReadHardforks(HardforkDict(s.chain.hardforks)) == s.chain.hardforks;
    assert |ValidatorDicts(s.validators)| > 0;
  }

  /** `to_dict` is a normal form: reading it and writing again changes nothing. */
  lemma {:induction false} ToDictIsNormalForm(data: Raw)
    requires Accepted(data)
    ensures Accepted(DictOf(Normalize(data)))
    ensures DictOf(Normalize(DictOf(Normalize(data)))) == DictOf(Normalize(data))
  {
    RebuiltSettings(data);
  }

  /** Both known keys are there and no other. */
  predicate Spelled(d: NetworkDict) {
    d.name.Some? && d.subnet.Some? && d.other == map[]
  }

  /** Exactly when nothing is lost: default binary names, and network mappings with exactly the two known keys */
  lemma {:induction false} NothingLostIff(data: Raw)
    requires Accepted(data)
    ensures var s := Normalize(data);
            && Accepted(DictOf(s))
            && (Normalize(DictOf(s)) == s <==>
                && s.node.tempoBin == DefaultBin(s.node.backend)
                && s.node.tempoXtaskBin == DefaultXtaskBin(s.node.backend)
                && (s.docker.twoNetwork ==> Spelled(s.docker.validatorNetwork) && Spelled(s.docker.publicNetwork)))
  {
    RebuiltSettings(data);
    var s := Normalize(data);
    assert s.docker == FilledIn(s.docker) <==>
      (s.docker.twoNetwork ==>
        && s.docker.validatorNetwork == NetworkDict(Some(s.docker.network), Some(s.docker.subnet), map[])
        && s.docker.publicNetwork ==
           NetworkDict(Some(PublicNetworkName(s.docker)), Some(PublicSubnet(s.docker)), map[]));
  }

  /** Every derived name and address is the same after the round trip. */
  lemma {:induction false} DerivedValuesSurvive(data: Raw, index: nat)
    requires Accepted(data)
    ensures Accepted(DictOf(Normalize(data)))
    ensures var s := Normalize(data);
            var t := Normalize(DictOf(s));
            && ValidatorNetworkName(t.docker) == ValidatorNetworkName(s.docker)
            && PublicNetworkName(t.docker) == PublicNetworkName(s.docker)
            && DockerIp(t.docker, index) == DockerIp(s.docker, index)
            && DockerPublicIp(t.docker, index) == DockerPublicIp(s.docker, index)
            && GenesisAddresses(t) == GenesisAddresses(s)
  {
    RebuiltSettings(data);
  }

  // ---------------------------------------------------------------- the class

  class DevnetConfig {
    var chain: ChainSettings
    var node: NodeSettings
    var dockerTwoNetwork: bool
    var dockerNetwork: string
    var dockerSubnet: Subnet
    var dockerValidatorNetwork: NetworkDict
    var dockerPublicNetwork: NetworkDict
    var dockerFollowNodes: seq<Node>
    var dockerP2pProxies: seq<Node>
    var dockerPublicNodes: seq<Node>
    var validators: seq<Validator>

    function Docker(): Topology
      reads this
    {
      Topology(dockerTwoNetwork, dockerNetwork, dockerSubnet, dockerValidatorNetwork, dockerPublicNetwork,
               dockerFollowNodes, dockerP2pProxies, dockerPublicNodes)
    }

    function View(): Settings
      reads this
    {
      Settings(chain, node, Docker(), validators)
    }

    /** `__init__`; without `Accepted` the source raises `KeyError`. */
    constructor (data: Raw)
      requires Accepted(data)
      ensures View() == Normalize(data)
    {
      chain := ChainSettings(
        data.chainId.GetOr(DEFAULT_CHAIN_ID), data.accounts.GetOr(DEFAULT_ACCOUNTS),
        data.epochLength.GetOr(DEFAULT_EPOCH_LENGTH), data.gasLimit.GetOr(DEFAULT_GAS_LIMIT),
        data.seed, data.mnemonic.GetOr(DEFAULT_MNEMONIC),
        data.noDkgInGenesis.GetOr(false), data.noExtraTokens.GetOr(false), data.noPairwiseLiquidity.GetOr(false),
        []);
      var backend := data.backend.GetOr(DEFAULT_BACKEND);
      var defaultBin := if backend == DEFAULT_BACKEND then DEFAULT_TEMPO_BIN else backend;
      var defaultXtask := if backend == DEFAULT_BACKEND then DEFAULT_TEMPO_XTASK_BIN else backend + "-xtask";
      node := NodeSettings(
        backend, data.tempoBin.GetOr(defaultBin), data.tempoXtaskBin.GetOr(defaultXtask),
        data.patchGenesis, data.patchReth, data.patchNodeFlags, data.patchGenesisFlags,
        data.docker.image.GetOr(DEFAULT_DOCKER_IMAGE));
      new;
      SetHardforks(data.hardforks);
      InitDockerTopology(data.docker);
      SetValidators(data.validators);
    }

    /** An empty list stands for the four default validators. */
    method SetValidators(raw: seq<RawValidator>)
      modifies this`validators
      ensures validators == ReadValidators(if raw == [] then DefaultValidators() else raw)
    {
      var rawValidators := raw;
      if rawValidators == [] {
        rawValidators := DefaultValidators();
      }
      validators := ReadValidators(rawValidators);
    }

    /** The loop over the hardfork attributes */
    method SetHardforks(given: map<nat, int>)
      modifies this`chain
      ensures chain == old(chain).(hardforks := ReadHardforks(given))
    {
      chain := chain.(hardforks := []);
      for i := 0 to HARDFORKS
        invariant chain == old(chain).(hardforks := chain.hardforks)
        invariant |chain.hardforks| == i
        invariant forall j :: 0 <= j < i ==> chain.hardforks[j] == ReadHardforks(given)[j]
      {
        chain := chain.(hardforks := chain.hardforks + [if i in given then given[i] else 0]);
      }
    }

    /** `_init_docker_topology`: single-network values first, overridden when a network key is there */
    method InitDockerTopology(d: RawDocker)
      requires NodesNamed(d)
      modifies this
      ensures View() == old(View()).(docker := ReadTopology(d))
    {
      dockerTwoNetwork := false;
      dockerNetwork := d.network.GetOr(DEFAULT_DOCKER_NETWORK);
      dockerSubnet := d.subnet.GetOr(DEFAULT_DOCKER_SUBNET);
      dockerValidatorNetwork := NO_NETWORK;
      dockerPublicNetwork := NO_NETWORK;
      dockerFollowNodes := [];
      dockerP2pProxies := [];
      dockerPublicNodes := [];
      if d.validatorNetwork.None? && d.publicNetwork.None? {
        return;
      }
      dockerTwoNetwork := true;
      dockerValidatorNetwork := OrElse(d.validatorNetwork, NetworkDict(Some(dockerNetwork), Some(dockerSubnet), map[]));
      dockerPublicNetwork := OrElse(d.publicNetwork,
        NetworkDict(Some(DEFAULT_DOCKER_PUBLIC_NETWORK), Some(DEFAULT_DOCKER_PUBLIC_SUBNET), map[]));
      dockerNetwork := dockerValidatorNetwork.name.GetOr(DEFAULT_VALIDATOR_NETWORK);
      dockerSubnet := dockerValidatorNetwork.subnet.GetOr(DEFAULT_DOCKER_SUBNET);
      dockerFollowNodes := ReadNodes(d.followNodes, 9000);
      dockerP2pProxies := ReadNodes(d.p2pProxies, 7000);
      dockerPublicNodes := ReadNodes(d.publicNodes, 6000);
    }

    /** `to_dict`, key by key */
    method ToDict() returns (d: Raw)
      requires |chain.hardforks| == HARDFORKS
      ensures d == DictOf(View())
    {
      d := Raw(Some(chain.chainId), Some(chain.accounts), Some(chain.epochLength), Some(chain.gasLimit), None,
               Some(chain.mnemonic), None, None, None, None, None, None,
               map[], map[], map[], [], [], NO_DOCKER, ValidatorDicts(validators));
      d := AddOptions(d);
      var times := HardforkTimes();
      d := d.(hardforks := times);
      d := AddPatches(d);
      var docker := DockerSection();
      d := d.(docker := docker);
    }

    /** The keys that are written only when they differ from the default */
    method AddOptions(d: Raw) returns (e: Raw)
      requires d.seed.None? && d.backend.None?
      requires d.noDkgInGenesis.None? && d.noExtraTokens.None? && d.noPairwiseLiquidity.None?
      ensures e == d.(backend := if node.backend != DEFAULT_BACKEND then Some(node.backend) else None,
                      seed := chain.seed,
                      noDkgInGenesis := Flag(chain.noDkgInGenesis), noExtraTokens := Flag(chain.noExtraTokens),
                      noPairwiseLiquidity := Flag(chain.noPairwiseLiquidity))
    {
      e := d;
      if node.backend != DEFAULT_BACKEND {
        e := e.(backend := Some(node.backend));
      }
      if chain.seed.Some? {
        e := e.(seed := chain.seed);
      }
      if chain.noDkgInGenesis {
        e := e.(noDkgInGenesis := Some(true));
      }
      if chain.noExtraTokens {
        e := e.(noExtraTokens := Some(true));
      }
      if chain.noPairwiseLiquidity {
        e := e.(noPairwiseLiquidity := Some(true));
      }
    }

    /** The loop over the hardfork attributes that are not zero */
    method HardforkTimes() returns (times: map<nat, int>)
      requires |chain.hardforks| == HARDFORKS
      ensures times == HardforkDict(chain.hardforks)
    {
      times := map[];
      for i := 0 to HARDFORKS
        invariant times == map j: nat | j < i && chain.hardforks[j] != 0 :: chain.hardforks[j]
      {
        if chain.hardforks[i] != 0 {
          times := times[i := chain.hardforks[i]];
        }
      }
    }

    /** The patches that are not empty */
    method AddPatches(d: Raw) returns (e: Raw)
      requires d.patchGenesis == map[] && d.patchReth == map[] && d.patchNodeFlags == [] && d.patchGenesisFlags == []
      ensures e == d.(patchGenesis := node.patchGenesis, patchReth := node.patchReth,
                      patchNodeFlags := node.patchNodeFlags, patchGenesisFlags := node.patchGenesisFlags)
    {
      e := d;
      if node.patchGenesis != map[] {
        e := e.(patchGenesis := node.patchGenesis);
      }
      if node.patchReth != map[] {
        e := e.(patchReth := node.patchReth);
      }
      if node.patchNodeFlags != [] {
        e := e.(patchNodeFlags := node.patchNodeFlags);
      }
      if node.patchGenesisFlags != [] {
        e := e.(patchGenesisFlags := node.patchGenesisFlags);
      }
    }

    /** The `docker` key of `to_dict` */
    method DockerSection() returns (k: RawDocker)
      ensures k == DockerDict(node.dockerImage, Docker())
    {
      if dockerTwoNetwork {
        k := NO_DOCKER.(
          image := Some(node.dockerImage),
          validatorNetwork := Some(NetworkDict(Some(ValidatorNetworkName(Docker())), Some(dockerSubnet), map[])),
          publicNetwork := Some(NetworkDict(Some(PublicNetworkName(Docker())), Some(PublicSubnet(Docker())), map[])));
        if dockerFollowNodes != [] {
          k := k.(followNodes := NodeDicts(dockerFollowNodes));
        }
        if dockerP2pProxies != [] {
          k := k.(p2pProxies := NodeDicts(dockerP2pProxies));
        }
        if dockerPublicNodes != [] {
          k := k.(publicNodes := NodeDicts(dockerPublicNodes));
        }
      } else {
        k := NO_DOCKER.(image := Some(node.dockerImage), network := Some(dockerNetwork), subnet := Some(dockerSubnet));
      }
    }
  }

  /** The round trip on live objects: write, rebuild, write again */
  method RewriteConfig(data: Raw) returns (first: Raw, second: Raw)
    requires Accepted(data)
    ensures first == second
    ensures Accepted(first) && DictOf(Normalize(first)) == first
  {
    var config := new DevnetConfig(data);
    first := config.ToDict();
    RebuiltSettings(data);
    ToDictIsNormalForm(data);
    var rebuilt := new DevnetConfig(first);
    second := rebuilt.ToDict();
  }
}
