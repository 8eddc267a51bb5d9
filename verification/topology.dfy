/** Chains, nodes and the role a node plays in each chain (internal/domain/model,
    merged_config.go). */
module Topology {
  import opened Text

  datatype NodeRole = Auto | EntryRole | TransitRole | ExitRole

  datatype Transport = Reality | Xhttp | AwgTransport | Hysteria2

  datatype UserProtocol = AwgUsers | TuicUsers | MtproxyUsers | VlessUsers | UnsetUsers

  datatype Strategy = Unset | Fallback | UrlTest | Failover | Selector | Bond

  /** A balancer-side tunnel to one exit node. */
  datatype ExitLink = ExitLink(target: string, iface: string, address: string)

  datatype ChainNode = ChainNode(id: string, port: int, role: NodeRole, inboundRef: string, transitUuid: string,
                                 transitAddress: string, exitTargets: seq<string>, exitLinks: seq<ExitLink>)

  datatype Level = Level(nodes: seq<ChainNode>, strategy: Strategy)

  /** Per-node credentials: generated once, never rotated by a redeploy. */
  datatype Keys = Keys(uuid: string, serverPriv: string, serverPub: string, shortId: string, tlsKey: string)

  /** AmneziaWG obfuscation material: the I1-I5 packets and the H1-H4 header ranges. */
  datatype Obfs = Obfs(cpsLevel: int, cpsMimicry: string, i1: string, i2: string, i3: string, i4: string, i5: string,
                       h1: string, h2: string, h3: string, h4: string)

  /** `sni` is the server name the chain's preset resolves to. */
  datatype Chain = Chain(name: string, nodes: seq<ChainNode>, levels: seq<Level>, strategy: Strategy,
                         transport: Transport, userProtocol: UserProtocol, userEntryPort: int, sni: string,
                         obfuscation: string, serverPriv: string, serverPub: string, obfs: Obfs, tuicUuid: string)
  {
    predicate IsLevelized() {
      levels != []
    }
  }

  datatype NodeInbound = NodeInbound(protocol: string, port: int, tag: string, source: string, profileId: string,
                                     awg3: bool, awgServerAddress: string, outboundTag: string, mieruTransport: string,
                                     obfuscation: string, serverName: string, keys: Keys, obfs: Obfs)

  /** An operator-defined AWG client interface on a node. */
  datatype AwgOutbound = AwgOutbound(id: string, enabled: bool, privateKey: string, endpoint: string, tag: string)
  {
    function IfaceName(): string {
      if id != "" then "awgo-" + id else if tag != "" then "awgo-" + tag else "awgo-1"
    }
  }

  datatype NodeInfo = NodeInfo(id: string, inbounds: seq<NodeInbound>, kernelAwg3: bool, awgOutbounds: seq<AwgOutbound>,
                               tlsDomain: string, caddyInstalled: bool)

  /** The first node with the given ID. */
  function FirstIndex(nodes: seq<ChainNode>, id: string): (r: Option<nat>)
    ensures r.Some? ==> r.value < |nodes| && nodes[r.value].id == id && forall j :: 0 <= j < r.value ==> nodes[j].id != id
    ensures r.None? ==> forall j :: 0 <= j < |nodes| ==> nodes[j].id != id
  {
    if nodes == [] then None
    else if nodes[0].id == id then Some(0)
    else
      match FirstIndex(nodes[1..], id)
      case None => None
      case Some(k) => Some(k + 1)
  }

  predicate DistinctIds(nodes: seq<ChainNode>) {
    forall i, j :: 0 <= i < j < |nodes| ==> nodes[i].id != nodes[j].id
  }

  lemma {:induction false} FirstIndexDistinct(nodes: seq<ChainNode>, i: nat)
    requires DistinctIds(nodes) && i < |nodes|
    ensures FirstIndex(nodes, nodes[i].id) == Some(i)
  {
    assert FirstIndex(nodes, nodes[i].id).Some?;
  }

  /** AllNodes of a levelized chain: the levels one after the other. */
  function Flatten(levels: seq<Level>): seq<ChainNode> {
    if levels == [] then [] else levels[0].nodes + Flatten(levels[1..])
  }

  function AllNodes(c: Chain): seq<ChainNode> {
    if c.IsLevelized() then Flatten(c.levels) else c.nodes
  }

  // ---- Roles ----

  datatype Role = Role(chain: Chain, index: nat, node: ChainNode, isEntry: bool, isTransit: bool, hasOutbound: bool,
                       level: int, next: seq<ChainNode>)

  /** The role of a node in a flat chain: by its explicit role, or by position. */
  function FlatRole(c: Chain, i: nat): Role
    requires i < |c.nodes|
  {
    var n := c.nodes[i];
    Role(c, i, n, n.role == EntryRole || (n.role == Auto && i == 0), n.role == TransitRole || (n.role == Auto && i > 0),
         i + 1 < |c.nodes|, -1, if i + 1 < |c.nodes| then [c.nodes[i + 1]] else [])
  }

  /** The role of the node at place k of level l, `before` nodes being in earlier levels. */
  function LevelRole(c: Chain, l: nat, before: nat, k: nat): Role
    requires l < |c.levels| && k < |c.levels[l].nodes|
  {
    var n := c.levels[l].nodes[k];
    Role(c, before + k, n, l == 0, l > 0 && n.role != ExitRole, l + 1 < |c.levels|, l,
         if l + 1 < |c.levels| then c.levels[l + 1].nodes else [])
  }

  function RoleFrom(c: Chain, l: nat, before: nat, id: string): Option<Role>
    requires l <= |c.levels|
    decreases |c.levels| - l
  {
    if l == |c.levels| then None
    else
      match FirstIndex(c.levels[l].nodes, id)
      case Some(k) => Some(LevelRole(c, l, before, k))
      case None => RoleFrom(c, l + 1, before + |c.levels[l].nodes|, id)
  }

  function RoleIn(c: Chain, id: string): Option<Role> {
    if c.IsLevelized() then RoleFrom(c, 0, 0, id)
    else
      match FirstIndex(c.nodes, id)
      case Some(i) => Some(FlatRole(c, i))
      case None => None
  }

  function Roles(chains: seq<Chain>, id: string): seq<Role> {
    if chains == [] then []
    else
      var c := chains[|chains| - 1];
      Roles(chains[..|chains| - 1], id)
      + match RoleIn(c, id) case Some(r) => [r] case None => []
  }

  method FindNode(nodes: seq<ChainNode>, id: string) returns (r: Option<nat>)
    ensures r == FirstIndex(nodes, id)
  {
    for i := 0 to |nodes|
      invariant forall j :: 0 <= j < i ==> nodes[j].id != id
    {
      if nodes[i].id == id {
        return Some(i);
      }
    }
    return None;
  }

  /** The scan of one chain inside resolveChainRoles. */
  method FindRole(c: Chain, id: string) returns (r: Option<Role>)
    ensures r == RoleIn(c, id)
  {
    if !c.IsLevelized() {
      var i := FindNode(c.nodes, id);
      return if i.Some? then Some(FlatRole(c, i.value)) else None;
    }
    var flat: nat := 0;
    for l := 0 to |c.levels|
      invariant RoleFrom(c, l, flat, id) == RoleFrom(c, 0, 0, id)
    {
      var k := FindNode(c.levels[l].nodes, id);
      if k.Some? {
        return Some(LevelRole(c, l, flat, k.value));
      }
      flat := flat + |c.levels[l].nodes|;
    }
    return None;
  }

  /** resolveChainRoles: the node's role in every chain that contains it, in chain order. */
  method ResolveChainRoles(id: string, chains: seq<Chain>) returns (roles: seq<Role>)
    ensures roles == Roles(chains, id)
  {
    roles := [];
    for i := 0 to |chains|
      invariant roles == Roles(chains[..i], id)
    {
      assert chains[..i + 1][..i] == chains[..i];
      var r := FindRole(chains[i], id);
      if r.Some? {
        roles := roles + [r.value];
      }
    }
    assert chains[..|chains|] == chains;
  }

  predicate DistinctNames(chains: seq<Chain>) {
    forall i, j :: 0 <= i < j < |chains| ==> chains[i].name != chains[j].name
  }

  /** Every role of the node comes from one of the chains. */
  lemma {:induction false} RoleHasChain(chains: seq<Chain>, id: string, r: Role)
    requires r in Roles(chains, id)
    ensures exists i :: 0 <= i < |chains| && RoleIn(chains[i], id) == Some(r)
  {
    hide RoleIn;
    var front := chains[..|chains| - 1];
    if r in Roles(front, id) {
      RoleHasChain(front, id, r);
      var i :| 0 <= i < |front| && RoleIn(front[i], id) == Some(r);
      assert RoleIn(chains[i], id) == Some(r);
    } else {
      assert RoleIn(chains[|chains| - 1], id) == Some(r);
    }
  }

  lemma {:induction false} ChainGivesRole(chains: seq<Chain>, id: string, i: nat)
    requires i < |chains| && RoleIn(chains[i], id).Some?
    ensures RoleIn(chains[i], id).value in Roles(chains, id)
  {
    hide RoleIn;
    if i < |chains| - 1 {
      assert chains[..|chains| - 1][i] == chains[i];
      ChainGivesRole(chains[..|chains| - 1], id, i);
    }
  }

  lemma {:induction false} RolesMember(chains: seq<Chain>, id: string, r: Role)
    ensures r in Roles(chains, id) <==> exists i :: 0 <= i < |chains| && RoleIn(chains[i], id) == Some(r)
  {
    hide Roles, RoleIn;
    if r in Roles(chains, id) {
      RoleHasChain(chains, id, r);
    }
    if i :| 0 <= i < |chains| && RoleIn(chains[i], id) == Some(r) {
      ChainGivesRole(chains, id, i);
    }
  }

  lemma {:induction false} RoleFromChain(c: Chain, l: nat, before: nat, id: string)
    requires l <= |c.levels|
    ensures RoleFrom(c, l, before, id).Some? ==>
              RoleFrom(c, l, before, id).value.chain == c && RoleFrom(c, l, before, id).value.node.id == id
    decreases |c.levels| - l
  {
    if l < |c.levels| && FirstIndex(c.levels[l].nodes, id).None? {
      RoleFromChain(c, l + 1, before + |c.levels[l].nodes|, id);
    }
  }

  lemma {:induction false} RoleInChain(c: Chain, id: string)
    ensures RoleIn(c, id).Some? ==> RoleIn(c, id).value.chain == c && RoleIn(c, id).value.node.id == id
  {
    RoleFromChain(c, 0, 0, id);
  }

  // ---- Linear chains ----

  /** One node per hop: an entry followed by transits. */
  predicate Linear(c: Chain) {
    && c.nodes != [] && DistinctIds(c.nodes)
    && if c.IsLevelized() then
         && |c.levels| == |c.nodes|
         && (forall i :: 0 <= i < |c.nodes| ==> c.levels[i].nodes == [c.nodes[i]])
         && (forall i :: 0 < i < |c.nodes| ==> c.nodes[i].role != ExitRole)
       else
         && c.nodes[0].role in {Auto, EntryRole}
         && (forall i :: 0 < i < |c.nodes| ==> c.nodes[i].role in {Auto, TransitRole})
  }

  /** The role every node of a linear chain gets, in either representation. */
  function HopRole(c: Chain, i: nat): Role
    requires i < |c.nodes|
  {
    Role(c, i, c.nodes[i], i == 0, i > 0, i + 1 < |c.nodes|, if c.IsLevelized() then i else -1,
         if i + 1 < |c.nodes| then [c.nodes[i + 1]] else [])
  }

  lemma {:induction false} LinearRoleFrom(c: Chain, l: nat, i: nat)
    requires Linear(c) && c.IsLevelized() && l <= i < |c.nodes|
    ensures RoleFrom(c, l, l, c.nodes[i].id) == Some(HopRole(c, i))
    decreases i - l
  {
    assert c.levels[l].nodes == [c.nodes[l]];
    if l < i {
      assert FirstIndex([c.nodes[l]], c.nodes[i].id).None?;
      LinearRoleFrom(c, l + 1, i);
    } else {
      assert FirstIndex([c.nodes[l]], c.nodes[l].id) == Some(0);
      if i + 1 < |c.nodes| {
        assert c.levels[i + 1].nodes == [c.nodes[i + 1]];
      }
    }
  }

  lemma {:induction false} LinearRole(c: Chain, i: nat)
    requires Linear(c) && i < |c.nodes|
    ensures RoleIn(c, c.nodes[i].id) == Some(HopRole(c, i))
  {
    if c.IsLevelized() {
      LinearRoleFrom(c, 0, i);
    } else {
      FirstIndexDistinct(c.nodes, i);
    }
  }
}
