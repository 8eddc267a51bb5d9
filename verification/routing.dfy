/** The route section and the outbounds a node's chains compile to (merged_config.go,
    awg_tun_overlay.go, strategygroup.go), with the first-match meaning of the rules. */
module Routing {
  import opened Text
  import opened Topology

  const TUN_IN := "tun-in"
  const DIRECT := "direct"
  const DIRECT_OUT := "direct-out"

  datatype User = User(id: string, name: string, awgAddress: string, vlessUuid: string, tuicUuid: string,
                       hysteria2Password: string, chainExit: map<string, string>)

  // ---- Rules and what they mean ----

  datatype Action = ToOutbound(tag: string) | Sniff | HijackDns | DialDirect | Reject

  /** Empty lists do not restrict; `dest` stands for the domain, address and rule-set matchers. */
  datatype Rule = Rule(inbound: seq<string>, sourceIP: seq<string>, authUser: seq<string>, protocol: seq<string>,
                       dest: seq<string>, action: Action)

  /** A connection as the router sees it; `traits` are the destination matchers it satisfies. */
  datatype Packet = Packet(inbound: string, source: string, auth: string, protocols: set<string>, traits: set<string>)

  predicate Matches(r: Rule, p: Packet) {
    && (r.inbound == [] || p.inbound in r.inbound)
    && (r.sourceIP == [] || p.source in r.sourceIP)
    && (r.authUser == [] || p.auth in r.authUser)
    && (r.protocol == [] || exists x :: x in r.protocol && x in p.protocols)
    && (r.dest == [] || exists x :: x in r.dest && x in p.traits)
  }

  /** The action of the first matching rule; a sniff rule looks at the packet and lets it pass. */
  function FirstMatch(rules: seq<Rule>, p: Packet): Option<Action> {
    if rules == [] then None
    else if Matches(rules[0], p) && rules[0].action != Sniff then Some(rules[0].action)
    else FirstMatch(rules[1..], p)
  }

  function Or(a: Option<Action>, b: Option<Action>): Option<Action> {
    if a.Some? then a else b
  }

  lemma {:induction false} FirstMatchConcat(a: seq<Rule>, b: seq<Rule>, p: Packet)
    ensures FirstMatch(a + b, p) == Or(FirstMatch(a, p), FirstMatch(b, p))
  {
    if a == [] {
      assert a + b == b;
    } else {
      assert (a + b)[1..] == a[1..] + b;
      FirstMatchConcat(a[1..], b, p);
    }
  }

  lemma {:induction false} NoMatch(rules: seq<Rule>, p: Packet)
    requires forall r :: r in rules ==> !Matches(r, p)
    ensures FirstMatch(rules, p) == None
  {
    if rules != [] {
      NoMatch(rules[1..], p);
    }
  }

  // ---- Tags ----

  function UserInTag(c: Chain, nodeId: string): string {
    if |EntryNodes(c)| > 1 then "ch-" + (c.name + "-user-in-" + nodeId) else "ch-" + (c.name + "-user-in")
  }

  function TransportInTag(name: string): string {
    "ch-" + (name + "-transport-in")
  }

  function StandaloneTag(i: nat, protocol: string): string {
    "sa-" + (Itoa(i) + "-" + protocol)
  }

  /** The tag a node's own inbound is rendered with. */
  function InboundTag(info: NodeInfo, i: nat): string
    requires i < |info.inbounds|
  {
    if info.inbounds[i].tag == "" then StandaloneTag(i, info.inbounds[i].protocol) else info.inbounds[i].tag
  }

  function EntriesAmong(nodes: seq<ChainNode>): seq<ChainNode> {
    if nodes == [] then []
    else EntriesAmong(nodes[..|nodes| - 1])
         + if nodes[|nodes| - 1].role == EntryRole then [nodes[|nodes| - 1]] else []
  }

  /** chainEntryNodes. */
  function EntryNodes(c: Chain): seq<ChainNode> {
    if c.IsLevelized() then c.levels[0].nodes
    else
      var entries := EntriesAmong(c.nodes);
      if entries == [] && c.nodes != [] then [c.nodes[0]] else entries
  }

  function IndexOfDot(s: string): int {
    if s == "" then -1 else if s[0] == '.' then 0
    else if IndexOfDot(s[1..]) < 0 then -1 else IndexOfDot(s[1..]) + 1
  }

  lemma {:induction false} IndexOfDotBound(s: string)
    ensures -1 <= IndexOfDot(s) < |s|
  {
    if s != "" {
      IndexOfDotBound(s[1..]);
    }
  }

  /** safeSNILabel: up to the first dot, or the first sixteen characters. */
  function SafeLabel(s: string): string {
    IndexOfDotBound(s);
    if IndexOfDot(s) > 0 then s[..IndexOfDot(s)] else if |s| > 16 then s[..16] else s
  }

  function GroupTag(name: string, downstream: int): string {
    "ch-" + (name + "-grp-l" + FormatInt(downstream))
  }

  function SniOutTag(name: string, sni: string): string {
    "ch-" + (name + "-out-" + SafeLabel(sni))
  }

  function AwgOutTag(name: string, nextId: string): string {
    "ch-" + (name + "-out-awg-" + SafeLabel(nextId))
  }

  /** transportOutTag for a member of a multi-target group. */
  function MemberTag(name: string, sni: string, nextId: string): string {
    "ch-" + (name + "-out-" + SafeLabel(sni) + "-" + SafeLabel(nextId))
  }

  /** chainInterNodeOutboundTag: what route rules name to reach the next hop. */
  function ForwardTag(r: Role): string {
    if |r.next| > 1 then GroupTag(r.chain.name, r.level + 1)
    else if r.chain.transport == AwgTransport then
      AwgOutTag(r.chain.name, if r.hasOutbound && r.index + 1 < |r.chain.nodes| then r.chain.nodes[r.index + 1].id else "")
    else SniOutTag(r.chain.name, r.chain.sni)
  }

  // ---- Per-client pins ----

  function UsersFor(users: map<string, seq<User>>, chain: string): seq<User> {
    if chain in users then users[chain] else []
  }

  /** The inbound on which a role's users arrive, if the role pins users at all. */
  function PinInbound(r: Role): Option<string> {
    if r.isEntry then Some(if r.chain.userProtocol == AwgUsers then TUN_IN else UserInTag(r.chain, r.node.id))
    else if r.isTransit then Some(TransportInTag(r.chain.name))
    else None
  }

  /** What an entry inbound reports about a connection of the user: the UUID for TUIC, the name
      otherwise. */
  function Reported(c: Chain, u: User): string {
    if c.userProtocol == TuicUsers then u.tuicUuid else u.name
  }

  /** userAuthIdentity. */
  function AuthIdentity(u: User, p: UserProtocol): string {
    match p
    case TuicUsers => u.tuicUuid
    case VlessUsers => if u.vlessUuid == "" then "" else u.name
    case _ => u.name
  }

  /** nodeIsAtOrBefore: the pinned exit comes later in the flat order. */
  predicate Downstream(r: Role, exit: string) {
    match FirstIndex(r.chain.nodes, exit)
    case Some(k) => k > r.index
    case None => false
  }

  function NextId(r: Role): string {
    if r.hasOutbound && r.index + 1 < |r.chain.nodes| then r.chain.nodes[r.index + 1].id else ""
  }

  function SourceRule(inbound: string, address: string, tag: string): Rule {
    Rule([inbound], [address], [], [], [], ToOutbound(tag))
  }

  function AuthRule(inbound: string, auth: string, tag: string): Rule {
    Rule([inbound], [], [auth], [], [], ToOutbound(tag))
  }

  function PinOf(c: Chain, u: User): string {
    if c.name in u.chainExit then u.chainExit[c.name] else ""
  }

  /** The rule one user's pin adds on one node: source address for AWG, identity otherwise. */
  function PinRule(r: Role, inbound: string, u: User): Option<Rule> {
    var exit := PinOf(r.chain, u);
    if exit == "" then None
    else if r.chain.userProtocol == AwgUsers then
      if u.awgAddress == "" then None
      else if exit == r.node.id then Some(SourceRule(inbound, u.awgAddress, DIRECT_OUT))
      else if r.hasOutbound && Downstream(r, exit) then Some(SourceRule(inbound, u.awgAddress, ForwardTag(r)))
      else None
    else
      var auth := AuthIdentity(u, r.chain.userProtocol);
      if auth == "" then None
      else if exit == r.node.id then Some(AuthRule(inbound, auth, DIRECT_OUT))
      else if r.hasOutbound && exit == NextId(r) then Some(AuthRule(inbound, auth, ForwardTag(r)))
      else None
  }

  function Opt(r: Option<Rule>): seq<Rule> {
    if r.Some? then [r.value] else []
  }

  function UserPins(r: Role, inbound: string, users: seq<User>): seq<Rule> {
    if users == [] then []
    else UserPins(r, inbound, users[..|users| - 1]) + Opt(PinRule(r, inbound, users[|users| - 1]))
  }

  function RolePins(r: Role, users: map<string, seq<User>>): seq<Rule> {
    match PinInbound(r)
    case None => []
    case Some(inbound) => UserPins(r, inbound, UsersFor(users, r.chain.name))
  }

  function Pins(roles: seq<Role>, users: map<string, seq<User>>): seq<Rule> {
    if roles == [] then [] else Pins(roles[..|roles| - 1], users) + RolePins(roles[|roles| - 1], users)
  }

  // ---- Structural rules ----

  function OnwardTag(r: Role): string {
    if r.hasOutbound then ForwardTag(r) else DIRECT_OUT
  }

  /** The default route of one role; the TUN catch-all covers AWG entries. */
  function DefaultRule(r: Role): Option<Rule> {
    if r.isEntry && r.chain.userProtocol == AwgUsers then None
    else
      var tags := (if r.isEntry then [UserInTag(r.chain, r.node.id)] else [])
                  + (if r.isTransit then [TransportInTag(r.chain.name)] else []);
      if tags == [] then None else Some(Rule(tags, [], [], [], [], ToOutbound(OnwardTag(r))))
  }

  function Defaults(roles: seq<Role>): seq<Rule> {
    if roles == [] then [] else Defaults(roles[..|roles| - 1]) + Opt(DefaultRule(roles[|roles| - 1]))
  }

  function StandaloneRule(i: nat, ib: NodeInbound): Rule {
    Rule([StandaloneTag(i, ib.protocol)], [], [], [], [], ToOutbound(if ib.outboundTag == "" then DIRECT_OUT else ib.outboundTag))
  }

  function StandaloneRules(inbounds: seq<NodeInbound>): seq<Rule> {
    seq(|inbounds|, i requires 0 <= i < |inbounds| => StandaloneRule(i, inbounds[i]))
  }

  function MergedRules(roles: seq<Role>, info: NodeInfo, users: map<string, seq<User>>, manual: seq<Rule>): seq<Rule> {
    manual + Pins(roles, users) + Defaults(roles) + StandaloneRules(info.inbounds)
  }

  /** buildMergedRoute: operator rules, then pins, then defaults, then standalone inbounds. */
  method BuildMergedRoute(roles: seq<Role>, info: NodeInfo, users: map<string, seq<User>>, manual: seq<Rule>)
    returns (rules: seq<Rule>)
    ensures rules == MergedRules(roles, info, users, manual)
  {
    hide Pins, Defaults, StandaloneRule;
    var pins := AppendPins(manual, roles, users);
    var defaults := AppendDefaults(pins, roles);
    rules := defaults;
    for i := 0 to |info.inbounds|
      invariant rules == defaults + StandaloneRules(info.inbounds)[..i]
    {
      rules := rules + [StandaloneRule(i, info.inbounds[i])];
    }
  }

  method AppendPins(rules: seq<Rule>, roles: seq<Role>, users: map<string, seq<User>>) returns (more: seq<Rule>)
    ensures more == rules + Pins(roles, users)
  {
    hide RolePins;
    more := rules;
    for i := 0 to |roles|
      invariant more == rules + Pins(roles[..i], users)
    {
      assert roles[..i + 1][..i] == roles[..i];
      more := AppendRolePins(more, roles[i], users);
    }
    assert roles[..|roles|] == roles;
  }

  method AppendRolePins(rules: seq<Rule>, r: Role, users: map<string, seq<User>>) returns (more: seq<Rule>)
    ensures more == rules + RolePins(r, users)
  {
    hide PinRule, UsersFor, PinInbound;
    more := rules;
    var inbound := PinInbound(r);
    if inbound.None? {
      return;
    }
    var us := UsersFor(users, r.chain.name);
    for i := 0 to |us|
      invariant more == rules + UserPins(r, inbound.value, us[..i])
    {
      assert us[..i + 1][..i] == us[..i];
      var pin := PinRule(r, inbound.value, us[i]);
      if pin.Some? {
        more := more + [pin.value];
      }
    }
    assert us[..|us|] == us;
  }

  method AppendDefaults(rules: seq<Rule>, roles: seq<Role>) returns (more: seq<Rule>)
    ensures more == rules + Defaults(roles)
  {
    hide DefaultRule;
    more := rules;
    for i := 0 to |roles|
      invariant more == rules + Defaults(roles[..i])
    {
      assert roles[..i + 1][..i] == roles[..i];
      var d := DefaultRule(roles[i]);
      assert rules + (Defaults(roles[..i]) + Opt(d)) == rules + Defaults(roles[..i]) + Opt(d);
      if d.Some? {
        more := more + [d.value];
      }
    }
    assert roles[..|roles|] == roles;
  }

  // ---- The TUN overlay of kernel AWG nodes ----

  predicate IsChainSourced(ib: NodeInbound) {
    "chain:" <= ib.source
  }

  /** chainEntryAWG3Inbound finds a match. */
  predicate EntryIsAwg3(info: NodeInfo, r: Role) {
    exists i :: 0 <= i < |info.inbounds|
      && info.inbounds[i].protocol == "awg" && info.inbounds[i].awg3
      && ((r.node.inboundRef != "" && info.inbounds[i].profileId == r.node.inboundRef)
          || info.inbounds[i].source == "chain:" + r.chain.name)
  }

  /** The AWG entry runs on the kernel, so its users arrive through the TUN. */
  predicate KernelEntry(info: NodeInfo, r: Role) {
    r.isEntry && r.chain.userProtocol == AwgUsers && (!EntryIsAwg3(info, r) || info.kernelAwg3)
  }

  /** awgTUNOverlayNeeded. */
  predicate OverlayNeeded(roles: seq<Role>, info: NodeInfo) {
    || (exists i :: 0 <= i < |roles| && (KernelEntry(info, roles[i]) || roles[i].node.exitTargets != []))
    || (exists i :: 0 <= i < |info.inbounds| && info.inbounds[i].protocol == "awg"
                    && (!info.inbounds[i].awg3 || info.kernelAwg3))
  }

  /** awgForwardOutboundForRoles: the first AWG entry decides. */
  function OverlayForward(roles: seq<Role>): string {
    if roles == [] then ""
    else if !(roles[0].isEntry && roles[0].chain.userProtocol == AwgUsers) then OverlayForward(roles[1..])
    else if roles[0].node.exitTargets != [] || !roles[0].hasOutbound then ""
    else ForwardTag(roles[0])
  }

  function FirstBalancer(roles: seq<Role>): Option<ChainNode> {
    if roles == [] then None
    else if roles[0].node.exitTargets != [] then Some(roles[0].node)
    else FirstBalancer(roles[1..])
  }

  function FirstAwgEntry(roles: seq<Role>): Option<ChainNode> {
    if roles == [] then None
    else if roles[0].isEntry && roles[0].chain.userProtocol == AwgUsers then Some(roles[0].node)
    else FirstAwgEntry(roles[1..])
  }

  /** awgOverlayNode. */
  function OverlayNode(roles: seq<Role>): Option<ChainNode> {
    if FirstBalancer(roles).Some? then FirstBalancer(roles) else FirstAwgEntry(roles)
  }

  function NamedIfaces(links: seq<ExitLink>): seq<string> {
    if links == [] then []
    else NamedIfaces(links[..|links| - 1]) + if links[|links| - 1].iface == "" then [] else [links[|links| - 1].iface]
  }

  function ExitIfaces(n: Option<ChainNode>): seq<string> {
    if n.None? then [] else NamedIfaces(n.value.exitLinks)
  }

  const EXIT_PREFIX := "awg-exit-"

  function ExitTag(iface: string): string {
    (if |iface| > |EXIT_PREFIX| && EXIT_PREFIX <= iface then iface[|EXIT_PREFIX|..] else iface) + "-direct"
  }

  function ExitTags(ifaces: seq<string>): seq<string> {
    seq(|ifaces|, i requires 0 <= i < |ifaces| => ExitTag(ifaces[i]))
  }

  /** Where the TUN catch-all sends what no earlier rule claimed. */
  function CatchAllTag(roles: seq<Role>): string {
    var n := OverlayNode(roles);
    var exits := ExitIfaces(n);
    if OverlayForward(roles) != "" then OverlayForward(roles)
    else if |exits| > 1 then n.value.id + "-balancer"
    else if |exits| == 1 then ExitTag(exits[0])
    else DIRECT
  }

  const SNIFF := Rule([], [], [], [], [], Sniff)
  const HIJACK := Rule([], [], [], ["dns"], [], HijackDns)

  function CatchAll(roles: seq<Role>): Rule {
    Rule([TUN_IN], [], [], [], [], ToOutbound(CatchAllTag(roles)))
  }

  // ---- The route section ----

  datatype Route = Route(rules: seq<Rule>, final: string)

  /** The route section of a node: the overlay's actions first, its catch-all last. `routeDns`
      is AB_ROUTE_DNS=1. */
  function RouteSection(roles: seq<Role>, info: NodeInfo, users: map<string, seq<User>>, manual: seq<Rule>, routeDns: bool): Option<Route> {
    var overlay := OverlayNeeded(roles, info);
    var merged := if (routeDns && roles != []) || manual != [] then Some(Route(MergedRules(roles, info, users, manual), DIRECT_OUT)) else None;
    var sniffed := if merged.Some? && manual != [] && !overlay then Some(Route([SNIFF] + merged.value.rules, DIRECT_OUT)) else merged;
    if !overlay then sniffed
    else
      var r := if sniffed.Some? then sniffed.value else Route([], DIRECT);
      Some(Route([SNIFF, HIJACK] + r.rules + [CatchAll(roles)], r.final))
  }

  function Decision(route: Route, p: Packet): Action {
    match FirstMatch(route.rules, p)
    case Some(a) => a
    case None => ToOutbound(route.final)
  }

  // ---- Outbounds ----

  datatype Outbound =
    | Plain(tag: string)
    | Bound(tag: string, iface: string)
    | Hop(tag: string, chain: string, target: string)
    | Group(tag: string, members: seq<string>)

  /** What a build depends on besides the store: the default server name, and which nodes'
      transport outbounds can be derived. */
  datatype Env = Env(defaultSni: string, derived: set<string>)

  function EffectiveSni(c: Chain, env: Env): string {
    if c.sni == "" then env.defaultSni else c.sni
  }

  /** The nodes a role dials: the next level, or the next node of a flat chain. */
  function Targets(r: Role): seq<ChainNode> {
    if !r.hasOutbound then []
    else if r.next == [] && r.index + 1 < |r.chain.nodes| then [r.chain.nodes[r.index + 1]]
    else r.next
  }

  function TargetTag(c: Chain, n: ChainNode, group: bool, env: Env): string {
    if c.transport == AwgTransport then AwgOutTag(c.name, n.id)
    else if group then MemberTag(c.name, EffectiveSni(c, env), n.id)
    else SniOutTag(c.name, EffectiveSni(c, env))
  }

  /** One outbound per derived target; the frozen Hysteria2 transport has none. */
  function HopsTo(c: Chain, ts: seq<ChainNode>, group: bool, env: Env): seq<Outbound> {
    if ts == [] then []
    else
      var n := ts[|ts| - 1];
      HopsTo(c, ts[..|ts| - 1], group, env)
      + if c.transport != Hysteria2 && n.id in env.derived then [Hop(TargetTag(c, n, group, env), c.name, n.id)] else []
  }

  function TagsOf(obs: seq<Outbound>): seq<string> {
    seq(|obs|, i requires 0 <= i < |obs| => obs[i].tag)
  }

  predicate Supported(s: Strategy) {
    s != Bond
  }

  function LevelStrategy(r: Role): Strategy {
    if !r.chain.IsLevelized() then r.chain.strategy
    else if 0 <= r.level < |r.chain.levels| then r.chain.levels[r.level].strategy
    else Unset
  }

  function RoleHops(r: Role, env: Env): seq<Outbound> {
    HopsTo(r.chain, Targets(r), |Targets(r)| > 1, env)
  }

  /** The outbounds of a role: its hops, and the strategy group around several of them. AWG
      hops are endpoints instead. */
  function RoleOutbounds(r: Role, env: Env): seq<Outbound> {
    var hops := RoleHops(r, env);
    if r.chain.transport == AwgTransport then []
    else if |hops| > 1 && Supported(LevelStrategy(r)) then hops + [Group(GroupTag(r.chain.name, r.level + 1), TagsOf(hops))]
    else hops
  }

  function RoleEndpoints(r: Role, env: Env): seq<Outbound> {
    if r.chain.transport == AwgTransport then RoleHops(r, env) else []
  }

  function AllOutbounds(roles: seq<Role>, env: Env): seq<Outbound> {
    if roles == [] then [] else AllOutbounds(roles[..|roles| - 1], env) + RoleOutbounds(roles[|roles| - 1], env)
  }

  function AllEndpoints(roles: seq<Role>, env: Env): seq<Outbound> {
    if roles == [] then [] else AllEndpoints(roles[..|roles| - 1], env) + RoleEndpoints(roles[|roles| - 1], env)
  }

  function BoundExits(ifaces: seq<string>): seq<Outbound> {
    seq(|ifaces|, i requires 0 <= i < |ifaces| => Bound(ExitTag(ifaces[i]), ifaces[i]))
  }

  function OverlayOutbounds(roles: seq<Role>): seq<Outbound> {
    var n := OverlayNode(roles);
    var exits := ExitIfaces(n);
    [Plain(DIRECT)] + BoundExits(exits)
    + if |exits| > 1 then [Group(n.value.id + "-balancer", ExitTags(exits))] else []
  }

  function OperatorOutbounds(obs: seq<AwgOutbound>, i: nat): seq<Outbound>
    requires i <= |obs|
  {
    if i == 0 then []
    else
      var o := obs[i - 1];
      OperatorOutbounds(obs, i - 1)
      + if o.enabled && o.endpoint != "" then [Bound(if o.tag == "" then "awgo-" + Itoa(i) else o.tag, o.IfaceName())] else []
  }

  /** Everything offered for the outbound list, in order; the first of each tag is kept. */
  function Offered(roles: seq<Role>, info: NodeInfo, env: Env): seq<Outbound> {
    AllOutbounds(roles, env)
    + (if OverlayNeeded(roles, info) then OverlayOutbounds(roles) else [])
    + [Plain(DIRECT_OUT)]
    + OperatorOutbounds(info.awgOutbounds, |info.awgOutbounds|)
  }

  /** The first outbound of a tag. */
  function Find(obs: seq<Outbound>, tag: string): (r: Option<Outbound>)
    ensures r.Some? ==> r.value in obs && r.value.tag == tag
    ensures r.None? ==> forall o :: o in obs ==> o.tag != tag
  {
    if obs == [] then None else if obs[0].tag == tag then Some(obs[0]) else Find(obs[1..], tag)
  }

  /** addIfMissing over the whole list. */
  method Emit(offered: seq<Outbound>) returns (kept: seq<Outbound>)
    ensures forall tag :: Find(kept, tag) == Find(offered, tag)
    ensures forall i, j :: 0 <= i < j < |kept| ==> kept[i].tag != kept[j].tag
  {
    kept := [];
    var seen: set<string> := {};
    for i := 0 to |offered|
      invariant forall tag :: Find(kept, tag) == Find(offered[..i], tag)
      invariant forall j, k :: 0 <= j < k < |kept| ==> kept[j].tag != kept[k].tag
      invariant forall j :: 0 <= j < |kept| ==> kept[j].tag in seen
      invariant forall tag :: tag in seen ==> Find(kept, tag).Some?
    {
      assert offered[..i + 1] == offered[..i] + [offered[i]];
      ghost var before := kept;
      if offered[i].tag !in seen {
        seen := seen + {offered[i].tag};
        kept := kept + [offered[i]];
      }
      forall tag
        ensures Find(kept, tag) == Find(offered[..i + 1], tag)
      {
        FindConcat(offered[..i], [offered[i]], tag);
        FindConcat(before, [offered[i]], tag);
      }
    }
    assert offered[..|offered|] == offered;
  }

  lemma {:induction false} FindConcat(a: seq<Outbound>, b: seq<Outbound>, tag: string)
    ensures Find(a + b, tag) == if Find(a, tag).Some? then Find(a, tag) else Find(b, tag)
  {
    if a == [] {
      assert a + b == b;
    } else {
      assert (a + b)[1..] == a[1..] + b;
      FindConcat(a[1..], b, tag);
    }
  }

  /** Outbounds are searched before endpoints. */
  function Resolve(roles: seq<Role>, info: NodeInfo, env: Env, tag: string): Option<Outbound> {
    var o := Find(Offered(roles, info, env), tag);
    if o.Some? then o else Find(AllEndpoints(roles, env), tag)
  }
}
