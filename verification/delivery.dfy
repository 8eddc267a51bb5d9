/** End-to-end delivery along a linear chain: the rules of each node, evaluated first-match hop by
    hop, carry every user's traffic to the node it leaves from. */
module Delivery {
  import opened Text
  import opened Topology
  import opened Routing
  import opened TagClosure

  datatype World = World(chains: seq<Chain>, infos: map<string, NodeInfo>, users: map<string, seq<User>>,
                         manual: map<string, seq<Rule>>, env: Env)

  function Info(w: World, id: string): NodeInfo {
    if id in w.infos then w.infos[id] else NodeInfo(id, [], false, [], "", false)
  }

  function Manual(w: World, id: string): seq<Rule> {
    if id in w.manual then w.manual[id] else []
  }

  /** A node accepts a chain's inter-node traffic when it has a transit listener for it. */
  predicate Accepts(w: World, id: string, chain: string) {
    exists r :: r in Roles(w.chains, id) && r.chain.name == chain && r.isTransit && r.chain.transport != Hysteria2
  }

  datatype Fate = Egress(node: string) | Stuck(node: string) | Underway

  datatype Next = Leave | Drop | Forward(target: string, chain: string)

  /** What becomes of a packet sent to an outbound. */
  function Onto(w: World, o: Option<Outbound>): Next {
    match o
    case Some(Plain(_)) => Leave
    case Some(Hop(_, chain, target)) => if Accepts(w, target, chain) then Forward(target, chain) else Drop
    case _ => Drop
  }

  function ActionAt(w: World, id: string, p: Packet): Action {
    match RouteSection(Roles(w.chains, id), Info(w, id), w.users, Manual(w, id), true)
    case None => Reject
    case Some(route) => Decision(route, p)
  }

  function ResolveAt(w: World, id: string, tag: string): Option<Outbound> {
    Resolve(Roles(w.chains, id), Info(w, id), w.env, tag)
  }

  function Step(w: World, id: string, p: Packet): Next {
    match ActionAt(w, id, p)
    case ToOutbound(tag) => Onto(w, ResolveAt(w, id, tag))
    case DialDirect => Leave
    case _ => Drop
  }

  function ChainNamed(chains: seq<Chain>, name: string): Option<Chain> {
    if chains == [] then None
    else if chains[0].name == name then Some(chains[0])
    else ChainNamed(chains[1..], name)
  }

  /** The identity a transit listener reports: its only user is named after its tag; an AWG
      endpoint reports none. The end user's identity does not travel. */
  function HopAuth(c: Chain): string {
    if c.transport == AwgTransport then "" else TransportInTag(c.name)
  }

  /** A packet that has come in on the chain's transit listener. */
  function Onward(chains: seq<Chain>, chain: string, p: Packet): Packet {
    match ChainNamed(chains, chain)
    case Some(c) => p.(inbound := TransportInTag(chain), auth := HopAuth(c))
    case None => p.(inbound := TransportInTag(chain))
  }

  /** Follow a packet for at most `fuel` nodes. */
  function Follow(w: World, id: string, p: Packet, fuel: nat): Fate
    decreases fuel
  {
    if fuel == 0 then Underway
    else
      match Step(w, id, p)
      case Leave => Egress(id)
      case Drop => Stuck(id)
      case Forward(target, chain) => Follow(w, target, Onward(w.chains, chain, p), fuel - 1)
  }

  // ---- The user's pin ----

  function PinnedAt(c: Chain, u: User): Option<nat> {
    if PinOf(c, u) == "" then None else FirstIndex(c.nodes, PinOf(c, u))
  }

  /** All that the chain's users say about one source address. */
  ghost predicate PinIs(c: Chain, users: seq<User>, source: string, pin: Option<nat>) {
    && (forall u :: u in users && u.awgAddress == source ==> PinnedAt(c, u) == pin)
    && (pin.Some? ==> pin.value < |c.nodes| && exists u :: u in users && u.awgAddress == source)
  }

  function ExitIndex(c: Chain, pin: Option<nat>): nat
    requires c.nodes != []
  {
    if pin.Some? then pin.value else |c.nodes| - 1
  }

  predicate DistinctAddresses(users: seq<User>) {
    forall i, j :: 0 <= i < j < |users| && users[i].awgAddress != "" ==> users[i].awgAddress != users[j].awgAddress
  }

  lemma {:induction false} DistinctPins(c: Chain, users: seq<User>, u: User)
    requires DistinctAddresses(users) && u in users && u.awgAddress != ""
    ensures PinIs(c, users, u.awgAddress, PinnedAt(c, u))
  {
    forall v | v in users && v.awgAddress == u.awgAddress
      ensures v == u
    {
      var i :| 0 <= i < |users| && users[i] == u;
      var j :| 0 <= j < |users| && users[j] == v;
      if i < j {
      } else if j < i {
      }
    }
  }

  // ---- Which rules see the packet ----

  lemma {:induction false} StandaloneNoMatch(inbounds: seq<NodeInbound>, p: Packet)
    requires p.inbound == TUN_IN || (|p.inbound| > 0 && p.inbound[0] == 'c')
    ensures FirstMatch(StandaloneRules(inbounds), p) == None
  {
    forall r | r in StandaloneRules(inbounds)
      ensures !Matches(r, p)
    {
      var i :| 0 <= i < |inbounds| && r == StandaloneRule(i, inbounds[i]);
      assert StandaloneTag(i, inbounds[i].protocol)[0] == 's';
    }
    NoMatch(StandaloneRules(inbounds), p);
  }

  lemma {:induction false} UserPinsElsewhere(r: Role, inbound: string, users: seq<User>, p: Packet)
    requires inbound != p.inbound
    ensures FirstMatch(UserPins(r, inbound, users), p) == None
  {
    if users != [] {
      UserPinsElsewhere(r, inbound, users[..|users| - 1], p);
      var last := Opt(PinRule(r, inbound, users[|users| - 1]));
      FirstMatchConcat(UserPins(r, inbound, users[..|users| - 1]), last, p);
      NoMatch(last, p);
    }
  }

  /** Only the chain's own role has pins for the packet's inbound. */
  lemma {:induction false} PinsOnly(roles: seq<Role>, users: map<string, seq<User>>, p: Packet, r: Role)
    requires forall q :: q in roles && q != r ==> PinInbound(q) != Some(p.inbound)
    ensures FirstMatch(Pins(roles, users), p) == if r in roles then FirstMatch(RolePins(r, users), p) else None
  {
    if roles != [] {
      var q := roles[|roles| - 1];
      PinsOnly(roles[..|roles| - 1], users, p, r);
      FirstMatchConcat(Pins(roles[..|roles| - 1], users), RolePins(q, users), p);
      if q != r && PinInbound(q).Some? {
        UserPinsElsewhere(q, PinInbound(q).value, UsersFor(users, q.chain.name), p);
      }
    }
  }

  predicate DefaultFor(r: Role, inbound: string) {
    DefaultRule(r).Some? && inbound in DefaultRule(r).value.inbound
  }

  lemma {:induction false} DefaultOne(r: Role, p: Packet)
    ensures FirstMatch(Opt(DefaultRule(r)), p) == if DefaultFor(r, p.inbound) then Some(ToOutbound(OnwardTag(r))) else None
  {
    if DefaultRule(r).Some? {
      assert Opt(DefaultRule(r))[1..] == [];
    }
  }

  lemma {:induction false} DefaultsOnly(roles: seq<Role>, p: Packet, r: Role)
    requires forall q :: q in roles && q != r ==> !DefaultFor(q, p.inbound)
    ensures FirstMatch(Defaults(roles), p)
         == if r in roles && DefaultFor(r, p.inbound) then Some(ToOutbound(OnwardTag(r))) else None
  {
    if roles != [] {
      var q := roles[|roles| - 1];
      DefaultsOnly(roles[..|roles| - 1], p, r);
      DefaultOne(q, p);
      hide DefaultFor, DefaultRule;
      FirstMatchConcat(Defaults(roles[..|roles| - 1]), Opt(DefaultRule(q)), p);
    }
  }

  function TunDefault(roles: seq<Role>, info: NodeInfo, p: Packet): Option<Action> {
    if OverlayNeeded(roles, info) && p.inbound == TUN_IN then Some(ToOutbound(CatchAllTag(roles))) else None
  }

  lemma {:induction false} MergedMatch(roles: seq<Role>, info: NodeInfo, users: map<string, seq<User>>, manual: seq<Rule>, p: Packet)
    ensures FirstMatch(MergedRules(roles, info, users, manual), p)
         == Or(FirstMatch(manual, p), Or(FirstMatch(Pins(roles, users), p),
               Or(FirstMatch(Defaults(roles), p), FirstMatch(StandaloneRules(info.inbounds), p))))
  {
    FirstMatchConcat(manual + Pins(roles, users) + Defaults(roles), StandaloneRules(info.inbounds), p);
    FirstMatchConcat(manual + Pins(roles, users), Defaults(roles), p);
    FirstMatchConcat(manual, Pins(roles, users), p);
  }

  lemma {:induction false} SniffPasses(rules: seq<Rule>, p: Packet)
    ensures FirstMatch([SNIFF] + rules, p) == FirstMatch(rules, p)
  {
    assert ([SNIFF] + rules)[1..] == rules;
  }

  lemma {:induction false} OverlayMatch(rules: seq<Rule>, roles: seq<Role>, p: Packet)
    requires "dns" !in p.protocols
    ensures FirstMatch([SNIFF, HIJACK] + rules + [CatchAll(roles)], p)
         == Or(FirstMatch(rules, p), if p.inbound == TUN_IN then Some(ToOutbound(CatchAllTag(roles))) else None)
  {
    FirstMatchConcat([SNIFF, HIJACK] + rules, [CatchAll(roles)], p);
    FirstMatchConcat([SNIFF, HIJACK], rules, p);
    assert [SNIFF, HIJACK][1..] == [HIJACK];
    assert [HIJACK][1..] == [];
    assert [CatchAll(roles)][1..] == [];
  }

  /** The decision for a non-DNS packet, layer by layer: operator rules, pins, defaults,
      standalone rules, TUN catch-all, final outbound. */
  lemma {:induction false} Layers(roles: seq<Role>, info: NodeInfo, users: map<string, seq<User>>, manual: seq<Rule>, p: Packet)
    requires roles != [] && "dns" !in p.protocols
    ensures RouteSection(roles, info, users, manual, true).Some?
    ensures var route := RouteSection(roles, info, users, manual, true).value;
            && route.final == DIRECT_OUT
            && FirstMatch(route.rules, p)
               == Or(FirstMatch(MergedRules(roles, info, users, manual), p), TunDefault(roles, info, p))
  {
    hide MergedRules, OverlayNeeded, CatchAll, FirstMatch, CatchAllTag;
    var rules := MergedRules(roles, info, users, manual);
    SniffPasses(rules, p);
    OverlayMatch(rules, roles, p);
    OverlayMatch([SNIFF] + rules, roles, p);
  }

  // ---- One hop ----

  /** The pin rule a node of the chain has for a source address. */
  function PinAction(c: Chain, i: nat, pin: Option<nat>): Option<Action>
    requires i < |c.nodes|
  {
    if pin.None? || pin.value < i then None
    else if pin.value == i then Some(ToOutbound(DIRECT_OUT))
    else Some(ToOutbound(ForwardTag(HopRole(c, i))))
  }

  lemma {:induction false} PinRuleAt(c: Chain, i: nat, inbound: string, u: User)
    requires Linear(c) && c.userProtocol == AwgUsers && i < |c.nodes|
    ensures PinRule(HopRole(c, i), inbound, u)
         == if u.awgAddress == "" || PinAction(c, i, PinnedAt(c, u)).None? then None
            else Some(SourceRule(inbound, u.awgAddress, PinAction(c, i, PinnedAt(c, u)).value.tag))
  {
    var exit := PinOf(c, u);
    FirstIndexDistinct(c.nodes, i);
  }

  lemma {:induction false} PinOne(c: Chain, i: nat, inbound: string, u: User, p: Packet)
    requires Linear(c) && c.userProtocol == AwgUsers && i < |c.nodes| && inbound == p.inbound && p.source != ""
    ensures FirstMatch(Opt(PinRule(HopRole(c, i), inbound, u)), p)
         == if u.awgAddress == p.source then PinAction(c, i, PinnedAt(c, u)) else None
  {
    PinRuleAt(c, i, inbound, u);
    hide PinRule, HopRole, Linear, PinnedAt;
    var last := Opt(PinRule(HopRole(c, i), inbound, u));
    if last != [] {
      assert last[1..] == [];
    }
  }

  lemma {:induction false} UserPinsAt(c: Chain, i: nat, inbound: string, users: seq<User>, p: Packet, pin: Option<nat>)
    requires Linear(c) && c.userProtocol == AwgUsers && i < |c.nodes| && inbound == p.inbound && p.source != ""
    requires forall u :: u in users && u.awgAddress == p.source ==> PinnedAt(c, u) == pin
    ensures FirstMatch(UserPins(HopRole(c, i), inbound, users), p)
         == if exists u :: u in users && u.awgAddress == p.source then PinAction(c, i, pin) else None
  {
    hide PinRule, HopRole, Linear, PinnedAt, PinAction, FirstMatch;
    if users == [] {
      NoMatch([], p);
    } else {
      var front, u := users[..|users| - 1], users[|users| - 1];
      assert users == front + [u];
      UserPinsAt(c, i, inbound, front, p, pin);
      PinOne(c, i, inbound, u, p);
      FirstMatchConcat(UserPins(HopRole(c, i), inbound, front), Opt(PinRule(HopRole(c, i), inbound, u)), p);
    }
  }

  /** The roles other chains give a node of this chain do not touch this chain's tags. */
  ghost predicate Clear(w: World, c: Chain, i: nat)
    requires i < |c.nodes|
  {
    var id := c.nodes[i].id;
    var roles := Roles(w.chains, id);
    && (forall r :: r in roles && r.chain.name != c.name ==>
          && (i == 0 && c.userProtocol == AwgUsers ==> !(r.isEntry && r.chain.userProtocol == AwgUsers))
          && (r.isEntry ==> UserInTag(r.chain, id) != TransportInTag(c.name) && UserInTag(r.chain, id) != UserInTag(c, id))
          && (i == 0 ==> TransportInTag(r.chain.name) != UserInTag(c, id)))
    && (i + 1 < |c.nodes| ==>
          forall o :: o in Offered(roles, Info(w, id), w.env) || o in AllEndpoints(roles, w.env) ==>
            (o.tag == ForwardTag(HopRole(c, i)) ==> o == Hop(o.tag, c.name, c.nodes[i + 1].id)))
  }

  /** A chain whose delivery is claimed: linear, with dialable hops, and for AWG users a plain entry. */
  ghost predicate Deliverable(w: World, c: Chain) {
    && c in w.chains && DistinctNames(w.chains) && Linear(c) && Saved(c)
    && Buildable(c, w.env)
    && (c.userProtocol == AwgUsers ==>
          && c.nodes[0].exitTargets == []
          && (|c.nodes| == 1 ==> ExitIfaces(OverlayNode(Roles(w.chains, c.nodes[0].id))) == []))
    && (forall i :: 0 <= i < |c.nodes| ==> Clear(w, c, i))
  }

  lemma {:induction false} SameName(chains: seq<Chain>, j: nat, k: nat)
    requires DistinctNames(chains) && j < |chains| && k < |chains| && chains[j].name == chains[k].name
    ensures j == k
  {
    if j < k {
    } else if k < j {
    }
  }

  /** The chain is the only one of its name, so only it can give the node a role of that name. */
  lemma {:induction false} RoleOfName(chains: seq<Chain>, k: nat, id: string, r: Role)
    requires DistinctNames(chains) && k < |chains| && r in Roles(chains, id) && r.chain.name == chains[k].name
    ensures RoleIn(chains[k], id) == Some(r)
  {
    hide DistinctNames, RoleIn, Roles;
    RoleHasChain(chains, id, r);
    var j :| 0 <= j < |chains| && RoleIn(chains[j], id) == Some(r);
    RoleInChain(chains[j], id);
    SameName(chains, j, k);
  }

  lemma {:induction false} OwnRole(w: World, c: Chain, i: nat)
    requires Deliverable(w, c) && i < |c.nodes|
    ensures HopRole(c, i) in Roles(w.chains, c.nodes[i].id)
    ensures forall r :: r in Roles(w.chains, c.nodes[i].id) && r.chain.name == c.name ==> r == HopRole(c, i)
  {
    hide Clear, Linear, Buildable, Saved, DistinctNames, RoleIn, Roles, HopRole, ExitIfaces, OverlayNode;
    var id := c.nodes[i].id;
    LinearRole(c, i);
    var k :| 0 <= k < |w.chains| && w.chains[k] == c;
    ChainGivesRole(w.chains, id, k);
    forall r | r in Roles(w.chains, id) && r.chain.name == c.name
      ensures r == HopRole(c, i)
    {
      RoleOfName(w.chains, k, id, r);
    }
  }

  lemma {:induction false} TransportTagsDiffer(a: string, b: string)
    requires a != b
    ensures TransportInTag(a) != TransportInTag(b)
  {
    PrefixSame("ch-", a + "-transport-in", b + "-transport-in");
    assert (a + "-transport-in")[..|a|] == a && (b + "-transport-in")[..|b|] == b;
  }

  lemma {:induction false} TagHeads(c: Chain, id: string)
    ensures |TransportInTag(c.name)| > 0 && TransportInTag(c.name)[0] == 'c'
    ensures |UserInTag(c, id)| > 0 && UserInTag(c, id)[0] == 'c'
    ensures TransportInTag(c.name) != TUN_IN && UserInTag(c, id) != TUN_IN
  {
  }

  /** Where packets of the chain come in: at the entry the TUN or the chain's own inbound, then the
      transit listener. */
  function Arrival(c: Chain, i: nat): string
    requires c.nodes != []
  {
    if i > 0 then TransportInTag(c.name)
    else if c.userProtocol == AwgUsers then TUN_IN
    else UserInTag(c, c.nodes[0].id)
  }

  /** The packet as it comes in at node i. */
  function Arrived(c: Chain, i: nat, p: Packet): Packet
    requires c.nodes != []
  {
    if i == 0 then p.(inbound := Arrival(c, 0)) else p.(inbound := Arrival(c, i), auth := HopAuth(c))
  }

  /** The inbounds a role's rules can name. */
  lemma {:induction false} RoleInbounds(q: Role, inbound: string)
    requires inbound != TransportInTag(q.chain.name)
    requires q.isEntry ==> inbound != UserInTag(q.chain, q.node.id)
    requires inbound == TUN_IN ==> !(q.isEntry && q.chain.userProtocol == AwgUsers)
    ensures PinInbound(q) != Some(inbound) && !DefaultFor(q, inbound)
  {
    hide UserInTag, TransportInTag;
  }

  /** What sets another chain's role on a node of this chain apart. */
  lemma {:induction false} OtherRole(w: World, c: Chain, i: nat, q: Role)
    requires Deliverable(w, c) && i < |c.nodes| && q in Roles(w.chains, c.nodes[i].id) && q != HopRole(c, i)
    ensures q.chain.name != c.name && q.node.id == c.nodes[i].id
  {
    var id := c.nodes[i].id;
    OwnRole(w, c, i);
    hide HopRole, Deliverable;
    RolesMember(w.chains, id, q);
    var j :| 0 <= j < |w.chains| && RoleIn(w.chains[j], id) == Some(q);
    RoleInChain(w.chains[j], id);
  }

  lemma {:induction false} OthersBlind(w: World, c: Chain, i: nat, q: Role)
    requires Deliverable(w, c) && i < |c.nodes| && q in Roles(w.chains, c.nodes[i].id) && q != HopRole(c, i)
    ensures PinInbound(q) != Some(Arrival(c, i)) && !DefaultFor(q, Arrival(c, i))
  {
    OtherRole(w, c, i, q);
    assert Clear(w, c, i);
    TagHeads(q.chain, q.node.id);
    TransportTagsDiffer(q.chain.name, c.name);
    hide UserInTag, TransportInTag, HopRole, Deliverable, Offered, AllEndpoints, ForwardTag;
    RoleInbounds(q, Arrival(c, i));
  }

  lemma {:induction false} OwnDefault(c: Chain, i: nat)
    requires i < |c.nodes|
    ensures DefaultFor(HopRole(c, i), Arrival(c, i)) <==> i > 0 || c.userProtocol != AwgUsers
    ensures PinInbound(HopRole(c, i)) == Some(Arrival(c, i))
  {
  }

  /** The catch-all at the entry: forward if there is a next hop, leave here otherwise. */
  lemma {:induction false} EntryForward(roles: seq<Role>, r: Role)
    requires r in roles && r.isEntry && r.chain.userProtocol == AwgUsers && r.node.exitTargets == []
    requires forall q :: q in roles && q != r ==> !(q.isEntry && q.chain.userProtocol == AwgUsers)
    ensures OverlayForward(roles) == if r.hasOutbound then ForwardTag(r) else ""
  {
    if roles[0] != r {
      EntryForward(roles[1..], r);
    }
  }

  lemma {:induction false} EntryCatchAll(w: World, c: Chain)
    requires Deliverable(w, c) && c.userProtocol == AwgUsers
    ensures CatchAllTag(Roles(w.chains, c.nodes[0].id)) == if |c.nodes| > 1 then ForwardTag(HopRole(c, 0)) else DIRECT
  {
    var roles := Roles(w.chains, c.nodes[0].id);
    OwnRole(w, c, 0);
    assert Clear(w, c, 0);
    EntryForward(roles, HopRole(c, 0));
    if |c.nodes| > 1 {
      assert ForwardTag(HopRole(c, 0))[0] == 'c';
    }
  }

  /** What a node of the chain decides for a packet of the chain. */
  function HopDecision(c: Chain, i: nat, pin: Option<nat>): string
    requires i < |c.nodes|
  {
    if PinAction(c, i, pin).Some? then PinAction(c, i, pin).value.tag
    else if i + 1 < |c.nodes| then ForwardTag(HopRole(c, i))
    else if i == 0 then DIRECT
    else DIRECT_OUT
  }

  ghost predicate Quiet(w: World, c: Chain, i: nat, p: Packet)
    requires i < |c.nodes|
  {
    FirstMatch(Manual(w, c.nodes[i].id), Arrived(c, i, p)) == None
  }

  lemma {:induction false} PinsAtHop(w: World, c: Chain, i: nat, p: Packet, pin: Option<nat>)
    requires Deliverable(w, c) && c.userProtocol == AwgUsers && i < |c.nodes| && p.source != "" && p.inbound == Arrival(c, i)
    requires PinIs(c, UsersFor(w.users, c.name), p.source, pin)
    ensures FirstMatch(Pins(Roles(w.chains, c.nodes[i].id), w.users), p) == PinAction(c, i, pin)
  {
    var roles := Roles(w.chains, c.nodes[i].id);
    OwnRole(w, c, i);
    forall q | q in roles && q != HopRole(c, i)
      ensures PinInbound(q) != Some(p.inbound)
    {
      OthersBlind(w, c, i, q);
    }
    PinsOnly(roles, w.users, p, HopRole(c, i));
    OwnDefault(c, i);
    UserPinsAt(c, i, Arrival(c, i), UsersFor(w.users, c.name), p, pin);
  }

  lemma {:induction false} DefaultsAtHop(w: World, c: Chain, i: nat, p: Packet)
    requires Deliverable(w, c) && i < |c.nodes| && p.inbound == Arrival(c, i)
    ensures FirstMatch(Defaults(Roles(w.chains, c.nodes[i].id)), p)
         == if i > 0 || c.userProtocol != AwgUsers then Some(ToOutbound(OnwardTag(HopRole(c, i)))) else None
  {
    var roles := Roles(w.chains, c.nodes[i].id);
    OwnRole(w, c, i);
    forall q | q in roles && q != HopRole(c, i)
      ensures !DefaultFor(q, p.inbound)
    {
      OthersBlind(w, c, i, q);
    }
    DefaultsOnly(roles, p, HopRole(c, i));
    OwnDefault(c, i);
  }

  lemma {:induction false} EntryHasOverlay(w: World, c: Chain)
    requires Deliverable(w, c) && KernelEntry(Info(w, c.nodes[0].id), HopRole(c, 0))
    ensures OverlayNeeded(Roles(w.chains, c.nodes[0].id), Info(w, c.nodes[0].id))
  {
    var roles := Roles(w.chains, c.nodes[0].id);
    OwnRole(w, c, 0);
    hide KernelEntry, HopRole, Deliverable, Roles;
    var k :| 0 <= k < |roles| && roles[k] == HopRole(c, 0);
    assert KernelEntry(Info(w, c.nodes[0].id), roles[k]);
  }

  lemma {:induction false} TunAtHop(w: World, c: Chain, i: nat, p: Packet)
    requires Deliverable(w, c) && i < |c.nodes| && p.inbound == Arrival(c, i)
    requires KernelEntry(Info(w, c.nodes[0].id), HopRole(c, 0))
    ensures TunDefault(Roles(w.chains, c.nodes[i].id), Info(w, c.nodes[i].id), p)
         == if i > 0 then None else Some(ToOutbound(if |c.nodes| > 1 then ForwardTag(HopRole(c, 0)) else DIRECT))
  {
    TagHeads(c, c.nodes[i].id);
    hide ForwardTag, HopRole, KernelEntry, Roles, CatchAllTag, Deliverable, OverlayNeeded;
    if i == 0 {
      EntryHasOverlay(w, c);
      EntryCatchAll(w, c);
    }
  }

  /** The layers of a decision put together. */
  lemma {:induction false} DecisionFromLayers(w: World, id: string, p: Packet)
    requires Roles(w.chains, id) != [] && "dns" !in p.protocols
    requires FirstMatch(Manual(w, id), p) == None && FirstMatch(StandaloneRules(Info(w, id).inbounds), p) == None
    ensures var roles := Roles(w.chains, id);
            var m := Or(Or(FirstMatch(Pins(roles, w.users), p), FirstMatch(Defaults(roles), p)), TunDefault(roles, Info(w, id), p));
            ActionAt(w, id, p) == if m.Some? then m.value else ToOutbound(DIRECT_OUT)
  {
    hide Roles, RouteSection, TunDefault, Pins, Defaults, MergedRules, FirstMatch, StandaloneRules, Info, Manual;
    var roles := Roles(w.chains, id);
    Layers(roles, Info(w, id), w.users, Manual(w, id), p);
    MergedMatch(roles, Info(w, id), w.users, Manual(w, id), p);
  }

  lemma {:induction false} HopRoleHere(w: World, c: Chain, i: nat)
    requires Deliverable(w, c) && i < |c.nodes|
    ensures Roles(w.chains, c.nodes[i].id) != []
  {
    OwnRole(w, c, i);
  }

  lemma {:induction false} ArrivalTag(c: Chain, i: nat)
    requires c.nodes != []
    ensures Arrival(c, i) == TUN_IN || (|Arrival(c, i)| > 0 && Arrival(c, i)[0] == 'c')
  {
    TagHeads(c, c.nodes[0].id);
  }

  lemma {:induction false} DecisionAt(w: World, c: Chain, i: nat, p: Packet, pin: Option<nat>)
    requires Deliverable(w, c) && i < |c.nodes| && p.source != "" && p == Arrived(c, i, p) && "dns" !in p.protocols
    requires PinIs(c, UsersFor(w.users, c.name), p.source, pin) && Quiet(w, c, i, p)
    requires KernelEntry(Info(w, c.nodes[0].id), HopRole(c, 0))
    ensures ActionAt(w, c.nodes[i].id, p) == ToOutbound(HopDecision(c, i, pin))
  {
    assert c.userProtocol == AwgUsers && p.inbound == Arrival(c, i);
    hide Roles, ActionAt, Deliverable, KernelEntry, PinIs, PinAction, ForwardTag, TunDefault, Pins, Defaults,
         FirstMatch, StandaloneRules, Info, Manual, Arrival, Arrived, UsersFor;
    ArrivalTag(c, i);
    HopRoleHere(w, c, i);
    StandaloneNoMatch(Info(w, c.nodes[i].id).inbounds, p);
    DecisionFromLayers(w, c.nodes[i].id, p);
    PinsAtHop(w, c, i, p, pin);
    DefaultsAtHop(w, c, i, p);
    TunAtHop(w, c, i, p);
    PinActionShape(c, i, pin);
  }

  lemma {:induction false} PinActionShape(c: Chain, i: nat, pin: Option<nat>)
    requires i < |c.nodes|
    ensures PinAction(c, i, pin).Some? ==> PinAction(c, i, pin).value.ToOutbound?
  {
  }

  // ---- Where the decision leads ----

  lemma {:induction false} RoleTagsHead(roles: seq<Role>, env: Env, o: Outbound)
    requires o in AllOutbounds(roles, env)
    ensures |o.tag| > 0 && o.tag[0] == 'c'
  {
    var r := roles[|roles| - 1];
    if o in AllOutbounds(roles[..|roles| - 1], env) {
      RoleTagsHead(roles[..|roles| - 1], env, o);
    } else if o in RoleHops(r, env) {
      HopShape(r.chain, Targets(r), |Targets(r)| > 1, env, o);
    }
  }

  lemma {:induction false} EndsDiffer(x: string)
    ensures x + "-direct" != DIRECT_OUT && x + "-balancer" != DIRECT_OUT
  {
    assert (x + "-direct")[|x + "-direct"| - 2] == 'c';
    assert DIRECT_OUT[|DIRECT_OUT| - 2] == 'u';
    assert (x + "-balancer")[|x + "-balancer"| - 1] == 'r';
  }

  lemma {:induction false} OverlayTags(roles: seq<Role>, o: Outbound)
    requires o in OverlayOutbounds(roles)
    ensures o.tag != DIRECT_OUT
  {
    var exits := ExitIfaces(OverlayNode(roles));
    if o in BoundExits(exits) {
      var i :| 0 <= i < |exits| && BoundExits(exits)[i] == o;
      EndsDiffer(if |exits[i]| > |EXIT_PREFIX| && EXIT_PREFIX <= exits[i] then exits[i][|EXIT_PREFIX|..] else exits[i]);
    } else if o.Group? {
      EndsDiffer(OverlayNode(roles).value.id);
    }
  }

  lemma {:induction false} OverlayHead(roles: seq<Role>)
    ensures OverlayOutbounds(roles) != [] && OverlayOutbounds(roles)[0] == Plain(DIRECT)
  {
    hide OverlayNode, ExitIfaces, BoundExits, ExitTags;
  }

  lemma {:induction false} DirectOutResolves(roles: seq<Role>, info: NodeInfo, env: Env)
    ensures Resolve(roles, info, env, DIRECT_OUT) == Some(Plain(DIRECT_OUT))
  {
    var outs := AllOutbounds(roles, env);
    var over: seq<Outbound> := if OverlayNeeded(roles, info) then OverlayOutbounds(roles) else [];
    var mine := OperatorOutbounds(info.awgOutbounds, |info.awgOutbounds|);
    hide AllOutbounds, OverlayOutbounds, OverlayNeeded, OperatorOutbounds, AllEndpoints;
    forall o | o in outs + over
      ensures o.tag != DIRECT_OUT
    {
      if o in outs {
        RoleTagsHead(roles, env, o);
      } else {
        OverlayTags(roles, o);
      }
    }
    FindThird(outs, over, Plain(DIRECT_OUT), mine);
  }

  lemma {:induction false} DirectResolves(roles: seq<Role>, info: NodeInfo, env: Env)
    requires OverlayNeeded(roles, info)
    ensures Resolve(roles, info, env, DIRECT) == Some(Plain(DIRECT))
  {
    hide AllOutbounds, OverlayOutbounds, OverlayNeeded, OperatorOutbounds, AllEndpoints;
    var outs := AllOutbounds(roles, env);
    var over := OverlayOutbounds(roles);
    var mine := OperatorOutbounds(info.awgOutbounds, |info.awgOutbounds|);
    OverlayHead(roles);
    forall o | o in outs + []
      ensures o.tag != DIRECT
    {
      RoleTagsHead(roles, env, o);
    }
    var rest := over[1..] + [Plain(DIRECT_OUT)] + mine;
    FindThird(outs, [], Plain(DIRECT), rest);
    assert outs + [] + [Plain(DIRECT)] + rest == outs + over + [Plain(DIRECT_OUT)] + mine;
  }

  lemma {:induction false} FindThird(a: seq<Outbound>, b: seq<Outbound>, o: Outbound, rest: seq<Outbound>)
    requires forall x :: x in a + b ==> x.tag != o.tag
    ensures Find(a + b + [o] + rest, o.tag) == Some(o)
  {
    FindConcat(a + b + [o], rest, o.tag);
    FindConcat(a + b, [o], o.tag);
  }

  lemma {:induction false} ForwardIsEmitted(w: World, c: Chain, i: nat)
    requires Deliverable(w, c) && i + 1 < |c.nodes|
    ensures EmitsForward(HopRole(c, i), w.env)
  {
    LinearRole(c, i);
    assert ValidTopology(c);
    hide Linear, Clear, ForwardBuilds, EmitsForward, RoleIn;
    ValidBuilds(c, w.env, c.nodes[i].id);
    ForwardEmittedIff(HopRole(c, i), w.env);
  }

  lemma {:induction false} ForwardResolves(w: World, c: Chain, i: nat)
    requires Deliverable(w, c) && i + 1 < |c.nodes|
    ensures var tag := ForwardTag(HopRole(c, i));
            ResolveAt(w, c.nodes[i].id, tag) == Some(Hop(tag, c.name, c.nodes[i + 1].id))
  {
    hide Roles, ForwardTag, Deliverable, Emitted, AllOutbounds, AllEndpoints, OverlayOutbounds, OverlayNeeded,
         OperatorOutbounds, UserInTag, TransportInTag, HopRole, Info, Offered;
    var id := c.nodes[i].id;
    var roles := Roles(w.chains, id);
    var r := HopRole(c, i);
    OwnRole(w, c, i);
    ForwardUnique(w, c, i);
    ForwardIsEmitted(w, c, i);
    var o :| o in Emitted(r, w.env) && o.tag == ForwardTag(r);
    EmittedIsFound(roles, w.env, r, o);
    OfferedFirst(roles, Info(w, id), w.env, o);
  }

  lemma {:induction false} OfferedFirst(roles: seq<Role>, info: NodeInfo, env: Env, o: Outbound)
    requires o in AllOutbounds(roles, env) || o in AllEndpoints(roles, env)
    ensures o in Offered(roles, info, env) || o in AllEndpoints(roles, env)
  {
    hide AllOutbounds, AllEndpoints, OverlayOutbounds, OverlayNeeded, OperatorOutbounds;
  }

  lemma {:induction false} ForwardUnique(w: World, c: Chain, i: nat)
    requires Deliverable(w, c) && i + 1 < |c.nodes|
    ensures var id := c.nodes[i].id; var roles := Roles(w.chains, id);
            forall o :: o in Offered(roles, Info(w, id), w.env) || o in AllEndpoints(roles, w.env) ==>
              (o.tag == ForwardTag(HopRole(c, i)) ==> o == Hop(o.tag, c.name, c.nodes[i + 1].id))
  {
    assert Clear(w, c, i);
    hide Roles, Offered, AllEndpoints, ForwardTag, HopRole, Info, Linear, Buildable, UserInTag, TransportInTag;
  }

  lemma {:induction false} NextAccepts(w: World, c: Chain, i: nat)
    requires Deliverable(w, c) && 0 < i < |c.nodes|
    ensures Accepts(w, c.nodes[i].id, c.name)
  {
    OwnRole(w, c, i);
    assert HopRole(c, i).isTransit;
  }

  // ---- Whole paths ----

  lemma {:induction false} LeaveAt(w: World, c: Chain, i: nat, p: Packet, pin: Option<nat>)
    requires Deliverable(w, c) && i == ExitIndex(c, pin) < |c.nodes| && KernelEntry(Info(w, c.nodes[0].id), HopRole(c, 0))
    requires ActionAt(w, c.nodes[i].id, p) == ToOutbound(HopDecision(c, i, pin))
    ensures Step(w, c.nodes[i].id, p) == Leave
  {
    var id := c.nodes[i].id;
    DirectOutResolves(Roles(w.chains, id), Info(w, id), w.env);
    LeaveDecided(c, i, pin);
    hide Deliverable, KernelEntry, Roles, ActionAt, HopDecision, Resolve, OverlayNeeded;
    if i == 0 {
      EntryHasOverlay(w, c);
      DirectResolves(Roles(w.chains, id), Info(w, id), w.env);
    }
  }

  lemma {:induction false} StepOnto(w: World, id: string, p: Packet, tag: string)
    requires ActionAt(w, id, p) == ToOutbound(tag)
    ensures Step(w, id, p) == Onto(w, ResolveAt(w, id, tag))
  {
    hide ActionAt, ResolveAt, Onto;
  }

  lemma {:induction false} OntoHop(w: World, tag: string, chain: string, target: string)
    requires Accepts(w, target, chain)
    ensures Onto(w, Some(Hop(tag, chain, target))) == Forward(target, chain)
  {
    hide Accepts;
  }

  lemma {:induction false} ForwardDecided(c: Chain, i: nat, pin: Option<nat>)
    requires c.nodes != [] && i < ExitIndex(c, pin) < |c.nodes|
    ensures HopDecision(c, i, pin) == ForwardTag(HopRole(c, i))
  {
    hide ForwardTag, HopRole;
  }

  lemma {:induction false} LeaveDecided(c: Chain, i: nat, pin: Option<nat>)
    requires c.nodes != [] && i == ExitIndex(c, pin) < |c.nodes|
    ensures HopDecision(c, i, pin) == DIRECT_OUT || (i == 0 && HopDecision(c, i, pin) == DIRECT)
  {
    hide ForwardTag, HopRole;
  }

  lemma {:induction false} ForwardAt(w: World, c: Chain, i: nat, p: Packet, pin: Option<nat>)
    requires Deliverable(w, c) && c.nodes != [] && i < ExitIndex(c, pin) < |c.nodes|
    requires ActionAt(w, c.nodes[i].id, p) == ToOutbound(HopDecision(c, i, pin))
    ensures Step(w, c.nodes[i].id, p) == Forward(c.nodes[i + 1].id, c.name)
  {
    hide *;
    ForwardDecided(c, i, pin);
    StepOnto(w, c.nodes[i].id, p, ForwardTag(HopRole(c, i)));
    ForwardResolves(w, c, i);
    NextAccepts(w, c, i + 1);
    OntoHop(w, ForwardTag(HopRole(c, i)), c.name, c.nodes[i + 1].id);
  }

  lemma {:induction false} FollowOnce(w: World, id: string, p: Packet, fuel: nat)
    requires fuel > 0
    ensures Step(w, id, p) == Leave ==> Follow(w, id, p, fuel) == Egress(id)
    ensures Step(w, id, p).Forward? ==>
              Follow(w, id, p, fuel)
              == Follow(w, Step(w, id, p).target, Onward(w.chains, Step(w, id, p).chain, p), fuel - 1)
  {
    hide Step;
  }

  /** No operator rule claims the packet from node i on. */
  ghost predicate QuietFrom(w: World, c: Chain, i: nat, p: Packet) {
    forall j :: i <= j < |c.nodes| ==> Quiet(w, c, j, p)
  }

  lemma {:induction false} NamedByItself(chains: seq<Chain>, k: nat)
    requires DistinctNames(chains) && k < |chains|
    ensures ChainNamed(chains, chains[k].name) == Some(chains[k])
  {
    if k > 0 {
      assert chains[0].name != chains[k].name;
      assert DistinctNames(chains[1..]);
      NamedByItself(chains[1..], k - 1);
    }
  }

  /** One node further on the packet still is what the next node expects. */
  lemma {:induction false} StillQuiet(w: World, c: Chain, i: nat, p: Packet)
    requires Deliverable(w, c) && i < |c.nodes| && p == Arrived(c, i, p) && QuietFrom(w, c, i, p)
    ensures var q := Onward(w.chains, c.name, p);
            q == Arrived(c, i + 1, p) == Arrived(c, i + 1, q) && q == p.(inbound := Arrival(c, i + 1), auth := HopAuth(c)) && QuietFrom(w, c, i + 1, q)
  {
    var k :| 0 <= k < |w.chains| && w.chains[k] == c;
    hide FirstMatch, Clear, Linear, Buildable, Saved, Manual, UserInTag, TransportInTag, HopAuth;
    NamedByItself(w.chains, k);
    var q := Onward(w.chains, c.name, p);
    forall j | i + 1 <= j < |c.nodes|
      ensures Quiet(w, c, j, q)
    {
      assert Quiet(w, c, j, p);
      assert Arrived(c, j, q) == Arrived(c, j, p);
    }
  }

  lemma {:induction false} PathBasics(w: World, c: Chain, i: nat, p: Packet, pin: Option<nat>)
    requires c.nodes != [] && i <= ExitIndex(c, pin) && PinIs(c, UsersFor(w.users, c.name), p.source, pin) && QuietFrom(w, c, i, p)
    ensures i < |c.nodes| && Quiet(w, c, i, p) && ExitIndex(c, pin) < |c.nodes|
  {
  }

  lemma {:induction false} FollowFrom(w: World, c: Chain, i: nat, p: Packet, pin: Option<nat>, fuel: nat)
    requires Deliverable(w, c) && c.nodes != [] && i <= ExitIndex(c, pin) && p.source != "" && p == Arrived(c, i, p) && "dns" !in p.protocols
    requires PinIs(c, UsersFor(w.users, c.name), p.source, pin) && QuietFrom(w, c, i, p)
    requires KernelEntry(Info(w, c.nodes[0].id), HopRole(c, 0)) && fuel >= |c.nodes| - i
    ensures Follow(w, c.nodes[i].id, p, fuel) == Egress(c.nodes[ExitIndex(c, pin)].id)
    decreases |c.nodes| - i
  {
    hide *;
    PathBasics(w, c, i, p, pin);
    FollowOnce(w, c.nodes[i].id, p, fuel);
    DecisionAt(w, c, i, p, pin);
    if i < ExitIndex(c, pin) {
      ForwardAt(w, c, i, p, pin);
      StillQuiet(w, c, i, p);
      FollowFrom(w, c, i + 1, Onward(w.chains, c.name, p), pin, fuel - 1);
    } else {
      LeaveAt(w, c, i, p, pin);
    }
  }

  /** Delivery: non-DNS traffic of a kernel-entry chain that no operator rule claims leaves at
      exactly the node its user is pinned to, and at the last node without a pin in the chain. */
  lemma {:induction false} Delivered(w: World, c: Chain, p: Packet, pin: Option<nat>, fuel: nat)
    requires Deliverable(w, c) && KernelEntry(Info(w, c.nodes[0].id), HopRole(c, 0))
    requires p.inbound == TUN_IN && p.source != "" && "dns" !in p.protocols
    requires PinIs(c, UsersFor(w.users, c.name), p.source, pin) && fuel >= |c.nodes|
    requires QuietFrom(w, c, 0, p)
    ensures Follow(w, c.nodes[0].id, p, fuel) == Egress(c.nodes[ExitIndex(c, pin)].id)
  {
    FollowFrom(w, c, 0, p, pin, fuel);
  }

  // ---- AWG 3.0 entries outside the kernel ----

  /** Where a chain's AWG users arrive: the TUN, or the userspace endpoint of an AWG 3.0 entry
      on a node without kernel support. */
  function UserArrival(w: World, c: Chain): string
    requires c.nodes != []
  {
    if KernelEntry(Info(w, c.nodes[0].id), HopRole(c, 0)) then TUN_IN else UserInTag(c, c.nodes[0].id)
  }

  lemma {:induction false} UserTagBlind(w: World, c: Chain, q: Role)
    requires Deliverable(w, c) && c.userProtocol == AwgUsers && q in Roles(w.chains, c.nodes[0].id)
    ensures PinInbound(q) != Some(UserInTag(c, c.nodes[0].id)) && !DefaultFor(q, UserInTag(c, c.nodes[0].id))
  {
    assert Clear(w, c, 0);
    TagHeads(c, c.nodes[0].id);
    hide UserInTag, TransportInTag, Offered, AllEndpoints, ForwardTag;
    if q != HopRole(c, 0) {
      OtherRole(w, c, 0, q);
      RoleInbounds(q, UserInTag(c, c.nodes[0].id));
    }
  }

  lemma {:induction false} UserspaceDecision(w: World, c: Chain, p: Packet)
    requires Deliverable(w, c) && c.userProtocol == AwgUsers && p.inbound == UserInTag(c, c.nodes[0].id) && "dns" !in p.protocols
    requires FirstMatch(Manual(w, c.nodes[0].id), p) == None
    ensures ActionAt(w, c.nodes[0].id, p) == ToOutbound(DIRECT_OUT)
  {
    var id := c.nodes[0].id;
    var roles := Roles(w.chains, id);
    OwnRole(w, c, 0);
    TagHeads(c, id);
    StandaloneNoMatch(Info(w, id).inbounds, p);
    assert PinInbound(HopRole(c, 0)) == Some(TUN_IN) && !DefaultFor(HopRole(c, 0), p.inbound);
    hide Roles, RouteSection, Deliverable, Pins, Defaults, MergedRules, FirstMatch, StandaloneRules, Info, Manual,
         UserPins, DefaultFor, PinInbound, HopRole, UserInTag;
    forall q | q in roles
      ensures PinInbound(q) != Some(p.inbound) && !DefaultFor(q, p.inbound)
    {
      UserTagBlind(w, c, q);
    }
    Layers(roles, Info(w, id), w.users, Manual(w, id), p);
    MergedMatch(roles, Info(w, id), w.users, Manual(w, id), p);
    PinsOnly(roles, w.users, p, HopRole(c, 0));
    UserPinsElsewhere(HopRole(c, 0), TUN_IN, UsersFor(w.users, HopRole(c, 0).chain.name), p);
    DefaultsOnly(roles, p, HopRole(c, 0));
  }

  /** No rule of the entry node knows the userspace endpoint: everything leaves right there. */
  lemma {:induction false} UserspaceLeavesAtEntry(w: World, c: Chain, p: Packet, fuel: nat)
    requires Deliverable(w, c) && c.userProtocol == AwgUsers && p.inbound == UserInTag(c, c.nodes[0].id) && "dns" !in p.protocols
    requires FirstMatch(Manual(w, c.nodes[0].id), p) == None && fuel >= 1
    ensures Follow(w, c.nodes[0].id, p, fuel) == Egress(c.nodes[0].id)
  {
    var id := c.nodes[0].id;
    assert Onto(w, Some(Plain(DIRECT_OUT))) == Leave;
    DirectOutResolves(Roles(w.chains, id), Info(w, id), w.env);
    hide Deliverable, UserInTag, Follow, Step, ActionAt, Resolve, Roles, Info, Manual, Onto;
    UserspaceDecision(w, c, p);
    StepOnto(w, id, p, DIRECT_OUT);
    FollowOnce(w, id, p, fuel);
  }

  ghost predicate NoOperatorRules(w: World, c: Chain) {
    forall i :: 0 <= i < |c.nodes| ==> Manual(w, c.nodes[i].id) == []
  }

  /** Exactly when a user's traffic leaves where it should: the entry runs on the kernel, or the
      entry is itself the node to leave from. */
  lemma {:induction false} DeliveredIff(w: World, c: Chain, p: Packet, pin: Option<nat>, fuel: nat)
    requires Deliverable(w, c) && c.userProtocol == AwgUsers && NoOperatorRules(w, c)
    requires p.inbound == UserArrival(w, c) && p.source != "" && "dns" !in p.protocols
    requires PinIs(c, UsersFor(w.users, c.name), p.source, pin) && fuel >= |c.nodes|
    ensures Follow(w, c.nodes[0].id, p, fuel) == Egress(c.nodes[ExitIndex(c, pin)].id)
       <==> KernelEntry(Info(w, c.nodes[0].id), HopRole(c, 0)) || ExitIndex(c, pin) == 0
  {
    if KernelEntry(Info(w, c.nodes[0].id), HopRole(c, 0)) {
      forall j | 0 <= j < |c.nodes|
        ensures Quiet(w, c, j, p)
      {
      }
      Delivered(w, c, p, pin, fuel);
    } else {
      UserspaceLeavesAtEntry(w, c, p, fuel);
    }
  }

  /** The chain's users with distinct addresses: each one leaves at its own pin. */
  lemma {:induction false} EveryUserDelivered(w: World, c: Chain, u: User, p: Packet, fuel: nat)
    requires Deliverable(w, c) && NoOperatorRules(w, c) && KernelEntry(Info(w, c.nodes[0].id), HopRole(c, 0))
    requires DistinctAddresses(UsersFor(w.users, c.name)) && u in UsersFor(w.users, c.name) && u.awgAddress != ""
    requires p.inbound == TUN_IN && p.source == u.awgAddress && "dns" !in p.protocols && fuel >= |c.nodes|
    ensures Follow(w, c.nodes[0].id, p, fuel) == Egress(c.nodes[ExitIndex(c, PinnedAt(c, u))].id)
  {
    DistinctPins(c, UsersFor(w.users, c.name), u);
    DeliveredIff(w, c, p, PinnedAt(c, u), fuel);
  }

  // ---- Standalone inbounds ----

  lemma {:induction false} FirstAt(rules: seq<Rule>, k: nat, p: Packet)
    requires k < |rules| && Matches(rules[k], p) && rules[k].action != Sniff && forall j :: 0 <= j < k ==> !Matches(rules[j], p)
    ensures FirstMatch(rules, p) == Some(rules[k].action)
  {
    hide Matches;
    if k > 0 {
      assert !Matches(rules[0], p);
      FirstAt(rules[1..], k - 1, p);
    }
  }

  /** Index tags tell the index. */
  lemma {:induction false} IndexTagsDiffer(i: nat, a: string, j: nat, b: string)
    requires StandaloneTag(i, a) == StandaloneTag(j, b)
    ensures i == j
  {
    PrefixSame("sa-", Itoa(i) + "-" + a, Itoa(j) + "-" + b);
    assert Itoa(i) + "-" + a == Itoa(i) + ['-'] + a && Itoa(j) + "-" + b == Itoa(j) + ['-'] + b;
    CutHead(Itoa(i), a, '-');
    CutHead(Itoa(j), b, '-');
    ItoaInjective(i, j);
  }

  /** Where the operator wants the traffic of an inbound. */
  function Wanted(ib: NodeInbound): string {
    if ib.outboundTag != "" then ib.outboundTag else DIRECT_OUT
  }

  /** The standalone rules send the traffic of an index tag where that inbound wants it, and say
      nothing about any other tag. */
  lemma {:induction false} StandaloneMatch(inbounds: seq<NodeInbound>, p: Packet)
    ensures forall j :: 0 <= j < |inbounds| && p.inbound == StandaloneTag(j, inbounds[j].protocol) ==>
              FirstMatch(StandaloneRules(inbounds), p) == Some(ToOutbound(Wanted(inbounds[j])))
    ensures (forall j :: 0 <= j < |inbounds| ==> p.inbound != StandaloneTag(j, inbounds[j].protocol)) ==>
              FirstMatch(StandaloneRules(inbounds), p) == None
  {
    var rules := StandaloneRules(inbounds);
    hide StandaloneTag, FirstMatch;
    assert forall k :: 0 <= k < |rules| ==> (Matches(rules[k], p) <==> p.inbound == StandaloneTag(k, inbounds[k].protocol));
    forall j | 0 <= j < |inbounds| && p.inbound == StandaloneTag(j, inbounds[j].protocol)
      ensures FirstMatch(rules, p) == Some(ToOutbound(Wanted(inbounds[j])))
    {
      forall k | 0 <= k < j
        ensures !Matches(rules[k], p)
      {
        if Matches(rules[k], p) {
          IndexTagsDiffer(k, inbounds[k].protocol, j, inbounds[j].protocol);
        }
      }
      FirstAt(rules, j, p);
    }
    hide Matches;
    if forall j :: 0 <= j < |inbounds| ==> p.inbound != StandaloneTag(j, inbounds[j].protocol) {
      NoMatch(rules, p);
    }
  }

  /** No chain of the node claims the tag. */
  ghost predicate OwnTag(roles: seq<Role>, tag: string) {
    tag != TUN_IN && forall q :: q in roles ==> PinInbound(q) != Some(tag) && !DefaultFor(q, tag)
  }

  lemma {:induction false} NoChainRule(roles: seq<Role>, users: map<string, seq<User>>, p: Packet)
    requires OwnTag(roles, p.inbound)
    ensures FirstMatch(Pins(roles, users), p) == None && FirstMatch(Defaults(roles), p) == None
  {
    hide PinRule, UserPins, DefaultRule, FirstMatch;
    if roles == [] {
      NoMatch([], p);
    } else {
      var front, q := roles[..|roles| - 1], roles[|roles| - 1];
      assert q in roles;
      NoChainRule(front, users, p);
      FirstMatchConcat(Pins(front, users), RolePins(q, users), p);
      FirstMatchConcat(Defaults(front), Opt(DefaultRule(q)), p);
      DefaultOne(q, p);
      NoMatch([], p);
      if PinInbound(q).Some? {
        UserPinsElsewhere(q, PinInbound(q).value, UsersFor(users, q.chain.name), p);
      }
    }
  }

  /** A node's decision for its own inbounds: the standalone rules, else the direct outbound. */
  lemma {:induction false} OwnInboundDecision(w: World, id: string, p: Packet)
    requires Roles(w.chains, id) != [] && "dns" !in p.protocols && OwnTag(Roles(w.chains, id), p.inbound)
    requires FirstMatch(Manual(w, id), p) == None
    ensures var m := FirstMatch(StandaloneRules(Info(w, id).inbounds), p);
            ActionAt(w, id, p) == if m.Some? then m.value else ToOutbound(DIRECT_OUT)
  {
    var roles := Roles(w.chains, id);
    hide Roles, RouteSection, Pins, Defaults, MergedRules, FirstMatch, StandaloneRules, Info, Manual, PinInbound, DefaultFor;
    Layers(roles, Info(w, id), w.users, Manual(w, id), p);
    MergedMatch(roles, Info(w, id), w.users, Manual(w, id), p);
    NoChainRule(roles, w.users, p);
  }

  /** The inbound is rendered under the tag its rule names, or a rule that wants the same outbound
      happens to name its tag, or it wants the direct outbound anyway. */
  ghost predicate RuleNames(ibs: seq<NodeInbound>, i: nat)
    requires i < |ibs|
  {
    || ibs[i].tag == ""
    || (exists j :: 0 <= j < |ibs| && ibs[i].tag == StandaloneTag(j, ibs[j].protocol) && Wanted(ibs[j]) == Wanted(ibs[i]))
    || (Wanted(ibs[i]) == DIRECT_OUT && forall j :: 0 <= j < |ibs| ==> ibs[i].tag != StandaloneTag(j, ibs[j].protocol))
  }

  /** Traffic of a node's own inbound goes where the operator wants it exactly when a rule names the
      tag the inbound is rendered with. */
  lemma {:induction false} StandaloneObeyedIff(w: World, id: string, i: nat, p: Packet)
    requires i < |Info(w, id).inbounds| && p.inbound == InboundTag(Info(w, id), i) && "dns" !in p.protocols
    requires Roles(w.chains, id) != [] && OwnTag(Roles(w.chains, id), p.inbound) && FirstMatch(Manual(w, id), p) == None
    ensures ActionAt(w, id, p) == ToOutbound(Wanted(Info(w, id).inbounds[i])) <==> RuleNames(Info(w, id).inbounds, i)
  {
    var ibs := Info(w, id).inbounds;
    OwnInboundDecision(w, id, p);
    StandaloneMatch(ibs, p);
    hide ActionAt, Roles, OwnTag, Info, FirstMatch, StandaloneRules, StandaloneTag;
    if j :| 0 <= j < |ibs| && p.inbound == StandaloneTag(j, ibs[j].protocol) {
      OnlyIndex(ibs, p.inbound, j);
    }
  }

  lemma {:induction false} OnlyIndex(ibs: seq<NodeInbound>, tag: string, j: nat)
    requires j < |ibs| && tag == StandaloneTag(j, ibs[j].protocol)
    ensures forall k :: 0 <= k < |ibs| && tag == StandaloneTag(k, ibs[k].protocol) ==> k == j
  {
    hide StandaloneTag;
    forall k | 0 <= k < |ibs| && tag == StandaloneTag(k, ibs[k].protocol)
      ensures k == j
    {
      IndexTagsDiffer(k, ibs[k].protocol, j, ibs[j].protocol);
    }
  }

  // ---- Users known by their identity (TUIC, VLESS, MTProxy entries) ----

  /** The user has a credential of its own on the entry. */
  predicate Presents(c: Chain, u: User) {
    Reported(c, u) != "" && (c.userProtocol == VlessUsers ==> u.vlessUuid != "")
  }

  /** All that the chain's users say about one identity: the node they are pinned to, if any. */
  ghost predicate IdentityPin(c: Chain, users: seq<User>, auth: string, exit: string) {
    && (forall u :: u in users && Presents(c, u) && Reported(c, u) == auth ==> PinOf(c, u) == exit)
    && (exit != "" ==> exists u :: u in users && Presents(c, u) && Reported(c, u) == auth)
  }

  /** The rule a node of the chain has for an identity pinned to `exit`: only the node itself and the
      next one can be told. */
  function IdentityAction(c: Chain, i: nat, exit: string): Option<Action>
    requires i < |c.nodes|
  {
    if exit == "" then None
    else if exit == c.nodes[i].id then Some(ToOutbound(DIRECT_OUT))
    else if i + 1 < |c.nodes| && exit == c.nodes[i + 1].id then Some(ToOutbound(ForwardTag(HopRole(c, i))))
    else None
  }

  lemma {:induction false} IdentityOne(c: Chain, i: nat, inbound: string, u: User, p: Packet)
    requires c.userProtocol != AwgUsers && i < |c.nodes| && inbound == p.inbound
    ensures FirstMatch(Opt(PinRule(HopRole(c, i), inbound, u)), p)
         == if Presents(c, u) && Reported(c, u) == p.auth then IdentityAction(c, i, PinOf(c, u)) else None
  {
    assert Presents(c, u) ==> AuthIdentity(u, c.userProtocol) == Reported(c, u);
    assert !Presents(c, u) ==> AuthIdentity(u, c.userProtocol) == "";
    var last := Opt(PinRule(HopRole(c, i), inbound, u));
    hide ForwardTag;
    if last != [] {
      assert last[1..] == [];
    }
  }

  lemma {:induction false} IdentityPinsAt(c: Chain, i: nat, inbound: string, users: seq<User>, p: Packet, exit: string)
    requires c.userProtocol != AwgUsers && i < |c.nodes| && inbound == p.inbound
    requires forall u :: u in users && Presents(c, u) && Reported(c, u) == p.auth ==> PinOf(c, u) == exit
    ensures FirstMatch(UserPins(HopRole(c, i), inbound, users), p)
         == if exists u :: u in users && Presents(c, u) && Reported(c, u) == p.auth then IdentityAction(c, i, exit) else None
  {
    hide PinRule, HopRole, IdentityAction, FirstMatch, Presents, Reported, PinOf;
    if users == [] {
      NoMatch([], p);
    } else {
      var front, u := users[..|users| - 1], users[|users| - 1];
      assert users == front + [u];
      IdentityPinsAt(c, i, inbound, front, p, exit);
      IdentityOne(c, i, inbound, u, p);
      FirstMatchConcat(UserPins(HopRole(c, i), inbound, front), Opt(PinRule(HopRole(c, i), inbound, u)), p);
    }
  }

  lemma {:induction false} IdentityPinsAtHop(w: World, c: Chain, i: nat, p: Packet, exit: string)
    requires Deliverable(w, c) && c.userProtocol != AwgUsers && i < |c.nodes| && p.inbound == Arrival(c, i)
    requires IdentityPin(c, UsersFor(w.users, c.name), p.auth, exit)
    ensures FirstMatch(Pins(Roles(w.chains, c.nodes[i].id), w.users), p) == IdentityAction(c, i, exit)
  {
    var roles := Roles(w.chains, c.nodes[i].id);
    OwnRole(w, c, i);
    hide Deliverable, Roles, Pins, RolePins, FirstMatch, Arrival;
    forall q | q in roles && q != HopRole(c, i)
      ensures PinInbound(q) != Some(p.inbound)
    {
      OthersBlind(w, c, i, q);
    }
    PinsOnly(roles, w.users, p, HopRole(c, i));
    OwnDefault(c, i);
    IdentityPinsAt(c, i, Arrival(c, i), UsersFor(w.users, c.name), p, exit);
    RolePinsOf(c, i, w.users);
  }

  lemma {:induction false} RolePinsOf(c: Chain, i: nat, users: map<string, seq<User>>)
    requires i < |c.nodes|
    ensures PinInbound(HopRole(c, i)).Some? ==>
              RolePins(HopRole(c, i), users) == UserPins(HopRole(c, i), PinInbound(HopRole(c, i)).value, UsersFor(users, c.name))
  {
    hide UserPins, PinInbound, UsersFor;
  }

  /** What a node of the chain does with a packet of such a user. */
  function IdentityHop(c: Chain, i: nat, exit: string): string
    requires i < |c.nodes|
  {
    if Ends(c, i, exit) then DIRECT_OUT else ForwardTag(HopRole(c, i))
  }

  /** The packet is to leave here: it is pinned here or there is no further node. */
  predicate Ends(c: Chain, i: nat, exit: string)
    requires i < |c.nodes|
  {
    (exit == c.nodes[i].id && exit != "") || i + 1 == |c.nodes|
  }

  lemma {:induction false} IdentityLayers(c: Chain, i: nat, exit: string)
    requires i < |c.nodes|
    ensures Or(IdentityAction(c, i, exit), Some(ToOutbound(OnwardTag(HopRole(c, i))))) == Some(ToOutbound(IdentityHop(c, i, exit)))
  {
    hide ForwardTag;
  }

  lemma {:induction false} IdentityDecision(w: World, c: Chain, i: nat, p: Packet, exit: string)
    requires Deliverable(w, c) && c.userProtocol != AwgUsers && i < |c.nodes| && p == Arrived(c, i, p) && "dns" !in p.protocols
    requires IdentityPin(c, UsersFor(w.users, c.name), p.auth, exit) && Quiet(w, c, i, p)
    ensures ActionAt(w, c.nodes[i].id, p) == ToOutbound(IdentityHop(c, i, exit))
  {
    TagHeads(c, c.nodes[0].id);
    assert p.inbound == Arrival(c, i) && p.inbound != TUN_IN;
    hide Roles, ActionAt, Deliverable, IdentityPin, IdentityAction, IdentityHop, ForwardTag, Pins, Defaults,
         FirstMatch, StandaloneRules, Info, Manual, Arrival, Arrived, UsersFor, OnwardTag;
    ArrivalTag(c, i);
    HopRoleHere(w, c, i);
    StandaloneNoMatch(Info(w, c.nodes[i].id).inbounds, p);
    DecisionFromLayers(w, c.nodes[i].id, p);
    IdentityPinsAtHop(w, c, i, p, exit);
    DefaultsAtHop(w, c, i, p);
    IdentityLayers(c, i, exit);
  }

  /** Nobody on the chain is known by the identity its transit listeners report. */
  ghost predicate NoHopUser(w: World, c: Chain) {
    forall u :: u in UsersFor(w.users, c.name) && Presents(c, u) ==> Reported(c, u) != HopAuth(c)
  }

  lemma {:induction false} NoPinOnward(w: World, c: Chain)
    requires NoHopUser(w, c)
    ensures IdentityPin(c, UsersFor(w.users, c.name), HopAuth(c), "")
  {
    hide HopAuth, UsersFor;
  }

  lemma {:induction false} IdentityLeaves(w: World, c: Chain, i: nat, p: Packet, exit: string)
    requires i < |c.nodes| && Ends(c, i, exit) && ActionAt(w, c.nodes[i].id, p) == ToOutbound(IdentityHop(c, i, exit))
    ensures Step(w, c.nodes[i].id, p) == Leave
  {
    var id := c.nodes[i].id;
    DirectOutResolves(Roles(w.chains, id), Info(w, id), w.env);
    assert Onto(w, Some(Plain(DIRECT_OUT))) == Leave;
    assert ResolveAt(w, id, DIRECT_OUT) == Some(Plain(DIRECT_OUT));
    hide ForwardTag, HopRole, ActionAt, Roles, Info, ResolveAt, Onto, Step;
    StepOnto(w, id, p, DIRECT_OUT);
  }

  lemma {:induction false} IdentityForwards(w: World, c: Chain, i: nat, p: Packet, exit: string)
    requires Deliverable(w, c) && i + 1 < |c.nodes| && !Ends(c, i, exit) && ActionAt(w, c.nodes[i].id, p) == ToOutbound(IdentityHop(c, i, exit))
    ensures Step(w, c.nodes[i].id, p) == Forward(c.nodes[i + 1].id, c.name)
  {
    assert IdentityHop(c, i, exit) == ForwardTag(HopRole(c, i));
    hide *;
    StepOnto(w, c.nodes[i].id, p, ForwardTag(HopRole(c, i)));
    ForwardResolves(w, c, i);
    NextAccepts(w, c, i + 1);
    OntoHop(w, ForwardTag(HopRole(c, i)), c.name, c.nodes[i + 1].id);
  }

  /** One node: the packet leaves, or comes in at the next node as expected there. */
  lemma {:induction false} IdentityFollow(w: World, c: Chain, i: nat, p: Packet, exit: string, fuel: nat) returns (q: Packet)
    requires Deliverable(w, c) && c.userProtocol != AwgUsers && i < |c.nodes| && p == Arrived(c, i, p) && "dns" !in p.protocols
    requires IdentityPin(c, UsersFor(w.users, c.name), p.auth, exit) && QuietFrom(w, c, i, p) && fuel > 0
    ensures Ends(c, i, exit) ==> Follow(w, c.nodes[i].id, p, fuel) == Egress(c.nodes[i].id)
    ensures !Ends(c, i, exit) ==>
              && i + 1 < |c.nodes| && Follow(w, c.nodes[i].id, p, fuel) == Follow(w, c.nodes[i + 1].id, q, fuel - 1)
              && q == Arrived(c, i + 1, q) && "dns" !in q.protocols && QuietFrom(w, c, i + 1, q)
  {
    q := Onward(w.chains, c.name, p);
    assert Quiet(w, c, i, p) && (!Ends(c, i, exit) ==> i + 1 < |c.nodes|);
    hide *;
    IdentityDecision(w, c, i, p, exit);
    FollowOnce(w, c.nodes[i].id, p, fuel);
    if Ends(c, i, exit) {
      IdentityLeaves(w, c, i, p, exit);
    } else {
      IdentityForwards(w, c, i, p, exit);
      StillQuiet(w, c, i, p);
    }
  }

  lemma {:induction false} BehindEntry(c: Chain, i: nat, p: Packet)
    requires 0 < i < |c.nodes| && p == Arrived(c, i, p)
    ensures p.auth == HopAuth(c) && (Ends(c, i, "") <==> i + 1 == |c.nodes|)
  {
    hide HopAuth, Arrival;
  }

  lemma {:induction false} AtEntry(w: World, c: Chain, p: Packet, exit: string)
    requires Deliverable(w, c) && c.userProtocol != AwgUsers && p.inbound == UserInTag(c, c.nodes[0].id)
    ensures c.nodes != [] && p == Arrived(c, 0, p)
    ensures Ends(c, 0, exit) <==> (exit == c.nodes[0].id && exit != "") || |c.nodes| == 1
  {
    hide UserInTag, Clear, Buildable, Saved;
  }

  /** Behind the entry nothing but the chain's default is left: the packet runs to the last node. */
  lemma {:induction false} OnToTheEnd(w: World, c: Chain, i: nat, p: Packet, fuel: nat)
    requires Deliverable(w, c) && c.userProtocol != AwgUsers && 0 < i < |c.nodes| && p == Arrived(c, i, p) && "dns" !in p.protocols
    requires NoHopUser(w, c) && QuietFrom(w, c, i, p) && fuel >= |c.nodes| - i
    ensures Follow(w, c.nodes[i].id, p, fuel) == Egress(c.nodes[|c.nodes| - 1].id)
    decreases |c.nodes| - i
  {
    hide *;
    BehindEntry(c, i, p);
    NoPinOnward(w, c);
    var q := IdentityFollow(w, c, i, p, "", fuel);
    if i + 1 < |c.nodes| {
      OnToTheEnd(w, c, i + 1, q, fuel - 1);
    }
  }

  /** Delivery for TUIC, VLESS and MTProxy users: non-DNS traffic that no operator rule claims leaves
      at the entry for users pinned there, and at the last node for everybody else. */
  lemma {:induction false} Carried(w: World, c: Chain, p: Packet, exit: string, fuel: nat)
    requires Deliverable(w, c) && c.userProtocol != AwgUsers && p.inbound == UserInTag(c, c.nodes[0].id) && "dns" !in p.protocols
    requires IdentityPin(c, UsersFor(w.users, c.name), p.auth, exit) && NoHopUser(w, c)
    requires QuietFrom(w, c, 0, p) && fuel >= |c.nodes|
    ensures Follow(w, c.nodes[0].id, p, fuel)
         == Egress(if exit == c.nodes[0].id && exit != "" then c.nodes[0].id else c.nodes[|c.nodes| - 1].id)
  {
    hide *;
    AtEntry(w, c, p, exit);
    var q := IdentityFollow(w, c, 0, p, exit, fuel);
    if !Ends(c, 0, exit) {
      OnToTheEnd(w, c, 1, q, fuel - 1);
    }
  }

  predicate DistinctIdentities(c: Chain, users: seq<User>) {
    forall i, j :: 0 <= i < j < |users| && Presents(c, users[i]) && Presents(c, users[j]) ==> Reported(c, users[i]) != Reported(c, users[j])
  }

  lemma {:induction false} DistinctIdentityPin(c: Chain, users: seq<User>, u: User)
    requires DistinctIdentities(c, users) && u in users && Presents(c, u)
    ensures IdentityPin(c, users, Reported(c, u), PinOf(c, u))
  {
    hide PinOf;
    forall v | v in users && Presents(c, v) && Reported(c, v) == Reported(c, u)
      ensures v == u
    {
      var i :| 0 <= i < |users| && users[i] == u;
      var j :| 0 <= j < |users| && users[j] == v;
      hide Presents, Reported;
      if i < j {
      } else if j < i {
      }
    }
  }

  /** A pin reaches such a user exactly when it names the first or the last node: the identity does
      not travel, so every pin in between is passed by. */
  lemma {:induction false} CarriedIff(w: World, c: Chain, u: User, p: Packet, fuel: nat)
    requires Deliverable(w, c) && c.userProtocol != AwgUsers && NoOperatorRules(w, c) && NoHopUser(w, c)
    requires u in UsersFor(w.users, c.name) && Presents(c, u) && DistinctIdentities(c, UsersFor(w.users, c.name))
    requires p.inbound == UserInTag(c, c.nodes[0].id) && p.auth == Reported(c, u) && "dns" !in p.protocols && fuel >= |c.nodes|
    ensures Follow(w, c.nodes[0].id, p, fuel) == Egress(c.nodes[ExitIndex(c, PinnedAt(c, u))].id)
       <==> ExitIndex(c, PinnedAt(c, u)) == 0 || ExitIndex(c, PinnedAt(c, u)) == |c.nodes| - 1
  {
    var users := UsersFor(w.users, c.name);
    forall j | 0 <= j < |c.nodes|
      ensures Quiet(w, c, j, p)
    {
      NothingManual(w, c, j, p);
    }
    DistinctIdentityPin(c, users, u);
    Carried(w, c, p, PinOf(c, u), fuel);
    assert Linear(c);
    hide *;
    EndsOnly(c, u);
  }

  lemma {:induction false} NothingManual(w: World, c: Chain, j: nat, p: Packet)
    requires NoOperatorRules(w, c) && j < |c.nodes|
    ensures Quiet(w, c, j, p)
  {
    hide Arrived;
  }

  /** The entry or the last node is where the user should leave, exactly when its pin says so. */
  lemma {:induction false} EndsOnly(c: Chain, u: User)
    requires Linear(c)
    ensures ExitIndex(c, PinnedAt(c, u)) < |c.nodes|
    ensures var at := if PinOf(c, u) == c.nodes[0].id && PinOf(c, u) != "" then c.nodes[0].id else c.nodes[|c.nodes| - 1].id;
            at == c.nodes[ExitIndex(c, PinnedAt(c, u))].id
            <==> ExitIndex(c, PinnedAt(c, u)) == 0 || ExitIndex(c, PinnedAt(c, u)) == |c.nodes| - 1
  {
    FirstIndexDistinct(c.nodes, 0);
    var k := ExitIndex(c, PinnedAt(c, u));
    if k != 0 {
      assert c.nodes[0].id != c.nodes[k].id;
    }
    if k != |c.nodes| - 1 {
      assert c.nodes[k].id != c.nodes[|c.nodes| - 1].id;
    }
  }
}
