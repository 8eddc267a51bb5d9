/** Stores in which delivery holds: conditions on names and IDs under which no chain, interface or
    operator outbound gets in the way of another chain, and concrete stores on both sides. */
module Stores {
  import opened Text
  import opened Topology
  import opened Routing
  import opened TagClosure
  import opened Delivery

  // ---- Tags tell their chain ----

  /** The tag belongs to the chain of that name. */
  predicate TagOf(tag: string, name: string) {
    "ch-" + (name + "-") <= tag
  }

  /** No name is another one with a dash and more behind it. */
  predicate ApartNames(chains: seq<Chain>) {
    forall i, j :: 0 <= i < |chains| && 0 <= j < |chains| && i != j ==> !(chains[i].name + "-" <= chains[j].name)
  }

  lemma {:induction false} PrefixCut(p: string, a: string, b: string)
    requires p + a <= p + b
    ensures a <= b
  {
    assert (p + a)[|p|..] == a && (p + b)[|p|..] == b;
  }

  /** Of two names that can claim the same tag, one extends the other by a dash. */
  lemma {:induction false} TagOwner(tag: string, a: string, b: string)
    requires TagOf(tag, a) && TagOf(tag, b)
    ensures a == b || a + "-" <= b || b + "-" <= a
  {
    var rest := tag[3..];
    assert tag == "ch-" + rest;
    PrefixCut("ch-", a + "-", rest);
    PrefixCut("ch-", b + "-", rest);
    assert a == rest[..|a|] && b == rest[..|b|] && rest[|a|] == '-' && rest[|b|] == '-';
    if |a| < |b| {
      assert b[..|a| + 1] == rest[..|a| + 1] == a + "-";
    } else if |b| < |a| {
      assert a[..|b| + 1] == rest[..|b| + 1] == b + "-";
    }
  }

  lemma {:induction false} Tagged(name: string, x: string)
    requires |x| > 0 && x[0] == '-'
    ensures TagOf("ch-" + (name + x), name)
  {
    assert x == "-" + x[1..];
    assert name + x == name + "-" + x[1..];
    assert "ch-" + (name + "-" + x[1..]) == "ch-" + (name + "-") + x[1..];
  }

  lemma {:induction false} InTagsTagged(c: Chain, id: string)
    ensures TagOf(UserInTag(c, id), c.name) && TagOf(TransportInTag(c.name), c.name)
  {
    Tagged(c.name, "-user-in");
    Tagged(c.name, "-user-in-" + id);
    Tagged(c.name, "-transport-in");
    ConcatAssoc(c.name, "-user-in-", id);
    hide TagOf;
  }

  lemma {:induction false} GroupTagged(name: string, l: int)
    ensures TagOf(GroupTag(name, l), name)
  {
    Tagged(name, "-grp-l" + FormatInt(l));
    ConcatAssoc(name, "-grp-l", FormatInt(l));
    hide TagOf, FormatInt;
  }

  lemma {:induction false} SniTagged(name: string, sni: string)
    ensures TagOf(SniOutTag(name, sni), name)
  {
    Tagged(name, "-out-" + SafeLabel(sni));
    ConcatAssoc(name, "-out-", SafeLabel(sni));
    hide TagOf, SafeLabel;
  }

  lemma {:induction false} AwgTagged(name: string, id: string)
    ensures TagOf(AwgOutTag(name, id), name)
  {
    Tagged(name, "-out-awg-" + SafeLabel(id));
    ConcatAssoc(name, "-out-awg-", SafeLabel(id));
    hide TagOf, SafeLabel;
  }

  lemma {:induction false} MemberTagged(name: string, sni: string, id: string)
    ensures TagOf(MemberTag(name, sni, id), name)
  {
    var rest := SafeLabel(sni) + "-" + SafeLabel(id);
    Tagged(name, "-out-" + rest);
    assert name + "-out-" + SafeLabel(sni) + "-" + SafeLabel(id) == name + ("-out-" + rest);
    hide TagOf, SafeLabel;
  }

  lemma {:induction false} ForwardTagged(r: Role)
    ensures TagOf(ForwardTag(r), r.chain.name)
  {
    GroupTagged(r.chain.name, r.level + 1);
    SniTagged(r.chain.name, r.chain.sni);
    AwgTagged(r.chain.name, if r.hasOutbound && r.index + 1 < |r.chain.nodes| then r.chain.nodes[r.index + 1].id else "");
    hide TagOf, GroupTag, SniOutTag, AwgOutTag;
  }

  /** Whatever a role emits carries its chain's name. */
  lemma {:induction false} EmittedTagged(r: Role, env: Env, o: Outbound)
    requires o in Emitted(r, env)
    ensures TagOf(o.tag, r.chain.name)
  {
    GroupTagged(r.chain.name, r.level + 1);
    if o in RoleHops(r, env) {
      var group := |Targets(r)| > 1;
      HopShape(r.chain, Targets(r), group, env, o);
      var n :| n in Targets(r) && o == Hop(TargetTag(r.chain, n, group, env), r.chain.name, n.id);
      AwgTagged(r.chain.name, n.id);
      MemberTagged(r.chain.name, EffectiveSni(r.chain, env), n.id);
      SniTagged(r.chain.name, EffectiveSni(r.chain, env));
      hide TagOf, GroupTag, SniOutTag, AwgOutTag, MemberTag;
    } else {
      hide TagOf, GroupTag;
    }
  }

  lemma {:induction false} EmittedBySome(roles: seq<Role>, env: Env, o: Outbound)
    requires o in AllOutbounds(roles, env) || o in AllEndpoints(roles, env)
    ensures exists r :: r in roles && o in Emitted(r, env)
  {
    hide RoleOutbounds, RoleEndpoints;
    var front, r := roles[..|roles| - 1], roles[|roles| - 1];
    if o in Emitted(r, env) {
      assert r in roles;
    } else {
      EmittedBySome(front, env, o);
      var q :| q in front && o in Emitted(q, env);
      assert q in roles;
    }
  }

  // ---- Tags that are no chain's ----

  predicate ForeignTag(tag: string) {
    !("ch-" <= tag)
  }

  lemma {:induction false} TagHead(tag: string, name: string)
    requires TagOf(tag, name)
    ensures "ch-" <= tag
  {
    assert ("ch-" + (name + "-"))[..3] == "ch-";
  }

  lemma {:induction false} ForeignNotOwned(tag: string, name: string)
    requires ForeignTag(tag)
    ensures !TagOf(tag, name)
  {
    if TagOf(tag, name) {
      TagHead(tag, name);
    }
  }

  lemma {:induction false} OverlayNodeIn(roles: seq<Role>)
    ensures OverlayNode(roles).Some? ==> exists r :: r in roles && r.node == OverlayNode(roles).value
  {
    BalancerIn(roles);
    AwgEntryIn(roles);
  }

  lemma {:induction false} BalancerIn(roles: seq<Role>)
    ensures FirstBalancer(roles).Some? ==> exists r :: r in roles && r.node == FirstBalancer(roles).value
  {
    if roles != [] {
      if roles[0].node.exitTargets != [] {
        assert roles[0] in roles;
      } else {
        BalancerIn(roles[1..]);
      }
    }
  }

  lemma {:induction false} AwgEntryIn(roles: seq<Role>)
    ensures FirstAwgEntry(roles).Some? ==> exists r :: r in roles && r.node == FirstAwgEntry(roles).value
  {
    if roles != [] {
      if roles[0].isEntry && roles[0].chain.userProtocol == AwgUsers {
        assert roles[0] in roles;
      } else {
        AwgEntryIn(roles[1..]);
      }
    }
  }

  lemma {:induction false} IfaceFromLink(links: seq<ExitLink>, x: string)
    requires x in NamedIfaces(links)
    ensures exists l :: l in links && l.iface == x
  {
    var front, l := links[..|links| - 1], links[|links| - 1];
    if x in NamedIfaces(front) {
      IfaceFromLink(front, x);
      var k :| k in front && k.iface == x;
      assert k in links;
    } else {
      assert l in links;
    }
  }

  /** The names a node brings along besides its chains' are not spelled like a chain's tag: its ID,
      its exit interfaces, its operator outbounds. */
  ghost predicate PlainNode(w: World, id: string) {
    && ForeignTag(id + "-")
    && (forall r, l :: r in Roles(w.chains, id) && l in r.node.exitLinks ==> ForeignTag(ExitTag(l.iface)))
    && (forall o :: o in Info(w, id).awgOutbounds ==> ForeignTag(o.tag))
  }

  lemma {:induction false} BalancerHead(id: string)
    requires "ch-" <= id + "-balancer"
    ensures "ch-" <= id + "-"
  {
    var tag := id + "-balancer";
    assert tag[0] == 'c' && tag[1] == 'h' && tag[2] == '-';
    assert tag[|id|] == '-';
    assert (id + "-")[..3] == tag[..3];
  }

  lemma {:induction false} OverlayForeign(w: World, id: string, o: Outbound)
    requires PlainNode(w, id) && o in OverlayOutbounds(Roles(w.chains, id))
    ensures ForeignTag(o.tag)
  {
    var roles := Roles(w.chains, id);
    OverlayNodeIn(roles);
    var exits := ExitIfaces(OverlayNode(roles));
    if o in BoundExits(exits) {
      var i :| 0 <= i < |exits| && BoundExits(exits)[i] == o;
      var r :| r in roles && r.node == OverlayNode(roles).value;
      IfaceFromLink(r.node.exitLinks, exits[i]);
    } else if o.Group? {
      var r :| r in roles && r.node == OverlayNode(roles).value;
      RolesMember(w.chains, id, r);
      var j :| 0 <= j < |w.chains| && RoleIn(w.chains[j], id) == Some(r);
      RoleInChain(w.chains[j], id);
      assert o.tag == id + "-balancer";
      if "ch-" <= o.tag {
        BalancerHead(id);
      }
    } else {
      assert o == Plain(DIRECT) && DIRECT[0] == 'd';
    }
  }

  lemma {:induction false} OperatorForeign(obs: seq<AwgOutbound>, n: nat, o: Outbound)
    requires n <= |obs| && o in OperatorOutbounds(obs, n) && forall b :: b in obs ==> ForeignTag(b.tag)
    ensures ForeignTag(o.tag)
  {
    if o in OperatorOutbounds(obs, n - 1) {
      OperatorForeign(obs, n - 1, o);
    } else {
      assert obs[n - 1] in obs;
      assert ("awgo-" + Itoa(n))[0] == 'a';
    }
  }

  // ---- Tidy stores ----

  /** A store a panel can check: chain names apart, nodes plain, the chain itself linear, saved and
      dialable, and for AWG users a plain entry without a second AWG chain. */
  ghost predicate Tidy(w: World, c: Chain) {
    && c in w.chains && DistinctNames(w.chains) && ApartNames(w.chains)
    && Linear(c) && Saved(c) && Buildable(c, w.env)
    && (c.userProtocol == AwgUsers ==>
          && c.nodes[0].exitTargets == []
          && (|c.nodes| == 1 ==> ExitIfaces(OverlayNode(Roles(w.chains, c.nodes[0].id))) == [])
          && (forall r :: r in Roles(w.chains, c.nodes[0].id) && r.chain.name != c.name ==> !(r.isEntry && r.chain.userProtocol == AwgUsers)))
    && forall i :: 0 <= i < |c.nodes| ==> PlainNode(w, c.nodes[i].id)
  }

  lemma {:induction false} NamesApart(chains: seq<Chain>, a: Chain, b: Chain)
    requires ApartNames(chains) && a in chains && b in chains && a.name != b.name
    ensures !(a.name + "-" <= b.name) && !(b.name + "-" <= a.name)
  {
    var i :| 0 <= i < |chains| && chains[i] == a;
    var j :| 0 <= j < |chains| && chains[j] == b;
  }

  lemma {:induction false} RoleChain(w: World, id: string, r: Role)
    requires r in Roles(w.chains, id)
    ensures r.chain in w.chains && r.node.id == id
  {
    RolesMember(w.chains, id, r);
    var j :| 0 <= j < |w.chains| && RoleIn(w.chains[j], id) == Some(r);
    RoleInChain(w.chains[j], id);
  }

  /** Another chain's tags are never this chain's. */
  lemma {:induction false} OtherTags(w: World, c: Chain, id: string, r: Role, tag: string)
    requires ApartNames(w.chains) && c in w.chains && r in Roles(w.chains, id) && r.chain.name != c.name && TagOf(tag, r.chain.name)
    ensures !TagOf(tag, c.name)
  {
    RoleChain(w, id, r);
    NamesApart(w.chains, r.chain, c);
    hide ApartNames, TagOf;
    if TagOf(tag, c.name) {
      TagOwner(tag, r.chain.name, c.name);
    }
  }

  lemma {:induction false} ListenersApart(w: World, c: Chain, i: nat, r: Role)
    requires Tidy(w, c) && i < |c.nodes| && r in Roles(w.chains, c.nodes[i].id) && r.chain.name != c.name
    ensures UserInTag(r.chain, c.nodes[i].id) != TransportInTag(c.name) && UserInTag(r.chain, c.nodes[i].id) != UserInTag(c, c.nodes[i].id)
    ensures TransportInTag(r.chain.name) != UserInTag(c, c.nodes[i].id)
  {
    var id := c.nodes[i].id;
    InTagsTagged(c, id);
    InTagsTagged(r.chain, id);
    OtherTags(w, c, id, r, UserInTag(r.chain, id));
    OtherTags(w, c, id, r, TransportInTag(r.chain.name));
    hide TagOf, UserInTag, TransportInTag;
  }

  lemma {:induction false} OwnRoleOnly(w: World, c: Chain, i: nat, r: Role)
    requires Tidy(w, c) && i < |c.nodes| && r in Roles(w.chains, c.nodes[i].id) && r.chain.name == c.name
    ensures r == HopRole(c, i)
  {
    hide ApartNames, PlainNode, Buildable, Saved, HopRole, RoleIn, Roles, ExitIfaces, OverlayNode;
    LinearRole(c, i);
    var k :| 0 <= k < |w.chains| && w.chains[k] == c;
    RoleOfName(w.chains, k, c.nodes[i].id, r);
  }

  /** What the overlay, the direct outbound and the operator bring along has no chain's tag. */
  lemma {:induction false} RestForeign(w: World, id: string, o: Outbound)
    requires PlainNode(w, id) && o in Offered(Roles(w.chains, id), Info(w, id), w.env) && o !in AllOutbounds(Roles(w.chains, id), w.env)
    ensures ForeignTag(o.tag)
  {
    var roles := Roles(w.chains, id);
    var obs := Info(w, id).awgOutbounds;
    assert DIRECT_OUT[0] == 'd';
    hide Roles, AllOutbounds, OverlayOutbounds, OperatorOutbounds, OverlayNeeded, Info, ExitTag;
    if o in OverlayOutbounds(roles) {
      OverlayForeign(w, id, o);
    } else if o in OperatorOutbounds(obs, |obs|) {
      OperatorForeign(obs, |obs|, o);
    }
  }

  lemma {:induction false} RoleForward(w: World, c: Chain, i: nat, r: Role, o: Outbound)
    requires Tidy(w, c) && i + 1 < |c.nodes| && r in Roles(w.chains, c.nodes[i].id) && o in Emitted(r, w.env)
    requires TagOf(o.tag, c.name)
    ensures o == Hop(o.tag, c.name, c.nodes[i + 1].id)
  {
    EmittedTagged(r, w.env, o);
    hide HopRole, Roles, Linear, TagOf, Emitted, PlainNode, ApartNames, Saved;
    if r.chain.name != c.name {
      OtherTags(w, c, c.nodes[i].id, r, o.tag);
    } else {
      OwnRoleOnly(w, c, i, r);
      OwnHop(c, w.env, i, o);
    }
  }

  /** The only outbound that answers to the forward tag is the hop to the next node. */
  lemma {:induction false} ForwardAlone(w: World, c: Chain, i: nat, o: Outbound)
    requires Tidy(w, c) && i + 1 < |c.nodes|
    requires var id := c.nodes[i].id; var roles := Roles(w.chains, id);
             (o in Offered(roles, Info(w, id), w.env) || o in AllEndpoints(roles, w.env)) && o.tag == ForwardTag(HopRole(c, i))
    ensures o == Hop(o.tag, c.name, c.nodes[i + 1].id)
  {
    var id := c.nodes[i].id;
    var roles := Roles(w.chains, id);
    assert PlainNode(w, id);
    ForwardTagged(HopRole(c, i));
    assert HopRole(c, i).chain == c;
    hide ForwardTag, HopRole, Roles, Linear, AllOutbounds, AllEndpoints, Offered, TagOf, Emitted, PlainNode, Tidy;
    if o in AllOutbounds(roles, w.env) || o in AllEndpoints(roles, w.env) {
      EmittedBySome(roles, w.env, o);
      var r :| r in roles && o in Emitted(r, w.env);
      RoleForward(w, c, i, r, o);
    } else {
      RestForeign(w, id, o);
      ForeignNotOwned(o.tag, c.name);
    }
  }

  lemma {:induction false} OwnHop(c: Chain, env: Env, i: nat, o: Outbound)
    requires c.transport != Hysteria2 && i + 1 < |c.nodes| && o in Emitted(HopRole(c, i), env)
    ensures o == Hop(o.tag, c.name, c.nodes[i + 1].id)
  {
    var r := HopRole(c, i);
    assert Targets(r) == [c.nodes[i + 1]];
    SingleHop(c, c.nodes[i + 1], env);
    hide TargetTag, HopsTo;
  }

  /** In a tidy store nothing stands in the way of delivery. */
  lemma {:induction false} TidyDeliverable(w: World, c: Chain)
    requires Tidy(w, c)
    ensures Deliverable(w, c)
  {
    hide Linear, Saved, Buildable, ExitIfaces, OverlayNode, Roles, PlainNode, Offered, AllEndpoints, ForwardTag, HopRole, Info, UserInTag,
         TransportInTag, ApartNames;
    forall i | 0 <= i < |c.nodes|
      ensures Clear(w, c, i)
    {
      var id := c.nodes[i].id;
      var roles := Roles(w.chains, id);
      forall r | r in roles && r.chain.name != c.name
        ensures UserInTag(r.chain, id) != TransportInTag(c.name) && UserInTag(r.chain, id) != UserInTag(c, id)
        ensures TransportInTag(r.chain.name) != UserInTag(c, id)
      {
        ListenersApart(w, c, i, r);
      }
      if i + 1 < |c.nodes| {
        forall o | (o in Offered(roles, Info(w, id), w.env) || o in AllEndpoints(roles, w.env)) && o.tag == ForwardTag(HopRole(c, i))
          ensures o == Hop(o.tag, c.name, c.nodes[i + 1].id)
        {
          ForwardAlone(w, c, i, o);
        }
      }
    }
    hide Clear;
  }

  /** In a tidy store without operator rules, a user's traffic leaves at its pinned node, or at the
      last node without a pin, exactly when the entry runs on the kernel or is that node itself. */
  lemma {:induction false} TidyDeliveredIff(w: World, c: Chain, p: Packet, pin: Option<nat>, fuel: nat)
    requires Tidy(w, c) && c.userProtocol == AwgUsers && NoOperatorRules(w, c)
    requires p.inbound == UserArrival(w, c) && p.source != "" && "dns" !in p.protocols
    requires PinIs(c, UsersFor(w.users, c.name), p.source, pin) && fuel >= |c.nodes|
    ensures Follow(w, c.nodes[0].id, p, fuel) == Egress(c.nodes[ExitIndex(c, pin)].id)
       <==> KernelEntry(Info(w, c.nodes[0].id), HopRole(c, 0)) || ExitIndex(c, pin) == 0
  {
    TidyDeliverable(w, c);
    hide Tidy, Deliverable, Follow, KernelEntry, HopRole, UserArrival, NoOperatorRules;
    DeliveredIff(w, c, p, pin, fuel);
  }

  /** In a tidy store without operator rules, a pin reaches a user known by its identity exactly when
      it names the first or the last node. */
  lemma {:induction false} TidyCarriedIff(w: World, c: Chain, u: User, p: Packet, fuel: nat)
    requires Tidy(w, c) && c.userProtocol != AwgUsers && NoOperatorRules(w, c) && NoHopUser(w, c)
    requires u in UsersFor(w.users, c.name) && Presents(c, u) && DistinctIdentities(c, UsersFor(w.users, c.name))
    requires p.inbound == UserInTag(c, c.nodes[0].id) && p.auth == Reported(c, u) && "dns" !in p.protocols && fuel >= |c.nodes|
    ensures Follow(w, c.nodes[0].id, p, fuel) == Egress(c.nodes[ExitIndex(c, PinnedAt(c, u))].id)
       <==> ExitIndex(c, PinnedAt(c, u)) == 0 || ExitIndex(c, PinnedAt(c, u)) == |c.nodes| - 1
  {
    TidyDeliverable(w, c);
    hide *;
    CarriedIff(w, c, u, p, fuel);
  }

  // ---- A chain on its own ----

  /** One chain in the store, whatever inbounds and operator outbounds its nodes have besides. */
  ghost predicate Lone(w: World, c: Chain) {
    && w.chains == [c] && Linear(c) && Saved(c) && Buildable(c, w.env)
    && (forall i :: 0 <= i < |c.nodes| ==> c.nodes[i].exitTargets == [] && c.nodes[i].exitLinks == [] && ForeignTag(c.nodes[i].id + "-"))
    && (forall i, o :: 0 <= i < |c.nodes| && o in Info(w, c.nodes[i].id).awgOutbounds ==> ForeignTag(o.tag))
  }

  lemma {:induction false} LoneRoles(w: World, c: Chain, i: nat)
    requires Lone(w, c) && i < |c.nodes|
    ensures Roles(w.chains, c.nodes[i].id) == [HopRole(c, i)]
  {
    LinearRole(c, i);
    assert [c][..0] == [];
    assert Roles([], c.nodes[i].id) == [];
  }

  lemma {:induction false} LoneDeliverable(w: World, c: Chain)
    requires Lone(w, c)
    ensures Deliverable(w, c)
  {
    forall i | 0 <= i < |c.nodes|
      ensures PlainNode(w, c.nodes[i].id)
    {
      LoneRoles(w, c, i);
    }
    LoneRoles(w, c, 0);
    LoneOverlay(c);
    assert w.chains[0] == c;
    hide Roles, Linear, Saved, Buildable, ExitIfaces, OverlayNode, PlainNode, HopRole;
    TidyDeliverable(w, c);
  }

  lemma {:induction false} LoneOverlay(c: Chain)
    requires c.nodes != [] && c.nodes[0].exitTargets == [] && c.nodes[0].exitLinks == []
    ensures ExitIfaces(OverlayNode([HopRole(c, 0)])) == []
  {
    var roles := [HopRole(c, 0)];
    assert roles[1..] == [];
    assert FirstBalancer(roles) == FirstBalancer([]) == None;
    assert FirstAwgEntry(roles) == Some(c.nodes[0]) || FirstAwgEntry(roles) == FirstAwgEntry([]) == None;
    assert NamedIfaces([]) == [];
  }

  // ---- Both sides at real stores ----

  const PLAIN_KEYS := Keys("", "", "", "", "")
  const PLAIN_OBFS := Obfs(0, "", "", "", "", "", "", "", "", "", "")

  function PlainHop(id: string): ChainNode {
    ChainNode(id, 0, Auto, "", "", "", [], [])
  }

  /** Two hops, AWG users, the default transport. */
  function TwoHops(): Chain {
    Chain("de", [PlainHop("n1"), PlainHop("n2")], [], Unset, Reality, AwgUsers, 0, "example.org", "", "", "", PLAIN_OBFS, "")
  }

  /** The entry's inbound asks for AWG 3.0. */
  function Awg3Entry(kernel: bool): NodeInfo {
    NodeInfo("n1", [NodeInbound("awg", 8443, "", "chain:de", "", true, "", "", "", "", "", PLAIN_KEYS, PLAIN_OBFS)], kernel, [], "", false)
  }

  function Awg3World(kernel: bool): World {
    World([TwoHops()], map["n1" := Awg3Entry(kernel)], map[], map[], Env("example.org", {"n1", "n2"}))
  }

  lemma {:induction false} TwoHopsLone(kernel: bool)
    ensures Lone(Awg3World(kernel), TwoHops())
  {
    var c := TwoHops();
    assert |c.nodes| == 2 && c.nodes[0].id == "n1" && c.nodes[1].id == "n2";
    assert Linear(c);
    assert ForeignTag("n1" + "-") && ForeignTag("n2" + "-") by {
      assert ("n1" + "-")[0] == 'n' && ("n2" + "-")[0] == 'n';
    }
  }

  lemma {:induction false} Awg3Kernel(kernel: bool)
    ensures KernelEntry(Info(Awg3World(kernel), "n1"), HopRole(TwoHops(), 0)) <==> kernel
  {
    var info := Info(Awg3World(kernel), "n1");
    assert info == Awg3Entry(kernel);
    assert info.inbounds[0].protocol == "awg" && info.inbounds[0].awg3 && info.inbounds[0].source == "chain:" + "de";
    assert EntryIsAwg3(info, HopRole(TwoHops(), 0));
  }

  /** The same chain with an AWG 3.0 entry delivers to the last node when the entry's kernel runs
      it, and loses its users at the entry when it does not. */
  lemma {:induction false} KernelSupportDecides(kernel: bool, p: Packet)
    requires p.inbound == UserArrival(Awg3World(kernel), TwoHops()) && p.source != "" && "dns" !in p.protocols
    ensures Deliverable(Awg3World(kernel), TwoHops())
    ensures Follow(Awg3World(kernel), "n1", p, 2) == Egress(if kernel then "n2" else "n1")
  {
    var w, c := Awg3World(kernel), TwoHops();
    TwoHopsLone(kernel);
    LoneDeliverable(w, c);
    Awg3Kernel(kernel);
    assert c.nodes[0].id == "n1" && c.nodes[1].id == "n2" && |c.nodes| == 2;
    assert UsersFor(w.users, c.name) == [];
    assert NoOperatorRules(w, c);
    hide Follow, Deliverable, KernelEntry, Awg3World, TwoHops, Lone, HopRole, Info, NoOperatorRules;
    if kernel {
      DeliveredIff(w, c, p, None, 2);
    } else {
      NoOperatorAt(w, c);
      UserspaceLeavesAtEntry(w, c, p, 2);
    }
  }

  lemma {:induction false} NoOperatorAt(w: World, c: Chain)
    requires NoOperatorRules(w, c) && c.nodes != []
    ensures forall p :: FirstMatch(Manual(w, c.nodes[0].id), p) == None
  {
  }

  /** Three hops with VLESS users over the default transport. */
  function ThreeHops(): Chain {
    Chain("de", [PlainHop("n1"), PlainHop("n2"), PlainHop("n3")], [], Unset, Reality, VlessUsers, 0, "example.org", "", "", "", PLAIN_OBFS, "")
  }

  function PinnedUser(exit: string): User {
    User("u", "alice", "", "uuid", "", "", map["de" := exit])
  }

  function VlessWorld(exit: string): World {
    World([ThreeHops()], map[], map["de" := [PinnedUser(exit)]], map[], Env("example.org", {"n1", "n2", "n3"}))
  }

  lemma {:induction false} ThreeHopsLone(exit: string)
    ensures Lone(VlessWorld(exit), ThreeHops())
  {
    var c := ThreeHops();
    assert |c.nodes| == 3 && c.nodes[0].id == "n1" && c.nodes[1].id == "n2" && c.nodes[2].id == "n3";
    assert Linear(c);
    assert ("n1" + "-")[0] == 'n' && ("n2" + "-")[0] == 'n' && ("n3" + "-")[0] == 'n';
  }

  lemma {:induction false} AliceAlone(exit: string)
    ensures var w, c, u := VlessWorld(exit), ThreeHops(), PinnedUser(exit);
            IdentityPin(c, UsersFor(w.users, c.name), "alice", exit) && NoHopUser(w, c) && NoOperatorRules(w, c)
  {
    var c := ThreeHops();
    assert HopAuth(c) == TransportInTag("de") && TransportInTag("de")[0] == 'c' && "alice"[0] == 'a';
    assert PinnedUser(exit) in UsersFor(VlessWorld(exit).users, c.name);
  }

  /** A pin to the first node holds; one to the middle node is passed by. */
  lemma {:induction false} MiddlePinPassedBy(exit: string, p: Packet)
    requires exit in {"n1", "n2", "n3"} && p.inbound == UserInTag(ThreeHops(), "n1") && p.auth == "alice" && "dns" !in p.protocols
    ensures Deliverable(VlessWorld(exit), ThreeHops())
    ensures Follow(VlessWorld(exit), "n1", p, 3) == Egress(if exit == "n1" then "n1" else "n3")
  {
    var w, c := VlessWorld(exit), ThreeHops();
    ThreeHopsLone(exit);
    LoneDeliverable(w, c);
    AliceAlone(exit);
    assert c.nodes[0].id == "n1" && |c.nodes| == 3 && c.nodes[2].id == "n3" && c.userProtocol == VlessUsers;
    forall j | 0 <= j < |c.nodes|
      ensures Quiet(w, c, j, p)
    {
      NothingManual(w, c, j, p);
    }
    hide Follow, Deliverable, VlessWorld, ThreeHops, Lone, NoOperatorRules, IdentityPin, NoHopUser, Quiet, UserInTag;
    Carried(w, c, p, exit, 3);
  }
}
