/** Every tag a generated rule, group or DNS detour names is emitted by the same build
    (merged_config.go, awg_tun_overlay.go, strategygroup.go). */
module TagClosure {
  import opened Text
  import opened Topology
  import opened Routing

  function Emitted(r: Role, env: Env): seq<Outbound> {
    RoleOutbounds(r, env) + RoleEndpoints(r, env)
  }

  function DerivedCount(ts: seq<ChainNode>, env: Env): nat {
    if ts == [] then 0
    else DerivedCount(ts[..|ts| - 1], env) + if ts[|ts| - 1].id in env.derived then 1 else 0
  }

  /** What the build of a role's downstream hop depends on. */
  predicate ForwardBuilds(r: Role, env: Env) {
    var c := r.chain;
    if |r.next| > 1 then
      && c.transport in {Reality, Xhttp} && DerivedCount(r.next, env) > 1
      && if c.IsLevelized() then 0 <= r.level < |c.levels| ==> c.levels[r.level].strategy != Bond else c.strategy != Bond
    else
      && |Targets(r)| == 1 && c.transport != Hysteria2 && Targets(r)[0].id in env.derived
      && if c.transport == AwgTransport then SafeLabel(NextId(r)) == SafeLabel(Targets(r)[0].id)
         else SafeLabel(c.sni) == SafeLabel(EffectiveSni(c, env))
  }

  ghost predicate EmitsForward(r: Role, env: Env) {
    exists o :: o in Emitted(r, env) && o.tag == ForwardTag(r)
  }

  // ---- Tags cannot be confused ----

  lemma {:induction false} SuffixDiffers(name: string, a: string, b: string)
    requires |a| > 1 && |b| > 1 && a[1] != b[1]
    ensures "ch-" + (name + a) != "ch-" + (name + b)
  {
    assert ("ch-" + (name + a))[3 + |name| + 1] == a[1];
    assert ("ch-" + (name + b))[3 + |name| + 1] == b[1];
  }

  lemma {:induction false} SuffixSame(name: string, a: string, b: string)
    ensures "ch-" + (name + a) == "ch-" + (name + b) <==> a == b
  {
    if "ch-" + (name + a) == "ch-" + (name + b) {
      assert ("ch-" + (name + a))[3 + |name|..] == a;
      assert ("ch-" + (name + b))[3 + |name|..] == b;
    }
  }

  lemma {:induction false} PrefixSame(p: string, a: string, b: string)
    ensures p + a == p + b <==> a == b
  {
    if p + a == p + b {
      assert (p + a)[|p|..] == a;
      assert (p + b)[|p|..] == b;
    }
  }

  lemma {:induction false} OutIsNotGroup(name: string, rest: string, l: int)
    ensures "ch-" + (name + "-out-" + rest) != GroupTag(name, l)
  {
    ConcatAssoc(name, "-out-", rest);
    ConcatAssoc(name, "-grp-l", FormatInt(l));
    SuffixDiffers(name, "-out-" + rest, "-grp-l" + FormatInt(l));
  }

  lemma {:induction false} HopTagNotGroup(c: Chain, n: ChainNode, group: bool, env: Env, l: int)
    ensures TargetTag(c, n, group, env) != GroupTag(c.name, l)
  {
    if c.transport == AwgTransport {
      var rest := "awg-" + SafeLabel(n.id);
      assert c.name + "-out-awg-" + SafeLabel(n.id) == c.name + "-out-" + rest by {
        assert "-out-awg-" == "-out-" + "awg-";
      }
      OutIsNotGroup(c.name, rest, l);
    } else if group {
      var rest := SafeLabel(EffectiveSni(c, env)) + "-" + SafeLabel(n.id);
      assert c.name + "-out-" + SafeLabel(EffectiveSni(c, env)) + "-" + SafeLabel(n.id) == c.name + "-out-" + rest;
      OutIsNotGroup(c.name, rest, l);
    } else {
      OutIsNotGroup(c.name, SafeLabel(EffectiveSni(c, env)), l);
    }
  }

  lemma {:induction false} AwgTagSame(name: string, a: string, b: string)
    ensures AwgOutTag(name, a) == AwgOutTag(name, b) <==> SafeLabel(a) == SafeLabel(b)
  {
    ConcatAssoc(name, "-out-awg-", SafeLabel(a));
    ConcatAssoc(name, "-out-awg-", SafeLabel(b));
    SuffixSame(name, "-out-awg-" + SafeLabel(a), "-out-awg-" + SafeLabel(b));
    PrefixSame("-out-awg-", SafeLabel(a), SafeLabel(b));
  }

  lemma {:induction false} SniTagSame(name: string, a: string, b: string)
    ensures SniOutTag(name, a) == SniOutTag(name, b) <==> SafeLabel(a) == SafeLabel(b)
  {
    ConcatAssoc(name, "-out-", SafeLabel(a));
    ConcatAssoc(name, "-out-", SafeLabel(b));
    SuffixSame(name, "-out-" + SafeLabel(a), "-out-" + SafeLabel(b));
    PrefixSame("-out-", SafeLabel(a), SafeLabel(b));
  }

  // ---- One role ----

  lemma {:induction false} HopsCounted(c: Chain, ts: seq<ChainNode>, group: bool, env: Env)
    requires c.transport != Hysteria2
    ensures |HopsTo(c, ts, group, env)| == DerivedCount(ts, env)
  {
    if ts != [] {
      HopsCounted(c, ts[..|ts| - 1], group, env);
    }
  }

  lemma {:induction false} FrozenHasNoHops(c: Chain, ts: seq<ChainNode>, group: bool, env: Env)
    requires c.transport == Hysteria2
    ensures HopsTo(c, ts, group, env) == []
  {
    if ts != [] {
      FrozenHasNoHops(c, ts[..|ts| - 1], group, env);
    }
  }

  lemma {:induction false} HopShape(c: Chain, ts: seq<ChainNode>, group: bool, env: Env, o: Outbound)
    requires o in HopsTo(c, ts, group, env)
    ensures exists n :: n in ts && o == Hop(TargetTag(c, n, group, env), c.name, n.id)
  {
    var n := ts[|ts| - 1];
    if o in HopsTo(c, ts[..|ts| - 1], group, env) {
      HopShape(c, ts[..|ts| - 1], group, env, o);
      var m :| m in ts[..|ts| - 1] && o == Hop(TargetTag(c, m, group, env), c.name, m.id);
      assert m in ts;
    } else {
      assert n in ts;
    }
  }

  lemma {:induction false} GroupEmittedIff(r: Role, env: Env)
    requires r.hasOutbound && |r.next| > 1
    ensures EmitsForward(r, env) <==> ForwardBuilds(r, env)
  {
    hide TargetTag, GroupTag, HopsTo, DerivedCount;
    var hops := RoleHops(r, env);
    forall o | o in hops
      ensures o.tag != ForwardTag(r)
    {
      HopShape(r.chain, r.next, true, env, o);
      var n :| n in r.next && o == Hop(TargetTag(r.chain, n, true, env), r.chain.name, n.id);
      HopTagNotGroup(r.chain, n, true, env, r.level + 1);
    }
    if r.chain.transport == Hysteria2 {
      FrozenHasNoHops(r.chain, r.next, true, env);
    } else {
      HopsCounted(r.chain, r.next, true, env);
    }
    if ForwardBuilds(r, env) {
      var g := Group(GroupTag(r.chain.name, r.level + 1), TagsOf(hops));
      assert g in Emitted(r, env);
    }
  }

  lemma {:induction false} SingleHop(c: Chain, n: ChainNode, env: Env)
    requires c.transport != Hysteria2
    ensures HopsTo(c, [n], false, env) == if n.id in env.derived then [Hop(TargetTag(c, n, false, env), c.name, n.id)] else []
  {
    assert [n][..0] == [];
    assert HopsTo(c, [], false, env) == [];
  }

  lemma {:induction false} NoTargetNoHop(r: Role, env: Env)
    requires Targets(r) == [] || r.chain.transport == Hysteria2
    ensures RoleHops(r, env) == []
  {
    if r.chain.transport == Hysteria2 {
      FrozenHasNoHops(r.chain, Targets(r), |Targets(r)| > 1, env);
    }
  }

  lemma {:induction false} SingleEmittedIff(r: Role, env: Env)
    requires r.hasOutbound && |r.next| <= 1
    ensures EmitsForward(r, env) <==> ForwardBuilds(r, env)
  {
    var ts := Targets(r);
    if ts == [] || r.chain.transport == Hysteria2 {
      NoTargetNoHop(r, env);
      return;
    }
    var n := ts[0];
    assert ts == [n];
    SingleHop(r.chain, n, env);
    assert Emitted(r, env) == RoleHops(r, env);
    AwgTagSame(r.chain.name, NextId(r), n.id);
    SniTagSame(r.chain.name, r.chain.sni, EffectiveSni(r.chain, env));
    if n.id in env.derived {
      assert RoleHops(r, env)[0] in Emitted(r, env);
    }
  }

  /** The tag that rules use for the next hop is emitted exactly when the hop's build conditions
      hold: a group needs two derived members, a supported strategy and a transport other than
      AWG; a single hop needs its one outbound and agreeing labels. */
  lemma {:induction false} ForwardEmittedIff(r: Role, env: Env)
    requires r.hasOutbound
    ensures EmitsForward(r, env) <==> ForwardBuilds(r, env)
  {
    if |r.next| > 1 {
      GroupEmittedIff(r, env);
    } else {
      SingleEmittedIff(r, env);
    }
  }

  // ---- Valid topologies ----

  /** ValidateChainTopology. */
  predicate ValidTopology(c: Chain) {
    c.IsLevelized() ==>
      && (forall l :: 0 <= l < |c.levels| ==> c.levels[l].nodes != [])
      && (c.transport == AwgTransport ==> forall l :: 0 <= l < |c.levels| ==> |c.levels[l].nodes| == 1)
  }

  /** SaveChain keeps the flat list equal to the flattened levels. */
  predicate Saved(c: Chain) {
    c.IsLevelized() ==> c.nodes == Flatten(c.levels)
  }

  /** Everything the build needs that the topology check does not cover. */
  predicate Buildable(c: Chain, env: Env) {
    && c.transport != Hysteria2 && c.sni != ""
    && (forall n :: n in AllNodes(c) ==> n.id in env.derived)
    && Supported(c.strategy) && (forall l :: 0 <= l < |c.levels| ==> Supported(c.levels[l].strategy))
  }

  lemma {:induction false} FlattenMember(levels: seq<Level>, l: nat, n: ChainNode)
    requires l < |levels| && n in levels[l].nodes
    ensures n in Flatten(levels)
  {
    if l > 0 {
      FlattenMember(levels[1..], l - 1, n);
    }
  }

  lemma {:induction false} FlattenSingles(levels: seq<Level>, l: nat)
    requires forall k :: 0 <= k < |levels| ==> |levels[k].nodes| == 1
    requires l < |levels|
    ensures |Flatten(levels)| == |levels| && Flatten(levels)[l] == levels[l].nodes[0]
  {
    if l > 0 {
      FlattenSingles(levels[1..], l - 1);
    } else if |levels| > 1 {
      FlattenSingles(levels[1..], 0);
    }
  }

  lemma {:induction false} AllDerived(ts: seq<ChainNode>, env: Env)
    requires forall n :: n in ts ==> n.id in env.derived
    ensures DerivedCount(ts, env) == |ts|
  {
    if ts != [] {
      AllDerived(ts[..|ts| - 1], env);
    }
  }

  /** What resolveChainRoles says about a node found in level l. */
  lemma {:induction false} LevelRoleShape(c: Chain, l: nat, before: nat, id: string)
    requires l <= |c.levels| && RoleFrom(c, l, before, id).Some?
    requires c.transport == AwgTransport && before == l && forall k :: 0 <= k < |c.levels| ==> |c.levels[k].nodes| == 1
    ensures var r := RoleFrom(c, l, before, id).value;
            && 0 <= r.level < |c.levels| && r.index == r.level
    decreases |c.levels| - l
  {
    if FirstIndex(c.levels[l].nodes, id).None? {
      LevelRoleShape(c, l + 1, before + 1, id);
    }
  }

  lemma {:induction false} RoleLevels(c: Chain, l: nat, before: nat, id: string)
    requires l <= |c.levels| && RoleFrom(c, l, before, id).Some?
    ensures var r := RoleFrom(c, l, before, id).value;
            && 0 <= r.level < |c.levels|
            && r.hasOutbound == (r.level + 1 < |c.levels|)
            && r.next == if r.hasOutbound then c.levels[r.level + 1].nodes else []
    decreases |c.levels| - l
  {
    if FirstIndex(c.levels[l].nodes, id).None? {
      RoleLevels(c, l + 1, before + |c.levels[l].nodes|, id);
    }
  }

  /** A chain that passes the topology check and whose nodes can be dialled has no dangling hop,
      on any of its nodes. */
  lemma {:induction false} ValidBuilds(c: Chain, env: Env, id: string)
    requires ValidTopology(c) && Saved(c) && Buildable(c, env) && RoleIn(c, id).Some? && RoleIn(c, id).value.hasOutbound
    ensures ForwardBuilds(RoleIn(c, id).value, env)
  {
    var r := RoleIn(c, id).value;
    RoleInChain(c, id);
    if c.IsLevelized() {
      RoleLevels(c, 0, 0, id);
      forall n | n in r.next
        ensures n.id in env.derived
      {
        FlattenMember(c.levels, r.level + 1, n);
      }
      AllDerived(r.next, env);
      if c.transport == AwgTransport {
        LevelRoleShape(c, 0, 0, id);
        FlattenSingles(c.levels, r.level + 1);
      }
    } else {
      assert c.nodes[r.index + 1] in AllNodes(c);
    }
  }

  // ---- A whole node ----

  ghost predicate Has(roles: seq<Role>, info: NodeInfo, env: Env, tag: string) {
    Resolve(roles, info, env, tag).Some?
  }

  lemma {:induction false} EmittedIsFound(roles: seq<Role>, env: Env, r: Role, o: Outbound)
    requires r in roles && o in Emitted(r, env)
    ensures o in AllOutbounds(roles, env) || o in AllEndpoints(roles, env)
  {
    if r != roles[|roles| - 1] {
      EmittedIsFound(roles[..|roles| - 1], env, r, o);
    }
  }

  lemma {:induction false} FoundHas(roles: seq<Role>, info: NodeInfo, env: Env, o: Outbound)
    requires o in Offered(roles, info, env) || o in AllEndpoints(roles, env)
    ensures Has(roles, info, env, o.tag)
  {
  }

  ghost predicate AllBuild(roles: seq<Role>, env: Env) {
    forall r :: r in roles && r.hasOutbound ==> ForwardBuilds(r, env)
  }

  lemma {:induction false} OnwardHas(roles: seq<Role>, info: NodeInfo, env: Env, r: Role)
    requires AllBuild(roles, env) && r in roles
    ensures Has(roles, info, env, DIRECT_OUT) && Has(roles, info, env, OnwardTag(r))
  {
    assert Plain(DIRECT_OUT) in Offered(roles, info, env);
    FoundHas(roles, info, env, Plain(DIRECT_OUT));
    if r.hasOutbound {
      ForwardEmittedIff(r, env);
      var o :| o in Emitted(r, env) && o.tag == ForwardTag(r);
      EmittedIsFound(roles, env, r, o);
      FoundHas(roles, info, env, o);
    }
  }

  lemma {:induction false} UserPinTags(r: Role, inbound: string, users: seq<User>, rule: Rule)
    requires rule in UserPins(r, inbound, users)
    ensures rule.action == ToOutbound(DIRECT_OUT) || (r.hasOutbound && rule.action == ToOutbound(ForwardTag(r)))
  {
    if rule in UserPins(r, inbound, users[..|users| - 1]) {
      UserPinTags(r, inbound, users[..|users| - 1], rule);
    }
  }

  lemma {:induction false} PinTagsHave(roles: seq<Role>, all: seq<Role>, info: NodeInfo, env: Env, users: map<string, seq<User>>, rule: Rule)
    requires AllBuild(all, env) && (forall r :: r in roles ==> r in all) && rule in Pins(roles, users)
    ensures rule.action.ToOutbound? && Has(all, info, env, rule.action.tag)
  {
    var r := roles[|roles| - 1];
    assert r in all;
    if rule in Pins(roles[..|roles| - 1], users) {
      PinTagsHave(roles[..|roles| - 1], all, info, env, users, rule);
    } else {
      UserPinTags(r, PinInbound(r).value, UsersFor(users, r.chain.name), rule);
      OnwardHas(all, info, env, r);
    }
  }

  lemma {:induction false} DefaultTagsHave(roles: seq<Role>, all: seq<Role>, info: NodeInfo, env: Env, rule: Rule)
    requires AllBuild(all, env) && (forall r :: r in roles ==> r in all) && rule in Defaults(roles)
    ensures rule.action.ToOutbound? && Has(all, info, env, rule.action.tag)
  {
    var r := roles[|roles| - 1];
    assert r in all;
    if rule in Defaults(roles[..|roles| - 1]) {
      DefaultTagsHave(roles[..|roles| - 1], all, info, env, rule);
    } else {
      OnwardHas(all, info, env, r);
    }
  }

  /** The tag the catch-all forwards to belongs to one of the roles. */
  lemma {:induction false} OverlayForwardRole(roles: seq<Role>)
    requires OverlayForward(roles) != ""
    ensures exists r :: r in roles && r.hasOutbound && OverlayForward(roles) == ForwardTag(r)
  {
    if !(roles[0].isEntry && roles[0].chain.userProtocol == AwgUsers) {
      OverlayForwardRole(roles[1..]);
      var r :| r in roles[1..] && r.hasOutbound && OverlayForward(roles[1..]) == ForwardTag(r);
      assert r in roles;
    } else {
      assert roles[0] in roles;
    }
  }

  lemma {:induction false} CatchAllHas(roles: seq<Role>, info: NodeInfo, env: Env)
    requires AllBuild(roles, env) && OverlayNeeded(roles, info)
    ensures Has(roles, info, env, CatchAllTag(roles))
  {
    var n := OverlayNode(roles);
    var exits := ExitIfaces(n);
    if OverlayForward(roles) != "" {
      OverlayForwardRole(roles);
      var r :| r in roles && r.hasOutbound && OverlayForward(roles) == ForwardTag(r);
      OnwardHas(roles, info, env, r);
    } else {
      var o := if |exits| > 1 then Group(n.value.id + "-balancer", ExitTags(exits))
               else if |exits| == 1 then Bound(ExitTag(exits[0]), exits[0])
               else Plain(DIRECT);
      assert o in OverlayOutbounds(roles) by {
        if |exits| == 1 {
          assert BoundExits(exits)[0] == o;
        } else if |exits| == 0 {
          assert OverlayOutbounds(roles)[0] == o;
        }
      }
      assert o in Offered(roles, info, env);
      FoundHas(roles, info, env, o);
    }
  }

  lemma {:induction false} RoleGroupMembers(roles: seq<Role>, env: Env, g: Outbound, m: string)
    requires g in AllOutbounds(roles, env) && g.Group? && m in g.members
    ensures exists o :: o in AllOutbounds(roles, env) && o.tag == m
  {
    var front := AllOutbounds(roles[..|roles| - 1], env);
    var r := roles[|roles| - 1];
    if g in front {
      RoleGroupMembers(roles[..|roles| - 1], env, g, m);
      var o :| o in front && o.tag == m;
      assert o in AllOutbounds(roles, env);
    } else {
      var hops := RoleHops(r, env);
      if g in hops {
        HopShape(r.chain, Targets(r), |Targets(r)| > 1, env, g);
        assert false;
      }
      var i :| 0 <= i < |hops| && TagsOf(hops)[i] == m;
      assert hops[i] in RoleOutbounds(r, env);
      assert hops[i] in AllOutbounds(roles, env);
    }
  }

  lemma {:induction false} OperatorHasNoGroup(obs: seq<AwgOutbound>, i: nat, o: Outbound)
    requires i <= |obs| && o in OperatorOutbounds(obs, i)
    ensures o.Bound?
  {
    if o in OperatorOutbounds(obs, i - 1) {
      OperatorHasNoGroup(obs, i - 1, o);
    }
  }

  lemma {:induction false} BalancerMembers(roles: seq<Role>, g: Outbound, m: string)
    requires g in OverlayOutbounds(roles) && g.Group? && m in g.members
    ensures exists o :: o in OverlayOutbounds(roles) && o.tag == m
  {
    var exits := ExitIfaces(OverlayNode(roles));
    var i :| 0 <= i < |exits| && ExitTags(exits)[i] == m;
    var o := BoundExits(exits)[i];
    assert o in BoundExits(exits);
    assert o in OverlayOutbounds(roles);
  }

  lemma {:induction false} GroupMembersHave(roles: seq<Role>, info: NodeInfo, env: Env, g: Outbound, m: string)
    requires g in Offered(roles, info, env) && g.Group? && m in g.members
    ensures Has(roles, info, env, m)
  {
    hide AllOutbounds, AllEndpoints, OverlayOutbounds, OperatorOutbounds, OverlayNeeded, Has;
    if g in AllOutbounds(roles, env) {
      RoleGroupMembers(roles, env, g, m);
      var o :| o in AllOutbounds(roles, env) && o.tag == m;
      FoundHas(roles, info, env, o);
    } else if g in OperatorOutbounds(info.awgOutbounds, |info.awgOutbounds|) {
      OperatorHasNoGroup(info.awgOutbounds, |info.awgOutbounds|, g);
      assert false;
    } else {
      BalancerMembers(roles, g, m);
      var o :| o in OverlayOutbounds(roles) && o.tag == m;
      FoundHas(roles, info, env, o);
    }
  }

  /** The detour of the chain-side DNS server. */
  function DnsDetour(roles: seq<Role>): string {
    if roles == [] then DIRECT_OUT else if roles[0].hasOutbound then ForwardTag(roles[0]) else DnsDetour(roles[1..])
  }

  lemma {:induction false} DnsDetourRole(roles: seq<Role>)
    ensures DnsDetour(roles) == DIRECT_OUT || exists r :: r in roles && r.hasOutbound && DnsDetour(roles) == ForwardTag(r)
  {
    if roles != [] {
      if roles[0].hasOutbound {
        assert roles[0] in roles;
      } else {
        DnsDetourRole(roles[1..]);
        if r :| r in roles[1..] && r.hasOutbound && DnsDetour(roles[1..]) == ForwardTag(r) {
          assert r in roles;
        }
      }
    }
  }

  predicate OperatorTyped(info: NodeInfo, tag: string) {
    tag != "" && exists i :: 0 <= i < |info.inbounds| && info.inbounds[i].outboundTag == tag
  }

  ghost predicate Closed(roles: seq<Role>, info: NodeInfo, env: Env, users: map<string, seq<User>>) {
    && (forall rule :: rule in MergedRules(roles, info, users, []) ==>
          rule.action.ToOutbound? && (Has(roles, info, env, rule.action.tag) || OperatorTyped(info, rule.action.tag)))
    && (OverlayNeeded(roles, info) ==> Has(roles, info, env, CatchAllTag(roles)) && Has(roles, info, env, DIRECT))
    && (forall g, m :: g in Offered(roles, info, env) && g.Group? && m in g.members ==> Has(roles, info, env, m))
    && Has(roles, info, env, DIRECT_OUT) && Has(roles, info, env, DnsDetour(roles))
  }

  lemma {:induction false} RuleTagsHave(roles: seq<Role>, info: NodeInfo, env: Env, users: map<string, seq<User>>, rule: Rule)
    requires AllBuild(roles, env) && rule in MergedRules(roles, info, users, [])
    ensures rule.action.ToOutbound? && (Has(roles, info, env, rule.action.tag) || OperatorTyped(info, rule.action.tag))
  {
    if rule in Pins(roles, users) {
      PinTagsHave(roles, roles, info, env, users, rule);
    } else if rule in Defaults(roles) {
      DefaultTagsHave(roles, roles, info, env, rule);
    } else {
      var i :| 0 <= i < |info.inbounds| && rule == StandaloneRule(i, info.inbounds[i]);
      assert Plain(DIRECT_OUT) in Offered(roles, info, env);
      FoundHas(roles, info, env, Plain(DIRECT_OUT));
    }
  }

  /** On a node all of whose downstream hops build, nothing generated dangles: rules, catch-all,
      group members, final outbound and DNS detour all name something emitted, operator-typed
      tags excepted. */
  lemma {:induction false} NodeClosed(roles: seq<Role>, info: NodeInfo, env: Env, users: map<string, seq<User>>)
    requires AllBuild(roles, env)
    ensures Closed(roles, info, env, users)
  {
    forall rule | rule in MergedRules(roles, info, users, [])
      ensures rule.action.ToOutbound? && (Has(roles, info, env, rule.action.tag) || OperatorTyped(info, rule.action.tag))
    {
      RuleTagsHave(roles, info, env, users, rule);
    }
    if OverlayNeeded(roles, info) {
      CatchAllHas(roles, info, env);
      assert OverlayOutbounds(roles)[0] == Plain(DIRECT);
      assert Plain(DIRECT) in OverlayOutbounds(roles);
      assert Plain(DIRECT) in Offered(roles, info, env);
      FoundHas(roles, info, env, Plain(DIRECT));
    }
    forall g, m | g in Offered(roles, info, env) && g.Group? && m in g.members
      ensures Has(roles, info, env, m)
    {
      GroupMembersHave(roles, info, env, g, m);
    }
    assert Plain(DIRECT_OUT) in Offered(roles, info, env);
    FoundHas(roles, info, env, Plain(DIRECT_OUT));
    DnsDetourRole(roles);
    if r :| r in roles && r.hasOutbound && DnsDetour(roles) == ForwardTag(r) {
      OnwardHas(roles, info, env, r);
    }
  }

  /** Tag closure for a store: chains that pass the topology check and can be built leave no
      dangling tag on any node. */
  lemma {:induction false} StoreClosed(chains: seq<Chain>, id: string, info: NodeInfo, env: Env, users: map<string, seq<User>>)
    requires forall i :: 0 <= i < |chains| ==> ValidTopology(chains[i]) && Saved(chains[i]) && Buildable(chains[i], env)
    ensures Closed(Roles(chains, id), info, env, users)
  {
    var roles := Roles(chains, id);
    forall r | r in roles && r.hasOutbound
      ensures ForwardBuilds(r, env)
    {
      RolesMember(chains, id, r);
      var i :| 0 <= i < |chains| && RoleIn(chains[i], id) == Some(r);
      ValidBuilds(chains[i], env, id);
    }
    NodeClosed(roles, info, env, users);
  }
}
