/** Which kernel interfaces a deploy writes and which it tears down (awg_deploy.go). */
module AwgPlan {
  import opened Text
  import opened Topology
  import opened Routing
  import opened ManualRules
  import opened RemoteNode

  const AWG0 := "awg0"
  const AWG1 := "awg1"

  // ---- Standalone confs ----

  /** A standalone AWG inbound that the kernel serves. */
  predicate KernelInbound(info: NodeInfo, chains: seq<Chain>, i: nat)
    requires i < |info.inbounds|
  {
    info.inbounds[i].protocol == "awg" && (!info.inbounds[i].awg3 || info.kernelAwg3) && Standalone(chains, info, i)
  }

  /** The interfaces the standalone loop of RenderNodeAWGConfs emits from inbound i on, given
      that a chain entry has (not) claimed awg0. */
  function StandaloneIfaces(info: NodeInfo, chains: seq<Chain>, entry: bool, i: nat): seq<string>
    requires i <= |info.inbounds|
    decreases |info.inbounds| - i
  {
    if i == |info.inbounds| then []
    else if !KernelInbound(info, chains, i) then StandaloneIfaces(info, chains, entry, i + 1)
    else if !entry then [AWG0]
    else if info.inbounds[i].awgServerAddress == "" then StandaloneIfaces(info, chains, entry, i + 1)
    else [AWG1] + StandaloneIfaces(info, chains, entry, i + 1)
  }

  /** The loop itself, with its early exit. */
  method RenderStandalone(info: NodeInfo, chains: seq<Chain>, entry: bool) returns (ifaces: seq<string>)
    ensures ifaces == StandaloneIfaces(info, chains, entry, 0)
  {
    ifaces := [];
    for i := 0 to |info.inbounds|
      invariant ifaces + StandaloneIfaces(info, chains, entry, i) == StandaloneIfaces(info, chains, entry, 0)
    {
      if !KernelInbound(info, chains, i) {
        continue;
      }
      if entry && info.inbounds[i].awgServerAddress == "" {
        continue;
      }
      if entry {
        assert ifaces + ([AWG1] + StandaloneIfaces(info, chains, entry, i + 1)) == ifaces + [AWG1] + StandaloneIfaces(info, chains, entry, i + 1);
        ifaces := ifaces + [AWG1];
        continue;
      }
      ifaces := ifaces + [AWG0];
      return;
    }
  }

  predicate Distinct(xs: seq<string>) {
    forall i, j :: 0 <= i < j < |xs| ==> xs[i] != xs[j]
  }

  /** Standalone inbounds that ask for the second interface, from i on. */
  function SecondSeekers(info: NodeInfo, chains: seq<Chain>, i: nat): nat
    requires i <= |info.inbounds|
    decreases |info.inbounds| - i
  {
    if i == |info.inbounds| then 0
    else SecondSeekers(info, chains, i + 1)
         + if KernelInbound(info, chains, i) && info.inbounds[i].awgServerAddress != "" then 1 else 0
  }

  lemma {:induction false} SecondIfaces(info: NodeInfo, chains: seq<Chain>, i: nat)
    requires i <= |info.inbounds|
    ensures |StandaloneIfaces(info, chains, true, i)| == SecondSeekers(info, chains, i)
    ensures forall x :: x in StandaloneIfaces(info, chains, true, i) ==> x == AWG1
    decreases |info.inbounds| - i
  {
    hide KernelInbound;
    if i < |info.inbounds| {
      SecondIfaces(info, chains, i + 1);
    }
  }

  lemma {:induction false} AtMostOne(info: NodeInfo, chains: seq<Chain>, i: nat)
    requires i <= |info.inbounds|
    ensures |StandaloneIfaces(info, chains, false, i)| <= 1
    decreases |info.inbounds| - i
  {
    hide KernelInbound;
    if i < |info.inbounds| {
      AtMostOne(info, chains, i + 1);
    }
  }

  /** The standalone confs name distinct interfaces exactly when no chain entry holds awg0 or at
      most one standalone inbound asks for awg1: a second one is written over the first. */
  lemma {:induction false} StandaloneDistinctIff(info: NodeInfo, chains: seq<Chain>, entry: bool)
    ensures Distinct(StandaloneIfaces(info, chains, entry, 0)) <==> !entry || SecondSeekers(info, chains, 0) <= 1
  {
    SecondIfaces(info, chains, 0);
    AtMostOne(info, chains, 0);
    hide StandaloneIfaces, SecondSeekers;
    if entry && SecondSeekers(info, chains, 0) > 1 {
      var xs := StandaloneIfaces(info, chains, true, 0);
      assert xs[0] in xs && xs[1] in xs;
    }
  }

  // ---- Every conf of a node ----

  function AwgEntryRole(roles: seq<Role>): Option<Role> {
    if roles == [] then None
    else if roles[0].isEntry && roles[0].chain.userProtocol == AwgUsers then Some(roles[0])
    else AwgEntryRole(roles[1..])
  }

  function LinkedRole(roles: seq<Role>): Option<Role> {
    if roles == [] then None else if roles[0].node.exitLinks != [] then Some(roles[0]) else LinkedRole(roles[1..])
  }

  function ExitServerRole(roles: seq<Role>): Option<Role> {
    if roles == [] then None else if roles[0].node.role == ExitRole then Some(roles[0]) else ExitServerRole(roles[1..])
  }

  /** The first AWG entry of the node is served by the kernel and holds awg0. */
  predicate EntryPresent(info: NodeInfo, roles: seq<Role>) {
    AwgEntryRole(roles).Some? && KernelEntry(info, AwgEntryRole(roles).value)
  }

  /** balancerLinkTargetingExit finds a link. */
  predicate Targeted(nodes: seq<ChainNode>, id: string) {
    exists n :: n in nodes && exists l :: l in n.exitLinks && l.target == id
  }

  /** The first exit role of the node is the server end of some balancer's link. */
  predicate ExitServer(roles: seq<Role>) {
    ExitServerRole(roles).Some? && Targeted(ExitServerRole(roles).value.chain.nodes, ExitServerRole(roles).value.node.id)
  }

  function LinkIfaces(c: Chain, links: seq<ExitLink>): seq<string> {
    if links == [] then []
    else LinkIfaces(c, links[..|links| - 1])
         + if FirstIndex(AllNodes(c), links[|links| - 1].target).Some? then [links[|links| - 1].iface] else []
  }

  function BalancerIfaces(roles: seq<Role>): seq<string> {
    match LinkedRole(roles)
    case Some(r) => LinkIfaces(r.chain, r.node.exitLinks)
    case None => []
  }

  /** An operator outbound without an ID gets its position as one before its conf is rendered. */
  function Numbered(obs: seq<AwgOutbound>, i: nat): (o: AwgOutbound)
    requires i < |obs|
    ensures o.id != "" && o.IfaceName() == "awgo-" + o.id
  {
    if obs[i].id == "" then obs[i].(id := Itoa(i + 1)) else obs[i]
  }

  predicate OperatorRuns(o: AwgOutbound) {
    o.enabled && o.privateKey != ""
  }

  function OperatorIfaces(obs: seq<AwgOutbound>, n: nat): seq<string>
    requires n <= |obs|
  {
    if n == 0 then []
    else OperatorIfaces(obs, n - 1) + if OperatorRuns(obs[n - 1]) then [Numbered(obs, n - 1).IfaceName()] else []
  }

  function One(b: bool): seq<string> {
    if b then [AWG0] else []
  }

  /** The interfaces RenderNodeAWGConfs writes, in push order. */
  function PlanIfaces(info: NodeInfo, chains: seq<Chain>): seq<string> {
    var roles := Roles(chains, info.id);
    One(EntryPresent(info, roles)) + BalancerIfaces(roles) + One(ExitServer(roles))
    + OperatorIfaces(info.awgOutbounds, |info.awgOutbounds|) + StandaloneIfaces(info, chains, EntryPresent(info, roles), 0)
  }

  method FindLinked(roles: seq<Role>) returns (found: Option<Role>)
    ensures found == LinkedRole(roles)
  {
    for i := 0 to |roles|
      invariant LinkedRole(roles[i..]) == LinkedRole(roles)
    {
      assert roles[i..][1..] == roles[i + 1..];
      if roles[i].node.exitLinks != [] {
        return Some(roles[i]);
      }
    }
    return None;
  }

  method FindExitServer(roles: seq<Role>) returns (found: Option<Role>)
    ensures found == ExitServerRole(roles)
  {
    for i := 0 to |roles|
      invariant ExitServerRole(roles[i..]) == ExitServerRole(roles)
    {
      assert roles[i..][1..] == roles[i + 1..];
      if roles[i].node.role == ExitRole {
        return Some(roles[i]);
      }
    }
    return None;
  }

  method RenderLinks(c: Chain, links: seq<ExitLink>) returns (ifaces: seq<string>)
    ensures ifaces == LinkIfaces(c, links)
  {
    ifaces := [];
    for i := 0 to |links|
      invariant ifaces == LinkIfaces(c, links[..i])
    {
      assert links[..i + 1][..i] == links[..i];
      var target := FindNode(AllNodes(c), links[i].target);
      if target.Some? {
        ifaces := ifaces + [links[i].iface];
      }
    }
    assert links[..|links|] == links;
  }

  /** The confs of the node's chain roles: entry, balancer links, exit server. */
  method RenderChainConfs(info: NodeInfo, roles: seq<Role>) returns (ifaces: seq<string>, present: bool)
    ensures present == EntryPresent(info, roles)
    ensures ifaces == One(present) + BalancerIfaces(roles) + One(ExitServer(roles))
  {
    hide KernelEntry, LinkIfaces, Targeted;
    var entry := FindAwgEntry(roles);
    present := entry.Some? && KernelEntry(info, entry.value);
    ifaces := if present then [AWG0] else [];
    var balancer := FindLinked(roles);
    var links: seq<string> := [];
    if balancer.Some? {
      links := RenderLinks(balancer.value.chain, balancer.value.node.exitLinks);
    }
    ifaces := ifaces + links;
    var exit := FindExitServer(roles);
    if exit.Some? && Targeted(exit.value.chain.nodes, exit.value.node.id) {
      ifaces := ifaces + [AWG0];
    }
  }

  /** RenderNodeAWGConfs: the chain roles' confs, then operator outbounds, then standalone inbounds,
      each with the guards and early exits of its loop. */
  method RenderNodeAwgConfs(info: NodeInfo, chains: seq<Chain>) returns (ifaces: seq<string>)
    ensures ifaces == PlanIfaces(info, chains)
  {
    hide StandaloneIfaces, EntryPresent, ExitServer, BalancerIfaces, Roles, One, Numbered, OperatorRuns;
    var roles := ResolveChainRoles(info.id, chains);
    var base, present := RenderChainConfs(info, roles);
    ifaces := base;
    for i := 0 to |info.awgOutbounds|
      invariant ifaces == base + OperatorIfaces(info.awgOutbounds, i)
    {
      if OperatorRuns(info.awgOutbounds[i]) {
        ifaces := ifaces + [Numbered(info.awgOutbounds, i).IfaceName()];
      }
    }
    var own := RenderStandalone(info, chains, present);
    ifaces := ifaces + own;
  }

  // ---- When no interface is written twice ----

  predicate AnyKernelInbound(info: NodeInfo, chains: seq<Chain>) {
    exists i :: 0 <= i < |info.inbounds| && KernelInbound(info, chains, i)
  }

  function Count(b: bool): nat {
    if b then 1 else 0
  }

  /** How many of entry, exit server and standalone inbound would write awg0. */
  function Awg0Writers(info: NodeInfo, chains: seq<Chain>): nat {
    var roles := Roles(chains, info.id);
    Count(EntryPresent(info, roles)) + Count(ExitServer(roles))
    + Count(!EntryPresent(info, roles) && AnyKernelInbound(info, chains))
  }

  predicate OperatorsApart(obs: seq<AwgOutbound>) {
    forall i, j :: 0 <= i < j < |obs| && OperatorRuns(obs[i]) && OperatorRuns(obs[j]) ==> Numbered(obs, i).id != Numbered(obs, j).id
  }

  /** awg0 has one writer, awg1 one seeker, links and operator outbounds have their own names. */
  predicate Clean(info: NodeInfo, chains: seq<Chain>) {
    var roles := Roles(chains, info.id);
    var entry := EntryPresent(info, roles);
    && Awg0Writers(info, chains) <= 1
    && (entry ==> SecondSeekers(info, chains, 0) <= 1)
    && OperatorsApart(info.awgOutbounds)
    && Distinct(BalancerIfaces(roles))
    && forall x :: x in BalancerIfaces(roles) ==>
         && x !in OperatorIfaces(info.awgOutbounds, |info.awgOutbounds|)
         && (x == AWG0 ==> Awg0Writers(info, chains) == 0)
         && (x == AWG1 ==> !entry || SecondSeekers(info, chains, 0) == 0)
  }

  lemma {:induction false} DistinctConcat(a: seq<string>, b: seq<string>)
    ensures Distinct(a + b) <==> Distinct(a) && Distinct(b) && forall x :: x in a ==> x !in b
  {
    var c := a + b;
    if Distinct(c) {
      assert forall i :: 0 <= i < |a| ==> a[i] == c[i];
      assert forall i :: 0 <= i < |b| ==> b[i] == c[|a| + i];
      forall x | x in a
        ensures x !in b
      {
        var i :| 0 <= i < |a| && a[i] == x;
        forall j | 0 <= j < |b|
          ensures b[j] != x
        {
          assert c[i] == a[i] && c[|a| + j] == b[j];
        }
      }
    } else {
      var i, j :| 0 <= i < j < |c| && c[i] == c[j];
      if j < |a| {
        assert a[i] == a[j];
      } else if i >= |a| {
        assert b[i - |a|] == b[j - |a|];
      } else {
        assert a[i] in b;
      }
    }
  }

  lemma {:induction false} OperatorStep(obs: seq<AwgOutbound>, n: nat)
    requires 0 < n <= |obs|
    ensures OperatorIfaces(obs, n)
         == OperatorIfaces(obs, n - 1) + if OperatorRuns(obs[n - 1]) then [Numbered(obs, n - 1).IfaceName()] else []
  {
    hide OperatorRuns, Numbered, AwgOutbound.IfaceName;
  }

  lemma {:induction false} OperatorMember(obs: seq<AwgOutbound>, n: nat, x: string)
    requires n <= |obs|
    ensures x in OperatorIfaces(obs, n) <==> exists i :: 0 <= i < n && OperatorRuns(obs[i]) && x == Numbered(obs, i).IfaceName()
  {
    hide OperatorRuns, Numbered, AwgOutbound.IfaceName;
    if n > 0 {
      OperatorStep(obs, n);
      OperatorMember(obs, n - 1, x);
      hide OperatorIfaces;
    }
  }

  lemma {:induction false} PrefixedApart(a: string, b: string)
    ensures "awgo-" + a == "awgo-" + b <==> a == b
    ensures "awgo-" + a != AWG0 && "awgo-" + a != AWG1
  {
    assert ("awgo-" + a)[5..] == a && ("awgo-" + b)[5..] == b;
    assert ("awgo-" + a)[3] == 'o';
  }

  /** The merged config binds an operator outbound to the interface that the deploy writes for it
      exactly when it has an ID, or a tag that spells its position, or comes first without a tag. */
  lemma {:induction false} OperatorBoundIff(obs: seq<AwgOutbound>, i: nat)
    requires i < |obs|
    ensures obs[i].IfaceName() == Numbered(obs, i).IfaceName()
        <==> obs[i].id != "" || obs[i].tag == Itoa(i + 1) || (obs[i].tag == "" && i == 0)
  {
    var o := obs[i];
    if o.id == "" {
      assert Itoa(1) == "1";
      PrefixedApart(if o.tag == "" then Itoa(1) else o.tag, Itoa(i + 1));
      if Itoa(1) == Itoa(i + 1) {
        ItoaInjective(1, i + 1);
      }
    }
  }

  ghost predicate ApartUpTo(obs: seq<AwgOutbound>, n: nat)
    requires n <= |obs|
  {
    forall i, j :: 0 <= i < j < n && OperatorRuns(obs[i]) && OperatorRuns(obs[j]) ==> Numbered(obs, i).id != Numbered(obs, j).id
  }

  lemma {:induction false} OperatorsDistinct(obs: seq<AwgOutbound>, n: nat)
    requires n <= |obs|
    ensures Distinct(OperatorIfaces(obs, n)) <==> ApartUpTo(obs, n)
  {
    hide OperatorRuns, Numbered;
    if n > 0 {
      OperatorsDistinct(obs, n - 1);
      if OperatorRuns(obs[n - 1]) {
        var x := Numbered(obs, n - 1).IfaceName();
        OperatorMember(obs, n - 1, x);
        DistinctConcat(OperatorIfaces(obs, n - 1), [x]);
        forall i | 0 <= i < n - 1
          ensures Numbered(obs, i).IfaceName() == x <==> Numbered(obs, i).id == Numbered(obs, n - 1).id
        {
          PrefixedApart(Numbered(obs, i).id, Numbered(obs, n - 1).id);
        }
        hide Distinct, OperatorIfaces;
        assert ApartUpTo(obs, n) <==> ApartUpTo(obs, n - 1) && forall i :: 0 <= i < n - 1 && OperatorRuns(obs[i]) ==> Numbered(obs, i).id != Numbered(obs, n - 1).id;
      } else {
        assert OperatorIfaces(obs, n - 1) + [] == OperatorIfaces(obs, n - 1);
      }
    }
  }

  lemma {:induction false} FirstIface(info: NodeInfo, chains: seq<Chain>, i: nat)
    requires i <= |info.inbounds|
    ensures StandaloneIfaces(info, chains, false, i) == One(exists k :: i <= k < |info.inbounds| && KernelInbound(info, chains, k))
    decreases |info.inbounds| - i
  {
    hide KernelInbound;
    if i < |info.inbounds| {
      FirstIface(info, chains, i + 1);
    }
  }

  lemma {:induction false} StandalonePart(info: NodeInfo, chains: seq<Chain>, entry: bool)
    ensures var own := StandaloneIfaces(info, chains, entry, 0);
            && (Distinct(own) <==> !entry || SecondSeekers(info, chains, 0) <= 1)
            && (AWG0 in own <==> !entry && AnyKernelInbound(info, chains))
            && (AWG1 in own <==> entry && SecondSeekers(info, chains, 0) > 0)
            && forall x :: x in own ==> x == AWG0 || x == AWG1
  {
    StandaloneDistinctIff(info, chains, entry);
    SecondIfaces(info, chains, 0);
    FirstIface(info, chains, 0);
    assert AnyKernelInbound(info, chains) <==> exists k :: 0 <= k < |info.inbounds| && KernelInbound(info, chains, k);
    hide KernelInbound, SecondSeekers, Distinct, AnyKernelInbound, StandaloneIfaces;
    if entry && SecondSeekers(info, chains, 0) > 0 {
      var own := StandaloneIfaces(info, chains, true, 0);
      assert own[0] in own;
    }
  }

  lemma {:induction false} OperatorPart(obs: seq<AwgOutbound>)
    ensures Distinct(OperatorIfaces(obs, |obs|)) <==> OperatorsApart(obs)
    ensures AWG0 !in OperatorIfaces(obs, |obs|) && AWG1 !in OperatorIfaces(obs, |obs|)
  {
    OperatorsDistinct(obs, |obs|);
    OperatorMember(obs, |obs|, AWG0);
    OperatorMember(obs, |obs|, AWG1);
    forall i | 0 <= i < |obs|
      ensures Numbered(obs, i).IfaceName() != AWG0 && Numbered(obs, i).IfaceName() != AWG1
    {
      PrefixedApart(Numbered(obs, i).id, "");
    }
    hide Numbered, OperatorRuns, Distinct, OperatorIfaces;
  }

  /** Five parts in a row, of which the first and the third are at most awg0. */
  lemma {:induction false} FiveParts(a: bool, l: seq<string>, x: bool, o: seq<string>, own: seq<string>)
    ensures Distinct(One(a) + l + One(x) + o + own) <==>
              && Distinct(l) && Distinct(o) && Distinct(own) && !(a && x)
              && (a || x ==> AWG0 !in l && AWG0 !in o && AWG0 !in own)
              && forall y :: (y in l ==> y !in o && y !in own) && (y in o ==> y !in own)
  {
    DistinctConcat(One(a) + l + One(x) + o, own);
    DistinctConcat(One(a) + l + One(x), o);
    DistinctConcat(One(a) + l, One(x));
    DistinctConcat(One(a), l);
    DistinctOne(a);
    DistinctOne(x);
    assert (AWG0 in One(a) <==> a) && (AWG0 in One(x) <==> x);
    hide Distinct, One;
    var two := One(a) + l;
    var three := two + One(x);
    assert forall y :: y in two <==> y in One(a) || y in l;
    assert forall y :: y in three <==> y in two || y in One(x);
    assert forall y :: y in three + o <==> y in three || y in o;
    assert (forall y :: y in two ==> y !in One(x)) <==> !(a && x) && (x ==> AWG0 !in l);
    assert (forall y :: y in One(a) ==> y !in l) <==> (a ==> AWG0 !in l);
  }

  lemma {:induction false} DistinctOne(b: bool)
    ensures Distinct(One(b)) && forall y :: y in One(b) <==> b && y == AWG0
  {
  }

  /** The five parts are apart exactly when awg0 has at most one writer and the links stay off
      everybody's names. `any` says that a standalone kernel inbound exists. */
  lemma {:induction false} CleanParts(entry: bool, l: seq<string>, exit: bool, o: seq<string>, own: seq<string>, any: bool, second: nat)
    requires Distinct(own) <==> !entry || second <= 1
    requires (AWG0 in own <==> !entry && any) && (AWG1 in own <==> entry && second > 0)
    requires forall x :: x in own ==> x == AWG0 || x == AWG1
    requires AWG0 !in o && AWG1 !in o
    ensures var writers := Count(entry) + Count(exit) + Count(!entry && any);
            Distinct(One(entry) + l + One(exit) + o + own) <==>
              && writers <= 1 && (entry ==> second <= 1) && Distinct(o) && Distinct(l)
              && forall x :: x in l ==> x !in o && (x == AWG0 ==> writers == 0) && (x == AWG1 ==> !entry || second == 0)
  {
    FiveParts(entry, l, exit, o, own);
    hide Distinct, One;
  }

  /** A deploy writes no conf twice exactly when the node is clean. */
  lemma {:induction false} PlanDistinctIff(info: NodeInfo, chains: seq<Chain>)
    ensures Distinct(PlanIfaces(info, chains)) <==> Clean(info, chains)
  {
    var roles := Roles(chains, info.id);
    var entry := EntryPresent(info, roles);
    var second := SecondSeekers(info, chains, 0);
    StandalonePart(info, chains, entry);
    OperatorPart(info.awgOutbounds);
    hide Distinct, Roles, EntryPresent, ExitServer, BalancerIfaces, OperatorIfaces, StandaloneIfaces, OperatorsApart, AnyKernelInbound,
         SecondSeekers;
    CleanParts(entry, BalancerIfaces(roles), ExitServer(roles), OperatorIfaces(info.awgOutbounds, |info.awgOutbounds|),
               StandaloneIfaces(info, chains, entry, 0), AnyKernelInbound(info, chains), second);
  }

  /** An exit node that a balancer links to and that also serves a standalone kernel inbound
      writes awg0 twice, without any AWG entry. */
  lemma {:induction false} ExitAndStandaloneClash(info: NodeInfo, chains: seq<Chain>)
    requires ExitServer(Roles(chains, info.id)) && !EntryPresent(info, Roles(chains, info.id)) && AnyKernelInbound(info, chains)
    ensures !Distinct(PlanIfaces(info, chains))
  {
    PlanDistinctIff(info, chains);
    hide PlanIfaces, Distinct, Roles, EntryPresent, ExitServer, AnyKernelInbound;
  }

  // ---- Teardown ----

  /** The userspace AWG 3.0 inbounds whose kernel unit may still hold their port. */
  predicate UserspaceInbound(info: NodeInfo, chains: seq<Chain>, i: nat)
    requires i < |info.inbounds|
  {
    info.inbounds[i].protocol == "awg" && info.inbounds[i].awg3 && !info.kernelAwg3 && Standalone(chains, info, i)
  }

  predicate HasAwgEntry(roles: seq<Role>) {
    exists i :: 0 <= i < |roles| && roles[i].isEntry && roles[i].chain.userProtocol == AwgUsers
  }

  /** The add closure: never a rendered interface, never twice. */
  method Add(out: seq<string>, keep: set<string>, x: string) returns (more: seq<string>)
    requires Distinct(out) && forall y :: y in out ==> y !in keep
    ensures Distinct(more) && (forall y :: y in more ==> y !in keep)
    ensures forall y :: y in more <==> y in out || (y == x && x != "" && x !in keep)
  {
    more := out;
    if x != "" && x !in keep && x !in out {
      more := out + [x];
    }
  }

  /** What the inbounds loop asks to stop, among the first n. */
  ghost predicate Asked(info: NodeInfo, chains: seq<Chain>, second: bool, n: nat, x: string)
    requires n <= |info.inbounds|
  {
    exists i :: 0 <= i < n && UserspaceInbound(info, chains, i)
      && x == if second && info.inbounds[i].awgServerAddress != "" then AWG1 else AWG0
  }

  method FindAwgEntry(roles: seq<Role>) returns (found: Option<Role>)
    ensures found == AwgEntryRole(roles) && (found.Some? <==> HasAwgEntry(roles))
  {
    for i := 0 to |roles|
      invariant AwgEntryRole(roles[i..]) == AwgEntryRole(roles)
      invariant forall j :: 0 <= j < i ==> !(roles[j].isEntry && roles[j].chain.userProtocol == AwgUsers)
    {
      assert roles[i..][1..] == roles[i + 1..];
      if roles[i].isEntry && roles[i].chain.userProtocol == AwgUsers {
        return Some(roles[i]);
      }
    }
    return None;
  }

  /** AWGTeardownInterfaces: the interfaces a userspace endpoint replaces, less the rendered ones. */
  method TeardownInterfaces(info: NodeInfo, chains: seq<Chain>, roles: seq<Role>, rendered: seq<ConfFile>) returns (out: seq<string>)
    ensures Distinct(out) && forall x :: x in out ==> x !in Named(rendered) && (x == AWG0 || x == AWG1)
    ensures AWG0 in out <==>
              (AWG0 !in Named(rendered) && (HasAwgEntry(roles) || exists i :: 0 <= i < |info.inbounds| && UserspaceInbound(info, chains, i)))
    ensures AWG1 in out <==>
              (&& AWG1 !in Named(rendered) && (HasAwgEntry(roles) || AWG0 in Named(rendered))
               && exists i :: 0 <= i < |info.inbounds| && UserspaceInbound(info, chains, i) && info.inbounds[i].awgServerAddress != "")
  {
    var keep := Named(rendered);
    out := [];
    var entry := FindAwgEntry(roles);
    if entry.Some? && !info.kernelAwg3 && EntryIsAwg3(info, entry.value) {
      out := Add(out, keep, AWG0);
    }
    ghost var first := AWG0 in out;
    var second := AWG0 in keep || entry.Some?;
    hide UserspaceInbound, EntryIsAwg3, Named;
    for i := 0 to |info.inbounds|
      invariant Distinct(out) && forall x :: x in out ==> x !in keep
      invariant forall x :: x in out <==> (x == AWG0 && first) || (x !in keep && Asked(info, chains, second, i, x))
    {
      if UserspaceInbound(info, chains, i) {
        out := Add(out, keep, if second && info.inbounds[i].awgServerAddress != "" then AWG1 else AWG0);
      }
    }
    if AWG0 !in keep && entry.Some? {
      out := Add(out, keep, AWG0);
    }
  }

  // ---- The plan and the push ----

  /** With distinct interfaces, files that existed and no broken safeguard, a push that reports an
      error leaves config.json and every conf as they were, sing-box running on that config.json if it
      did, and every unit that ran running again, enabled if it was. */
  lemma {:induction false} FailedPushRestores(s: State, t: State, cfg: string, fs: seq<ConfFile>, down: set<string>)
    requires PushUndone(s, t, cfg, fs, down) && DistinctIfaces(fs)
    requires s.broken == {} && s.failed == {}
    requires ConfigJson in s.files && forall x :: x in Named(fs) + down ==> KernelConf(x) in s.files
    ensures forall x :: x in Named(fs) ==> Get(t.files, KernelConf(x)) == Get(s.files, KernelConf(x))
    ensures Get(t.files, ConfigJson) == Get(s.files, ConfigJson)
    ensures SingBox in s.active && s.loaded == Get(s.files, ConfigJson) ==> SingBox in t.active && t.loaded == s.loaded
    ensures SingBox in s.active ==> SingBox in t.active
    ensures forall x :: x in down + Named(fs) && AwgQuick(x) in s.active ==> AwgQuick(x) in t.active
    ensures forall x :: x in down + Named(fs) && AwgQuick(x) in s.active && AwgQuick(x) in s.enabled ==> AwgQuick(x) in t.enabled
  {
    NothingLost(s, t);
    hide Blamed, LostFile, LostUnit;
    forall x | x in Named(fs)
      ensures Get(t.files, KernelConf(x)) == Get(s.files, KernelConf(x))
    {
      var i :| 0 <= i < |fs| && fs[i].iface == x;
      assert Once(fs, i);
      assert ContentsBack(s, t, fs, i);
    }
  }

  /** Without a broken safeguard every file stays in reach, and every unit that has a conf. */
  lemma {:induction false} NothingLost(s: State, t: State)
    requires Blamed(s, t) && s.broken == {} && s.failed == {}
    ensures forall f :: !LostFile(t.failed, f)
    ensures forall u :: u == SingBox || FileOf(u) in s.files ==> !LostUnit(t.failed, u)
  {
  }

  function IfacesIn(fs: seq<ConfFile>): seq<string> {
    seq(|fs|, i requires 0 <= i < |fs| => fs[i].iface)
  }

  /** The whole deploy of a clean node: what it renders is what the failed push restores. */
  lemma {:induction false} FailedDeployRestores(s: State, t: State, cfg: string, fs: seq<ConfFile>, down: set<string>, info: NodeInfo, chains: seq<Chain>)
    requires IfacesIn(fs) == PlanIfaces(info, chains) && Clean(info, chains)
    requires PushUndone(s, t, cfg, fs, down) && s.broken == {} && s.failed == {}
    requires ConfigJson in s.files && forall x :: x in Named(fs) + down ==> KernelConf(x) in s.files
    ensures forall x :: x in Named(fs) ==> Get(t.files, KernelConf(x)) == Get(s.files, KernelConf(x))
    ensures Get(t.files, ConfigJson) == Get(s.files, ConfigJson)
    ensures SingBox in s.active && s.loaded == Get(s.files, ConfigJson) ==> SingBox in t.active && t.loaded == s.loaded
    ensures SingBox in s.active ==> SingBox in t.active
    ensures forall x :: x in down + Named(fs) && AwgQuick(x) in s.active ==> AwgQuick(x) in t.active
    ensures forall x :: x in down + Named(fs) && AwgQuick(x) in s.active && AwgQuick(x) in s.enabled ==> AwgQuick(x) in t.enabled
  {
    PlanDistinctIff(info, chains);
    hide PlanIfaces, Clean, PushUndone;
    forall i, j | 0 <= i < j < |fs|
      ensures fs[i].iface != fs[j].iface
    {
      assert IfacesIn(fs)[i] != IfacesIn(fs)[j];
    }
    FailedPushRestores(s, t, cfg, fs, down);
  }
}
