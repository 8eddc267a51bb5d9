/** Listen ports on a node: remapping behind caddy, conflict detection, and the renderers that
    must agree with both (utilities.go, merged_config.go). */
module Ports {
  import opened Text
  import opened Topology
  import opened Routing
  import opened ManualRules

  const FIRST_INTERNAL := 11000
  const DEFAULT_USER_PORT := 8443
  const DEFAULT_TRANSPORT_PORT := 443

  predicate Owned(p: int) {
    p == 80 || p == 443 || p == 8080 || p == 8443 || p == 8900
  }

  predicate UdpOnly(ib: NodeInbound) {
    ib.protocol == "awg" || (ib.protocol == "mieru" && Lower(ib.mieruTransport) == "udp")
  }

  /** The inbound must leave its port to caddy. */
  predicate Moves(ib: NodeInbound) {
    !UdpOnly(ib) && Owned(ib.port)
  }

  // ---- Remapping ----

  predicate Native(ibs: seq<NodeInbound>, p: int) {
    exists i :: 0 <= i < |ibs| && ibs[i].port == p
  }

  predicate Available(ibs: seq<NodeInbound>, earlier: seq<int>, p: int) {
    p >= FIRST_INTERNAL && !Owned(p) && !Native(ibs, p) && p !in earlier
  }

  /** A moving inbound gets the smallest available internal port, in slice order. */
  ghost predicate IsRemap(ibs: seq<NodeInbound>, ports: seq<int>) {
    && |ports| <= |ibs|
    && forall i :: 0 <= i < |ports| ==>
         if Moves(ibs[i]) then
           Available(ibs, ports[..i], ports[i]) && forall p :: FIRST_INTERNAL <= p < ports[i] ==> !Available(ibs, ports[..i], p)
         else ports[i] == ibs[i].port
  }

  function Range(lo: int, n: nat): (s: set<int>)
    ensures |s| == n && forall x :: x in s <==> lo <= x < lo + n
  {
    if n == 0 then {} else Range(lo, n - 1) + {lo + n - 1}
  }

  function SetOf(s: seq<int>): (r: set<int>)
    ensures |r| <= |s| && forall x :: x in r <==> x in s
  {
    if s == [] then {} else SetOf(s[..|s| - 1]) + {s[|s| - 1]}
  }

  function ConfiguredPorts(ibs: seq<NodeInbound>): seq<int> {
    seq(|ibs|, i requires 0 <= i < |ibs| => ibs[i].port)
  }

  /** Ports the other inbounds hold or will keep: one per inbound other than the i-th. */
  function Others(ibs: seq<NodeInbound>, ports: seq<int>): seq<int>
    requires |ports| < |ibs|
  {
    ports + ConfiguredPorts(ibs[|ports| + 1..])
  }

  /** A port that is not available to inbound i belongs to some other inbound. */
  lemma {:induction false} TakenByOther(ibs: seq<NodeInbound>, ports: seq<int>, p: int)
    requires IsRemap(ibs, ports) && |ports| < |ibs| && Moves(ibs[|ports|])
    requires p >= FIRST_INTERNAL && !Available(ibs, ports, p)
    ensures p in Others(ibs, ports)
  {
    var others := Others(ibs, ports);
    if p !in ports {
      var j :| 0 <= j < |ibs| && ibs[j].port == p;
      if j >= |ports| {
        assert others[|ports| + (j - |ports| - 1)] == p;
      }
    }
  }

  /** Pigeonhole: the unavailable ports below a position are fewer than the inbounds. */
  lemma {:induction false} FewBlocked(ibs: seq<NodeInbound>, ports: seq<int>, next: int)
    requires IsRemap(ibs, ports) && |ports| < |ibs| && Moves(ibs[|ports|]) && next >= FIRST_INTERNAL
    requires forall p :: FIRST_INTERNAL <= p < next ==> !Available(ibs, ports, p)
    ensures next < FIRST_INTERNAL + |ibs|
  {
    var others := Others(ibs, ports);
    var blocked := Range(FIRST_INTERNAL, next - FIRST_INTERNAL);
    forall p | p in blocked
      ensures p in SetOf(others)
    {
      TakenByOther(ibs, ports, p);
    }
    CardSubset(blocked, SetOf(others));
  }

  lemma {:induction false} CardSubset(a: set<int>, b: set<int>)
    requires a <= b
    ensures |a| <= |b|
  {
    assert b == a + (b - a);
  }

  /** RemapInboundPorts: one forward search position serves all inbounds. */
  method RemapInboundPorts(ibs: seq<NodeInbound>) returns (ports: seq<int>)
    ensures |ports| == |ibs| && IsRemap(ibs, ports)
  {
    var native: set<int> := {};
    for i := 0 to |ibs|
      invariant forall p :: p in native <==> exists j :: 0 <= j < i && ibs[j].port == p
    {
      native := native + {ibs[i].port};
    }
    assert forall p :: p in native <==> Native(ibs, p);
    ports := [];
    var next := FIRST_INTERNAL;
    var taken: set<int> := {};
    for i := 0 to |ibs|
      invariant |ports| == i && IsRemap(ibs, ports) && next >= FIRST_INTERNAL
      invariant forall p :: p >= FIRST_INTERNAL ==> (p in taken || p in native <==> p in ports || p in native)
      invariant forall p :: FIRST_INTERNAL <= p < next ==> !Available(ibs, ports, p)
    {
      if !Moves(ibs[i]) {
        ExtendRemap(ibs, ports, ibs[i].port);
        ports := ports + [ibs[i].port];
        continue;
      }
      while Owned(next) || next in native || next in taken
        invariant next >= FIRST_INTERNAL
        invariant forall p :: FIRST_INTERNAL <= p < next ==> !Available(ibs, ports, p)
        decreases FIRST_INTERNAL + |ibs| - next
      {
        next := next + 1;
        FewBlocked(ibs, ports, next);
      }
      taken := taken + {next};
      ExtendRemap(ibs, ports, next);
      ports := ports + [next];
    }
  }

  /** One more port that follows the rule. */
  lemma {:induction false} ExtendRemap(ibs: seq<NodeInbound>, ports: seq<int>, p: int)
    requires |ports| < |ibs| && IsRemap(ibs, ports)
    requires if Moves(ibs[|ports|]) then Available(ibs, ports, p) && forall q :: FIRST_INTERNAL <= q < p ==> !Available(ibs, ports, q)
             else p == ibs[|ports|].port
    ensures IsRemap(ibs, ports + [p])
    ensures forall q :: !Available(ibs, ports, q) ==> !Available(ibs, ports + [p], q)
  {
    var more := ports + [p];
    forall i | 0 <= i < |more|
      ensures if Moves(ibs[i]) then
                Available(ibs, more[..i], more[i]) && forall q :: FIRST_INTERNAL <= q < more[i] ==> !Available(ibs, more[..i], q)
              else more[i] == ibs[i].port
    {
      if i < |ports| {
        assert more[..i] == ports[..i];
      } else {
        assert more[..i] == ports;
      }
    }
  }

  lemma {:induction false} SmallestFree(ibs: seq<NodeInbound>, ports: seq<int>, next: int) returns (p: int)
    requires IsRemap(ibs, ports) && |ports| < |ibs| && Moves(ibs[|ports|]) && next >= FIRST_INTERNAL
    requires forall q :: FIRST_INTERNAL <= q < next ==> !Available(ibs, ports, q)
    ensures Available(ibs, ports, p) && forall q :: FIRST_INTERNAL <= q < p ==> !Available(ibs, ports, q)
    decreases FIRST_INTERNAL + |ibs| - next
  {
    FewBlocked(ibs, ports, next);
    if Available(ibs, ports, next) {
      p := next;
    } else {
      p := SmallestFree(ibs, ports, next + 1);
    }
  }

  /** Every list of inbounds has an assignment. */
  lemma {:induction false} RemapExists(ibs: seq<NodeInbound>, n: nat) returns (ports: seq<int>)
    requires n <= |ibs|
    ensures |ports| == n && IsRemap(ibs, ports)
  {
    if n == 0 {
      ports := [];
    } else {
      var front := RemapExists(ibs, n - 1);
      var p := ibs[n - 1].port;
      if Moves(ibs[n - 1]) {
        p := SmallestFree(ibs, front, FIRST_INTERNAL);
      }
      ExtendRemap(ibs, front, p);
      ports := front + [p];
    }
  }

  /** The assignment is fully determined, so every layer that asks for it gets the same one. */
  lemma {:induction false} RemapUnique(ibs: seq<NodeInbound>, a: seq<int>, b: seq<int>)
    requires IsRemap(ibs, a) && IsRemap(ibs, b) && |a| == |b|
    ensures a == b
  {
    if a != [] {
      var n := |a| - 1;
      RemapPrefix(ibs, a, n);
      RemapPrefix(ibs, b, n);
      RemapUnique(ibs, a[..n], b[..n]);
      assert a == a[..n] + [a[n]] && b == b[..n] + [b[n]];
    }
  }

  lemma {:induction false} RemapPrefix(ibs: seq<NodeInbound>, a: seq<int>, n: nat)
    requires IsRemap(ibs, a) && n <= |a|
    ensures IsRemap(ibs, a[..n])
  {
    forall i | 0 <= i < n
      ensures a[..n][..i] == a[..i]
    {
    }
  }

  /** What remapping promises: moved inbounds get pairwise distinct internal ports that are not
      caddy's, equal nobody's configured port and lie in [11000, 11000 + n); the rest stay. */
  lemma {:induction false} RemapBounds(ibs: seq<NodeInbound>, ports: seq<int>, i: nat)
    requires IsRemap(ibs, ports) && |ports| == |ibs| && i < |ibs|
    ensures if Moves(ibs[i]) then
              && FIRST_INTERNAL <= ports[i] < FIRST_INTERNAL + |ibs| && !Owned(ports[i]) && !Native(ibs, ports[i])
              && forall j :: 0 <= j < |ibs| && j != i ==> ports[j] != ports[i]
            else ports[i] == ibs[i].port
    ensures ibs[i].protocol == "awg" ==> ports[i] == ibs[i].port
    ensures ports[i] in {80, 443, 8080, 8443, 8900} ==> ibs[i].protocol == "awg" || (ibs[i].protocol == "mieru" && Lower(ibs[i].mieruTransport) == "udp")
  {
    if Moves(ibs[i]) {
      RemapPrefix(ibs, ports, i);
      FewBlocked(ibs, ports[..i], ports[i]);
      forall j | 0 <= j < |ibs| && j != i
        ensures ports[j] != ports[i]
      {
        if j < i {
          assert ports[..i][j] == ports[j];
        } else if Moves(ibs[j]) {
          assert ports[..j][i] == ports[i];
        }
      }
    }
  }

  // ---- Claims and listeners ----

  predicate CaddyMode(info: NodeInfo) {
    Trim(info.tlsDomain) != "" && info.caddyInstalled
  }

  function MtproxyPort(p: int): int {
    if p > 0 then p else 443
  }

  function EvictPort(p: int): int {
    if Owned(p) then 12000 + p % 1000 else p
  }

  function EntryOrdinal(entries: seq<ChainNode>, id: string): nat {
    match FirstIndex(entries, id)
    case Some(k) => k
    case None => 0
  }

  /** chainEntryPort. */
  function EntryPort(c: Chain, id: string): int {
    (if c.userEntryPort > 0 then c.userEntryPort else DEFAULT_USER_PORT) + EntryOrdinal(EntryNodes(c), id)
  }

  function ByProfile(ibs: seq<NodeInbound>, profile: string): Option<NodeInbound> {
    if ibs == [] || profile == "" then None
    else if ibs[0].profileId == profile then Some(ibs[0])
    else ByProfile(ibs[1..], profile)
  }

  /** The port conflict detection reserves for a role. */
  function RoleClaim(info: NodeInfo, r: Role): int {
    var ib := ByProfile(info.inbounds, r.node.inboundRef);
    var p := if r.isEntry && ib.Some? && ib.value.port > 0 then ib.value.port else r.node.port;
    if p != 0 then p else if r.isEntry then EntryPort(r.chain, r.node.id) else DEFAULT_TRANSPORT_PORT
  }

  /** The port conflict detection reserves for a standalone inbound. */
  function InboundClaim(info: NodeInfo, ports: seq<int>, i: nat): int
    requires i < |info.inbounds| == |ports|
  {
    var ib := info.inbounds[i];
    if ib.protocol == "mtproxy" then
      if CaddyMode(info) then EvictPort(MtproxyPort(ib.port)) else MtproxyPort(ib.port)
    else if CaddyMode(info) then ports[i]
    else ib.port
  }

  datatype Claim = Claim(port: int, role: Option<nat>, inbound: Option<nat>)

  function RoleClaims(info: NodeInfo, roles: seq<Role>): seq<Claim> {
    seq(|roles|, i requires 0 <= i < |roles| => Claim(RoleClaim(info, roles[i]), Some(i), None))
  }

  function InboundClaims(info: NodeInfo, chains: seq<Chain>, ports: seq<int>, n: nat): seq<Claim>
    requires n <= |info.inbounds| == |ports|
  {
    if n == 0 then []
    else InboundClaims(info, chains, ports, n - 1)
         + if Standalone(chains, info, n - 1) then [Claim(InboundClaim(info, ports, n - 1), None, Some(n - 1))] else []
  }

  function Claims(info: NodeInfo, chains: seq<Chain>, roles: seq<Role>, ports: seq<int>): seq<Claim>
    requires |info.inbounds| == |ports|
  {
    RoleClaims(info, roles) + InboundClaims(info, chains, ports, |info.inbounds|)
  }

  predicate DistinctPorts(claims: seq<Claim>) {
    forall i, j :: 0 <= i < j < |claims| ==> claims[i].port != claims[j].port
  }

  predicate NoRoleOnCaddy(info: NodeInfo, roles: seq<Role>) {
    CaddyMode(info) ==> forall i :: 0 <= i < |roles| ==> !Owned(RoleClaim(info, roles[i]))
  }

  /** detectPortConflicts: passes exactly when no port is claimed twice and no chain listener
      sits on a caddy port. */
  method DetectPortConflicts(info: NodeInfo, chains: seq<Chain>, roles: seq<Role>, ports: seq<int>) returns (ok: bool)
    requires |ports| == |info.inbounds| && IsRemap(info.inbounds, ports)
    ensures ok <==> DistinctPorts(Claims(info, chains, roles, ports)) && NoRoleOnCaddy(info, roles)
  {
    hide RoleClaim, InboundClaim, Standalone, CaddyMode, IsRemap;
    var claims: seq<Claim> := [];
    for i := 0 to |roles|
      invariant claims == RoleClaims(info, roles)[..i]
      invariant CaddyMode(info) ==> forall j :: 0 <= j < i ==> !Owned(RoleClaim(info, roles[j]))
    {
      var port := RoleClaim(info, roles[i]);
      if CaddyMode(info) && Owned(port) {
        return false;
      }
      claims := claims + [Claim(port, Some(i), None)];
    }
    var base := claims;
    for i := 0 to |info.inbounds|
      invariant claims == base + InboundClaims(info, chains, ports, i)
    {
      if Standalone(chains, info, i) {
        claims := claims + [Claim(InboundClaim(info, ports, i), None, Some(i))];
      }
    }
    assert claims == Claims(info, chains, roles, ports);
    ok := NoPortTwice(claims);
  }

  method NoPortTwice(claims: seq<Claim>) returns (ok: bool)
    ensures ok <==> DistinctPorts(claims)
  {
    var byPort: set<int> := {};
    for i := 0 to |claims|
      invariant DistinctPorts(claims[..i])
      invariant forall p :: p in byPort <==> exists j :: 0 <= j < i && claims[j].port == p
    {
      if claims[i].port in byPort {
        return false;
      }
      byPort := byPort + {claims[i].port};
    }
    assert claims[..|claims|] == claims;
    ok := true;
  }

  /** The port buildStandaloneInOut (or, for MTProxy, the node-level builder) listens on. */
  function InboundListener(info: NodeInfo, ports: seq<int>, i: nat): int
    requires i < |info.inbounds| == |ports|
  {
    var ib := info.inbounds[i];
    if ib.protocol == "mtproxy" then
      if CaddyMode(info) then EvictPort(MtproxyPort(ib.port)) else MtproxyPort(ib.port)
    else if CaddyMode(info) && (Owned(ib.port) || ib.protocol == "naive" || ib.protocol == "trusttunnel") then ports[i]
    else ib.port
  }

  /** The port a transit listener binds. */
  function TransitListener(r: Role): int {
    if r.node.port == 0 then DEFAULT_TRANSPORT_PORT else r.node.port
  }

  /** Each standalone inbound listens exactly where it is claimed. */
  lemma {:induction false} ListenerIsClaim(info: NodeInfo, ports: seq<int>, i: nat)
    requires i < |info.inbounds| == |ports| && IsRemap(info.inbounds, ports)
    ensures InboundListener(info, ports, i) == InboundClaim(info, ports, i)
  {
    RemapBounds(info.inbounds, ports, i);
  }

  lemma {:induction false} InboundClaimAt(info: NodeInfo, chains: seq<Chain>, ports: seq<int>, n: nat, i: nat) returns (k: nat)
    requires i < n <= |info.inbounds| == |ports| && Standalone(chains, info, i)
    ensures k < |InboundClaims(info, chains, ports, n)|
    ensures InboundClaims(info, chains, ports, n)[k] == Claim(InboundClaim(info, ports, i), None, Some(i))
  {
    hide InboundClaim, Standalone;
    if i == n - 1 {
      k := |InboundClaims(info, chains, ports, n - 1)|;
    } else {
      k := InboundClaimAt(info, chains, ports, n - 1, i);
    }
  }

  /** Detection leaves no two standalone inbounds and no two transit listeners on one port. */
  lemma {:induction false} ListenersDistinct(info: NodeInfo, chains: seq<Chain>, roles: seq<Role>, ports: seq<int>)
    requires |ports| == |info.inbounds| && IsRemap(info.inbounds, ports)
    requires DistinctPorts(Claims(info, chains, roles, ports))
    ensures forall i, j :: 0 <= i < j < |info.inbounds| && Standalone(chains, info, i) && Standalone(chains, info, j) ==>
              InboundListener(info, ports, i) != InboundListener(info, ports, j)
    ensures forall i, j :: 0 <= i < |roles| && 0 <= j < |info.inbounds| && !roles[i].isEntry && Standalone(chains, info, j) ==>
              TransitListener(roles[i]) != InboundListener(info, ports, j)
    ensures forall i, j :: 0 <= i < j < |roles| && !roles[i].isEntry && !roles[j].isEntry ==>
              TransitListener(roles[i]) != TransitListener(roles[j])
  {
    var claims := Claims(info, chains, roles, ports);
    forall i, j | 0 <= i < j < |info.inbounds| && Standalone(chains, info, i) && Standalone(chains, info, j)
      ensures InboundListener(info, ports, i) != InboundListener(info, ports, j)
    {
      TwoInbounds(info, chains, roles, ports, i, j);
    }
    forall i, j | 0 <= i < |roles| && 0 <= j < |info.inbounds| && !roles[i].isEntry && Standalone(chains, info, j)
      ensures TransitListener(roles[i]) != InboundListener(info, ports, j)
    {
      RoleAndInbound(info, chains, roles, ports, i, j);
      assert RoleClaim(info, roles[i]) == TransitListener(roles[i]);
    }
    forall i, j | 0 <= i < j < |roles| && !roles[i].isEntry && !roles[j].isEntry
      ensures TransitListener(roles[i]) != TransitListener(roles[j])
    {
      assert claims[i].port == TransitListener(roles[i]) && claims[j].port == TransitListener(roles[j]);
    }
  }

  lemma {:induction false} TwoInbounds(info: NodeInfo, chains: seq<Chain>, roles: seq<Role>, ports: seq<int>, i: nat, j: nat)
    requires |ports| == |info.inbounds| && IsRemap(info.inbounds, ports) && DistinctPorts(Claims(info, chains, roles, ports))
    requires i < j < |info.inbounds| && Standalone(chains, info, i) && Standalone(chains, info, j)
    ensures InboundListener(info, ports, i) != InboundListener(info, ports, j)
  {
    ListenerIsClaim(info, ports, i);
    ListenerIsClaim(info, ports, j);
    var claims := Claims(info, chains, roles, ports);
    hide InboundClaim, InboundListener, RoleClaim, Standalone, IsRemap;
    var a := InboundClaimAt(info, chains, ports, |info.inbounds|, i);
    var b := InboundClaimAt(info, chains, ports, |info.inbounds|, j);
    assert claims[|roles| + a].inbound == Some(i) && claims[|roles| + b].inbound == Some(j);
    if a < b {
    } else if b < a {
    }
  }

  lemma {:induction false} RoleAndInbound(info: NodeInfo, chains: seq<Chain>, roles: seq<Role>, ports: seq<int>, i: nat, j: nat)
    requires |ports| == |info.inbounds| && IsRemap(info.inbounds, ports) && DistinctPorts(Claims(info, chains, roles, ports))
    requires i < |roles| && j < |info.inbounds| && Standalone(chains, info, j)
    ensures RoleClaim(info, roles[i]) != InboundListener(info, ports, j)
  {
    ListenerIsClaim(info, ports, j);
    var claims := Claims(info, chains, roles, ports);
    hide InboundClaim, InboundListener, RoleClaim, Standalone, IsRemap;
    var b := InboundClaimAt(info, chains, ports, |info.inbounds|, j);
    assert claims[i].port == RoleClaim(info, roles[i]) && claims[|roles| + b].inbound == Some(j);
  }

  /** The listener of an inbound that the node renders itself. What a chain owns, and what a level-0
      node references by profile, is left to the chain's entry instead. */
  function Rendered(info: NodeInfo, chains: seq<Chain>, ports: seq<int>, i: nat): Option<int>
    requires i < |info.inbounds| == |ports|
  {
    if Standalone(chains, info, i) then Some(InboundListener(info, ports, i)) else None
  }

  // ---- Entry listeners ----

  /** chainEntryAWG3Inbound: the first AWG 3.0 inbound that belongs to the entry. */
  function EntryAwg3(ibs: seq<NodeInbound>, r: Role): (o: Option<NodeInbound>)
    ensures o.Some? <==> exists i :: 0 <= i < |ibs| && ibs[i].protocol == "awg" && ibs[i].awg3
                               && ((r.node.inboundRef != "" && ibs[i].profileId == r.node.inboundRef)
                                   || ibs[i].source == "chain:" + r.chain.name)
    ensures o.Some? ==> o.value in ibs
  {
    if ibs == [] then None
    else if ibs[0].protocol == "awg" && ibs[0].awg3
            && ((r.node.inboundRef != "" && ibs[0].profileId == r.node.inboundRef) || ibs[0].source == "chain:" + r.chain.name)
    then Some(ibs[0])
    else
      assert ibs == [ibs[0]] + ibs[1..];
      EntryAwg3(ibs[1..], r)
  }

  /** The port a chain entry binds, by renderer: the kernel conf takes the deployed inbound's port
      (a conf without one leaves the choice to the kernel), the userspace AWG 3.0 endpoint its own
      inbound's, every other protocol the chain's numbered port. */
  function EntryListener(info: NodeInfo, r: Role): Option<int>
    requires r.isEntry
  {
    var numbered := EntryPort(r.chain, r.node.id);
    if r.chain.userProtocol == MtproxyUsers then Some(MtproxyPort(numbered))
    else if r.chain.userProtocol != AwgUsers then Some(numbered)
    else if KernelEntry(info, r) then
      match ByProfile(info.inbounds, r.node.inboundRef)
      case Some(ib) => if ib.port > 0 then Some(ib.port) else None
      case None => Some(numbered)
    else
      var v3 := EntryAwg3(info.inbounds, r);
      Some(if v3.Some? && v3.value.port > 0 then v3.value.port else numbered)
  }

  /** What a caller can check beforehand. A deployed inbound is one with a port that the entry
      references; without one the node's own port must be unset or the chain's numbered one. A
      kernel entry needs no more than a deployed inbound, or no inbound at all; a userspace AWG 3.0
      entry renders its own inbound's port if that has one; every other entry listens on the
      numbered port whatever is deployed. */
  predicate ClaimFits(info: NodeInfo, r: Role)
    requires r.isEntry
  {
    var numbered := EntryPort(r.chain, r.node.id);
    var ib := ByProfile(info.inbounds, r.node.inboundRef);
    var deployed := ib.Some? && ib.value.port > 0;
    var plainNode := r.node.port == 0 || r.node.port == numbered;
    var v3 := EntryAwg3(info.inbounds, r);
    if KernelEntry(info, r) then deployed || (ib.None? && plainNode)
    else if r.chain.userProtocol == AwgUsers && v3.Some? && v3.value.port > 0 then
      if deployed then ib.value.port == v3.value.port
      else v3.value.port == r.node.port || (r.node.port == 0 && v3.value.port == numbered)
    else if deployed then ib.value.port == numbered
    else plainNode
  }

  lemma {:induction false} EntryPortPositive(c: Chain, id: string)
    ensures EntryPort(c, id) > 0
  {
  }

  /** Detection reserves the port an entry really binds exactly when the claim fits. */
  lemma {:induction false} EntryClaimIff(info: NodeInfo, r: Role)
    requires r.isEntry
    ensures EntryListener(info, r) == Some(RoleClaim(info, r)) <==> ClaimFits(info, r)
  {
    EntryPortPositive(r.chain, r.node.id);
    hide EntryPort;
  }

  /** The port of a role that binds one. */
  function Listener(info: NodeInfo, r: Role): Option<int> {
    if r.isEntry then EntryListener(info, r) else if r.isTransit then Some(TransitListener(r)) else None
  }

  predicate Fits(info: NodeInfo, r: Role) {
    r.isEntry ==> ClaimFits(info, r)
  }

  lemma {:induction false} FittingListener(info: NodeInfo, r: Role)
    requires Fits(info, r) && Listener(info, r).Some?
    ensures Listener(info, r) == Some(RoleClaim(info, r))
  {
    if r.isEntry {
      EntryClaimIff(info, r);
    }
  }

  /** With fitting claims detection covers the whole node: no two roles, entries included, and no
      role and standalone inbound bind the same port. */
  lemma {:induction false} EntriesDistinct(info: NodeInfo, chains: seq<Chain>, roles: seq<Role>, ports: seq<int>, i: nat)
    requires |ports| == |info.inbounds| && IsRemap(info.inbounds, ports) && DistinctPorts(Claims(info, chains, roles, ports))
    requires i < |roles| && Fits(info, roles[i]) && Listener(info, roles[i]).Some?
    ensures forall j :: 0 <= j < |info.inbounds| && Standalone(chains, info, j) ==>
              Listener(info, roles[i]) != Some(InboundListener(info, ports, j))
    ensures forall j :: 0 <= j < |roles| && j != i && Fits(info, roles[j]) ==> Listener(info, roles[i]) != Listener(info, roles[j])
    ensures forall j :: 0 <= j < |roles| && j != i && !roles[j].isEntry && roles[j].isTransit ==>
              Listener(info, roles[i]) != Some(if roles[j].node.port == 0 then 443 else roles[j].node.port)
  {
    forall j | 0 <= j < |roles| && !roles[j].isEntry && roles[j].isTransit
      ensures Fits(info, roles[j]) && Listener(info, roles[j]) == Some(if roles[j].node.port == 0 then 443 else roles[j].node.port)
    {
    }
    FittingListener(info, roles[i]);
    hide Listener, Fits, Standalone, InboundListener, IsRemap, InboundClaims, RoleClaim;
    forall j | 0 <= j < |info.inbounds| && Standalone(chains, info, j)
      ensures RoleClaim(info, roles[i]) != InboundListener(info, ports, j)
    {
      RoleAndInbound(info, chains, roles, ports, i, j);
    }
    var claims := Claims(info, chains, roles, ports);
    forall j | 0 <= j < |roles| && j != i && Fits(info, roles[j])
      ensures Listener(info, roles[i]) != Listener(info, roles[j])
    {
      if Listener(info, roles[j]).Some? {
        FittingListener(info, roles[j]);
        assert claims[i].port == RoleClaim(info, roles[i]) && claims[j].port == RoleClaim(info, roles[j]);
        if i < j {
        } else {
        }
      }
    }
  }

  /** Behind caddy, no transit listener, no TCP inbound that is rendered and no entry whose claim
      fits sits on one of caddy's ports. */
  lemma {:induction false} NothingOnCaddy(info: NodeInfo, chains: seq<Chain>, roles: seq<Role>, ports: seq<int>)
    requires |ports| == |info.inbounds| && IsRemap(info.inbounds, ports) && CaddyMode(info) && NoRoleOnCaddy(info, roles)
    ensures forall i :: 0 <= i < |roles| && Fits(info, roles[i]) && Listener(info, roles[i]).Some? ==> !Owned(Listener(info, roles[i]).value)
    ensures forall i :: 0 <= i < |info.inbounds| && Rendered(info, chains, ports, i).Some? && !UdpOnly(info.inbounds[i]) ==>
              !Owned(Rendered(info, chains, ports, i).value)
  {
    forall i | 0 <= i < |roles| && Fits(info, roles[i]) && Listener(info, roles[i]).Some?
      ensures !Owned(Listener(info, roles[i]).value)
    {
      FittingListener(info, roles[i]);
      hide Listener, Fits;
    }
    forall i | 0 <= i < |info.inbounds| && !UdpOnly(info.inbounds[i])
      ensures !Owned(InboundListener(info, ports, i))
    {
      RemapBounds(info.inbounds, ports, i);
    }
  }

  // ---- What detection misses ----

  const NO_KEYS := Keys("", "", "", "", "")
  const NO_OBFS := Obfs(0, "", "", "", "", "", "", "", "", "", "")

  predicate OverUdp(r: Role) {
    r.chain.userProtocol == AwgUsers || r.chain.userProtocol == TuicUsers
  }

  /** A standalone inbound over the transport layer the entry uses. */
  function Rival(r: Role, port: int): NodeInbound {
    NodeInbound(if OverUdp(r) then "mieru" else "naive", port, "", "", "", false, "", "", if OverUdp(r) then "udp" else "", "", "",
                NO_KEYS, NO_OBFS)
  }

  function With(info: NodeInfo, ib: NodeInbound): NodeInfo {
    info.(inbounds := info.inbounds + [ib])
  }

  ghost predicate Passes(info: NodeInfo, chains: seq<Chain>, roles: seq<Role>, ports: seq<int>) {
    |ports| == |info.inbounds| && IsRemap(info.inbounds, ports) && DistinctPorts(Claims(info, chains, roles, ports)) && NoRoleOnCaddy(info, roles)
  }

  /** Caddy itself binds the port: its ports are TCP. */
  predicate CaddyBinds(info: NodeInfo, r: Role, port: int) {
    CaddyMode(info) && !OverUdp(r) && Owned(port)
  }

  /** Nothing else can bind the entry's port unnoticed: not caddy, and detection refuses every
      inbound that would. */
  ghost predicate Guarded(info: NodeInfo, chains: seq<Chain>, roles: seq<Role>, i: nat)
    requires i < |roles| && roles[i].isEntry && EntryListener(info, roles[i]).Some?
  {
    var p := EntryListener(info, roles[i]).value;
    !CaddyBinds(info, roles[i], p) && forall ports :: !Passes(With(info, Rival(roles[i], p)), chains, roles, ports)
  }

  lemma {:induction false} ByProfileWith(ibs: seq<NodeInbound>, ib: NodeInbound, profile: string)
    requires ib.profileId == ""
    ensures ByProfile(ibs + [ib], profile) == ByProfile(ibs, profile)
  {
    if ibs == [] {
      assert ([] + [ib])[1..] == [];
    } else {
      assert (ibs + [ib])[1..] == ibs[1..] + [ib];
      ByProfileWith(ibs[1..], ib, profile);
    }
  }

  lemma {:induction false} ClaimsWith(info: NodeInfo, ib: NodeInbound, chains: seq<Chain>, ports: seq<int>, more: seq<int>, n: nat)
    requires n <= |info.inbounds| == |ports| && |more| == |ports| + 1 && (CaddyMode(info) ==> more[..|ports|] == ports)
    ensures InboundClaims(With(info, ib), chains, more, n) == InboundClaims(info, chains, ports, n)
  {
    if n > 0 {
      ClaimsWith(info, ib, chains, ports, more, n - 1);
      assert With(info, ib).inbounds[n - 1] == info.inbounds[n - 1];
      assert Standalone(chains, With(info, ib), n - 1) == Standalone(chains, info, n - 1);
      assert CaddyMode(info) ==> more[n - 1] == more[..|ports|][n - 1];
      assert CaddyMode(With(info, ib)) == CaddyMode(info);
      assert InboundClaim(With(info, ib), more, n - 1) == InboundClaim(info, ports, n - 1);
      hide Standalone, InboundClaim;
    }
  }

  lemma {:induction false} RivalKeepsPort(r: Role, p: int)
    requires OverUdp(r) || !Owned(p)
    ensures !Moves(Rival(r, p))
  {
    assert Lower("udp") == "udp";
  }

  lemma {:induction false} RoleClaimsWith(info: NodeInfo, ib: NodeInbound, roles: seq<Role>)
    requires ib.profileId == ""
    ensures RoleClaims(With(info, ib), roles) == RoleClaims(info, roles)
    ensures forall i :: 0 <= i < |roles| ==> RoleClaim(With(info, ib), roles[i]) == RoleClaim(info, roles[i])
  {
    forall i | 0 <= i < |roles|
      ensures RoleClaim(With(info, ib), roles[i]) == RoleClaim(info, roles[i])
    {
      ByProfileWith(info.inbounds, ib, roles[i].node.inboundRef);
    }
    hide RoleClaim;
  }

  /** One more inbound adds its own claim and changes no other. */
  lemma {:induction false} ClaimAdded(info: NodeInfo, chains: seq<Chain>, roles: seq<Role>, ports: seq<int>, more: seq<int>, r: Role, p: int)
    requires |info.inbounds| == |ports| && |more| == |ports| + 1 && (CaddyMode(info) ==> more == ports + [p])
    ensures var n := |info.inbounds|; var wide := With(info, Rival(r, p));
            && Standalone(chains, wide, n) && InboundListener(wide, more, n) == p
            && Claims(wide, chains, roles, more) == Claims(info, chains, roles, ports) + [Claim(p, None, Some(n))]
  {
    var n, wide := |info.inbounds|, With(info, Rival(r, p));
    assert wide.inbounds[n] == Rival(r, p);
    assert CaddyMode(wide) == CaddyMode(info);
    ClaimsWith(info, Rival(r, p), chains, ports, more, n);
    RoleClaimsWith(info, Rival(r, p), roles);
    assert InboundClaim(wide, more, n) == p && Standalone(chains, wide, n);
    hide InboundClaim, Standalone, RoleClaims, RoleClaim, Rival, CaddyMode;
    assert InboundClaims(wide, chains, more, n + 1) == InboundClaims(wide, chains, more, n) + [Claim(p, None, Some(n))];
  }

  lemma {:induction false} AvailableWith(ibs: seq<NodeInbound>, ib: NodeInbound, earlier: seq<int>, q: int)
    ensures Available(ibs + [ib], earlier, q) <==> Available(ibs, earlier, q) && q != ib.port
  {
    var wide := ibs + [ib];
    assert wide[|ibs|].port == ib.port;
    if j :| 0 <= j < |ibs| && ibs[j].port == q {
      assert wide[j].port == q;
    }
  }

  /** An inbound that keeps its port, on a port no moved inbound was given, moves nobody. */
  lemma {:induction false} RemapWith(ibs: seq<NodeInbound>, ports: seq<int>, ib: NodeInbound)
    requires |ports| == |ibs| && IsRemap(ibs, ports) && !Moves(ib)
    requires forall j :: 0 <= j < |ibs| && Moves(ibs[j]) ==> ports[j] != ib.port
    ensures IsRemap(ibs + [ib], ports + [ib.port])
  {
    var wide, more := ibs + [ib], ports + [ib.port];
    hide Available, Moves;
    forall i | 0 <= i < |more|
      ensures if Moves(wide[i]) then
                Available(wide, more[..i], more[i]) && forall p :: FIRST_INTERNAL <= p < more[i] ==> !Available(wide, more[..i], p)
              else more[i] == wide[i].port
    {
      if i < |ibs| {
        assert more[..i] == ports[..i] && wide[i] == ibs[i] && more[i] == ports[i];
        forall p
          ensures Available(wide, more[..i], p) <==> Available(ibs, ports[..i], p) && p != ib.port
        {
          AvailableWith(ibs, ib, ports[..i], p);
        }
      }
    }
  }

  ghost predicate Unclaimed(info: NodeInfo, chains: seq<Chain>, roles: seq<Role>, ports: seq<int>, i: nat, p: int)
    requires |info.inbounds| == |ports|
  {
    && (forall k :: 0 <= k < |Claims(info, chains, roles, ports)| && k != i ==> Claims(info, chains, roles, ports)[k].port != p)
    && (CaddyMode(info) ==> forall j :: 0 <= j < |ports| && Moves(info.inbounds[j]) ==> ports[j] != p)
  }

  /** Every assignment of the wider node is the old one behind caddy, and irrelevant otherwise. */
  lemma {:induction false} WideRemap(info: NodeInfo, chains: seq<Chain>, roles: seq<Role>, ports: seq<int>, i: nat, r: Role, p: int, more: seq<int>)
    requires |info.inbounds| == |ports| && IsRemap(info.inbounds, ports) && Unclaimed(info, chains, roles, ports, i, p)
    requires !CaddyBinds(info, r, p) && |more| == |ports| + 1 && IsRemap(With(info, Rival(r, p)).inbounds, more)
    ensures CaddyMode(info) ==> more == ports + [p]
  {
    if CaddyMode(info) {
      RivalKeepsPort(r, p);
      assert Rival(r, p).port == p;
      hide Rival, Moves, IsRemap, Claims;
      RemapWith(info.inbounds, ports, Rival(r, p));
      RemapUnique(With(info, Rival(r, p)).inbounds, more, ports + [p]);
    }
  }

  lemma {:induction false} FitRefuses(info: NodeInfo, chains: seq<Chain>, roles: seq<Role>, ports: seq<int>, i: nat, more: seq<int>)
    requires |info.inbounds| == |ports| && IsRemap(info.inbounds, ports)
    requires i < |roles| && roles[i].isEntry && EntryListener(info, roles[i]) == Some(RoleClaim(info, roles[i]))
    requires Unclaimed(info, chains, roles, ports, i, RoleClaim(info, roles[i])) && !CaddyBinds(info, roles[i], RoleClaim(info, roles[i]))
    ensures !Passes(With(info, Rival(roles[i], RoleClaim(info, roles[i]))), chains, roles, more)
  {
    var p := RoleClaim(info, roles[i]);
    var claims := Claims(info, chains, roles, ports);
    assert claims[i].port == p;
    hide EntryListener, RoleClaim, Claims, CaddyBinds, Unclaimed, Rival;
    var wide := With(info, Rival(roles[i], p));
    if Passes(wide, chains, roles, more) {
      hide IsRemap, CaddyMode;
      WideRemap(info, chains, roles, ports, i, roles[i], p, more);
      ClaimAdded(info, chains, roles, ports, more, roles[i], p);
      BothThere(claims, Claims(wide, chains, roles, more), i);
    }
  }

  lemma {:induction false} BothThere(claims: seq<Claim>, more: seq<Claim>, i: nat)
    requires i < |claims| && |more| == |claims| + 1 && more[..|claims|] == claims && more[|claims|].port == claims[i].port
    ensures !DistinctPorts(more)
  {
    assert more[i] == claims[i];
  }

  lemma {:induction false} MisfitPasses(info: NodeInfo, chains: seq<Chain>, roles: seq<Role>, ports: seq<int>, i: nat, r: Role, p: int)
    requires Passes(info, chains, roles, ports) && i < |roles| && Unclaimed(info, chains, roles, ports, i, p)
    requires RoleClaim(info, roles[i]) != p && !CaddyBinds(info, r, p)
    ensures exists more :: Passes(With(info, Rival(r, p)), chains, roles, more)
  {
    var n, wide := |info.inbounds|, With(info, Rival(r, p));
    assert Claims(info, chains, roles, ports)[i].port == RoleClaim(info, roles[i]);
    var more := RemapExists(wide.inbounds, n + 1);
    WideRemap(info, chains, roles, ports, i, r, p, more);
    ClaimAdded(info, chains, roles, ports, more, r, p);
    RoleClaimsWith(info, Rival(r, p), roles);
    assert CaddyMode(wide) == CaddyMode(info);
    assert NoRoleOnCaddy(wide, roles);
    hide RoleClaim, IsRemap, CaddyMode, CaddyBinds, Claims, NoRoleOnCaddy, Rival;
    assert Passes(wide, chains, roles, more);
  }

  /** On a node that passes detection, where nothing else is claimed or moved to the port an entry
      binds, that port is guarded exactly when the entry's claim fits. */
  lemma {:induction false} GuardedIff(info: NodeInfo, chains: seq<Chain>, roles: seq<Role>, ports: seq<int>, i: nat)
    requires Passes(info, chains, roles, ports)
    requires i < |roles| && roles[i].isEntry && EntryListener(info, roles[i]).Some?
    requires Unclaimed(info, chains, roles, ports, i, EntryListener(info, roles[i]).value)
    ensures Guarded(info, chains, roles, i) <==> ClaimFits(info, roles[i])
  {
    var p := EntryListener(info, roles[i]).value;
    EntryClaimIff(info, roles[i]);
    assert CaddyMode(info) ==> !Owned(RoleClaim(info, roles[i]));
    hide Claims, EntryListener, ClaimFits, RoleClaim, IsRemap, CaddyMode, Unclaimed, Owned, Rival;
    if ClaimFits(info, roles[i]) {
      assert !CaddyBinds(info, roles[i], p);
      forall more
        ensures !Passes(With(info, Rival(roles[i], p)), chains, roles, more)
      {
        FitRefuses(info, chains, roles, ports, i, more);
      }
    } else if !CaddyBinds(info, roles[i], p) {
      MisfitPasses(info, chains, roles, ports, i, roles[i], p);
    }
  }

  /** A TCP entry whose node carries a transport port of its own: detection passes, and
      the entry and a standalone inbound bind the same TCP port. */
  lemma {:induction false} EntryClashMissed(c: Chain, n: ChainNode, ib: NodeInbound)
    requires c.levels == [] && c.nodes == [n] && n.role == Auto && c.userEntryPort == 9000 && n.port == 7000 && n.inboundRef == ""
    requires c.userProtocol == VlessUsers && ib.protocol == "naive" && ib.port == 9000 && ib.source == "" && ib.profileId == ""
    ensures var info := NodeInfo(n.id, [ib], false, [], "", false);
            var roles := Roles([c], n.id);
            && Passes(info, [c], roles, [9000])
            && |roles| == 1 && roles[0].isEntry
            && EntryListener(info, roles[0]) == Some(InboundListener(info, [9000], 0))
  {
    var info := NodeInfo(n.id, [ib], false, [], "", false);
    assert [c][..0] == [] && Roles([], n.id) == [];
    assert FirstIndex(c.nodes, n.id) == Some(0);
    assert Roles([c], n.id) == [FlatRole(c, 0)];
    assert [n][..0] == [] && EntriesAmong([]) == [] && EntriesAmong([n]) == [];
    assert EntryNodes(c) == [n];
    assert InboundClaims(info, [c], [9000], 0) == [];
    var claims := Claims(info, [c], [FlatRole(c, 0)], [9000]);
    assert RoleClaims(info, [FlatRole(c, 0)])[0].port == 7000;
  }

  // ---- SNI routes ----

  predicate SniFronted(ib: NodeInbound) {
    !IsChainSourced(ib) && (ib.protocol == "naive" || ib.protocol == "trusttunnel")
  }

  /** Earlier SNI-fronted inbounds of the same protocol. */
  function Earlier(ibs: seq<NodeInbound>, i: nat, protocol: string): nat
    requires i <= |ibs|
  {
    if i == 0 then 0
    else Earlier(ibs, i - 1, protocol) + if SniFronted(ibs[i - 1]) && ibs[i - 1].protocol == protocol then 1 else 0
  }

  /** sniSubdomain. */
  function Label(protocol: string, n: nat): string {
    if n == 0 then protocol else protocol + "-" + Itoa(n)
  }

  function Host(info: NodeInfo, i: nat): string
    requires i < |info.inbounds|
  {
    Label(info.inbounds[i].protocol, Earlier(info.inbounds, i, info.inbounds[i].protocol)) + "." + Trim(info.tlsDomain)
  }

  datatype SniRoute = SniRoute(host: string, port: int)

  function SniRoutes(info: NodeInfo, ports: seq<int>, n: nat): seq<SniRoute>
    requires n <= |info.inbounds| == |ports|
  {
    if n == 0 then []
    else SniRoutes(info, ports, n - 1) + if SniFronted(info.inbounds[n - 1]) then [SniRoute(Host(info, n - 1), ports[n - 1])] else []
  }

  predicate RealityFronted(ib: NodeInbound) {
    !IsChainSourced(ib) && ib.protocol == "vless-reality"
  }

  /** Where unmatched TLS goes: the port of the first reality inbound that has one, 0 for nowhere. */
  function Passthrough(info: NodeInfo, ports: seq<int>, n: nat): int
    requires n <= |info.inbounds| == |ports|
  {
    if n == 0 then 0
    else if Passthrough(info, ports, n - 1) != 0 then Passthrough(info, ports, n - 1)
    else if RealityFronted(info.inbounds[n - 1]) then ports[n - 1]
    else 0
  }

  datatype CaddyPlan = CaddyPlan(domain: string, passthrough: int, routes: seq<SniRoute>)

  /** BuildCaddyPlan: refused without a TLS domain. */
  method BuildCaddyPlan(info: NodeInfo, ports: seq<int>) returns (plan: Option<CaddyPlan>)
    requires |ports| == |info.inbounds|
    ensures plan == if Trim(info.tlsDomain) == "" then None
                    else Some(CaddyPlan(Trim(info.tlsDomain), Passthrough(info, ports, |ports|), SniRoutes(info, ports, |ports|)))
  {
    hide Trim, Label, IsChainSourced;
    if Trim(info.tlsDomain) == "" {
      return None;
    }
    var routes: seq<SniRoute> := [];
    var passthrough := 0;
    var seen: map<string, nat> := map["naive" := 0, "trusttunnel" := 0];
    for i := 0 to |info.inbounds|
      invariant routes == SniRoutes(info, ports, i) && passthrough == Passthrough(info, ports, i)
      invariant "naive" in seen && seen["naive"] == Earlier(info.inbounds, i, "naive")
      invariant "trusttunnel" in seen && seen["trusttunnel"] == Earlier(info.inbounds, i, "trusttunnel")
    {
      var ib := info.inbounds[i];
      if RealityFronted(ib) {
        if passthrough == 0 {
          passthrough := ports[i];
        }
      } else if SniFronted(ib) {
        var slug := Label(ib.protocol, seen[ib.protocol]);
        seen := seen[ib.protocol := seen[ib.protocol] + 1];
        routes := routes + [SniRoute(slug + "." + Trim(info.tlsDomain), ports[i])];
      }
    }
    plan := Some(CaddyPlan(Trim(info.tlsDomain), passthrough, routes));
  }

  /** CaddyFrontedHosts. */
  method CaddyFrontedHosts(info: NodeInfo) returns (hosts: map<nat, string>)
    ensures hosts.Keys == (if CaddyMode(info) then set i: nat | i < |info.inbounds| && SniFronted(info.inbounds[i]) else {})
    ensures forall i :: i in hosts ==> i < |info.inbounds| && hosts[i] == Host(info, i)
  {
    hide Trim, Label, CaddyMode, IsChainSourced;
    hosts := map[];
    if !CaddyMode(info) {
      return;
    }
    var seen: map<string, nat> := map["naive" := 0, "trusttunnel" := 0];
    for i := 0 to |info.inbounds|
      invariant hosts.Keys == set j: nat | j < i && SniFronted(info.inbounds[j])
      invariant forall j :: j in hosts ==> j < |info.inbounds| && hosts[j] == Host(info, j)
      invariant "naive" in seen && seen["naive"] == Earlier(info.inbounds, i, "naive")
      invariant "trusttunnel" in seen && seen["trusttunnel"] == Earlier(info.inbounds, i, "trusttunnel")
    {
      var ib := info.inbounds[i];
      if SniFronted(ib) {
        var slug := Label(ib.protocol, seen[ib.protocol]);
        seen := seen[ib.protocol := seen[ib.protocol] + 1];
        hosts := hosts[i := slug + "." + Trim(info.tlsDomain)];
      }
    }
  }

  lemma {:induction false} EarlierGrows(ibs: seq<NodeInbound>, i: nat, j: nat, p: string)
    requires i < j <= |ibs| && SniFronted(ibs[i]) && ibs[i].protocol == p
    ensures Earlier(ibs, i, p) < Earlier(ibs, j, p)
    decreases j
  {
    if i + 1 < j {
      EarlierGrows(ibs, i, j - 1, p);
    }
  }

  lemma {:induction false} LabelsDiffer(p: string, m: nat, q: string, n: nat)
    requires p in {"naive", "trusttunnel"} && q in {"naive", "trusttunnel"} && (p != q || m != n)
    ensures Label(p, m) != Label(q, n)
  {
    if p == q {
      if m > 0 && n > 0 {
        assert (p + "-" + Itoa(m))[|p| + 1..] == Itoa(m) && (p + "-" + Itoa(n))[|p| + 1..] == Itoa(n);
        if Itoa(m) == Itoa(n) {
          ItoaInjective(m, n);
        }
      }
    } else {
      assert Label(p, m)[0] == p[0] && Label(q, n)[0] == q[0];
    }
  }

  lemma {:induction false} SameSuffix(a: string, b: string, s: string)
    requires a + s == b + s
    ensures a == b
  {
    assert |a| == |b|;
    assert (a + s)[..|a|] == a && (b + s)[..|b|] == b;
  }

  /** Two fronted inbounds never share an SNI host. */
  lemma {:induction false} HostsDistinct(info: NodeInfo, i: nat, j: nat)
    requires i < j < |info.inbounds| && SniFronted(info.inbounds[i]) && SniFronted(info.inbounds[j])
    ensures Host(info, i) != Host(info, j)
  {
    var p, q := info.inbounds[i].protocol, info.inbounds[j].protocol;
    var m, n := Earlier(info.inbounds, i, p), Earlier(info.inbounds, j, q);
    if p == q {
      EarlierGrows(info.inbounds, i, j, p);
    }
    LabelsDiffer(p, m, q, n);
    ConcatAssoc(Label(p, m), ".", Trim(info.tlsDomain));
    ConcatAssoc(Label(q, n), ".", Trim(info.tlsDomain));
    if Host(info, i) == Host(info, j) {
      SameSuffix(Label(p, m), Label(q, n), "." + Trim(info.tlsDomain));
    }
  }

  /** Every SNI route carries the port its inbound was assigned, under the host clients are told,
      and every fronted inbound has its route. */
  lemma {:induction false} RoutesOfInbounds(info: NodeInfo, ports: seq<int>, n: nat)
    requires n <= |info.inbounds| == |ports|
    ensures forall r :: r in SniRoutes(info, ports, n) ==>
              exists i :: 0 <= i < n && SniFronted(info.inbounds[i]) && r == SniRoute(Host(info, i), ports[i])
    ensures forall i :: 0 <= i < n && SniFronted(info.inbounds[i]) ==> SniRoute(Host(info, i), ports[i]) in SniRoutes(info, ports, n)
  {
    hide Host, SniFronted;
    if n > 0 {
      RoutesOfInbounds(info, ports, n - 1);
    }
  }

  /** A fronted inbound listens behind its route exactly when no level-0 node references its
      profile; the route is there in either case. */
  lemma {:induction false} FrontedListens(info: NodeInfo, chains: seq<Chain>, ports: seq<int>, i: nat)
    requires i < |info.inbounds| == |ports| && IsRemap(info.inbounds, ports) && CaddyMode(info)
    requires SniFronted(info.inbounds[i]) || RealityFronted(info.inbounds[i])
    ensures Rendered(info, chains, ports, i) == Some(ports[i]) <==> !IsChainEntry(chains, info.id, info.inbounds[i])
  {
    hide IsChainEntry;
  }

  /** The route leads to the listener of the inbound its host stands for. */
  ghost predicate Served(info: NodeInfo, chains: seq<Chain>, ports: seq<int>, r: SniRoute)
    requires |info.inbounds| == |ports|
  {
    exists i :: 0 <= i < |ports| && SniFronted(info.inbounds[i]) && r.host == Host(info, i) && Rendered(info, chains, ports, i) == Some(r.port)
  }

  /** Every SNI route reaches its inbound exactly when no fronted inbound is some chain's entry by
      reference. */
  lemma {:induction false} RoutesReachIff(info: NodeInfo, chains: seq<Chain>, ports: seq<int>)
    requires |info.inbounds| == |ports| && IsRemap(info.inbounds, ports) && CaddyMode(info)
    ensures (forall r :: r in SniRoutes(info, ports, |ports|) ==> Served(info, chains, ports, r)) <==>
            (forall i :: 0 <= i < |ports| && SniFronted(info.inbounds[i]) ==> !IsChainEntry(chains, info.id, info.inbounds[i]))
  {
    RoutesOfInbounds(info, ports, |ports|);
    forall i | 0 <= i < |ports| && SniFronted(info.inbounds[i])
      ensures Served(info, chains, ports, SniRoute(Host(info, i), ports[i])) <==> !IsChainEntry(chains, info.id, info.inbounds[i])
    {
      RouteServed(info, chains, ports, i);
    }
    hide Host, SniFronted, Served, IsChainEntry, IsRemap, CaddyMode, SniRoutes;
  }

  lemma {:induction false} RouteServed(info: NodeInfo, chains: seq<Chain>, ports: seq<int>, i: nat)
    requires |info.inbounds| == |ports| && IsRemap(info.inbounds, ports) && CaddyMode(info)
    requires i < |ports| && SniFronted(info.inbounds[i])
    ensures Served(info, chains, ports, SniRoute(Host(info, i), ports[i])) <==> !IsChainEntry(chains, info.id, info.inbounds[i])
  {
    hide Rendered, IsChainEntry, IsRemap, CaddyMode, Host, SniFronted, RealityFronted;
    FrontedListens(info, chains, ports, i);
    var r := SniRoute(Host(info, i), ports[i]);
    if Served(info, chains, ports, r) {
      var j :| 0 <= j < |ports| && SniFronted(info.inbounds[j]) && r.host == Host(info, j) && Rendered(info, chains, ports, j) == Some(r.port);
      HostOwner(info, i, j);
    }
  }

  lemma {:induction false} HostOwner(info: NodeInfo, i: nat, j: nat)
    requires i < |info.inbounds| && j < |info.inbounds| && SniFronted(info.inbounds[i]) && SniFronted(info.inbounds[j])
    requires Host(info, i) == Host(info, j)
    ensures i == j
  {
    hide Host, SniFronted;
    if i < j {
      HostsDistinct(info, i, j);
    } else if j < i {
      HostsDistinct(info, j, i);
    }
  }

  /** The first reality inbound with a port. */
  function FirstReality(info: NodeInfo, ports: seq<int>, n: nat): (r: Option<nat>)
    requires n <= |info.inbounds| == |ports|
    ensures r.Some? ==> r.value < n && RealityFronted(info.inbounds[r.value]) && ports[r.value] != 0
    ensures forall j :: 0 <= j < (if r.Some? then r.value else n) ==> !(RealityFronted(info.inbounds[j]) && ports[j] != 0)
  {
    if n == 0 then None
    else if FirstReality(info, ports, n - 1).Some? then FirstReality(info, ports, n - 1)
    else if RealityFronted(info.inbounds[n - 1]) && ports[n - 1] != 0 then Some(n - 1)
    else None
  }

  /** Unmatched TLS goes to the port of the first reality inbound that has one, nowhere without
      such an inbound, and finds it listening exactly when no level-0 node references it. */
  lemma {:induction false} PassthroughReachesIff(info: NodeInfo, chains: seq<Chain>, ports: seq<int>, n: nat)
    requires n <= |info.inbounds| == |ports| && IsRemap(info.inbounds, ports) && CaddyMode(info)
    ensures match FirstReality(info, ports, n)
            case None => Passthrough(info, ports, n) == 0
            case Some(i) =>
              && Passthrough(info, ports, n) == ports[i]
              && (Rendered(info, chains, ports, i) == Some(Passthrough(info, ports, n)) <==> !IsChainEntry(chains, info.id, info.inbounds[i]))
  {
    PassthroughFirst(info, ports, n);
    if FirstReality(info, ports, n).Some? {
      FrontedListens(info, chains, ports, FirstReality(info, ports, n).value);
    }
    hide Rendered, IsChainEntry, Passthrough;
  }

  lemma {:induction false} PassthroughFirst(info: NodeInfo, ports: seq<int>, n: nat)
    requires n <= |info.inbounds| == |ports|
    ensures Passthrough(info, ports, n) == if FirstReality(info, ports, n).Some? then ports[FirstReality(info, ports, n).value] else 0
  {
    hide RealityFronted;
    if n > 0 {
      PassthroughFirst(info, ports, n - 1);
    }
  }

  /** A reality inbound that is a VLESS chain's entry by reference, before another one: detection
      passes, unmatched TLS is sent to a port nobody binds while the second inbound listens
      elsewhere, and the entry itself sits on one of caddy's ports. */
  lemma {:induction false} ReferencedRealityMissed(c: Chain, n: ChainNode, a: NodeInbound, b: NodeInbound)
    requires n.id == "n1" && n.inboundRef == "p1" && n.port == 0
    requires c.nodes == [n] && c.levels == [Level([n], Unset)] && c.userProtocol == VlessUsers && c.userEntryPort == 0
    requires a.protocol == "vless-reality" && a.port == 9443 && a.source == "standalone" && a.profileId == "p1"
    requires b.protocol == "vless-reality" && b.port == 9444 && b.source == "standalone" && b.profileId == "p2"
    ensures var info, ports := NodeInfo("n1", [a, b], false, [], "example.com", true), [9443, 9444];
            var roles := Roles([c], "n1");
            && CaddyMode(info) && Passes(info, [c], roles, ports)
            && Passthrough(info, ports, 2) == 9443
            && Rendered(info, [c], ports, 0) == None && Rendered(info, [c], ports, 1) == Some(9444)
            && |roles| == 1 && Listener(info, roles[0]) == Some(8443) && Owned(8443) && !Fits(info, roles[0])
  {
    var info, ports := NodeInfo("n1", [a, b], false, [], "example.com", true), [9443, 9444];
    var r := ReferencingRole(c, n);
    ReferencingClaims(info, c, n, r, a, b);
    ReferencedInbounds(info, c, n, a, b);
    assert Passthrough(info, ports, 0) == 0 && Passthrough(info, ports, 1) == 9443;
    hide Passes, EntryListener, Rendered, ClaimFits;
  }

  lemma {:induction false} ReferencingRole(c: Chain, n: ChainNode) returns (r: Role)
    requires n.id == "n1" && c.levels == [Level([n], Unset)]
    ensures r == LevelRole(c, 0, 0, 0) && r.isEntry && r.node == n && Roles([c], "n1") == [r]
    ensures EntryNodes(c) == [n] && FirstIndex([n], "n1") == Some(0)
  {
    r := LevelRole(c, 0, 0, 0);
    assert FirstIndex([n], "n1") == Some(0);
    assert [c][..0] == [] && Roles([], "n1") == [];
    assert RoleIn(c, "n1") == Some(r);
  }

  lemma {:induction false} ReferencedInbounds(info: NodeInfo, c: Chain, n: ChainNode, a: NodeInbound, b: NodeInbound)
    requires info == NodeInfo("n1", [a, b], false, [], "example.com", true) && n.id == "n1" && n.inboundRef == "p1"
    requires c.levels == [Level([n], Unset)] && a.profileId == "p1" && b.profileId == "p2" && a.source == b.source == "standalone"
    ensures !Standalone([c], info, 0) && Standalone([c], info, 1)
  {
    assert c.levels[0].nodes[0] == n && EntersBy(n, "n1", a) && !EntersBy(n, "n1", b);
    assert [c][0].levels[0].nodes[0] == n;
    assert "standalone"[0] == 's';
  }

  lemma {:induction false} ReferencingClaims(info: NodeInfo, c: Chain, n: ChainNode, r: Role, a: NodeInbound, b: NodeInbound)
    requires info == NodeInfo("n1", [a, b], false, [], "example.com", true) && n.id == "n1" && n.inboundRef == "p1" && n.port == 0
    requires c.nodes == [n] && c.levels == [Level([n], Unset)] && c.userProtocol == VlessUsers && c.userEntryPort == 0
    requires r == LevelRole(c, 0, 0, 0) && EntryNodes(c) == [n] && FirstIndex([n], "n1") == Some(0)
    requires a.protocol == "vless-reality" && a.port == 9443 && a.source == "standalone" && a.profileId == "p1"
    requires b.protocol == "vless-reality" && b.port == 9444 && b.source == "standalone" && b.profileId == "p2"
    ensures CaddyMode(info) && Passes(info, [c], [r], [9443, 9444]) && EntryListener(info, r) == Some(8443) && !ClaimFits(info, r)
  {
    assert Trim("example.com") != "";
    ReferencedInbounds(info, c, n, a, b);
    assert ByProfile(info.inbounds, "p1") == Some(a);
    assert EntryPort(c, "n1") == 8443 && RoleClaim(info, r) == 9443;
    assert InboundClaims(info, [c], [9443, 9444], 0) == [] && InboundClaims(info, [c], [9443, 9444], 1) == [];
    assert InboundClaims(info, [c], [9443, 9444], 2) == [Claim(9444, None, Some(1))];
    assert RoleClaims(info, [r]) == [Claim(9443, Some(0), None)];
    hide RoleClaim, InboundClaims, RoleClaims, CaddyMode, Standalone, EntryPort;
  }
}
