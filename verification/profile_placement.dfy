/** Placing an inbound profile on nodes by difference (profile_deploy.go, store.go). */
module ProfilePlacement {
  import opened Text
  import opened Topology

  datatype Profile = Profile(id: string, protocol: string, port: int, obfuscation: string, mieruTransport: string, serverName: string)

  type Nodes = map<string, seq<NodeInbound>>

  function Lookup(m: Nodes, id: string): Option<seq<NodeInbound>> {
    if id in m then Some(m[id]) else None
  }

  function InboundsOf(m: Nodes, id: string): seq<NodeInbound> {
    if id in m then m[id] else []
  }

  predicate Carries(ibs: seq<NodeInbound>, profile: string) {
    exists i :: 0 <= i < |ibs| && ibs[i].profileId == profile
  }

  /** The inbounds of other profiles, in order. */
  function Without(ibs: seq<NodeInbound>, profile: string): seq<NodeInbound> {
    if ibs == [] then []
    else Without(ibs[..|ibs| - 1], profile)
         + if ibs[|ibs| - 1].profileId == profile then [] else [ibs[|ibs| - 1]]
  }

  /** chainReferencingProfileOn finds a chain. */
  predicate Referenced(chains: seq<Chain>, profile: string, node: string) {
    exists c :: c in chains && exists n :: n in AllNodes(c) && n.id == node && n.inboundRef == profile
  }

  function EffectivePort(ib: NodeInbound): int {
    if ib.protocol == "mtproxy" && ib.port == 0 then 443 else ib.port
  }

  /** inboundPortConflict. */
  predicate Conflicts(ibs: seq<NodeInbound>, profile: Profile) {
    profile.port > 0 && exists i :: 0 <= i < |ibs| && ibs[i].profileId != profile.id && EffectivePort(ibs[i]) == profile.port
  }

  /** An inbound of another profile listens on the profile's port: configured there, or an MTProxy
      inbound without a port, which listens on 443. */
  lemma {:induction false} ConflictsIff(ibs: seq<NodeInbound>, p: Profile)
    ensures Conflicts(ibs, p) <==>
              && p.port > 0
              && exists ib :: ib in ibs && ib.profileId != p.id && (ib.port == p.port || (ib.protocol == "mtproxy" && ib.port == 0 && p.port == 443))
  {
    if ib :| ib in ibs && ib.profileId != p.id && (ib.port == p.port || (ib.protocol == "mtproxy" && ib.port == 0 && p.port == 443)) {
      var i :| 0 <= i < |ibs| && ibs[i] == ib;
      assert p.port > 0 ==> EffectivePort(ibs[i]) == p.port;
    }
  }

  // ---- Kept nodes ----

  /** What the profile says about an inbound it owns; `material` is its obfuscation material. */
  function SyncedInbound(ib: NodeInbound, p: Profile, material: Obfs): NodeInbound {
    if ib.profileId != p.id then ib
    else
      ib.(port := p.port, obfuscation := p.obfuscation, mieruTransport := p.mieruTransport, serverName := p.serverName,
          obfs := if ib.protocol == "awg" then material else ib.obfs)
  }

  /** The change the deploy looks for: a parameter, or the first packet and header together. */
  predicate Differs(a: NodeInbound, b: NodeInbound) {
    || a.port != b.port || a.obfuscation != b.obfuscation || a.mieruTransport != b.mieruTransport || a.serverName != b.serverName
    || (a.protocol == "awg" && a.obfs.i1 + a.obfs.h1 != b.obfs.i1 + b.obfs.h1)
  }

  function SyncedAll(ibs: seq<NodeInbound>, p: Profile, material: Obfs): seq<NodeInbound> {
    seq(|ibs|, i requires 0 <= i < |ibs| => SyncedInbound(ibs[i], p, material))
  }

  predicate AnyDiffers(ibs: seq<NodeInbound>, p: Profile, material: Obfs) {
    exists i :: 0 <= i < |ibs| && Differs(ibs[i], SyncedInbound(ibs[i], p, material))
  }

  function KeptInbounds(ibs: seq<NodeInbound>, p: Profile, material: Obfs): seq<NodeInbound> {
    if AnyDiffers(ibs, p, material) then SyncedAll(ibs, p, material) else ibs
  }

  // ---- The store ----

  datatype Result = Result(added: seq<string>, removed: seq<string>, updated: seq<string>, blocked: seq<string>)

  class Store {
    var nodes: Nodes
    const hosts: set<string>
    const chains: seq<Chain>

    constructor (nodes: Nodes, hosts: set<string>, chains: seq<Chain>)
      ensures this.nodes == nodes && this.hosts == hosts && this.chains == chains
    {
      this.nodes, this.hosts, this.chains := nodes, hosts, chains;
    }

    method SaveNodeInfo(id: string, ibs: seq<NodeInbound>) returns (ok: bool)
      modifies this`nodes
      ensures nodes == if ok then old(nodes)[id := ibs] else old(nodes)
    {
      ok := *;
      if ok {
        nodes := nodes[id := ibs];
      }
    }

    /** ProfileNodes: every node that carries the profile, once. */
    method ProfileNodes(profile: string) returns (out: seq<string>)
      ensures forall x :: x in out <==> x in nodes && Carries(nodes[x], profile)
      ensures forall i, j :: 0 <= i < j < |out| ==> out[i] != out[j]
    {
      out := [];
      var left := nodes.Keys;
      while left != {}
        invariant left <= nodes.Keys
        invariant forall x :: x in out <==> x in nodes && x !in left && Carries(nodes[x], profile)
        invariant forall i, j :: 0 <= i < j < |out| ==> out[i] != out[j]
        decreases left
      {
        var x :| x in left;
        left := left - {x};
        if Carries(nodes[x], profile) {
          out := out + [x];
        }
      }
    }

    /** The pre-flight pass: every node to add, with the inbounds it has now. */
    method Preflight(p: Profile, current: set<string>, desired: seq<string>) returns (targets: Nodes, ok: bool)
      ensures ok ==> forall i :: 0 <= i < |desired| && desired[i] !in current ==>
                && desired[i] in targets && targets[desired[i]] == InboundsOf(nodes, desired[i])
                && !Unplaceable(nodes, hosts, p, desired[i])
      ensures !ok ==> exists i :: 0 <= i < |desired| && desired[i] !in current && Unplaceable(nodes, hosts, p, desired[i])
    {
      targets := map[];
      for n := 0 to |desired|
        invariant forall i :: 0 <= i < n && desired[i] !in current ==>
          && desired[i] in targets && targets[desired[i]] == InboundsOf(nodes, desired[i])
          && !Unplaceable(nodes, hosts, p, desired[i])
      {
        var id := desired[n];
        if id in current {
          continue;
        }
        if id !in nodes && id !in hosts {
          return targets, false;
        }
        var ibs := InboundsOf(nodes, id);
        if Conflicts(ibs, p) {
          return targets, false;
        }
        targets := targets[id := ibs];
      }
      ok := true;
    }

    /** The removal pass. */
    method RemoveUndesired(p: Profile, current: seq<string>, desired: set<string>) returns (removed: seq<string>, blocked: seq<string>, ok: bool)
      requires forall i :: 0 <= i < |current| ==> current[i] in nodes && Carries(nodes[current[i]], p.id)
      requires forall i, j :: 0 <= i < j < |current| ==> current[i] != current[j]
      modifies this`nodes
      ensures ok ==> forall x :: Lookup(nodes, x) == AfterRemoval(old(nodes), x, Members(current), desired, chains, p)
      ensures ok ==> forall x :: x in blocked <==> x in current && x !in desired && Referenced(chains, p.id, x)
      ensures ok ==> forall x :: x in removed <==> x in current && x !in desired && !Referenced(chains, p.id, x)
      ensures forall x :: x !in current ==> Lookup(nodes, x) == Lookup(old(nodes), x)
    {
      removed, blocked, ok := [], [], true;
      assert current[..0] == [];
      for n := 0 to |current|
        invariant ok
        invariant forall x :: Lookup(nodes, x) == AfterRemoval(old(nodes), x, Members(current[..n]), desired, chains, p)
        invariant forall x :: x in blocked <==> x in current[..n] && x !in desired && Referenced(chains, p.id, x)
        invariant forall x :: x in removed <==> x in current[..n] && x !in desired && !Referenced(chains, p.id, x)
      {
        hide Referenced, Carries, Without;
        var id := current[n];
        assert current[..n + 1] == current[..n] + [id];
        MembersSnoc(current[..n], id);
        if id in desired {
          continue;
        }
        if Referenced(chains, p.id, id) {
          blocked := blocked + [id];
          continue;
        }
        assert Lookup(nodes, id) == Lookup(old(nodes), id);
        ghost var before := nodes;
        ok := SaveNodeInfo(id, Without(nodes[id], p.id));
        if !ok {
          return;
        }
        removed := removed + [id];
        forall x
          ensures Lookup(nodes, x) == AfterRemoval(old(nodes), x, Members(current[..n + 1]), desired, chains, p)
        {
          assert Lookup(before, x) == AfterRemoval(old(nodes), x, Members(current[..n]), desired, chains, p);
        }
      }
      assert current[..|current|] == current;
    }

    /** The update pass; `material` is what the profile's material comes to on each node. */
    method UpdateKept(p: Profile, current: seq<string>, desired: set<string>, material: map<string, Obfs>) returns (updated: seq<string>, ok: bool)
      requires forall i :: 0 <= i < |current| ==> current[i] in material && (current[i] in desired ==> current[i] in nodes)
      requires forall i, j :: 0 <= i < j < |current| ==> current[i] != current[j]
      modifies this`nodes
      ensures ok ==> forall x :: Lookup(nodes, x) == AfterUpdate(old(nodes), x, Members(current), desired, p, material)
      ensures ok ==> forall x :: x in updated <==>
                x in current && x in desired && x in old(nodes) && x in material && AnyDiffers(old(nodes)[x], p, material[x])
      ensures forall x :: x !in current ==> Lookup(nodes, x) == Lookup(old(nodes), x)
    {
      updated, ok := [], true;
      assert current[..0] == [];
      for n := 0 to |current|
        invariant ok
        invariant forall x :: Lookup(nodes, x) == AfterUpdate(old(nodes), x, Members(current[..n]), desired, p, material)
        invariant forall x :: x in updated <==>
          x in current[..n] && x in desired && x in old(nodes) && x in material && AnyDiffers(old(nodes)[x], p, material[x])
      {
        hide AnyDiffers, SyncedAll;
        var id := current[n];
        assert current[..n + 1] == current[..n] + [id];
        MembersSnoc(current[..n], id);
        if id !in desired {
          continue;
        }
        assert Lookup(nodes, id) == Lookup(old(nodes), id);
        if AnyDiffers(nodes[id], p, material[id]) {
          ghost var before := nodes;
          ok := SaveNodeInfo(id, SyncedAll(nodes[id], p, material[id]));
          if !ok {
            return;
          }
          updated := updated + [id];
          forall x
            ensures Lookup(nodes, x) == AfterUpdate(old(nodes), x, Members(current[..n + 1]), desired, p, material)
          {
            assert Lookup(before, x) == AfterUpdate(old(nodes), x, Members(current[..n]), desired, p, material);
          }
        }
      }
      assert current[..|current|] == current;
    }

    /** buildProfileInbound: fresh credentials, or a failure to generate them. */
    method BuildInbound(p: Profile) returns (ib: NodeInbound, ok: bool)
      ensures ok ==> FreshOf(ib, p)
    {
      var keys: Keys := *;
      var obfs: Obfs := *;
      var address: string := *;
      ok := *;
      ib := NodeInbound(p.protocol, p.port, p.id, "standalone", p.id, false, address, "", "", p.obfuscation, p.serverName, keys, obfs);
      if p.protocol !in PROTOCOLS {
        ok := false;
      }
      if p.protocol == "mieru" {
        ib := ib.(mieruTransport := p.mieruTransport);
        if ib.mieruTransport == "" {
          ib := ib.(mieruTransport := "TCP");
        }
      }
    }

    /** The addition pass. A node listed twice is the same record twice, so it gets two inbounds. */
    method AddMissing(p: Profile, current: set<string>, desired: seq<string>, targets: Nodes) returns (added: seq<string>, ok: bool)
      requires forall i :: 0 <= i < |desired| && desired[i] !in current ==>
                 desired[i] in targets && targets[desired[i]] == InboundsOf(nodes, desired[i])
      modifies this`nodes
      ensures ok ==> forall x :: if x in desired && x !in current then AddedOn(old(nodes), nodes, x, p, multiset(desired)[x])
                                 else Lookup(nodes, x) == Lookup(old(nodes), x)
      ensures ok ==> forall x :: x in added <==> x in desired && x !in current
    {
      added, ok := [], true;
      var records := targets;
      hide AddedOn, AllOf;
      for n := 0 to |desired|
        invariant ok && forall x :: x in targets ==> x in records
        invariant forall x :: Progress(old(nodes), nodes, targets, records, p, current, desired[..n], x)
        invariant forall x :: x in added <==> x in desired[..n] && x !in current
      {
        var id := desired[n];
        assert desired[..n + 1] == desired[..n] + [id];
        if id in current {
          ProgressSkips(old(nodes), nodes, targets, records, p, current, desired[..n], id);
          continue;
        }
        var ib;
        ib, ok := BuildInbound(p);
        if !ok {
          return;
        }
        ghost var before, known := nodes, records;
        records := records[id := records[id] + [ib]];
        ok := SaveNodeInfo(id, records[id]);
        if !ok {
          return;
        }
        added := added + [id];
        ProgressAdds(old(nodes), before, targets, known, p, current, desired[..n], id, ib, nodes, records);
      }
      assert desired[..|desired|] == desired;
      forall x
        ensures if x in desired && x !in current then AddedOn(old(nodes), nodes, x, p, multiset(desired)[x])
                else Lookup(nodes, x) == Lookup(old(nodes), x)
      {
        assert Progress(old(nodes), nodes, targets, records, p, current, desired[..|desired|], x);
      }
    }

    /** ApplyProfileToNodes. */
    method ApplyProfileToNodes(p: Profile, desired: seq<string>, material: map<string, Obfs>) returns (res: Result, ok: bool, preflight: bool)
      requires nodes.Keys <= material.Keys
      modifies this`nodes
      ensures !preflight ==> !ok && nodes == old(nodes)
      ensures !preflight <==> exists i :: 0 <= i < |desired| && Refuses(old(nodes), hosts, p, desired[i])
      ensures ok ==> Placed(old(nodes), nodes, p, desired, chains, material)
      ensures ok ==> forall x :: x in res.blocked <==> Blocked(old(nodes), p, Members(desired), chains, x)
      ensures ok ==> forall x :: x in res.added <==> x in desired && !CarriedOn(old(nodes), p.id, x)
      ensures ok ==> forall x :: x in res.removed <==> CarriedOn(old(nodes), p.id, x) && x !in desired && !Blocked(old(nodes), p, Members(desired), chains, x)
      ensures ok ==> forall x :: x in res.updated <==> x in desired && OutdatedOn(old(nodes), p, material, x)
    {
      hide Referenced, Carries, AnyDiffers, Unplaceable;
      ghost var was := nodes;
      res := Result([], [], [], []);
      var current := ProfileNodes(p.id);
      var carried := Members(current);
      assert forall x :: x in carried <==> CarriedOn(was, p.id, x);
      var targets;
      targets, preflight := Preflight(p, carried, desired);
      if !preflight {
        ok := false;
        return;
      }
      var removed, blocked, updated, added;
      removed, blocked, ok := RemoveUndesired(p, current, Members(desired));
      if !ok {
        return;
      }
      ghost var mid := nodes;
      assert forall x :: x in current && x in desired ==> x in nodes by {
        forall x | x in current && x in desired
          ensures x in nodes
        {
          assert Lookup(nodes, x) == Lookup(was, x);
        }
      }
      updated, ok := UpdateKept(p, current, Members(desired), material);
      if !ok {
        return;
      }
      ghost var late := nodes;
      MiddlePasses(was, mid, late, p, carried, Members(desired), chains, material);
      forall x
        ensures x in updated <==> x in desired && OutdatedOn(was, p, material, x)
      {
        assert Lookup(mid, x) == AfterRemoval(was, x, carried, Members(desired), chains, p);
        UpdatedWhenOutdated(was, p, material, carried, x);
      }
      added, ok := AddMissing(p, carried, desired, targets);
      if ok {
        PlacedByPasses(was, late, nodes, p, carried, desired, chains, material);
      }
      res := Result(added, removed, updated, blocked);
    }
  }

  // ---- What the passes come to ----

  function Members(s: seq<string>): set<string> {
    set x | x in s
  }

  lemma {:induction false} MembersSnoc(s: seq<string>, x: string)
    ensures Members(s + [x]) == Members(s) + {x}
  {
  }

  predicate CarriedOn(nodes: Nodes, profile: string, x: string) {
    x in nodes && Carries(nodes[x], profile)
  }

  predicate Unplaceable(nodes: Nodes, hosts: set<string>, p: Profile, x: string) {
    (x !in nodes && x !in hosts) || Conflicts(InboundsOf(nodes, x), p)
  }

  predicate Refuses(nodes: Nodes, hosts: set<string>, p: Profile, x: string) {
    !CarriedOn(nodes, p.id, x) && Unplaceable(nodes, hosts, p, x)
  }

  ghost function AfterRemoval(nodes: Nodes, x: string, current: set<string>, desired: set<string>, chains: seq<Chain>, p: Profile): Option<seq<NodeInbound>> {
    if x in current && x !in desired && !Referenced(chains, p.id, x) && x in nodes then Some(Without(nodes[x], p.id))
    else Lookup(nodes, x)
  }

  function AfterUpdate(nodes: Nodes, x: string, current: set<string>, desired: set<string>, p: Profile, material: map<string, Obfs>): Option<seq<NodeInbound>> {
    if x in current && x in desired && x in nodes && x in material then Some(KeptInbounds(nodes[x], p, material[x])) else Lookup(nodes, x)
  }

  const PROTOCOLS := {"awg", "vless-reality", "naive", "trusttunnel", "mieru", "mtproxy", "tuic"}

  /** A new inbound of the profile. Only mieru looks at the transport, and it defaults to TCP. */
  predicate FreshOf(ib: NodeInbound, p: Profile) {
    && ib.profileId == p.id && ib.tag == p.id && ib.protocol == p.protocol && ib.protocol in PROTOCOLS && ib.source == "standalone"
    && ib.port == p.port && ib.obfuscation == p.obfuscation && ib.serverName == p.serverName
    && ib.mieruTransport == if p.protocol != "mieru" then "" else if p.mieruTransport == "" then "TCP" else p.mieruTransport
  }

  predicate AllOf(ibs: seq<NodeInbound>, p: Profile) {
    forall i :: 0 <= i < |ibs| ==> FreshOf(ibs[i], p)
  }

  /** The node has k fresh inbounds of the profile behind what it had. */
  ghost predicate AddedOn(before: Nodes, after: Nodes, x: string, p: Profile, k: nat) {
    && x in after && |after[x]| == |InboundsOf(before, x)| + k
    && after[x][..|InboundsOf(before, x)|] == InboundsOf(before, x) && AllOf(after[x][|InboundsOf(before, x)|..], p)
  }

  lemma {:induction false} AddedFirst(before: Nodes, after: Nodes, x: string, p: Profile, ib: NodeInbound)
    requires x in after && after[x] == InboundsOf(before, x) + [ib] && FreshOf(ib, p)
    ensures AddedOn(before, after, x, p, 1)
  {
  }

  lemma {:induction false} AddedMore(before: Nodes, mid: Nodes, after: Nodes, x: string, p: Profile, k: nat, ib: NodeInbound)
    requires AddedOn(before, mid, x, p, k) && x in after && after[x] == mid[x] + [ib] && FreshOf(ib, p)
    ensures AddedOn(before, after, x, p, k + 1)
  {
    var n := |InboundsOf(before, x)|;
    assert after[x][..n] == mid[x][..n];
    assert after[x][n..] == mid[x][n..] + [ib];
  }

  lemma {:induction false} AddedKept(before: Nodes, mid: Nodes, after: Nodes, x: string, p: Profile, k: nat)
    requires AddedOn(before, mid, x, p, k) && Lookup(after, x) == Lookup(mid, x)
    ensures AddedOn(before, after, x, p, k)
  {
  }

  /** What the addition pass has done about node x after the listed IDs. */
  ghost predicate Progress(first: Nodes, now: Nodes, targets: Nodes, records: Nodes, p: Profile, current: set<string>, done: seq<string>, x: string) {
    if x in done && x !in current then AddedOn(first, now, x, p, multiset(done)[x]) && x in records && x in now && records[x] == now[x]
    else Lookup(now, x) == Lookup(first, x) && Lookup(records, x) == Lookup(targets, x)
  }

  lemma {:induction false} ProgressSkips(first: Nodes, now: Nodes, targets: Nodes, records: Nodes, p: Profile, current: set<string>, done: seq<string>, id: string)
    requires id in current && forall x :: Progress(first, now, targets, records, p, current, done, x)
    ensures forall x :: Progress(first, now, targets, records, p, current, done + [id], x)
  {
    hide AddedOn;
    forall x
      ensures Progress(first, now, targets, records, p, current, done + [id], x)
    {
      assert Progress(first, now, targets, records, p, current, done, x);
    }
  }

  lemma {:induction false} ProgressAdds(first: Nodes, now: Nodes, targets: Nodes, records: Nodes, p: Profile, current: set<string>,
                                        done: seq<string>, id: string, ib: NodeInbound, now': Nodes, records': Nodes)
    requires id !in current && FreshOf(ib, p) && id in records
    requires id in targets && targets[id] == InboundsOf(first, id)
    requires forall x :: Progress(first, now, targets, records, p, current, done, x)
    requires now' == now[id := records[id] + [ib]] && records' == records[id := records[id] + [ib]]
    ensures forall x :: Progress(first, now', targets, records', p, current, done + [id], x)
  {
    forall x
      ensures Progress(first, now', targets, records', p, current, done + [id], x)
    {
      assert Progress(first, now, targets, records, p, current, done, x);
      if x != id {
        if x in done && x !in current {
          AddedKept(first, now, now', x, p, multiset(done)[x]);
        }
      } else if id in done {
        AddedMore(first, now, now', id, p, multiset(done)[id], ib);
      } else {
        AddedFirst(first, now', id, p, ib);
      }
      hide AddedOn;
    }
  }

  /** A parameter of the inbound is not the profile's, or its first packet and header are not the
      material's. */
  predicate Outdated(ib: NodeInbound, p: Profile, material: Obfs) {
    && ib.profileId == p.id
    && (|| ib.port != p.port || ib.obfuscation != p.obfuscation || ib.mieruTransport != p.mieruTransport || ib.serverName != p.serverName
        || (ib.protocol == "awg" && ib.obfs.i1 + ib.obfs.h1 != material.i1 + material.h1))
  }

  predicate AnyOutdated(ibs: seq<NodeInbound>, p: Profile, material: Obfs) {
    exists i :: 0 <= i < |ibs| && Outdated(ibs[i], p, material)
  }

  predicate OutdatedOn(nodes: Nodes, p: Profile, material: map<string, Obfs>, x: string) {
    x in nodes && x in material && AnyOutdated(nodes[x], p, material[x])
  }

  lemma {:induction false} OutdatedDiffers(ibs: seq<NodeInbound>, p: Profile, material: Obfs)
    ensures AnyDiffers(ibs, p, material) <==> AnyOutdated(ibs, p, material)
  {
    forall i | 0 <= i < |ibs|
      ensures Differs(ibs[i], SyncedInbound(ibs[i], p, material)) <==> Outdated(ibs[i], p, material)
    {
    }
    hide Differs, Outdated, SyncedInbound;
    if i :| 0 <= i < |ibs| && Outdated(ibs[i], p, material) {
      assert Differs(ibs[i], SyncedInbound(ibs[i], p, material));
    }
  }

  lemma {:induction false} UpdatedWhenOutdated(was: Nodes, p: Profile, material: map<string, Obfs>, current: set<string>, x: string)
    requires forall y :: y in current <==> CarriedOn(was, p.id, y)
    ensures OutdatedOn(was, p, material, x) ==> x in current
    ensures x in was && x in material ==> (AnyDiffers(was[x], p, material[x]) <==> AnyOutdated(was[x], p, material[x]))
  {
    if x in was && x in material {
      OutdatedDiffers(was[x], p, material[x]);
      if i :| 0 <= i < |was[x]| && Outdated(was[x][i], p, material[x]) {
        assert was[x][i].profileId == p.id;
      }
    }
    hide AnyDiffers;
  }

  ghost predicate Blocked(nodes: Nodes, p: Profile, desired: set<string>, chains: seq<Chain>, x: string) {
    CarriedOn(nodes, p.id, x) && x !in desired && Referenced(chains, p.id, x)
  }

  /** The whole effect, node by node. */
  ghost predicate Placed(before: Nodes, after: Nodes, p: Profile, desired: seq<string>, chains: seq<Chain>, material: map<string, Obfs>) {
    forall x :: PlacedOn(before, after, p, desired, chains, material, x)
  }

  ghost predicate PlacedOn(before: Nodes, after: Nodes, p: Profile, desired: seq<string>, chains: seq<Chain>, material: map<string, Obfs>, x: string) {
    if x in desired then
      if CarriedOn(before, p.id, x) then x in material && Lookup(after, x) == Some(KeptInbounds(before[x], p, material[x]))
      else AddedOn(before, after, x, p, multiset(desired)[x])
    else if CarriedOn(before, p.id, x) && !Blocked(before, p, Members(desired), chains, x) then Lookup(after, x) == Some(Without(before[x], p.id))
    else Lookup(after, x) == Lookup(before, x)
  }

  ghost predicate MiddleOn(before: Nodes, after: Nodes, p: Profile, current: set<string>, desired: set<string>, chains: seq<Chain>, material: map<string, Obfs>, x: string) {
    if x in current && x in desired then x in before && x in material && Lookup(after, x) == Some(KeptInbounds(before[x], p, material[x]))
    else if x in current && !Referenced(chains, p.id, x) then x in before && Lookup(after, x) == Some(Without(before[x], p.id))
    else Lookup(after, x) == Lookup(before, x)
  }

  lemma {:induction false} MiddlePasses(a: Nodes, b: Nodes, c: Nodes, p: Profile, current: set<string>, desired: set<string>, chains: seq<Chain>, material: map<string, Obfs>)
    requires forall x :: x in current ==> x in a && x in material
    requires forall x :: Lookup(b, x) == AfterRemoval(a, x, current, desired, chains, p)
    requires forall x :: Lookup(c, x) == AfterUpdate(b, x, current, desired, p, material)
    ensures forall x :: MiddleOn(a, c, p, current, desired, chains, material, x)
  {
    hide Referenced, Without, KeptInbounds;
    forall x
      ensures MiddleOn(a, c, p, current, desired, chains, material, x)
    {
      assert Lookup(b, x) == AfterRemoval(a, x, current, desired, chains, p);
      assert Lookup(c, x) == AfterUpdate(b, x, current, desired, p, material);
    }
  }

  lemma {:induction false} PlacedByPasses(a: Nodes, c: Nodes, d: Nodes, p: Profile, current: set<string>, desired: seq<string>, chains: seq<Chain>, material: map<string, Obfs>)
    requires forall x :: x in current <==> CarriedOn(a, p.id, x)
    requires forall x :: MiddleOn(a, c, p, current, Members(desired), chains, material, x)
    requires forall x :: if x in desired && x !in current then AddedOn(c, d, x, p, multiset(desired)[x]) else Lookup(d, x) == Lookup(c, x)
    ensures Placed(a, d, p, desired, chains, material)
  {
    hide Referenced, Without, KeptInbounds, CarriedOn;
    forall x
      ensures PlacedOn(a, d, p, desired, chains, material, x)
    {
      assert MiddleOn(a, c, p, current, Members(desired), chains, material, x);
      if x in desired && x !in current {
        assert Lookup(c, x) == Lookup(a, x);
        assert InboundsOf(c, x) == InboundsOf(a, x);
      }
    }
  }

  // ---- What the placement means ----

  lemma {:induction false} WithoutCarries(ibs: seq<NodeInbound>, profile: string)
    ensures forall i :: 0 <= i < |Without(ibs, profile)| ==> Without(ibs, profile)[i].profileId != profile
  {
    if ibs != [] {
      WithoutCarries(ibs[..|ibs| - 1], profile);
    }
  }

  lemma {:induction false} NothingToDrop(ibs: seq<NodeInbound>, profile: string)
    requires forall i :: 0 <= i < |ibs| ==> ibs[i].profileId != profile
    ensures Without(ibs, profile) == ibs
  {
    if ibs != [] {
      NothingToDrop(ibs[..|ibs| - 1], profile);
      assert ibs[..|ibs| - 1] + [ibs[|ibs| - 1]] == ibs;
    }
  }

  /** Inbounds of the profile at the end do not show. */
  lemma {:induction false} WithoutTail(ibs: seq<NodeInbound>, n: nat, p: Profile)
    requires n <= |ibs| && AllOf(ibs[n..], p)
    ensures Without(ibs, p.id) == Without(ibs[..n], p.id)
    decreases |ibs|
  {
    if n == |ibs| {
      assert ibs[..n] == ibs;
    } else {
      var last := |ibs| - 1;
      assert ibs[n..][last - n] == ibs[last];
      assert ibs[..last][n..] == ibs[n..][..last - n] && ibs[..last][..n] == ibs[..n];
      WithoutTail(ibs[..last], n, p);
    }
  }

  lemma {:induction false} SyncKeepsOthers(ibs: seq<NodeInbound>, p: Profile, material: Obfs)
    ensures Without(SyncedAll(ibs, p, material), p.id) == Without(ibs, p.id)
  {
    if ibs != [] {
      var n := |ibs| - 1;
      assert SyncedAll(ibs, p, material)[..n] == SyncedAll(ibs[..n], p, material);
      SyncKeepsOthers(ibs[..n], p, material);
    }
  }

  /** Everything but the parameters a profile rules over. */
  predicate SameIdentity(a: NodeInbound, b: NodeInbound) {
    && a.protocol == b.protocol && a.tag == b.tag && a.source == b.source && a.profileId == b.profileId && a.awg3 == b.awg3
    && a.awgServerAddress == b.awgServerAddress && a.outboundTag == b.outboundTag && a.keys == b.keys
  }

  /** The inbound says what the profile says. */
  predicate UpToDate(ib: NodeInbound, p: Profile) {
    ib.port == p.port && ib.obfuscation == p.obfuscation && ib.mieruTransport == p.mieruTransport && ib.serverName == p.serverName
  }

  /** On a kept node each inbound of the profile ends with the profile's parameters, and, where
      anything was out of date, with the given material; its identity and every other inbound stay. */
  ghost predicate KeptAsProfile(before: seq<NodeInbound>, after: seq<NodeInbound>, p: Profile, material: Obfs) {
    && |after| == |before|
    && forall i :: 0 <= i < |before| ==>
         if before[i].profileId != p.id then after[i] == before[i]
         else
           && SameIdentity(after[i], before[i]) && UpToDate(after[i], p)
           && after[i].obfs == if before[i].protocol == "awg" && AnyOutdated(before, p, material) then material else before[i].obfs
  }

  lemma {:induction false} SyncAsProfile(ibs: seq<NodeInbound>, p: Profile, material: Obfs)
    ensures KeptAsProfile(ibs, KeptInbounds(ibs, p, material), p, material)
  {
    OutdatedDiffers(ibs, p, material);
    if !AnyOutdated(ibs, p, material) {
      assert forall i :: 0 <= i < |ibs| ==> !Outdated(ibs[i], p, material);
      hide AnyDiffers;
    } else {
      hide AnyDiffers, AnyOutdated, Differs, Outdated;
    }
  }

  lemma {:induction false} SyncKeepsKeys(ibs: seq<NodeInbound>, p: Profile, material: Obfs)
    ensures var k := KeptInbounds(ibs, p, material);
            && |k| == |ibs| && Carries(k, p.id) == Carries(ibs, p.id)
            && forall i :: 0 <= i < |ibs| ==> k[i].keys == ibs[i].keys && k[i].profileId == ibs[i].profileId && k[i].tag == ibs[i].tag
  {
    var k := KeptInbounds(ibs, p, material);
    assert forall i :: 0 <= i < |ibs| ==> k[i].profileId == ibs[i].profileId;
  }

  /** After a successful placement the profile is on exactly the desired nodes and those a chain
      keeps it on; everybody else's inbounds are as they were; kept nodes keep their keys. */
  lemma {:induction false} PlacementMeaning(before: Nodes, after: Nodes, p: Profile, desired: seq<string>, chains: seq<Chain>, material: map<string, Obfs>, x: string)
    requires Placed(before, after, p, desired, chains, material)
    ensures CarriedOn(after, p.id, x) <==> x in desired || Blocked(before, p, Members(desired), chains, x)
    ensures x in desired && !CarriedOn(before, p.id, x) ==> |after[x]| == |InboundsOf(before, x)| + multiset(desired)[x]
    ensures Without(InboundsOf(after, x), p.id) == Without(InboundsOf(before, x), p.id)
    ensures CarriedOn(before, p.id, x) && CarriedOn(after, p.id, x) ==>
              && |after[x]| == |before[x]|
              && forall i :: 0 <= i < |before[x]| ==> after[x][i].keys == before[x][i].keys
    ensures CarriedOn(before, p.id, x) && x in desired ==>
              x in material && x in after && KeptAsProfile(before[x], after[x], p, material[x])
  {
    assert PlacedOn(before, after, p, desired, chains, material, x);
    hide Referenced;
    if x in desired && !CarriedOn(before, p.id, x) {
      var n := |InboundsOf(before, x)|;
      WithoutTail(after[x], n, p);
      assert after[x][n..][0] == after[x][n];
    } else if x in desired {
      SyncKeepsKeys(before[x], p, material[x]);
      KeptOthers(before[x], p, material[x]);
      SyncAsProfile(before[x], p, material[x]);
      assert after[x] == KeptInbounds(before[x], p, material[x]);
      hide KeptInbounds, KeptAsProfile, Without, Carries;
    } else if CarriedOn(before, p.id, x) && !Blocked(before, p, Members(desired), chains, x) {
      WithoutCarries(before[x], p.id);
      NothingToDrop(Without(before[x], p.id), p.id);
    }
  }

  lemma {:induction false} KeptOthers(ibs: seq<NodeInbound>, p: Profile, material: Obfs)
    ensures Without(KeptInbounds(ibs, p, material), p.id) == Without(ibs, p.id)
  {
    SyncKeepsOthers(ibs, p, material);
  }

  /** A new inbound is out of date at once, material aside, exactly when the profile names a
      transport without being mieru, or is mieru and names none. */
  lemma {:induction false} FreshOutdatedIff(ib: NodeInbound, p: Profile, material: Obfs)
    requires FreshOf(ib, p) && (p.protocol == "awg" ==> ib.obfs == material)
    ensures Outdated(ib, p, material) <==> (p.protocol == "mieru") == (p.mieruTransport == "")
  {
  }

  /** Placing a profile a second time on the same nodes changes nothing more. */
  lemma {:induction false} KeptTwice(ibs: seq<NodeInbound>, p: Profile, material: Obfs)
    ensures KeptInbounds(KeptInbounds(ibs, p, material), p, material) == KeptInbounds(ibs, p, material)
  {
    var k := SyncedAll(ibs, p, material);
    forall i | 0 <= i < |ibs|
      ensures SyncedInbound(k[i], p, material) == k[i]
    {
    }
    assert SyncedAll(k, p, material) == k;
  }
}
