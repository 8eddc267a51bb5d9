/** Turning a flat chain into levels (migrate_v2.go), and what stays the same for the deploy. */
module Migration {
  import opened Text
  import opened Topology
  import opened Routing
  import opened Ports

  predicate IsEntryAt(nodes: seq<ChainNode>, i: nat)
    requires i < |nodes|
  {
    nodes[i].role == EntryRole || (nodes[i].role == Auto && i == 0)
  }

  predicate IsTransitAt(nodes: seq<ChainNode>, i: nat)
    requires i < |nodes|
  {
    !IsEntryAt(nodes, i) && nodes[i].role != ExitRole
  }

  // ---- Partition ----

  /** The entry (transit, exit) nodes among the first n, in order. */
  function Entries(nodes: seq<ChainNode>, n: nat): seq<ChainNode>
    requires n <= |nodes|
  {
    if n == 0 then [] else Entries(nodes, n - 1) + if IsEntryAt(nodes, n - 1) then [nodes[n - 1]] else []
  }

  function Transits(nodes: seq<ChainNode>, n: nat): seq<ChainNode>
    requires n <= |nodes|
  {
    if n == 0 then [] else Transits(nodes, n - 1) + if IsTransitAt(nodes, n - 1) then [nodes[n - 1]] else []
  }

  function Exits(nodes: seq<ChainNode>, n: nat): seq<ChainNode>
    requires n <= |nodes|
  {
    if n == 0 then [] else Exits(nodes, n - 1) + if nodes[n - 1].role == ExitRole then [nodes[n - 1]] else []
  }

  /** Entry nodes get the reference to the chain's entry profile. */
  function Referencing(nodes: seq<ChainNode>, profile: string): seq<ChainNode> {
    seq(|nodes|, i requires 0 <= i < |nodes| => if IsEntryAt(nodes, i) then nodes[i].(inboundRef := profile) else nodes[i])
  }

  function Single(n: ChainNode): Level {
    Level([n], Unset)
  }

  function Singles(nodes: seq<ChainNode>): seq<Level> {
    seq(|nodes|, i requires 0 <= i < |nodes| => Single(nodes[i]))
  }

  function Group(nodes: seq<ChainNode>): seq<Level> {
    if nodes == [] then [] else [Level(nodes, Unset)]
  }

  function LevelsOf(nodes: seq<ChainNode>): seq<Level> {
    Group(Entries(nodes, |nodes|)) + Singles(Transits(nodes, |nodes|)) + Group(Exits(nodes, |nodes|))
  }

  function ProfileOf(c: Chain): string {
    "chain-entry-" + c.name
  }

  function Levelized(c: Chain): Chain {
    if c.IsLevelized() || c.nodes == [] then c
    else
      var nodes := Referencing(c.nodes, ProfileOf(c));
      c.(nodes := nodes, levels := LevelsOf(nodes))
  }

  // ---- The entry inbound ----

  function ProtocolName(p: UserProtocol): string {
    match p
    case AwgUsers => "awg"
    case TuicUsers => "tuic"
    case MtproxyUsers => "mtproxy"
    case VlessUsers => "vless-reality"
    case UnsetUsers => "awg"
  }

  /** The inbound an entry node gets: the chain's own credentials, nothing regenerated. */
  function EntryInbound(c: Chain, n: ChainNode): NodeInbound {
    var awg := c.userProtocol == AwgUsers || c.userProtocol == UnsetUsers;
    NodeInbound(ProtocolName(c.userProtocol), EntryPort(c, n.id), ProfileOf(c), "chain:" + c.name, ProfileOf(c), false,
                if awg then "10.8.0.1/24" else "", "", "", c.obfuscation, "",
                if awg then Keys("", c.serverPriv, c.serverPub, "", "")
                else Keys(if c.userProtocol == TuicUsers then c.tuicUuid else n.transitUuid, "", "", "", ""),
                if awg then c.obfs else NO_OBFS)
  }

  predicate Materialized(ibs: seq<NodeInbound>, profile: string) {
    exists i :: 0 <= i < |ibs| && (ibs[i].tag == profile || ibs[i].profileId == profile)
  }

  /** materializeChainEntryInbound. */
  function WithEntry(ibs: seq<NodeInbound>, c: Chain, n: ChainNode): seq<NodeInbound> {
    if Materialized(ibs, ProfileOf(c)) then ibs else ibs + [EntryInbound(c, n)]
  }

  type Infos = map<string, seq<NodeInbound>>

  function InboundsOf(m: Infos, id: string): seq<NodeInbound> {
    if id in m then m[id] else []
  }

  function WithEntries(m: Infos, c: Chain, n: nat): Infos
    requires n <= |c.nodes|
  {
    if n == 0 then m
    else
      var before := WithEntries(m, c, n - 1);
      var node := c.nodes[n - 1];
      if IsEntryAt(c.nodes, n - 1) then before[node.id := WithEntry(InboundsOf(before, node.id), c, node)] else before
  }

  /** The indices of the entry (transit, exit) nodes. */
  function EntryIdx(nodes: seq<ChainNode>, n: nat): seq<nat>
    requires n <= |nodes|
  {
    if n == 0 then [] else EntryIdx(nodes, n - 1) + if IsEntryAt(nodes, n - 1) then [n - 1] else []
  }

  function TransitIdx(nodes: seq<ChainNode>, n: nat): seq<nat>
    requires n <= |nodes|
  {
    if n == 0 then [] else TransitIdx(nodes, n - 1) + if IsTransitAt(nodes, n - 1) then [n - 1] else []
  }

  function ExitIdx(nodes: seq<ChainNode>, n: nat): seq<nat>
    requires n <= |nodes|
  {
    if n == 0 then [] else ExitIdx(nodes, n - 1) + if nodes[n - 1].role == ExitRole then [n - 1] else []
  }

  /** The role partition of migrateChainToLevels. */
  method Partition(nodes: seq<ChainNode>) returns (entries: seq<nat>, transits: seq<nat>, exits: seq<nat>)
    ensures entries == EntryIdx(nodes, |nodes|) && transits == TransitIdx(nodes, |nodes|) && exits == ExitIdx(nodes, |nodes|)
  {
    entries, transits, exits := [], [], [];
    for i := 0 to |nodes|
      invariant entries == EntryIdx(nodes, i) && transits == TransitIdx(nodes, i) && exits == ExitIdx(nodes, i)
    {
      if nodes[i].role == ExitRole {
        exits := exits + [i];
      } else if nodes[i].role == EntryRole || (nodes[i].role == Auto && i == 0) {
        entries := entries + [i];
      } else {
        transits := transits + [i];
      }
    }
  }

  predicate At(nodes: seq<ChainNode>, ks: seq<nat>) {
    forall k :: 0 <= k < |ks| ==> ks[k] < |nodes|
  }

  function Pick(nodes: seq<ChainNode>, ks: seq<nat>): seq<ChainNode>
    requires At(nodes, ks)
  {
    seq(|ks|, k requires 0 <= k < |ks| => nodes[ks[k]])
  }

  lemma {:induction false} PickSnoc(nodes: seq<ChainNode>, ks: seq<nat>, i: nat)
    requires At(nodes, ks) && i < |nodes|
    ensures At(nodes, ks + [i]) && Pick(nodes, ks + [i]) == Pick(nodes, ks) + [nodes[i]]
  {
  }

  lemma {:induction false} PickNone(nodes: seq<ChainNode>)
    ensures At(nodes, []) && Pick(nodes, []) == []
  {
  }

  lemma {:induction false} MarkedRoles(nodes: seq<ChainNode>, profile: string, i: nat)
    requires i < |nodes|
    ensures var r := Referencing(nodes, profile);
            && |r| == |nodes| && r[i].role == nodes[i].role
            && IsEntryAt(r, i) == IsEntryAt(nodes, i) && IsTransitAt(r, i) == IsTransitAt(nodes, i)
  {
  }

  lemma {:induction false} PickEntries(nodes: seq<ChainNode>, r: seq<ChainNode>, n: nat)
    requires n <= |nodes| == |r| && forall i :: 0 <= i < |r| ==> IsEntryAt(r, i) == IsEntryAt(nodes, i)
    ensures At(r, EntryIdx(nodes, n)) && Pick(r, EntryIdx(nodes, n)) == Entries(r, n)
  {
    hide Pick, At, IsEntryAt;
    PickNone(r);
    if n > 0 {
      PickEntries(nodes, r, n - 1);
      PickSnoc(r, EntryIdx(nodes, n - 1), n - 1);
      assert EntryIdx(nodes, n - 1) + [] == EntryIdx(nodes, n - 1) && Entries(r, n - 1) + [] == Entries(r, n - 1);
    }
  }

  lemma {:induction false} PickTransits(nodes: seq<ChainNode>, r: seq<ChainNode>, n: nat)
    requires n <= |nodes| == |r| && forall i :: 0 <= i < |r| ==> IsTransitAt(r, i) == IsTransitAt(nodes, i)
    ensures At(r, TransitIdx(nodes, n)) && Pick(r, TransitIdx(nodes, n)) == Transits(r, n)
  {
    hide Pick, At, IsTransitAt;
    PickNone(r);
    if n > 0 {
      PickTransits(nodes, r, n - 1);
      PickSnoc(r, TransitIdx(nodes, n - 1), n - 1);
      assert TransitIdx(nodes, n - 1) + [] == TransitIdx(nodes, n - 1) && Transits(r, n - 1) + [] == Transits(r, n - 1);
    }
  }

  lemma {:induction false} PickExits(nodes: seq<ChainNode>, r: seq<ChainNode>, n: nat)
    requires n <= |nodes| == |r| && forall i :: 0 <= i < |r| ==> r[i].role == nodes[i].role
    ensures At(r, ExitIdx(nodes, n)) && Pick(r, ExitIdx(nodes, n)) == Exits(r, n)
  {
    hide Pick, At;
    PickNone(r);
    if n > 0 {
      PickExits(nodes, r, n - 1);
      PickSnoc(r, ExitIdx(nodes, n - 1), n - 1);
      assert ExitIdx(nodes, n - 1) + [] == ExitIdx(nodes, n - 1) && Exits(r, n - 1) + [] == Exits(r, n - 1);
    }
  }

  /** The indices found before the references were set pick the same nodes after. */
  lemma {:induction false} PickParts(nodes: seq<ChainNode>, profile: string)
    ensures var r := Referencing(nodes, profile);
            && |r| == |nodes|
            && At(r, EntryIdx(nodes, |r|)) && Pick(r, EntryIdx(nodes, |r|)) == Entries(r, |r|)
            && At(r, TransitIdx(nodes, |r|)) && Pick(r, TransitIdx(nodes, |r|)) == Transits(r, |r|)
            && At(r, ExitIdx(nodes, |r|)) && Pick(r, ExitIdx(nodes, |r|)) == Exits(r, |r|)
  {
    ReferencingLength(nodes, profile);
    hide Pick, At, IsEntryAt, IsTransitAt, Referencing, EntryIdx, TransitIdx, ExitIdx, Entries, Transits, Exits;
    var r := Referencing(nodes, profile);
    forall i | 0 <= i < |nodes|
      ensures r[i].role == nodes[i].role && IsEntryAt(r, i) == IsEntryAt(nodes, i) && IsTransitAt(r, i) == IsTransitAt(nodes, i)
    {
      MarkedRoles(nodes, profile, i);
    }
    PickEntries(nodes, r, |r|);
    PickTransits(nodes, r, |r|);
    PickExits(nodes, r, |r|);
  }

  lemma {:induction false} EntryIdxMember(nodes: seq<ChainNode>, n: nat, i: nat)
    requires n <= |nodes|
    ensures i in EntryIdx(nodes, n) <==> i < n && IsEntryAt(nodes, i)
  {
    if n > 0 {
      EntryIdxMember(nodes, n - 1, i);
    }
  }

  lemma {:induction false} EntryIdxAt(nodes: seq<ChainNode>, n: nat)
    requires n <= |nodes|
    ensures At(nodes, EntryIdx(nodes, n))
  {
    if n > 0 {
      EntryIdxAt(nodes, n - 1);
    }
  }

  method MarkEntries(nodes: seq<ChainNode>, entries: seq<nat>, profile: string) returns (marked: seq<ChainNode>)
    requires entries == EntryIdx(nodes, |nodes|) && At(nodes, entries)
    ensures marked == Referencing(nodes, profile)
  {
    marked := nodes;
    forall i | 0 <= i < |nodes|
      ensures i in entries <==> IsEntryAt(nodes, i)
    {
      EntryIdxMember(nodes, |nodes|, i);
    }
    hide EntryIdx;
    for k := 0 to |entries|
      invariant |marked| == |nodes|
      invariant forall j :: 0 <= j < |nodes| ==>
        marked[j] == if j in entries[..k] then nodes[j].(inboundRef := profile) else nodes[j]
    {
      assert entries[..k + 1] == entries[..k] + [entries[k]];
      assert entries[k] in entries;
      marked := marked[entries[k] := marked[entries[k]].(inboundRef := profile)];
    }
    assert entries[..|entries|] == entries;
  }

  method BuildLevels(nodes: seq<ChainNode>, entries: seq<nat>, transits: seq<nat>, exits: seq<nat>) returns (levels: seq<Level>)
    requires At(nodes, entries) && At(nodes, transits) && At(nodes, exits)
    ensures levels == Group(Pick(nodes, entries)) + Singles(Pick(nodes, transits)) + Group(Pick(nodes, exits))
  {
    levels := [];
    if entries != [] {
      levels := [Level(Pick(nodes, entries), Unset)];
    }
    var base := levels;
    for k := 0 to |transits|
      invariant levels == base + Singles(Pick(nodes, transits))[..k]
    {
      levels := levels + [Level([nodes[transits[k]]], Unset)];
    }
    if exits != [] {
      levels := levels + [Level(Pick(nodes, exits), Unset)];
    }
  }

  /** migrateChainToLevels on the chain; the inbounds of the entry nodes are the next method's. */
  method MigrateChainToLevels(c: Chain) returns (m: Chain)
    ensures m == Levelized(c)
    ensures Levelized(m) == m
  {
    MigrateTwice(c);
    hide Referencing, Entries, Transits, Exits, EntryIdx, TransitIdx, ExitIdx, Pick, At;
    if c.IsLevelized() || c.nodes == [] {
      return c;
    }
    var entries, transits, exits := Partition(c.nodes);
    EntryIdxAt(c.nodes, |c.nodes|);
    var nodes := MarkEntries(c.nodes, entries, ProfileOf(c));
    PickParts(c.nodes, ProfileOf(c));
    ReferencingLength(c.nodes, ProfileOf(c));
    var levels := BuildLevels(nodes, entries, transits, exits);
    m := c.(nodes := nodes, levels := levels);
  }

  lemma {:induction false} ReferencingLength(nodes: seq<ChainNode>, profile: string)
    ensures |Referencing(nodes, profile)| == |nodes|
  {
  }

  /** Entry nodes stay entry nodes when they get their reference. */
  lemma {:induction false} SamePartition(nodes: seq<ChainNode>, profile: string, n: nat)
    requires n <= |nodes|
    ensures var r := Referencing(nodes, profile);
            && |Entries(r, n)| == |Entries(nodes, n)| && Transits(r, n) == Transits(nodes, n) && Exits(r, n) == Exits(nodes, n)
    ensures forall i :: 0 <= i < |nodes| ==> IsEntryAt(Referencing(nodes, profile), i) == IsEntryAt(nodes, i)
  {
    if n > 0 {
      SamePartition(nodes, profile, n - 1);
    }
  }

  /** Step (b): the entry inbound on every entry node. */
  method MaterializeEntries(c: Chain, m: Infos) returns (out: Infos)
    ensures out == WithEntries(m, c, |c.nodes|)
  {
    out := m;
    for i := 0 to |c.nodes|
      invariant out == WithEntries(m, c, i)
    {
      if IsEntryAt(c.nodes, i) {
        out := out[c.nodes[i].id := WithEntry(InboundsOf(out, c.nodes[i].id), c, c.nodes[i])];
      }
    }
  }

  // ---- A permutation ----

  lemma {:induction false} FlattenConcat(a: seq<Level>, b: seq<Level>)
    ensures Flatten(a + b) == Flatten(a) + Flatten(b)
  {
    if a == [] {
      assert a + b == b;
    } else {
      assert (a + b)[1..] == a[1..] + b;
      FlattenConcat(a[1..], b);
    }
  }

  lemma {:induction false} FlattenGroup(nodes: seq<ChainNode>)
    ensures Flatten(Group(nodes)) == nodes
  {
    if nodes != [] {
      assert Group(nodes)[1..] == [];
      assert Flatten([]) == [];
    }
  }

  lemma {:induction false} FlattenSinglesOf(nodes: seq<ChainNode>)
    ensures Flatten(Singles(nodes)) == nodes
  {
    if nodes != [] {
      assert Singles(nodes)[1..] == Singles(nodes[1..]);
      FlattenSinglesOf(nodes[1..]);
    }
  }

  /** Flattened, the levels are the entries, then the transits, then the exits, each in their
      old order. */
  lemma {:induction false} FlattenLevels(nodes: seq<ChainNode>)
    ensures Flatten(LevelsOf(nodes)) == Entries(nodes, |nodes|) + Transits(nodes, |nodes|) + Exits(nodes, |nodes|)
  {
    var e, t, x := Entries(nodes, |nodes|), Transits(nodes, |nodes|), Exits(nodes, |nodes|);
    FlattenConcat(Group(e) + Singles(t), Group(x));
    FlattenConcat(Group(e), Singles(t));
    FlattenGroup(e);
    FlattenSinglesOf(t);
    FlattenGroup(x);
  }

  lemma {:induction false} PartitionIsPermutation(nodes: seq<ChainNode>, n: nat)
    requires n <= |nodes|
    ensures multiset(Entries(nodes, n) + Transits(nodes, n) + Exits(nodes, n)) == multiset(nodes[..n])
  {
    if n == 0 {
      assert nodes[..0] == [];
    } else {
      PartitionIsPermutation(nodes, n - 1);
      assert nodes[..n] == nodes[..n - 1] + [nodes[n - 1]];
    }
  }

  /** Levelizing loses and duplicates no node. */
  lemma {:induction false} LevelsPermute(nodes: seq<ChainNode>)
    ensures multiset(Flatten(LevelsOf(nodes))) == multiset(nodes)
  {
    FlattenLevels(nodes);
    PartitionIsPermutation(nodes, |nodes|);
    assert nodes[..|nodes|] == nodes;
  }

  /** A migrated chain is left alone by every later run. */
  lemma {:induction false} MigrateTwice(c: Chain)
    ensures Levelized(Levelized(c)) == Levelized(c)
    ensures c.nodes != [] ==> Levelized(c).IsLevelized()
  {
    if !c.IsLevelized() && c.nodes != [] {
      var nodes := Referencing(c.nodes, ProfileOf(c));
      LevelsPermute(nodes);
      assert nodes[0] in multiset(nodes);
    }
  }

  // ---- Role-less chains keep their meaning ----

  predicate RoleLess(c: Chain) {
    forall i :: 0 <= i < |c.nodes| ==> c.nodes[i].role == Auto
  }

  lemma {:induction false} RoleLessPartition(nodes: seq<ChainNode>, n: nat)
    requires 0 < n <= |nodes| && forall i :: 0 <= i < |nodes| ==> nodes[i].role == Auto
    ensures Entries(nodes, n) == [nodes[0]] && Transits(nodes, n) == nodes[1..n] && Exits(nodes, n) == []
  {
    if n == 1 {
      assert Entries(nodes, 0) == [] && Transits(nodes, 0) == [] && Exits(nodes, 0) == [];
    } else {
      RoleLessPartition(nodes, n - 1);
      assert nodes[1..n] == nodes[1..n - 1] + [nodes[n - 1]];
    }
  }

  lemma {:induction false} RoleLessLevels(nodes: seq<ChainNode>)
    requires nodes != [] && forall i :: 0 <= i < |nodes| ==> nodes[i].role == Auto
    ensures LevelsOf(nodes) == Singles(nodes)
  {
    RoleLessPartition(nodes, |nodes|);
    assert nodes == [nodes[0]] + nodes[1..];
    assert Singles(nodes) == [Level([nodes[0]], Unset)] + Singles(nodes[1..]);
  }

  /** One node per level: the node is found where it sits in the flat list. */
  lemma {:induction false} SinglesRole(c: Chain, l: nat, id: string)
    requires c.levels == Singles(c.nodes) && l <= |c.nodes|
    ensures RoleFrom(c, l, l, id)
         == match FirstIndex(c.nodes[l..], id) case None => None case Some(k) => Some(LevelRole(c, l + k, l + k, 0))
    decreases |c.nodes| - l
  {
    if l < |c.nodes| {
      assert c.levels[l].nodes == [c.nodes[l]] && c.nodes[l..][1..] == c.nodes[l + 1..];
      if c.nodes[l].id != id {
        assert [c.nodes[l]][1..] == [];
        assert FirstIndex([c.nodes[l]], id) == None;
        SinglesRole(c, l + 1, id);
      }
    }
  }

  /** The same place in the chain: flags, flat index and next hop. */
  predicate SameRole(a: Role, b: Role) {
    && a.index == b.index && a.node.id == b.node.id
    && a.isEntry == b.isEntry && a.isTransit == b.isTransit && a.hasOutbound == b.hasOutbound && a.next == b.next
  }

  lemma {:induction false} ReferencingIndex(nodes: seq<ChainNode>, profile: string, id: string)
    ensures FirstIndex(Referencing(nodes, profile), id) == FirstIndex(nodes, id)
  {
    var r := Referencing(nodes, profile);
    assert forall i :: 0 <= i < |nodes| ==> r[i].id == nodes[i].id;
    FirstIndexSame(nodes, r, id);
  }

  lemma {:induction false} FirstIndexSame(a: seq<ChainNode>, b: seq<ChainNode>, id: string)
    requires |a| == |b| && forall i :: 0 <= i < |a| ==> a[i].id == b[i].id
    ensures FirstIndex(a, id) == FirstIndex(b, id)
  {
    if a != [] {
      FirstIndexSame(a[1..], b[1..], id);
    }
  }

  lemma {:induction false} SinglesSame(c: Chain, m: Chain, i: nat)
    requires RoleLess(c) && i < |c.nodes| && m.nodes == Referencing(c.nodes, ProfileOf(c)) && m.levels == Singles(m.nodes)
    ensures SameRole(FlatRole(c, i), LevelRole(m, i, i, 0))
  {
    hide ProfileOf;
  }

  /** Every node of a role-less chain, repeated IDs included, resolves to the same role before
      and after the migration. */
  lemma {:induction false} RoleLessUnchanged(c: Chain, id: string)
    requires RoleLess(c) && !c.IsLevelized()
    ensures match RoleIn(c, id)
            case None => RoleIn(Levelized(c), id) == None
            case Some(r) => RoleIn(Levelized(c), id).Some? && SameRole(r, RoleIn(Levelized(c), id).value)
  {
    if c.nodes != [] {
      var m := Levelized(c);
      RoleLessLevels(m.nodes);
      SinglesRole(m, 0, id);
      assert m.nodes[0..] == m.nodes;
      ReferencingIndex(c.nodes, ProfileOf(c), id);
      hide RoleFrom, LevelsOf, ProfileOf, FirstIndex;
      match FirstIndex(c.nodes, id)
      case None =>
      case Some(i) => SinglesSame(c, m, i);
    }
  }

  // ---- Entry and transit flags of any chain ----

  predicate SameFlags(c: Chain, id: string) {
    var r, s := RoleIn(c, id), RoleIn(Levelized(c), id);
    r.Some? && s.Some? && r.value.isEntry == s.value.isEntry && r.value.isTransit == s.value.isTransit
  }

  ghost predicate FlagsKept(c: Chain) {
    forall i :: 0 <= i < |c.nodes| ==> SameFlags(c, c.nodes[i].id)
  }

  ghost predicate HasEntry(c: Chain) {
    exists i :: 0 <= i < |c.nodes| && IsEntryAt(c.nodes, i)
  }

  /** What the level scan says about the node it finds. */
  lemma {:induction false} RoleFromFacts(c: Chain, l: nat, before: nat, id: string)
    requires l <= |c.levels|
    ensures RoleFrom(c, l, before, id).None? ==>
              forall k, j :: l <= k < |c.levels| && 0 <= j < |c.levels[k].nodes| ==> c.levels[k].nodes[j].id != id
    ensures RoleFrom(c, l, before, id).Some? ==>
              var r := RoleFrom(c, l, before, id).value;
              && l <= r.level < |c.levels| && r.node in c.levels[r.level].nodes && r.node.id == id
              && r.isEntry == (r.level == 0) && r.isTransit == (r.level > 0 && r.node.role != ExitRole)
              && forall k, j :: l <= k < r.level && 0 <= j < |c.levels[k].nodes| ==> c.levels[k].nodes[j].id != id
    decreases |c.levels| - l
  {
    if l < |c.levels| && FirstIndex(c.levels[l].nodes, id).None? {
      RoleFromFacts(c, l + 1, before + |c.levels[l].nodes|, id);
    }
  }

  lemma {:induction false} EntriesMember(nodes: seq<ChainNode>, n: nat, x: ChainNode)
    requires n <= |nodes|
    ensures x in Entries(nodes, n) <==> exists i :: 0 <= i < n && IsEntryAt(nodes, i) && nodes[i] == x
  {
    if n > 0 {
      EntriesMember(nodes, n - 1, x);
      if i :| 0 <= i < n && IsEntryAt(nodes, i) && nodes[i] == x {
        if i < n - 1 {
          assert x in Entries(nodes, n - 1);
        }
      }
    }
  }

  lemma {:induction false} LevelMember(nodes: seq<ChainNode>, l: nat, x: ChainNode)
    requires l < |LevelsOf(nodes)| && x in LevelsOf(nodes)[l].nodes
    ensures x in nodes
  {
    FlattenContains(LevelsOf(nodes), l, x);
    LevelsPermute(nodes);
    assert x in multiset(Flatten(LevelsOf(nodes)));
  }

  lemma {:induction false} FlattenContains(levels: seq<Level>, l: nat, x: ChainNode)
    requires l < |levels| && x in levels[l].nodes
    ensures x in Flatten(levels)
  {
    if l > 0 {
      FlattenContains(levels[1..], l - 1, x);
    }
  }

  lemma {:induction false} SomewhereInLevels(levels: seq<Level>, x: ChainNode)
    requires x in Flatten(levels)
    ensures exists k, j :: 0 <= k < |levels| && 0 <= j < |levels[k].nodes| && levels[k].nodes[j] == x
  {
    if x in levels[0].nodes {
      var j :| 0 <= j < |levels[0].nodes| && levels[0].nodes[j] == x;
    } else {
      SomewhereInLevels(levels[1..], x);
      var k, j :| 0 <= k < |levels[1..]| && 0 <= j < |levels[1..][k].nodes| && levels[1..][k].nodes[j] == x;
      assert levels[k + 1].nodes[j] == x;
    }
  }

  lemma {:induction false} SameById(nodes: seq<ChainNode>, x: ChainNode, i: nat)
    requires DistinctIds(nodes) && i < |nodes| && x in nodes && x.id == nodes[i].id
    ensures x == nodes[i]
  {
    var j :| 0 <= j < |nodes| && nodes[j] == x;
    if i < j {
    } else if j < i {
    }
  }

  /** Where the migrated chain finds a node, with distinct IDs. */
  lemma {:induction false} MigratedRole(nodes: seq<ChainNode>, c: Chain, i: nat)
    requires c.levels == LevelsOf(nodes) && DistinctIds(nodes) && i < |nodes|
    ensures RoleFrom(c, 0, 0, nodes[i].id).Some?
    ensures var r := RoleFrom(c, 0, 0, nodes[i].id).value;
            && r.node == nodes[i] && 0 <= r.level < |c.levels| && nodes[i] in c.levels[r.level].nodes
            && r.isEntry == (r.level == 0) && r.isTransit == (r.level > 0 && r.node.role != ExitRole)
            && (r.level == 0 <==> nodes[i] in c.levels[0].nodes)
  {
    var x := nodes[i];
    RoleFromFacts(c, 0, 0, x.id);
    FlattenLevels(nodes);
    LevelsPermute(nodes);
    assert x in multiset(nodes);
    assert x in Flatten(LevelsOf(nodes));
    SomewhereInLevels(c.levels, x);
    hide LevelsOf, Flatten, RoleFrom;
    var r := RoleFrom(c, 0, 0, x.id).value;
    LevelMember(nodes, r.level, r.node);
    SameById(nodes, r.node, i);
    if x in c.levels[0].nodes {
      var j :| 0 <= j < |c.levels[0].nodes| && c.levels[0].nodes[j] == x;
      assert c.levels[0].nodes[j].id == x.id;
    }
  }

  lemma {:induction false} FirstLevel(nodes: seq<ChainNode>, i: nat)
    requires DistinctIds(nodes) && i < |nodes| && Entries(nodes, |nodes|) != []
    ensures LevelsOf(nodes)[0].nodes == Entries(nodes, |nodes|)
    ensures nodes[i] in Entries(nodes, |nodes|) <==> IsEntryAt(nodes, i)
  {
    EntriesMember(nodes, |nodes|, nodes[i]);
    if j :| 0 <= j < |nodes| && IsEntryAt(nodes, j) && nodes[j] == nodes[i] {
      if i < j {
      } else if j < i {
      }
    }
  }

  lemma {:induction false} NoEntries(nodes: seq<ChainNode>, n: nat)
    requires n <= |nodes|
    ensures Entries(nodes, n) == [] <==> forall i :: 0 <= i < n ==> !IsEntryAt(nodes, i)
  {
    if n > 0 {
      NoEntries(nodes, n - 1);
    }
  }

  lemma {:induction false} FlagsWithEntry(c: Chain, i: nat)
    requires !c.IsLevelized() && DistinctIds(c.nodes) && i < |c.nodes| && HasEntry(c)
    ensures SameFlags(c, c.nodes[i].id)
  {
    MarkedAlike(c, i);
    EntriesStay(c);
    MigrateTwice(c);
    FirstIndexDistinct(c.nodes, i);
    hide LevelsOf, RoleFrom, Entries, Transits, Exits, DistinctIds, FirstIndex, Referencing, HasEntry, ProfileOf;
    var m := Levelized(c);
    MigratedRole(m.nodes, m, i);
    FirstLevel(m.nodes, i);
  }

  /** References change neither IDs nor roles. */
  lemma {:induction false} MarkedAlike(c: Chain, i: nat)
    requires !c.IsLevelized() && DistinctIds(c.nodes) && i < |c.nodes|
    ensures var nodes := Levelized(c).nodes;
            && |nodes| == |c.nodes| && DistinctIds(nodes) && nodes[i].id == c.nodes[i].id && nodes[i].role == c.nodes[i].role
            && Levelized(c).levels == LevelsOf(nodes)
  {
    hide LevelsOf, ProfileOf;
  }

  lemma {:induction false} EntriesStay(c: Chain)
    requires !c.IsLevelized() && HasEntry(c)
    ensures var nodes := Levelized(c).nodes; Entries(nodes, |nodes|) != []
  {
    SamePartition(c.nodes, ProfileOf(c), |c.nodes|);
    NoEntries(c.nodes, |c.nodes|);
    hide LevelsOf, ProfileOf, Entries, Transits, Exits;
  }

  /** The deploy sees the same entry and transit flags after the migration exactly when the chain
      has an entry: without one, whatever comes first becomes the entry. */
  lemma {:induction false} FlagsKeptIff(c: Chain)
    requires !c.IsLevelized() && c.nodes != [] && DistinctIds(c.nodes)
    ensures FlagsKept(c) <==> HasEntry(c)
  {
    hide SameFlags, HasEntry;
    if HasEntry(c) {
      forall i | 0 <= i < |c.nodes|
        ensures SameFlags(c, c.nodes[i].id)
      {
        FlagsWithEntry(c, i);
      }
    } else {
      NewEntry(c);
    }
  }

  lemma {:induction false} NewEntry(c: Chain)
    requires !c.IsLevelized() && c.nodes != [] && DistinctIds(c.nodes) && !HasEntry(c)
    ensures !FlagsKept(c)
  {
    var m := Levelized(c);
    var nodes := m.nodes;
    assert DistinctIds(nodes) && forall i :: 0 <= i < |nodes| ==> nodes[i].id == c.nodes[i].id;
    MigrateTwice(c);
    LevelsNonEmpty(nodes);
    var x := m.levels[0].nodes[0];
    LevelMember(nodes, 0, x);
    var i :| 0 <= i < |nodes| && nodes[i] == x;
    MigratedRole(nodes, m, i);
    FirstIndexDistinct(c.nodes, i);
    assert !IsEntryAt(c.nodes, i);
    hide LevelsOf, RoleFrom, Entries, Transits, Exits;
    assert RoleIn(m, c.nodes[i].id).value.isEntry && !RoleIn(c, c.nodes[i].id).value.isEntry;
  }

  lemma {:induction false} LevelsNonEmpty(nodes: seq<ChainNode>)
    ensures forall l :: 0 <= l < |LevelsOf(nodes)| ==> LevelsOf(nodes)[l].nodes != []
  {
  }

  // ---- Entry ports ----

  lemma {:induction false} EntriesAmongPrefix(nodes: seq<ChainNode>, n: nat)
    requires n <= |nodes|
    ensures nodes != [] && nodes[0].role == Auto && n > 0 ==> Entries(nodes, n) == [nodes[0]] + EntriesAmong(nodes[..n])
    ensures nodes == [] || nodes[0].role != Auto ==> Entries(nodes, n) == EntriesAmong(nodes[..n])
  {
    if n > 0 {
      EntriesAmongPrefix(nodes, n - 1);
      assert nodes[..n][..n - 1] == nodes[..n - 1];
      if n == 1 {
        assert nodes[..0] == [] && EntriesAmong([]) == [];
      }
    }
  }

  /** The nodes without their profile references, which the migration sets. */
  function Bare(nodes: seq<ChainNode>): seq<ChainNode> {
    seq(|nodes|, i requires 0 <= i < |nodes| => nodes[i].(inboundRef := ""))
  }

  lemma {:induction false} BareEntries(nodes: seq<ChainNode>, profile: string, n: nat)
    requires n <= |nodes|
    ensures |Referencing(nodes, profile)| == |nodes| && Bare(Entries(Referencing(nodes, profile), n)) == Bare(Entries(nodes, n))
  {
    if n > 0 {
      var r := Referencing(nodes, profile);
      BareEntries(nodes, profile, n - 1);
      MarkedRoles(nodes, profile, n - 1);
      BareSnoc(Entries(r, n - 1), r[n - 1]);
      BareSnoc(Entries(nodes, n - 1), nodes[n - 1]);
      assert r[n - 1].(inboundRef := "") == nodes[n - 1].(inboundRef := "");
      assert Entries(r, n - 1) + [] == Entries(r, n - 1) && Entries(nodes, n - 1) + [] == Entries(nodes, n - 1);
      hide Bare, IsEntryAt, Referencing;
    }
  }

  lemma {:induction false} BareSnoc(nodes: seq<ChainNode>, n: ChainNode)
    ensures Bare(nodes + [n]) == Bare(nodes) + [n.(inboundRef := "")]
  {
  }

  /** Without an entry the partition starts with the first transit, or is all exits. */
  lemma {:induction false} WithoutEntries(nodes: seq<ChainNode>, n: nat)
    requires n <= |nodes| && forall i :: 0 <= i < |nodes| ==> !IsEntryAt(nodes, i)
    ensures Entries(nodes, n) == [] && EntriesAmong(nodes[..n]) == []
    ensures Transits(nodes, n) != [] ==> Transits(nodes, n)[0].role != ExitRole && Transits(nodes, n)[0] in nodes
    ensures n > 0 && nodes[0].role != ExitRole ==> Transits(nodes, n) != [] && Transits(nodes, n)[0] == nodes[0]
    ensures Transits(nodes, n) == [] ==> Exits(nodes, n) == nodes[..n]
  {
    if n > 0 {
      WithoutEntries(nodes, n - 1);
      assert nodes[..n][..n - 1] == nodes[..n - 1] && nodes[..n] == nodes[..n - 1] + [nodes[n - 1]];
    }
  }

  lemma {:induction false} EntryLevelWith(c: Chain)
    requires !c.IsLevelized() && c.nodes != [] && HasEntry(c)
    ensures Levelized(c).IsLevelized() && Bare(EntryNodes(Levelized(c))) == Bare(Entries(c.nodes, |c.nodes|))
  {
    EntriesStay(c);
    BareEntries(c.nodes, ProfileOf(c), |c.nodes|);
    hide Entries, Transits, Exits, ProfileOf, Bare, HasEntry;
  }

  lemma {:induction false} FirstOf(t: seq<ChainNode>, x: seq<ChainNode>)
    requires t != [] || x != []
    ensures var levels := Group([]) + Singles(t) + Group(x); levels != [] && levels[0].nodes == if t != [] then [t[0]] else x
  {
  }

  lemma {:induction false} WithoutEntryLevels(c: Chain)
    requires !c.IsLevelized() && c.nodes != [] && !HasEntry(c)
    ensures EntryNodes(c) == [c.nodes[0]]
    ensures Levelized(c) == c.(levels := LevelsOf(c.nodes))
    ensures var t := Transits(c.nodes, |c.nodes|);
            && LevelsOf(c.nodes) == Group([]) + Singles(t) + Group(Exits(c.nodes, |c.nodes|))
            && (c.nodes[0].role != ExitRole ==> t != [] && t[0] == c.nodes[0])
            && (t != [] ==> t[0].role != ExitRole && t[0] in c.nodes)
            && (t == [] ==> Exits(c.nodes, |c.nodes|) == c.nodes)
  {
    WithoutEntries(c.nodes, |c.nodes|);
    assert c.nodes[..|c.nodes|] == c.nodes;
    assert forall i :: 0 <= i < |c.nodes| ==> !IsEntryAt(c.nodes, i);
    assert Referencing(c.nodes, ProfileOf(c)) == c.nodes;
    hide Entries, Transits, Exits, ProfileOf, EntriesAmong, HasEntry, Singles, Group, IsEntryAt;
  }

  lemma {:induction false} EntryLevelWithout(c: Chain)
    requires !c.IsLevelized() && c.nodes != [] && !HasEntry(c)
    ensures Levelized(c).IsLevelized() && EntryNodes(c) == [c.nodes[0]]
    ensures var level := EntryNodes(Levelized(c));
            if c.nodes[0].role != ExitRole then level == [c.nodes[0]]
            else level == c.nodes || (|level| == 1 && level[0].role != ExitRole && level[0] in c.nodes)
  {
    WithoutEntryLevels(c);
    hide Entries, Transits, Exits, HasEntry, Singles, Group, Levelized, LevelsOf, EntriesAmong;
    FirstOf(Transits(c.nodes, |c.nodes|), Exits(c.nodes, |c.nodes|));
  }

  /** Same ordinals, same ports. */
  lemma {:induction false} SamePorts(c: Chain, m: Chain, id: string)
    requires Bare(EntryNodes(c)) == Bare(EntryNodes(m)) && c.userEntryPort == m.userEntryPort
    ensures EntryPort(c, id) == EntryPort(m, id)
  {
    var a, b := EntryNodes(c), EntryNodes(m);
    assert |a| == |Bare(a)| == |b|;
    forall i | 0 <= i < |a|
      ensures a[i].id == b[i].id
    {
      assert Bare(a)[i].id == Bare(b)[i].id;
    }
    hide EntryNodes;
    FirstIndexSame(a, b, id);
  }

  /** The migration keeps the entry nodes and their order, and with them every entry's port,
      exactly when position and explicit roles do not compete. With an entry: the first node has
      no role and none says entry, or it has a role. Without one: the first node is a transit, or
      the only node. */
  lemma {:induction false} EntryNodesKeptIff(c: Chain)
    requires !c.IsLevelized() && c.nodes != []
    ensures EntryNodesKept(c) <==> NoCompetition(c)
    ensures EntryNodesKept(c) ==> forall id :: EntryPort(Levelized(c), id) == EntryPort(c, id)
  {
    hide *;
    SameEntryNodes(c);
    LevelizedPort(c);
    if EntryNodesKept(c) {
      forall id
        ensures EntryPort(Levelized(c), id) == EntryPort(c, id)
      {
        SamePorts(c, Levelized(c), id);
      }
    }
  }

  ghost predicate EntryNodesKept(c: Chain)
    requires !c.IsLevelized() && c.nodes != []
  {
    Bare(EntryNodes(Levelized(c))) == Bare(EntryNodes(c))
  }

  ghost predicate NoCompetition(c: Chain)
    requires !c.IsLevelized() && c.nodes != []
  {
    if HasEntry(c) then c.nodes[0].role == Auto <==> EntriesAmong(c.nodes) == []
    else c.nodes[0].role == TransitRole || |c.nodes| == 1
  }

  lemma {:induction false} LevelizedPort(c: Chain)
    ensures Levelized(c).userEntryPort == c.userEntryPort
  {
    hide LevelsOf, Referencing, ProfileOf;
  }

  lemma {:induction false} SameEntryNodes(c: Chain)
    requires !c.IsLevelized() && c.nodes != []
    ensures EntryNodesKept(c) <==> NoCompetition(c)
    ensures EntryNodesKept(c) ==> Bare(EntryNodes(Levelized(c))) == Bare(EntryNodes(c))
  {
    var m := Levelized(c);
    if HasEntry(c) {
      EntryLevelWith(c);
      EntriesAmongPrefix(c.nodes, |c.nodes|);
      NoEntries(c.nodes, |c.nodes|);
      assert c.nodes[..|c.nodes|] == c.nodes;
      hide Entries, EntriesAmong, Levelized;
      if c.nodes[0].role == Auto && EntriesAmong(c.nodes) != [] {
        assert |Bare(EntryNodes(m))| != |Bare(EntryNodes(c))|;
      }
    } else {
      EntryLevelWithout(c);
      assert !IsEntryAt(c.nodes, 0);
      hide Levelized, HasEntry;
      assert |Bare(EntryNodes(m))| == |EntryNodes(m)| && |Bare(EntryNodes(c))| == 1;
      assert Bare(EntryNodes(m))[0].role == EntryNodes(m)[0].role;
      assert Bare(EntryNodes(c))[0].role == c.nodes[0].role;
    }
  }

  /** A first node without a role and an explicit second entry: the second entry moves up one
      port, so clients of the old port are lost. */
  lemma {:induction false} EntryPortShifts(c: Chain, a: ChainNode, b: ChainNode)
    requires c.levels == [] && c.nodes == [a, b] && a.role == Auto && b.role == EntryRole && a.id != b.id
    ensures EntryPort(Levelized(c), b.id) == EntryPort(c, b.id) + 1
  {
    EntriesAmongPrefix(c.nodes, 2);
    EntryLevelWith(c);
    assert c.nodes[..2] == c.nodes && c.nodes[..1] == [a] && [a][..0] == [];
    assert EntriesAmong([]) == [] && EntriesAmong([a]) == [] && EntriesAmong([a, b]) == [b];
    assert Entries(c.nodes, 2) == [a] + [b];
    LevelizedPort(c);
    hide Entries, EntriesAmong, Levelized, HasEntry;
    var level := EntryNodes(Levelized(c));
    assert |Bare(level)| == |level| == 2 && Bare(level)[0].id == a.id && Bare(level)[1].id == b.id;
    hide Bare;
    assert level[0].id == a.id && level[1].id == b.id;
    assert FirstIndex(level[1..], b.id) == Some(0);
    assert FirstIndex(EntryNodes(c), b.id) == Some(0);
  }

  /** Entry credentials arrive unchanged, once, and nothing else on the node moves. */
  lemma {:induction false} EntryCredentials(ibs: seq<NodeInbound>, c: Chain, n: ChainNode)
    ensures Materialized(WithEntry(ibs, c, n), ProfileOf(c))
    ensures WithEntry(WithEntry(ibs, c, n), c, n) == WithEntry(ibs, c, n)
    ensures ibs <= WithEntry(ibs, c, n)
    ensures !Materialized(ibs, ProfileOf(c)) ==>
              var ib := WithEntry(ibs, c, n)[|ibs|];
              && (c.userProtocol == AwgUsers || c.userProtocol == UnsetUsers ==>
                    ib.keys.serverPriv == c.serverPriv && ib.keys.serverPub == c.serverPub && ib.obfs == c.obfs)
              && (c.userProtocol == TuicUsers ==> ib.protocol == "tuic" && ib.keys.uuid == c.tuicUuid)
              && (c.userProtocol == VlessUsers ==> ib.protocol == "vless-reality" && ib.keys.uuid == n.transitUuid)
              && (c.userProtocol == MtproxyUsers ==> ib.protocol == "mtproxy")
              && (c.userProtocol == AwgUsers || c.userProtocol == UnsetUsers ==> ib.protocol == "awg" && ib.awgServerAddress == "10.8.0.1/24")
              && ib.source == "chain:" + c.name && ib.profileId == ProfileOf(c) && ib.port == EntryPort(c, n.id)
  {
    if !Materialized(ibs, ProfileOf(c)) {
      assert WithEntry(ibs, c, n)[|ibs|].tag == ProfileOf(c);
    }
  }
}
