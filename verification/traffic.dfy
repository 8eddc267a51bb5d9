/** Per-user traffic folded from kernel counters that restart with their interface
    (awgtraffic.go). */
module Traffic {
  import opened Text

  datatype Bytes = Bytes(rx: nat, tx: nat)

  const NONE := Bytes(0, 0)

  function Plus(a: Bytes, b: Bytes): Bytes {
    Bytes(a.rx + b.rx, a.tx + b.tx)
  }

  predicate Below(a: Bytes, b: Bytes) {
    a.rx <= b.rx && a.tx <= b.tx
  }

  /** Bytes to add for one peer: everything on first sight or after a reset, the growth
      otherwise. */
  function Delta(last: Option<Bytes>, cur: Bytes): Bytes {
    if last.None? || cur.rx < last.value.rx || cur.tx < last.value.tx then cur
    else Bytes(cur.rx - last.value.rx, cur.tx - last.value.tx)
  }

  // ---- The fold ----

  datatype UserTraffic = UserTraffic(id: string, publicKey: string, bytes: Bytes)

  type Counters = map<string, Bytes>

  function Get(m: Counters, k: string): Option<Bytes> {
    if k in m then Some(m[k]) else None
  }

  /** byPub: the user a key counts for, the last one if several carry it. */
  function Owner(users: seq<UserTraffic>, key: string): Option<nat> {
    if users == [] then None
    else if users[|users| - 1].publicKey == key && key != "" then Some(|users| - 1)
    else Owner(users[..|users| - 1], key)
  }

  lemma {:induction false} OwnerIndex(users: seq<UserTraffic>, key: string)
    ensures Owner(users, key).Some? ==> Owner(users, key).value < |users| && users[Owner(users, key).value].publicKey == key
  {
    if users != [] {
      OwnerIndex(users[..|users| - 1], key);
    }
  }

  /** A key counts for the last user that carries it; the empty key for nobody. */
  lemma {:induction false} OwnerIsLast(users: seq<UserTraffic>, key: string, i: nat)
    ensures Owner(users, key) == Some(i) <==>
              && key != "" && i < |users| && users[i].publicKey == key && forall j :: i < j < |users| ==> users[j].publicKey != key
  {
    OwnerIndex(users, key);
    if users != [] {
      OwnerIsLast(users[..|users| - 1], key, i);
    }
  }

  lemma {:induction false} OwnerKept(users: seq<UserTraffic>, i: nat, b: Bytes, key: string)
    requires i < |users|
    ensures Owner(users[i := users[i].(bytes := b)], key) == Owner(users, key)
  {
    var n := |users| - 1;
    var more := users[i := users[i].(bytes := b)];
    if i < n {
      assert more[..n] == users[..n][i := users[..n][i].(bytes := b)];
      OwnerKept(users[..n], i, b, key);
    } else {
      assert more[..n] == users[..n];
    }
  }

  /** The keys of a reading that change somebody's total. */
  predicate Counts(users: seq<UserTraffic>, before: Counters, current: Counters, unsaved: set<string>, key: string) {
    && key in current && Delta(Get(before, key), current[key]) != NONE && key !in unsaved
    && Owner(users, key).Some?
  }

  /** The total of user i after the keys in `keys` have been folded. */
  function Folded(users: seq<UserTraffic>, before: Counters, current: Counters, unsaved: set<string>, keys: set<string>, i: nat): UserTraffic
    requires i < |users| && keys <= current.Keys
  {
    var u := users[i];
    if u.publicKey in keys && u.publicKey !in unsaved && Owner(users, u.publicKey) == Some(i) then
      u.(bytes := Plus(u.bytes, Delta(Get(before, u.publicKey), current[u.publicKey])))
    else u
  }

  /** One key of the reading. */
  method FoldKey(totals: seq<UserTraffic>, seen: Counters, key: string, cur: Bytes, saved: bool)
    returns (more: seq<UserTraffic>, now: Counters, counted: bool)
    ensures now == seen[key := cur]
    ensures counted == (Delta(Get(seen, key), cur) != NONE && Owner(totals, key).Some? && saved)
    ensures |more| == |totals| && forall k :: Owner(more, k) == Owner(totals, k)
    ensures if counted then
              var i := Owner(totals, key).value;
              i < |totals| && more == totals[i := totals[i].(bytes := Plus(totals[i].bytes, Delta(Get(seen, key), cur)))]
            else more == totals
  {
    var d := Delta(Get(seen, key), cur);
    now, more, counted := seen[key := cur], totals, false;
    if d == NONE {
      return;
    }
    var owner := Owner(totals, key);
    OwnerIndex(totals, key);
    if owner.Some? && saved {
      var i := owner.value;
      more := totals[i := totals[i].(bytes := Plus(totals[i].bytes, d))];
      counted := true;
      forall k
        ensures Owner(more, k) == Owner(totals, k)
      {
        OwnerKept(totals, i, Plus(totals[i].bytes, d), k);
      }
    }
  }

  ghost function CountedKeys(users: seq<UserTraffic>, before: Counters, current: Counters, unsaved: set<string>, left: set<string>): set<string> {
    set k | k in current && k !in left && Counts(users, before, current, unsaved, k)
  }

  ghost predicate AllFolded(users: seq<UserTraffic>, before: Counters, current: Counters, unsaved: set<string>, left: set<string>, totals: seq<UserTraffic>)
    requires left <= current.Keys
  {
    |totals| == |users| && forall i :: 0 <= i < |users| ==> totals[i] == Folded(users, before, current, unsaved, current.Keys - left, i)
  }

  /** FoldAWGTraffic: the keys come in any order and saving a user may fail. Whatever the order,
      every user ends with the same total, the snapshot is the reading, and `updated` counts the
      saved records. */
  method FoldTraffic(users: seq<UserTraffic>, snapshot: Counters, current: Counters, unsaved: set<string>)
    returns (totals: seq<UserTraffic>, seen: Counters, updated: nat)
    ensures AllFolded(users, snapshot, current, unsaved, {}, totals)
    ensures seen == snapshot + current
    ensures updated == |CountedKeys(users, snapshot, current, unsaved, {})|
  {
    totals, seen, updated := users, snapshot, 0;
    var left := current.Keys;
    assert AllFolded(users, snapshot, current, unsaved, left, totals);
    assert CountedKeys(users, snapshot, current, unsaved, left) == {};
    while left != {}
      invariant left <= current.Keys && AllFolded(users, snapshot, current, unsaved, left, totals)
      invariant forall k :: Get(seen, k) == if k in current && k !in left then Some(current[k]) else Get(snapshot, k)
      invariant forall k :: Owner(totals, k) == Owner(users, k)
      invariant updated == |CountedKeys(users, snapshot, current, unsaved, left)|
      decreases left
    {
      var key :| key in left;
      assert Get(seen, key) == Get(snapshot, key);
      ghost var was := totals;
      var counted;
      totals, seen, counted := FoldKey(totals, seen, key, current[key], key !in unsaved);
      CountStep(users, snapshot, current, unsaved, left, key);
      FoldStep(users, snapshot, current, unsaved, left, key, was, totals);
      hide Owner, Folded, AllFolded, Counts, CountedKeys, Delta;
      if counted {
        updated := updated + 1;
      }
      left := left - {key};
    }
    GetExtensional(seen, snapshot + current);
  }

  lemma {:induction false} CountStep(users: seq<UserTraffic>, before: Counters, current: Counters, unsaved: set<string>, left: set<string>, key: string)
    requires key in left && left <= current.Keys
    ensures |CountedKeys(users, before, current, unsaved, left - {key})|
         == |CountedKeys(users, before, current, unsaved, left)|
            + if Delta(Get(before, key), current[key]) != NONE && Owner(users, key).Some? && key !in unsaved then 1 else 0
  {
    var a, b := CountedKeys(users, before, current, unsaved, left), CountedKeys(users, before, current, unsaved, left - {key});
    if Counts(users, before, current, unsaved, key) {
      assert b == a + {key};
    } else {
      assert b == a;
    }
  }

  lemma {:induction false} GetExtensional(a: Counters, b: Counters)
    requires forall k :: Get(a, k) == Get(b, k)
    ensures a == b
  {
    assert forall k :: k in a <==> k in b by {
      forall k ensures k in a <==> k in b {
        assert Get(a, k) == Get(b, k);
      }
    }
    assert forall k :: k in a ==> a[k] == b[k] by {
      forall k | k in a ensures a[k] == b[k] {
        assert Get(a, k) == Get(b, k);
      }
    }
  }

  lemma {:induction false} FoldStep(users: seq<UserTraffic>, before: Counters, current: Counters, unsaved: set<string>, left: set<string>,
                                    key: string, was: seq<UserTraffic>, now: seq<UserTraffic>)
    requires key in left && left <= current.Keys && AllFolded(users, before, current, unsaved, left, was)
    requires var d := Delta(Get(before, key), current[key]);
             if d != NONE && Owner(users, key).Some? && key !in unsaved then
               Owner(users, key).value < |users|
               && now == was[Owner(users, key).value := was[Owner(users, key).value].(bytes := Plus(was[Owner(users, key).value].bytes, d))]
             else now == was
    ensures AllFolded(users, before, current, unsaved, left - {key}, now)
  {
    OwnerIndex(users, key);
    forall i | 0 <= i < |users|
      ensures now[i] == Folded(users, before, current, unsaved, current.Keys - (left - {key}), i)
    {
      var k := users[i].publicKey;
      assert k in current.Keys - (left - {key}) <==> k in current.Keys - left || k == key;
    }
  }

  // ---- One peer over time ----

  /** An interface of a node. */
  datatype Place = Place(node: nat, iface: nat)

  /** What happens to a peer: traffic, an interface restart, a reading of one interface. The
      stored snapshot may be missing when it is read and may fail to be written; a reading that
      finds none and does not list the peer stores one without it; a handler that read the record
      earlier may write an older snapshot back. */
  datatype Event =
    | Transfer(at: Place, bytes: Bytes)
    | Restart(at: Place)
    | Observe(at: Place, found: bool, saved: bool, kept: bool)
    | Forget(at: Place)
    | WriteBack(at: Place, to: Option<Bytes>)

  /** The kernel counter per interface, the stored snapshot per node, the user's folded total and
      the true total. */
  datatype Meter = Meter(counters: map<Place, Bytes>, last: map<nat, Bytes>, folded: Bytes, actual: Bytes)

  const START := Meter(map[], map[], NONE, NONE)

  function Counter(m: Meter, p: Place): Bytes {
    if p in m.counters then m.counters[p] else NONE
  }

  function Last(m: Meter, node: nat): Option<Bytes> {
    if node in m.last then Some(m.last[node]) else None
  }

  /** What a reading adds to the total, if the user is saved. */
  function Growth(m: Meter, p: Place, found: bool): Bytes {
    Delta(if found then Last(m, p.node) else None, Counter(m, p))
  }

  function After(m: Meter, e: Event): Meter {
    match e
    case Transfer(p, b) => m.(counters := m.counters[p := Plus(Counter(m, p), b)], actual := Plus(m.actual, b))
    case Restart(p) => m.(counters := m.counters[p := NONE])
    case Observe(p, found, saved, kept) =>
      m.(last := if kept then m.last[p.node := Counter(m, p)] else m.last,
         folded := if saved then Plus(m.folded, Growth(m, p, found)) else m.folded)
    case Forget(p) => m.(last := m.last - {p.node})
    case WriteBack(p, to) => m.(last := if to.Some? then m.last[p.node := to.value] else m.last - {p.node})
  }

  /** An event as one interface sees it. */
  lemma {:induction false} AfterAt(m: Meter, e: Event, p: Place)
    ensures Counter(After(m, e), p)
         == if e.at != p then Counter(m, p)
            else if e.Transfer? then Plus(Counter(m, p), e.bytes)
            else if e.Restart? then NONE
            else Counter(m, p)
    ensures Last(After(m, e), p.node)
         == if e.Observe? && e.kept && e.at.node == p.node then Some(Counter(m, e.at))
            else if e.Forget? && e.at.node == p.node then None
            else if e.WriteBack? && e.at.node == p.node then e.to
            else Last(m, p.node)
    ensures After(m, e).folded == if e.Observe? && e.saved then Plus(m.folded, Growth(m, e.at, e.found)) else m.folded
    ensures After(m, e).actual == if e.Transfer? then Plus(m.actual, e.bytes) else m.actual
  {
    hide Plus, Growth;
  }

  function RunFrom(m: Meter, es: seq<Event>): Meter {
    if es == [] then m else After(RunFrom(m, es[..|es| - 1]), es[|es| - 1])
  }

  function Run(es: seq<Event>): Meter {
    RunFrom(START, es)
  }

  lemma {:induction false} RunSnoc(m: Meter, es: seq<Event>, e: Event)
    ensures RunFrom(m, es + [e]) == After(RunFrom(m, es), e)
  {
    assert (es + [e])[..|es|] == es;
  }

  lemma {:induction false} RunNone(m: Meter)
    ensures RunFrom(m, []) == m
  {
  }

  // ---- From the collector to the events ----

  /** The outcome of reading one interface: an empty reading is skipped, metrics may be missing,
      users may not be listed, some users and the metrics may not be saved. */
  datatype Reading = Reading(current: Counters, found: bool, listed: bool, unsaved: set<string>, kept: bool)

  /** The same reading as one key sees it. */
  function EventsOf(p: Place, r: Reading, key: string): seq<Event> {
    if r.current == map[] then []
    else if r.listed && key in r.current then [Observe(p, r.found, key !in r.unsaved, r.kept)]
    else if !r.found && r.kept then [Forget(p)]
    else []
  }

  function AllEventsOf(node: nat, rs: seq<Reading>, key: string): seq<Event> {
    if rs == [] then []
    else AllEventsOf(node, rs[..|rs| - 1], key) + EventsOf(Place(node, |rs| - 1), rs[|rs| - 1], key)
  }

  /** The meter of user i: its stored total and its key's entry in the node's snapshot. */
  ghost predicate Mirrors(m: Meter, node: nat, users: seq<UserTraffic>, stored: Counters, i: nat)
    requires i < |users|
  {
    m.folded == users[i].bytes && Last(m, node) == Get(stored, users[i].publicKey)
  }

  ghost predicate CountersRead(m: Meter, p: Place, current: Counters, key: string) {
    key in current ==> current[key] == Counter(m, p)
  }

  /** Users, their keys and their order stay; a key counts for the same user. */
  ghost predicate SameUsers(a: seq<UserTraffic>, b: seq<UserTraffic>) {
    && |a| == |b|
    && (forall i :: 0 <= i < |a| ==> a[i].publicKey == b[i].publicKey && a[i].id == b[i].id)
  }

  lemma {:induction false} OwnerSame(a: seq<UserTraffic>, b: seq<UserTraffic>, key: string)
    requires SameUsers(a, b)
    ensures Owner(a, key) == Owner(b, key)
  {
    if a != [] {
      OwnerSame(a[..|a| - 1], b[..|b| - 1], key);
    }
  }

  /** A fold is what After says about the keys it lists, for every user that owns its key. */
  lemma {:induction false} FoldIsObserve(users: seq<UserTraffic>, before: Counters, current: Counters, unsaved: set<string>, i: nat,
                                         m: Meter, p: Place, found: bool, kept: bool)
    requires i < |users| && Owner(users, users[i].publicKey) == Some(i) && users[i].publicKey in current
    requires m.folded == users[i].bytes && CountersRead(m, p, current, users[i].publicKey)
    requires Get(before, users[i].publicKey) == if found then Last(m, p.node) else None
    ensures var key := users[i].publicKey;
            var m' := After(m, Observe(p, found, key !in unsaved, kept));
            && m'.folded == Folded(users, before, current, unsaved, current.Keys, i).bytes
            && (kept ==> Last(m', p.node) == Get(before + current, key))
            && (!kept ==> Last(m', p.node) == Last(m, p.node))
  {
    hide Owner, Delta;
  }

  /** What one interface leaves in the store. */
  ghost predicate Collected(users: seq<UserTraffic>, stored: Counters, r: Reading, totals: seq<UserTraffic>, now: Counters) {
    var before: Counters := if r.found then stored else map[];
    && (r.current != map[] && r.listed ==> AllFolded(users, before, r.current, r.unsaved, {}, totals))
    && (r.current == map[] || !r.listed ==> totals == users)
    && now == if r.current == map[] || !r.kept then stored else before + if r.listed then r.current else map[]
  }

  /** One interface of CollectAWGTrafficForNode. */
  method CollectInterface(users: seq<UserTraffic>, stored: Counters, r: Reading) returns (totals: seq<UserTraffic>, now: Counters)
    ensures Collected(users, stored, r, totals, now)
  {
    totals, now := users, stored;
    if r.current == map[] {
      return;
    }
    var metrics: Counters := if r.found then stored else map[];
    if r.listed {
      var updated;
      totals, metrics, updated := FoldTraffic(users, metrics, r.current, r.unsaved);
    }
    if r.kept {
      now := metrics;
    }
  }

  lemma {:induction false} InterfaceStep(users: seq<UserTraffic>, stored: Counters, r: Reading, totals: seq<UserTraffic>, now: Counters,
                                         i: nat, m: Meter, p: Place)
    requires Collected(users, stored, r, totals, now) && SameUsers(users, totals)
    requires i < |users| && Owner(users, users[i].publicKey) == Some(i)
    requires Mirrors(m, p.node, users, stored, i) && CountersRead(m, p, r.current, users[i].publicKey)
    ensures Mirrors(RunFrom(m, EventsOf(p, r, users[i].publicKey)), p.node, totals, now, i)
    ensures RunFrom(m, EventsOf(p, r, users[i].publicKey)).counters == m.counters
  {
    var key := users[i].publicKey;
    var before: Counters := if r.found then stored else map[];
    RunNone(m);
    assert r.current.Keys - {} == r.current.Keys;
    if r.current != map[] && r.listed && key in r.current {
      var e := Observe(p, r.found, key !in r.unsaved, r.kept);
      RunSnoc(m, [], e);
      assert [] + [e] == [e];
      FoldIsObserve(users, before, r.current, r.unsaved, i, m, p, r.found, r.kept);
      assert totals[i] == Folded(users, before, r.current, r.unsaved, r.current.Keys, i);
      hide RunFrom, Owner, Delta, Folded, Growth;
    } else if r.current != map[] && !r.found && r.kept {
      RunSnoc(m, [], Forget(p));
      assert [] + [Forget(p)] == [Forget(p)];
      hide RunFrom, Owner, Delta;
    } else {
      hide RunFrom, Owner, Delta;
    }
  }

  lemma {:induction false} CollectedSame(users: seq<UserTraffic>, stored: Counters, r: Reading, totals: seq<UserTraffic>, now: Counters)
    requires Collected(users, stored, r, totals, now)
    ensures SameUsers(users, totals)
  {
    hide Owner, Delta;
  }

  /** Every user that owns its key sees the collection as the events of its key. */
  ghost predicate Mirrored(node: nat, users: seq<UserTraffic>, stored: Counters, rs: seq<Reading>, totals: seq<UserTraffic>, now: Counters) {
    && SameUsers(users, totals)
    && forall i, m: Meter :: 0 <= i < |users| && FollowsKey(m, node, users, stored, rs, i) ==>
         && Mirrors(RunFrom(m, AllEventsOf(node, rs, users[i].publicKey)), node, totals, now, i)
         && RunFrom(m, AllEventsOf(node, rs, users[i].publicKey)).counters == m.counters
  }

  /** The meter of user i before a collection that reads its counters. */
  ghost predicate FollowsKey(m: Meter, node: nat, users: seq<UserTraffic>, stored: Counters, rs: seq<Reading>, i: nat)
    requires i < |users|
  {
    Owner(users, users[i].publicKey) == Some(i) && Mirrors(m, node, users, stored, i) && AllRead(m, node, rs, users[i].publicKey)
  }

  ghost predicate AllRead(m: Meter, node: nat, rs: seq<Reading>, key: string) {
    forall k :: 0 <= k < |rs| ==> CountersRead(m, Place(node, k), rs[k].current, key)
  }

  lemma {:induction false} RunConcat(m: Meter, a: seq<Event>, b: seq<Event>)
    ensures RunFrom(m, a + b) == RunFrom(RunFrom(m, a), b)
  {
    if b == [] {
      assert a + b == a;
    } else {
      assert (a + b)[..|a + b| - 1] == a + b[..|b| - 1];
      RunConcat(m, a, b[..|b| - 1]);
    }
  }

  lemma {:induction false} MirroredStep(node: nat, users: seq<UserTraffic>, stored: Counters, rs: seq<Reading>, mid: seq<UserTraffic>, held: Counters,
                                        r: Reading, totals: seq<UserTraffic>, now: Counters)
    requires Mirrored(node, users, stored, rs, mid, held) && Collected(mid, held, r, totals, now)
    ensures Mirrored(node, users, stored, rs + [r], totals, now)
  {
    CollectedSame(mid, held, r, totals, now);
    var more := rs + [r];
    assert more[..|rs|] == rs && more[|rs|] == r;
    hide Collected, RunFrom, EventsOf, CountersRead, Owner;
    forall i, m: Meter | 0 <= i < |users| && FollowsKey(m, node, users, stored, more, i)
      ensures Mirrors(RunFrom(m, AllEventsOf(node, more, users[i].publicKey)), node, totals, now, i)
      ensures RunFrom(m, AllEventsOf(node, more, users[i].publicKey)).counters == m.counters
    {
      var key := users[i].publicKey;
      forall k | 0 <= k < |rs|
        ensures CountersRead(m, Place(node, k), rs[k].current, key)
      {
        assert more[k] == rs[k];
      }
      OwnerSame(users, mid, key);
      var m' := RunFrom(m, AllEventsOf(node, rs, key));
      assert CountersRead(m, Place(node, |rs|), more[|rs|].current, key);
      CountersAlike(m, m', Place(node, |rs|), r.current, key);
      InterfaceStep(mid, held, r, totals, now, i, m', Place(node, |rs|));
      RunConcat(m, AllEventsOf(node, rs, key), EventsOf(Place(node, |rs|), r, key));
    }
  }

  lemma {:induction false} CountersAlike(m: Meter, n: Meter, p: Place, current: Counters, key: string)
    requires m.counters == n.counters && CountersRead(m, p, current, key)
    ensures CountersRead(n, p, current, key)
  {
  }

  lemma {:induction false} NothingCollected(node: nat, users: seq<UserTraffic>, stored: Counters)
    ensures Mirrored(node, users, stored, [], users, stored)
  {
    hide Owner;
    forall m
      ensures RunFrom(m, []) == m
    {
      RunNone(m);
    }
    hide RunFrom;
  }

  /** CollectAWGTrafficForNode: the interfaces one after the other against one stored snapshot. */
  method CollectTraffic(node: nat, users: seq<UserTraffic>, stored: Counters, rs: seq<Reading>)
    returns (totals: seq<UserTraffic>, now: Counters)
    ensures Mirrored(node, users, stored, rs, totals, now)
  {
    totals, now := users, stored;
    assert rs[..0] == [];
    NothingCollected(node, users, stored);
    for k := 0 to |rs|
      invariant Mirrored(node, users, stored, rs[..k], totals, now)
    {
      hide Mirrored, Collected;
      ghost var mid, held := totals, now;
      totals, now := CollectInterface(totals, now, rs[k]);
      MirroredStep(node, users, stored, rs[..k], mid, held, rs[k], totals, now);
      assert rs[..k + 1] == rs[..k] + [rs[k]];
    }
    assert rs[..|rs|] == rs;
  }

  // ---- Safety over runs ----

  /** Where a key is read, and how the snapshot of a saved reading can get lost: not written, not
      found, or overwritten by an older one. */
  datatype Setting = Setting(places: set<Place>, unkept: bool, unread: bool, stale: bool)

  /** An earlier reading on the node has been added to the user's total. */
  predicate SavedAt(es: seq<Event>, node: nat) {
    es != [] && (SavedAt(es[..|es| - 1], node)
                 || (es[|es| - 1].Observe? && es[|es| - 1].saved && es[|es| - 1].at.node == node))
  }

  predicate Unread(e: Event) {
    e.Forget? || (e.Observe? && !e.found)
  }

  predicate SavedReading(e: Event) {
    e.Observe? && e.saved
  }

  /** The snapshots a node has stored so far, and those it has stored since its last saved reading. */
  function Ever(es: seq<Event>, node: nat): set<Option<Bytes>> {
    if es == [] then {None} else Ever(es[..|es| - 1], node) + {Last(Run(es), node)}
  }

  function Recent(es: seq<Event>, node: nat): set<Option<Bytes>> {
    if es == [] then {None}
    else if SavedReading(es[|es| - 1]) && es[|es| - 1].at.node == node then {Last(Run(es), node)}
    else Recent(es[..|es| - 1], node) + {Last(Run(es), node)}
  }

  predicate AdmitsNext(x: Setting, es: seq<Event>, e: Event) {
    && e.at in x.places
    && (e.WriteBack? ==> e.to in Ever(es, e.at.node) && (e.to in Recent(es, e.at.node) || x.stale))
    && (e.Observe? && e.saved && !e.kept ==> x.unkept)
    && (Unread(e) && SavedAt(es, e.at.node) ==> x.unread)
  }

  /** The runs of a setting: without `unkept` every saved reading is also stored, without `unread`
      the snapshot is found whenever a reading of the node has been saved, without `stale` no
      snapshot from before a saved reading is written back. */
  predicate Admits(x: Setting, es: seq<Event>) {
    es == [] || (Admits(x, es[..|es| - 1]) && AdmitsNext(x, es[..|es| - 1], es[|es| - 1]))
  }

  predicate OneEach(places: set<Place>) {
    forall p, q :: p in places && q in places && p.node == q.node ==> p == q
  }

  /** What is folded plus what a reading would add is covered by real traffic, whether or not
      the interface restarted since the last reading. */
  predicate Covered(m: Meter, p: Place) {
    Covers(Counter(m, p), Last(m, p.node), m.folded, m.actual)
  }

  predicate Covers(k: Bytes, last: Option<Bytes>, folded: Bytes, actual: Bytes) {
    && Below(k, actual) && Below(folded, actual)
    && ((last.Some? && Below(last.value, k) && Below(Plus(folded, k), Plus(actual, last.value)))
        || Below(Plus(folded, k), actual))
  }

  /** Reading a covered counter against its snapshot. */
  lemma {:induction false} CoveredReading(k: Bytes, last: Option<Bytes>, folded: Bytes, actual: Bytes)
    requires Covers(k, last, folded, actual)
    ensures Covers(k, Some(k), Plus(folded, Delta(last, k)), actual) && Covers(k, Some(k), folded, actual)
  {
  }

  lemma {:induction false} CoveredStep(m: Meter, e: Event, p: Place)
    requires Covered(m, p) && e.at == p && !e.WriteBack?
    requires e.Observe? && e.saved ==> e.kept
    requires Unread(e) ==> m.folded == NONE
    ensures Covered(After(m, e), p)
  {
    AfterAt(m, e, p);
    CoveredReading(Counter(m, p), Last(m, p.node), m.folded, m.actual);
    hide After, Counter, Last;
    if Unread(e) {
      assert Covers(Counter(m, p), None, NONE, m.actual);
      CoveredReading(Counter(m, p), None, NONE, m.actual);
    }
    if e.Observe? {
      hide Covers, Delta, Plus;
    }
  }

  lemma {:induction false} NothingFolded(es: seq<Event>, node: nat)
    requires !SavedAt(es, node) && forall i :: 0 <= i < |es| ==> es[i].at.node == node
    ensures Run(es).folded == NONE
  {
    if es != [] {
      NothingFolded(es[..|es| - 1], node);
      hide Growth;
    }
  }

  lemma {:induction false} AdmittedAt(x: Setting, es: seq<Event>)
    requires Admits(x, es)
    ensures forall i :: 0 <= i < |es| ==> es[i].at in x.places
  {
    if es != [] {
      AdmittedAt(x, es[..|es| - 1]);
      hide Run, Ever, Recent, SavedAt, RunFrom;
      assert forall i :: 0 <= i < |es| - 1 ==> es[i] == es[..|es| - 1][i];
    }
  }

  /** What can be written back is covered as well. */
  ghost predicate RecentCovered(es: seq<Event>, p: Place) {
    forall to :: to in Recent(es, p.node) ==> Covers(Counter(Run(es), p), to, Run(es).folded, Run(es).actual)
  }

  lemma {:induction false} RecentSnoc(es: seq<Event>, e: Event, node: nat)
    ensures Recent(es + [e], node)
         == (if SavedReading(e) && e.at.node == node then {} else Recent(es, node)) + {Last(Run(es + [e]), node)}
  {
    assert (es + [e])[..|es|] == es;
    hide Run, Last;
  }

  lemma {:induction false} EverSnoc(es: seq<Event>, e: Event, node: nat)
    ensures Ever(es + [e], node) == Ever(es, node) + {Last(Run(es + [e]), node)}
  {
    assert (es + [e])[..|es|] == es;
    hide Run, Last;
  }

  lemma {:induction false} LastIsRecent(es: seq<Event>, node: nat)
    ensures Last(Run(es), node) in Recent(es, node)
  {
    RunNone(START);
    hide RunFrom;
  }

  /** A snapshot that stays where it is remains covered while nothing is folded. */
  lemma {:induction false} CoversMoves(k: Bytes, to: Option<Bytes>, folded: Bytes, actual: Bytes, b: Bytes)
    requires Covers(k, to, folded, actual)
    ensures Covers(Plus(k, b), to, folded, Plus(actual, b)) && Covers(NONE, to, folded, actual)
  {
  }

  lemma {:induction false} OldCovered(m: Meter, e: Event, p: Place, to: Option<Bytes>)
    requires e.at == p && !SavedReading(e) && Covers(Counter(m, p), to, m.folded, m.actual)
    ensures Covers(Counter(After(m, e), p), to, After(m, e).folded, After(m, e).actual)
  {
    AfterAt(m, e, p);
    CoversMoves(Counter(m, p), to, m.folded, m.actual, if e.Transfer? then e.bytes else NONE);
    hide After, Counter, Last, Covers, Plus;
  }

  lemma {:induction false} NewCovered(m: Meter, e: Event, p: Place)
    requires e.at == p && Covered(m, p)
    requires e.Observe? && e.saved ==> e.kept
    requires Unread(e) ==> m.folded == NONE
    requires e.WriteBack? ==> Covers(Counter(m, p), e.to, m.folded, m.actual)
    ensures Covers(Counter(After(m, e), p), Last(After(m, e), p.node), After(m, e).folded, After(m, e).actual)
  {
    if e.WriteBack? {
      AfterAt(m, e, p);
      hide After, Counter, Last, Covers;
    } else {
      CoveredStep(m, e, p);
      hide After, Counter, Last, Covers;
    }
  }

  /** On one interface of one node nothing is counted twice. */
  lemma {:induction false} OnePlaceCovered(x: Setting, es: seq<Event>, p: Place)
    requires Admits(x, es) && !x.unkept && !x.unread && !x.stale && x.places == {p}
    ensures RecentCovered(es, p) && Covered(Run(es), p)
  {
    LastIsRecent(es, p.node);
    if es == [] {
      RunNone(START);
      hide RunFrom;
    } else {
      var front, e := es[..|es| - 1], es[|es| - 1];
      OnePlaceCovered(x, front, p);
      AdmittedAt(x, es);
      if !SavedAt(front, p.node) {
        NothingFolded(front, p.node);
      }
      assert es == front + [e];
      assert AdmitsNext(x, front, e);
      hide RunFrom, Run, After, SavedAt, Covers, Counter, Last, Recent, Ever, Admits;
      OnePlaceStep(front, e, p);
    }
  }

  lemma {:induction false} OnePlaceStep(front: seq<Event>, e: Event, p: Place)
    requires RecentCovered(front, p) && Covered(Run(front), p) && e.at == p
    requires e.Observe? && e.saved ==> e.kept
    requires Unread(e) ==> Run(front).folded == NONE
    requires e.WriteBack? ==> e.to in Recent(front, p.node)
    ensures RecentCovered(front + [e], p) && Covered(Run(front + [e]), p)
  {
    RunSnoc(START, front, e);
    RecentSnoc(front, e, p.node);
    hide RunFrom, After, Covers, Counter, Last, Recent;
    NewCovered(Run(front), e, p);
    forall to | to in Recent(front + [e], p.node)
      ensures Covers(Counter(Run(front + [e]), p), to, Run(front + [e]).folded, Run(front + [e]).actual)
    {
      if to != Last(Run(front + [e]), p.node) {
        OldCovered(Run(front), e, p, to);
      }
    }
  }

  // ---- Several nodes ----

  /** The events at a node, or everywhere else. */
  function Part(es: seq<Event>, node: nat, there: bool): seq<Event> {
    if es == [] then []
    else Part(es[..|es| - 1], node, there) + if (es[|es| - 1].at.node == node) == there then [es[|es| - 1]] else []
  }

  predicate Sums(total: Bytes, a: Bytes, b: Bytes) {
    total.rx == a.rx + b.rx && total.tx == a.tx + b.tx
  }

  /** Nodes do not see each other: the totals of the two parts add up. */
  ghost predicate Splits(m: Meter, here: Meter, away: Meter, node: nat) {
    && Sums(m.folded, here.folded, away.folded) && Sums(m.actual, here.actual, away.actual)
    && (forall p: Place :: Counter(m, p) == Counter(if p.node == node then here else away, p))
    && (forall n :: Last(m, n) == Last(if n == node then here else away, n))
  }

  lemma {:induction false} SplitStep(m: Meter, here: Meter, away: Meter, node: nat, e: Event)
    requires Splits(m, here, away, node)
    ensures if e.at.node == node then Splits(After(m, e), After(here, e), away, node) else Splits(After(m, e), here, After(away, e), node)
  {
    var side := if e.at.node == node then here else away;
    assert Counter(m, e.at) == Counter(side, e.at) && Last(m, e.at.node) == Last(side, e.at.node);
    forall p: Place
      ensures Counter(After(m, e), p) == Counter(if p.node == e.at.node then After(side, e) else if p.node == node then here else away, p)
    {
      AfterAt(m, e, p);
      AfterAt(side, e, p);
      hide Plus, Growth, After, Counter, Last;
    }
    forall n: nat
      ensures Last(After(m, e), n) == Last(if n == e.at.node then After(side, e) else if n == node then here else away, n)
    {
      AfterAt(m, e, Place(n, 0));
      AfterAt(side, e, Place(n, 0));
      hide Plus, Growth, After, Counter, Last;
    }
    SplitTotals(m, here, away, side, e);
    hide Growth, After, Counter, Last;
  }

  lemma {:induction false} SplitTotals(m: Meter, here: Meter, away: Meter, side: Meter, e: Event)
    requires Sums(m.folded, here.folded, away.folded) && Sums(m.actual, here.actual, away.actual)
    requires side == here || side == away
    requires Counter(m, e.at) == Counter(side, e.at) && Last(m, e.at.node) == Last(side, e.at.node)
    ensures side == here ==> Sums(After(m, e).folded, After(here, e).folded, away.folded) && Sums(After(m, e).actual, After(here, e).actual, away.actual)
    ensures side == away ==> Sums(After(m, e).folded, here.folded, After(away, e).folded) && Sums(After(m, e).actual, here.actual, After(away, e).actual)
  {
    AfterAt(m, e, e.at);
    AfterAt(side, e, e.at);
    assert e.Observe? ==> Growth(m, e.at, e.found) == Growth(side, e.at, e.found);
    hide Growth, After, Counter, Last;
  }

  lemma {:induction false} PartSnoc(es: seq<Event>, e: Event, node: nat, there: bool)
    ensures Part(es + [e], node, there) == if (e.at.node == node) == there then Part(es, node, there) + [e] else Part(es, node, there)
  {
    assert (es + [e])[..|es|] == es;
    assert Part(es, node, there) + [] == Part(es, node, there);
  }

  lemma {:induction false} SplitRun(es: seq<Event>, node: nat)
    ensures Splits(Run(es), Run(Part(es, node, true)), Run(Part(es, node, false)), node)
  {
    if es == [] {
      NoEventsSplit(es, node);
    } else {
      var front, e := es[..|es| - 1], es[|es| - 1];
      SplitRun(front, node);
      assert es == front + [e];
      hide *;
      SplitNext(front, e, node);
    }
  }

  predicate Nothing(b: Bytes) {
    b.rx == 0 && b.tx == 0
  }

  lemma {:induction false} NothingSums(total: Bytes, a: Bytes, b: Bytes)
    requires Nothing(total) && Nothing(a) && Nothing(b)
    ensures Sums(total, a, b)
  {
  }

  lemma {:induction false} SameCounters(m: Meter, n: Meter)
    requires m.counters == n.counters && m.last == n.last
    ensures forall p: Place :: Counter(m, p) == Counter(n, p)
    ensures forall n': nat :: Last(m, n') == Last(n, n')
  {
  }

  lemma {:induction false} ZeroSplits(m: Meter, here: Meter, away: Meter, node: nat)
    requires Nothing(m.folded) && Nothing(here.folded) && Nothing(away.folded)
    requires Nothing(m.actual) && Nothing(here.actual) && Nothing(away.actual)
    requires m.counters == here.counters == away.counters && m.last == here.last == away.last
    ensures Splits(m, here, away, node)
  {
    hide Nothing, Sums, Counter, Last;
    NothingSums(m.folded, here.folded, away.folded);
    NothingSums(m.actual, here.actual, away.actual);
    SameCounters(m, here);
    SameCounters(m, away);
  }

  lemma {:induction false} NoEventsSplit(es: seq<Event>, node: nat)
    requires es == []
    ensures Splits(Run(es), Run(Part(es, node, true)), Run(Part(es, node, false)), node)
  {
    hide After, Splits;
    ZeroSplits(Run(es), Run(Part(es, node, true)), Run(Part(es, node, false)), node);
  }

  lemma {:induction false} SplitNext(front: seq<Event>, e: Event, node: nat)
    requires Splits(Run(front), Run(Part(front, node, true)), Run(Part(front, node, false)), node)
    ensures Splits(Run(front + [e]), Run(Part(front + [e], node, true)), Run(Part(front + [e], node, false)), node)
  {
    RunSnoc(START, front, e);
    RunSnoc(START, Part(front, node, e.at.node == node), e);
    PartSnoc(front, e, node, true);
    PartSnoc(front, e, node, false);
    hide RunFrom, After, Splits, Part;
    SplitStep(Run(front), Run(Part(front, node, true)), Run(Part(front, node, false)), node, e);
  }

  lemma {:induction false} SavedInPart(es: seq<Event>, node: nat, there: bool, n: nat)
    requires (n == node) == there
    ensures SavedAt(Part(es, node, there), n) == SavedAt(es, n)
  {
    if es != [] {
      var front, e := es[..|es| - 1], es[|es| - 1];
      SavedInPart(front, node, there, n);
      assert (Part(front, node, there) + [e])[..|Part(front, node, there)|] == Part(front, node, there);
      assert Part(front, node, there) + [] == Part(front, node, there);
    }
  }

  /** Each part stores the snapshots of its nodes. */
  lemma {:induction false} SnapshotsInPart(es: seq<Event>, node: nat, there: bool, n: nat)
    requires (n == node) == there
    ensures Ever(Part(es, node, there), n) == Ever(es, n) && Recent(Part(es, node, there), n) == Recent(es, n)
  {
    if es != [] {
      var front, e := es[..|es| - 1], es[|es| - 1];
      SnapshotsInPart(front, node, there, n);
      assert es == front + [e];
      LastInPart(es, node, there, n);
      LastInPart(front, node, there, n);
      hide Part, Run, Last, Recent, Ever;
      SnapshotsStep(front, e, node, there, n);
    }
  }

  lemma {:induction false} LastInPart(es: seq<Event>, node: nat, there: bool, n: nat)
    requires (n == node) == there
    ensures Last(Run(Part(es, node, there)), n) == Last(Run(es), n)
  {
    SplitRun(es, node);
    hide Part, Run, Last, Counter, Sums;
  }

  lemma {:induction false} SnapshotsStep(front: seq<Event>, e: Event, node: nat, there: bool, n: nat)
    requires (n == node) == there
    requires Ever(Part(front, node, there), n) == Ever(front, n) && Recent(Part(front, node, there), n) == Recent(front, n)
    requires Last(Run(Part(front + [e], node, there)), n) == Last(Run(front + [e]), n)
    requires Last(Run(Part(front, node, there)), n) == Last(Run(front), n)
    ensures Ever(Part(front + [e], node, there), n) == Ever(front + [e], n)
    ensures Recent(Part(front + [e], node, there), n) == Recent(front + [e], n)
  {
    PartSnoc(front, e, node, there);
    EverSnoc(front, e, n);
    RecentSnoc(front, e, n);
    LastIsRecent(front, n);
    LastIsEver(front, n);
    if (e.at.node == node) == there {
      EverSnoc(Part(front, node, there), e, n);
      RecentSnoc(Part(front, node, there), e, n);
    }
    hide Part, Run, Last, Recent, Ever;
  }

  lemma {:induction false} LastIsEver(es: seq<Event>, node: nat)
    ensures Last(Run(es), node) in Ever(es, node) && None in Ever(es, node)
  {
    if es == [] {
      RunNone(START);
      hide RunFrom;
    } else {
      LastIsEver(es[..|es| - 1], node);
      hide RunFrom;
    }
  }

  function Of(x: Setting, node: nat, there: bool): Setting {
    x.(places := set p | p in x.places && (p.node == node) == there)
  }

  lemma {:induction false} PartAdmitted(x: Setting, es: seq<Event>, node: nat, there: bool)
    requires Admits(x, es)
    ensures Admits(Of(x, node, there), Part(es, node, there))
  {
    if es != [] {
      var front, e := es[..|es| - 1], es[|es| - 1];
      PartAdmitted(x, front, node, there);
      var part := Part(front, node, there);
      if (e.at.node == node) == there {
        SavedInPart(front, node, there, e.at.node);
        SnapshotsInPart(front, node, there, e.at.node);
        assert (part + [e])[..|part|] == part;
        hide Ever, Recent, SavedAt;
        assert AdmitsNext(Of(x, node, there), part, e);
      } else {
        assert part + [] == part;
      }
    }
  }

  lemma {:induction false} NoPlaces(x: Setting, es: seq<Event>)
    requires Admits(x, es) && x.places == {}
    ensures es == []
  {
  }

  /** With one interface per node and no snapshot lost after a saved reading, a user's total never
      exceeds the bytes really transferred, over all nodes and with restarts at any time. */
  lemma {:induction false} NeverOvercounts(x: Setting, es: seq<Event>)
    requires Admits(x, es) && OneEach(x.places) && !x.unkept && !x.unread && !x.stale
    ensures Below(Run(es).folded, Run(es).actual)
    decreases |x.places|
  {
    if x.places == {} {
      NoPlaces(x, es);
    } else {
      var p :| p in x.places;
      assert Of(x, p.node, true).places == {p};
      assert x.places == Of(x, p.node, false).places + {p};
      PartAdmitted(x, es, p.node, true);
      PartAdmitted(x, es, p.node, false);
      hide RunFrom, Admits, Part, Splits, Covered;
      OnePlaceCovered(Of(x, p.node, true), Part(es, p.node, true), p);
      CoveredBelow(Run(Part(es, p.node, true)), p);
      NeverOvercounts(Of(x, p.node, false), Part(es, p.node, false));
      SplitBelow(es, p.node);
    }
  }

  lemma {:induction false} CoveredBelow(m: Meter, p: Place)
    requires Covered(m, p)
    ensures Below(m.folded, m.actual)
  {
  }

  lemma {:induction false} SplitBelow(es: seq<Event>, node: nat)
    requires Below(Run(Part(es, node, true)).folded, Run(Part(es, node, true)).actual)
    requires Below(Run(Part(es, node, false)).folded, Run(Part(es, node, false)).actual)
    ensures Below(Run(es).folded, Run(es).actual)
  {
    SplitRun(es, node);
    hide RunFrom, Part, Counter, Last;
  }

  /** Totals never decrease, whatever happens next. */
  lemma {:induction false} NeverDecreases(m: Meter, more: seq<Event>)
    ensures Below(m.folded, RunFrom(m, more).folded)
  {
    if more != [] {
      NeverDecreases(m, more[..|more| - 1]);
      hide Growth;
    }
  }

  // ---- Exact totals ----

  /** Nothing is lost: no restart, every reading finds its snapshot, is saved and stored. */
  predicate Lossless(es: seq<Event>) {
    forall i :: 0 <= i < |es| ==> es[i].Transfer? || (es[i].Observe? && es[i].found && es[i].saved && es[i].kept)
  }

  /** The interface was read after its last traffic. */
  predicate ReadOut(es: seq<Event>, p: Place) {
    es == [] || (if es[|es| - 1].at == p then es[|es| - 1].Observe? else ReadOut(es[..|es| - 1], p))
  }

  predicate Exact(m: Meter, p: Place) {
    && Counter(m, p) == m.actual
    && m.folded == (if Last(m, p.node).Some? then Last(m, p.node).value else NONE)
    && Below(m.folded, m.actual)
  }

  lemma {:induction false} ExactStep(m: Meter, e: Event, p: Place)
    requires Exact(m, p) && e.at == p && (e.Transfer? || (e.Observe? && e.found && e.saved && e.kept))
    ensures Exact(After(m, e), p)
    ensures e.Observe? ==> After(m, e).folded == m.actual
  {
    AfterAt(m, e, p);
    if e.Observe? {
      DeltaAdds(Last(m, p.node), Counter(m, p));
      hide Delta, Plus, After, Counter, Last;
    } else {
      hide Delta, After, Counter, Last;
    }
  }

  lemma {:induction false} DeltaAdds(last: Option<Bytes>, k: Bytes)
    requires last.Some? ==> Below(last.value, k)
    ensures Plus(if last.Some? then last.value else NONE, Delta(last, k)) == k
  {
  }

  lemma {:induction false} Telescopes(es: seq<Event>, p: Place)
    requires Lossless(es) && forall i :: 0 <= i < |es| ==> es[i].at == p
    ensures Exact(Run(es), p) && (ReadOut(es, p) ==> Run(es).folded == Run(es).actual)
  {
    if es != [] {
      var front, e := es[..|es| - 1], es[|es| - 1];
      Telescopes(front, p);
      assert es == front + [e];
      RunSnoc(START, front, e);
      hide RunFrom, After, Exact;
      ExactStep(Run(front), e, p);
      ReadingKeepsActual(Run(front), e);
    }
  }

  lemma {:induction false} ReadingKeepsActual(m: Meter, e: Event)
    ensures e.Observe? ==> After(m, e).actual == m.actual
  {
    hide Growth;
  }

  lemma {:induction false} PartFacts(es: seq<Event>, node: nat, there: bool, places: set<Place>, p: Place)
    requires Lossless(es) && forall i :: 0 <= i < |es| ==> es[i].at in places
    ensures Lossless(Part(es, node, there))
    ensures forall i :: 0 <= i < |Part(es, node, there)| ==>
              Part(es, node, there)[i].at in places && (Part(es, node, there)[i].at.node == node) == there
    ensures (p.node == node) == there ==> ReadOut(Part(es, node, there), p) == ReadOut(es, p)
  {
    if es != [] {
      var front, e := es[..|es| - 1], es[|es| - 1];
      PartFacts(front, node, there, places, p);
      var part := Part(front, node, there);
      assert (part + [e])[..|part|] == part && part + [] == part;
    }
  }

  lemma {:induction false} FirstPlace(places: set<Place>, es: seq<Event>)
    requires forall i :: 0 <= i < |es| ==> es[i].at in places
    ensures es != [] ==> es[0].at in places
  {
  }

  lemma {:induction false} SplitExact(es: seq<Event>, node: nat)
    requires Run(Part(es, node, true)).folded == Run(Part(es, node, true)).actual
    requires Run(Part(es, node, false)).folded == Run(Part(es, node, false)).actual
    ensures Run(es).folded == Run(es).actual
  {
    SplitRun(es, node);
    hide RunFrom, Part, Counter, Last, Plus;
  }

  /** With one interface per node, no restart and no loss, the total is exactly the bytes
      transferred once every interface has been read. */
  lemma {:induction false} ExactAfterReading(places: set<Place>, es: seq<Event>)
    requires OneEach(places) && Lossless(es) && forall i :: 0 <= i < |es| ==> es[i].at in places
    requires forall p :: p in places ==> ReadOut(es, p)
    ensures Run(es).folded == Run(es).actual
    decreases |places|
  {
    if places == {} {
      FirstPlace(places, es);
    } else {
      var p :| p in places;
      var rest := set q | q in places && q.node != p.node;
      PartFacts(es, p.node, true, places, p);
      forall q | q in places
        ensures q.node != p.node ==> ReadOut(Part(es, p.node, false), q)
      {
        PartFacts(es, p.node, false, places, q);
      }
      PartFacts(es, p.node, false, places, p);
      assert places == rest + {p};
      hide RunFrom, Part, ReadOut;
      Telescopes(Part(es, p.node, true), p);
      ExactAfterReading(rest, Part(es, p.node, false));
      SplitExact(es, p.node);
    }
  }

  // ---- What over-counts ----

  ghost predicate Safe(x: Setting) {
    forall es :: Admits(x, es) ==> Below(Run(es).folded, Run(es).actual)
  }

  lemma {:induction false} AdmitsSnoc(x: Setting, es: seq<Event>, e: Event)
    requires Admits(x, es) && AdmitsNext(x, es, e)
    ensures Admits(x, es + [e])
  {
    assert (es + [e])[..|es|] == es;
  }

  /** What an interface shows: its counter, the node's snapshot and the totals. */
  ghost predicate Shows(m: Meter, p: Place, k: nat, last: Option<nat>, folded: nat, actual: nat) {
    && Counter(m, p) == Bytes(k, 0) && m.folded == Bytes(folded, 0) && m.actual == Bytes(actual, 0)
    && Last(m, p.node) == if last.Some? then Some(Bytes(last.value, 0)) else None
  }

  lemma {:induction false} TransferShows(m: Meter, p: Place, q: Place, b: nat, k: nat, l: nat, actual: nat)
    requires Shows(m, p, k, None, 0, actual) && Shows(m, q, l, None, 0, actual)
    ensures var n := After(m, Transfer(p, Bytes(b, 0)));
            Shows(n, p, k + b, None, 0, actual + b) && (q != p ==> Shows(n, q, l, None, 0, actual + b))
  {
    AfterAt(m, Transfer(p, Bytes(b, 0)), p);
    AfterAt(m, Transfer(p, Bytes(b, 0)), q);
    hide After, Counter, Last;
  }

  lemma {:induction false} ObserveShows(m: Meter, p: Place, q: Place, found: bool, kept: bool, k: nat, l: nat, last: Option<nat>, folded: nat, actual: nat)
    requires Shows(m, p, k, last, folded, actual) && Shows(m, q, l, last, folded, actual) && q.node == p.node
    ensures var n := After(m, Observe(p, found, true, kept));
            var more := folded + if found && last.Some? && last.value <= k then k - last.value else k;
            var now := if kept then Some(k) else last;
            Shows(n, p, k, now, more, actual) && Shows(n, q, l, now, more, actual)
  {
    AfterAt(m, Observe(p, found, true, kept), p);
    AfterAt(m, Observe(p, found, true, kept), q);
    hide After, Counter, Last;
  }

  /** Two interfaces of a node read against its one snapshot: ten and five bytes become twenty. */
  lemma {:induction false} TwoInterfacesOvercount(x: Setting, a: Place, b: Place)
    requires a in x.places && b in x.places && a != b && a.node == b.node
    ensures !Safe(x)
  {
    hide RunFrom, Run, Admits, SavedAt, After, Shows, Safe, Plus, Below, Growth, Delta, Counter, Last;
    var es, m := NoEvents(x, a, b);
    TransferShows(m, a, b, 10, 0, 0, 0);
    es, m := Extend(x, es, m, Transfer(a, Bytes(10, 0)));
    TransferShows(m, b, a, 5, 0, 10, 10);
    es, m := Extend(x, es, m, Transfer(b, Bytes(5, 0)));
    ObserveShows(m, a, b, true, true, 10, 5, None, 0, 15);
    es, m := Extend(x, es, m, Observe(a, true, true, true));
    ObserveShows(m, b, a, true, true, 5, 10, Some(10), 10, 15);
    es, m := Extend(x, es, m, Observe(b, true, true, true));
    ObserveShows(m, a, b, true, true, 10, 5, Some(5), 15, 15);
    es, m := Extend(x, es, m, Observe(a, true, true, true));
    TooMuch(x, es, m, a, 10, Some(10), 20, 15);
  }

  lemma {:induction false} TooMuch(x: Setting, es: seq<Event>, m: Meter, p: Place, k: nat, last: Option<nat>, folded: nat, actual: nat)
    requires Admits(x, es) && m == Run(es) && Shows(m, p, k, last, folded, actual) && folded > actual
    ensures !Safe(x)
  {
    hide RunFrom, Admits;
    assert !Below(Run(es).folded, Run(es).actual);
  }

  /** A reading whose user was saved and whose snapshot was not is counted again. */
  lemma {:induction false} UnkeptOvercounts(x: Setting, p: Place)
    requires p in x.places && x.unkept
    ensures !Safe(x)
  {
    hide RunFrom, Run, Admits, SavedAt, After, Shows, Safe, Plus, Below, Growth, Delta, Counter, Last;
    var es, m := NoEvents(x, p, p);
    TransferShows(m, p, p, 10, 0, 0, 0);
    es, m := Extend(x, es, m, Transfer(p, Bytes(10, 0)));
    ObserveShows(m, p, p, true, false, 10, 10, None, 0, 10);
    es, m := Extend(x, es, m, Observe(p, true, true, false));
    ObserveShows(m, p, p, true, true, 10, 10, None, 10, 10);
    es, m := Extend(x, es, m, Observe(p, true, true, true));
    TooMuch(x, es, m, p, 10, Some(10), 20, 10);
  }

  /** So is a reading whose snapshot cannot be found the next time. */
  lemma {:induction false} UnreadOvercounts(x: Setting, p: Place)
    requires p in x.places && x.unread
    ensures !Safe(x)
  {
    hide RunFrom, Run, Admits, SavedAt, After, Shows, Safe, Plus, Below, Growth, Delta, Counter, Last;
    var es, m := NoEvents(x, p, p);
    TransferShows(m, p, p, 10, 0, 0, 0);
    es, m := Extend(x, es, m, Transfer(p, Bytes(10, 0)));
    ObserveShows(m, p, p, true, true, 10, 10, None, 0, 10);
    es, m := Extend(x, es, m, Observe(p, true, true, true));
    ObserveShows(m, p, p, false, true, 10, 10, Some(10), 10, 10);
    es, m := Extend(x, es, m, Observe(p, false, true, true));
    TooMuch(x, es, m, p, 10, Some(10), 20, 10);
  }

  lemma {:induction false} WriteBackShows(m: Meter, p: Place, k: nat, last: Option<nat>, folded: nat, actual: nat)
    requires Shows(m, p, k, last, folded, actual)
    ensures Shows(After(m, WriteBack(p, None)), p, k, None, folded, actual)
  {
    AfterAt(m, WriteBack(p, None), p);
    hide After, Counter, Last;
  }

  /** So is a reading whose snapshot a slow handler overwrites with the one it had read before. */
  lemma {:induction false} StaleOvercounts(x: Setting, p: Place)
    requires p in x.places && x.stale
    ensures !Safe(x)
  {
    hide RunFrom, Run, Admits, SavedAt, After, Shows, Safe, Plus, Below, Growth, Delta, Counter, Last, Ever, Recent;
    var es, m := NoEvents(x, p, p);
    TransferShows(m, p, p, 10, 0, 0, 0);
    es, m := Extend(x, es, m, Transfer(p, Bytes(10, 0)));
    ObserveShows(m, p, p, true, true, 10, 10, None, 0, 10);
    es, m := Extend(x, es, m, Observe(p, true, true, true));
    WriteBackShows(m, p, 10, Some(10), 10, 10);
    LastIsEver(es, p.node);
    es, m := Extend(x, es, m, WriteBack(p, None));
    ObserveShows(m, p, p, true, true, 10, 10, None, 10, 10);
    es, m := Extend(x, es, m, Observe(p, true, true, true));
    TooMuch(x, es, m, p, 10, Some(10), 20, 10);
  }

  lemma {:induction false} NoEvents(x: Setting, p: Place, q: Place) returns (es: seq<Event>, m: Meter)
    ensures Admits(x, es) && m == Run(es) && Shows(m, p, 0, None, 0, 0) && Shows(m, q, 0, None, 0, 0)
  {
    es, m := [], START;
    RunNone(m);
    hide RunFrom;
  }

  lemma {:induction false} Extend(x: Setting, es: seq<Event>, m: Meter, e: Event) returns (more: seq<Event>, next: Meter)
    requires Admits(x, es) && m == Run(es) && AdmitsNext(x, es, e)
    ensures more == es + [e] && Admits(x, more) && next == After(m, e) == Run(more)
  {
    more, next := es + [e], After(m, e);
    AdmitsSnoc(x, es, e);
    RunSnoc(START, es, e);
  }

  /** No run of a setting over-counts exactly when the key is read on at most one interface per
      node and no snapshot is lost after a saved reading: not unwritten, not unread, and not
      overwritten by an older one. */
  lemma {:induction false} SafeIff(x: Setting)
    ensures Safe(x) <==> x.places == {} || (OneEach(x.places) && !x.unkept && !x.unread && !x.stale)
  {
    hide RunFrom, Admits, Below;
    if x.places == {} {
      forall es | Admits(x, es)
        ensures Below(Run(es).folded, Run(es).actual)
      {
        NothingHappens(x, es);
      }
    } else if x.unkept || x.unread || x.stale {
      var p :| p in x.places;
      if x.unkept {
        UnkeptOvercounts(x, p);
      } else if x.unread {
        UnreadOvercounts(x, p);
      } else {
        StaleOvercounts(x, p);
      }
    } else if OneEach(x.places) {
      forall es | Admits(x, es)
        ensures Below(Run(es).folded, Run(es).actual)
      {
        NeverOvercounts(x, es);
      }
    } else {
      var a, b :| a in x.places && b in x.places && a.node == b.node && a != b;
      TwoInterfacesOvercount(x, a, b);
    }
  }

  lemma {:induction false} NothingHappens(x: Setting, es: seq<Event>)
    requires Admits(x, es) && x.places == {}
    ensures Below(Run(es).folded, Run(es).actual)
  {
    NoPlaces(x, es);
  }
}
