/** The kernel's peer table of one AWG interface, how a restart fills it from a conf and how
    the live sync of awg_peersync.go edits it; the sync is proved to refine the restart. */
module PeerTable {
  import opened Text
  import opened AwgConf

  /** Public key to allowed IPs. */
  type Table = map<string, set<string>>

  datatype Entry = Entry(key: string, ips: set<string>)

  /** The kernel's own rule: an allowed IP belongs to one peer. */
  ghost predicate OneOwner(t: Table) {
    forall j, k :: j in t && k in t && j != k ==> t[j] !! t[k]
  }

  /** awg set <iface> peer <key> allowed-ips <ips>: the key gets exactly these IPs and every
      other peer loses them. */
  function SetPeer(t: Table, e: Entry): (t': Table)
    ensures t'.Keys == t.Keys + {e.key}
    ensures OneOwner(t) ==> OneOwner(t')
  {
    (map k | k in t :: t[k] - e.ips)[e.key := e.ips]
  }

  function Apply(t: Table, entries: seq<Entry>): (t': Table)
    ensures OneOwner(t) ==> OneOwner(t')
  {
    if entries == [] then t
    else SetPeer(Apply(t, entries[..|entries| - 1]), entries[|entries| - 1])
  }

  function AllowedSet(allowed: string): set<string> {
    var parts := Split(allowed, ',');
    set i | 0 <= i < |parts| && Trim(parts[i]) != "" :: Trim(parts[i])
  }

  /** What the sync asserts for a peer without AllowedIPs. */
  const EVERYWHERE: set<string> := {"0.0.0.0/0", "::/0"}

  /** The credentialed peers in order; `blank` is what a missing AllowedIPs stands for. */
  function Entries(peers: seq<Peer>, blank: set<string>): seq<Entry> {
    if peers == [] then []
    else
      var p := peers[|peers| - 1];
      Entries(peers[..|peers| - 1], blank)
      + (if p.publicKey == "" then []
         else [Entry(p.publicKey, if p.allowedIPs == "" then blank else AllowedSet(p.allowedIPs))])
  }

  /** The table a restart loads: an empty interface, then the conf's peers in order. */
  function Load(peers: seq<Peer>): Table {
    Apply(map[], Entries(peers, {}))
  }

  function LoadConf(content: string): Table {
    Load(ParseConf(content).1)
  }

  function Keys(entries: seq<Entry>): set<string> {
    set i | 0 <= i < |entries| :: entries[i].key
  }

  function Restrict(t: Table, keep: set<string>): Table {
    map k | k in t && k in keep :: t[k]
  }

  /** The table after the sync: every desired peer asserted over the live table in order, then
      every live peer that is not desired removed. */
  function Synced(live: Table, peers: seq<Peer>): Table {
    var es := Entries(peers, EVERYWHERE);
    Restrict(Apply(live, es), Keys(es))
  }

  lemma {:induction false} KeysSnoc(entries: seq<Entry>)
    requires entries != []
    ensures Keys(entries) == Keys(entries[..|entries| - 1]) + {entries[|entries| - 1].key}
  {
    var n := |entries| - 1;
    forall k | k in Keys(entries)
      ensures k in Keys(entries[..n]) + {entries[n].key}
    {
      var i :| 0 <= i < |entries| && entries[i].key == k;
      if i < n {
        assert entries[..n][i].key == k;
      }
    }
    forall k | k in Keys(entries[..n])
      ensures k in Keys(entries)
    {
      var i :| 0 <= i < n && entries[..n][i].key == k;
      assert entries[i].key == k;
    }
  }

  /** Whatever was live before, the asserted part of the table is the table built from nothing. */
  lemma {:induction false} AssertedIsFresh(live: Table, entries: seq<Entry>)
    ensures Restrict(Apply(live, entries), Keys(entries)) == Apply(map[], entries)
  {
    if entries == [] {
    } else {
      var init, last := entries[..|entries| - 1], entries[|entries| - 1];
      AssertedIsFresh(live, init);
      KeysSnoc(entries);
      RestrictSet(Apply(live, init), last, Keys(init));
    }
  }

  lemma {:induction false} RestrictSet(t: Table, e: Entry, keep: set<string>)
    ensures Restrict(SetPeer(t, e), keep + {e.key}) == SetPeer(Restrict(t, keep), e)
  {
  }

  predicate NoBlank(peers: seq<Peer>) {
    forall i :: 0 <= i < |peers| && peers[i].publicKey != "" ==> peers[i].allowedIPs != ""
  }

  lemma {:induction false} BlankUnused(peers: seq<Peer>, a: set<string>, b: set<string>)
    requires NoBlank(peers)
    ensures Entries(peers, a) == Entries(peers, b)
  {
    if peers != [] {
      BlankUnused(peers[..|peers| - 1], a, b);
    }
  }

  /** The sync refines the restart: for any prior live table and any conf that gives every
      credentialed peer its AllowedIPs, both end in the same table. Repeated keys and
      overlapping addresses are no exception. */
  lemma {:induction false} SyncRefinesRestart(live: Table, peers: seq<Peer>)
    requires NoBlank(peers)
    ensures Synced(live, peers) == Load(peers)
  {
    AssertedIsFresh(live, Entries(peers, EVERYWHERE));
    BlankUnused(peers, EVERYWHERE, {});
  }

  // ---- Exactly when the two agree, blank AllowedIPs included ----

  predicate DistinctKeys(peers: seq<Peer>) {
    && (forall i :: 0 <= i < |peers| ==> peers[i].publicKey != "")
    && (forall i, j :: 0 <= i < j < |peers| ==> peers[i].publicKey != peers[j].publicKey)
  }

  function Ips(p: Peer, blank: set<string>): set<string> {
    if p.allowedIPs == "" then blank else AllowedSet(p.allowedIPs)
  }

  /** Every IP claimed by the peers from index i on. */
  function Claimed(peers: seq<Peer>, i: nat, blank: set<string>): set<string>
    requires i <= |peers|
    decreases |peers| - i
  {
    if i == |peers| then {} else Ips(peers[i], blank) + Claimed(peers, i + 1, blank)
  }

  lemma {:induction false} ClaimedSnoc(peers: seq<Peer>, i: nat, blank: set<string>)
    requires i < |peers|
    ensures Claimed(peers, i, blank)
         == Claimed(peers[..|peers| - 1], i, blank) + Ips(peers[|peers| - 1], blank)
    decreases |peers| - i
  {
    if i + 1 < |peers| {
      ClaimedSnoc(peers, i + 1, blank);
    }
  }

  lemma {:induction false} EntriesOfDistinct(peers: seq<Peer>, blank: set<string>)
    requires DistinctKeys(peers)
    ensures |Entries(peers, blank)| == |peers|
    ensures forall i :: 0 <= i < |peers| ==>
              Entries(peers, blank)[i] == Entry(peers[i].publicKey, Ips(peers[i], blank))
  {
    if peers != [] {
      EntriesOfDistinct(peers[..|peers| - 1], blank);
    }
  }

  /** With distinct keys a peer ends up with its own IPs less those claimed after it. */
  lemma {:induction false} OwnedInTheEnd(peers: seq<Peer>, i: nat, blank: set<string>)
    requires DistinctKeys(peers) && i < |peers|
    ensures peers[i].publicKey in Apply(map[], Entries(peers, blank))
    ensures Apply(map[], Entries(peers, blank))[peers[i].publicKey]
         == Ips(peers[i], blank) - Claimed(peers, i + 1, blank)
  {
    var init, last := peers[..|peers| - 1], peers[|peers| - 1];
    EntriesOfDistinct(peers, blank);
    var es := Entries(peers, blank);
    assert es[..|es| - 1] == Entries(init, blank);
    if i < |init| {
      OwnedInTheEnd(init, i, blank);
      ClaimedSnoc(peers, i + 1, blank);
    }
  }

  /** Each peer without AllowedIPs has its stand-in routes claimed by later peers. */
  ghost predicate BlanksReclaimed(peers: seq<Peer>, blank: set<string>) {
    forall i :: 0 <= i < |peers| && peers[i].allowedIPs == "" ==> blank <= Claimed(peers, i + 1, {})
  }

  lemma {:induction false} ClaimsAgree(peers: seq<Peer>, i: nat, blank: set<string>)
    requires i <= |peers|
    requires forall j :: i <= j < |peers| && peers[j].allowedIPs == "" ==> blank <= Claimed(peers, j + 1, {})
    ensures Claimed(peers, i, blank) == Claimed(peers, i, {})
    decreases |peers| - i
  {
    if i < |peers| {
      ClaimsAgree(peers, i + 1, blank);
    }
  }

  lemma {:induction false} TableKeys(entries: seq<Entry>)
    ensures Apply(map[], entries).Keys == Keys(entries)
  {
    if entries != [] {
      TableKeys(entries[..|entries| - 1]);
      KeysSnoc(entries);
    }
  }

  lemma {:induction false} LastBlank(peers: seq<Peer>, from: nat)
    returns (m: nat)
    requires from < |peers| && peers[from].allowedIPs == ""
    ensures from <= m < |peers| && peers[m].allowedIPs == ""
    ensures forall j :: m < j < |peers| ==> peers[j].allowedIPs != ""
    decreases |peers| - from
  {
    m := from;
    if j :| from < j < |peers| && peers[j].allowedIPs == "" {
      m := LastBlank(peers, j);
    }
  }

  lemma {:induction false} ClaimsGrow(peers: seq<Peer>, i: nat, j: nat)
    requires i <= j <= |peers|
    ensures Claimed(peers, j, {}) <= Claimed(peers, i, {})
    decreases j - i
  {
    if i < j {
      ClaimsGrow(peers, i + 1, j);
    }
  }

  lemma {:induction false} FreshKeysAgree(peers: seq<Peer>, blank: set<string>)
    requires DistinctKeys(peers)
    ensures Apply(map[], Entries(peers, blank)).Keys == Apply(map[], Entries(peers, {})).Keys
    ensures forall k :: k in Apply(map[], Entries(peers, {})) ==>
              exists i :: 0 <= i < |peers| && peers[i].publicKey == k
  {
    var se, ce := Entries(peers, blank), Entries(peers, {});
    EntriesOfDistinct(peers, blank);
    EntriesOfDistinct(peers, {});
    TableKeys(se);
    TableKeys(ce);
    SameKeys(se, ce);
  }

  ghost predicate ShareAgrees(peers: seq<Peer>, i: nat, blank: set<string>)
    requires i < |peers|
  {
    Ips(peers[i], blank) - Claimed(peers, i + 1, blank) == Ips(peers[i], {}) - Claimed(peers, i + 1, {})
  }

  lemma {:induction false} SharesAgree(peers: seq<Peer>, i: nat, blank: set<string>)
    requires i < |peers| && BlanksReclaimed(peers, blank)
    ensures ShareAgrees(peers, i, blank)
  {
    ClaimsAgree(peers, i + 1, blank);
    if peers[i].allowedIPs == "" {
      assert blank <= Claimed(peers, i + 1, {});
    }
  }

  lemma {:induction false} LastShare(peers: seq<Peer>, m: nat, blank: set<string>)
    requires m < |peers| && peers[m].allowedIPs == ""
    requires forall j :: m < j < |peers| ==> peers[j].allowedIPs != ""
    requires Ips(peers[m], blank) - Claimed(peers, m + 1, blank)
          == Ips(peers[m], {}) - Claimed(peers, m + 1, {})
    ensures blank <= Claimed(peers, m + 1, {})
  {
    ClaimsAgree(peers, m + 1, blank);
    NothingLeft(blank, Claimed(peers, m + 1, {}));
  }

  lemma {:induction false} SharesReclaimed(peers: seq<Peer>, blank: set<string>)
    requires forall i :: 0 <= i < |peers| ==> ShareAgrees(peers, i, blank)
    ensures BlanksReclaimed(peers, blank)
  {
    forall b | 0 <= b < |peers| && peers[b].allowedIPs == ""
      ensures blank <= Claimed(peers, b + 1, {})
    {
      var m := LastBlank(peers, b);
      assert ShareAgrees(peers, m, blank);
      LastShare(peers, m, blank);
      ClaimsGrow(peers, b + 1, m + 1);
      SubsetTransitive(blank, Claimed(peers, m + 1, {}), Claimed(peers, b + 1, {}));
    }
  }

  lemma {:induction false} SubsetTransitive(a: set<string>, b: set<string>, c: set<string>)
    requires a <= b <= c
    ensures a <= c
  {
  }

  lemma {:induction false} NothingLeft(a: set<string>, b: set<string>)
    ensures a - b == {} ==> a <= b
  {
    if a - b == {} {
      forall x | x in a
        ensures x in b
      {
        assert x !in a - b;
      }
    }
  }

  /** One key's addresses agree in the two tables exactly when its share does. */
  lemma {:induction false} KeyAgrees(peers: seq<Peer>, i: nat, blank: set<string>)
    requires DistinctKeys(peers) && i < |peers|
    ensures var s, c, k := Apply(map[], Entries(peers, blank)), Apply(map[], Entries(peers, {})), peers[i].publicKey;
            k in s && k in c && (s[k] == c[k] <==> ShareAgrees(peers, i, blank))
  {
    OwnedInTheEnd(peers, i, blank);
    OwnedInTheEnd(peers, i, {});
    hide Apply, Entries, Ips, Claimed;
  }

  ghost predicate AllSharesAgree(peers: seq<Peer>, blank: set<string>) {
    forall i :: 0 <= i < |peers| ==> ShareAgrees(peers, i, blank)
  }

  lemma {:induction false} TablesByKey(s: Table, c: Table, peers: seq<Peer>, blank: set<string>)
    requires s.Keys == c.Keys && forall k :: k in c ==> exists i :: 0 <= i < |peers| && peers[i].publicKey == k
    requires forall i :: 0 <= i < |peers| ==>
               peers[i].publicKey in s && peers[i].publicKey in c
               && (s[peers[i].publicKey] == c[peers[i].publicKey] <==> ShareAgrees(peers, i, blank))
    ensures s == c <==> AllSharesAgree(peers, blank)
  {
    hide ShareAgrees;
    if AllSharesAgree(peers, blank) {
      forall k | k in c
        ensures s[k] == c[k]
      {
        var i :| 0 <= i < |peers| && peers[i].publicKey == k;
        assert ShareAgrees(peers, i, blank);
      }
    }
  }

  lemma {:induction false} SharesIff(peers: seq<Peer>, blank: set<string>)
    ensures AllSharesAgree(peers, blank) <==> BlanksReclaimed(peers, blank)
  {
    hide ShareAgrees, BlanksReclaimed;
    if BlanksReclaimed(peers, blank) {
      forall i | 0 <= i < |peers|
        ensures ShareAgrees(peers, i, blank)
      {
        SharesAgree(peers, i, blank);
      }
    }
    if AllSharesAgree(peers, blank) {
      SharesReclaimed(peers, blank);
    }
  }

  /** What a blank stands for makes no difference exactly when later peers claim it. */
  lemma {:induction false} AgreeIff(peers: seq<Peer>, blank: set<string>)
    requires DistinctKeys(peers)
    ensures Apply(map[], Entries(peers, blank)) == Apply(map[], Entries(peers, {})) <==> BlanksReclaimed(peers, blank)
  {
    hide *;
    FreshKeysAgree(peers, blank);
    forall i | 0 <= i < |peers|
      ensures var s, c, k := Apply(map[], Entries(peers, blank)), Apply(map[], Entries(peers, {})), peers[i].publicKey;
              k in s && k in c && (s[k] == c[k] <==> ShareAgrees(peers, i, blank))
    {
      KeyAgrees(peers, i, blank);
    }
    TablesByKey(Apply(map[], Entries(peers, blank)), Apply(map[], Entries(peers, {})), peers, blank);
    SharesIff(peers, blank);
  }

  /** With distinct keys, sync and restart agree exactly when every blank AllowedIPs is
      overridden by later peers. */
  lemma {:induction false} SyncEqualsRestartIff(live: Table, peers: seq<Peer>)
    requires DistinctKeys(peers)
    ensures Synced(live, peers) == Load(peers) <==> BlanksReclaimed(peers, EVERYWHERE)
  {
    AssertedIsFresh(live, Entries(peers, EVERYWHERE));
    AgreeIff(peers, EVERYWHERE);
  }

  lemma {:induction false} SameKeys(a: seq<Entry>, b: seq<Entry>)
    requires |a| == |b| && forall i :: 0 <= i < |a| ==> a[i].key == b[i].key
    ensures Keys(a) == Keys(b)
  {
    forall k | k in Keys(a)
      ensures k in Keys(b)
    {
      var i :| 0 <= i < |a| && a[i].key == k;
      assert b[i].key == k;
    }
    forall k | k in Keys(b)
      ensures k in Keys(a)
    {
      var i :| 0 <= i < |b| && b[i].key == k;
      assert a[i].key == k;
    }
  }

  /** Peers printed by the server renderer always give AllowedIPs, unless one is only blanks. */
  lemma {:induction false} PrintedPeersNotBlank(peers: seq<ServerPeer>)
    requires forall i :: 0 <= i < |peers| && peers[i].allowedIPs != "" ==> Trim(peers[i].allowedIPs) != ""
    ensures NoBlank(Credentialed(peers))
  {
    if peers != [] {
      PrintedPeersNotBlank(peers[..|peers| - 1]);
      assert Trim("10.8.0.2/32") != "";
    }
  }

  /** End to end: a sync from the text of a rendered conf gives the table a restart from that
      text gives, whatever was live before. */
  lemma {:induction false} SyncFromRenderedConf(live: Table, p: Params)
    requires PlainValues(p.iface) && PlainPeers(p.peers)
    requires forall i :: 0 <= i < |p.peers| && p.peers[i].allowedIPs != "" ==> Trim(p.peers[i].allowedIPs) != ""
    ensures var text := Unlines(ConfLines(p));
            Synced(live, ParseConf(text).1) == LoadConf(text) == Load(Credentialed(p.peers))
  {
    PrintThenParse(p);
    PrintedPeersNotBlank(p.peers);
    SyncRefinesRestart(live, Credentialed(p.peers));
  }

  // ---- From listed addresses to the table ----

  /** An address as it is written in a list. */
  predicate Address(ip: string) {
    ip != "" && Free(ip, ',') && Trim(ip) == ip
  }

  predicate Addresses(ips: seq<string>) {
    forall i :: 0 <= i < |ips| ==> Address(ips[i])
  }

  function Padded(ips: seq<string>, pad: string): seq<string> {
    seq(|ips|, i requires 0 <= i < |ips| => pad + ips[i])
  }

  /** A list with a space behind each comma, or none. */
  lemma {:induction false} SplitList(ips: seq<string>, first: string, pad: string)
    requires ips != [] && Addresses(ips) && Free(first, ',') && Free(pad, ',')
    ensures Split(first + Join(ips, "," + pad), ',') == [first + ips[0]] + Padded(ips[1..], pad)
  {
    if |ips| == 1 {
      SplitWhole(first + ips[0], ',');
      assert [first + ips[0]] + Padded(ips[1..], pad) == [first + ips[0]];
    } else {
      var rest := pad + Join(ips[1..], "," + pad);
      assert first + Join(ips, "," + pad) == (first + ips[0]) + [','] + rest;
      SplitHead(first + ips[0], rest, ',');
      SplitList(ips[1..], pad, pad);
      assert [pad + ips[1..][0]] + Padded(ips[1..][1..], pad) == Padded(ips[1..], pad);
    }
  }

  lemma {:induction false} TrimPadded(ip: string)
    requires Address(ip)
    ensures Trim(" " + ip) == ip && Trim("" + ip) == ip
  {
    assert (" " + ip)[1..] == ip && "" + ip == ip;
  }

  /** Written as a list, with or without spaces behind the commas, the addresses come back. */
  lemma {:induction false} ListRead(ips: seq<string>, pad: string)
    requires Addresses(ips) && (pad == "" || pad == " ")
    ensures AllowedSet(Join(ips, "," + pad)) == set i | 0 <= i < |ips| :: ips[i]
  {
    if ips == [] {
      assert Split("", ',') == [""] && Trim("") == "";
    } else {
      SplitList(ips, "", pad);
      assert "" + Join(ips, "," + pad) == Join(ips, "," + pad) && "" + ips[0] == ips[0];
      var parts := [ips[0]] + Padded(ips[1..], pad);
      assert Split(Join(ips, "," + pad), ',') == parts;
      hide Split, Join;
      forall i | 0 <= i < |ips|
        ensures Trim(parts[i]) == ips[i]
      {
        TrimPadded(ips[i]);
      }
      ListedParts(Join(ips, "," + pad), parts, ips);
    }
  }

  lemma {:induction false} ListedParts(text: string, parts: seq<string>, ips: seq<string>)
    requires Split(text, ',') == parts && |parts| == |ips| && Addresses(ips)
    requires forall i :: 0 <= i < |ips| ==> Trim(parts[i]) == ips[i]
    ensures AllowedSet(text) == set i | 0 <= i < |ips| :: ips[i]
  {
    hide Trim, Split;
    forall i | 0 <= i < |ips|
      ensures ips[i] in AllowedSet(text)
    {
      assert Trim(parts[i]) != "";
    }
  }

  lemma {:induction false} AnyAddress()
    ensures Address("0.0.0.0/0") && Address("::/0")
  {
    var a, b := "0.0.0.0/0", "::/0";
    assert TrimLeft(a) == a && TrimRight(a) == a;
    assert TrimLeft(b) == b && TrimRight(b) == b;
  }

  lemma {:induction false} JoinTwo(a: string, b: string, sep: string)
    ensures Join([a, b], sep) == a + sep + b
  {
    assert [a, b][1..] == [b];
  }

  /** What the sync asserts for a peer without AllowedIPs is what its command line says. */
  lemma {:induction false} EverywhereListed()
    ensures AllowedSet("0.0.0.0/0" + ", " + "::/0") == EVERYWHERE
  {
    var ips := ["0.0.0.0/0", "::/0"];
    AnyAddress();
    JoinTwo(ips[0], ips[1], ", ");
    hide Address, Join, AllowedSet;
    ListRead(ips, " ");
    assert "," + " " == ", ";
    assert ips[0] in EVERYWHERE && ips[1] in EVERYWHERE;
  }

  /** Each peer's addresses are written as one of the lists. */
  ghost predicate WrittenAs(peers: seq<Peer>, lists: seq<seq<string>>, pad: string) {
    && |lists| == |peers| && (pad == "" || pad == " ")
    && forall i :: 0 <= i < |peers| ==> lists[i] != [] && Addresses(lists[i]) && peers[i].allowedIPs == Join(lists[i], "," + pad)
  }

  lemma {:induction false} ListNotBlank(ips: seq<string>, sep: string)
    requires ips != [] && Addresses(ips)
    ensures Join(ips, sep) != ""
  {
    assert ips[0] != "";
  }

  lemma {:induction false} IpsListed(peers: seq<Peer>, lists: seq<seq<string>>, pad: string, i: nat, blank: set<string>)
    requires WrittenAs(peers, lists, pad) && i < |peers|
    ensures forall ip :: ip in Ips(peers[i], blank) <==> ip in lists[i]
  {
    ListRead(lists[i], pad);
    ListNotBlank(lists[i], "," + pad);
  }

  lemma {:induction false} ClaimedListed(peers: seq<Peer>, lists: seq<seq<string>>, pad: string, i: nat, blank: set<string>)
    requires WrittenAs(peers, lists, pad) && i <= |peers|
    ensures forall ip :: ip in Claimed(peers, i, blank) <==> exists j :: i <= j < |lists| && ip in lists[j]
    decreases |peers| - i
  {
    if i < |peers| {
      ClaimedListed(peers, lists, pad, i + 1, blank);
      IpsListed(peers, lists, pad, i, blank);
      hide Ips, WrittenAs;
    }
  }

  /** A restart, and so a sync, gives each key exactly the addresses listed for it that no later
      peer lists as well, and knows no other key. */
  lemma {:induction false} TableAsListed(peers: seq<Peer>, lists: seq<seq<string>>, pad: string)
    requires DistinctKeys(peers) && WrittenAs(peers, lists, pad)
    ensures forall k :: k in Load(peers) <==> exists i :: 0 <= i < |peers| && peers[i].publicKey == k
    ensures forall i, ip :: 0 <= i < |peers| ==> (ip in Load(peers)[peers[i].publicKey] <==> Holds(lists, i, ip))
    ensures forall live :: Synced(live, peers) == Load(peers)
  {
    KeysListed(peers);
    NoneBlank(peers, lists, pad);
    forall i | 0 <= i < |peers|
      ensures forall ip :: ip in Load(peers)[peers[i].publicKey] <==> Holds(lists, i, ip)
    {
      ShareListed(peers, lists, pad, i);
    }
    hide Load, Holds, WrittenAs, DistinctKeys, Synced;
    forall live
      ensures Synced(live, peers) == Load(peers)
    {
      SyncRefinesRestart(live, peers);
    }
  }

  /** The address is listed for peer i and for no later one. */
  predicate Holds(lists: seq<seq<string>>, i: nat, ip: string)
    requires i < |lists|
  {
    ip in lists[i] && forall j :: i < j < |lists| ==> ip !in lists[j]
  }

  lemma {:induction false} NoneBlank(peers: seq<Peer>, lists: seq<seq<string>>, pad: string)
    requires WrittenAs(peers, lists, pad)
    ensures NoBlank(peers)
  {
    forall i | 0 <= i < |peers|
      ensures peers[i].allowedIPs != ""
    {
      ListNotBlank(lists[i], "," + pad);
    }
  }

  lemma {:induction false} ShareListed(peers: seq<Peer>, lists: seq<seq<string>>, pad: string, i: nat)
    requires DistinctKeys(peers) && WrittenAs(peers, lists, pad) && i < |peers|
    ensures peers[i].publicKey in Load(peers)
    ensures forall ip :: ip in Load(peers)[peers[i].publicKey] <==> Holds(lists, i, ip)
  {
    OwnedInTheEnd(peers, i, {});
    IpsListed(peers, lists, pad, i, {});
    ClaimedListed(peers, lists, pad, i + 1, {});
    hide Ips, Claimed, WrittenAs, Apply, Entries, DistinctKeys;
  }

  lemma {:induction false} KeysListed(peers: seq<Peer>)
    requires DistinctKeys(peers)
    ensures forall k :: k in Load(peers) <==> exists i :: 0 <= i < |peers| && peers[i].publicKey == k
  {
    EntriesOfDistinct(peers, {});
    TableKeys(Entries(peers, {}));
    forall k | exists i :: 0 <= i < |peers| && peers[i].publicKey == k
      ensures k in Load(peers)
    {
      var i :| 0 <= i < |peers| && peers[i].publicKey == k;
      assert Entries(peers, {})[i].key == k;
    }
  }
}
