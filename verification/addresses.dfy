/** Inner tunnel addresses of a chain's AWG links (cryptogen.go, applier_build.go). */
module Addresses {
  import opened Text
  import opened Topology

  const FIRST_HOST := 2
  const LAST_HOST := 254
  const TRANSIT_NET := "10.9.0"
  const EXIT_NET := "10.10.0"

  /** awgIPKey: the address without its prefix length. */
  function Key(a: string): string {
    if a == "" || a[0] == '/' then "" else [a[0]] + Key(a[1..])
  }

  function Ip(net: string, host: nat): string {
    net + "." + Itoa(host)
  }

  function HostAddress(net: string, host: nat): string {
    Ip(net, host) + "/32"
  }

  lemma {:induction false} KeyOfPlain(a: string, rest: string)
    requires Free(a, '/')
    ensures Key(a + "/" + rest) == a && Key(a) == a
  {
    var s := a + "/" + rest;
    if a != "" {
      assert s[1..] == a[1..] + "/" + rest;
      KeyOfPlain(a[1..], rest);
      assert a == [a[0]] + a[1..];
    }
  }

  lemma {:induction false} KeyOfHost(net: string, host: nat)
    requires Free(net, '/')
    ensures Key(HostAddress(net, host)) == Ip(net, host) && HostAddress(net, host) != ""
  {
    var a := Ip(net, host);
    assert Free(a, '/');
    KeyOfPlain(a, "32");
    assert a + "/32" == a + "/" + "32";
  }

  lemma {:induction false} HostsDiffer(net: string, a: nat, b: nat)
    requires Ip(net, a) == Ip(net, b)
    ensures a == b
  {
    ConcatAssoc(net, ".", Itoa(a));
    ConcatAssoc(net, ".", Itoa(b));
    assert Ip(net, a)[|net| + 1..] == Itoa(a) && Ip(net, b)[|net| + 1..] == Itoa(b);
    ItoaInjective(a, b);
  }

  ghost predicate Occupied(taken: seq<string>, ip: string) {
    exists i :: 0 <= i < |taken| && Key(taken[i]) == ip
  }

  /** Every host address of the net is taken. */
  ghost predicate Exhausted(net: string, taken: seq<string>) {
    forall h :: FIRST_HOST <= h <= LAST_HOST ==> Occupied(taken, Ip(net, h))
  }

  /** allocateAWGHostIP: the smallest free host, and nothing exactly when all 253 are taken. */
  method AllocateHostIp(net: string, taken: seq<string>) returns (ip: string)
    requires Free(net, '/')
    ensures ip == "" <==> Exhausted(net, taken)
    ensures ip != "" ==>
              exists h: nat :: FIRST_HOST <= h <= LAST_HOST && ip == HostAddress(net, h) && !Occupied(taken, Key(ip))
                && forall g :: FIRST_HOST <= g < h ==> Occupied(taken, Ip(net, g))
    ensures ip != "" ==> !Occupied(taken, Key(ip))
  {
    var occupied: set<string> := {};
    for i := 0 to |taken|
      invariant forall k :: k in occupied <==> exists j :: 0 <= j < i && Key(taken[j]) == k
    {
      occupied := occupied + {Key(taken[i])};
    }
    assert forall k :: k in occupied <==> Occupied(taken, k);
    hide Key, Ip, Occupied;
    var host: nat := FIRST_HOST;
    while host <= LAST_HOST
      invariant FIRST_HOST <= host <= LAST_HOST + 1
      invariant forall g :: FIRST_HOST <= g < host ==> Occupied(taken, Ip(net, g))
    {
      KeyOfHost(net, host);
      if Key(HostAddress(net, host)) !in occupied {
        return HostAddress(net, host);
      }
      host := host + 1;
    }
    return "";
  }

  // ---- Counting ----

  function KeySet(taken: seq<string>): (s: set<string>)
    ensures |s| <= |taken|
  {
    if taken == [] then {} else KeySet(taken[..|taken| - 1]) + {Key(taken[|taken| - 1])}
  }

  lemma {:induction false} KeySetMember(taken: seq<string>, k: string)
    requires Occupied(taken, k)
    ensures k in KeySet(taken)
  {
    var i :| 0 <= i < |taken| && Key(taken[i]) == k;
    if i < |taken| - 1 {
      assert taken[..|taken| - 1][i] == taken[i];
      KeySetMember(taken[..|taken| - 1], k);
    }
  }

  function Ips(net: string, n: nat): set<string> {
    if n == 0 then {} else Ips(net, n - 1) + {Ip(net, FIRST_HOST + n - 1)}
  }

  lemma {:induction false} IpsCount(net: string, n: nat, h: nat)
    ensures |Ips(net, n)| == n
    ensures h >= n ==> Ip(net, FIRST_HOST + h) !in Ips(net, n)
  {
    if n > 0 {
      IpsCount(net, n - 1, n - 1);
      IpsCount(net, n - 1, h);
      if h >= n && Ip(net, FIRST_HOST + h) == Ip(net, FIRST_HOST + n - 1) {
        HostsDiffer(net, FIRST_HOST + h, FIRST_HOST + n - 1);
      }
    }
  }

  lemma {:induction false} IpsTaken(net: string, taken: seq<string>, n: nat)
    requires Exhausted(net, taken) && n <= LAST_HOST - FIRST_HOST + 1
    ensures Ips(net, n) <= KeySet(taken)
  {
    if n > 0 {
      IpsTaken(net, taken, n - 1);
      assert Occupied(taken, Ip(net, FIRST_HOST + n - 1));
      KeySetMember(taken, Ip(net, FIRST_HOST + n - 1));
    }
  }

  /** Running out needs 253 addresses. */
  lemma {:induction false} ExhaustedCount(net: string, taken: seq<string>)
    requires Exhausted(net, taken)
    ensures |taken| >= LAST_HOST - FIRST_HOST + 1
  {
    var n := LAST_HOST - FIRST_HOST + 1;
    IpsTaken(net, taken, n);
    IpsCount(net, n, n);
    var rest := KeySet(taken) - Ips(net, n);
    assert KeySet(taken) == Ips(net, n) + rest;
  }

  lemma {:induction false} ExhaustedGrows(net: string, a: seq<string>, b: seq<string>)
    requires Exhausted(net, a) && forall x :: x in a && x != "" ==> x in b
    requires forall h :: FIRST_HOST <= h <= LAST_HOST ==> Ip(net, h) != ""
    ensures Exhausted(net, b)
  {
    forall h | FIRST_HOST <= h <= LAST_HOST
      ensures Occupied(b, Ip(net, h))
    {
      assert Occupied(a, Ip(net, h));
      var i :| 0 <= i < |a| && Key(a[i]) == Ip(net, h);
      assert a[i] in a && a[i] in b;
      var j :| 0 <= j < |b| && b[j] == a[i];
    }
  }

  // ---- Transit addresses ----

  function Set(addrs: seq<string>): seq<string> {
    if addrs == [] then []
    else Set(addrs[..|addrs| - 1]) + if addrs[|addrs| - 1] == "" then [] else [addrs[|addrs| - 1]]
  }

  lemma {:induction false} SetMember(addrs: seq<string>, a: string)
    ensures a in Set(addrs) <==> a in addrs && a != ""
    ensures |Set(addrs)| <= |addrs| && ("" in addrs ==> |Set(addrs)| < |addrs|)
  {
    if addrs != [] {
      SetMember(addrs[..|addrs| - 1], a);
      assert addrs == addrs[..|addrs| - 1] + [addrs[|addrs| - 1]];
    }
  }

  predicate DistinctKeys(addrs: seq<string>) {
    forall i, j :: 0 <= i < j < |addrs| && addrs[i] != "" && addrs[j] != "" ==> Key(addrs[i]) != Key(addrs[j])
  }

  /** Nothing that was set has changed. */
  predicate Kept(before: seq<string>, after: seq<string>) {
    |before| <= |after| && forall i :: 0 <= i < |before| && before[i] != "" ==> after[i] == before[i]
  }

  method Collect(addrs: seq<string>) returns (taken: seq<string>)
    ensures taken == Set(addrs)
  {
    taken := [];
    for i := 0 to |addrs|
      invariant taken == Set(addrs[..i])
    {
      assert addrs[..i + 1][..i] == addrs[..i];
      if addrs[i] != "" {
        taken := taken + [addrs[i]];
      }
    }
    assert addrs[..|addrs|] == addrs;
  }

  /** One more address, where the position was empty. */
  lemma {:induction false} FillOne(net: string, addrs: seq<string>, i: nat, a: string)
    requires i < |addrs| && addrs[i] == "" && DistinctKeys(addrs) && (a != "" ==> !Occupied(Set(addrs), Key(a)))
    ensures DistinctKeys(addrs[i := a]) && Kept(addrs, addrs[i := a])
  {
    forall j | 0 <= j < |addrs| && addrs[j] != "" && a != ""
      ensures Key(addrs[j]) != Key(a)
    {
      SetMember(addrs, addrs[j]);
      assert addrs[j] in addrs;
      var k :| 0 <= k < |Set(addrs)| && Set(addrs)[k] == addrs[j];
    }
  }

  /** The address part of ApplyChain's key loop for AWG transport: every node but the last. */
  method AssignTransit(before: seq<string>) returns (after: seq<string>)
    requires DistinctKeys(before)
    ensures |after| == |before| && Kept(before, after) && DistinctKeys(after)
    ensures forall i :: 0 <= i < |after| - 1 && after[i] == "" ==> Exhausted(TRANSIT_NET, Set(after))
  {
    after := before;
    var n := |before|;
    for i := 0 to n
      invariant |after| == n && Kept(before, after) && DistinctKeys(after)
      invariant forall j :: 0 <= j < i && j < n - 1 && after[j] == "" ==> Exhausted(TRANSIT_NET, Set(after))
    {
      if i < n - 1 && after[i] == "" {
        var taken := Collect(after);
        assert Free(TRANSIT_NET, '/');
        var a := AllocateHostIp(TRANSIT_NET, taken);
        FillOne(TRANSIT_NET, after, i, a);
        if a == "" {
          assert after[i := a] == after;
        } else {
          if j :| 0 <= j < i && after[j] == "" {
            assert false;
          }
        }
        after := after[i := a];
      }
    }
  }

  /** With at most 253 nodes every link of the chain gets its address. */
  lemma {:induction false} TransitFilled(after: seq<string>, i: nat)
    requires |after| <= LAST_HOST - FIRST_HOST + 1 && i < |after| - 1
    requires after[i] == "" ==> Exhausted(TRANSIT_NET, Set(after))
    ensures after[i] != ""
  {
    if after[i] == "" {
      ExhaustedCount(TRANSIT_NET, Set(after));
      SetMember(after, "");
    }
  }

  // ---- Exit links ----

  function LinkAddresses(links: seq<ExitLink>): seq<string> {
    seq(|links|, i requires 0 <= i < |links| => links[i].address)
  }

  function FindLink(links: seq<ExitLink>, target: string): (r: Option<nat>)
    ensures r.Some? ==> r.value < |links| && links[r.value].target == target
    ensures r.None? ==> forall j :: 0 <= j < |links| ==> links[j].target != target
  {
    if links == [] then None
    else if links[0].target == target then Some(0)
    else
      match FindLink(links[1..], target)
      case None => None
      case Some(k) => Some(k + 1)
  }

  /** Links are only appended, and what they hold stays. */
  predicate LinksKept(a: seq<ExitLink>, b: seq<ExitLink>) {
    && |a| <= |b|
    && forall i :: 0 <= i < |a| ==>
         && b[i].target == a[i].target
         && (a[i].address != "" ==> b[i].address == a[i].address)
         && (a[i].iface != "" ==> b[i].iface == a[i].iface)
  }

  /** The addresses of a balancer's links and of all other links of the chain. */
  function Everywhere(links: seq<ExitLink>, others: seq<string>): seq<string> {
    LinkAddresses(links) + others
  }

  /** The target has a link with an interface name, and with an address unless the exit net has run out. */
  ghost predicate Served(links: seq<ExitLink>, others: seq<string>, target: string) {
    exists j :: 0 <= j < |links| && links[j].target == target && links[j].iface != ""
      && (links[j].address == "" ==> Exhausted(EXIT_NET, Set(Everywhere(links, others))))
  }

  /** One target of ensureAWGExitLinks. `taken` holds every address in use, and the failures. */
  method EnsureLink(links: seq<ExitLink>, ghost others: seq<string>, idx: nat, target: string, taken: seq<string>)
    returns (more: seq<ExitLink>, used: seq<string>)
    requires DistinctKeys(Everywhere(links, others)) && Mirrors(taken, Everywhere(links, others))
    ensures LinksKept(links, more) && DistinctKeys(Everywhere(more, others)) && Mirrors(used, Everywhere(more, others))
    ensures Served(more, others, target)
    ensures forall i :: 0 <= i < |more| && (|links| <= i || links[i].iface == "") ==>
      more[i].iface in {"", "awg-exit-n" + Itoa(idx + 1)}
    ensures forall a :: a in Everywhere(links, others) && a != "" ==> a in Everywhere(more, others)
  {
    more, used := links, taken;
    var k := FindLink(more, target);
    var j: nat;
    if k.None? {
      j := |more|;
      more := more + [ExitLink(target, "", "")];
      AppendEmpty(links, others, ExitLink(target, "", ""));
    } else {
      j := k.value;
    }
    ghost var found := more;
    assert LinksKept(links, found) && more[j].target == target;
    hide DistinctKeys, Set, FindLink;
    if more[j].iface == "" {
      assert LinkAddresses(more[j := more[j].(iface := "awg-exit-n" + Itoa(idx + 1))]) == LinkAddresses(more);
      more := more[j := more[j].(iface := "awg-exit-n" + Itoa(idx + 1))];
    }
    hide Itoa;
    assert LinksKept(found, more) && more[j].target == target && Everywhere(more, others) == Everywhere(found, others);
    LinksKeptChain(links, found, more);
    ghost var named := more;
    more, used := FillLink(more, others, j, used);
    LinksKeptChain(links, named, more);
    assert Served(more, others, target);
  }

  /** Give link j an address if it has none. */
  method FillLink(links: seq<ExitLink>, ghost others: seq<string>, j: nat, taken: seq<string>)
    returns (more: seq<ExitLink>, used: seq<string>)
    requires j < |links| && DistinctKeys(Everywhere(links, others)) && Mirrors(taken, Everywhere(links, others))
    ensures LinksKept(links, more) && DistinctKeys(Everywhere(more, others)) && Mirrors(used, Everywhere(more, others))
    ensures more[j].target == links[j].target && |more| == |links|
    ensures forall i :: 0 <= i < |links| ==> more[i].iface == links[i].iface
    ensures more[j].address == "" ==> Exhausted(EXIT_NET, Set(Everywhere(more, others)))
    ensures forall a :: a in Everywhere(links, others) && a != "" ==> a in Everywhere(more, others)
  {
    more, used := links, taken;
    if more[j].address == "" {
      assert Free(EXIT_NET, '/');
      var a := AllocateHostIp(EXIT_NET, used);
      MirrorsSet(used, Everywhere(more, others));
      var filled := more[j := more[j].(address := a)];
      assert Everywhere(filled, others) == Everywhere(more, others)[j := a];
      FillOne(EXIT_NET, Everywhere(more, others), j, a);
      MirrorsFill(used, Everywhere(more, others), j, a);
      if a == "" {
        assert filled == more;
      }
      used, more := used + [a], filled;
    }
  }

  /** `taken` and the set addresses agree up to repetition and empty entries. */
  ghost predicate Mirrors(taken: seq<string>, addrs: seq<string>) {
    forall a :: a != "" ==> (a in taken <==> a in addrs)
  }

  lemma {:induction false} MirrorsSet(taken: seq<string>, addrs: seq<string>)
    requires Mirrors(taken, addrs)
    ensures Exhausted(EXIT_NET, taken) <==> Exhausted(EXIT_NET, Set(addrs))
    ensures forall k :: k != "" ==> (Occupied(taken, k) <==> Occupied(Set(addrs), k))
  {
    forall a: string
      ensures a != "" ==> (a in taken <==> a in Set(addrs))
    {
      SetMember(addrs, a);
    }
    forall k: string | k != ""
      ensures Occupied(taken, k) <==> Occupied(Set(addrs), k)
    {
      OccupiedSame(taken, Set(addrs), k);
      OccupiedSame(Set(addrs), taken, k);
    }
    forall h | FIRST_HOST <= h <= LAST_HOST
      ensures Ip(EXIT_NET, h) != ""
    {
    }
  }

  lemma {:induction false} OccupiedSame(a: seq<string>, b: seq<string>, k: string)
    requires k != "" && forall x :: x != "" && x in a ==> x in b
    ensures Occupied(a, k) ==> Occupied(b, k)
  {
    if Occupied(a, k) {
      var i :| 0 <= i < |a| && Key(a[i]) == k;
      assert a[i] in a && a[i] != "";
      var j :| 0 <= j < |b| && b[j] == a[i];
    }
  }

  lemma {:induction false} MirrorsFill(taken: seq<string>, addrs: seq<string>, i: nat, a: string)
    requires Mirrors(taken, addrs) && i < |addrs| && addrs[i] == ""
    ensures Mirrors(taken + [a], addrs[i := a])
    ensures forall x :: x in addrs && x != "" ==> x in addrs[i := a]
  {
    forall x | x != ""
      ensures x in taken + [a] <==> x in addrs[i := a]
    {
      if x in addrs {
        var j :| 0 <= j < |addrs| && addrs[j] == x;
        assert addrs[i := a][j] == x;
      }
      if x == a {
        assert addrs[i := a][i] == a;
      }
    }
  }

  lemma {:induction false} AppendEmpty(links: seq<ExitLink>, others: seq<string>, l: ExitLink)
    requires l.address == "" && DistinctKeys(Everywhere(links, others))
    ensures DistinctKeys(Everywhere(links + [l], others))
    ensures forall a :: a != "" ==> (a in Everywhere(links, others) <==> a in Everywhere(links + [l], others))
  {
    var x, y := Everywhere(links, others), Everywhere(links + [l], others);
    var n := |links|;
    assert forall i :: 0 <= i < n ==> y[i] == x[i];
    assert y[n] == "" && forall i :: n < i < |y| ==> y[i] == x[i - 1];
    forall a | a != ""
      ensures a in x <==> a in y
    {
      if a in x {
        var i :| 0 <= i < |x| && x[i] == a;
        assert y[if i < n then i else i + 1] == a;
      }
    }
  }

  // ---- The whole chain ----

  /** exitAddresses, empty ones included. */
  function LinkList(nodes: seq<ChainNode>): seq<string> {
    if nodes == [] then [] else LinkList(nodes[..|nodes| - 1]) + LinkAddresses(nodes[|nodes| - 1].exitLinks)
  }

  function Others(nodes: seq<ChainNode>, k: nat): seq<string>
    requires k < |nodes|
  {
    LinkList(nodes[..k]) + LinkList(nodes[k + 1..])
  }

  lemma {:induction false} LinkListConcat(a: seq<ChainNode>, b: seq<ChainNode>)
    ensures LinkList(a + b) == LinkList(a) + LinkList(b)
  {
    if b == [] {
      assert a + b == a;
    } else {
      assert (a + b)[..|a + b| - 1] == a + b[..|b| - 1];
      LinkListConcat(a, b[..|b| - 1]);
    }
  }

  lemma {:induction false} LinkListAt(nodes: seq<ChainNode>, k: nat)
    requires k < |nodes|
    ensures LinkList(nodes) == LinkList(nodes[..k]) + LinkAddresses(nodes[k].exitLinks) + LinkList(nodes[k + 1..])
  {
    assert nodes == (nodes[..k] + [nodes[k]]) + nodes[k + 1..];
    LinkListConcat(nodes[..k] + [nodes[k]], nodes[k + 1..]);
    LinkListConcat(nodes[..k], [nodes[k]]);
    assert [nodes[k]][..0] == [];
    assert LinkList([nodes[k]]) == LinkList([]) + LinkAddresses(nodes[k].exitLinks);
  }

  lemma {:induction false} RotateBack(a: seq<string>, l: seq<string>, b: seq<string>)
    requires DistinctKeys(a + l + b)
    ensures DistinctKeys(l + (a + b))
  {
    var x, y := a + l + b, l + (a + b);
    var m, n := |a|, |l|;
    forall i, j | 0 <= i < j < |y| && y[i] != "" && y[j] != ""
      ensures Key(y[i]) != Key(y[j])
    {
      hide Key;
      var p, q := if i < n then m + i else if i < m + n then i - n else i, if j < n then m + j else if j < m + n then j - n else j;
      assert x[p] == y[i] && x[q] == y[j] && p != q;
      if p < q {
      } else {
      }
    }
  }

  lemma {:induction false} Rotate(a: seq<string>, l: seq<string>, b: seq<string>)
    ensures DistinctKeys(a + l + b) <==> DistinctKeys(l + (a + b))
    ensures forall x :: x in a + l + b <==> x in l + (a + b)
  {
    assert a + (l + b) == a + l + b && l + (a + b) == l + a + b;
    hide DistinctKeys;
    if DistinctKeys(a + l + b) {
      RotateBack(a, l, b);
    }
    if DistinctKeys(l + a + b) {
      RotateBack(l, a, b);
    }
  }

  /** One balancer's addresses in front, the rest of the chain behind. */
  lemma {:induction false} FocusOn(nodes: seq<ChainNode>, k: nat)
    requires k < |nodes|
    ensures DistinctKeys(LinkList(nodes)) <==> DistinctKeys(Everywhere(nodes[k].exitLinks, Others(nodes, k)))
    ensures forall x :: x in LinkList(nodes) <==> x in Everywhere(nodes[k].exitLinks, Others(nodes, k))
  {
    LinkListAt(nodes, k);
    Rotate(LinkList(nodes[..k]), LinkAddresses(nodes[k].exitLinks), LinkList(nodes[k + 1..]));
  }

  predicate ExitExists(nodes: seq<ChainNode>, target: string) {
    match FirstIndex(nodes, target)
    case Some(i) => nodes[i].role == ExitRole
    case None => false
  }

  ghost predicate AllServed(links: seq<ExitLink>, others: seq<string>, targets: seq<string>) {
    forall i :: 0 <= i < |targets| ==> Served(links, others, targets[i])
  }

  lemma {:induction false} ServedKept(a: seq<ExitLink>, b: seq<ExitLink>, others: seq<string>, target: string)
    requires Served(a, others, target) && LinksKept(a, b)
    requires forall x :: x in Everywhere(a, others) && x != "" ==> x in Everywhere(b, others)
    ensures Served(b, others, target)
  {
    var j :| 0 <= j < |a| && a[j].target == target && a[j].iface != "" && (a[j].address == "" ==> Exhausted(EXIT_NET, Set(Everywhere(a, others))));
    if b[j].address == "" {
      ExhaustedCarried(Everywhere(a, others), Everywhere(b, others));
    }
    assert b[j].target == target;
  }

  lemma {:induction false} AllServedSnoc(a: seq<ExitLink>, b: seq<ExitLink>, others: seq<string>, targets: seq<string>, target: string)
    requires AllServed(a, others, targets) && LinksKept(a, b) && Served(b, others, target)
    requires forall x :: x in Everywhere(a, others) && x != "" ==> x in Everywhere(b, others)
    ensures AllServed(b, others, targets + [target])
  {
    hide Served, Everywhere;
    var all := targets + [target];
    forall i | 0 <= i < |all|
      ensures Served(b, others, all[i])
    {
      if i < |targets| {
        assert all[i] == targets[i];
        ServedKept(a, b, others, targets[i]);
      }
    }
  }

  lemma {:induction false} ExhaustedCarried(a: seq<string>, b: seq<string>)
    requires Exhausted(EXIT_NET, Set(a)) && forall x :: x in a && x != "" ==> x in b
    ensures Exhausted(EXIT_NET, Set(b))
  {
    forall x | x in Set(a) && x != ""
      ensures x in Set(b)
    {
      SetMember(a, x);
      SetMember(b, x);
    }
    assert forall h :: FIRST_HOST <= h <= LAST_HOST ==> Ip(EXIT_NET, h) != "";
    ExhaustedGrows(EXIT_NET, Set(a), Set(b));
  }

  lemma {:induction false} AllServedNone(links: seq<ExitLink>, others: seq<string>)
    ensures AllServed(links, others, [])
  {
  }

  lemma {:induction false} LinksKeptSelf(a: seq<ExitLink>)
    ensures LinksKept(a, a)
  {
  }

  lemma {:induction false} LinksKeptChain(a: seq<ExitLink>, b: seq<ExitLink>, c: seq<ExitLink>)
    requires LinksKept(a, b) && LinksKept(b, c)
    ensures LinksKept(a, c)
  {
  }

  lemma {:induction false} CollectedMirrors(nodes: seq<ChainNode>, k: nat)
    requires k < |nodes| && DistinctKeys(LinkList(nodes))
    ensures Mirrors(Set(LinkList(nodes)), Everywhere(nodes[k].exitLinks, Others(nodes, k)))
    ensures DistinctKeys(Everywhere(nodes[k].exitLinks, Others(nodes, k)))
  {
    FocusOn(nodes, k);
    hide LinkList, Others, Everywhere, DistinctKeys;
    forall a
      ensures a in Set(LinkList(nodes)) <==> a in LinkList(nodes) && a != ""
    {
      SetMember(LinkList(nodes), a);
    }
  }

  /** The loop of ensureAWGExitLinks. */
  method ServeTargets(nodes: seq<ChainNode>, links: seq<ExitLink>, ghost others: seq<string>, targets: seq<string>, taken: seq<string>)
    returns (more: seq<ExitLink>, ok: bool)
    requires DistinctKeys(Everywhere(links, others)) && Mirrors(taken, Everywhere(links, others))
    ensures LinksKept(links, more) && DistinctKeys(Everywhere(more, others))
    ensures forall x :: x in Everywhere(links, others) && x != "" ==> x in Everywhere(more, others)
    ensures ok <==> forall i :: 0 <= i < |targets| ==> ExitExists(nodes, targets[i])
    ensures ok ==> AllServed(more, others, targets)
  {
    hide Everywhere, DistinctKeys, Mirrors, Served, AllServed, LinksKept, ExitExists;
    var used := taken;
    more := links;
    AllServedNone(links, others);
    LinksKeptSelf(links);
    assert targets[..0] == [];
    for idx := 0 to |targets|
      invariant LinksKept(links, more) && DistinctKeys(Everywhere(more, others)) && Mirrors(used, Everywhere(more, others))
      invariant forall x :: x in Everywhere(links, others) && x != "" ==> x in Everywhere(more, others)
      invariant forall i :: 0 <= i < idx ==> ExitExists(nodes, targets[i])
      invariant AllServed(more, others, targets[..idx])
    {
      if !ExitExists(nodes, targets[idx]) {
        return more, false;
      }
      ghost var before := more;
      more, used := EnsureLink(more, others, idx, targets[idx], used);
      LinksKeptChain(links, before, more);
      AllServedSnoc(before, more, others, targets[..idx], targets[idx]);
      assert targets[..idx + 1] == targets[..idx] + [targets[idx]];
    }
    assert targets[..|targets|] == targets;
    ok := true;
  }

  /** ensureAWGExitLinks on the links of one node. */
  method EnsureLinks(nodes: seq<ChainNode>, k: nat) returns (links: seq<ExitLink>, ok: bool)
    requires k < |nodes| && DistinctKeys(LinkList(nodes))
    ensures LinksKept(nodes[k].exitLinks, links) && DistinctKeys(Everywhere(links, Others(nodes, k)))
    ensures forall x :: x in LinkList(nodes) && x != "" ==> x in Everywhere(links, Others(nodes, k))
    ensures ok <==> forall i :: 0 <= i < |nodes[k].exitTargets| ==> ExitExists(nodes, nodes[k].exitTargets[i])
    ensures ok ==> AllServed(links, Others(nodes, k), nodes[k].exitTargets)
  {
    var taken := Collect(LinkList(nodes));
    CollectedMirrors(nodes, k);
    FocusOn(nodes, k);
    hide *;
    links, ok := ServeTargets(nodes, nodes[k].exitLinks, Others(nodes, k), nodes[k].exitTargets, taken);
  }

  /** Every exit target of the node has a link with an interface name, and with an address unless the net has run out. */
  ghost predicate NodeServed(nodes: seq<ChainNode>, k: nat)
    requires k < |nodes|
  {
    forall i :: 0 <= i < |nodes[k].exitTargets| ==> TargetServed(nodes, k, nodes[k].exitTargets[i])
  }

  ghost predicate TargetServed(nodes: seq<ChainNode>, k: nat, target: string)
    requires k < |nodes|
  {
    exists j :: 0 <= j < |nodes[k].exitLinks| && nodes[k].exitLinks[j].target == target && nodes[k].exitLinks[j].iface != ""
      && (nodes[k].exitLinks[j].address == "" ==> Exhausted(EXIT_NET, Set(LinkList(nodes))))
  }

  function WithLinks(nodes: seq<ChainNode>, k: nat, links: seq<ExitLink>): seq<ChainNode>
    requires k < |nodes|
  {
    nodes[k := nodes[k].(exitLinks := links)]
  }

  lemma {:induction false} LinksReplaced(nodes: seq<ChainNode>, k: nat, links: seq<ExitLink>)
    requires k < |nodes| && DistinctKeys(Everywhere(links, Others(nodes, k)))
    requires forall x :: x in LinkList(nodes) && x != "" ==> x in Everywhere(links, Others(nodes, k))
    ensures DistinctKeys(LinkList(WithLinks(nodes, k, links)))
    ensures forall x :: x in LinkList(nodes) && x != "" ==> x in LinkList(WithLinks(nodes, k, links))
    ensures forall x :: x in LinkList(WithLinks(nodes, k, links)) <==> x in Everywhere(links, Others(nodes, k))
  {
    var out := WithLinks(nodes, k, links);
    assert out[..k] == nodes[..k] && out[k + 1..] == nodes[k + 1..];
    assert Others(out, k) == Others(nodes, k);
    FocusOn(out, k);
    hide LinkList, Others, Everywhere, DistinctKeys;
  }

  lemma {:induction false} TargetsServed(nodes: seq<ChainNode>, k: nat, links: seq<ExitLink>)
    requires k < |nodes| && AllServed(links, Others(nodes, k), nodes[k].exitTargets)
    requires forall x :: x in LinkList(WithLinks(nodes, k, links)) <==> x in Everywhere(links, Others(nodes, k))
    ensures NodeServed(WithLinks(nodes, k, links), k)
  {
    var out := WithLinks(nodes, k, links);
    forall i | 0 <= i < |nodes[k].exitTargets|
      ensures TargetServed(out, k, nodes[k].exitTargets[i])
    {
      var target := nodes[k].exitTargets[i];
      assert Served(links, Others(nodes, k), target);
      hide LinkList, Others, Everywhere;
      var j :| 0 <= j < |links| && links[j].target == target && links[j].iface != ""
        && (links[j].address == "" ==> Exhausted(EXIT_NET, Set(Everywhere(links, Others(nodes, k)))));
      if links[j].address == "" {
        ExhaustedCarried(Everywhere(links, Others(nodes, k)), LinkList(out));
      }
      assert out[k].exitLinks[j].target == target;
    }
  }

  lemma {:induction false} StillServed(nodes: seq<ChainNode>, k: nat, links: seq<ExitLink>, i: nat)
    requires k < |nodes| && i < |nodes| && i != k && NodeServed(nodes, i)
    requires forall x :: x in LinkList(nodes) && x != "" ==> x in LinkList(WithLinks(nodes, k, links))
    ensures NodeServed(WithLinks(nodes, k, links), i)
  {
    var out := WithLinks(nodes, k, links);
    hide LinkList;
    forall t | 0 <= t < |nodes[i].exitTargets|
      ensures TargetServed(out, i, nodes[i].exitTargets[t])
    {
      var target := nodes[i].exitTargets[t];
      assert TargetServed(nodes, i, target);
      var j :| 0 <= j < |nodes[i].exitLinks| && nodes[i].exitLinks[j].target == target && nodes[i].exitLinks[j].iface != ""
        && (nodes[i].exitLinks[j].address == "" ==> Exhausted(EXIT_NET, Set(LinkList(nodes))));
      if nodes[i].exitLinks[j].address == "" {
        ExhaustedCarried(LinkList(nodes), LinkList(out));
      }
      assert out[i].exitLinks[j].target == target;
    }
  }

  /** Nodes keep everything but gain links, and links keep what they hold. */
  ghost predicate NodesKept(a: seq<ChainNode>, b: seq<ChainNode>) {
    |a| == |b| && forall i :: 0 <= i < |a| ==>
      b[i] == a[i].(exitLinks := b[i].exitLinks) && LinksKept(a[i].exitLinks, b[i].exitLinks)
  }

  /** The exit-link part of the key loop, over every node of the chain. */
  method AssignExitLinks(nodes: seq<ChainNode>) returns (out: seq<ChainNode>, ok: bool)
    requires DistinctKeys(LinkList(nodes))
    ensures NodesKept(nodes, out) && DistinctKeys(LinkList(out))
    ensures ok ==> forall k :: 0 <= k < |out| ==> NodeServed(out, k)
  {
    out := nodes;
    for k := 0 to |nodes|
      invariant NodesKept(nodes, out) && DistinctKeys(LinkList(out))
      invariant forall i :: 0 <= i < k ==> NodeServed(out, i)
    {
      var links;
      links, ok := EnsureLinks(out, k);
      hide LinkList, Others, Everywhere, DistinctKeys, NodeServed, AllServed;
      LinksReplaced(out, k, links);
      ghost var before := out;
      out := WithLinks(out, k, links);
      LinksKeptChain(nodes[k].exitLinks, before[k].exitLinks, links);
      if !ok {
        return;
      }
      TargetsServed(before, k, links);
      forall i | 0 <= i < k
        ensures NodeServed(out, i)
      {
        StillServed(before, k, links, i);
      }
    }
    ok := true;
  }

  lemma {:induction false} LinkListMember(nodes: seq<ChainNode>, k: nat, j: nat)
    requires k < |nodes| && j < |nodes[k].exitLinks|
    ensures nodes[k].exitLinks[j].address in LinkList(nodes)
  {
    LinkListAt(nodes, k);
    assert LinkAddresses(nodes[k].exitLinks)[j] == nodes[k].exitLinks[j].address;
  }

  /** With at most 253 exit links in the chain, every exit target has a link with an interface name and an address. */
  lemma {:induction false} ExitsFilled(nodes: seq<ChainNode>, k: nat, target: string)
    requires k < |nodes| && TargetServed(nodes, k, target) && |LinkList(nodes)| <= LAST_HOST - FIRST_HOST + 1
    ensures exists j :: 0 <= j < |nodes[k].exitLinks| && nodes[k].exitLinks[j].target == target &&
                        nodes[k].exitLinks[j].iface != "" && nodes[k].exitLinks[j].address != ""
  {
    var j :| 0 <= j < |nodes[k].exitLinks| && nodes[k].exitLinks[j].target == target && nodes[k].exitLinks[j].iface != ""
      && (nodes[k].exitLinks[j].address == "" ==> Exhausted(EXIT_NET, Set(LinkList(nodes))));
    if nodes[k].exitLinks[j].address == "" {
      LinkListMember(nodes, k, j);
      SetMember(LinkList(nodes), "");
      ExhaustedCount(EXIT_NET, Set(LinkList(nodes)));
    }
  }
}
