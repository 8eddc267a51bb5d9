/** Operator route rules: their order, their expansion and their scope (store.go, routing.go,
    merged_config.go). */
module ManualRules {
  import opened Text
  import opened Topology
  import opened Routing

  datatype MatchType = Domain | DomainSuffix | DomainKeyword | IpCidr | ByProtocol | ByPreset | GeoSite | GeoIp | UnknownType

  /** `values` are the trimmed, non-empty match values. */
  datatype OperatorRule = OperatorRule(id: string, nodeId: string, priority: int, enabled: bool, matchType: MatchType,
                                       values: seq<string>, action: string, outboundTag: string, userIds: seq<string>)

  datatype Preset = Preset(action: string, domains: seq<string>)

  type Presets = map<string, Preset>

  // ---- Order ----

  function ForNode(store: seq<OperatorRule>, nodeId: string): seq<OperatorRule> {
    if store == [] then []
    else ForNode(store[..|store| - 1], nodeId) + if store[|store| - 1].nodeId == nodeId then [store[|store| - 1]] else []
  }

  /** The rules of one priority, in order. */
  function Of(rules: seq<OperatorRule>, k: int): seq<OperatorRule> {
    if rules == [] then []
    else (if rules[0].priority == k then [rules[0]] else []) + Of(rules[1..], k)
  }

  predicate Sorted(rules: seq<OperatorRule>) {
    forall i, j :: 0 <= i < j < |rules| ==> rules[i].priority <= rules[j].priority
  }

  lemma {:induction false} OfConcat(a: seq<OperatorRule>, b: seq<OperatorRule>, k: int)
    ensures Of(a + b, k) == Of(a, k) + Of(b, k)
  {
    if a == [] {
      assert a + b == b;
    } else {
      assert (a + b)[1..] == a[1..] + b;
      OfConcat(a[1..], b, k);
    }
  }

  lemma {:induction false} OfPair(x: OperatorRule, y: OperatorRule, k: int)
    requires x.priority != y.priority
    ensures Of([x, y], k) == Of([y, x], k)
  {
    assert [x, y][1..] == [y] && [y, x][1..] == [x];
    assert [x][1..] == [] && [y][1..] == [];
  }

  /** Swapping neighbours of different priority keeps every priority's rules in order. */
  lemma {:induction false} OfSwap(s: seq<OperatorRule>, j: nat, k: int)
    requires 0 < j < |s| && s[j].priority != s[j - 1].priority
    ensures Of(s[j := s[j - 1]][j - 1 := s[j]], k) == Of(s, k)
  {
    var a, x, y, b := s[..j - 1], s[j - 1], s[j], s[j + 1..];
    var t := s[j := x][j - 1 := y];
    assert s == a + ([x, y] + b);
    assert t == a + ([y, x] + b);
    OfConcat(a, [x, y] + b, k);
    OfConcat(a, [y, x] + b, k);
    OfConcat([x, y], b, k);
    OfConcat([y, x], b, k);
    OfPair(x, y, k);
  }

  ghost predicate SameByPriority(a: seq<OperatorRule>, b: seq<OperatorRule>) {
    forall k :: Of(a, k) == Of(b, k)
  }

  lemma {:induction false} SwapKeeps(before: seq<OperatorRule>, s: seq<OperatorRule>, j: nat)
    requires SameByPriority(s, before) && 0 < j < |s| && s[j].priority != s[j - 1].priority
    ensures SameByPriority(s[j := s[j - 1]][j - 1 := s[j]], before)
  {
    forall k
      ensures Of(s[j := s[j - 1]][j - 1 := s[j]], k) == Of(before, k)
    {
      OfSwap(s, j, k);
    }
  }

  /** Bubble the element at i down to its place among the sorted first i. */
  method SiftDown(a: array<OperatorRule>, i: nat)
    requires i < a.Length && Sorted(a[..i])
    modifies a
    ensures Sorted(a[..i + 1]) && SameByPriority(a[..], old(a[..]))
  {
    var j := i;
    while j > 0 && a[j].priority < a[j - 1].priority
      invariant 0 <= j <= i && SameByPriority(a[..], old(a[..]))
      invariant forall p, q :: 0 <= p < q <= i && q != j ==> a[p].priority <= a[q].priority
    {
      SwapKeeps(old(a[..]), a[..], j);
      ghost var was := a[..];
      a[j], a[j - 1] := a[j - 1], a[j];
      assert a[..] == was[j := was[j - 1]][j - 1 := was[j]];
      j := j - 1;
    }
  }

  /** The stable priority sort of ListRouteRulesForNode. */
  method SortByPriority(a: array<OperatorRule>)
    modifies a
    ensures Sorted(a[..]) && SameByPriority(a[..], old(a[..]))
  {
    if a.Length == 0 {
      return;
    }
    for i := 1 to a.Length
      invariant Sorted(a[..i]) && SameByPriority(a[..], old(a[..]))
    {
      SiftDown(a, i);
    }
    assert a[..a.Length] == a[..];
  }

  method ListRouteRulesForNode(store: seq<OperatorRule>, nodeId: string) returns (out: seq<OperatorRule>)
    ensures Sorted(out) && SameByPriority(out, ForNode(store, nodeId))
  {
    var picked: seq<OperatorRule> := [];
    for i := 0 to |store|
      invariant picked == ForNode(store[..i], nodeId)
    {
      assert store[..i + 1][..i] == store[..i];
      if store[i].nodeId == nodeId {
        picked := picked + [store[i]];
      }
    }
    assert store[..|store|] == store;
    if picked == [] {
      return picked;
    }
    var a := new OperatorRule[|picked|](i requires 0 <= i < |picked| => picked[i]);
    assert a[..] == picked;
    SortByPriority(a);
    out := a[..];
  }

  // ---- Expansion ----

  predicate TagChar(c: char) {
    'a' <= c <= 'z' || 'A' <= c <= 'Z' || '0' <= c <= '9' || c == '_' || c == '-' || c == '.'
  }

  predicate TagValid(tag: string) {
    tag != "" && |tag| <= 64 && forall i :: 0 <= i < |tag| ==> TagChar(tag[i])
  }

  function Lower(s: string): string {
    seq(|s|, i requires 0 <= i < |s| => if 'A' <= s[i] <= 'Z' then s[i] - 'A' + 'a' else s[i])
  }

  function RuleSetTag(t: MatchType, name: string): string {
    if t == GeoIp then "geoip-" + Lower(Trim(name)) else Trim(name)
  }

  function Prefixed(kind: string, values: seq<string>): seq<string> {
    seq(|values|, i requires 0 <= i < |values| => kind + values[i])
  }

  function RuleSets(t: MatchType, values: seq<string>): seq<string> {
    seq(|values|, i requires 0 <= i < |values| => "rule-set:" + RuleSetTag(t, values[i]))
  }

  const ADS := "category-ads-all"

  datatype Matcher = Refused | Matcher(protocol: seq<string>, dest: seq<string>, action: string)

  /** applyRuleMatcher: the matchers of one rule, and its action, which the ads preset rewrites. */
  function MatcherOf(r: OperatorRule, presets: Presets): Matcher {
    if r.values == [] then Refused
    else
      match r.matchType
      case Domain => Matcher([], Prefixed("domain:", r.values), r.action)
      case DomainSuffix => Matcher([], Prefixed("suffix:", r.values), r.action)
      case DomainKeyword => Matcher([], Prefixed("keyword:", r.values), r.action)
      case IpCidr => Matcher([], Prefixed("ip:", r.values), r.action)
      case ByProtocol => Matcher(r.values, [], r.action)
      case ByPreset =>
        if r.values[0] !in presets then Refused
        else if presets[r.values[0]].action == "reject" then
          Matcher([], ["rule-set:" + ADS], if r.action == "" || r.action == "route" then "reject" else r.action)
        else if presets[r.values[0]].domains == [] then Refused
        else Matcher([], Prefixed("suffix:", presets[r.values[0]].domains), r.action)
      case GeoSite => Geo(r)
      case GeoIp => Geo(r)
      case UnknownType => Refused
  }

  function Geo(r: OperatorRule): Matcher {
    if forall i :: 0 <= i < |r.values| ==> TagValid(RuleSetTag(r.matchType, r.values[i])) then
      Matcher([], RuleSets(r.matchType, r.values), r.action)
    else Refused
  }

  function ActionOf(action: string, outboundTag: string): Action {
    if action == "direct" then DialDirect
    else if action == "reject" || action == "block" then Reject
    else if action == "sniff" then Sniff
    else if action == "hijack-dns" then HijackDns
    else ToOutbound(if Trim(outboundTag) == "" then DIRECT_OUT else Trim(outboundTag))
  }

  /** usersByID: a repeated ID stands for its last user. */
  function UserById(users: seq<User>, id: string): (r: Option<User>)
    ensures r.Some? ==> exists i :: 0 <= i < |users| && users[i] == r.value && users[i].id == id && forall j :: i < j < |users| ==> users[j].id != id
    ensures r.None? ==> forall i :: 0 <= i < |users| ==> users[i].id != id
  {
    if users == [] then None
    else if users[|users| - 1].id == id then Some(users[|users| - 1])
    else UserById(users[..|users| - 1], id)
  }

  function Identities(u: User): seq<string> {
    (if u.vlessUuid != "" then [u.vlessUuid] else [])
    + (if u.tuicUuid != "" then [u.tuicUuid] else [])
    + (if u.hysteria2Password != "" then [u.hysteria2Password] else [])
  }

  function Addresses(ids: seq<string>, users: seq<User>): seq<string> {
    if ids == [] then []
    else
      var u := UserById(users, ids[|ids| - 1]);
      Addresses(ids[..|ids| - 1], users) + if u.Some? && u.value.awgAddress != "" then [u.value.awgAddress] else []
  }

  function AuthIds(ids: seq<string>, users: seq<User>): seq<string> {
    if ids == [] then []
    else
      var u := UserById(users, ids[|ids| - 1]);
      AuthIds(ids[..|ids| - 1], users) + if u.Some? then Identities(u.value) else []
  }

  /** The sing-box rules one operator rule becomes: one, one per kind of user identity, or none. */
  function ExpandOne(r: OperatorRule, scope: seq<string>, users: seq<User>, presets: Presets): seq<Rule> {
    var m := MatcherOf(r, presets);
    if !r.enabled || m.Refused? then []
    else
      var action := ActionOf(m.action, r.outboundTag);
      if r.userIds == [] then [Rule(scope, [], [], m.protocol, m.dest, action)]
      else
        var cidrs := Addresses(r.userIds, users);
        var auths := AuthIds(r.userIds, users);
        (if cidrs != [] then [Rule(scope, cidrs, [], m.protocol, m.dest, action)] else [])
        + (if auths != [] then [Rule(scope, [], auths, m.protocol, m.dest, action)] else [])
  }

  function Expand(rules: seq<OperatorRule>, scope: seq<string>, users: seq<User>, presets: Presets): seq<Rule> {
    if rules == [] then []
    else ExpandOne(rules[0], scope, users, presets) + Expand(rules[1..], scope, users, presets)
  }

  lemma {:induction false} ExpandConcat(a: seq<OperatorRule>, b: seq<OperatorRule>, scope: seq<string>, users: seq<User>, presets: Presets)
    ensures Expand(a + b, scope, users, presets) == Expand(a, scope, users, presets) + Expand(b, scope, users, presets)
  {
    hide ExpandOne;
    if a == [] {
      assert a + b == b;
    } else {
      assert (a + b)[1..] == a[1..] + b;
      ExpandConcat(a[1..], b, scope, users, presets);
    }
  }

  lemma {:induction false} ExpandSmall(rules: seq<OperatorRule>, scope: seq<string>, users: seq<User>, presets: Presets)
    requires |rules| <= 1
    ensures Expand(rules, scope, users, presets) == if rules == [] then [] else ExpandOne(rules[0], scope, users, presets)
  {
    hide ExpandOne;
    if rules != [] {
      assert rules[1..] == [];
    }
  }

  /** The loop over the users a rule is scoped to. */
  method CollectIdentities(ids: seq<string>, users: seq<User>) returns (cidrs: seq<string>, auths: seq<string>)
    ensures cidrs == Addresses(ids, users) && auths == AuthIds(ids, users)
  {
    cidrs, auths := [], [];
    for i := 0 to |ids|
      invariant cidrs == Addresses(ids[..i], users) && auths == AuthIds(ids[..i], users)
    {
      assert ids[..i + 1][..i] == ids[..i];
      var u := UserById(users, ids[i]);
      if u.None? {
        continue;
      }
      if u.value.awgAddress != "" {
        cidrs := cidrs + [u.value.awgAddress];
      }
      auths := auths + Identities(u.value);
    }
    assert ids[..|ids|] == ids;
  }

  /** What the expansion leaves in a rule: an enabled one that matches has its action rewritten. */
  function Rewritten(r: OperatorRule, presets: Presets): OperatorRule {
    var m := MatcherOf(r, presets);
    if !r.enabled || m.Refused? then r else r.(action := m.action)
  }

  function AllRewritten(rules: seq<OperatorRule>, presets: Presets): seq<OperatorRule> {
    seq(|rules|, i requires 0 <= i < |rules| => Rewritten(rules[i], presets))
  }

  /** The rewrite is not seen by a later expansion of the same rules, nor does it go any further. */
  lemma {:induction false} RewrittenAlike(rules: seq<OperatorRule>, scope: seq<string>, users: seq<User>, presets: Presets)
    ensures Expand(AllRewritten(rules, presets), scope, users, presets) == Expand(rules, scope, users, presets)
    ensures AllRewritten(AllRewritten(rules, presets), presets) == AllRewritten(rules, presets)
  {
    forall i | 0 <= i < |rules|
      ensures Rewritten(Rewritten(rules[i], presets), presets) == Rewritten(rules[i], presets)
    {
      RewrittenOnce(rules[i], scope, users, presets);
    }
    if rules != [] {
      RewrittenOnce(rules[0], scope, users, presets);
      RewrittenAlike(rules[1..], scope, users, presets);
      hide ExpandOne, Rewritten;
      assert AllRewritten(rules, presets)[1..] == AllRewritten(rules[1..], presets);
    }
  }

  lemma {:induction false} RewrittenOnce(r: OperatorRule, scope: seq<string>, users: seq<User>, presets: Presets)
    ensures ExpandOne(Rewritten(r, presets), scope, users, presets) == ExpandOne(r, scope, users, presets)
    ensures Rewritten(Rewritten(r, presets), presets) == Rewritten(r, presets)
  {
    hide Addresses, AuthIds, Prefixed, RuleSets, TagValid;
  }

  /** ExpandManualRouteRules. The rules are changed in place. */
  method ExpandManualRouteRules(rules: array<OperatorRule>, scope: seq<string>, users: seq<User>, presets: Presets)
    returns (out: seq<Rule>)
    modifies rules
    ensures out == Expand(old(rules[..]), scope, users, presets)
    ensures rules[..] == AllRewritten(old(rules[..]), presets)
  {
    hide ExpandOne, Expand, Rewritten;
    ghost var was := rules[..];
    out := [];
    assert was[..0] == [];
    ExpandSmall(was[..0], scope, users, presets);
    for i := 0 to rules.Length
      invariant forall k :: 0 <= k < rules.Length ==> rules[k] == if k < i then Rewritten(was[k], presets) else was[k]
      invariant out == Expand(was[..i], scope, users, presets)
    {
      var more := ExpandRule(rules, i, scope, users, presets);
      assert was[..i + 1] == was[..i] + [was[i]];
      ExpandConcat(was[..i], [was[i]], scope, users, presets);
      ExpandSmall([was[i]], scope, users, presets);
      out := out + more;
    }
    assert was[..|was|] == was;
  }

  method ExpandRule(rules: array<OperatorRule>, i: nat, scope: seq<string>, users: seq<User>, presets: Presets)
    returns (out: seq<Rule>)
    requires i < rules.Length
    modifies rules
    ensures out == ExpandOne(old(rules[i]), scope, users, presets)
    ensures rules[i] == Rewritten(old(rules[i]), presets)
    ensures forall k :: 0 <= k < rules.Length && k != i ==> rules[k] == old(rules[k])
  {
    if !rules[i].enabled {
      return [];
    }
    var m := MatcherOf(rules[i], presets);
    if m.Refused? {
      return [];
    }
    rules[i] := rules[i].(action := m.action);
    var r := rules[i];
    var action := ActionOf(r.action, r.outboundTag);
    if r.userIds == [] {
      return [Rule(scope, [], [], m.protocol, m.dest, action)];
    }
    var cidrs, auths := CollectIdentities(r.userIds, users);
    out := [];
    if cidrs != [] {
      out := out + [Rule(scope, cidrs, [], m.protocol, m.dest, action)];
    }
    if auths != [] {
      out := out + [Rule(scope, [], auths, m.protocol, m.dest, action)];
    }
  }

  // ---- What one rule decides ----

  /** One of the values is among the packet's traits, tagged with its kind. */
  predicate Trait(kind: string, values: seq<string>, p: Packet) {
    exists i :: 0 <= i < |values| && kind + values[i] in p.traits
  }

  predicate ValidNames(r: OperatorRule) {
    forall i :: 0 <= i < |r.values| ==> TagValid(RuleSetTag(r.matchType, r.values[i]))
  }

  predicate RuleSetTrait(r: OperatorRule, p: Packet) {
    exists i :: 0 <= i < |r.values| && "rule-set:" + RuleSetTag(r.matchType, r.values[i]) in p.traits
  }

  /** A site category is its own rule set. */
  predicate SiteTrait(values: seq<string>, p: Packet) {
    exists i :: 0 <= i < |values| && "rule-set:" + Trim(values[i]) in p.traits
  }

  /** A country's rule set is its code in lower case behind "geoip-". */
  predicate CountryTrait(values: seq<string>, p: Packet) {
    exists i :: 0 <= i < |values| && "rule-set:" + ("geoip-" + Lower(Trim(values[i]))) in p.traits
  }

  lemma {:induction false} RuleSetNames(r: OperatorRule, p: Packet)
    ensures r.matchType == GeoSite ==> (RuleSetTrait(r, p) <==> SiteTrait(r.values, p))
    ensures r.matchType == GeoIp ==> (RuleSetTrait(r, p) <==> CountryTrait(r.values, p))
  {
    hide Trim, Lower;
    if r.matchType == GeoSite {
      assert forall i :: 0 <= i < |r.values| ==> RuleSetTag(r.matchType, r.values[i]) == Trim(r.values[i]);
    } else if r.matchType == GeoIp {
      assert forall i :: 0 <= i < |r.values| ==> RuleSetTag(r.matchType, r.values[i]) == "geoip-" + Lower(Trim(r.values[i]));
    }
  }

  /** The rule names a preset that rejects. */
  predicate RejectingPreset(r: OperatorRule, presets: Presets) {
    r.matchType == ByPreset && r.values != [] && r.values[0] in presets && presets[r.values[0]].action == "reject"
  }

  /** The packet goes where the operator's matcher points. */
  predicate Meets(r: OperatorRule, presets: Presets, p: Packet) {
    match r.matchType
    case Domain => Trait("domain:", r.values, p)
    case DomainSuffix => Trait("suffix:", r.values, p)
    case DomainKeyword => Trait("keyword:", r.values, p)
    case IpCidr => Trait("ip:", r.values, p)
    case ByProtocol => exists i :: 0 <= i < |r.values| && r.values[i] in p.protocols
    case ByPreset =>
      && r.values != [] && r.values[0] in presets
      && if RejectingPreset(r, presets) then "rule-set:" + ADS in p.traits else Trait("suffix:", presets[r.values[0]].domains, p)
    case GeoSite => ValidNames(r) && SiteTrait(r.values, p)
    case GeoIp => ValidNames(r) && CountryTrait(r.values, p)
    case UnknownType => false
  }

  /** The packet comes from the user: from its tunnel address, or under one of its identities. */
  predicate ComesFrom(u: User, p: Packet) {
    || (u.awgAddress != "" && p.source == u.awgAddress)
    || (u.vlessUuid != "" && p.auth == u.vlessUuid)
    || (u.tuicUuid != "" && p.auth == u.tuicUuid)
    || (u.hysteria2Password != "" && p.auth == u.hysteria2Password)
  }

  /** The packet is one the rule is about: in scope, and from one of its users if it names any. */
  predicate Concerns(r: OperatorRule, scope: seq<string>, users: seq<User>, p: Packet) {
    && (scope == [] || p.inbound in scope)
    && (r.userIds == []
        || exists i :: 0 <= i < |r.userIds| && UserById(users, r.userIds[i]).Some? && ComesFrom(UserById(users, r.userIds[i]).value, p))
  }

  /** What the operator asked for; only a rejecting preset overrides a plain route. */
  function Verdict(r: OperatorRule, presets: Presets): Option<Action> {
    if r.action == "direct" then Some(DialDirect)
    else if r.action == "reject" || r.action == "block" then Some(Reject)
    else if r.action == "hijack-dns" then Some(HijackDns)
    else if r.action == "sniff" then None
    else if RejectingPreset(r, presets) && (r.action == "" || r.action == "route") then Some(Reject)
    else if Trim(r.outboundTag) == "" then Some(ToOutbound(DIRECT_OUT))
    else Some(ToOutbound(Trim(r.outboundTag)))
  }

  lemma {:induction false} TraitMatched(kind: string, values: seq<string>, p: Packet)
    ensures |Prefixed(kind, values)| == |values|
    ensures Trait(kind, values, p) <==> exists x :: x in Prefixed(kind, values) && x in p.traits
  {
    if i :| 0 <= i < |values| && kind + values[i] in p.traits {
      assert Prefixed(kind, values)[i] in Prefixed(kind, values);
    }
    if x :| x in Prefixed(kind, values) && x in p.traits {
      var i :| 0 <= i < |values| && Prefixed(kind, values)[i] == x;
    }
  }

  lemma {:induction false} RuleSetMatched(r: OperatorRule, p: Packet)
    ensures |RuleSets(r.matchType, r.values)| == |r.values|
    ensures RuleSetTrait(r, p) <==> exists x :: x in RuleSets(r.matchType, r.values) && x in p.traits
  {
    hide RuleSetTag;
    if i :| 0 <= i < |r.values| && "rule-set:" + RuleSetTag(r.matchType, r.values[i]) in p.traits {
      assert RuleSets(r.matchType, r.values)[i] in RuleSets(r.matchType, r.values);
    }
    if x :| x in RuleSets(r.matchType, r.values) && x in p.traits {
      var i :| 0 <= i < |r.values| && RuleSets(r.matchType, r.values)[i] == x;
    }
  }

  /** The matcher of a rule lets through exactly the packets that meet it, and is never empty. */
  predicate Lets(m: Matcher, p: Packet) {
    && m.Matcher?
    && (m.protocol == [] || exists x :: x in m.protocol && x in p.protocols)
    && (m.dest == [] || exists x :: x in m.dest && x in p.traits)
  }

  lemma {:induction false} MatcherMeets(r: OperatorRule, presets: Presets, p: Packet)
    ensures Lets(MatcherOf(r, presets), p) <==> Meets(r, presets, p)
  {
    TraitMatched("domain:", r.values, p);
    TraitMatched("suffix:", r.values, p);
    TraitMatched("keyword:", r.values, p);
    TraitMatched("ip:", r.values, p);
    RuleSetMatched(r, p);
    RuleSetNames(r, p);
    if r.values != [] && r.values[0] in presets {
      TraitMatched("suffix:", presets[r.values[0]].domains, p);
    }
    hide Trait, RuleSetTrait, SiteTrait, CountryTrait, Prefixed, RuleSets, TagValid, RuleSetTag;
    if r.values == [] {
      NothingToMeet(r, p);
    } else if r.matchType == ByPreset {
      PresetMeets(r, presets, p);
    } else if r.matchType == ByProtocol {
      assert (exists x :: x in r.values && x in p.protocols) <==> exists i :: 0 <= i < |r.values| && r.values[i] in p.protocols;
    }
  }

  lemma {:induction false} NothingToMeet(r: OperatorRule, p: Packet)
    requires r.values == []
    ensures forall kind :: !Trait(kind, r.values, p)
    ensures !SiteTrait(r.values, p) && !CountryTrait(r.values, p)
  {
  }

  lemma {:induction false} PresetMeets(r: OperatorRule, presets: Presets, p: Packet)
    requires r.matchType == ByPreset && r.values != []
    ensures Lets(MatcherOf(r, presets), p) <==> Meets(r, presets, p)
  {
    if r.values[0] in presets {
      TraitMatched("suffix:", presets[r.values[0]].domains, p);
      if presets[r.values[0]].domains == [] {
        assert !Trait("suffix:", presets[r.values[0]].domains, p);
      }
      assert forall x :: x in ["rule-set:" + ADS] <==> x == "rule-set:" + ADS;
      hide Trait, Prefixed;
    }
  }

  lemma {:induction false} MatcherAction(r: OperatorRule, presets: Presets)
    requires MatcherOf(r, presets).Matcher?
    ensures ActionOf(MatcherOf(r, presets).action, r.outboundTag) == match Verdict(r, presets) case Some(a) => a case None => Sniff
  {
    hide Trim, Prefixed, RuleSets, TagValid, RuleSetTag;
  }

  lemma {:induction false} AddressesHold(ids: seq<string>, users: seq<User>, x: string)
    ensures x in Addresses(ids, users) <==>
            exists i :: 0 <= i < |ids| && UserById(users, ids[i]).Some? && x != "" && UserById(users, ids[i]).value.awgAddress == x
  {
    hide UserById;
    if ids != [] {
      AddressesHold(ids[..|ids| - 1], users, x);
    }
  }

  lemma {:induction false} AuthIdsHold(ids: seq<string>, users: seq<User>, x: string)
    ensures x in AuthIds(ids, users) <==>
            exists i :: 0 <= i < |ids| && UserById(users, ids[i]).Some? && x in Identities(UserById(users, ids[i]).value)
  {
    hide UserById, Identities;
    if ids != [] {
      AuthIdsHold(ids[..|ids| - 1], users, x);
    }
  }

  /** The users named by a rule, as its two kinds of rules see them. */
  lemma {:induction false} UsersSeen(r: OperatorRule, users: seq<User>, p: Packet)
    ensures (p.source in Addresses(r.userIds, users) || p.auth in AuthIds(r.userIds, users)) <==>
            exists i :: 0 <= i < |r.userIds| && UserById(users, r.userIds[i]).Some? && ComesFrom(UserById(users, r.userIds[i]).value, p)
  {
    AddressesHold(r.userIds, users, p.source);
    AuthIdsHold(r.userIds, users, p.auth);
    hide UserById, Addresses, AuthIds;
  }

  lemma {:induction false} TwoRules(a: Rule, b: Rule, first: bool, second: bool, p: Packet)
    requires a.action == b.action
    ensures FirstMatch((if first then [a] else []) + (if second then [b] else []), p)
         == if a.action != Sniff && ((first && Matches(a, p)) || (second && Matches(b, p))) then Some(a.action) else None
  {
    hide Matches;
    assert [a][1..] == [] && [b][1..] == [];
    FirstMatchConcat(if first then [a] else [], if second then [b] else [], p);
  }

  /** The rules made for one matcher: for all users, by address, by identity. */
  lemma {:induction false} ScopedMatches(m: Matcher, scope: seq<string>, cidrs: seq<string>, auths: seq<string>, action: Action, p: Packet)
    requires m.Matcher?
    ensures Matches(Rule(scope, [], [], m.protocol, m.dest, action), p) <==> Lets(m, p) && (scope == [] || p.inbound in scope)
    ensures cidrs != [] ==> (Matches(Rule(scope, cidrs, [], m.protocol, m.dest, action), p)
                             <==> Lets(m, p) && (scope == [] || p.inbound in scope) && p.source in cidrs)
    ensures auths != [] ==> (Matches(Rule(scope, [], auths, m.protocol, m.dest, action), p)
                             <==> Lets(m, p) && (scope == [] || p.inbound in scope) && p.auth in auths)
  {
  }

  /** The expansion of one rule in terms of its matcher and its users' addresses and identities. */
  lemma {:induction false} ExpansionDecides(r: OperatorRule, scope: seq<string>, users: seq<User>, presets: Presets, p: Packet)
    requires r.enabled && MatcherOf(r, presets).Matcher?
    ensures var m, seen := MatcherOf(r, presets), p.source in Addresses(r.userIds, users) || p.auth in AuthIds(r.userIds, users);
            var action := ActionOf(m.action, r.outboundTag);
            FirstMatch(ExpandOne(r, scope, users, presets), p)
            == if action != Sniff && Lets(m, p) && (scope == [] || p.inbound in scope) && (r.userIds == [] || seen) then Some(action) else None
  {
    var m := MatcherOf(r, presets);
    var action := ActionOf(m.action, r.outboundTag);
    var cidrs, auths := Addresses(r.userIds, users), AuthIds(r.userIds, users);
    var all := Rule(scope, [], [], m.protocol, m.dest, action);
    var a, b := Rule(scope, cidrs, [], m.protocol, m.dest, action), Rule(scope, [], auths, m.protocol, m.dest, action);
    ScopedMatches(m, scope, cidrs, auths, action, p);
    hide Matches, MatcherOf, ActionOf, Addresses, AuthIds, Lets, FirstMatch;
    if r.userIds == [] {
      TwoRules(all, all, true, false, p);
      assert [all] + [] == [all];
    } else {
      TwoRules(a, b, cidrs != [], auths != [], p);
    }
  }

  lemma {:induction false} NothingExpanded(r: OperatorRule, scope: seq<string>, users: seq<User>, presets: Presets, p: Packet)
    requires !r.enabled || MatcherOf(r, presets).Refused?
    ensures FirstMatch(ExpandOne(r, scope, users, presets), p) == None
  {
    hide MatcherOf;
  }

  /** An operator rule decides exactly the packets it is about and that meet its matcher, and as the
      operator asked; a sniff rule decides nothing. */
  lemma {:induction false} RuleDecides(r: OperatorRule, scope: seq<string>, users: seq<User>, presets: Presets, p: Packet)
    ensures FirstMatch(ExpandOne(r, scope, users, presets), p)
         == if r.enabled && Meets(r, presets, p) && Concerns(r, scope, users, p) then Verdict(r, presets) else None
  {
    MatcherMeets(r, presets, p);
    UsersSeen(r, users, p);
    VerdictNotSniff(r, presets);
    hide ExpandOne, MatcherOf, Meets, Verdict, ActionOf, ComesFrom, UserById, Addresses, AuthIds;
    if r.enabled && MatcherOf(r, presets).Matcher? {
      MatcherAction(r, presets);
      ExpansionDecides(r, scope, users, presets, p);
      hide Lets;
    } else {
      NothingExpanded(r, scope, users, presets, p);
    }
  }

  lemma {:induction false} VerdictNotSniff(r: OperatorRule, presets: Presets)
    ensures Verdict(r, presets) != Some(Sniff)
  {
  }

  /** A rule scoped to a user takes hold of the user's connections on a chain's own inbound exactly
      when what that inbound reports is one of the user's credentials: always for TUIC, but the other
      inbounds report the name. */
  lemma {:induction false} ScopedUserIff(c: Chain, u: User, p: Packet)
    requires c.userProtocol != AwgUsers && p.auth == Reported(c, u) != "" && p.source != u.awgAddress
    ensures ComesFrom(u, p) <==> c.userProtocol == TuicUsers || u.name in {u.vlessUuid, u.tuicUuid, u.hysteria2Password}
  {
  }

  // ---- Priority decides ----

  function Hit(r: OperatorRule, scope: seq<string>, users: seq<User>, presets: Presets, p: Packet): Option<Action> {
    FirstMatch(ExpandOne(r, scope, users, presets), p)
  }

  ghost predicate FirstHitAt(rules: seq<OperatorRule>, m: nat, scope: seq<string>, users: seq<User>, presets: Presets, p: Packet)
  {
    && m < |rules| && Hit(rules[m], scope, users, presets, p).Some?
    && forall n :: 0 <= n < m ==> Hit(rules[n], scope, users, presets, p).None?
  }

  lemma {:induction false} FirstHitDecides(rules: seq<OperatorRule>, m: nat, scope: seq<string>, users: seq<User>, presets: Presets, p: Packet)
    requires FirstHitAt(rules, m, scope, users, presets, p)
    ensures FirstMatch(Expand(rules, scope, users, presets), p) == Hit(rules[m], scope, users, presets, p)
  {
    hide ExpandOne, Matches;
    FirstMatchConcat(ExpandOne(rules[0], scope, users, presets), Expand(rules[1..], scope, users, presets), p);
    if m > 0 {
      assert Hit(rules[0], scope, users, presets, p).None?;
      FirstHitDecides(rules[1..], m - 1, scope, users, presets, p);
    }
  }

  lemma {:induction false} NoHit(rules: seq<OperatorRule>, scope: seq<string>, users: seq<User>, presets: Presets, p: Packet)
    requires forall r :: r in rules ==> Hit(r, scope, users, presets, p).None?
    ensures FirstMatch(Expand(rules, scope, users, presets), p) == None
  {
    hide ExpandOne, Matches;
    if rules != [] {
      FirstMatchConcat(ExpandOne(rules[0], scope, users, presets), Expand(rules[1..], scope, users, presets), p);
      assert rules[0] in rules;
      NoHit(rules[1..], scope, users, presets, p);
    }
  }

  lemma {:induction false} OfMember(rules: seq<OperatorRule>, r: OperatorRule)
    ensures r in rules <==> r in Of(rules, r.priority)
  {
    if rules != [] {
      OfMember(rules[1..], r);
    }
  }

  /** Within its own priority the first hit of the whole list is still the first hit. */
  lemma {:induction false} FirstHitInClass(rules: seq<OperatorRule>, m: nat, scope: seq<string>, users: seq<User>, presets: Presets, p: Packet)
    requires FirstHitAt(rules, m, scope, users, presets, p)
    ensures FirstMatch(Expand(Of(rules, rules[m].priority), scope, users, presets), p) == Hit(rules[m], scope, users, presets, p)
  {
    hide ExpandOne, Matches, Hit;
    var k := rules[m].priority;
    var rest := Of(rules[1..], k);
    if m == 0 {
      assert FirstHitAt([rules[0]] + rest, 0, scope, users, presets, p);
      FirstHitDecides([rules[0]] + rest, 0, scope, users, presets, p);
    } else {
      FirstHitInClass(rules[1..], m - 1, scope, users, presets, p);
      if rules[0].priority == k {
        SkipMiss(rules[0], rest, scope, users, presets, p);
      } else {
        assert [] + rest == rest;
      }
    }
  }

  lemma {:induction false} SkipMiss(r: OperatorRule, rest: seq<OperatorRule>, scope: seq<string>, users: seq<User>, presets: Presets, p: Packet)
    requires Hit(r, scope, users, presets, p).None?
    ensures FirstMatch(Expand([r] + rest, scope, users, presets), p) == FirstMatch(Expand(rest, scope, users, presets), p)
  {
    hide ExpandOne, Matches;
    assert ([r] + rest)[1..] == rest;
    FirstMatchConcat(ExpandOne(r, scope, users, presets), Expand(rest, scope, users, presets), p);
  }

  ghost predicate LeastHitting(rules: seq<OperatorRule>, k: int, scope: seq<string>, users: seq<User>, presets: Presets, p: Packet) {
    && (exists r :: r in rules && r.priority == k && Hit(r, scope, users, presets, p).Some?)
    && (forall r :: r in rules && r.priority < k ==> Hit(r, scope, users, presets, p).None?)
  }

  lemma {:induction false} FindFirstHit(rules: seq<OperatorRule>, i: nat, scope: seq<string>, users: seq<User>, presets: Presets, p: Packet) returns (m: nat)
    requires i < |rules| && Hit(rules[i], scope, users, presets, p).Some?
    ensures m <= i && FirstHitAt(rules, m, scope, users, presets, p)
    decreases i
  {
    hide Hit;
    if n :| 0 <= n < i && Hit(rules[n], scope, users, presets, p).Some? {
      m := FindFirstHit(rules, n, scope, users, presets, p);
    } else {
      m := i;
    }
  }

  /** The sorted rules decide as the store's rules of the smallest priority that has a match do,
      in store order. */
  lemma {:induction false} PriorityDecides(store: seq<OperatorRule>, out: seq<OperatorRule>, k: int, scope: seq<string>,
                                           users: seq<User>, presets: Presets, p: Packet)
    requires Sorted(out) && SameByPriority(out, store) && LeastHitting(store, k, scope, users, presets, p)
    ensures FirstMatch(Expand(out, scope, users, presets), p) == FirstMatch(Expand(Of(store, k), scope, users, presets), p)
    ensures FirstMatch(Expand(out, scope, users, presets), p).Some?
  {
    hide Hit, Expand, FirstMatch;
    var r :| r in store && r.priority == k && Hit(r, scope, users, presets, p).Some?;
    OfMember(store, r);
    OfMember(out, r);
    var i :| 0 <= i < |out| && out[i] == r;
    var m := FindFirstHit(out, i, scope, users, presets, p);
    OfMember(out, out[m]);
    OfMember(store, out[m]);
    assert Of(out, out[m].priority) == Of(store, out[m].priority);
    assert out[m].priority == k;
    FirstHitDecides(out, m, scope, users, presets, p);
    FirstHitInClass(out, m, scope, users, presets, p);
  }

  // ---- Scope ----

  predicate EntersBy(n: ChainNode, nodeId: string, ib: NodeInbound) {
    n.id == nodeId && n.inboundRef == ib.profileId
  }

  predicate IsChainEntry(chains: seq<Chain>, nodeId: string, ib: NodeInbound) {
    && ib.profileId != ""
    && exists i, k :: 0 <= i < |chains| && chains[i].IsLevelized() && 0 <= k < |chains[i].levels[0].nodes| && EntersBy(chains[i].levels[0].nodes[k], nodeId, ib)
  }

  predicate Standalone(chains: seq<Chain>, info: NodeInfo, i: nat)
    requires i < |info.inbounds|
  {
    !IsChainSourced(info.inbounds[i]) && !IsChainEntry(chains, info.id, info.inbounds[i])
  }

  /** A user-facing inbound tag of the node. */
  ghost predicate UserFacing(roles: seq<Role>, info: NodeInfo, chains: seq<Chain>, overlay: bool, tag: string) {
    || (overlay && tag == TUN_IN)
    || (exists r :: r in roles && r.isEntry && r.chain.userProtocol != AwgUsers && tag == UserInTag(r.chain, r.node.id))
    || (exists i :: 0 <= i < |info.inbounds| && Standalone(chains, info, i) && tag == InboundTag(info, i))
  }

  /** manualRuleInboundScope: exactly the user-facing tags, each once. */
  method ManualRuleInboundScope(roles: seq<Role>, info: NodeInfo, chains: seq<Chain>, overlay: bool) returns (tags: seq<string>)
    ensures forall t :: t in tags <==> UserFacing(roles, info, chains, overlay, t)
    ensures forall i, j :: 0 <= i < j < |tags| ==> tags[i] != tags[j]
  {
    tags := if overlay then [TUN_IN] else [];
    for n := 0 to |roles|
      invariant forall i, j :: 0 <= i < j < |tags| ==> tags[i] != tags[j]
      invariant forall t :: t in tags <==> UserFacing(roles[..n], info.(inbounds := []), chains, overlay, t)
    {
      var r := roles[n];
      assert roles[..n + 1] == roles[..n] + [r];
      if r.isEntry && r.chain.userProtocol != AwgUsers && UserInTag(r.chain, r.node.id) !in tags {
        tags := tags + [UserInTag(r.chain, r.node.id)];
      }
    }
    assert roles[..|roles|] == roles;
    var seen := tags;
    for n := 0 to |info.inbounds|
      invariant forall i, j :: 0 <= i < j < |tags| ==> tags[i] != tags[j]
      invariant forall t :: t in tags <==> t in seen || exists i :: 0 <= i < n && Standalone(chains, info, i) && t == InboundTag(info, i)
    {
      if Standalone(chains, info, n) && InboundTag(info, n) !in tags {
        tags := tags + [InboundTag(info, n)];
      }
    }
  }

  lemma {:induction false} ExpandScoped(rules: seq<OperatorRule>, scope: seq<string>, users: seq<User>, presets: Presets, r: Rule)
    requires r in Expand(rules, scope, users, presets)
    ensures r.inbound == scope
  {
    if r !in ExpandOne(rules[0], scope, users, presets) {
      ExpandScoped(rules[1..], scope, users, presets, r);
    }
  }

  ghost predicate Untouched(scope: seq<string>, tag: string) {
    forall rules: seq<OperatorRule>, users: seq<User>, presets: Presets, p: Packet :: p.inbound == tag ==>
      FirstMatch(Expand(rules, scope, users, presets), p) == None
  }

  lemma {:induction false} OutOfScope(rules: seq<OperatorRule>, scope: seq<string>, users: seq<User>, presets: Presets, p: Packet)
    requires scope != [] && p.inbound !in scope
    ensures FirstMatch(Expand(rules, scope, users, presets), p) == None
  {
    forall r | r in Expand(rules, scope, users, presets)
      ensures !Matches(r, p)
    {
      ExpandScoped(rules, scope, users, presets, r);
    }
    NoMatch(Expand(rules, scope, users, presets), p);
  }

  /** A rule that blocks one domain, and a packet to that domain, as a witness. */
  lemma {:induction false} InScopeHit(scope: seq<string>, tag: string)
    requires scope == [] || tag in scope
    ensures !Untouched(scope, tag)
  {
    var r := OperatorRule("r", "n", 0, true, Domain, ["x"], "reject", "", []);
    var p := Packet(tag, "", "", {}, {"domain:" + "x"});
    var out := Rule(scope, [], [], [], Prefixed("domain:", ["x"]), Reject);
    assert ExpandOne(r, scope, [], map[]) == [out];
    assert [r][1..] == [];
    assert Expand([r], scope, [], map[]) == [out] + [];
    assert out.dest[0] == "domain:" + "x";
    assert out.dest[0] in out.dest && out.dest[0] in p.traits;
    assert Matches(out, p);
    assert FirstMatch(Expand([r], scope, [], map[]), p) == Some(Reject);
  }

  /** Operator rules leave every packet of an inbound alone exactly when the node has some
      user-facing inbound and that inbound is not one of them. */
  lemma {:induction false} UntouchedIff(scope: seq<string>, tag: string)
    ensures Untouched(scope, tag) <==> scope != [] && tag !in scope
  {
    if scope == [] || tag in scope {
      InScopeHit(scope, tag);
    } else {
      forall rules: seq<OperatorRule>, users: seq<User>, presets: Presets, p: Packet | p.inbound == tag
        ensures FirstMatch(Expand(rules, scope, users, presets), p) == None
      {
        OutOfScope(rules, scope, users, presets, p);
      }
    }
  }

  /** A multi-entry chain's tag for a node reads like another chain's transit tag: the ID is
      "transport-in", or ends in "-transport-in", and the other chain is named after the rest. */
  ghost predicate Spells(c: Chain, nodeId: string, name: string) {
    && |EntryNodes(c)| > 1
    && ((nodeId == "transport-in" && name == c.name + "-user-in")
        || (exists x :: nodeId == x + "-transport-in" && name == c.name + "-user-in-" + x))
  }

  predicate EndsWith(s: string, tail: string) {
    |s| >= |tail| && s[|s| - |tail|..] == tail
  }

  lemma {:induction false} ShortTagDiffers(a: string, name: string)
    ensures a + "-user-in" != name + "-transport-in"
  {
    assert (a + "-user-in")[|a + "-user-in"| - 4] == 'r';
    assert (name + "-transport-in")[|name + "-transport-in"| - 4] == 't';
  }

  lemma {:induction false} LongSuffix(front: string, id: string, name: string, tail: string)
    requires front + id == name + tail && |id| >= |tail|
    ensures id == id[..|id| - |tail|] + tail && name == front + id[..|id| - |tail|]
  {
    var s, k := front + id, |id| - |tail|;
    assert id == s[|front|..] && tail == s[|name|..] && name == s[..|name|];
    assert id[k..] == tail;
    assert s[..|name|] == front + id[..k];
  }

  lemma {:induction false} ShortSuffix(front: string, id: string, name: string, tail: string)
    requires front + id == name + tail && |id| + 1 == |tail|
    ensures id == tail[1..] && front == name + tail[..1]
  {
    var s := front + id;
    assert id == s[|front|..] && tail == s[|name|..] && name == s[..|name|] && front == s[..|front|];
  }

  lemma {:induction false} LongEnough(a: string, id: string, name: string)
    requires a + "-user-in-" + id == name + "-transport-in"
    ensures |id| >= 12
  {
    var tag := a + "-user-in-" + id;
    TagEnds(a, "-user-in-", id);
    TailOf(name, "-transport-in");
    DashPlace(tag, |a|, |tag|);
  }

  /** How a long tag can read like a transit tag. */
  lemma {:induction false} LongTag(a: string, id: string, name: string)
    requires a + "-user-in-" + id == name + "-transport-in"
    ensures id == "transport-in" ==> name == a + "-user-in"
    ensures id != "transport-in" ==> exists x :: id == x + "-transport-in" && name == a + "-user-in-" + x
  {
    LongEnough(a, id, name);
    if |id| == 12 {
      ShortSuffix(a + "-user-in-", id, name, "-transport-in");
      assert (a + "-user-in-")[..|a| + 8] == a + "-user-in";
      assert (name + "-")[..|name|] == name;
    } else {
      LongSuffix(a + "-user-in-", id, name, "-transport-in");
      assert id == id[..|id| - 13] + "-transport-in";
    }
  }

  lemma {:induction false} TagEnds(a: string, b: string, c: string)
    ensures (a + b + c)[|a|..|a| + |b|] == b && (a + b + c)[|a| + |b|..] == c
  {
  }

  lemma {:induction false} TailOf(a: string, b: string)
    ensures (a + b)[|a|..] == b && (a + b)[..|a|] == a
  {
  }

  /** "-user-in-" and "-transport-in" overlap in at most the last dash. */
  lemma {:induction false} DashPlace(tag: string, at: nat, n: nat)
    requires n == |tag| >= 13 && at + 9 <= n
    requires tag[n - 13..] == "-transport-in" && tag[at..at + 9] == "-user-in-"
    ensures at + 9 <= n - 12
  {
    var end := tag[n - 13..];
    forall p | n - 12 <= p < n
      ensures tag[p] != '-' || tag[p - 1] != 'n'
    {
      assert end[p - (n - 13)] == tag[p] && end[p - 1 - (n - 13)] == tag[p - 1];
    }
    assert tag[at..at + 9][8] == tag[at + 8] && tag[at..at + 9][7] == tag[at + 7];
  }

  lemma {:induction false} LongTagBack(a: string, id: string, name: string)
    ensures id == "transport-in" && name == a + "-user-in" ==> a + "-user-in-" + id == name + "-transport-in"
    ensures (exists x :: id == x + "-transport-in" && name == a + "-user-in-" + x) ==> a + "-user-in-" + id == name + "-transport-in"
  {
    if id == "transport-in" && name == a + "-user-in" {
      assert a + "-user-in-" + id == a + "-user-in" + "-transport-in";
    }
    if x :| id == x + "-transport-in" && name == a + "-user-in-" + x {
      assert a + "-user-in-" + id == a + "-user-in-" + x + "-transport-in";
    }
  }

  /** The long tags are equal exactly when the ID spells the rest. */
  lemma {:induction false} LongTagIff(a: string, id: string, name: string)
    ensures a + "-user-in-" + id == name + "-transport-in" <==>
              (id == "transport-in" && name == a + "-user-in") || exists x :: id == x + "-transport-in" && name == a + "-user-in-" + x
  {
    LongTagBack(a, id, name);
    if a + "-user-in-" + id == name + "-transport-in" {
      LongTag(a, id, name);
    }
  }

  lemma {:induction false} UserTagIsTransit(c: Chain, nodeId: string, name: string)
    ensures UserInTag(c, nodeId) == TransportInTag(name) <==> Spells(c, nodeId, name)
    ensures Spells(c, nodeId, name) ==> |EntryNodes(c)| > 1 && EndsWith(nodeId, "transport-in")
  {
    SamePrefix(c.name + "-user-in-" + nodeId, name + "-transport-in");
    SamePrefix(c.name + "-user-in", name + "-transport-in");
    ShortTagDiffers(c.name, name);
    LongTagIff(c.name, nodeId, name);
    TailFound(nodeId);
    hide EndsWith, EntryNodes;
  }

  lemma {:induction false} TailFound(id: string)
    ensures id == "transport-in" || (exists x :: id == x + "-transport-in") ==> EndsWith(id, "transport-in")
  {
    if x :| id == x + "-transport-in" {
      assert id == x + "-" + "transport-in";
    }
  }

  lemma {:induction false} SamePrefix(a: string, b: string)
    ensures "ch-" + a == "ch-" + b <==> a == b
  {
    if "ch-" + a == "ch-" + b {
      assert ("ch-" + a)[3..] == a && ("ch-" + b)[3..] == b;
    }
  }

  /** A transit tag is user-facing exactly when the operator typed it for a standalone inbound, or
      a multi-entry chain's node ID spells it. */
  lemma {:induction false} TransitTagScope(roles: seq<Role>, info: NodeInfo, chains: seq<Chain>, overlay: bool, name: string)
    ensures UserFacing(roles, info, chains, overlay, TransportInTag(name)) <==>
            || (exists r :: r in roles && r.isEntry && r.chain.userProtocol != AwgUsers && Spells(r.chain, r.node.id, name))
            || (exists i :: 0 <= i < |info.inbounds| && Standalone(chains, info, i) && info.inbounds[i].tag == TransportInTag(name))
  {
    assert TransportInTag(name)[0] == 'c';
    forall i | 0 <= i < |info.inbounds|
      ensures StandaloneTag(i, info.inbounds[i].protocol) != TransportInTag(name)
    {
      assert StandaloneTag(i, info.inbounds[i].protocol)[0] == 's';
    }
    assert TransportInTag(name) != TUN_IN;
    hide Spells, Standalone, UserInTag, TransportInTag, StandaloneTag;
    forall r | r in roles
      ensures UserInTag(r.chain, r.node.id) == TransportInTag(name) <==> Spells(r.chain, r.node.id, name)
    {
      UserTagIsTransit(r.chain, r.node.id, name);
    }
  }

  lemma {:induction false} DropMissing(a: seq<Rule>, b: seq<Rule>, c: seq<Rule>, d: seq<Rule>, p: Packet)
    requires FirstMatch(b, p) == None
    ensures FirstMatch(a + (b + c) + d, p) == FirstMatch(a + c + d, p)
  {
    hide FirstMatch;
    FirstMatchConcat(a + (b + c), d, p);
    FirstMatchConcat(a, b + c, p);
    FirstMatchConcat(b, c, p);
    FirstMatchConcat(a + c, d, p);
    FirstMatchConcat(a, c, p);
  }

  lemma {:induction false} MergedSplit(roles: seq<Role>, info: NodeInfo, users: map<string, seq<User>>, manual: seq<Rule>)
    ensures MergedRules(roles, info, users, manual) == manual + MergedRules(roles, info, users, [])
  {
    hide Pins, Defaults, StandaloneRules;
    assert [] + Pins(roles, users) == Pins(roles, users);
  }

  /** Transit packets, DNS included, are decided as if the operator had no rules at all. */
  lemma {:induction false} TransitUnchanged(roles: seq<Role>, info: NodeInfo, users: map<string, seq<User>>, rules: seq<OperatorRule>,
                                            scope: seq<string>, all: seq<User>, presets: Presets, p: Packet)
    requires roles != [] && scope != [] && p.inbound !in scope
    ensures var manual := Expand(rules, scope, all, presets);
            var without, loaded := RouteSection(roles, info, users, [], true), RouteSection(roles, info, users, manual, true);
            without.Some? && loaded.Some? && Decision(loaded.value, p) == Decision(without.value, p)
  {
    var manual := Expand(rules, scope, all, presets);
    var base := MergedRules(roles, info, users, []);
    OutOfScope(rules, scope, all, presets, p);
    MergedSplit(roles, info, users, manual);
    var empty: seq<Rule> := [];
    hide Expand, MergedRules, OverlayNeeded, FirstMatch, CatchAllTag;
    if OverlayNeeded(roles, info) {
      DropMissing([SNIFF, HIJACK], manual, base, [CatchAll(roles)], p);
    } else {
      SniffGone(manual, base, p);
    }
  }

  /** On a node with some user-facing inbound, where no multi-entry chain's node ID ends in
      "transport-in" and no standalone inbound was given a transit tag, operator rules change the
      decision for no transit packet of any chain. */
  lemma {:induction false} TransitSafe(roles: seq<Role>, info: NodeInfo, chains: seq<Chain>, overlay: bool, users: map<string, seq<User>>,
                                       rules: seq<OperatorRule>, scope: seq<string>, all: seq<User>, presets: Presets, name: string, p: Packet)
    requires roles != [] && scope != [] && p.inbound == TransportInTag(name)
    requires forall t :: t in scope <==> UserFacing(roles, info, chains, overlay, t)
    requires forall r :: r in roles && |EntryNodes(r.chain)| > 1 ==> !EndsWith(r.node.id, "transport-in")
    requires forall i :: 0 <= i < |info.inbounds| && Standalone(chains, info, i) ==> info.inbounds[i].tag != TransportInTag(name)
    ensures var manual := Expand(rules, scope, all, presets);
            var without, loaded := RouteSection(roles, info, users, [], true), RouteSection(roles, info, users, manual, true);
            without.Some? && loaded.Some? && Decision(loaded.value, p) == Decision(without.value, p)
  {
    hide RouteSection, Decision, Expand, UserFacing, Standalone, TransportInTag, EndsWith, Spells, EntryNodes;
    TransitTagScope(roles, info, chains, overlay, name);
    forall r | r in roles
      ensures !Spells(r.chain, r.node.id, name)
    {
      UserTagIsTransit(r.chain, r.node.id, name);
    }
    TransitUnchanged(roles, info, users, rules, scope, all, presets, p);
  }

  lemma {:induction false} SniffGone(manual: seq<Rule>, base: seq<Rule>, p: Packet)
    requires FirstMatch(manual, p) == None
    ensures FirstMatch([SNIFF] + (manual + base), p) == FirstMatch(base, p)
    ensures FirstMatch(manual + base, p) == FirstMatch(base, p)
  {
    assert ([SNIFF] + (manual + base))[1..] == manual + base;
    FirstMatchConcat(manual, base, p);
  }
}
