/** The cost overview: totals, groups by domain, hypervisor, cluster and host, and the
    top spenders. */
module Rollup {
  import opened Wrappers
  import opened Costs
  import opened Sorting
  import opened Strings

  datatype GroupCost = GroupCost(key: string, caption: string, count: nat, hourly: real, monthly: real)

  datatype Summary = Summary(
    currency: string,
    totalHourly: real,
    totalMonthly: real,
    vmHourly: real,
    containerHourly: real,
    entities: nat,
    running: nat,
    byDomain: seq<GroupCost>,
    byHypervisor: seq<GroupCost>,
    byCluster: seq<GroupCost>,
    byHost: seq<GroupCost>,
    topSpenders: seq<EntityCost>,
    potentialMonthlySavings: real,
    recommendations: int)

  // ----- what is measured, and by which key -----

  function Hourly(c: EntityCost): real {
    c.hourlyCost
  }

  function One(c: EntityCost): real {
    1.0
  }

  function DomainKey(c: EntityCost): string {
    c.entity.domain
  }

  function KindKey(c: EntityCost): string {
    c.entity.kind
  }

  function ClusterKey(c: EntityCost): string {
    c.entity.cluster
  }

  function HostKey(c: EntityCost): string {
    c.entity.host
  }

  function IsVM(c: EntityCost): bool {
    c.entity.domain == "vm"
  }

  function IsOther(c: EntityCost): bool {
    c.entity.domain != "vm"
  }

  function IsRunning(c: EntityCost): bool {
    c.entity.running
  }

  function WithKey(key: EntityCost -> string, k: string): EntityCost -> bool {
    c => key(c) == k
  }

  function WithAnyKey(key: EntityCost -> string): EntityCost -> bool {
    c => key(c) != ""
  }

  /** Sum over the entities that satisfy p. */
  function SumIf(costs: seq<EntityCost>, p: EntityCost -> bool, w: EntityCost -> real): real {
    if |costs| == 0 then 0.0
    else SumIf(costs[..|costs| - 1], p, w) + if p(costs[|costs| - 1]) then w(costs[|costs| - 1]) else 0.0
  }

  /** Sum over the entities with this key. */
  function SumOf(costs: seq<EntityCost>, key: EntityCost -> string, k: string, w: EntityCost -> real): real {
    SumIf(costs, WithKey(key, k), w)
  }

  /** Sum over the entities with a key at all. */
  function SumKeyed(costs: seq<EntityCost>, key: EntityCost -> string, w: EntityCost -> real): real {
    SumIf(costs, WithAnyKey(key), w)
  }

  // ----- the group maps -----

  /** Letters, digits and underscores do not separate words. */
  predicate SeparatesWords(c: char) {
    !('a' <= c <= 'z' || 'A' <= c <= 'Z' || '0' <= c <= '9' || c == '_')
  }

  /** strings.Title, for ASCII text. */
  function Title(s: string): string {
    if |s| == 0 then ""
    else
      var k := |s| - 1;
      var starts := k == 0 || SeparatesWords(s[k - 1]);
      Title(s[..k]) + [if starts && 'a' <= s[k] <= 'z' then s[k] - 32 as char else s[k]]
  }

  function DomainLabel(domain: string): string {
    if domain == "vm" then "Virtual machines" else if domain == "container" then "Containers" else Title(domain)
  }

  function NoLabel(key: string): string {
    ""
  }

  /** Adds one entity to a group map; an empty key is skipped. */
  function Add(m: map<string, GroupCost>, k: string, caption: string, c: EntityCost): map<string, GroupCost> {
    if k == "" then m
    else
      var g := if k in m then m[k] else GroupCost(k, caption, 0, 0.0, 0.0);
      m[k := GroupCost(g.key, g.caption, g.count + 1, g.hourly + c.hourlyCost, g.monthly + c.monthlyCost)]
  }

  /** The group map holds exactly the non-empty keys that occur, each with the sums over
      its own entities. */
  ghost predicate Groups(m: map<string, GroupCost>, costs: seq<EntityCost>, key: EntityCost -> string, caption: string -> string) {
    (forall k :: k in m <==> k != "" && Occurs(costs, key, k)) &&
    forall k :: k in m ==> GroupFits(m[k], costs, key, k) && m[k].caption == caption(k)
  }

  ghost predicate Occurs(costs: seq<EntityCost>, key: EntityCost -> string, k: string) {
    exists c :: c in costs && key(c) == k
  }

  ghost predicate GroupFits(g: GroupCost, costs: seq<EntityCost>, key: EntityCost -> string, k: string) {
    g.key == k &&
    g.count as real == SumOf(costs, key, k, One) &&
    g.hourly == SumOf(costs, key, k, Hourly) &&
    g.monthly == SumOf(costs, key, k, Monthly)
  }

  lemma SumIfPush(costs: seq<EntityCost>, c: EntityCost, p: EntityCost -> bool, w: EntityCost -> real)
    ensures SumIf(costs + [c], p, w) == SumIf(costs, p, w) + if p(c) then w(c) else 0.0
  {
    assert (costs + [c])[..|costs|] == costs;
  }

  lemma SumOfPush(costs: seq<EntityCost>, c: EntityCost, key: EntityCost -> string, k: string, w: EntityCost -> real)
    ensures SumOf(costs + [c], key, k, w) == SumOf(costs, key, k, w) + if key(c) == k then w(c) else 0.0
  {
    SumIfPush(costs, c, WithKey(key, k), w);
  }

  lemma {:induction false} SumOfAbsent(costs: seq<EntityCost>, key: EntityCost -> string, k: string, w: EntityCost -> real)
    requires !Occurs(costs, key, k)
    ensures SumOf(costs, key, k, w) == 0.0
  {
    if |costs| > 0 {
      var front, last := costs[..|costs| - 1], costs[|costs| - 1];
      assert costs == front + [last];
      assert last in costs;
      assert forall c :: c in front ==> c in costs;
      SumOfAbsent(front, key, k, w);
      SumOfPush(front, last, key, k, w);
    }
  }

  lemma OccursPush(costs: seq<EntityCost>, c: EntityCost, key: EntityCost -> string, k: string)
    ensures Occurs(costs + [c], key, k) <==> Occurs(costs, key, k) || key(c) == k
  {
    assert c in costs + [c];
    if Occurs(costs, key, k) {
      var x :| x in costs && key(x) == k;
      assert x in costs + [c];
    }
  }

  lemma GroupPush(g: GroupCost, costs: seq<EntityCost>, c: EntityCost, key: EntityCost -> string, k: string)
    requires GroupFits(g, costs, key, k)
    ensures GroupFits(
      if key(c) == k then GroupCost(g.key, g.caption, g.count + 1, g.hourly + c.hourlyCost, g.monthly + c.monthlyCost) else g,
      costs + [c], key, k)
  {
    SumOfPush(costs, c, key, k, One);
    SumOfPush(costs, c, key, k, Hourly);
    SumOfPush(costs, c, key, k, Monthly);
  }

  lemma NewGroup(costs: seq<EntityCost>, key: EntityCost -> string, k: string, caption: string)
    requires !Occurs(costs, key, k)
    ensures GroupFits(GroupCost(k, caption, 0, 0.0, 0.0), costs, key, k)
  {
    SumOfAbsent(costs, key, k, One);
    SumOfAbsent(costs, key, k, Hourly);
    SumOfAbsent(costs, key, k, Monthly);
  }

  lemma AddKeepsGroups(m: map<string, GroupCost>, costs: seq<EntityCost>, key: EntityCost -> string,
      caption: string -> string, c: EntityCost)
    requires Groups(m, costs, key, caption)
    ensures Groups(Add(m, key(c), caption(key(c)), c), costs + [c], key, caption)
  {
    var n := Add(m, key(c), caption(key(c)), c);
    forall k
      ensures k in n <==> k != "" && Occurs(costs + [c], key, k)
    {
      OccursPush(costs, c, key, k);
    }
    forall k | k in n
      ensures GroupFits(n[k], costs + [c], key, k) && n[k].caption == caption(k)
    {
      var g := if k in m then m[k] else GroupCost(k, caption(k), 0, 0.0, 0.0);
      if k !in m {
        NewGroup(costs, key, k, caption(k));
      }
      GroupPush(g, costs, c, key, k);
    }
  }

  // ----- the sorted lists -----

  function GroupRank(g: GroupCost): Rank {
    Rank(g.monthly, g.key)
  }

  function SpendRank(c: EntityCost): Rank {
    Rank(c.monthlyCost, c.entity.id)
  }

  ghost predicate Keyed(m: map<string, GroupCost>) {
    forall k :: k in m ==> m[k].key == k
  }

  /** The list holds each group of the map once, the dearest first. */
  ghost predicate Lists(out: seq<GroupCost>, m: map<string, GroupCost>) {
    Keyed(m) && Ordered(out, GroupRank) &&
    (forall g :: g in out ==> g.key in m && m[g.key] == g) &&
    (forall k :: k in m ==> m[k] in out) &&
    forall i, j :: 0 <= i < j < |out| ==> out[i].key != out[j].key
  }

  /** sortGroups: the map is walked in an arbitrary order. */
  method SortGroups(m: map<string, GroupCost>) returns (out: seq<GroupCost>)
    requires Keyed(m)
    ensures Lists(out, m)
  {
    var todo := m.Keys;
    var found: seq<GroupCost> := [];
    while todo != {}
      invariant todo <= m.Keys
      invariant forall g :: g in found ==> g.key in m && g.key !in todo && m[g.key] == g
      invariant forall k :: k in m && k !in todo ==> m[k] in found
      invariant forall i, j :: 0 <= i < j < |found| ==> found[i].key != found[j].key
      decreases |todo|
    {
      var k :| k in todo;
      todo := todo - {k};
      found := found + [m[k]];
    }
    out := SortBy(found, GroupRank);
    SortOrders(found, GroupRank);
    PermutedKeys(found, out);
  }

  lemma PermutedKeys(a: seq<GroupCost>, b: seq<GroupCost>)
    requires multiset(a) == multiset(b)
    requires forall i, j :: 0 <= i < j < |a| ==> a[i].key != a[j].key
    ensures forall g :: g in a <==> g in b
    ensures forall i, j :: 0 <= i < j < |b| ==> b[i].key != b[j].key
  {
    forall g
      ensures g in a <==> g in b
    {
      assert g in a <==> g in multiset(a);
      assert g in b <==> g in multiset(b);
    }
    forall i, j | 0 <= i < j < |b|
      ensures b[i].key != b[j].key
    {
      if b[i].key == b[j].key {
        assert b[i] in b && b[j] in b;
        assert b[i] in a && b[j] in a;
        var x :| 0 <= x < |a| && a[x] == b[i];
        var y :| 0 <= y < |a| && a[y] == b[j];
        assert a[x].key == a[y].key;
        assert x == y;
        TwiceInBag(b, i, j);
        OnceInBag(a, x);
        assert false;
      }
    }
  }

  lemma TwiceInBag<T>(s: seq<T>, i: nat, j: nat)
    requires i < j < |s| && s[i] == s[j]
    ensures multiset(s)[s[i]] >= 2
  {
    var front, back := s[..j], s[j..];
    assert s == front + back;
    assert front[i] == s[i] && back[0] == s[j];
    assert s[i] in multiset(front) && s[j] in multiset(back);
  }

  lemma OnceInBag(s: seq<GroupCost>, x: nat)
    requires x < |s| && forall i, j :: 0 <= i < j < |s| ==> s[i].key != s[j].key
    ensures multiset(s)[s[x]] == 1
  {
    var front, back := s[..x], s[x + 1..];
    assert s == front + ([s[x]] + back);
    assert s[x] !in front && s[x] !in back;
    assert multiset(s) == multiset(front) + (multiset{s[x]} + multiset(back));
  }

  /** The top n of a list: n of its entities, the dearest first, and none left out comes
      before one of them. */
  ghost predicate IsTop(top: seq<EntityCost>, costs: seq<EntityCost>, n: nat) {
    Ordered(top, SpendRank) && |top| == (if |costs| < n then |costs| else n) &&
    exists rest: seq<EntityCost> :: LeavesOut(top, rest, costs)
  }

  ghost predicate LeavesOut(top: seq<EntityCost>, rest: seq<EntityCost>, costs: seq<EntityCost>) {
    multiset(top) + multiset(rest) == multiset(costs) &&
    forall i, j :: 0 <= i < |top| && 0 <= j < |rest| ==> !Before(SpendRank(rest[j]), SpendRank(top[i]))
  }

  method TopSpenders(costs: seq<EntityCost>, n: nat) returns (top: seq<EntityCost>)
    ensures IsTop(top, costs, n)
  {
    top := SortBy(costs, SpendRank);
    SortOrders(costs, SpendRank);
    ghost var all := top;
    assert |all| == |costs| by {
      assert |multiset(all)| == |multiset(costs)|;
    }
    if |top| > n {
      top := top[..n];
    }
    ghost var rest := all[|top|..];
    assert all == top + rest;
    assert LeavesOut(top, rest, costs);
  }

  // ----- the overview -----

  /** What a summary's lists and totals are. */
  ghost predicate Sums(s: Summary, costs: seq<EntityCost>) {
    s.totalHourly == Sum(costs, Hourly) &&
    s.vmHourly == SumIf(costs, IsVM, Hourly) &&
    s.containerHourly == SumIf(costs, IsOther, Hourly) &&
    s.entities == |costs| &&
    s.running as real == SumIf(costs, IsRunning, One)
  }

  /** The list is a breakdown by this key with these labels. */
  ghost predicate Listed(out: seq<GroupCost>, costs: seq<EntityCost>, key: EntityCost -> string, caption: string -> string) {
    exists m :: Groups(m, costs, key, caption) && Lists(out, m)
  }

  /** The running totals after one more entity. */
  function Count(s: Summary, c: EntityCost): Summary {
    s.(
      entities := s.entities + 1,
      totalHourly := s.totalHourly + c.hourlyCost,
      running := if c.entity.running then s.running + 1 else s.running,
      vmHourly := if c.entity.domain == "vm" then s.vmHourly + c.hourlyCost else s.vmHourly,
      containerHourly := if c.entity.domain == "vm" then s.containerHourly else s.containerHourly + c.hourlyCost)
  }

  lemma CountKeepsSums(s: Summary, costs: seq<EntityCost>, c: EntityCost)
    requires Sums(s, costs)
    ensures Sums(Count(s, c), costs + [c])
  {
    SumIfPush(costs, c, IsVM, Hourly);
    SumIfPush(costs, c, IsOther, Hourly);
    SumIfPush(costs, c, IsRunning, One);
    assert (costs + [c])[..|costs|] == costs;
  }

  lemma GroupsAreKeyed(m: map<string, GroupCost>, costs: seq<EntityCost>, key: EntityCost -> string, caption: string -> string)
    requires Groups(m, costs, key, caption)
    ensures Keyed(m)
  {
    forall k | k in m
      ensures m[k].key == k
    {
      assert GroupFits(m[k], costs, key, k);
    }
  }

  /** The one pass over the entities: totals and the four group maps. */
  method Gather(costs: seq<EntityCost>)
    returns (s: Summary, byDomain: map<string, GroupCost>, byHV: map<string, GroupCost>,
      byCluster: map<string, GroupCost>, byHost: map<string, GroupCost>)
    ensures Sums(s, costs)
    ensures Groups(byDomain, costs, DomainKey, DomainLabel) && Groups(byHV, costs, KindKey, NoLabel)
    ensures Groups(byCluster, costs, ClusterKey, NoLabel) && Groups(byHost, costs, HostKey, NoLabel)
  {
    s := Summary("", 0.0, 0.0, 0.0, 0.0, 0, 0, [], [], [], [], [], 0.0, 0);
    byDomain, byHV, byCluster, byHost := map[], map[], map[], map[];
    for i := 0 to |costs|
      invariant Sums(s, costs[..i])
      invariant Groups(byDomain, costs[..i], DomainKey, DomainLabel) && Groups(byHV, costs[..i], KindKey, NoLabel)
      invariant Groups(byCluster, costs[..i], ClusterKey, NoLabel) && Groups(byHost, costs[..i], HostKey, NoLabel)
    {
      var c := costs[i];
      assert costs[..i + 1] == costs[..i] + [c];
      CountKeepsSums(s, costs[..i], c);
      s := Count(s, c);
      AddKeepsGroups(byDomain, costs[..i], DomainKey, DomainLabel, c);
      byDomain := Add(byDomain, c.entity.domain, DomainLabel(c.entity.domain), c);
      AddKeepsGroups(byHV, costs[..i], KindKey, NoLabel, c);
      byHV := Add(byHV, c.entity.kind, "", c);
      AddKeepsGroups(byCluster, costs[..i], ClusterKey, NoLabel, c);
      byCluster := Add(byCluster, c.entity.cluster, "", c);
      AddKeepsGroups(byHost, costs[..i], HostKey, NoLabel, c);
      byHost := Add(byHost, c.entity.host, "", c);
    }
    assert costs[..|costs|] == costs;
  }

  /** A group map's sorted list. */
  method ListGroups(m: map<string, GroupCost>, ghost costs: seq<EntityCost>, ghost key: EntityCost -> string,
      ghost caption: string -> string)
    returns (out: seq<GroupCost>)
    requires Groups(m, costs, key, caption)
    ensures Listed(out, costs, key, caption)
  {
    GroupsAreKeyed(m, costs, key, caption);
    out := SortGroups(m);
  }

  method Summarize(card: RateCard, costs: seq<EntityCost>, topN: int, savings: real, recCount: int) returns (s: Summary)
    ensures Sums(s, costs) && s.totalMonthly == s.totalHourly * HOURS_PER_MONTH
    ensures Listed(s.byDomain, costs, DomainKey, DomainLabel) && Listed(s.byHypervisor, costs, KindKey, NoLabel)
    ensures Listed(s.byCluster, costs, ClusterKey, NoLabel) && Listed(s.byHost, costs, HostKey, NoLabel)
    ensures IsTop(s.topSpenders, costs, if topN <= 0 then 10 else topN)
    ensures s.currency == (if card.currency == "" then "USD" else card.currency)
    ensures s.potentialMonthlySavings == savings && s.recommendations == recCount
  {
    var totals, domains, kinds, clusters, hosts := Gather(costs);
    var byDomain := ListGroups(domains, costs, DomainKey, DomainLabel);
    var byHypervisor := ListGroups(kinds, costs, KindKey, NoLabel);
    var byCluster := ListGroups(clusters, costs, ClusterKey, NoLabel);
    var byHost := ListGroups(hosts, costs, HostKey, NoLabel);
    var top := TopSpenders(costs, if topN <= 0 then 10 else topN);
    s := totals.(
      currency := card.Normalize().currency,
      totalMonthly := totals.totalHourly * HOURS_PER_MONTH,
      byDomain := byDomain,
      byHypervisor := byHypervisor,
      byCluster := byCluster,
      byHost := byHost,
      topSpenders := top,
      potentialMonthlySavings := savings,
      recommendations := recCount);
  }

  // ----- conservation -----

  function KeySum(keys: seq<string>, costs: seq<EntityCost>, key: EntityCost -> string, w: EntityCost -> real): real {
    if |keys| == 0 then 0.0
    else KeySum(keys[..|keys| - 1], costs, key, w) + SumOf(costs, key, keys[|keys| - 1], w)
  }

  ghost predicate DistinctKeys(keys: seq<string>) {
    forall i, j :: 0 <= i < j < |keys| ==> keys[i] != keys[j]
  }

  /** One more entity adds to the groups' sum exactly once, if its key is listed. */
  lemma {:induction false} KeySumPush(keys: seq<string>, costs: seq<EntityCost>, c: EntityCost, key: EntityCost -> string, w: EntityCost -> real)
    requires DistinctKeys(keys)
    ensures KeySum(keys, costs + [c], key, w) == KeySum(keys, costs, key, w) + if key(c) in keys then w(c) else 0.0
  {
    if |keys| > 0 {
      var front, last := keys[..|keys| - 1], keys[|keys| - 1];
      assert keys == front + [last];
      KeySumPush(front, costs, c, key, w);
      SumOfPush(costs, c, key, last, w);
      assert key(c) in keys <==> key(c) in front || key(c) == last;
      assert last !in front;
    }
  }

  lemma {:induction false} KeySumEmpty(keys: seq<string>, key: EntityCost -> string, w: EntityCost -> real)
    ensures KeySum(keys, [], key, w) == 0.0
  {
    if |keys| > 0 {
      KeySumEmpty(keys[..|keys| - 1], key, w);
    }
  }

  lemma {:induction false} KeysCoverAll(keys: seq<string>, costs: seq<EntityCost>, key: EntityCost -> string, w: EntityCost -> real)
    requires DistinctKeys(keys) && "" !in keys
    requires forall c :: c in costs && key(c) != "" ==> key(c) in keys
    ensures KeySum(keys, costs, key, w) == SumKeyed(costs, key, w)
  {
    if |costs| == 0 {
      KeySumEmpty(keys, key, w);
    } else {
      var front, last := costs[..|costs| - 1], costs[|costs| - 1];
      assert costs == front + [last];
      assert last in costs;
      assert forall c :: c in front ==> c in costs;
      KeysCoverAll(keys, front, key, w);
      KeySumPush(keys, front, last, key, w);
    }
  }

  function KeysOf(out: seq<GroupCost>): (keys: seq<string>)
    ensures |keys| == |out| && forall i :: 0 <= i < |out| ==> keys[i] == out[i].key
  {
    if |out| == 0 then [] else KeysOf(out[..|out| - 1]) + [out[|out| - 1].key]
  }

  function GroupHourly(g: GroupCost): real {
    g.hourly
  }

  function GroupMonthly(g: GroupCost): real {
    g.monthly
  }

  function GroupCount(g: GroupCost): real {
    g.count as real
  }

  /** The listed groups' own figures are the sums over their keys. */
  lemma {:induction false} ListSums(out: seq<GroupCost>, costs: seq<EntityCost>, key: EntityCost -> string)
    requires forall g :: g in out ==> GroupFits(g, costs, key, g.key)
    ensures Sum(out, GroupHourly) == KeySum(KeysOf(out), costs, key, Hourly)
    ensures Sum(out, GroupMonthly) == KeySum(KeysOf(out), costs, key, Monthly)
    ensures Sum(out, GroupCount) == KeySum(KeysOf(out), costs, key, One)
  {
    if |out| > 0 {
      var front, last := out[..|out| - 1], out[|out| - 1];
      assert last in out;
      assert forall g :: g in front ==> g in out;
      ListSums(front, costs, key);
      assert KeysOf(out)[..|out| - 1] == KeysOf(front);
    }
  }

  /** A breakdown conserves spend: its groups' hourly and monthly costs and counts add up
      to the totals over the entities that have a key. */
  lemma GroupsConserve(out: seq<GroupCost>, costs: seq<EntityCost>, key: EntityCost -> string, caption: string -> string)
    requires Listed(out, costs, key, caption)
    ensures Sum(out, GroupHourly) == SumKeyed(costs, key, Hourly)
    ensures Sum(out, GroupMonthly) == SumKeyed(costs, key, Monthly)
    ensures Sum(out, GroupCount) == SumKeyed(costs, key, One)
  {
    var m :| Groups(m, costs, key, caption) && Lists(out, m);
    var keys := KeysOf(out);
    forall g | g in out
      ensures GroupFits(g, costs, key, g.key) && g.key != ""
    {
      assert m[g.key] == g;
    }
    ListSums(out, costs, key);
    KeysAreCovered(out, m, costs, key, caption);
    KeysCoverAll(keys, costs, key, Hourly);
    KeysCoverAll(keys, costs, key, Monthly);
    KeysCoverAll(keys, costs, key, One);
  }

  lemma KeysAreCovered(out: seq<GroupCost>, m: map<string, GroupCost>, costs: seq<EntityCost>, key: EntityCost -> string,
      caption: string -> string)
    requires Groups(m, costs, key, caption) && Lists(out, m)
    ensures DistinctKeys(KeysOf(out)) && "" !in KeysOf(out)
    ensures forall c :: c in costs && key(c) != "" ==> key(c) in KeysOf(out)
  {
    var keys := KeysOf(out);
    forall c | c in costs && key(c) != ""
      ensures key(c) in keys
    {
      assert Occurs(costs, key, key(c));
      var k := key(c);
      assert k in m && GroupFits(m[k], costs, key, k);
      var i :| 0 <= i < |out| && out[i] == m[k];
      assert keys[i] == k;
    }
    forall i | 0 <= i < |out|
      ensures keys[i] != ""
    {
      assert out[i] in out;
    }
  }

  lemma {:induction false} AllKeyed(costs: seq<EntityCost>, key: EntityCost -> string, w: EntityCost -> real)
    requires forall c :: c in costs ==> key(c) != ""
    ensures SumKeyed(costs, key, w) == Sum(costs, w)
  {
    if |costs| > 0 {
      var front, last := costs[..|costs| - 1], costs[|costs| - 1];
      assert last in costs;
      assert forall c :: c in front ==> c in costs;
      AllKeyed(front, key, w);
    }
  }

  lemma {:induction false} VMsAndOthers(costs: seq<EntityCost>, w: EntityCost -> real)
    ensures SumIf(costs, IsVM, w) + SumIf(costs, IsOther, w) == Sum(costs, w)
  {
    if |costs| > 0 {
      VMsAndOthers(costs[..|costs| - 1], w);
    }
  }

  lemma {:induction false} SumOnes(costs: seq<EntityCost>)
    ensures Sum(costs, One) == |costs| as real
  {
    if |costs| > 0 {
      SumOnes(costs[..|costs| - 1]);
    }
  }

  lemma {:induction false} MonthlyIsHourly(costs: seq<EntityCost>)
    requires forall c :: c in costs ==> c.monthlyCost == c.hourlyCost * HOURS_PER_MONTH
    ensures Sum(costs, Monthly) == Sum(costs, Hourly) * HOURS_PER_MONTH
  {
    if |costs| > 0 {
      var front, last := costs[..|costs| - 1], costs[|costs| - 1];
      assert last in costs;
      assert forall c :: c in front ==> c in costs;
      MonthlyIsHourly(front);
    }
  }

  /** Every priced entity has a domain, so the per-domain groups add up to the grand
      totals: hourly, monthly and the number of entities. VMs and the rest split the
      hourly total between them. */
  lemma DomainsAddUp(s: Summary, costs: seq<EntityCost>)
    requires Sums(s, costs) && s.totalMonthly == s.totalHourly * HOURS_PER_MONTH
    requires Listed(s.byDomain, costs, DomainKey, DomainLabel)
    requires forall c :: c in costs ==> c.entity.domain != "" && c.monthlyCost == c.hourlyCost * HOURS_PER_MONTH
    ensures Sum(s.byDomain, GroupHourly) == s.totalHourly == s.vmHourly + s.containerHourly
    ensures Sum(s.byDomain, GroupMonthly) == s.totalMonthly
    ensures Sum(s.byDomain, GroupCount) == s.entities as real
  {
    GroupsConserve(s.byDomain, costs, DomainKey, DomainLabel);
    AllKeyed(costs, DomainKey, Hourly);
    AllKeyed(costs, DomainKey, Monthly);
    AllKeyed(costs, DomainKey, One);
    VMsAndOthers(costs, Hourly);
    SumOnes(costs);
    MonthlyIsHourly(costs);
  }

  /** The listing depends only on the groups, not on the order the map was walked in. */
  lemma {:induction false} ListingIsUnique(a: seq<GroupCost>, b: seq<GroupCost>, m: map<string, GroupCost>)
    requires Lists(a, m) && Lists(b, m)
    ensures a == b
    decreases |a|
  {
    if |b| > 0 {
      SomethingListed(b, a, m);
    }
    if |a| > 0 {
      var k := |a| - 1;
      SomethingListed(a, b, m);
      SameLast(a, b, m);
      DropLast(a, m);
      DropLast(b, m);
      ListingIsUnique(a[..k], b[..|b| - 1], m - {a[k].key});
      SameFrontAndLast(a, b);
    }
  }

  lemma SameFrontAndLast(a: seq<GroupCost>, b: seq<GroupCost>)
    requires |a| > 0 && |b| > 0 && a[..|a| - 1] == b[..|b| - 1] && a[|a| - 1] == b[|b| - 1]
    ensures a == b
  {
    assert a == a[..|a| - 1] + [a[|a| - 1]];
    assert b == b[..|b| - 1] + [b[|b| - 1]];
  }

  lemma SomethingListed(a: seq<GroupCost>, b: seq<GroupCost>, m: map<string, GroupCost>)
    requires Lists(a, m) && Lists(b, m) && |a| > 0
    ensures |b| > 0
  {
    assert a[0] in a;
    assert m[a[0].key] in b;
  }

  lemma SameLast(a: seq<GroupCost>, b: seq<GroupCost>, m: map<string, GroupCost>)
    requires Lists(a, m) && Lists(b, m) && |a| > 0 && |b| > 0
    ensures a[|a| - 1] == b[|b| - 1]
  {
    var x, y := a[|a| - 1], b[|b| - 1];
    assert x in a && y in b;
    assert m[x.key] == x && m[y.key] == y;
    var i :| 0 <= i < |b| && b[i] == x;
    var j :| 0 <= j < |a| && a[j] == y;
    assert x == y || !Before(GroupRank(y), GroupRank(x));
    assert x == y || !Before(GroupRank(x), GroupRank(y));
    BeforeIsAsymmetric(GroupRank(x), GroupRank(y));
  }

  lemma DropLast(a: seq<GroupCost>, m: map<string, GroupCost>)
    requires Lists(a, m) && |a| > 0
    ensures Lists(a[..|a| - 1], m - {a[|a| - 1].key})
  {
    var front, last := a[..|a| - 1], a[|a| - 1];
    var n := m - {last.key};
    assert last in a;
    forall g | g in front
      ensures g.key in n && n[g.key] == g
    {
      assert g in a;
      var i :| 0 <= i < |front| && front[i] == g;
      assert a[i].key != a[|a| - 1].key;
    }
    forall k | k in n
      ensures n[k] in front
    {
      var i :| 0 <= i < |a| && a[i] == m[k];
      assert a[i].key == k;
      assert front[i] == m[k];
    }
  }

  // ----- in plain figures -----

  /** The groups of a listing, dearest first and then by key. */
  lemma GroupsDescend(out: seq<GroupCost>, m: map<string, GroupCost>, i: nat, j: nat)
    requires Lists(out, m) && i < j < |out|
    ensures out[i].monthly > out[j].monthly || (out[i].monthly == out[j].monthly && Less(out[i].key, out[j].key))
  {
    OrderedMeans(out, GroupRank, i, j);
  }

  /** The top spenders, dearest first and then by id; nothing dearer is left out. */
  lemma SpendersDescend(top: seq<EntityCost>, costs: seq<EntityCost>, n: nat, i: nat)
    requires IsTop(top, costs, n) && i < |top|
    ensures forall j :: i < j < |top| ==> top[i].monthlyCost >= top[j].monthlyCost
    ensures forall j :: i < j < |top| && top[i].monthlyCost == top[j].monthlyCost && top[i].entity.id != top[j].entity.id ==>
      Less(top[i].entity.id, top[j].entity.id)
    ensures forall c :: c in costs && c !in top ==> c.monthlyCost <= top[i].monthlyCost
  {
    forall j | i < j < |top|
      ensures top[i].monthlyCost >= top[j].monthlyCost
      ensures top[i].monthlyCost == top[j].monthlyCost && top[i].entity.id != top[j].entity.id ==>
        Less(top[i].entity.id, top[j].entity.id)
    {
      OrderedMeans(top, SpendRank, i, j);
    }
    var rest: seq<EntityCost> :| LeavesOut(top, rest, costs);
    forall c | c in costs && c !in top
      ensures c.monthlyCost <= top[i].monthlyCost
    {
      assert c in multiset(costs);
      assert c in multiset(top) + multiset(rest);
      var j :| 0 <= j < |rest| && rest[j] == c;
      assert !Before(SpendRank(rest[j]), SpendRank(top[i]));
    }
  }

  /** Each breakdown groups by the field it is named after. */
  lemma BreakdownKeys(c: EntityCost)
    ensures DomainKey(c) == c.entity.domain && KindKey(c) == c.entity.kind
    ensures ClusterKey(c) == c.entity.cluster && HostKey(c) == c.entity.host
    ensures Hourly(c) == c.hourlyCost && Monthly(c) == c.monthlyCost
    ensures (IsVM(c) <==> c.entity.domain == "vm") && (IsOther(c) <==> c.entity.domain != "vm")
    ensures (IsRunning(c) <==> c.entity.running) && One(c) == 1.0 && NoLabel(c.entity.kind) == ""
  {}

  predicate PlainWord(s: string) {
    |s| > 0 && forall i :: 0 <= i < |s| ==> 'a' <= s[i] <= 'z'
  }

  /** The captions of the breakdown by domain; a domain of one plain word is capitalized. */
  lemma DomainCaptions(domain: string)
    ensures domain == "vm" ==> DomainLabel(domain) == "Virtual machines"
    ensures domain == "container" ==> DomainLabel(domain) == "Containers"
    ensures domain != "vm" && domain != "container" && PlainWord(domain) ==>
      DomainLabel(domain) == [domain[0] - 32 as char] + domain[1..]
  {
    if PlainWord(domain) {
      TitleOfWord(domain);
    }
  }

  lemma {:induction false} TitleOfWord(s: string)
    requires PlainWord(s)
    ensures Title(s) == [s[0] - 32 as char] + s[1..]
  {
    var k := |s| - 1;
    if k > 0 {
      TitleOfWord(s[..k]);
      assert s[1..] == s[..k][1..] + [s[k]];
    } else {
      assert Title(s[..0]) == "";
    }
  }

  lemma SeparatorsSpelled(c: char)
    ensures SeparatesWords(c) <==>
      c !in "abcdefghijklmnopqrstuvwxyz" && c !in "ABCDEFGHIJKLMNOPQRSTUVWXYZ" && c !in "0123456789" && c != '_'
  {}

  lemma TitlePush(s: string, d: char)
    requires |s| > 0
    ensures Title(s + [d]) == Title(s) + [if SeparatesWords(s[|s| - 1]) && 'a' <= d <= 'z' then d - 32 as char else d]
  {
    assert (s + [d])[..|s|] == s;
  }

  lemma TitleInside(s: string, d: char)
    requires |s| > 0 && 'a' <= s[|s| - 1] <= 'z'
    ensures Title(s + [d]) == Title(s) + [d]
  {
    TitlePush(s, d);
  }

  /** Only what separates words makes the next letter a capital. */
  lemma {:induction false} TitleOfTwo(a: string, c: char, b: string)
    requires PlainWord(a) && PlainWord(b) && !('a' <= c <= 'z')
    ensures Title(a + [c] + b) == Title(a) + [c] + if SeparatesWords(c) then Title(b) else b
  {
    var k := |b| - 1;
    if k == 0 {
      TitleOfOne(a, c, b);
    } else {
      var front, d := b[..k], b[k];
      TitleOfTwo(a, c, front);
      TitleInside(a + [c] + front, d);
      TitleInside(front, d);
      assert b == front + [d];
      OneLonger(a + [c], front, d);
      OneLonger(Title(a) + [c], if SeparatesWords(c) then Title(front) else front, d);
    }
  }

  lemma OneLonger(x: string, y: string, d: char)
    ensures x + (y + [d]) == (x + y) + [d]
  {}

  lemma TitleOfOne(a: string, c: char, b: string)
    requires PlainWord(a) && PlainWord(b) && |b| == 1 && !('a' <= c <= 'z')
    ensures Title(a + [c] + b) == Title(a) + [c] + if SeparatesWords(c) then Title(b) else b
  {
    assert b == [b[0]];
    TitlePush(a, c);
    TitlePush(a + [c], b[0]);
    TitleOfWord(b);
  }
}
