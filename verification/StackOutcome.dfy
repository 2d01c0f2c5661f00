/** When a stack reported as running is exactly a stack that is fully deployed. */
module StackOutcome {
  import opened Wrappers
  import opened Strings
  import opened ComposeModel
  import opened DependencyOrder
  import opened ProjectNames
  import opened ServiceSettings
  import opened StackPlan
  import opened StackDeploy

  /** A daemon gives different networks and different containers different ids. */
  ghost predicate DistinctIds(b: Behaviour) {
    (forall x, y :: b.networkId(x) == b.networkId(y) ==> x == y) &&
    (forall i: nat, j: nat :: b.containerId(i) == b.containerId(j) ==> i == j)
  }

  predicate Joined(done: seq<Action>, networkId: string, containerId: string) {
    exists i :: 0 <= i < |done| && done[i].Join? && done[i].networkId == networkId && done[i].containerId == containerId
  }

  // ----- what it means to be deployed -----

  /** Service i has been started and is on the default network and on every network it
      declared. */
  ghost predicate SpecDeployed(m: Model, b: Behaviour, p: Plan, base: nat, i: nat, done: seq<Action>)
    requires i < |p.specs|
  {
    var spec, cid := p.specs[i], ContainerIdAt(b, p, base, i);
    spec.service in m && Start(spec) in done && Joined(done, b.networkId(p.DefaultNetworkName()), cid) &&
    forall net :: net in m[spec.service].networks ==> Joined(done, b.networkId(ScopedNet(p.project, net)), cid)
  }

  ghost predicate AllDeployed(m: Model, b: Behaviour, p: Plan, base: nat, done: seq<Action>) {
    forall i: nat :: i < |p.specs| ==> SpecDeployed(m, b, p, base, i, done)
  }

  /** After the first k calls of the script, every service of the stack is. */
  ghost predicate Deployed(m: Model, b: Behaviour, p: Plan, base: nat, k: nat)
    requires k <= |Script(b, p, base)|
  {
    AllDeployed(m, b, p, base, Script(b, p, base)[..k])
  }

  /** The networks listed under the last service's container name. */
  function LastListed(p: Plan): seq<string>
    requires |p.specs| > 0
  {
    Lookup(p.extraNetworks, p.specs[|p.specs| - 1].name)
  }

  /** The plan's last call attaches the last service to a network that it needs and has
      not been attached to before: no explicit network is listed under its container name,
      or it declared some of its own and the last one listed is neither the default network
      nor listed twice. */
  predicate LastJoinMatters(m: Model, p: Plan) {
    |p.specs| > 0 && p.specs[|p.specs| - 1].service in m &&
    var listed := LastListed(p);
    |listed| == 0 ||
    (|m[p.specs[|p.specs| - 1].service].networks| > 0 &&
     listed[|listed| - 1] != p.DefaultNetworkName() && listed[|listed| - 1] !in listed[..|listed| - 1])
  }

  // ----- attachments in a script -----

  lemma JoinedAppend(s: seq<Action>, t: seq<Action>, networkId: string, containerId: string)
    ensures Joined(s + t, networkId, containerId) <==> Joined(s, networkId, containerId) || Joined(t, networkId, containerId)
  {
    if Joined(s, networkId, containerId) {
      var i :| 0 <= i < |s| && s[i].Join? && s[i].networkId == networkId && s[i].containerId == containerId;
      assert (s + t)[i] == s[i];
    }
    if Joined(t, networkId, containerId) {
      var i :| 0 <= i < |t| && t[i].Join? && t[i].networkId == networkId && t[i].containerId == containerId;
      assert (s + t)[|s| + i] == t[i];
    }
  }

  lemma JoinedPrefix(s: seq<Action>, k: nat, networkId: string, containerId: string)
    requires k <= |s| && Joined(s[..k], networkId, containerId)
    ensures Joined(s, networkId, containerId)
  {
    JoinedAppend(s[..k], s[k..], networkId, containerId);
    assert s == s[..k] + s[k..];
  }

  lemma JoinedMember(done: seq<Action>, a: Action)
    requires a in done && a.Join?
    ensures Joined(done, a.networkId, a.containerId)
  {}

  /** Attachments to these networks in turn. */
  function Joins(b: Behaviour, nets: seq<string>, cid: string, aliases: seq<string>): (js: seq<Action>)
    ensures |js| == |nets| && forall i :: 0 <= i < |nets| ==> js[i] == Join(b.networkId(nets[i]), cid, aliases)
  {
    if |nets| == 0 then []
    else Joins(b, nets[..|nets| - 1], cid, aliases) + [Join(b.networkId(nets[|nets| - 1]), cid, aliases)]
  }

  lemma {:induction false} JoinsKnown(b: Behaviour, known: seq<string>, nets: seq<string>, cid: string, aliases: seq<string>)
    requires forall n :: n in nets ==> n in known
    ensures JoinAllKnown(b, known, nets, cid, aliases) == Joins(b, nets, cid, aliases)
  {
    if |nets| > 0 {
      JoinsKnown(b, known, nets[..|nets| - 1], cid, aliases);
    }
  }

  lemma JoinedInJoins(b: Behaviour, nets: seq<string>, cid: string, aliases: seq<string>, net: string)
    requires DistinctIds(b)
    ensures Joined(Joins(b, nets, cid, aliases), b.networkId(net), cid) <==> net in nets
  {
    var js := Joins(b, nets, cid, aliases);
    if net in nets {
      var i :| 0 <= i < |nets| && nets[i] == net;
      assert js[i].Join?;
    }
  }

  /** The attachments of the first specs are of containers started before. */
  ghost predicate EarlierContainers(b: Behaviour, base: nat, done: seq<Action>) {
    forall a :: a in done && a.Join? ==> StartedWithin(b, base, |done|, a.containerId)
  }

  ghost predicate StartedWithin(b: Behaviour, base: nat, n: nat, cid: string) {
    exists c: nat :: base <= c < base + n && cid == b.containerId(c)
  }

  lemma {:induction false} OneContainer(b: Behaviour, known: seq<string>, nets: seq<string>, cid: string, aliases: seq<string>)
    ensures forall a :: a in JoinAllKnown(b, known, nets, cid, aliases) ==> a.Join? && a.containerId == cid
  {
    if |nets| > 0 {
      OneContainer(b, known, nets[..|nets| - 1], cid, aliases);
    }
  }

  lemma SpecContainer(b: Behaviour, p: Plan, spec: DeploySpec, cid: string)
    ensures forall a :: a in SpecScript(b, p, spec, cid) && a.Join? ==> a.containerId == cid
  {
    OneContainer(b, p.networks, Lookup(p.extraNetworks, spec.name), cid, Lookup(p.aliases, spec.name));
  }

  lemma {:induction false} EnsuresOnly(networks: seq<string>)
    ensures forall a :: a in EnsureAll(networks) ==> a.Ensure?
  {
    if |networks| > 0 {
      EnsuresOnly(networks[..|networks| - 1]);
    }
  }

  lemma {:induction false} ContainersSoFar(b: Behaviour, p: Plan, specs: seq<DeploySpec>, base: nat)
    ensures EarlierContainers(b, base, ScriptFor(b, p, specs, base))
  {
    if |specs| == 0 {
      EnsuresOnly(p.networks);
    } else {
      var rest, last := specs[..|specs| - 1], specs[|specs| - 1];
      var done := ScriptFor(b, p, rest, base);
      ContainersSoFar(b, p, rest, base);
      SpecContainer(b, p, last, b.containerId(base + |done|));
      MoreContainers(b, base, done, SpecScript(b, p, last, b.containerId(base + |done|)));
    }
  }

  lemma MoreContainers(b: Behaviour, base: nat, done: seq<Action>, part: seq<Action>)
    requires EarlierContainers(b, base, done)
    requires forall a :: a in part && a.Join? ==> a.containerId == b.containerId(base + |done|)
    ensures EarlierContainers(b, base, done + part)
  {
    forall a | a in done + part && a.Join?
      ensures StartedWithin(b, base, |done + part|, a.containerId)
    {
      if a in done {
        var c: nat :| base <= c < base + |done| && a.containerId == b.containerId(c);
        assert base <= c < base + |done + part|;
      } else {
        assert a in part && |part| > 0;
      }
    }
  }

  /** No earlier attachment is of the container started next. */
  lemma NotJoinedYet(b: Behaviour, base: nat, done: seq<Action>, networkId: string)
    requires DistinctIds(b) && EarlierContainers(b, base, done)
    ensures !Joined(done, networkId, b.containerId(base + |done|))
  {
    forall i | 0 <= i < |done| && done[i].Join?
      ensures done[i].containerId != b.containerId(base + |done|)
    {
      assert done[i] in done;
      var c: nat :| base <= c < base + |done| && done[i].containerId == b.containerId(c);
    }
  }

  // ----- the last service -----

  /** The script before the last service. */
  function Earlier(b: Behaviour, p: Plan, base: nat): seq<Action>
    requires |p.specs| > 0
  {
    ScriptFor(b, p, p.specs[..|p.specs| - 1], base)
  }

  /** The last service's calls but the very last one. */
  function LastPart(b: Behaviour, p: Plan, cid: string): seq<Action>
    requires |p.specs| > 0
  {
    var last, listed := p.specs[|p.specs| - 1], LastListed(p);
    var aliases := Lookup(p.aliases, last.name);
    if |listed| == 0 then [Start(last)]
    else [Start(last), Join(b.networkId(p.DefaultNetworkName()), cid, aliases)] + Joins(b, listed[..|listed| - 1], cid, aliases)
  }

  /** The network of the very last call. */
  function LastNet(p: Plan): string
    requires |p.specs| > 0
  {
    if |LastListed(p)| == 0 then p.DefaultNetworkName() else LastListed(p)[|LastListed(p)| - 1]
  }

  function AllButLast(b: Behaviour, p: Plan, base: nat): seq<Action>
    requires |p.specs| > 0
  {
    Earlier(b, p, base) + LastPart(b, p, b.containerId(base + |Earlier(b, p, base)|))
  }

  function LastCall(b: Behaviour, p: Plan, base: nat): Action
    requires |p.specs| > 0
  {
    Join(b.networkId(LastNet(p)), b.containerId(base + |Earlier(b, p, base)|),
         Lookup(p.aliases, p.specs[|p.specs| - 1].name))
  }

  lemma LastSpecScript(b: Behaviour, p: Plan, cid: string)
    requires |p.specs| > 0 && forall n :: n in LastListed(p) ==> n in p.networks
    ensures SpecScript(b, p, p.specs[|p.specs| - 1], cid) ==
      LastPart(b, p, cid) + [Join(b.networkId(LastNet(p)), cid, Lookup(p.aliases, p.specs[|p.specs| - 1].name))]
  {
    JoinsKnown(b, p.networks, LastListed(p), cid, Lookup(p.aliases, p.specs[|p.specs| - 1].name));
  }

  ghost predicate ListedKnown(p: Plan) {
    |p.specs| > 0 && forall n :: n in LastListed(p) ==> n in p.networks
  }

  lemma AllListedKnown(m: Model, p: Plan)
    requires PlanOf(m, p) && |p.specs| > 0
    ensures ListedKnown(p)
  {
    forall n | n in LastListed(p) ensures n in p.networks {
      NoLookupMisses(m, p, p.specs[|p.specs| - 1].name, n);
    }
  }

  lemma ScriptSplits(b: Behaviour, p: Plan, base: nat)
    requires |p.specs| > 0
    ensures Script(b, p, base) == Earlier(b, p, base) +
      SpecScript(b, p, p.specs[|p.specs| - 1], b.containerId(base + |Earlier(b, p, base)|))
  {}

  lemma Regroup(s: seq<Action>, t: seq<Action>, u: seq<Action>)
    ensures s + (t + u) == (s + t) + u
  {}

  lemma ScriptEnds(b: Behaviour, p: Plan, base: nat)
    requires ListedKnown(p)
    ensures Script(b, p, base) == AllButLast(b, p, base) + [LastCall(b, p, base)]
  {
    var earlier := Earlier(b, p, base);
    var cid := b.containerId(base + |earlier|);
    ScriptSplits(b, p, base);
    LastSpecScript(b, p, cid);
    Regroup(earlier, LastPart(b, p, cid), [LastCall(b, p, base)]);
  }

  /** net is attached to the last container before the very last call. */
  predicate JoinedBefore(p: Plan, net: string)
    requires |p.specs| > 0
  {
    var listed := LastListed(p);
    |listed| > 0 && (net == p.DefaultNetworkName() || net in listed[..|listed| - 1])
  }

  /** The attachments of the last container before the very last call. */
  lemma LastJoins(b: Behaviour, p: Plan, base: nat, net: string)
    requires DistinctIds(b) && |p.specs| > 0
    ensures Joined(AllButLast(b, p, base), b.networkId(net), b.containerId(base + |Earlier(b, p, base)|)) <==>
      JoinedBefore(p, net)
  {
    var done, listed := Earlier(b, p, base), LastListed(p);
    var cid := b.containerId(base + |done|);
    var aliases := Lookup(p.aliases, p.specs[|p.specs| - 1].name);
    ContainersSoFar(b, p, p.specs[..|p.specs| - 1], base);
    NotJoinedYet(b, base, done, b.networkId(net));
    JoinedAppend(done, LastPart(b, p, cid), b.networkId(net), cid);
    if |listed| > 0 {
      var head := [Start(p.specs[|p.specs| - 1]), Join(b.networkId(p.DefaultNetworkName()), cid, aliases)];
      JoinedAppend(head, Joins(b, listed[..|listed| - 1], cid, aliases), b.networkId(net), cid);
      JoinedInJoins(b, listed[..|listed| - 1], cid, aliases, net);
      assert head[1].Join?;
      assert Joined(head, b.networkId(net), cid) <==> net == p.DefaultNetworkName();
    }
  }

  // ----- a plan's own networks -----

  lemma {:induction false} ScopedLast(project: string, nets: seq<string>)
    ensures |ScopedNets(project, nets)| == |nets|
    ensures |nets| > 0 ==> ScopedNets(project, nets)[|nets| - 1] == ScopedNet(project, nets[|nets| - 1])
  {
    if |nets| > 0 {
      ScopedLast(project, nets[..|nets| - 1]);
    }
  }

  /** The last service's own networks are listed, and listed last, under its container
      name. */
  ghost predicate OwnListedLast(m: Model, p: Plan) {
    |p.specs| > 0 && p.specs[|p.specs| - 1].service in m &&
    var own, listed := m[p.specs[|p.specs| - 1].service].networks, LastListed(p);
    (|own| > 0 ==> |listed| > 0 && listed[|listed| - 1] == ScopedNet(p.project, own[|own| - 1])) &&
    forall net :: net in own ==> ScopedNet(p.project, net) in listed
  }

  lemma LastItem(m: Model, p: Plan) returns (before: seq<string>)
    requires PlanOf(m, p) && |p.specs| > 0
    ensures p.specs[|p.specs| - 1].service in m
    ensures LastListed(p) == before + ScopedNets(p.project, m[p.specs[|p.specs| - 1].service].networks)
  {
    var order, items: seq<Item> :| PlanFrom(m, p, order, items);
    DraftSpecs(items);
    var k := |items| - 1;
    var last := items[k];
    assert IsItem(p.project, m, order[k], last);
    before := Lookup(DraftOf(items[..k]).extra, last.spec.name);
    JoinAllAppends(DraftOf(items[..k]).extra, last.spec.name, last.nets, last.spec.name);
  }

  lemma ListedEndsWithOwn(m: Model, p: Plan)
    requires PlanOf(m, p) && |p.specs| > 0
    ensures OwnListedLast(m, p)
  {
    var before := LastItem(m, p);
    EndsWithOwn(m, p, before);
  }

  lemma EndsWithOwn(m: Model, p: Plan, before: seq<string>)
    requires |p.specs| > 0 && p.specs[|p.specs| - 1].service in m
    requires LastListed(p) == before + ScopedNets(p.project, m[p.specs[|p.specs| - 1].service].networks)
    ensures OwnListedLast(m, p)
  {
    var own := m[p.specs[|p.specs| - 1].service].networks;
    ScopedLast(p.project, own);
    forall net | net in own
      ensures ScopedNet(p.project, net) in LastListed(p)
    {
      ScopedContains(p.project, own, net);
    }
  }

  // ----- the guard is exact -----

  /** Everything the last service needs is attached early exactly when the last call does
      not matter. */
  lemma NeedsMetEarly(m: Model, p: Plan)
    requires OwnListedLast(m, p)
    ensures
      var own := m[p.specs[|p.specs| - 1].service].networks;
      JoinedBefore(p, p.DefaultNetworkName()) && (forall net :: net in own ==> JoinedBefore(p, ScopedNet(p.project, net)))
      <==> !LastJoinMatters(m, p)
  {
    var own, listed := m[p.specs[|p.specs| - 1].service].networks, LastListed(p);
    if |own| > 0 {
      assert own[|own| - 1] in own;
    }
    if |listed| > 0 {
      assert listed == listed[..|listed| - 1] + [listed[|listed| - 1]];
    }
  }

  /** So the last service is deployed before the last call exactly when that call does not
      matter. */
  lemma LastDeployedEarly(m: Model, b: Behaviour, p: Plan, base: nat)
    requires OwnListedLast(m, p) && DistinctIds(b)
    ensures SpecDeployed(m, b, p, base, |p.specs| - 1, AllButLast(b, p, base)) <==> !LastJoinMatters(m, p)
  {
    var last := p.specs[|p.specs| - 1];
    var own := m[last.service].networks;
    StartsBeforeLast(b, p, base);
    LastJoins(b, p, base, p.DefaultNetworkName());
    var done, cid := AllButLast(b, p, base), b.containerId(base + |Earlier(b, p, base)|);
    forall net | net in own
      ensures Joined(done, b.networkId(ScopedNet(p.project, net)), cid) <==> JoinedBefore(p, ScopedNet(p.project, net))
    {
      LastJoins(b, p, base, ScopedNet(p.project, net));
    }
    NeedsMetEarly(m, p);
  }

  lemma StartsBeforeLast(b: Behaviour, p: Plan, base: nat)
    requires |p.specs| > 0
    ensures Start(p.specs[|p.specs| - 1]) in AllButLast(b, p, base)
  {
    var done := Earlier(b, p, base);
    var part := LastPart(b, p, b.containerId(base + |done|));
    assert part[0] == Start(p.specs[|p.specs| - 1]) && (done + part)[|done|] == part[0];
  }

  lemma {:induction false} ScriptLonger(b: Behaviour, p: Plan, specs: seq<DeploySpec>, base: nat, i: nat)
    requires i < |specs|
    ensures |ScriptFor(b, p, specs[..i], base)| < |ScriptFor(b, p, specs, base)|
  {
    var rest := specs[..|specs| - 1];
    if i < |rest| {
      ScriptLonger(b, p, rest, base, i);
      assert rest[..i] == specs[..i];
    }
  }

  lemma OtherContainer(b: Behaviour, p: Plan, base: nat, i: nat)
    requires DistinctIds(b) && i < |p.specs| - 1
    ensures ContainerIdAt(b, p, base, i) != b.containerId(base + |Earlier(b, p, base)|)
  {
    var front := p.specs[..|p.specs| - 1];
    ScriptLonger(b, p, front, base, i);
    assert front[..i] == p.specs[..i];
  }

  /** The last call is none of the earlier services' business. */
  lemma OthersDeployedEarly(m: Model, b: Behaviour, p: Plan, base: nat, i: nat)
    requires ListedKnown(p) && DistinctIds(b) && i < |p.specs| - 1
    requires SpecDeployed(m, b, p, base, i, Script(b, p, base))
    ensures SpecDeployed(m, b, p, base, i, AllButLast(b, p, base))
  {
    ScriptEnds(b, p, base);
    OtherContainer(b, p, base, i);
    var cid, done, call := ContainerIdAt(b, p, base, i), AllButLast(b, p, base), LastCall(b, p, base);
    JoinedAppend(done, [call], b.networkId(p.DefaultNetworkName()), cid);
    forall net | net in m[p.specs[i].service].networks
      ensures Joined(done, b.networkId(ScopedNet(p.project, net)), cid)
    {
      JoinedAppend(done, [call], b.networkId(ScopedNet(p.project, net)), cid);
    }
  }

  /** The whole script deploys every service. */
  lemma ScriptDeploys(m: Model, b: Behaviour, p: Plan, base: nat)
    requires PlanOf(m, p)
    ensures AllDeployed(m, b, p, base, Script(b, p, base))
  {
    var script := Script(b, p, base);
    forall i: nat | i < |p.specs|
      ensures SpecDeployed(m, b, p, base, i, script)
    {
      ScriptIsComplete(m, b, p, base, i);
      var spec, cid := p.specs[i], ContainerIdAt(b, p, base, i);
      var aliases := Lookup(p.aliases, spec.name);
      JoinedMember(script, Join(b.networkId(p.DefaultNetworkName()), cid, aliases));
      forall net | net in m[spec.service].networks
        ensures Joined(script, b.networkId(ScopedNet(p.project, net)), cid)
      {
        JoinedMember(script, Join(b.networkId(ScopedNet(p.project, net)), cid, aliases));
      }
    }
  }

  lemma DeployedStays(m: Model, b: Behaviour, p: Plan, base: nat, s: seq<Action>, k: nat)
    requires k <= |s| && AllDeployed(m, b, p, base, s[..k])
    ensures AllDeployed(m, b, p, base, s)
  {
    forall i: nat | i < |p.specs|
      ensures SpecDeployed(m, b, p, base, i, s)
    {
      var spec, cid := p.specs[i], ContainerIdAt(b, p, base, i);
      assert SpecDeployed(m, b, p, base, i, s[..k]);
      assert s[..|s|] == s;
      InPrefix(s, k, |s|, Start(spec));
      JoinedPrefix(s, k, b.networkId(p.DefaultNetworkName()), cid);
      forall net | net in m[spec.service].networks
        ensures Joined(s, b.networkId(ScopedNet(p.project, net)), cid)
      {
        JoinedPrefix(s, k, b.networkId(ScopedNet(p.project, net)), cid);
      }
    }
  }

  lemma LastDecides(m: Model, b: Behaviour, p: Plan, base: nat, done: seq<Action>)
    requires |p.specs| > 0
    requires forall i: nat :: i < |p.specs| - 1 ==> SpecDeployed(m, b, p, base, i, done)
    ensures AllDeployed(m, b, p, base, done) <==> SpecDeployed(m, b, p, base, |p.specs| - 1, done)
  {}

  /** Everything is in place before the last call exactly when that call does not matter. */
  lemma DeployedEarly(m: Model, b: Behaviour, p: Plan, base: nat)
    requires ListedKnown(p) && OwnListedLast(m, p) && DistinctIds(b)
    requires AllDeployed(m, b, p, base, Script(b, p, base))
    ensures AllDeployed(m, b, p, base, AllButLast(b, p, base)) <==> !LastJoinMatters(m, p)
  {
    forall i: nat | i < |p.specs| - 1
      ensures SpecDeployed(m, b, p, base, i, AllButLast(b, p, base))
    {
      OthersDeployedEarly(m, b, p, base, i);
    }
    LastDecides(m, b, p, base, AllButLast(b, p, base));
    LastDeployedEarly(m, b, p, base);
  }

  /** The status reports a full deployment faithfully, wherever a run can stop. */
  ghost predicate Faithful(m: Model, b: Behaviour, p: Plan, base: nat) {
    forall k: nat :: k <= |Script(b, p, base)| ==>
      (StatusOf(Script(b, p, base), k) == Running <==> Deployed(m, b, p, base, k))
  }

  lemma StopsBeforeLast(b: Behaviour, p: Plan, base: nat, k: nat)
    requires k <= |Script(b, p, base)|
    ensures StatusOf(Script(b, p, base), k) == Running <==> k == |Script(b, p, base)|
  {}

  lemma NotBeforeLast(m: Model, b: Behaviour, p: Plan, base: nat, s: seq<Action>, k: nat)
    requires k < |s| && !AllDeployed(m, b, p, base, s[..|s| - 1])
    ensures !AllDeployed(m, b, p, base, s[..k])
  {
    if AllDeployed(m, b, p, base, s[..k]) {
      assert s[..|s| - 1][..k] == s[..k];
      DeployedStays(m, b, p, base, s[..|s| - 1], k);
    }
  }

  lemma FaithfulIfNotEarly(m: Model, b: Behaviour, p: Plan, base: nat, script: seq<Action>)
    requires script == Script(b, p, base) && |script| > 0 && AllDeployed(m, b, p, base, script)
    ensures Faithful(m, b, p, base) <==> !AllDeployed(m, b, p, base, script[..|script| - 1])
  {
    var n: nat := |script| - 1;
    assert script[..|script|] == script;
    StopsBeforeLast(b, p, base, n);
    if !AllDeployed(m, b, p, base, script[..n]) {
      forall k: nat | k <= |script|
        ensures StatusOf(script, k) == Running <==> Deployed(m, b, p, base, k)
      {
        StopsBeforeLast(b, p, base, k);
        if k < |script| {
          NotBeforeLast(m, b, p, base, script, k);
        }
      }
    } else {
      assert Deployed(m, b, p, base, n);
    }
  }

  lemma PreambleOnly(b: Behaviour, p: Plan, base: nat)
    requires |p.specs| == 0
    ensures |Script(b, p, base)| > 0
  {}

  lemma BeforeLastCall(m: Model, b: Behaviour, p: Plan, base: nat)
    requires PlanOf(m, p) && DistinctIds(b) && |p.specs| > 0
    ensures
      var script := Script(b, p, base);
      |script| > 0 && script[..|script| - 1] == AllButLast(b, p, base) &&
      (AllDeployed(m, b, p, base, AllButLast(b, p, base)) <==> !LastJoinMatters(m, p))
  {
    AllListedKnown(m, p);
    ListedEndsWithOwn(m, p);
    ScriptDeploys(m, b, p, base);
    ScriptEnds(b, p, base);
    DeployedEarly(m, b, p, base);
  }

  /** "running" is reported exactly when every service has been started and is on the
      default network and on every network it declared, for every place a run can stop, if
      and only if the plan's last call matters. */
  lemma RunningExactlyWhenDeployed(m: Model, b: Behaviour, p: Plan, base: nat)
    requires PlanOf(m, p) && DistinctIds(b)
    ensures Faithful(m, b, p, base) <==> LastJoinMatters(m, p)
  {
    if |p.specs| == 0 {
      PreambleOnly(b, p, base);
    } else {
      BeforeLastCall(m, b, p, base);
    }
    ScriptDeploys(m, b, p, base);
    FaithfulIfNotEarly(m, b, p, base, Script(b, p, base));
  }

  lemma OnlyOwnListed(m: Model, p: Plan)
    requires PlanOf(m, p) && |p.specs| > 0
    requires forall i :: 0 <= i < |p.specs| - 1 ==> p.specs[i].name != p.specs[|p.specs| - 1].name
    ensures p.specs[|p.specs| - 1].service in m
    ensures LastListed(p) == ScopedNets(p.project, m[p.specs[|p.specs| - 1].service].networks)
  {
    var order, items: seq<Item> :| PlanFrom(m, p, order, items);
    DraftSpecs(items);
    var k := |items| - 1;
    assert IsItem(p.project, m, order[k], items[k]);
    DraftUnshared(items, k);
  }

  /** When no other service shares the last one's container name, only its own list of
      networks decides: its last entry must name neither the default network nor, once
      scoped, a network listed before. */
  lemma OwnNamesSuffice(m: Model, p: Plan)
    requires PlanOf(m, p) && |p.specs| > 0
    requires forall i :: 0 <= i < |p.specs| - 1 ==> p.specs[i].name != p.specs[|p.specs| - 1].name
    ensures p.specs[|p.specs| - 1].service in m
    ensures
      var own := ScopedNets(p.project, m[p.specs[|p.specs| - 1].service].networks);
      LastJoinMatters(m, p) <==>
        |own| == 0 || (own[|own| - 1] != p.DefaultNetworkName() && own[|own| - 1] !in own[..|own| - 1])
  {
    OnlyOwnListed(m, p);
    ScopedLast(p.project, m[p.specs[|p.specs| - 1].service].networks);
  }

  // ----- the two ways to get it wrong -----

  /** Only the last call is refused, everything is in place, and the status is partial. */
  ghost predicate Mistaken(m: Model, b: Behaviour, p: Plan, base: nat) {
    var k := |Script(b, p, base)| - 1;
    k >= 0 && Deployed(m, b, p, base, k) && StatusOf(Script(b, p, base), k) == Partial
  }

  lemma StartedIsPartial(script: seq<Action>, k: nat, spec: DeploySpec)
    requires k < |script| && Start(spec) in script[..k]
    ensures StatusOf(script, k) == Partial
  {
    SomeStart(script[..k]);
    var i :| 0 <= i < |script[..k]| && script[..k][i] == Start(spec);
  }

  lemma MistakenIf(m: Model, b: Behaviour, p: Plan, base: nat)
    requires |p.specs| > 0 && |Script(b, p, base)| > 0
    requires Script(b, p, base)[..|Script(b, p, base)| - 1] == AllButLast(b, p, base)
    requires AllDeployed(m, b, p, base, AllButLast(b, p, base))
    ensures Mistaken(m, b, p, base)
  {
    var script := Script(b, p, base);
    StartsBeforeLast(b, p, base);
    StartedIsPartial(script, |script| - 1, p.specs[|p.specs| - 1]);
  }

  lemma EarlyIsMistaken(m: Model, b: Behaviour, p: Plan, base: nat)
    requires PlanOf(m, p) && DistinctIds(b) && |p.specs| > 0 && !LastJoinMatters(m, p)
    ensures Mistaken(m, b, p, base)
  {
    BeforeLastCall(m, b, p, base);
    MistakenIf(m, b, p, base);
  }

  const PLAIN := Service("nginx", "", [], [], [], [], "", [])

  /** The plan of one service "web" whose networks all have this scoped name. */
  function WebPlan(project: string, net: string, times: seq<string>): Plan {
    var name := project + "-" + "web";
    Plan(project,
      [DeploySpec("web", "nginx", name, map[], [], [], LabelsFor(project, "web"), RestartPolicy(""))],
      map[name := AliasesFor("web", name)], map[name := times], [net])
  }

  lemma WebOrder(m: Model)
    requires m.Keys == {"web"} && m["web"].dependsOn == []
    ensures CanonicalOrder(m, ["web"])
  {
    assert ["web"][..0] == [];
    assert GreedyRun(m, ["web"]);
    GreedyIsCanonical(m, ["web"]);
  }

  lemma WebItem(project: string, nets: seq<string>, net: string)
    ensures
      var m := map["web" := PLAIN.(networks := nets)];
      var item := Item(WebPlan(project, net, []).specs[0], ScopedNets(project, nets));
      IsItem(project, m, "web", item)
  {}

  lemma OneDraft(item: Item, net: string)
    requires |item.nets| > 0 && (set n | n in item.nets) == {net}
    ensures DraftOf([item]) ==
      Draft([item.spec], map[item.spec.name := AliasesFor(item.spec.service, item.spec.name)],
            map[item.spec.name := item.nets], {net})
  {
    var none := Draft([], map[], map[], {});
    assert [item][..0] == [] && DraftOf([]) == none;
    assert [] + item.nets == item.nets;
    assert AddItem(item, none).nets == {net};
  }

  lemma OneNetwork(net: string)
    ensures (set n | n in [net]) == {net} && Distinct([net])
  {}

  lemma PlanOfDraft(m: Model, p: Plan, order: seq<string>, items: seq<Item>)
    requires CanonicalOrder(m, order) && ItemsFor(p.project, m, order, items) && Distinct(p.networks)
    requires DraftOf(items) == Draft(p.specs, p.aliases, p.extraNetworks, set n | n in p.networks)
    ensures PlanOf(m, p)
  {
    assert PlanFrom(m, p, order, items);
  }

  lemma WebItems(project: string, nets: seq<string>, net: string, item: Item)
    requires item == Item(WebPlan(project, net, []).specs[0], ScopedNets(project, nets))
    ensures
      var m := map["web" := PLAIN.(networks := nets)];
      Valid(m) && CanonicalOrder(m, ["web"]) && ItemsFor(project, m, ["web"], [item])
  {
    WebOrder(map["web" := PLAIN.(networks := nets)]);
    WebItem(project, nets, net);
  }

  lemma WebPlanned(project: string, nets: seq<string>, net: string)
    requires |nets| > 0 && forall n :: n in nets ==> ScopedNet(project, n) == net
    ensures
      var m := map["web" := PLAIN.(networks := nets)];
      Valid(m) && PlanOf(m, WebPlan(project, net, ScopedNets(project, nets)))
  {
    var p := WebPlan(project, net, ScopedNets(project, nets));
    var item := Item(p.specs[0], ScopedNets(project, nets));
    WebItems(project, nets, net, item);
    AllTheSame(project, nets, net);
    OneDraft(item, net);
    OneNetwork(net);
    PlanOfDraft(map["web" := PLAIN.(networks := nets)], p, ["web"], [item]);
  }

  lemma WebDoesNotMatter(project: string, nets: seq<string>, net: string, times: seq<string>)
    requires times == [net, net] || (times == [net] && net == project + "_default")
    ensures !LastJoinMatters(map["web" := PLAIN.(networks := nets)], WebPlan(project, net, times))
  {
    assert LastListed(WebPlan(project, net, times)) == times;
    assert |times| == 2 ==> times[..1][0] == net;
  }

  lemma {:induction false} AllTheSame(project: string, nets: seq<string>, net: string)
    requires forall n :: n in nets ==> ScopedNet(project, n) == net
    ensures |ScopedNets(project, nets)| == |nets| && forall i :: 0 <= i < |nets| ==> ScopedNets(project, nets)[i] == net
    ensures |nets| > 0 ==> (set n | n in ScopedNets(project, nets)) == {net}
  {
    if |nets| > 0 {
      AllTheSame(project, nets[..|nets| - 1], net);
      assert ScopedNets(project, nets)[0] == net;
    }
  }

  /** A service that names one network twice. */
  lemma RepeatedNetwork(b: Behaviour, project: string, base: nat)
    requires DistinctIds(b)
    ensures
      var m, net := map["web" := PLAIN.(networks := ["a", "a"])], ScopedNet(project, "a");
      var p := WebPlan(project, net, [net, net]);
      Valid(m) && PlanOf(m, p) && Mistaken(m, b, p, base)
  {
    var m, net := map["web" := PLAIN.(networks := ["a", "a"])], ScopedNet(project, "a");
    WebPlanned(project, ["a", "a"], net);
    AllTheSame(project, ["a", "a"], net);
    assert ScopedNets(project, ["a", "a"]) == [net, net];
    WebDoesNotMatter(project, ["a", "a"], net, [net, net]);
    EarlyIsMistaken(m, b, WebPlan(project, net, [net, net]), base);
  }

  /** A service that names the network "default". */
  lemma DefaultNetwork(b: Behaviour, project: string, base: nat)
    requires DistinctIds(b)
    ensures
      var m, net := map["web" := PLAIN.(networks := ["default"])], project + "_default";
      var p := WebPlan(project, net, [net]);
      Valid(m) && PlanOf(m, p) && Mistaken(m, b, p, base)
  {
    var m, net := map["web" := PLAIN.(networks := ["default"])], project + "_default";
    CleanStays("default");
    assert ScopedNet(project, "default") == net;
    WebPlanned(project, ["default"], net);
    AllTheSame(project, ["default"], net);
    assert ScopedNets(project, ["default"]) == [net];
    WebDoesNotMatter(project, ["default"], net, [net]);
    EarlyIsMistaken(m, b, WebPlan(project, net, [net]), base);
  }

  /** The plan of two services that share the container name x; only the first one
      declares a network. */
  function SharedPlan(project: string, net: string): Plan {
    Plan(project,
      [DeploySpec("a", "nginx", "x", map[], [], [], LabelsFor(project, "a"), RestartPolicy("")),
       DeploySpec("b", "nginx", "x", map[], [], [], LabelsFor(project, "b"), RestartPolicy(""))],
      map["x" := AliasesFor("b", "x")], map["x" := [net]], [net])
  }

  function SharedModel(): Model {
    map["a" := PLAIN.(containerName := "x", networks := ["n"]),
        "b" := PLAIN.(containerName := "x", dependsOn := ["a"])]
  }

  lemma SharedOrder()
    ensures Valid(SharedModel()) && CanonicalOrder(SharedModel(), ["a", "b"])
  {
    var m, order := SharedModel(), ["a", "b"];
    assert order[..0] == [] && order[..1] == ["a"];
    assert GreedyRun(m, order);
    GreedyIsCanonical(m, order);
  }

  lemma SharedItems(project: string)
    ensures
      var m, specs := SharedModel(), SharedPlan(project, "").specs;
      IsItem(project, m, "a", Item(specs[0], [ScopedNet(project, "n")])) && IsItem(project, m, "b", Item(specs[1], []))
  {
    assert ["n"][..0] == [];
    assert ScopedNets(project, ["n"]) == [ScopedNet(project, "n")];
  }

  lemma SharedDraft(first: Item, second: Item, net: string)
    requires first.nets == [net] && second.nets == [] && first.spec.name == second.spec.name
    ensures DraftOf([first, second]) ==
      Draft([first.spec, second.spec], map[first.spec.name := AliasesFor(second.spec.service, first.spec.name)],
            map[first.spec.name := [net]], {net})
  {
    OneNetwork(net);
    OneDraft(first, net);
    assert [first, second][..1] == [first];
  }

  lemma SharedPlanned(project: string)
    ensures PlanOf(SharedModel(), SharedPlan(project, ScopedNet(project, "n")))
  {
    var net := ScopedNet(project, "n");
    var p := SharedPlan(project, net);
    var first, second := Item(p.specs[0], [net]), Item(p.specs[1], []);
    SharedOrder();
    SharedItems(project);
    SharedDraft(first, second, net);
    OneNetwork(net);
    PlanOfDraft(SharedModel(), p, ["a", "b"], [first, second]);
  }

  lemma SharedDoesNotMatter(project: string, net: string)
    ensures !LastJoinMatters(SharedModel(), SharedPlan(project, net))
  {}

  /** Two services with one container name: the second is attached to the first one's
      network for nothing. */
  lemma SharedContainerName(b: Behaviour, project: string, base: nat)
    requires DistinctIds(b)
    ensures
      var m, p := SharedModel(), SharedPlan(project, ScopedNet(project, "n"));
      Valid(m) && PlanOf(m, p) && Mistaken(m, b, p, base)
  {
    SharedOrder();
    SharedPlanned(project);
    SharedDoesNotMatter(project, ScopedNet(project, "n"));
    EarlyIsMistaken(SharedModel(), b, SharedPlan(project, ScopedNet(project, "n")), base);
  }
}
