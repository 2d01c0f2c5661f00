/** Running a deployment plan against a container daemon that may refuse any call. */
module StackDeploy {
  import opened Wrappers
  import opened Strings
  import opened ComposeModel
  import opened DependencyOrder
  import opened StackPlan

  /** A call the daemon carried out. */
  datatype Action =
    | Ensure(network: string)
    | Start(spec: DeploySpec)
    | Join(networkId: string, containerId: string, aliases: seq<string>)

  /** How the daemon behaves: which calls succeed, counted from its first one, and
      the ids it hands out. */
  datatype Behaviour = Behaviour(
    up: nat -> bool,
    networkId: string -> string,
    containerId: nat -> string)

  class Docker {
    const b: Behaviour
    var calls: nat
    var log: seq<Action>

    constructor (b: Behaviour)
      ensures this.b == b && calls == 0 && log == []
    {
      this.b := b;
      calls, log := 0, [];
    }

    method Call(a: Action) returns (ok: bool)
      modifies this
      ensures ok == b.up(old(calls)) && calls == old(calls) + 1
      ensures log == if ok then old(log) + [a] else old(log)
    {
      ok := b.up(calls);
      if ok {
        log := log + [a];
      }
      calls := calls + 1;
    }

    method EnsureProjectNetwork(name: string) returns (id: Option<string>)
      modifies this
      ensures id == if b.up(old(calls)) then Some(b.networkId(name)) else None
      ensures calls == old(calls) + 1
      ensures log == if id.Some? then old(log) + [Ensure(name)] else old(log)
    {
      var ok := Call(Ensure(name));
      id := if ok then Some(b.networkId(name)) else None;
    }

    method ContainerCreateAndStart(spec: DeploySpec) returns (id: Option<string>)
      modifies this
      ensures id == if b.up(old(calls)) then Some(b.containerId(old(calls))) else None
      ensures calls == old(calls) + 1
      ensures log == if id.Some? then old(log) + [Start(spec)] else old(log)
    {
      var n := calls;
      var ok := Call(Start(spec));
      id := if ok then Some(b.containerId(n)) else None;
    }

    method ConnectToNetwork(networkId: string, containerId: string, aliases: seq<string>) returns (ok: bool)
      modifies this
      ensures ok == b.up(old(calls)) && calls == old(calls) + 1
      ensures log == if ok then old(log) + [Join(networkId, containerId, aliases)] else old(log)
    {
      ok := Call(Join(networkId, containerId, aliases));
    }
  }

  // ----- the script a plan stands for -----

  function EnsureAll(networks: seq<string>): seq<Action> {
    if |networks| == 0 then [] else EnsureAll(networks[..|networks| - 1]) + [Ensure(networks[|networks| - 1])]
  }

  function JoinAllKnown(b: Behaviour, known: seq<string>, nets: seq<string>, cid: string, aliases: seq<string>): seq<Action> {
    if |nets| == 0 then []
    else
      var n := nets[|nets| - 1];
      JoinAllKnown(b, known, nets[..|nets| - 1], cid, aliases) +
      if n in known then [Join(b.networkId(n), cid, aliases)] else []
  }

  /** Everything done for one spec: start it, attach it to the default network and
      then to its own networks, as far as those were created. */
  function SpecScript(b: Behaviour, p: Plan, spec: DeploySpec, cid: string): seq<Action> {
    var aliases := Lookup(p.aliases, spec.name);
    [Start(spec), Join(b.networkId(p.DefaultNetworkName()), cid, aliases)]
    + JoinAllKnown(b, p.networks, Lookup(p.extraNetworks, spec.name), cid, aliases)
  }

  function Preamble(p: Plan): seq<Action> {
    [Ensure(p.DefaultNetworkName())] + EnsureAll(p.networks)
  }

  /** The calls for the first specs of a plan; base is the daemon's call count before them. */
  function ScriptFor(b: Behaviour, p: Plan, specs: seq<DeploySpec>, base: nat): seq<Action> {
    if |specs| == 0 then Preamble(p)
    else
      var done := ScriptFor(b, p, specs[..|specs| - 1], base);
      done + SpecScript(b, p, specs[|specs| - 1], b.containerId(base + |done|))
  }

  function Script(b: Behaviour, p: Plan, base: nat): seq<Action> {
    ScriptFor(b, p, p.specs, base)
  }

  /** Calls number from up to but excluding to all succeed. */
  ghost predicate UpThrough(up: nat -> bool, from: nat, to: nat) {
    forall j :: from <= j < to ==> up(j)
  }

  /** How many of n calls starting at call number base succeed before the first refusal. */
  function Executed(up: nat -> bool, base: nat, n: nat): (k: nat)
    ensures k <= n && UpThrough(up, base, base + k) && (k < n ==> !up(base + k))
  {
    if n == 0 then 0
    else
      var k := Executed(up, base, n - 1);
      if k == n - 1 && up(base + k) then n else k
  }

  function StartsIn(actions: seq<Action>): seq<DeploySpec> {
    if |actions| == 0 then []
    else
      var last := actions[|actions| - 1];
      StartsIn(actions[..|actions| - 1]) + if last.Start? then [last.spec] else []
  }

  datatype Status = Running | Partial | Error

  /** The status a script earns when its first k calls were carried out. */
  function StatusOf(script: seq<Action>, k: nat): Status
    requires k <= |script|
  {
    if k == |script| then Running else if StartsIn(script[..k]) == [] then Error else Partial
  }

  // ----- how scripts are put together -----

  lemma {:induction false} StartsAppend(a: seq<Action>, c: seq<Action>)
    ensures StartsIn(a + c) == StartsIn(a) + StartsIn(c)
  {
    if |c| == 0 {
      assert a + c == a;
    } else {
      var rest := c[..|c| - 1];
      StartsAppend(a, rest);
      assert (a + c)[..|a + c| - 1] == a + rest;
    }
  }

  lemma {:induction false} EnsureAllStarts(networks: seq<string>)
    ensures StartsIn(EnsureAll(networks)) == [] && |EnsureAll(networks)| == |networks|
  {
    if |networks| > 0 {
      var rest := networks[..|networks| - 1];
      EnsureAllStarts(rest);
      assert EnsureAll(networks)[..|networks| - 1] == EnsureAll(rest);
    }
  }

  lemma {:induction false} JoinsStart(b: Behaviour, known: seq<string>, nets: seq<string>, cid: string, aliases: seq<string>)
    ensures StartsIn(JoinAllKnown(b, known, nets, cid, aliases)) == []
  {
    if |nets| > 0 {
      var rest, n := nets[..|nets| - 1], nets[|nets| - 1];
      JoinsStart(b, known, rest, cid, aliases);
      var join := [Join(b.networkId(n), cid, aliases)];
      StartsAppend(JoinAllKnown(b, known, rest, cid, aliases), join);
      assert join[..0] == [];
      assert JoinAllKnown(b, known, rest, cid, aliases) + [] == JoinAllKnown(b, known, rest, cid, aliases);
    }
  }

  lemma StartsOfSpec(b: Behaviour, p: Plan, spec: DeploySpec, cid: string)
    ensures StartsIn(SpecScript(b, p, spec, cid)) == [spec]
  {
    var aliases := Lookup(p.aliases, spec.name);
    var joins := JoinAllKnown(b, p.networks, Lookup(p.extraNetworks, spec.name), cid, aliases);
    JoinsStart(b, p.networks, Lookup(p.extraNetworks, spec.name), cid, aliases);
    var j := Join(b.networkId(p.DefaultNetworkName()), cid, aliases);
    StartsAppend([Start(spec), j], joins);
    StartsAppend([Start(spec)], [j]);
    assert [Start(spec)] + [j] == [Start(spec), j];
    assert [Start(spec)][..0] == [] && [j][..0] == [];
  }

  lemma PreambleStarts(p: Plan)
    ensures StartsIn(Preamble(p)) == []
  {
    EnsureAllStarts(p.networks);
    StartsAppend([Ensure(p.DefaultNetworkName())], EnsureAll(p.networks));
    assert [Ensure(p.DefaultNetworkName())][..0] == [];
  }

  lemma {:induction false} StartsOfScript(b: Behaviour, p: Plan, specs: seq<DeploySpec>, base: nat)
    ensures StartsIn(ScriptFor(b, p, specs, base)) == specs
  {
    if |specs| == 0 {
      PreambleStarts(p);
    } else {
      var rest, last := specs[..|specs| - 1], specs[|specs| - 1];
      var done := ScriptFor(b, p, rest, base);
      StartsOfScript(b, p, rest, base);
      StartsOfMore(b, p, done, last, b.containerId(base + |done|));
      assert specs == rest + [last];
    }
  }

  lemma StartsOfMore(b: Behaviour, p: Plan, done: seq<Action>, spec: DeploySpec, cid: string)
    ensures StartsIn(done + SpecScript(b, p, spec, cid)) == StartsIn(done) + [spec]
  {
    StartsOfSpec(b, p, spec, cid);
    StartsAppend(done, SpecScript(b, p, spec, cid));
  }

  lemma {:induction false} ScriptGrows(b: Behaviour, p: Plan, specs: seq<DeploySpec>, base: nat, i: nat)
    requires i <= |specs|
    ensures ScriptFor(b, p, specs[..i], base) <= ScriptFor(b, p, specs, base)
  {
    if i < |specs| {
      var rest := specs[..|specs| - 1];
      ScriptGrows(b, p, rest, base, i);
      assert rest[..i] == specs[..i];
    } else {
      assert specs[..i] == specs;
    }
  }

  // ----- deployPlan -----

  /** From call number base and log before, the daemon carried out the first k calls
      of script and then, if any are left, refused the next one. */
  ghost predicate Ran(up: nat -> bool, base: nat, before: seq<Action>, script: seq<Action>, k: nat,
                      calls: nat, log: seq<Action>)
  {
    && k <= |script|
    && UpThrough(up, base, base + k)
    && (k < |script| ==> !up(base + k))
    && calls == base + k + (if k < |script| then 1 else 0)
    && log == before + script[..k]
  }

  lemma RanThen(up: nat -> bool, base: nat, before: seq<Action>, s: seq<Action>, calls: nat, log: seq<Action>,
                t: seq<Action>, k: nat, calls': nat, log': seq<Action>)
    requires Ran(up, base, before, s, |s|, calls, log)
    requires Ran(up, calls, log, t, k, calls', log')
    ensures Ran(up, base, before, s + t, |s| + k, calls', log')
  {
    assert (s + t)[..|s| + k] == s + t[..k];
    assert s[..|s|] == s;
  }

  lemma RanShort(up: nat -> bool, base: nat, before: seq<Action>, s: seq<Action>, k: nat, calls: nat, log: seq<Action>,
                 whole: seq<Action>)
    requires Ran(up, base, before, s, k, calls, log) && k < |s| && s <= whole
    ensures Ran(up, base, before, whole, k, calls, log)
  {
    assert whole[..k] == s[..k];
  }

  lemma RanIsExecuted(up: nat -> bool, base: nat, before: seq<Action>, s: seq<Action>, k: nat, calls: nat, log: seq<Action>)
    requires Ran(up, base, before, s, k, calls, log)
    ensures k == Executed(up, base, |s|)
  {
  }

  /** ids maps exactly the known networks to the daemon's ids for them. */
  ghost predicate IdsOf(b: Behaviour, known: seq<string>, ids: map<string, string>) {
    && (forall n :: n in ids <==> n in known)
    && (forall n :: n in ids ==> ids[n] == b.networkId(n))
  }

  lemma RanOneMore(up: nat -> bool, base: nat, before: seq<Action>, s: seq<Action>, calls: nat, log: seq<Action>,
                   a: Action, ok: bool, calls': nat, log': seq<Action>)
    requires Ran(up, base, before, s, |s|, calls, log)
    requires ok == up(calls) && calls' == calls + 1 && log' == if ok then log + [a] else log
    ensures Ran(up, base, before, s + [a], |s| + (if ok then 1 else 0), calls', log')
  {
    assert [a][..1] == [a];
    RanThen(up, base, before, s, calls, log, [a], if ok then 1 else 0, calls', log');
  }

  /** The extra networks, in turn; ids are remembered under the network names. */
  method EnsureNetworks(d: Docker, networks: seq<string>) returns (ids: map<string, string>, ok: bool, ghost k: nat)
    modifies d
    ensures Ran(d.b.up, old(d.calls), old(d.log), EnsureAll(networks), k, d.calls, d.log)
    ensures ok <==> k == |EnsureAll(networks)|
    ensures ok ==> IdsOf(d.b, networks, ids)
  {
    ids, k := map[], 0;
    ghost var base, before := d.calls, d.log;
    for i := 0 to |networks|
      invariant k == i == |EnsureAll(networks[..i])|
      invariant Ran(d.b.up, base, before, EnsureAll(networks[..i]), k, d.calls, d.log)
      invariant IdsOf(d.b, networks[..i], ids)
    {
      ghost var done := EnsureAll(networks[..i]);
      EnsureStep(networks, i);
      ghost var calls0, log0 := d.calls, d.log;
      var id := d.EnsureProjectNetwork(networks[i]);
      RanOneMore(d.b.up, base, before, done, calls0, log0, Ensure(networks[i]), id.Some?, d.calls, d.log);
      if id.None? {
        EnsurePrefix(networks, i + 1);
        RanShort(d.b.up, base, before, EnsureAll(networks[..i + 1]), k, d.calls, d.log, EnsureAll(networks));
        return ids, false, k;
      }
      k := k + 1;
      ids := ids[networks[i] := id.value];
    }
    assert networks[..|networks|] == networks;
    return ids, true, k;
  }

  lemma EnsureStep(networks: seq<string>, i: nat)
    requires i < |networks|
    ensures EnsureAll(networks[..i + 1]) == EnsureAll(networks[..i]) + [Ensure(networks[i])]
  {
    assert networks[..i + 1][..i] == networks[..i];
  }

  lemma {:induction false} EnsurePrefix(networks: seq<string>, i: nat)
    requires i <= |networks|
    ensures EnsureAll(networks[..i]) <= EnsureAll(networks)
  {
    if i < |networks| {
      var rest := networks[..|networks| - 1];
      EnsurePrefix(rest, i);
      assert rest[..i] == networks[..i];
    } else {
      assert networks[..i] == networks;
    }
  }

  lemma {:induction false} JoinPrefix(b: Behaviour, known: seq<string>, nets: seq<string>, cid: string, aliases: seq<string>, i: nat)
    requires i <= |nets|
    ensures JoinAllKnown(b, known, nets[..i], cid, aliases) <= JoinAllKnown(b, known, nets, cid, aliases)
  {
    if i < |nets| {
      var rest := nets[..|nets| - 1];
      JoinPrefix(b, known, rest, cid, aliases, i);
      assert rest[..i] == nets[..i];
    } else {
      assert nets[..i] == nets;
    }
  }

  lemma JoinStep(b: Behaviour, known: seq<string>, nets: seq<string>, cid: string, aliases: seq<string>, i: nat)
    requires i < |nets|
    ensures JoinAllKnown(b, known, nets[..i + 1], cid, aliases) ==
      JoinAllKnown(b, known, nets[..i], cid, aliases) +
      if nets[i] in known then [Join(b.networkId(nets[i]), cid, aliases)] else []
  {
    assert nets[..i + 1][..i] == nets[..i];
  }

  /** The explicit networks of one container; names without an id are skipped. */
  method JoinExtras(d: Docker, known: seq<string>, ids: map<string, string>, nets: seq<string>, cid: string, aliases: seq<string>)
      returns (ok: bool, ghost k: nat)
    requires IdsOf(d.b, known, ids)
    modifies d
    ensures Ran(d.b.up, old(d.calls), old(d.log), JoinAllKnown(d.b, known, nets, cid, aliases), k, d.calls, d.log)
    ensures ok <==> k == |JoinAllKnown(d.b, known, nets, cid, aliases)|
  {
    k := 0;
    for i := 0 to |nets|
      invariant k == |JoinAllKnown(d.b, known, nets[..i], cid, aliases)|
      invariant Ran(d.b.up, old(d.calls), old(d.log), JoinAllKnown(d.b, known, nets[..i], cid, aliases), k, d.calls, d.log)
    {
      var n := nets[i];
      ghost var done := JoinAllKnown(d.b, known, nets[..i], cid, aliases);
      JoinStep(d.b, known, nets, cid, aliases, i);
      if n in ids {
        ghost var join := Join(d.b.networkId(n), cid, aliases);
        ghost var calls0, log0 := d.calls, d.log;
        var connected := d.ConnectToNetwork(ids[n], cid, aliases);
        RanOneMore(d.b.up, old(d.calls), old(d.log), done, calls0, log0, join, connected, d.calls, d.log);
        if !connected {
          JoinPrefix(d.b, known, nets, cid, aliases, i + 1);
          RanShort(d.b.up, old(d.calls), old(d.log), done + [join], k, d.calls, d.log,
                   JoinAllKnown(d.b, known, nets, cid, aliases));
          return false, k;
        }
        k := k + 1;
      }
    }
    assert nets[..|nets|] == nets;
    return true, k;
  }

  /** One round of the main loop. started tells whether the container came up. */
  method DeployOne(d: Docker, p: Plan, spec: DeploySpec, defaultNet: string, ids: map<string, string>)
      returns (started: bool, ok: bool, ghost k: nat)
    requires defaultNet == d.b.networkId(p.DefaultNetworkName())
    requires IdsOf(d.b, p.networks, ids)
    modifies d
    ensures var script := SpecScript(d.b, p, spec, d.b.containerId(old(d.calls)));
      && Ran(d.b.up, old(d.calls), old(d.log), script, k, d.calls, d.log)
      && (ok <==> k == |script|)
    ensures started <==> k > 0
  {
    ghost var base, before := d.calls, d.log;
    ghost var cid0 := d.b.containerId(base);
    ghost var script := SpecScript(d.b, p, spec, cid0);
    var id := d.ContainerCreateAndStart(spec);
    if id.None? {
      assert Ran(d.b.up, base, before, script, 0, d.calls, d.log);
      return false, false, 0;
    }
    assert script[..1] == [Start(spec)];
    assert Ran(d.b.up, base, before, [Start(spec)], 1, d.calls, d.log);
    ghost var calls1, log1 := d.calls, d.log;
    var aliases := Lookup(p.aliases, spec.name);
    var connected := d.ConnectToNetwork(defaultNet, id.value, aliases);
    ghost var join := Join(defaultNet, cid0, aliases);
    ghost var head := [Start(spec)] + [join];
    RanOneMore(d.b.up, base, before, [Start(spec)], calls1, log1, join, connected, d.calls, d.log);
    ghost var extras := JoinAllKnown(d.b, p.networks, Lookup(p.extraNetworks, spec.name), cid0, aliases);
    assert script == head + extras;
    if !connected {
      RanShort(d.b.up, base, before, head, 1, d.calls, d.log, script);
      return true, false, 1;
    }
    ghost var calls2, log2 := d.calls, d.log;
    ok, k := JoinExtras(d, p.networks, ids, Lookup(p.extraNetworks, spec.name), id.value, aliases);
    RanThen(d.b.up, base, before, head, calls2, log2, extras, k, d.calls, d.log);
    k := k + 2;
    started := true;
  }

  /** The networks a plan needs: the default one, then the declared ones. */
  method EnsurePlanNetworks(d: Docker, p: Plan)
      returns (defaultNet: string, ids: map<string, string>, ok: bool, ghost k: nat)
    modifies d
    ensures Ran(d.b.up, old(d.calls), old(d.log), Preamble(p), k, d.calls, d.log)
    ensures ok <==> k == |Preamble(p)|
    ensures ok ==> defaultNet == d.b.networkId(p.DefaultNetworkName()) && IdsOf(d.b, p.networks, ids)
  {
    ghost var base, before := d.calls, d.log;
    ghost var first := Ensure(p.DefaultNetworkName());
    assert before + [] == before;
    assert Ran(d.b.up, base, before, [], 0, d.calls, d.log);
    var id := d.EnsureProjectNetwork(p.DefaultNetworkName());
    RanOneMore(d.b.up, base, before, [], base, before, first, id.Some?, d.calls, d.log);
    assert [] + [first] == [first];
    if id.None? {
      RanShort(d.b.up, base, before, [first], 0, d.calls, d.log, Preamble(p));
      return "", map[], false, 0;
    }
    ghost var calls1, log1 := d.calls, d.log;
    ids, ok, k := EnsureNetworks(d, p.networks);
    RanThen(d.b.up, base, before, [first], calls1, log1, EnsureAll(p.networks), k, d.calls, d.log);
    return id.value, ids, ok, k + 1;
  }

  /** The main loop over the specs, with all networks in place. */
  method DeploySpecs(d: Docker, p: Plan, defaultNet: string, ids: map<string, string>, ghost base: nat, ghost before: seq<Action>)
      returns (status: Status)
    requires defaultNet == d.b.networkId(p.DefaultNetworkName()) && IdsOf(d.b, p.networks, ids)
    requires Ran(d.b.up, base, before, Preamble(p), |Preamble(p)|, d.calls, d.log)
    modifies d
    ensures Ends(d.b, p, base, before, d.log, status)
  {
    assert p.specs[..0] == [];
    var deployed := 0;
    for i := 0 to |p.specs|
      invariant deployed == i
      invariant var done := ScriptFor(d.b, p, p.specs[..i], base);
        Ran(d.b.up, base, before, done, |done|, d.calls, d.log)
    {
      ghost var calls0, log0 := d.calls, d.log;
      var started, ok, m := DeployOne(d, p, p.specs[i], defaultNet, ids);
      if !ok {
        RanSpecStopped(d.b, p, base, before, i, calls0, log0, m, d.calls, d.log);
        return if !started && deployed == 0 then Error else Partial;
      }
      ghost var done, part := ScriptFor(d.b, p, p.specs[..i], base), SpecScript(d.b, p, p.specs[i], d.b.containerId(calls0));
      RanSpec(d.b, p, base, before, i, calls0, log0, m, d.calls, d.log, done, part, done + part);
      deployed := deployed + 1;
    }
    assert p.specs[..|p.specs|] == p.specs;
    RanAll(d.b, p, base, before, d.calls, d.log);
    return Running;
  }

  /** The run carried out the plan's script up to the first refused call. */
  ghost predicate Ends(b: Behaviour, p: Plan, base: nat, before: seq<Action>, log: seq<Action>, status: Status) {
    var script := Script(b, p, base);
    var k := Executed(b.up, base, |script|);
    log == before + script[..k] && status == StatusOf(script, k)
  }

  /** deployPlan: carries out the plan's script up to the first refused call, and
      reports how far it got. */
  method DeployPlan(d: Docker, p: Plan) returns (status: Status)
    modifies d
    ensures Ends(d.b, p, old(d.calls), old(d.log), d.log, status)
  {
    var defaultNet, ids, netsOk, k := EnsurePlanNetworks(d, p);
    if !netsOk {
      assert p.specs[..0] == [];
      Stopped(d.b, p, old(d.calls), old(d.log), Preamble(p), k, d.calls, d.log, 0);
      return Error;
    }
    status := DeploySpecs(d, p, defaultNet, ids, old(d.calls), old(d.log));
  }

  lemma RanAll(b: Behaviour, p: Plan, base: nat, before: seq<Action>, calls: nat, log: seq<Action>)
    requires Ran(b.up, base, before, Script(b, p, base), |Script(b, p, base)|, calls, log)
    ensures Ends(b, p, base, before, log, Running)
  {
    RanIsExecuted(b.up, base, before, Script(b, p, base), |Script(b, p, base)|, calls, log);
  }

  /** After the script of the first i specs, m more calls of the next spec were carried out. */
  lemma RanSpec(b: Behaviour, p: Plan, base: nat, before: seq<Action>, i: nat, calls: nat, log: seq<Action>,
                m: nat, calls': nat, log': seq<Action>, done: seq<Action>, part: seq<Action>, whole: seq<Action>)
    requires i < |p.specs| && done == ScriptFor(b, p, p.specs[..i], base)
    requires part == SpecScript(b, p, p.specs[i], b.containerId(calls)) && whole == done + part
    requires Ran(b.up, base, before, done, |done|, calls, log) && Ran(b.up, calls, log, part, m, calls', log')
    ensures whole == ScriptFor(b, p, p.specs[..i + 1], base) && Ran(b.up, base, before, whole, |done| + m, calls', log')
  {
    assert p.specs[..i + 1][..i] == p.specs[..i];
    RanThen(b.up, base, before, done, calls, log, part, m, calls', log');
  }

  lemma RanSpecStopped(b: Behaviour, p: Plan, base: nat, before: seq<Action>, i: nat, calls: nat, log: seq<Action>,
                       m: nat, calls': nat, log': seq<Action>)
    requires i < |p.specs|
    requires var done := ScriptFor(b, p, p.specs[..i], base);
      Ran(b.up, base, before, done, |done|, calls, log)
    requires Ran(b.up, calls, log, SpecScript(b, p, p.specs[i], b.containerId(calls)), m, calls', log')
    requires m < |SpecScript(b, p, p.specs[i], b.containerId(calls))|
    ensures Ends(b, p, base, before, log', if i == 0 && m == 0 then Error else Partial)
  {
    var done, part := ScriptFor(b, p, p.specs[..i], base), SpecScript(b, p, p.specs[i], b.containerId(calls));
    var whole, k := done + part, |done| + m;
    StartsSoFar(b, p, base, i, m, done, part, whole);
    RanSpec(b, p, base, before, i, calls, log, m, calls', log', done, part, whole);
    EndsStopped(b, p, base, before, whole, k, calls', log', i + 1, i == 0 && m == 0);
  }

  lemma EndsStopped(b: Behaviour, p: Plan, base: nat, before: seq<Action>, s: seq<Action>, k: nat,
                    calls: nat, log: seq<Action>, i: nat, none: bool)
    requires i <= |p.specs| && s == ScriptFor(b, p, p.specs[..i], base)
    requires Ran(b.up, base, before, s, k, calls, log) && k < |s|
    requires StartsIn(s[..k]) == [] <==> none
    ensures Ends(b, p, base, before, log, if none then Error else Partial)
  {
    Stopped(b, p, base, before, s, k, calls, log, i);
  }

  /** A run that stopped inside the script of the first i specs stopped there in the whole script. */
  lemma Stopped(b: Behaviour, p: Plan, base: nat, before: seq<Action>, s: seq<Action>, k: nat,
                calls: nat, log: seq<Action>, i: nat)
    requires i <= |p.specs| && s <= ScriptFor(b, p, p.specs[..i], base)
    requires Ran(b.up, base, before, s, k, calls, log) && k < |s|
    ensures var script := Script(b, p, base);
      k < |script| && k == Executed(b.up, base, |script|) && log == before + script[..k] && script[..k] == s[..k]
    ensures i == 0 ==> StartsIn(s[..k]) == []
  {
    ScriptGrows(b, p, p.specs, base, i);
    RanShort(b.up, base, before, s, k, calls, log, Script(b, p, base));
    RanIsExecuted(b.up, base, before, Script(b, p, base), k, calls, log);
    assert Script(b, p, base)[..k] == s[..k];
    if i == 0 {
      assert p.specs[..0] == [];
      PreambleStarts(p);
      StartsAppend(s[..k], Preamble(p)[k..]);
      assert s[..k] + Preamble(p)[k..] == Preamble(p);
    }
  }

  /** The containers up after the first i specs and m further calls. */
  lemma StartsSoFar(b: Behaviour, p: Plan, base: nat, i: nat, m: nat, done: seq<Action>, part: seq<Action>, whole: seq<Action>)
    requires i < |p.specs| && done == ScriptFor(b, p, p.specs[..i], base) && whole == done + part
    requires m < |part| && part[0].Start?
    ensures StartsIn(whole[..|done| + m]) == [] <==> i == 0 && m == 0
  {
    StartsAfter(done, part, m);
    StartsOfScript(b, p, p.specs[..i], base);
  }

  lemma StartsAfter(done: seq<Action>, part: seq<Action>, m: nat)
    requires m < |part| && part[0].Start?
    ensures StartsIn((done + part)[..|done| + m]) == [] <==> StartsIn(done) == [] && m == 0
  {
    var all := (done + part)[..|done| + m];
    SomeStart(all);
    SomeStart(done);
    assert forall i :: 0 <= i < |done| ==> all[i] == done[i];
    assert m > 0 ==> all[|done|] == part[0];
  }

  lemma {:induction false} SomeStart(actions: seq<Action>)
    ensures StartsIn(actions) == [] <==> forall i :: 0 <= i < |actions| ==> !actions[i].Start?
  {
    if |actions| > 0 {
      SomeStart(actions[..|actions| - 1]);
    }
  }

  // ----- what a deployment guarantees -----

  ghost predicate ClosedUnderDeps(m: Model, started: seq<DeploySpec>) {
    forall spec, d :: spec in started && d in Deps(m, spec.service) ==> exists other :: other in started && other.service == d
  }

  /** Wherever a run stops, the containers that are up are an initial stretch of the plan. */
  lemma StartedIsPrefix(b: Behaviour, p: Plan, base: nat, k: nat)
    requires k <= |Script(b, p, base)|
    ensures StartsIn(Script(b, p, base)[..k]) <= p.specs
  {
    var script := Script(b, p, base);
    StartsOfScript(b, p, p.specs, base);
    StartsAppend(script[..k], script[k..]);
    assert script == script[..k] + script[k..];
  }

  /** Whatever call is refused, everything running has all its dependencies running. */
  lemma StartedIsClosed(m: Model, b: Behaviour, p: Plan, base: nat, k: nat)
    requires PlanOf(m, p) && k <= |Script(b, p, base)|
    ensures ClosedUnderDeps(m, StartsIn(Script(b, p, base)[..k]))
  {
    var started := StartsIn(Script(b, p, base)[..k]);
    StartedIsPrefix(b, p, base, k);
    PrefixIsClosed(m, p, started);
  }

  lemma PrefixIsClosed(m: Model, p: Plan, started: seq<DeploySpec>)
    requires PlanOf(m, p) && started <= p.specs
    ensures ClosedUnderDeps(m, started)
  {
    var order, items :| PlanFrom(m, p, order, items);
    DraftSpecs(items);
    forall spec, d | spec in started && d in Deps(m, spec.service)
      ensures exists other :: other in started && other.service == d
    {
      var i :| 0 <= i < |started| && started[i] == spec;
      assert IsItem(p.project, m, order[i], items[i]) && spec.service == order[i];
      var j :| 0 <= j < i && order[..i][j] == d;
      assert IsItem(p.project, m, order[j], items[j]) && started[j].service == d;
      assert started[j] in started;
    }
  }

  /** For a plan with services: "error" means nothing was started, "running" that
      the whole script was carried out, "partial" anything else. */
  lemma StatusMeaning(b: Behaviour, p: Plan, base: nat, k: nat)
    requires k <= |Script(b, p, base)| && p.specs != []
    ensures var script := Script(b, p, base);
      && (StatusOf(script, k) == Error <==> StartsIn(script[..k]) == [])
      && (StatusOf(script, k) == Running <==> script[..k] == script)
  {
    var script := Script(b, p, base);
    StartsOfScript(b, p, p.specs, base);
    if k == |script| {
      assert script[..k] == script;
    }
  }

  // ----- a running stack is complete -----

  /** The id of the container started for spec i. */
  function ContainerIdAt(b: Behaviour, p: Plan, base: nat, i: nat): string
    requires i < |p.specs|
  {
    b.containerId(base + |ScriptFor(b, p, p.specs[..i], base)|)
  }

  lemma SpecInScript(b: Behaviour, p: Plan, base: nat, i: nat, a: Action)
    requires i < |p.specs| && a in SpecScript(b, p, p.specs[i], ContainerIdAt(b, p, base, i))
    ensures a in Script(b, p, base)
  {
    ScriptGrows(b, p, p.specs, base, i + 1);
    assert p.specs[..i + 1][..i] == p.specs[..i];
    var upto := ScriptFor(b, p, p.specs[..i + 1], base);
    var script := Script(b, p, base);
    assert a in upto && script[..|upto|] == upto && script[..|script|] == script;
    InPrefix(script, |upto|, |script|, a);
  }

  lemma InPrefix<T>(s: seq<T>, k: nat, n: nat, x: T)
    requires k <= n <= |s| && x in s[..k]
    ensures x in s[..n]
  {
    var i :| 0 <= i < k && s[..k][i] == x;
    assert s[..n][i] == x;
  }

  lemma {:induction false} JoinPresent(b: Behaviour, known: seq<string>, nets: seq<string>, cid: string,
                                       aliases: seq<string>, n: string)
    requires n in nets && n in known
    ensures Join(b.networkId(n), cid, aliases) in JoinAllKnown(b, known, nets, cid, aliases)
  {
    var rest, last := nets[..|nets| - 1], nets[|nets| - 1];
    if n != last {
      assert n in rest;
      JoinPresent(b, known, rest, cid, aliases, n);
    }
  }

  /** A lookup of an extra network never misses. */
  lemma NoLookupMisses(m: Model, p: Plan, container: string, net: string)
    requires PlanOf(m, p) && net in Lookup(p.extraNetworks, container)
    ensures net in p.networks
  {
    var order, items :| PlanFrom(m, p, order, items);
    DraftListed(items, container, net);
    assert net in (set n | n in p.networks);
  }

  /** The script of a plan starts every service and attaches it to the default
      network and to every network it declared. */
  lemma ScriptIsComplete(m: Model, b: Behaviour, p: Plan, base: nat, i: nat)
    requires PlanOf(m, p) && i < |p.specs|
    ensures var script, spec, cid := Script(b, p, base), p.specs[i], ContainerIdAt(b, p, base, i);
      var aliases := Lookup(p.aliases, spec.name);
      && spec.service in m
      && Start(spec) in script
      && Join(b.networkId(p.DefaultNetworkName()), cid, aliases) in script
      && forall net :: net in m[spec.service].networks ==>
           Join(b.networkId(ScopedNet(p.project, net)), cid, aliases) in script
  {
    var order, items :| PlanFrom(m, p, order, items);
    DraftSpecs(items);
    assert IsItem(p.project, m, order[i], items[i]);
    var script, spec, cid := Script(b, p, base), p.specs[i], ContainerIdAt(b, p, base, i);
    var aliases := Lookup(p.aliases, spec.name);
    SpecInScript(b, p, base, i, Start(spec));
    SpecInScript(b, p, base, i, Join(b.networkId(p.DefaultNetworkName()), cid, aliases));
    forall net | net in m[spec.service].networks
      ensures Join(b.networkId(ScopedNet(p.project, net)), cid, aliases) in script
    {
      var n := ScopedNet(p.project, net);
      ScopedContains(p.project, m[spec.service].networks, net);
      DraftNetworks(items, i, n);
      assert n in (set x | x in p.networks);
      JoinPresent(b, p.networks, Lookup(p.extraNetworks, spec.name), cid, aliases, n);
      SpecInScript(b, p, base, i, Join(b.networkId(n), cid, aliases));
    }
  }
}
