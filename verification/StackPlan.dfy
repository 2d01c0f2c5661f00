/** Turning a compose model into an ordered deployment plan. */
module StackPlan {
  import opened Wrappers
  import opened Strings
  import opened ComposeModel
  import opened DependencyOrder
  import opened Ports
  import opened ProjectNames
  import opened ServiceSettings
  import Topo = TopoSort

  datatype VolMount = VolMount(source: string, target: string)

  datatype DeploySpec = DeploySpec(
    service: string,
    image: string,
    name: string,
    env: map<string, string>,
    ports: seq<PortMap>,
    volumes: seq<VolMount>,
    labels: map<string, string>,
    restartPolicy: string)

  datatype Plan = Plan(
    project: string,
    specs: seq<DeploySpec>,
    aliases: map<string, seq<string>>,
    extraNetworks: map<string, seq<string>>,
    networks: seq<string>)
  {
    function DefaultNetworkName(): string {
      project + "_default"
    }
  }

  datatype BuildError = BadProject | Cycle | BadPort(error: PortError) | BadVolume

  // ----- volumes -----

  function ParseVolume(raw: string): Result<seq<VolMount>, BuildError> {
    var s := TrimSpace(raw);
    if s == "" then Ok([])
    else
      var parts := Split(s, ':');
      if |parts| == 1 then Ok([VolMount("", parts[0])])
      else if |parts| <= 3 then Ok([VolMount(parts[0], parts[1])])
      else Err(BadVolume)
  }

  function VolumesOf(specs: seq<string>): Result<seq<VolMount>, BuildError> {
    if |specs| == 0 then Ok([])
    else
      match VolumesOf(specs[..|specs| - 1])
      case Err(e) => Err(e)
      case Ok(done) =>
        match ParseVolume(specs[|specs| - 1])
        case Err(e) => Err(e)
        case Ok(vs) => Ok(done + vs)
  }

  lemma {:induction false} VolumesStop(specs: seq<string>, i: nat)
    requires i <= |specs| && VolumesOf(specs[..i]).Err?
    ensures VolumesOf(specs) == VolumesOf(specs[..i])
    decreases |specs|
  {
    if i < |specs| {
      assert specs[..|specs| - 1][..i] == specs[..i];
      VolumesStop(specs[..|specs| - 1], i);
    } else {
      assert specs[..i] == specs;
    }
  }

  method ParseVolumes(specs: seq<string>) returns (r: Result<seq<VolMount>, BuildError>)
    ensures r == VolumesOf(specs)
  {
    var out := [];
    for i := 0 to |specs|
      invariant VolumesOf(specs[..i]) == Ok(out)
    {
      assert specs[..i + 1][..i] == specs[..i];
      var one := ParseVolume(specs[i]);
      if one.Err? {
        VolumesStop(specs, i + 1);
        return Err(one.error);
      }
      out := out + one.value;
    }
    assert specs[..|specs|] == specs;
    return Ok(out);
  }

  // ----- what a plan must contain -----

  function ContainerName(project: string, m: Model, n: string): string
    requires n in m
  {
    if m[n].containerName == "" then project + "-" + n else m[n].containerName
  }

  function ScopedNet(project: string, net: string): string {
    project + "_" + NetworkSuffix(net)
  }

  function ScopedNets(project: string, nets: seq<string>): seq<string> {
    if |nets| == 0 then []
    else ScopedNets(project, nets[..|nets| - 1]) + [ScopedNet(project, nets[|nets| - 1])]
  }

  function AliasesFor(service: string, container: string): seq<string> {
    if container != service then [service, container] else [service]
  }

  predicate Parses(s: Service) {
    ParseAll(s.ports).Ok? && VolumesOf(s.volumes).Ok?
  }

  /** The service does not parse, and e says why: its ports are looked at first. */
  predicate Faulty(s: Service, e: BuildError) {
    match ParseAll(s.ports)
    case Err(fault) => e == BadPort(fault)
    case Ok(_) => VolumesOf(s.volumes).Err? && e == BadVolume
  }

  /** Service i of the order is the first that does not parse, and e says why. */
  ghost predicate FirstFault(m: Model, order: seq<string>, i: nat, e: BuildError) {
    AllIn(order, m) && i < |order| && Faulty(m[order[i]], e) &&
    forall j :: 0 <= j < i ==> Parses(m[order[j]])
  }

  predicate AllIn(order: seq<string>, m: Model) {
    forall i :: 0 <= i < |order| ==> order[i] in m
  }

  /** One service's contribution to the plan: its spec and its scoped networks. */
  datatype Item = Item(spec: DeploySpec, nets: seq<string>)

  function SpecOf(project: string, m: Model, n: string): DeploySpec
    requires n in m && Parses(m[n])
  {
    var s := m[n];
    DeploySpec(n, s.image, ContainerName(project, m, n), EnvOf(s.environment), ParseAll(s.ports).value,
               VolumesOf(s.volumes).value, LabelsFor(project, n), RestartPolicy(s.restart))
  }

  function ItemOf(project: string, m: Model, n: string): Item
    requires n in m && Parses(m[n])
  {
    Item(SpecOf(project, m, n), ScopedNets(project, m[n].networks))
  }

  ghost predicate IsItem(project: string, m: Model, n: string, it: Item) {
    n in m && Parses(m[n]) && it == ItemOf(project, m, n)
  }

  ghost predicate ItemsFor(project: string, m: Model, order: seq<string>, items: seq<Item>) {
    |items| == |order| && forall i :: 0 <= i < |order| ==> IsItem(project, m, order[i], items[i])
  }

  /** A plan under construction. */
  datatype Draft = Draft(
    specs: seq<DeploySpec>,
    aliases: map<string, seq<string>>,
    extra: map<string, seq<string>>,
    nets: set<string>)

  /** The networks scoped, appended under a container name; a container without
      explicit networks gets no entry. */
  function JoinAll(extra: map<string, seq<string>>, container: string, scoped: seq<string>): map<string, seq<string>> {
    if |scoped| == 0 then extra else extra[container := Lookup(extra, container) + scoped]
  }

  function AddItem(it: Item, d: Draft): Draft {
    Draft(
      d.specs + [it.spec],
      d.aliases[it.spec.name := AliasesFor(it.spec.service, it.spec.name)],
      JoinAll(d.extra, it.spec.name, it.nets),
      d.nets + set net | net in it.nets)
  }

  /** Services are added in start-up order. */
  function DraftOf(items: seq<Item>): Draft {
    if |items| == 0 then Draft([], map[], map[], {})
    else AddItem(items[|items| - 1], DraftOf(items[..|items| - 1]))
  }

  /** p is the plan of m: its services in the canonical dependency order. */
  ghost predicate PlanFrom(m: Model, p: Plan, order: seq<string>, items: seq<Item>) {
    && CanonicalOrder(m, order)
    && ItemsFor(p.project, m, order, items)
    && Distinct(p.networks)
    && Draft(p.specs, p.aliases, p.extraNetworks, set n | n in p.networks) == DraftOf(items)
  }

  ghost predicate PlanOf(m: Model, p: Plan) {
    exists order, items :: PlanFrom(m, p, order, items)
  }

  // ----- what a plan contains -----

  lemma JoinAllAppends(extra: map<string, seq<string>>, container: string, scoped: seq<string>, c: string)
    ensures Lookup(JoinAll(extra, container, scoped), c) ==
      if c == container then Lookup(extra, c) + scoped else Lookup(extra, c)
  {}

  lemma JoinOneMore(extra: map<string, seq<string>>, container: string, scoped: seq<string>, net: string)
    ensures var before := JoinAll(extra, container, scoped);
      JoinAll(extra, container, scoped + [net]) == before[container := Lookup(before, container) + [net]]
  {
    assert Lookup(extra, container) + (scoped + [net]) == Lookup(extra, container) + scoped + [net];
    if |scoped| == 0 {
      assert scoped + [net] == [net];
    }
  }

  /** One spec per service, in order. */
  lemma {:induction false} DraftSpecs(items: seq<Item>)
    ensures var specs := DraftOf(items).specs;
      |specs| == |items| && forall i :: 0 <= i < |items| ==> specs[i] == items[i].spec
  {
    if |items| > 0 {
      DraftSpecs(items[..|items| - 1]);
    }
  }

  /** Every network a service declares is created and listed under its container's name. */
  lemma {:induction false} DraftNetworks(items: seq<Item>, i: nat, net: string)
    requires i < |items| && net in items[i].nets
    ensures net in DraftOf(items).nets && net in Lookup(DraftOf(items).extra, items[i].spec.name)
  {
    var rest, last := items[..|items| - 1], items[|items| - 1];
    JoinAllAppends(DraftOf(rest).extra, last.spec.name, last.nets, items[i].spec.name);
    if i < |items| - 1 {
      DraftNetworks(rest, i, net);
    }
  }

  /** Every listed network is one the plan creates, so no lookup can miss. */
  lemma {:induction false} DraftListed(items: seq<Item>, c: string, net: string)
    requires net in Lookup(DraftOf(items).extra, c)
    ensures net in DraftOf(items).nets
  {
    if |items| > 0 {
      var rest, last := items[..|items| - 1], items[|items| - 1];
      JoinAllAppends(DraftOf(rest).extra, last.spec.name, last.nets, c);
      if net in Lookup(DraftOf(rest).extra, c) {
        DraftListed(rest, c, net);
      }
    }
  }

  /** A container name used by one service only maps to that service's aliases and
      networks; when two services share a name, the later one's aliases win. */
  lemma {:induction false} DraftUnshared(items: seq<Item>, i: nat)
    requires i < |items|
    requires forall j :: i < j < |items| ==> items[j].spec.name != items[i].spec.name
    ensures var d, spec := DraftOf(items), items[i].spec;
      && spec.name in d.aliases && d.aliases[spec.name] == AliasesFor(spec.service, spec.name)
      && ((forall j :: 0 <= j < i ==> items[j].spec.name != spec.name) ==> Lookup(d.extra, spec.name) == items[i].nets)
  {
    var rest, last := items[..|items| - 1], items[|items| - 1];
    JoinAllAppends(DraftOf(rest).extra, last.spec.name, last.nets, items[i].spec.name);
    if i < |items| - 1 {
      DraftUnshared(rest, i);
    } else if forall j :: 0 <= j < i ==> items[j].spec.name != items[i].spec.name {
      DraftAbsent(rest, items[i].spec.name);
    }
  }

  lemma {:induction false} DraftAbsent(items: seq<Item>, c: string)
    requires forall j :: 0 <= j < |items| ==> items[j].spec.name != c
    ensures Lookup(DraftOf(items).extra, c) == []
  {
    if |items| > 0 {
      var rest, last := items[..|items| - 1], items[|items| - 1];
      JoinAllAppends(DraftOf(rest).extra, last.spec.name, last.nets, c);
      DraftAbsent(rest, c);
    }
  }

  lemma {:induction false} ScopedContains(project: string, nets: seq<string>, net: string)
    requires net in nets
    ensures ScopedNet(project, net) in ScopedNets(project, nets)
  {
    var rest, last := nets[..|nets| - 1], nets[|nets| - 1];
    if net != last {
      assert net in rest;
      ScopedContains(project, rest, net);
    }
  }

  // ----- the planner -----

  /** The inner loop over one service's networks. */
  method JoinNetworks(project: string, container: string, networks: seq<string>,
                      extra0: map<string, seq<string>>, nets0: set<string>)
      returns (extra: map<string, seq<string>>, nets: set<string>)
    ensures extra == JoinAll(extra0, container, ScopedNets(project, networks))
    ensures nets == nets0 + set net | net in ScopedNets(project, networks)
  {
    extra, nets := extra0, nets0;
    ghost var scoped := [];
    for k := 0 to |networks|
      invariant scoped == ScopedNets(project, networks[..k])
      invariant extra == JoinAll(extra0, container, scoped)
      invariant nets == nets0 + set net | net in scoped
    {
      var pn := ScopedNet(project, networks[k]);
      assert networks[..k + 1][..k] == networks[..k];
      JoinOneMore(extra0, container, scoped, pn);
      scoped := scoped + [pn];
      extra := extra[container := Lookup(extra, container) + [pn]];
      nets := nets + {pn};
    }
    assert networks[..|networks|] == networks;
  }

  /** One round of BuildPlan's main loop. */
  method PlanService(project: string, m: Model, name: string, d: Draft)
      returns (r: Result<Draft, BuildError>, ghost item: Item)
    requires name in m
    ensures r.Ok? ==> IsItem(project, m, name, item) && r.value == AddItem(item, d)
    ensures r.Err? ==> Faulty(m[name], r.error)
  {
    var svc := m[name];
    item := Item(DeploySpec("", "", "", map[], [], [], map[], ""), []);
    var ports := ParsePorts(svc.ports);
    if ports.Err? {
      return Err(BadPort(ports.error)), item;
    }
    var vols := ParseVolumes(svc.volumes);
    if vols.Err? {
      return Err(BadVolume), item;
    }
    var container := if svc.containerName == "" then project + "-" + name else svc.containerName;
    var env := EnvMap(svc.environment);
    var spec := DeploySpec(name, svc.image, container, env, ports.value, vols.value, LabelsFor(project, name),
      RestartPolicy(svc.restart));
    var extra, nets := JoinNetworks(project, container, svc.networks, d.extra, d.nets);
    item := Item(spec, ScopedNets(project, svc.networks));
    r := Ok(Draft(d.specs + [spec], d.aliases[container := AliasesFor(name, container)], extra, nets));
  }

  method PlanServices(project: string, m: Model, order: seq<string>)
      returns (r: Result<Draft, BuildError>, ghost items: seq<Item>)
    requires AllIn(order, m)
    ensures r.Ok? ==> ItemsFor(project, m, order, items) && r.value == DraftOf(items)
    ensures r.Err? ==> exists i: nat :: FirstFault(m, order, i, r.error)
  {
    var d := Draft([], map[], map[], {});
    items := [];
    for i := 0 to |order|
      invariant ItemsFor(project, m, order[..i], items)
      invariant d == DraftOf(items)
    {
      var next, item := PlanService(project, m, order[i], d);
      if next.Err? {
        FaultAfter(project, m, order, i, items, next.error);
        return Err(next.error), items;
      }
      ItemsPush(project, m, order, i, items, item, d);
      items := items + [item];
      d := next.value;
    }
    assert order[..|order|] == order;
    return Ok(d), items;
  }

  lemma ItemsPush(project: string, m: Model, order: seq<string>, i: nat, items: seq<Item>, item: Item, d: Draft)
    requires i < |order| && ItemsFor(project, m, order[..i], items) && IsItem(project, m, order[i], item)
    requires d == DraftOf(items)
    ensures ItemsFor(project, m, order[..i + 1], items + [item])
    ensures AddItem(item, d) == DraftOf(items + [item])
  {
    assert (items + [item])[..|items|] == items;
    forall j | 0 <= j < i + 1
      ensures IsItem(project, m, order[..i + 1][j], (items + [item])[j])
    {
      if j < i {
        assert IsItem(project, m, order[..i][j], items[j]);
      }
    }
  }

  lemma FaultAfter(project: string, m: Model, order: seq<string>, i: nat, items: seq<Item>, e: BuildError)
    requires AllIn(order, m) && i < |order| && ItemsFor(project, m, order[..i], items) && Faulty(m[order[i]], e)
    ensures FirstFault(m, order, i, e)
  {
    forall j | 0 <= j < i
      ensures Parses(m[order[j]])
    {
      assert IsItem(project, m, order[..i][j], items[j]);
    }
  }

  /** BuildPlan: fails exactly on an empty project name, a dependency fault, or a
      port or volume that does not parse; then it reports the first faulty service in
      start-up order, ports before volumes. */
  method BuildPlan(rawProject: string, m: Model) returns (r: Result<Plan, BuildError>)
    ensures r.Ok? ==> PlanOf(m, r.value) && r.value.project == Sanitized(rawProject)
    ensures r.Ok? <==>
      Sanitized(rawProject) != "" && KnownDeps(m) && !HasCycle(m) && forall n :: n in m ==> Parses(m[n])
    ensures r == Err(BadProject) <==> Sanitized(rawProject) == ""
    ensures r == Err(Cycle) <==> Sanitized(rawProject) != "" && (HasCycle(m) || !KnownDeps(m))
    ensures r.Err? && (r.error.BadPort? || r.error.BadVolume?) ==>
      exists order, i: nat :: CanonicalOrder(m, order) && FirstFault(m, order, i, r.error)
  {
    var project := SanitizeProjectName(rawProject);
    if project == "" {
      return Err(BadProject);
    }
    var sorted := Topo.TopoSort(m);
    if sorted.Err? {
      return Err(Cycle);
    }
    var order := sorted.value;
    assert forall n :: n in m ==> n in order;
    var built, items := PlanServices(project, m, order);
    if built.Err? {
      ghost var i: nat :| FirstFault(m, order, i, built.error);
      assert CanonicalOrder(m, order) && FirstFault(m, order, i, built.error);
      return Err(built.error);
    }
    var d := built.value;
    var networks := SetToList(d.nets);
    assert (set n | n in networks) == d.nets;
    var plan := Plan(project, d.specs, d.aliases, d.extra, networks);
    assert PlanFrom(m, plan, order, items);
    AllParse(project, m, order, items);
    return Ok(plan);
  }

  lemma AllParse(project: string, m: Model, order: seq<string>, items: seq<Item>)
    requires ItemsFor(project, m, order, items) && forall n :: n in m ==> n in order
    ensures forall n :: n in m ==> Parses(m[n])
  {
    forall n | n in m ensures Parses(m[n]) {
      var i :| 0 <= i < |order| && order[i] == n;
      assert IsItem(project, m, order[i], items[i]);
    }
  }

  /** Ranging over a map or set in no particular order. */
  method SetToList(s: set<string>) returns (list: seq<string>)
    ensures Distinct(list) && forall x :: x in list <==> x in s
  {
    list := [];
    var todo := s;
    while todo != {}
      invariant todo <= s
      invariant Distinct(list) && forall x :: x in list <==> x in s && x !in todo
    {
      var x :| x in todo;
      list := list + [x];
      todo := todo - {x};
    }
  }
}
