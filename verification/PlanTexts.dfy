/** What the texts in a compose model mean: volume, port, environment and network entries,
    and where they end up in a plan. */
module PlanTexts {
  import opened Wrappers
  import opened Strings
  import opened ComposeModel
  import opened DependencyOrder
  import opened Ports
  import opened ProjectNames
  import opened ServiceSettings
  import opened StackPlan

  // ----- volumes -----

  /** The entry asks for target to be mounted from source, with or without a mode. */
  predicate Asks(raw: string, source: string, target: string, mode: Option<string>) {
    var text := source + ":" + target;
    ':' !in source && ':' !in target && (mode.Some? ==> ':' !in mode.value) &&
    TrimSpace(raw) == if mode.Some? then text + ":" + mode.value else text
  }

  /** "source:target" and "source:target:mode" mount target from source. */
  lemma MountAsked(raw: string, source: string, target: string, mode: Option<string>)
    requires Asks(raw, source, target, mode)
    ensures ParseVolume(raw) == Ok([VolMount(source, target)])
  {
    var rest := if mode.Some? then target + [':'] + mode.value else target;
    assert TrimSpace(raw) == source + [':'] + rest;
    SplitAt(source, rest, ':');
    if mode.Some? {
      SplitAt(target, mode.value, ':');
      SplitWithout(mode.value, ':');
    } else {
      SplitWithout(target, ':');
    }
  }

  /** The same for source, target and mode without white space around them, whatever white
      space surrounds the entry. */
  lemma MountAskedPadded(before: string, source: string, target: string, mode: Option<string>, after: string)
    requires AllSpace(before) && AllSpace(after) && Tight(source) && Tight(target) && target != ""
    requires ':' !in source && ':' !in target && (mode.Some? ==> ':' !in mode.value && Tight(mode.value))
    ensures
      var text := source + ":" + target + if mode.Some? then ":" + mode.value else "";
      ParseVolume(before + text + after) == Ok([VolMount(source, target)])
  {
    var text := source + ":" + target + if mode.Some? then ":" + mode.value else "";
    assert !IsSpace(':');
    assert text[0] == if source == "" then ':' else source[0];
    if mode.Some? && mode.value != "" {
      assert text[|text| - 1] == mode.value[|mode.value| - 1];
    }
    TrimPadded(before, text, after);
    assert mode.None? ==> text == source + ":" + target;
    MountAsked(before + text + after, source, target, mode);
  }

  /** A bare target is mounted from an unnamed volume, and a blank entry stands for nothing. */
  lemma BareTarget(raw: string)
    requires ':' !in TrimSpace(raw)
    ensures ParseVolume(raw) == if TrimSpace(raw) == "" then Ok([]) else Ok([VolMount("", TrimSpace(raw))])
  {
    SplitWithout(TrimSpace(raw), ':');
  }

  /** An entry with more than three parts is the error. */
  lemma TooManyParts(raw: string, a: string, b: string, c: string, rest: string)
    requires ':' !in a && ':' !in b && ':' !in c && TrimSpace(raw) == a + ":" + b + ":" + c + ":" + rest
    ensures ParseVolume(raw) == Err(BadVolume)
  {
    assert TrimSpace(raw) == a + [':'] + (b + [':'] + (c + [':'] + rest));
    SplitAt(a, b + [':'] + (c + [':'] + rest), ':');
    SplitAt(b, c + [':'] + rest, ':');
    SplitAt(c, rest, ':');
  }

  // ----- ports -----

  /** The text of a published port with an address in front; without a host port the middle
      is empty. */
  function AddressText(ip: string, host: int, container: int, suffix: Option<string>): string {
    ip + ":" + HostText(host) + ":" + Itoa(container) +
    if suffix.Some? then "/" + suffix.value else ""
  }

  predicate Suffix(suffix: Option<string>) {
    suffix.Some? ==> '/' !in suffix.value && Tight(suffix.value) && KnownProto(ToLower(suffix.value))
  }

  lemma LastDigit(n: int)
    requires n >= 1
    ensures |Itoa(n)| > 0 && IsDigit(Itoa(n)[0]) && IsDigit(Itoa(n)[|Itoa(n)| - 1])
    ensures ':' !in Itoa(n) && '/' !in Itoa(n) && '-' !in Itoa(n)
  {
    DigitsArePlain(Itoa(n));
  }

  /** Three parts are read back, the address ignored. */
  lemma ThreeParts(ip: string, ht: string, ct: string, host: int, container: int, proto: string)
    requires ':' !in ip && ':' !in ht && ':' !in ct && '-' !in ht && '-' !in ct && KnownProto(proto)
    requires ParsePortNum(ct) == Some(container)
    requires if TrimSpace(ht) == "" then host == 0 else ParsePortNum(ht) == Some(host)
    ensures ParseMapping(ip + [':'] + (ht + [':'] + ct), proto) == Ok(PortMap(host, container, proto))
  {
    SplitAt(ip, ht + [':'] + ct, ':');
    SplitAt(ht, ct, ':');
    SplitWithout(ct, ':');
  }

  function HostText(host: int): string {
    if host == 0 then "" else Itoa(host)
  }

  lemma HostTextReads(host: int)
    requires 0 <= host <= 65535
    ensures ':' !in HostText(host) && '/' !in HostText(host) && '-' !in HostText(host)
    ensures if TrimSpace(HostText(host)) == "" then host == 0 else ParsePortNum(HostText(host)) == Some(host)
  {
    if host > 0 {
      LastDigit(host);
      PortNumRoundTrip(host);
      TrimNothing(HostText(host));
    }
  }

  lemma Colons(a: string, b: string, c: string)
    ensures a + ":" + b + ":" + c + "" == a + [':'] + (b + [':'] + c)
  {}

  lemma AddressMapping(ip: string, host: int, container: int, proto: string)
    requires ':' !in ip && InRange(PortMap(host, container, proto))
    ensures ParseMapping(AddressText(ip, host, container, None), proto) == Ok(PortMap(host, container, proto))
  {
    var ht, ct := HostText(host), Itoa(container);
    LastDigit(container);
    PortNumRoundTrip(container);
    HostTextReads(host);
    ThreeParts(ip, ht, ct, host, container, proto);
    Colons(ip, ht, ct);
  }

  lemma SuffixSplits(s: string, suffix: Option<string>)
    requires Tight(s) && s != "" && '/' !in s && Suffix(suffix)
    ensures
      var text := s + if suffix.Some? then "/" + suffix.value else "";
      TrimSpace(text) == text != "" &&
      SplitProto(text) == (s, if suffix.Some? then ToLower(suffix.value) else "tcp")
  {
    TrimNothing(s);
    if suffix.Some? {
      var proto := suffix.value;
      var text := s + ("/" + proto);
      assert |ToLower(proto)| == |proto|;
      assert text[|text| - 1] == proto[|proto| - 1] && text[0] == s[0];
      TrimNothing(text);
      TrimNothing(proto);
      assert text[|s|] == '/' && text[..|s|] == s && text[|s| + 1..] == proto;
      assert LastIndex(text, '/') == |s|;
    } else {
      assert s + "" == s;
    }
  }

  /** A suffix with nothing before it is split off as well. */
  lemma SuffixAlone(proto: string)
    requires '/' !in proto
    ensures SplitProto("/" + proto) == ("", ToLower(TrimSpace(proto)))
  {
    var text := "/" + proto;
    assert text[0] == '/' && text[1..] == proto && text[..0] == "";
    assert LastIndex(text, '/') == 0;
  }

  lemma AddressShape(ip: string, host: int, container: int)
    requires '/' !in ip && Tight(ip) && 0 <= host <= 65535 && 1 <= container
    ensures
      var s := AddressText(ip, host, container, None);
      s != "" && '/' !in s && Tight(s)
  {
    var ht, ct := HostText(host), Itoa(container);
    LastDigit(container);
    HostTextReads(host);
    EndsShape(ip, ht, ct);
  }

  lemma EndsShape(a: string, b: string, c: string)
    requires '/' !in a && '/' !in b && '/' !in c && Tight(a) && |c| > 0 && !IsSpace(c[|c| - 1])
    ensures
      var s := a + ":" + b + ":" + c + "";
      s != "" && '/' !in s && Tight(s)
  {
    var s := a + ":" + b + ":" + c + "";
    assert !IsSpace(':');
    assert s[|s| - 1] == c[|c| - 1];
    assert s[0] == if a == "" then ':' else a[0];
  }

  lemma PortFromMapping(text: string, s: string, p: PortMap)
    requires TrimSpace(text) == text != "" && SplitProto(text) == (s, p.proto) && KnownProto(p.proto)
    requires ParseMapping(s, p.proto) == Ok(p)
    ensures ParsePort(text) == Ok(Some(p))
  {}

  /** "ip:host:container", with or without a protocol in any case: the address is dropped,
      and without a host port the daemon chooses one. */
  lemma AddressPort(ip: string, host: int, container: int, suffix: Option<string>)
    requires ':' !in ip && '/' !in ip && Tight(ip) && Suffix(suffix)
    requires 0 <= host <= 65535 && 1 <= container <= 65535
    ensures ParsePort(AddressText(ip, host, container, suffix)) ==
      Ok(Some(PortMap(host, container, if suffix.Some? then ToLower(suffix.value) else "tcp")))
  {
    var s, text := AddressText(ip, host, container, None), AddressText(ip, host, container, suffix);
    var proto := if suffix.Some? then ToLower(suffix.value) else "tcp";
    AddressShape(ip, host, container);
    SuffixSplits(s, suffix);
    AddressMapping(ip, host, container, proto);
    BareText(ip + ":" + HostText(host) + ":" + Itoa(container), if suffix.Some? then "/" + suffix.value else "");
    PortFromMapping(text, s, PortMap(host, container, proto));
  }

  lemma BareText(s: string, t: string)
    ensures s + "" == s && (s + "") + t == s + t
  {}

  /** Four parts are the error. */
  lemma TooManyPortParts(a: string, b: string, c: string, rest: string, proto: string)
    requires ':' !in a && ':' !in b && ':' !in c && KnownProto(proto)
    ensures ParseMapping(a + ":" + b + ":" + c + ":" + rest, proto) == Err(BadMapping)
  {
    assert a + ":" + b + ":" + c + ":" + rest == a + [':'] + (b + [':'] + (c + [':'] + rest));
    SplitAt(a, b + [':'] + (c + [':'] + rest), ':');
    SplitAt(b, c + [':'] + rest, ':');
    SplitAt(c, rest, ':');
  }

  // ----- environment -----

  /** "KEY=VALUE" sets KEY, white space around it dropped, to VALUE as it stands, equals
      signs and all; "KEY" alone sets it to the empty text; without a key nothing is set. */
  lemma EntrySets(key: string, value: Option<string>)
    requires '=' !in key
    ensures
      var k := TrimSpace(key);
      EntryOf(key + if value.Some? then "=" + value.value else "") ==
        if k == "" then None else Some((k, if value.Some? then value.value else ""))
  {
    if value.Some? {
      CutAt(key, value.value, '=');
      assert key + [ '=' ] + value.value == key + ("=" + value.value);
    } else {
      NoCut(key, '=');
      assert key + "" == key;
    }
  }

  // ----- a whole list -----

  /** How many of the entries are not blank. */
  function Entries(specs: seq<string>): nat {
    if |specs| == 0 then 0
    else Entries(specs[..|specs| - 1]) + if TrimSpace(specs[|specs| - 1]) == "" then 0 else 1
  }

  lemma OneMount(raw: string)
    ensures ParseVolume(raw).Ok? ==> |ParseVolume(raw).value| == if TrimSpace(raw) == "" then 0 else 1
  {}

  /** A list yields one mount for every entry that is not blank, in order. */
  lemma {:induction false} MountsInOrder(specs: seq<string>, i: nat)
    requires VolumesOf(specs).Ok? && i < |specs|
    ensures |VolumesOf(specs).value| == Entries(specs)
    ensures Entries(specs[..i]) <= Entries(specs) && ParseVolume(specs[i]).Ok?
    ensures TrimSpace(specs[i]) != "" ==>
      Entries(specs[..i]) < Entries(specs) && ParseVolume(specs[i]).value == [VolumesOf(specs).value[Entries(specs[..i])]]
  {
    var rest, last := specs[..|specs| - 1], specs[|specs| - 1];
    OneMount(last);
    if i < |rest| {
      MountsInOrder(rest, i);
      assert rest[..i] == specs[..i];
    } else if |rest| > 0 {
      MountsInOrder(rest, 0);
    }
  }

  lemma OnePort(raw: string)
    ensures ParsePort(raw).Ok? ==> (ParsePort(raw).value.Some? <==> TrimSpace(raw) != "")
  {}

  lemma LastPort(specs: seq<string>)
    requires ParseAll(specs).Ok? && |specs| > 0
    ensures
      var rest, last := specs[..|specs| - 1], specs[|specs| - 1];
      ParseAll(rest).Ok? && ParsePort(last).Ok? &&
      ParseAll(specs).value ==
        ParseAll(rest).value + if TrimSpace(last) == "" then [] else [ParsePort(last).value.value]
  {
    OnePort(specs[|specs| - 1]);
  }

  lemma {:induction false} PortCount(specs: seq<string>)
    requires ParseAll(specs).Ok?
    ensures |ParseAll(specs).value| == Entries(specs)
  {
    if |specs| > 0 {
      LastPort(specs);
      PortCount(specs[..|specs| - 1]);
    }
  }

  /** The same for a ports list. */
  lemma {:induction false} PortsInOrder(specs: seq<string>, i: nat)
    requires ParseAll(specs).Ok? && i < |specs|
    ensures |ParseAll(specs).value| == Entries(specs)
    ensures Entries(specs[..i]) <= Entries(specs) && ParsePort(specs[i]).Ok?
    ensures TrimSpace(specs[i]) != "" ==>
      Entries(specs[..i]) < Entries(specs) && ParsePort(specs[i]).value == Some(ParseAll(specs).value[Entries(specs[..i])])
  {
    var rest := specs[..|specs| - 1];
    LastPort(specs);
    PortCount(specs);
    if i < |rest| {
      PortsInOrder(rest, i);
      assert rest[..i] == specs[..i];
    } else {
      OnePort(specs[i]);
      PortCount(rest);
    }
  }

  /** A list is refused exactly when one of its entries is. */
  lemma {:induction false} RefusedExactly(specs: seq<string>)
    ensures VolumesOf(specs).Err? <==> exists i :: 0 <= i < |specs| && ParseVolume(specs[i]).Err?
  {
    if |specs| > 0 {
      var rest := specs[..|specs| - 1];
      RefusedExactly(rest);
      assert forall i :: 0 <= i < |rest| ==> rest[i] == specs[i];
    }
  }

  // ----- in a plan -----

  /** Every mount a service asks for is in its container's spec, at the place of its entry. */
  lemma PlannedMount(m: Model, p: Plan, i: nat, j: nat, source: string, target: string, mode: Option<string>)
    requires PlanOf(m, p) && i < |p.specs|
    requires p.specs[i].service in m && j < |m[p.specs[i].service].volumes|
    requires Asks(m[p.specs[i].service].volumes[j], source, target, mode)
    ensures
      var entries, mounts := m[p.specs[i].service].volumes, p.specs[i].volumes;
      |mounts| == Entries(entries) && Entries(entries[..j]) < |mounts| &&
      mounts[Entries(entries[..j])] == VolMount(source, target)
  {
    var order, items :| PlanFrom(m, p, order, items);
    DraftSpecs(items);
    assert IsItem(p.project, m, order[i], items[i]);
    var entries := m[p.specs[i].service].volumes;
    MountAsked(entries[j], source, target, mode);
    MountsInOrder(entries, j);
  }

  lemma PlannedSpec(m: Model, p: Plan, i: nat)
    requires PlanOf(m, p) && i < |p.specs|
    ensures p.specs[i].service in m && Parses(m[p.specs[i].service])
    ensures p.specs[i] == SpecOf(p.project, m, p.specs[i].service)
  {
    var order, items :| PlanFrom(m, p, order, items);
    DraftSpecs(items);
    assert IsItem(p.project, m, order[i], items[i]);
  }

  /** What else a container's spec carries over from its service. */
  lemma PlannedSettings(m: Model, p: Plan, i: nat, k: string, v: string)
    requires PlanOf(m, p) && i < |p.specs|
    ensures
      var spec := p.specs[i];
      spec.service in m &&
      var s := m[spec.service];
      spec.image == s.image &&
      spec.name == (if s.containerName == "" then p.project + "-" + spec.service else s.containerName) &&
      (k in spec.env && spec.env[k] == v <==> SetTo(s.environment, k, v)) &&
      ParseAll(s.ports) == Ok(spec.ports) &&
      spec.restartPolicy == RestartPolicy(s.restart) &&
      spec.labels == LabelsFor(p.project, spec.service)
  {
    PlannedSpec(m, p, i);
    LastEntryWins(m[p.specs[i].service].environment, k, v);
  }

  /** Every port published with an address is in the spec, at the place of its entry. */
  lemma PlannedPort(m: Model, p: Plan, i: nat, j: nat, ip: string, host: int, container: int, suffix: Option<string>)
    requires PlanOf(m, p) && i < |p.specs|
    requires p.specs[i].service in m && j < |m[p.specs[i].service].ports|
    requires ':' !in ip && '/' !in ip && Tight(ip) && Suffix(suffix) && 0 <= host <= 65535 && 1 <= container <= 65535
    requires m[p.specs[i].service].ports[j] == AddressText(ip, host, container, suffix)
    ensures
      var entries, ports := m[p.specs[i].service].ports, p.specs[i].ports;
      |ports| == Entries(entries) && Entries(entries[..j]) < |ports| &&
      ports[Entries(entries[..j])] == PortMap(host, container, if suffix.Some? then ToLower(suffix.value) else "tcp")
  {
    PlannedSettings(m, p, i, "", "");
    var entries := m[p.specs[i].service].ports;
    AddressPort(ip, host, container, suffix);
    OnePort(entries[j]);
    PortsInOrder(entries, j);
  }

  /** The labels by which a stack's containers are found again. */
  lemma LabelsSpelled(project: string, service: string, k: string)
    ensures k in LabelsFor(project, service) <==>
      k in ["io.castor.stack", "io.castor.managed", "com.docker.compose.project", "com.docker.compose.service",
            "com.docker.compose.container-number"]
    ensures k == "io.castor.stack" || k == "com.docker.compose.project" ==> LabelsFor(project, service)[k] == project
    ensures k == "com.docker.compose.service" ==> LabelsFor(project, service)[k] == service
    ensures k == "io.castor.managed" ==> LabelsFor(project, service)[k] == "true"
    ensures k == "com.docker.compose.container-number" ==> LabelsFor(project, service)[k] == "1"
  {}

  /** A declared network with a clean name is created under the project's name and listed
      under its container; one whose name has nothing usable in it becomes "net". */
  lemma PlannedNetwork(m: Model, p: Plan, i: nat, net: string)
    requires PlanOf(m, p) && i < |p.specs| && p.specs[i].service in m && net in m[p.specs[i].service].networks
    requires Clean(net)
    ensures
      var scoped := p.project + "_" + if net == "" then "net" else net;
      scoped in p.networks && scoped in Lookup(p.extraNetworks, p.specs[i].name)
  {
    var order, items :| PlanFrom(m, p, order, items);
    DraftSpecs(items);
    assert IsItem(p.project, m, order[i], items[i]);
    ScopedContains(p.project, m[p.specs[i].service].networks, net);
    DraftNetworks(items, i, ScopedNet(p.project, net));
    assert ScopedNet(p.project, net) in (set n | n in p.networks);
    CleanStays(net);
  }

  /** A container whose name no other service uses is known by its service's name and its own. */
  lemma PlannedAliases(m: Model, p: Plan, i: nat, name: string)
    requires PlanOf(m, p) && i < |p.specs|
    requires forall j :: 0 <= j < |p.specs| && j != i ==> p.specs[j].name != p.specs[i].name
    ensures name in Lookup(p.aliases, p.specs[i].name) <==> name == p.specs[i].service || name == p.specs[i].name
  {
    var items := PlanItems(m, p);
    DraftAliases(items, i, name);
  }

  lemma DraftAliases(items: seq<Item>, i: nat, name: string)
    requires i < |items|
    requires forall j :: 0 <= j < |items| && j != i ==> items[j].spec.name != items[i].spec.name
    ensures
      var spec := items[i].spec;
      name in Lookup(DraftOf(items).aliases, spec.name) <==> name == spec.service || name == spec.name
  {
    DraftUnshared(items, i);
    AliasesSpelled(items[i].spec.service, items[i].spec.name, name);
  }

  lemma AliasesSpelled(service: string, container: string, name: string)
    ensures name in AliasesFor(service, container) <==> name == service || name == container
  {}

  /** The items a plan is drafted from. */
  lemma PlanItems(m: Model, p: Plan) returns (items: seq<Item>)
    requires PlanOf(m, p)
    ensures |items| == |p.specs| && forall i :: 0 <= i < |items| ==> items[i].spec == p.specs[i]
    ensures DraftOf(items).aliases == p.aliases
  {
    var order: seq<string>;
    order, items :| PlanFrom(m, p, order, items);
    DraftSpecs(items);
  }

  /** A dash in the host or container part is a range, which is refused. */
  lemma RangeRefused(host: string, container: string, proto: string)
    requires ':' !in host && ':' !in container && KnownProto(proto)
    ensures ParseMapping(host + [':'] + container, proto) == Err(PortRange) <==> '-' in host || '-' in container
  {
    SplitAt(host, container, ':');
    SplitWithout(container, ':');
  }
}
