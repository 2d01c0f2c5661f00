/** Published ports: the text form the stack builder prints and the planner parses. */
module Ports {
  import opened Wrappers
  import opened Strings

  datatype PortMap = PortMap(host: int, container: int, proto: string)

  datatype BuilderPort = BuilderPort(host: int, container: int, proto: string)

  datatype PortError = BadProtocol(proto: string) | BadMapping | PortRange | BadContainerPort | BadHostPort

  predicate KnownProto(proto: string) {
    proto == "tcp" || proto == "udp" || proto == "sctp"
  }

  // ----- parsing -----

  /** parsePortNum. */
  function ParsePortNum(s: string): (r: Option<int>)
    ensures r.Some? ==> 1 <= r.value <= 65535
  {
    match Atoi(TrimSpace(s))
    case None => None
    case Some(n) => if n < 1 || n > 65535 then None else Some(n)
  }

  /** The protocol suffix after the last slash, tcp without one, and the text before it. */
  function SplitProto(s: string): (string, string) {
    var i := LastIndex(s, '/');
    if i >= 0 then (s[..i], ToLower(TrimSpace(s[i + 1..]))) else (s, "tcp")
  }

  predicate InRange(p: PortMap) {
    1 <= p.container <= 65535 && 0 <= p.host <= 65535 && KnownProto(p.proto)
  }

  /** "container", "host:container" or "ip:host:container"; the address is dropped. */
  function ParseMapping(s: string, proto: string): (r: Result<PortMap, PortError>)
    requires KnownProto(proto)
    ensures r.Ok? ==> InRange(r.value) && r.value.proto == proto
  {
    var parts := Split(s, ':');
    if |parts| > 3 then Err(BadMapping)
    else
      var cont := parts[|parts| - 1];
      var host := if |parts| == 1 then "" else parts[|parts| - 2];
      if '-' in cont || '-' in host then Err(PortRange)
      else
        match ParsePortNum(cont)
        case None => Err(BadContainerPort)
        case Some(c) =>
          if TrimSpace(host) == "" then Ok(PortMap(0, c, proto))
          else
            match ParsePortNum(host)
            case None => Err(BadHostPort)
            case Some(h) => Ok(PortMap(h, c, proto))
  }

  /** One entry of a ports list; blank entries stand for nothing. */
  function ParsePort(raw: string): (r: Result<Option<PortMap>, PortError>)
    ensures r.Ok? && r.value.Some? ==> InRange(r.value.value)
  {
    var trimmed := TrimSpace(raw);
    if trimmed == "" then Ok(None)
    else
      var (s, proto) := SplitProto(trimmed);
      if !KnownProto(proto) then Err(BadProtocol(proto))
      else
        match ParseMapping(s, proto)
        case Err(e) => Err(e)
        case Ok(p) => Ok(Some(p))
  }

  /** All entries in order; the first faulty entry decides the error. */
  function ParseAll(specs: seq<string>): Result<seq<PortMap>, PortError> {
    if |specs| == 0 then Ok([])
    else
      match ParseAll(specs[..|specs| - 1])
      case Err(e) => Err(e)
      case Ok(done) =>
        match ParsePort(specs[|specs| - 1])
        case Err(e) => Err(e)
        case Ok(None) => Ok(done)
        case Ok(Some(p)) => Ok(done + [p])
  }

  /** parsePorts. */
  method ParsePorts(specs: seq<string>) returns (r: Result<seq<PortMap>, PortError>)
    ensures r == ParseAll(specs)
  {
    var out := [];
    for i := 0 to |specs|
      invariant ParseAll(specs[..i]) == Ok(out)
    {
      assert specs[..i + 1][..i] == specs[..i];
      var one := ParsePort(specs[i]);
      if one.Err? {
        ParseAllStops(specs, i + 1);
        return Err(one.error);
      }
      if one.value.Some? {
        out := out + [one.value.value];
      }
    }
    assert specs[..|specs|] == specs;
    return Ok(out);
  }

  lemma {:induction false} ParseAllStops(specs: seq<string>, i: nat)
    requires i <= |specs| && ParseAll(specs[..i]).Err?
    ensures ParseAll(specs) == ParseAll(specs[..i])
    decreases |specs|
  {
    if i < |specs| {
      var shorter := specs[..|specs| - 1];
      assert shorter[..i] == specs[..i];
      ParseAllStops(shorter, i);
    } else {
      assert specs[..i] == specs;
    }
  }

  // ----- printing -----

  /** "host:container", or the container port alone without a host port. */
  function HostPart(p: BuilderPort): string {
    if p.host > 0 then Itoa(p.host) + ":" + Itoa(p.container) else Itoa(p.container)
  }

  /** The host part plus a protocol suffix unless the protocol is tcp. */
  function PortText(p: BuilderPort): string {
    var s := HostPart(p);
    var proto := ToLower(TrimSpace(p.proto));
    if proto != "" && proto != "tcp" then s + "/" + proto else s
  }

  function PortTexts(ports: seq<BuilderPort>): (texts: seq<string>)
    ensures |texts| <= |ports|
  {
    if |ports| == 0 then []
    else
      var last := ports[|ports| - 1];
      PortTexts(ports[..|ports| - 1]) + if last.container <= 0 then [] else [PortText(last)]
  }

  /** builderPortStrings. */
  method BuilderPortStrings(ports: seq<BuilderPort>) returns (out: seq<string>)
    ensures out == PortTexts(ports)
  {
    out := [];
    for i := 0 to |ports|
      invariant out == PortTexts(ports[..i])
    {
      assert ports[..i + 1][..i] == ports[..i];
      if ports[i].container <= 0 {
        continue;
      }
      out := out + [PortText(ports[i])];
    }
    assert ports[..|ports|] == ports;
  }

  // ----- round trip -----

  /** The mapping a builder port stands for. */
  function Normalized(p: BuilderPort): PortMap {
    var proto := ToLower(TrimSpace(p.proto));
    PortMap(p.host, p.container, if proto == "" then "tcp" else proto)
  }

  function NormalizedAll(ports: seq<BuilderPort>): (r: seq<PortMap>)
    ensures |r| == |ports| && forall i :: 0 <= i < |ports| ==> r[i] == Normalized(ports[i])
  {
    seq(|ports|, i requires 0 <= i < |ports| => Normalized(ports[i]))
  }

  predicate Publishable(p: BuilderPort) {
    InRange(Normalized(p))
  }

  predicate AllPublishable(ports: seq<BuilderPort>) {
    forall i :: 0 <= i < |ports| ==> Publishable(ports[i])
  }

  /** What a builder port must be to be published: container port 1 to 65535, host port up to
      65535 or none, and no protocol or one of the three, in any case. */
  lemma PublishableExactly(p: BuilderPort)
    ensures Publishable(p) <==>
      1 <= p.container <= 65535 && 0 <= p.host <= 65535 && ToLower(TrimSpace(p.proto)) in ["", "tcp", "udp", "sctp"]
    ensures Publishable(p) ==>
      Normalized(p) == PortMap(p.host, p.container, if TrimSpace(p.proto) == "" then "tcp" else ToLower(TrimSpace(p.proto)))
  {
    assert |ToLower(TrimSpace(p.proto))| == |TrimSpace(p.proto)|;
  }

  /** A port's text: the host port and a colon if there is one, the container port, and the
      protocol behind a slash unless it is tcp. */
  lemma PrintedSpelled(p: BuilderPort)
    ensures
      var proto := ToLower(TrimSpace(p.proto));
      PortText(p) ==
        (if p.host >= 1 then Itoa(p.host) + ":" else "") + Itoa(p.container) +
        (if proto in ["", "tcp"] then "" else "/" + proto)
  {
    var proto := ToLower(TrimSpace(p.proto));
    assert "" + Itoa(p.container) == Itoa(p.container);
    assert HostPart(p) + "" == HostPart(p);
  }

  /** A port without a container port is not printed. */
  lemma NotPrinted(ports: seq<BuilderPort>, p: BuilderPort)
    ensures PortTexts(ports + [p]) == PortTexts(ports) + if p.container > 0 then [PortText(p)] else []
  {
    assert (ports + [p])[..|ports|] == ports;
  }

  lemma DigitsArePlain(s: string)
    requires |s| > 0 && AllDigits(s)
    ensures ':' !in s && '/' !in s && '-' !in s && s != "" && TrimSpace(s) == s
  {
    TrimNothing(s);
  }

  lemma PortNumRoundTrip(n: int)
    requires 1 <= n <= 65535
    ensures ParsePortNum(Itoa(n)) == Some(n)
  {
    AtoiOfItoa(n);
    DigitsArePlain(Itoa(n));
  }

  lemma HostPartShape(p: BuilderPort)
    requires 1 <= p.container && 0 <= p.host
    ensures var s := HostPart(p); '/' !in s && |s| > 0 && IsDigit(s[0]) && IsDigit(s[|s| - 1])
  {
    DigitsArePlain(Itoa(p.container));
    if p.host > 0 {
      DigitsArePlain(Itoa(p.host));
    }
  }

  /** The host and container part is read back as printed. */
  lemma HostPartRoundTrip(p: BuilderPort, proto: string)
    requires InRange(PortMap(p.host, p.container, proto))
    ensures ParseMapping(HostPart(p), proto) == Ok(PortMap(p.host, p.container, proto))
  {
    DigitsArePlain(Itoa(p.container));
    SplitWithout(Itoa(p.container), ':');
    PortNumRoundTrip(p.container);
    if p.host > 0 {
      DigitsArePlain(Itoa(p.host));
      SplitAt(Itoa(p.host), Itoa(p.container), ':');
      PortNumRoundTrip(p.host);
    } else {
      assert TrimSpace("") == "";
    }
  }

  lemma ProtoSplits(s: string, proto: string)
    requires |s| > 0 && IsDigit(s[0]) && IsDigit(s[|s| - 1]) && '/' !in s
    requires KnownProto(proto)
    ensures TrimSpace(s) == s && SplitProto(s) == (s, "tcp")
    ensures var t := s + "/" + proto; TrimSpace(t) == t && SplitProto(t) == (s, proto)
  {
    TrimNothing(s);
    var t := s + "/" + proto;
    TrimNothing(t);
    TrimNothing(proto);
    assert t[|s|] == '/' && t[..|s|] == s && t[|s| + 1..] == proto;
    assert '/' !in proto && ToLower(proto) == proto;
    assert LastIndex(t, '/') == |s|;
  }

  lemma PortRoundTrip(p: BuilderPort)
    requires Publishable(p)
    ensures ParsePort(PortText(p)) == Ok(Some(Normalized(p)))
  {
    HostPartShape(p);
    ProtoSplits(HostPart(p), Normalized(p).proto);
    HostPartRoundTrip(p, Normalized(p).proto);
  }

  lemma {:induction false} ParseAllShape(specs: seq<string>)
    requires ParseAll(specs).Ok?
    ensures forall p :: p in ParseAll(specs).value ==> InRange(p)
  {
    if |specs| > 0 {
      var rest, one := specs[..|specs| - 1], ParsePort(specs[|specs| - 1]);
      ParseAllShape(rest);
      assert one.value.Some? ==> ParseAll(specs).value == ParseAll(rest).value + [one.value.value];
    }
  }

  lemma ParseAllAppend(specs: seq<string>, raw: string)
    requires ParseAll(specs).Ok? && ParsePort(raw).Ok? && ParsePort(raw).value.Some?
    ensures ParseAll(specs + [raw]) == Ok(ParseAll(specs).value + [ParsePort(raw).value.value])
  {
    assert (specs + [raw])[..|specs|] == specs;
  }

  lemma NormalizedLast(ports: seq<BuilderPort>)
    requires |ports| > 0
    ensures NormalizedAll(ports) == NormalizedAll(ports[..|ports| - 1]) + [Normalized(ports[|ports| - 1])]
  {
    var a, b := NormalizedAll(ports), NormalizedAll(ports[..|ports| - 1]) + [Normalized(ports[|ports| - 1])];
    assert |a| == |b| && forall i :: 0 <= i < |a| ==> a[i] == b[i];
  }

  lemma {:induction false} PortsReadBack(ports: seq<BuilderPort>)
    requires AllPublishable(ports)
    ensures ParseAll(PortTexts(ports)) == Ok(NormalizedAll(ports))
  {
    if |ports| == 0 {
      assert NormalizedAll(ports) == [];
    } else {
      var rest, last := ports[..|ports| - 1], ports[|ports| - 1];
      PortsReadBack(rest);
      assert ParsePort(PortText(last)) == Ok(Some(Normalized(last))) by {
        PortRoundTrip(last);
      }
      ParseAllAppend(PortTexts(rest), PortText(last));
      assert PortTexts(ports) == PortTexts(rest) + [PortText(last)];
      NormalizedLast(ports);
    }
  }

  lemma ReadBackPublishable(ports: seq<BuilderPort>)
    requires ParseAll(PortTexts(ports)) == Ok(NormalizedAll(ports))
    ensures AllPublishable(ports)
  {
    ParseAllShape(PortTexts(ports));
    forall i | 0 <= i < |ports| ensures Publishable(ports[i]) {
      assert NormalizedAll(ports)[i] in ParseAll(PortTexts(ports)).value;
    }
  }

  /** Printing a ports list and planning it back is lossless exactly for lists of
      publishable ports. */
  lemma PortsRoundTrip(ports: seq<BuilderPort>)
    ensures ParseAll(PortTexts(ports)) == Ok(NormalizedAll(ports)) <==> AllPublishable(ports)
  {
    if AllPublishable(ports) {
      PortsReadBack(ports);
    }
    if ParseAll(PortTexts(ports)) == Ok(NormalizedAll(ports)) {
      ReadBackPublishable(ports);
    }
  }
}
