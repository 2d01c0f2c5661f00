/** A decoded compose document and the checks run on it before planning. */
module ComposeModel {
  import opened Wrappers
  import opened Strings

  datatype Service = Service(
    image: string,
    containerName: string,
    ports: seq<string>,
    environment: seq<string>,
    volumes: seq<string>,
    networks: seq<string>,
    restart: string,
    dependsOn: seq<string>)

  type Model = map<string, Service>

  /** A list kept under a key; a missing key has the empty list. */
  function Lookup(table: map<string, seq<string>>, key: string): seq<string> {
    if key in table then table[key] else []
  }

  /** The depends_on list of a service; repeated entries are legal. */
  function Deps(m: Model, n: string): seq<string> {
    if n in m then m[n].dependsOn else []
  }

  ghost predicate KnownDeps(m: Model) {
    forall n, d :: n in m && d in Deps(m, n) ==> d in m
  }

  // ----- dependency cycles -----

  /** A walk along depends_on edges. */
  ghost predicate IsWalk(m: Model, p: seq<string>) {
    && |p| >= 1
    && (forall x :: x in p ==> x in m)
    && (forall i :: 0 <= i < |p| - 1 ==> p[i + 1] in Deps(m, p[i]))
  }

  ghost predicate IsCycle(m: Model, p: seq<string>) {
    IsWalk(m, p) && |p| >= 2 && p[0] == p[|p| - 1]
  }

  ghost predicate HasCycle(m: Model) {
    exists p :: IsCycle(m, p)
  }

  // ----- validation -----

  predicate ValidNameChars(name: string) {
    forall i :: 0 <= i < |name| ==>
      var c := name[i];
      'a' <= c <= 'z' || 'A' <= c <= 'Z' || '0' <= c <= '9'
      || (i > 0 && (c == '_' || c == '.' || c == '-'))
  }

  predicate ValidContainerName(name: string) {
    0 < |name| <= 255 && ValidNameChars(name)
  }

  const LOWER := "abcdefghijklmnopqrstuvwxyz"
  const UPPER := "ABCDEFGHIJKLMNOPQRSTUVWXYZ"
  const DIGITS := "0123456789"

  predicate LetterOrDigit(c: char) {
    c in LOWER || c in UPPER || c in DIGITS
  }

  lemma NameChar(c: char)
    ensures c in LOWER <==> 'a' <= c <= 'z'
    ensures c in UPPER <==> 'A' <= c <= 'Z'
    ensures c in DIGITS <==> '0' <= c <= '9'
  {}

  /** A container name is a letter or digit followed by up to 254 letters, digits, underscores,
      dots and dashes. */
  lemma NameSpelled(name: string)
    ensures ValidContainerName(name) <==>
      1 <= |name| <= 255 && LetterOrDigit(name[0]) &&
      forall i :: 1 <= i < |name| ==> LetterOrDigit(name[i]) || name[i] in ['_', '.', '-']
  {
    forall i | 0 <= i < |name|
      ensures LetterOrDigit(name[i]) <==>
        'a' <= name[i] <= 'z' || 'A' <= name[i] <= 'Z' || '0' <= name[i] <= '9'
    {
      NameChar(name[i]);
    }
  }

  datatype ValidationError =
    | MissingImage(service: string)
    | BadContainerName(service: string)
    | UnknownDependency(service: string, dependency: string)
    | SelfDependency(service: string)

  ghost predicate ValidService(m: Model, n: string)
    requires n in m
  {
    && m[n].image != ""
    && (m[n].containerName == "" || ValidContainerName(m[n].containerName))
    && (forall d :: d in m[n].dependsOn ==> d in m && d != n)
  }

  ghost predicate Valid(m: Model) {
    forall n :: n in m ==> ValidService(m, n)
  }

  /** The reported fault is one the service has. */
  predicate IsFault(s: Service, m: Model, fault: ValidationError) {
    match fault
    case MissingImage(_) => s.image == ""
    case BadContainerName(_) => s.containerName != "" && !ValidContainerName(s.containerName)
    case UnknownDependency(_, d) => d in s.dependsOn && d !in m
    case SelfDependency(n) => n in s.dependsOn
  }

  /** Model.validate: reads the services in map order and stops at the first fault. */
  method Validate(m: Model) returns (fault: Option<ValidationError>)
    ensures fault.None? <==> Valid(m)
    ensures fault.Some? ==> fault.value.service in m && IsFault(m[fault.value.service], m, fault.value)
  {
    var todo := m.Keys;
    while todo != {}
      invariant todo <= m.Keys
      invariant forall n :: n in m && n !in todo ==> ValidService(m, n)
    {
      var n :| n in todo;
      var svc := m[n];
      if svc.image == "" {
        return Some(MissingImage(n));
      }
      if svc.containerName != "" && !ValidContainerName(svc.containerName) {
        return Some(BadContainerName(n));
      }
      for i := 0 to |svc.dependsOn|
        invariant forall j :: 0 <= j < i ==> svc.dependsOn[j] in m && svc.dependsOn[j] != n
      {
        var dep := svc.dependsOn[i];
        if dep !in m {
          return Some(UnknownDependency(n, dep));
        }
        if dep == n {
          return Some(SelfDependency(n));
        }
      }
      todo := todo - {n};
    }
    return None;
  }

  // ----- service names in alphabetical order -----

  predicate Ascending(s: seq<string>) {
    forall i, j :: 0 <= i < j < |s| ==> Less(s[i], s[j])
  }

  /** Model.ServiceNamesSorted: every service name once, in alphabetical order. */
  method ServiceNamesSorted(m: Model) returns (names: seq<string>)
    ensures Ascending(names)
    ensures forall n :: n in names <==> n in m
  {
    names := [];
    var todo := m.Keys;
    while todo != {}
      invariant todo <= m.Keys
      invariant Ascending(names)
      invariant forall n :: n in names <==> n in m && n !in todo
    {
      var n :| n in todo;
      var at := Position(names, n);
      ghost var before := names;
      names := names[..at] + [n] + names[at..];
      assert forall x :: x in names <==> x in before || x == n by {
        assert before == before[..at] + before[at..];
      }
      todo := todo - {n};
    }
  }

  /** Where a new name belongs in an ascending list. */
  method Position(names: seq<string>, n: string) returns (at: nat)
    requires Ascending(names) && n !in names
    ensures at <= |names|
    ensures forall i :: 0 <= i < at ==> Less(names[i], n)
    ensures forall i :: at <= i < |names| ==> Less(n, names[i])
  {
    at := 0;
    while at < |names| && Less(names[at], n)
      invariant at <= |names|
      invariant forall i :: 0 <= i < at ==> Less(names[i], n)
    {
      at := at + 1;
    }
    if at < |names| {
      LessTotal(names[at], n);
      forall i | at < i < |names| ensures Less(n, names[i]) {
        LessTransitive(n, names[at], names[i]);
      }
    }
  }
}
