/** The planner's Kahn-style scheduler, proved to find the canonical order. */
module TopoSort {
  import opened Wrappers
  import opened Strings
  import opened ComposeModel
  import opened DependencyOrder

  datatype PlanError = DependencyCycle

  function Count(s: seq<string>, x: string): nat {
    if |s| == 0 then 0 else Count(s[..|s| - 1], x) + if s[|s| - 1] == x then 1 else 0
  }

  lemma CountAppend(s: seq<string>, y: string, x: string)
    ensures Count(s + [y], x) == Count(s, x) + if y == x then 1 else 0
  {
    assert (s + [y])[..|s|] == s;
  }

  lemma {:induction false} CountPrefix(s: seq<string>, i: nat, x: string)
    requires i <= |s|
    ensures Count(s[..i], x) <= Count(s, x)
  {
    if i < |s| {
      CountPrefix(s[..|s| - 1], i, x);
      assert s[..|s| - 1][..i] == s[..i];
    } else {
      assert s[..i] == s;
    }
  }

  /** Entries of a depends_on list, repeats counted, that are not up yet. */
  function Unmet(deps: seq<string>, done: set<string>): nat {
    if |deps| == 0 then 0
    else Unmet(deps[..|deps| - 1], done) + if deps[|deps| - 1] in done then 0 else 1
  }

  lemma {:induction false} UnmetZero(deps: seq<string>, done: set<string>)
    ensures Unmet(deps, done) == 0 <==> forall d :: d in deps ==> d in done
  {
    if |deps| > 0 {
      var rest, last := deps[..|deps| - 1], deps[|deps| - 1];
      UnmetZero(rest, done);
      assert forall d :: d in deps <==> d == last || d in rest;
    }
  }

  /** Bringing n up meets exactly the entries that name n. */
  lemma {:induction false} UnmetStep(deps: seq<string>, done: set<string>, n: string)
    requires n !in done
    ensures Unmet(deps, done) == Unmet(deps, done + {n}) + Count(deps, n)
  {
    if |deps| > 0 {
      UnmetStep(deps[..|deps| - 1], done, n);
    }
  }

  lemma {:induction false} UnmetNone(deps: seq<string>)
    ensures Unmet(deps, {}) == |deps|
  {
    if |deps| > 0 {
      UnmetNone(deps[..|deps| - 1]);
    }
  }

  /** dependents[d] lists x once for every time d occurs in x's depends_on. */
  ghost predicate Reversed(m: Model, dependents: map<string, seq<string>>, names: seq<string>) {
    forall d, x :: Count(Lookup(dependents, d), x) == if x in names then Count(Deps(m, x), d) else 0
  }

  ghost function Up(out: seq<string>): set<string> {
    set x | x in out
  }

  ghost predicate Counted(m: Model, indegree: map<string, int>, out: seq<string>) {
    indegree.Keys == m.Keys && forall x :: x in m ==> indegree[x] == Unmet(Deps(m, x), Up(out))
  }

  /** The queue holds exactly the services that are ready, each once. */
  ghost predicate Queued(m: Model, queue: seq<string>, out: seq<string>) {
    Distinct(queue) && forall x :: x in queue <==> Ready(m, out, x)
  }

  lemma ReadyCount(m: Model, out: seq<string>, x: string)
    ensures Ready(m, out, x) <==> x in m && x !in out && Unmet(Deps(m, x), Up(out)) == 0
  {
    UnmetZero(Deps(m, x), Up(out));
  }

  lemma AscendingDistinct(names: seq<string>)
    requires Ascending(names)
    ensures Distinct(names)
  {
    forall i, j | 0 <= i < j < |names| ensures names[i] != names[j] {
      LessTotal(names[i], names[j]);
    }
  }

  lemma ExtendGreedy(m: Model, out: seq<string>, n: string)
    requires GreedyRun(m, out) && Ready(m, out, n)
    requires forall x :: Ready(m, out, x) ==> x == n || Less(n, x)
    ensures GreedyRun(m, out + [n])
  {
    var s := out + [n];
    forall i | 0 <= i < |s|
      ensures Ready(m, s[..i], s[i]) && forall x :: Ready(m, s[..i], x) ==> x == s[i] || Less(s[i], x)
    {
      assert s[..i] == out[..i];
      assert i == |out| ==> out[..i] == out;
    }
  }

  lemma {:induction false} MissingService(out: seq<string>, all: set<string>)
    requires Distinct(out) && forall x :: x in out ==> x in all
    ensures |out| == |all| <==> forall n :: n in all ==> n in out
  {
    if |out| == 0 {
      if n :| n in all {
        assert |all - {n}| == |all| - 1;
      }
    } else {
      var last := out[|out| - 1];
      assert |all - {last}| == |all| - 1;
      MissingService(out[..|out| - 1], all - {last});
      assert forall n :: n in out <==> n == last || n in out[..|out| - 1];
    }
  }

  /** after lists n once more under d for every time d occurs in deps. */
  ghost predicate Tallied(before: map<string, seq<string>>, after: map<string, seq<string>>, n: string, deps: seq<string>) {
    forall d, x ::
      Count(Lookup(after, d), x) == Count(Lookup(before, d), x) + if x == n then Count(deps, d) else 0
  }

  lemma TallyOne(before: map<string, seq<string>>, mid: map<string, seq<string>>, n: string, deps: seq<string>, dep: string)
    requires Tallied(before, mid, n, deps)
    ensures Tallied(before, mid[dep := Lookup(mid, dep) + [n]], n, deps + [dep])
  {
    var after := mid[dep := Lookup(mid, dep) + [n]];
    forall d, x
      ensures Count(Lookup(after, d), x) == Count(Lookup(before, d), x) + if x == n then Count(deps + [dep], d) else 0
    {
      CountAppend(Lookup(mid, dep), n, x);
      CountAppend(deps, dep, d);
    }
  }

  lemma TallyService(m: Model, before: map<string, seq<string>>, after: map<string, seq<string>>, names: seq<string>, n: string)
    requires Reversed(m, before, names) && n !in names
    requires Tallied(before, after, n, Deps(m, n))
    ensures Reversed(m, after, names + [n])
  {
    forall d, x
      ensures Count(Lookup(after, d), x) == if x in names + [n] then Count(Deps(m, x), d) else 0
    {
      assert Count(Lookup(before, d), x) == if x in names then Count(Deps(m, x), d) else 0;
    }
  }

  /** The inner loop: one service's depends_on list. */
  method CountService(n: string, deps: seq<string>, indegree0: map<string, int>, dependents0: map<string, seq<string>>)
      returns (indegree: map<string, int>, dependents: map<string, seq<string>>)
    requires n in indegree0 && indegree0[n] == 0
    ensures indegree == indegree0[n := |deps|]
    ensures Tallied(dependents0, dependents, n, deps)
  {
    indegree, dependents := indegree0, dependents0;
    assert deps[..0] == [];
    assert forall d :: Count([], d) == 0;
    for j := 0 to |deps|
      invariant indegree == indegree0[n := j]
      invariant Tallied(dependents0, dependents, n, deps[..j])
    {
      var dep := deps[j];
      TallyOne(dependents0, dependents, n, deps[..j], dep);
      assert deps[..j + 1] == deps[..j] + [dep];
      indegree := indegree[n := indegree[n] + 1];
      dependents := dependents[dep := Lookup(dependents, dep) + [n]];
    }
    assert deps[..|deps|] == deps;
  }

  method CountDependencies(m: Model, names: seq<string>)
      returns (indegree: map<string, int>, dependents: map<string, seq<string>>)
    requires Distinct(names) && forall n :: n in names <==> n in m
    ensures Counted(m, indegree, [])
    ensures Reversed(m, dependents, names)
  {
    indegree, dependents := map[], map[];
    for i := 0 to |names|
      invariant forall x :: x in indegree <==> x in names[..i]
      invariant forall x :: x in names[..i] ==> indegree[x] == |Deps(m, x)|
      invariant Reversed(m, dependents, names[..i])
    {
      var n := names[i];
      if n !in indegree {
        indegree := indegree[n := 0];
      }
      ghost var before := dependents;
      indegree, dependents := CountService(n, m[n].dependsOn, indegree, dependents);
      TallyService(m, before, dependents, names[..i], n);
      assert names[..i + 1] == names[..i] + [n];
    }
    assert names[..|names|] == names;
    AllUnmet(m, indegree);
  }

  /** Before anything is done, every dependency is unmet. */
  lemma AllUnmet(m: Model, indegree: map<string, int>)
    requires forall x :: x in indegree <==> x in m
    requires forall x :: x in m ==> indegree[x] == |Deps(m, x)|
    ensures Counted(m, indegree, [])
  {
    forall x | x in m ensures indegree[x] == Unmet(Deps(m, x), Up([])) {
      assert Up([]) == {};
      UnmetNone(Deps(m, x));
    }
  }

  /** Position of the alphabetically smallest queue entry. */
  method SmallestAt(queue: seq<string>) returns (min: nat)
    requires |queue| > 0
    ensures min < |queue|
    ensures forall i :: 0 <= i < |queue| ==> queue[i] == queue[min] || Less(queue[min], queue[i])
  {
    min := 0;
    for i := 1 to |queue|
      invariant min < |queue|
      invariant forall j :: 0 <= j < i ==> queue[j] == queue[min] || Less(queue[min], queue[j])
    {
      LessTotal(queue[i], queue[min]);
      if Less(queue[i], queue[min]) {
        forall j | 0 <= j < i ensures queue[j] == queue[i] || Less(queue[i], queue[j]) {
          if queue[j] != queue[min] {
            LessTransitive(queue[i], queue[min], queue[j]);
          }
        }
        min := i;
      }
    }
  }

  /** waiting lists x once for every entry of x's depends_on that names n. */
  ghost predicate WaitingFor(m: Model, n: string, waiting: seq<string>) {
    forall x :: Count(waiting, x) == if x in m then Count(Deps(m, x), n) else 0
  }

  /** What lowering the counts of the services in waiting leads to. */
  ghost predicate Lowered(indegree0: map<string, int>, queue0: seq<string>, waiting: seq<string>,
                          indegree: map<string, int>, queue: seq<string>) {
    && indegree.Keys == indegree0.Keys
    && Distinct(queue)
    && (forall x :: x in indegree0 ==> indegree[x] == indegree0[x] - Count(waiting, x))
    && (forall x :: x in queue <==> x in queue0 || (x in indegree0 && indegree0[x] > 0 && indegree[x] == 0))
  }

  /** Brings n up: every service waiting for n has its count lowered, and joins
      the queue the moment its count reaches zero. */
  method Release(waiting: seq<string>, indegree0: map<string, int>, queue0: seq<string>)
      returns (indegree: map<string, int>, queue: seq<string>)
    requires Distinct(queue0)
    requires forall x :: x in waiting ==> x in indegree0 && indegree0[x] >= Count(waiting, x) && x !in queue0
    ensures Lowered(indegree0, queue0, waiting, indegree, queue)
  {
    indegree, queue := indegree0, queue0;
    for i := 0 to |waiting|
      invariant Lowered(indegree0, queue0, waiting[..i], indegree, queue)
    {
      var x := waiting[i];
      assert waiting[..i + 1] == waiting[..i] + [x];
      forall y ensures Count(waiting[..i + 1], y) == Count(waiting[..i], y) + if y == x then 1 else 0 {
        CountAppend(waiting[..i], x, y);
      }
      CountPrefix(waiting, i + 1, x);
      indegree := indegree[x := indegree[x] - 1];
      if indegree[x] == 0 {
        queue := queue + [x];
      }
    }
    assert waiting[..|waiting|] == waiting;
  }

  lemma {:induction false} CountMember(s: seq<string>, x: string)
    ensures x in s <==> Count(s, x) > 0
  {
    if |s| > 0 {
      CountMember(s[..|s| - 1], x);
      assert x in s <==> x == s[|s| - 1] || x in s[..|s| - 1];
    }
  }

  /** A service waiting for n is not queued yet, and its count covers all its entries. */
  lemma WaitingNotQueued(m: Model, out: seq<string>, n: string, waiting: seq<string>, indegree: map<string, int>, x: string)
    requires n !in out && WaitingFor(m, n, waiting) && Counted(m, indegree, out) && x in waiting
    ensures x in indegree && indegree[x] >= Count(waiting, x) > 0 && !Ready(m, out, x)
  {
    CountMember(waiting, x);
    UnmetStep(Deps(m, x), Up(out), n);
    ReadyCount(m, out, x);
  }

  lemma WaitingReleasable(m: Model, out: seq<string>, n: string, dependents: map<string, seq<string>>, names: seq<string>,
                          indegree: map<string, int>, queue: seq<string>)
    requires Reversed(m, dependents, names) && forall x :: x in names <==> x in m
    requires n !in out && Counted(m, indegree, out) && forall x :: x in queue ==> Ready(m, out, x)
    ensures WaitingFor(m, n, Lookup(dependents, n))
    ensures forall x :: x in Lookup(dependents, n) ==>
      x in indegree && indegree[x] >= Count(Lookup(dependents, n), x) && x !in queue
  {
    var waiting := Lookup(dependents, n);
    forall x | x in waiting ensures x in indegree && indegree[x] >= Count(waiting, x) && x !in queue {
      WaitingNotQueued(m, out, n, waiting, indegree, x);
    }
  }

  lemma ReleaseKeepsQueue(m: Model, out: seq<string>, n: string, waiting: seq<string>,
                          indegree0: map<string, int>, queue0: seq<string>, indegree: map<string, int>, queue: seq<string>)
    requires GreedyRun(m, out) && Ready(m, out, n) && Counted(m, indegree0, out) && WaitingFor(m, n, waiting)
    requires n !in queue0 && forall x :: x in queue0 || x == n <==> Ready(m, out, x)
    requires Lowered(indegree0, queue0, waiting, indegree, queue)
    ensures Counted(m, indegree, out + [n]) && Queued(m, queue, out + [n])
  {
    assert Up(out + [n]) == Up(out) + {n};
    forall x | x in m ensures indegree[x] == Unmet(Deps(m, x), Up(out + [n])) {
      UnmetStep(Deps(m, x), Up(out), n);
    }
    GreedyRunDistinct(m, out);
    forall x ensures x in queue <==> Ready(m, out + [n], x) {
      ReadyCount(m, out, x);
      ReadyCount(m, out + [n], x);
      if x in m && x in out {
        UnmetZero(Deps(m, x), Up(out));
      }
    }
  }

  /** Seeds the queue with the services that depend on nothing. */
  method SeedQueue(m: Model, names: seq<string>, indegree: map<string, int>) returns (queue: seq<string>)
    requires Distinct(names) && forall n :: n in names <==> n in m
    requires Counted(m, indegree, [])
    ensures Queued(m, queue, [])
  {
    queue := [];
    for i := 0 to |names|
      invariant Distinct(queue)
      invariant forall x :: x in queue <==> x in names[..i] && indegree[x] == 0
    {
      assert names[..i + 1] == names[..i] + [names[i]];
      if indegree[names[i]] == 0 {
        queue := queue + [names[i]];
      }
    }
    assert names[..|names|] == names;
    forall x ensures x in queue <==> Ready(m, [], x) {
      ReadyCount(m, [], x);
    }
  }

  /** topoSort: the canonical order when there is one, and the cycle error exactly
      when the dependency graph has a cycle or names an unknown service. */
  method TopoSort(m: Model) returns (r: Result<seq<string>, PlanError>)
    ensures r.Ok? ==> CanonicalOrder(m, r.value)
    ensures r.Err? <==> HasCycle(m) || !KnownDeps(m)
  {
    var names := ServiceNamesSorted(m);
    AscendingDistinct(names);
    CountDistinct(names, m.Keys);
    var indegree, dependents := CountDependencies(m, names);
    var queue := SeedQueue(m, names, indegree);

    var out := [];
    while |queue| > 0
      invariant GreedyRun(m, out)
      invariant Counted(m, indegree, out) && Queued(m, queue, out)
      invariant |out| <= |m|
      decreases |m| - |out|
    {
      // Pop the alphabetically smallest ready service.
      var min := SmallestAt(queue);
      var n := queue[min];
      assert n in queue && Ready(m, out, n);
      ghost var queue0, indegree0 := queue, indegree;
      queue := queue[..min] + queue[min + 1..];
      ghost var queue1 := queue;
      PopQueue(queue0, min);
      var waiting := Lookup(dependents, n);
      WaitingReleasable(m, out, n, dependents, names, indegree, queue);
      indegree, queue := Release(waiting, indegree, queue);
      ReleaseKeepsQueue(m, out, n, waiting, indegree0, queue1, indegree, queue);
      ExtendGreedy(m, out, n);
      GreedyFits(m, out + [n]);
      out := out + [n];
    }

    GreedyFits(m, out);
    if |out| != |names| {
      if KnownDeps(m) {
        StuckHasCycle(m, out);
      }
      return Err(DependencyCycle);
    }
    GreedyIsCanonical(m, out);
    CycleBlocks(m, out);
    return Ok(out);
  }

  lemma PopQueue(queue: seq<string>, k: nat)
    requires k < |queue| && Distinct(queue)
    ensures Distinct(queue[..k] + queue[k + 1..])
    ensures forall x :: x in queue[..k] + queue[k + 1..] <==> x in queue && x != queue[k]
  {
    assert queue == queue[..k] + [queue[k]] + queue[k + 1..];
  }

  lemma GreedyFits(m: Model, out: seq<string>)
    requires GreedyRun(m, out)
    ensures |out| <= |m|
    ensures |out| == |m| <==> forall n :: n in m ==> n in out
  {
    GreedyRunDistinct(m, out);
    forall x | x in out ensures x in m {
      var i :| 0 <= i < |out| && out[i] == x;
      assert Ready(m, out[..i], x);
    }
    WalkFits(out, m.Keys);
    MissingService(out, m.Keys);
  }
}
