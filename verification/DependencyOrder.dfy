/** What a good start-up order is, independently of how one is computed, and why
    always starting the alphabetically first ready service finds the best one. */
module DependencyOrder {
  import opened Strings
  import opened ComposeModel

  predicate Distinct<T(==)>(s: seq<T>) {
    forall i, j :: 0 <= i < j < |s| ==> s[i] != s[j]
  }

  /** Every service exactly once, each after all of its dependencies. */
  ghost predicate TopoOrder(m: Model, t: seq<string>) {
    && Distinct(t)
    && (forall n :: n in t <==> n in m)
    && (forall i, d :: 0 <= i < |t| && d in Deps(m, t[i]) ==> d in t[..i])
  }

  /** t comes before u in dictionary order of service names. */
  ghost predicate Precedes(t: seq<string>, u: seq<string>) {
    exists k :: 0 <= k < |t| && k < |u| && t[..k] == u[..k] && Less(t[k], u[k])
  }

  /** The first order, in dictionary order, among all dependency orders. */
  ghost predicate CanonicalOrder(m: Model, t: seq<string>) {
    TopoOrder(m, t) && forall u :: TopoOrder(m, u) ==> u == t || Precedes(t, u)
  }

  /** x can be started once the services in done are up. */
  ghost predicate Ready(m: Model, done: seq<string>, x: string) {
    x in m && x !in done && forall d :: d in Deps(m, x) ==> d in done
  }

  /** s was built by always appending the alphabetically first ready service. */
  ghost predicate GreedyRun(m: Model, s: seq<string>) {
    forall i :: 0 <= i < |s| ==>
      Ready(m, s[..i], s[i]) && forall x :: Ready(m, s[..i], x) ==> x == s[i] || Less(s[i], x)
  }

  lemma GreedyRunDistinct(m: Model, s: seq<string>)
    requires GreedyRun(m, s)
    ensures Distinct(s)
    ensures forall i, d :: 0 <= i < |s| && d in Deps(m, s[i]) ==> d in s[..i]
  {
    forall i, j | 0 <= i < j < |s| ensures s[i] != s[j] {
      assert Ready(m, s[..j], s[j]);
      assert s[i] == s[..j][i];
    }
  }

  /** A greedy run that reaches every service is the canonical order. */
  lemma GreedyIsCanonical(m: Model, s: seq<string>)
    requires GreedyRun(m, s)
    requires forall n :: n in m ==> n in s
    ensures CanonicalOrder(m, s)
  {
    GreedyRunDistinct(m, s);
    forall n | n in s ensures n in m {
      var i :| 0 <= i < |s| && s[i] == n;
      assert Ready(m, s[..i], s[i]);
    }
    forall u | TopoOrder(m, u) && u != s ensures Precedes(s, u) {
      var k := FirstDifference(m, s, u);
      assert Ready(m, s[..k], u[k]) by {
        assert u[k] !in u[..k];
      }
    }
  }

  lemma SameLength(m: Model, t: seq<string>, u: seq<string>)
    requires TopoOrder(m, t) && TopoOrder(m, u)
    ensures |t| == |u|
  {
    CountDistinct(t, m.Keys);
    CountDistinct(u, m.Keys);
  }

  lemma {:induction false} CountDistinct<T>(t: seq<T>, all: set<T>)
    requires Distinct(t) && forall n :: n in t <==> n in all
    ensures |t| == |all|
  {
    if |t| == 0 {
      assert all == {};
    } else {
      var last := t[|t| - 1];
      assert forall n :: n in t[..|t| - 1] <==> n in all - {last};
      CountDistinct(t[..|t| - 1], all - {last});
    }
  }

  lemma FirstDifference(m: Model, t: seq<string>, u: seq<string>) returns (k: nat)
    requires TopoOrder(m, t) && TopoOrder(m, u) && t != u
    ensures k < |t| && k < |u| && t[..k] == u[..k] && t[k] != u[k]
  {
    SameLength(m, t, u);
    k := 0;
    while k < |t| && t[k] == u[k]
      invariant k <= |t| && t[..k] == u[..k]
    {
      k := k + 1;
    }
  }

  lemma SamePrefix(t: seq<string>, u: seq<string>, i: nat, j: nat)
    requires i < j <= |t| && j <= |u| && t[..j] == u[..j]
    ensures t[i] == u[i]
  {
    assert t[i] == t[..j][i];
  }

  /** The canonical order depends on the model alone. */
  lemma CanonicalUnique(m: Model, t: seq<string>, u: seq<string>)
    requires CanonicalOrder(m, t) && CanonicalOrder(m, u)
    ensures t == u
  {
    if t != u {
      var i :| 0 <= i < |t| && i < |u| && t[..i] == u[..i] && Less(t[i], u[i]);
      var j :| 0 <= j < |u| && j < |t| && u[..j] == t[..j] && Less(u[j], t[j]);
      if i < j {
        SamePrefix(t, u, i, j);
      } else if j < i {
        SamePrefix(t, u, j, i);
      }
      LessTotal(t[i], u[i]);
      LessTotal(u[j], t[j]);
    }
  }

  // ----- cycles are exactly what prevents an order -----

  /** Along a walk positions in a dependency order strictly fall, so no walk closes. */
  lemma {:induction false} WalkDescends(m: Model, t: seq<string>, p: seq<string>, last: nat)
    requires TopoOrder(m, t) && IsWalk(m, p) && 0 < last < |p|
    ensures exists a, b :: 0 <= b < a < |t| && t[a] == p[0] && t[b] == p[last]
    decreases last
  {
    var a0: nat;
    if last > 1 {
      WalkDescends(m, t, p, last - 1);
      var a, b :| 0 <= b < a < |t| && t[a] == p[0] && t[b] == p[last - 1];
      assert p[last] in Deps(m, t[b]);
      var c :| 0 <= c < b && t[..b][c] == p[last];
      assert 0 <= c < a < |t| && t[a] == p[0] && t[c] == p[last];
    } else {
      assert p[0] in t;
      var a :| 0 <= a < |t| && t[a] == p[0];
      assert p[1] in Deps(m, p[0]);
      var c :| 0 <= c < a && t[..a][c] == p[1];
      assert 0 <= c < a < |t| && t[a] == p[0] && t[c] == p[last];
    }
  }

  lemma CycleBlocks(m: Model, t: seq<string>)
    requires TopoOrder(m, t)
    ensures !HasCycle(m) && KnownDeps(m)
  {
    if p :| IsCycle(m, p) {
      WalkDescends(m, t, p, |p| - 1);
      assert false;
    }
    forall n, d | n in m && d in Deps(m, n) ensures d in m {
      var i :| 0 <= i < |t| && t[i] == n;
      assert d in t[..i];
    }
  }

  /** When nothing is ready although services are left, every one of those has an
      unmet dependency among them; following these must revisit a service. */
  lemma StuckHasCycle(m: Model, done: seq<string>)
    requires KnownDeps(m)
    requires forall x :: !Ready(m, done, x)
    requires exists n :: n in m && n !in done
    ensures HasCycle(m)
  {
    var n :| n in m && n !in done;
    var left := m.Keys - set x | x in done;
    FollowUnmet(m, done, left, [n]);
  }

  lemma {:induction false} FollowUnmet(m: Model, done: seq<string>, left: set<string>, p: seq<string>)
    requires KnownDeps(m)
    requires forall x :: !Ready(m, done, x)
    requires forall x :: x in left <==> x in m && x !in done
    requires IsWalk(m, p) && Distinct(p) && forall x :: x in p ==> x in left
    ensures HasCycle(m)
    decreases |left| - |p|
  {
    WalkFits(p, left);
    var n := p[|p| - 1];
    assert !Ready(m, done, n);
    var d :| d in Deps(m, n) && d !in done;
    var q := p + [d];
    assert IsWalk(m, q);
    if d in p {
      var i :| 0 <= i < |p| && p[i] == d;
      assert IsCycle(m, q[i..]);
    } else {
      WalkFits(q, left);
      FollowUnmet(m, done, left, q);
    }
  }

  lemma {:induction false} WalkFits(p: seq<string>, left: set<string>)
    requires Distinct(p) && forall x :: x in p ==> x in left
    ensures |p| <= |left|
  {
    if |p| > 0 {
      var last := p[|p| - 1];
      assert |left - {last}| == |left| - 1;
      WalkFits(p[..|p| - 1], left - {last});
    }
  }
}
