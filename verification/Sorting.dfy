/** sort.SliceStable for the one order the cost engine uses: larger amounts first, ties
    by name. */
module Sorting {
  import opened Strings

  datatype Rank = Rank(amount: real, name: string)

  predicate Before(a: Rank, b: Rank) {
    if a.amount != b.amount then a.amount > b.amount else Less(a.name, b.name)
  }

  lemma BeforeIsAsymmetric(a: Rank, b: Rank)
    ensures !(Before(a, b) && Before(b, a))
    ensures Before(a, b) || a == b || Before(b, a)
  {
    LessTotal(a.name, b.name);
  }

  lemma NotAfterTransitive(a: Rank, b: Rank, c: Rank)
    requires !Before(b, a) && !Before(c, b)
    ensures !Before(c, a)
  {
    LessTotal(a.name, b.name);
    LessTotal(b.name, c.name);
    LessTotal(a.name, c.name);
    if Less(a.name, b.name) && Less(b.name, c.name) {
      LessTransitive(a.name, b.name, c.name);
    }
  }

  /** Puts x behind everything it does not come before. */
  function Insert<T>(s: seq<T>, x: T, rank: T -> Rank): (r: seq<T>)
    ensures multiset(r) == multiset(s) + multiset{x}
  {
    if |s| == 0 then [x]
    else
      var last := s[|s| - 1];
      assert s == s[..|s| - 1] + [last];
      if Before(rank(x), rank(last)) then Insert(s[..|s| - 1], x, rank) + [last] else s + [x]
  }

  function SortBy<T>(s: seq<T>, rank: T -> Rank): (r: seq<T>)
    ensures multiset(r) == multiset(s)
  {
    if |s| == 0 then []
    else
      assert s == s[..|s| - 1] + [s[|s| - 1]];
      Insert(SortBy(s[..|s| - 1], rank), s[|s| - 1], rank)
  }

  /** No element comes before an earlier one. */
  ghost predicate Ordered<T>(s: seq<T>, rank: T -> Rank) {
    forall i, j :: 0 <= i < j < |s| ==> !Before(rank(s[j]), rank(s[i]))
  }

  /** Amounts descend, and equal amounts are in the order of their names. */
  lemma OrderedMeans<T>(s: seq<T>, rank: T -> Rank, i: nat, j: nat)
    requires Ordered(s, rank) && i < j < |s|
    ensures rank(s[i]).amount >= rank(s[j]).amount
    ensures rank(s[i]).amount == rank(s[j]).amount && rank(s[i]).name != rank(s[j]).name ==>
      Less(rank(s[i]).name, rank(s[j]).name)
  {
    LessTotal(rank(s[i]).name, rank(s[j]).name);
  }

  lemma BagOfInsert<T>(s: seq<T>, x: T, rank: T -> Rank)
    ensures forall y :: y in Insert(s, x, rank) ==> y == x || y in s
  {
    forall y | y in Insert(s, x, rank)
      ensures y == x || y in s
    {
      assert y in multiset(Insert(s, x, rank));
    }
  }

  lemma {:induction false} InsertKeepsOrder<T>(s: seq<T>, x: T, rank: T -> Rank)
    requires Ordered(s, rank)
    ensures Ordered(Insert(s, x, rank), rank)
  {
    if |s| > 0 {
      var k := |s| - 1;
      var front, last := s[..k], s[k];
      var r := Insert(s, x, rank);
      if Before(rank(x), rank(last)) {
        InsertKeepsOrder(front, x, rank);
        var inner := Insert(front, x, rank);
        BeforeIsAsymmetric(rank(x), rank(last));
        BagOfInsert(front, x, rank);
        forall i | 0 <= i < |inner|
          ensures !Before(rank(last), rank(inner[i]))
        {
          assert inner[i] in inner;
        }
      } else {
        forall i | 0 <= i < |s|
          ensures !Before(rank(x), rank(s[i]))
        {
          if i < k {
            NotAfterTransitive(rank(s[i]), rank(last), rank(x));
          }
        }
      }
    }
  }

  lemma {:induction false} SortOrders<T>(s: seq<T>, rank: T -> Rank)
    ensures Ordered(SortBy(s, rank), rank)
  {
    if |s| > 0 {
      SortOrders(s[..|s| - 1], rank);
      InsertKeepsOrder(SortBy(s[..|s| - 1], rank), s[|s| - 1], rank);
    }
  }

  /** The elements of one rank, in their order. */
  function OfRank<T>(s: seq<T>, rank: T -> Rank, k: Rank): seq<T> {
    if |s| == 0 then []
    else OfRank(s[..|s| - 1], rank, k) + if rank(s[|s| - 1]) == k then [s[|s| - 1]] else []
  }

  lemma OfRankPush<T>(s: seq<T>, x: T, rank: T -> Rank, k: Rank)
    ensures OfRank(s + [x], rank, k) == OfRank(s, rank, k) + if rank(x) == k then [x] else []
  {
    assert (s + [x])[..|s|] == s;
  }

  lemma {:induction false} InsertIsStable<T>(s: seq<T>, x: T, rank: T -> Rank, k: Rank)
    ensures OfRank(Insert(s, x, rank), rank, k) == OfRank(s, rank, k) + if rank(x) == k then [x] else []
  {
    if |s| == 0 {
      assert [x] == s + [x];
      OfRankPush(s, x, rank, k);
    } else {
      var front, last := s[..|s| - 1], s[|s| - 1];
      if Before(rank(x), rank(last)) {
        InsertIsStable(front, x, rank, k);
        OfRankPush(Insert(front, x, rank), last, rank, k);
        BeforeIsAsymmetric(rank(x), rank(last));
      } else {
        OfRankPush(s, x, rank, k);
      }
    }
  }

  /** Elements of equal rank keep their order. */
  lemma {:induction false} SortIsStable<T>(s: seq<T>, rank: T -> Rank, k: Rank)
    ensures OfRank(SortBy(s, rank), rank, k) == OfRank(s, rank, k)
  {
    if |s| > 0 {
      SortIsStable(s[..|s| - 1], rank, k);
      InsertIsStable(SortBy(s[..|s| - 1], rank), s[|s| - 1], rank, k);
    }
  }

  // ----- sums -----

  function Sum<T>(s: seq<T>, f: T -> real): real {
    if |s| == 0 then 0.0 else Sum(s[..|s| - 1], f) + f(s[|s| - 1])
  }

  lemma {:induction false} SumAppend<T>(a: seq<T>, b: seq<T>, f: T -> real)
    ensures Sum(a + b, f) == Sum(a, f) + Sum(b, f)
  {
    if |b| == 0 {
      assert a + b == a;
    } else {
      SumAppend(a, b[..|b| - 1], f);
      assert (a + b)[..|a + b| - 1] == a + b[..|b| - 1];
    }
  }

  function TakeOut<T>(s: seq<T>, i: nat): (r: seq<T>)
    requires i < |s|
    ensures multiset(r) == multiset(s) - multiset{s[i]}
    ensures |r| == |s| - 1
  {
    assert s == s[..i] + ([s[i]] + s[i + 1..]);
    s[..i] + s[i + 1..]
  }

  lemma SplitAround<T>(s: seq<T>, i: nat)
    requires i < |s|
    ensures s == s[..i] + ([s[i]] + s[i + 1..])
  {}

  lemma SumAround<T>(a: seq<T>, x: T, b: seq<T>, f: T -> real)
    ensures Sum(a + ([x] + b), f) == Sum(a + b, f) + f(x)
  {
    SumAppend(a, [x] + b, f);
    SumAppend([x], b, f);
    SumAppend(a, b, f);
    assert [x][..0] == [];
  }

  lemma SumTakeOut<T>(s: seq<T>, i: nat, f: T -> real)
    requires i < |s|
    ensures Sum(s, f) == Sum(TakeOut(s, i), f) + f(s[i])
  {
    SplitAround(s, i);
    SumAround(s[..i], s[i], s[i + 1..], f);
  }

  lemma FrontBag<T>(s: seq<T>)
    requires |s| > 0
    ensures multiset(s[..|s| - 1]) == multiset(s) - multiset{s[|s| - 1]}
  {
    assert s == s[..|s| - 1] + [s[|s| - 1]];
  }

  /** Taking only some of the elements of a list, each at most as often as it occurs,
      never sums to more, provided nothing is negative. */
  lemma {:induction false} SumOfPart<T>(part: seq<T>, whole: seq<T>, f: T -> real)
    requires multiset(part) <= multiset(whole)
    requires forall x :: x in whole ==> f(x) >= 0.0
    ensures Sum(part, f) <= Sum(whole, f)
    decreases |whole|
  {
    if |part| == 0 {
      SumNonNegative(whole, f);
    } else {
      var x := part[|part| - 1];
      FrontBag(part);
      assert x in multiset(part);
      var i :| 0 <= i < |whole| && whole[i] == x;
      SumTakeOut(whole, i, f);
      SumOfPart(part[..|part| - 1], TakeOut(whole, i), f);
    }
  }

  lemma {:induction false} SumNonNegative<T>(s: seq<T>, f: T -> real)
    requires forall x :: x in s ==> f(x) >= 0.0
    ensures Sum(s, f) >= 0.0
  {
    if |s| > 0 {
      SumNonNegative(s[..|s| - 1], f);
    }
  }

  /** The order of a list does not change its sum. */
  lemma {:induction false} SumOfPermutation<T>(a: seq<T>, b: seq<T>, f: T -> real)
    requires multiset(a) == multiset(b)
    ensures Sum(a, f) == Sum(b, f)
    decreases |b|
  {
    if |a| == 0 {
      assert |multiset(b)| == 0;
    } else {
      var x := a[|a| - 1];
      FrontBag(a);
      assert x in multiset(b) by {
        assert x in multiset(a);
      }
      var i :| 0 <= i < |b| && b[i] == x;
      SumTakeOut(b, i, f);
      SumOfPermutation(a[..|a| - 1], TakeOut(b, i), f);
    }
  }
}
