/** The alarm engine's runs in terms of the readings themselves. */
module AlarmReadings {
  import opened Wrappers
  import opened Strings
  import opened Alarms
  import opened AlarmEngine
  import opened AlarmLife
  import opened AlarmRuns

  // ----- which readings are out of bounds -----

  /** The same letter in another case; the Kelvin sign counts as a k, the long s as an s. */
  predicate SameLetter(c: char, d: char) {
    c == d || CasePair(c, d) || CasePair(d, c) ||
    (c in ['k', 'K', '\U{212A}'] && d in ['k', 'K', '\U{212A}']) ||
    (c in ['s', 'S', '\U{017F}'] && d in ['s', 'S', '\U{017F}'])
  }

  predicate CasePair(upper: char, lower: char) {
    'A' <= upper <= 'Z' && 'a' <= lower <= 'z' && lower as int - upper as int == 'a' as int - 'A' as int
  }

  predicate SameText(a: string, b: string) {
    |a| == |b| && forall i :: 0 <= i < |a| ==> SameLetter(a[i], b[i])
  }

  lemma FoldIsSameLetter(c: char, d: char)
    ensures FoldChar(c) == FoldChar(d) <==> SameLetter(c, d)
  {}

  lemma FoldIsSameText(a: string, b: string)
    ensures EqualFold(a, b) <==> SameText(a, b)
  {
    forall c, d
      ensures FoldChar(c) == FoldChar(d) <==> SameLetter(c, d)
    {
      FoldIsSameLetter(c, d);
    }
  }

  /** A reading with data that lies on the wrong side of the definition's threshold, or
      shows the unwanted state. */
  predicate Crosses(d: Definition, x: Reading) {
    x.hasData &&
    (d.metric == LifecycleState ==> SameText(x.stateRaw, d.stateValue)) &&
    (d.metric != LifecycleState ==>
       (d.comparator == GT && x.value > d.threshold) ||
       (d.comparator == LT && x.value < d.threshold) ||
       (d.comparator == EQ && x.value == d.threshold))
  }

  lemma BreachesExactly(d: Definition, x: Reading)
    ensures Breaches(d, x) <==> Crosses(d, x)
  {
    FoldIsSameText(x.stateRaw, d.stateValue);
  }

  /** At this tick an enabled definition d reads x for the alarm k. */
  ghost predicate Reads(t: Tick, k: string, d: Definition, x: Reading) {
    d in t.defs && d.enabled && d.id in t.readings && x in t.readings[d.id] && k == d.id + ":" + x.objectId
  }

  lemma {:induction false} PairsExactly(defs: seq<Definition>, readings: map<string, seq<Reading>>, p: Pair)
    ensures p in Pairs(defs, readings) <==>
      p.d in defs && p.d.enabled && p.d.id in readings && p.r in readings[p.d.id]
  {
    if |defs| > 0 {
      var rest, d := defs[..|defs| - 1], defs[|defs| - 1];
      PairsExactly(rest, readings, p);
      var ps := PairsOf(d, ReadingsOf(readings, d.id));
      assert p.d in defs <==> p.d in rest || p.d == d;
      if p.d == d && d.id in readings && p.r in readings[d.id] {
        var i :| 0 <= i < |readings[d.id]| && readings[d.id][i] == p.r;
        assert ps[i] == p;
      }
      if p in ps {
        var i :| 0 <= i < |ps| && ps[i] == p;
        assert p == Pair(d, ReadingsOf(readings, d.id)[i]);
      }
    }
  }

  lemma ReadIsPair(t: Tick, k: string, d: Definition, x: Reading)
    ensures Reads(t, k, d, x) <==> Pair(d, x) in Pairs(t.defs, t.readings) && Key(Pair(d, x)) == k
  {
    PairsExactly(t.defs, t.readings, Pair(d, x));
  }

  /** A key has one reading at a tick. */
  lemma ReadByPair(t: Tick, k: string, d: Definition, x: Reading)
    requires WellFormed(t.defs, t.readings) && Reads(t, k, d, x)
    ensures Read(t, k) && PairFor(t, k) == Pair(d, x)
  {
    ReadIsPair(t, k, d, x);
    PairsDistinct(t.defs, t.readings);
    var ps := Pairs(t.defs, t.readings);
    var i :| 0 <= i < |ps| && ps[i] == PairFor(t, k);
    var j :| 0 <= j < |ps| && ps[j] == Pair(d, x);
  }

  ghost predicate Crossed(t: Tick, k: string) {
    exists d, x :: Reads(t, k, d, x) && Crosses(d, x)
  }

  lemma CrossedExactly(t: Tick, k: string)
    requires WellFormed(t.defs, t.readings)
    ensures Breaching(t, k) <==> Crossed(t, k)
  {
    if Breaching(t, k) {
      var p := PairFor(t, k);
      ReadIsPair(t, k, p.d, p.r);
      BreachesExactly(p.d, p.r);
      assert Reads(t, k, p.d, p.r);
    }
    if d, x :| Reads(t, k, d, x) && Crosses(d, x) {
      ReadByPair(t, k, d, x);
      BreachesExactly(d, x);
    }
  }

  // ----- when an alarm is active -----

  /** Every tick from m to n crossed. */
  ghost predicate CrossedThrough(ts: seq<Tick>, k: string, m: nat, n: nat) {
    m <= n < |ts| && forall i :: m <= i <= n ==> Crossed(ts[i], k)
  }

  ghost predicate NoRestartIn(ts: seq<Tick>, m: nat, j: nat) {
    j <= |ts| && forall i :: m <= i < j ==> !ts[i].restart
  }

  /** At tick j the readings since tick m have crossed for as long as the definition asks. */
  ghost predicate LongEnough(ts: seq<Tick>, k: string, m: nat, j: nat)
    requires m <= j < |ts|
  {
    exists d, x :: Reads(ts[j], k, d, x) && ts[j].now - ts[m].now >= d.durationSec * SECOND
  }

  /** The readings have crossed from tick m to n, and at tick j, with no restart since m,
      had done so for long enough. */
  ghost predicate Persists(ts: seq<Tick>, k: string, m: nat, j: nat, n: nat) {
    m <= j <= n && CrossedThrough(ts, k, m, n) && NoRestartIn(ts, m, j) && LongEnough(ts, k, m, j)
  }

  lemma LongEnoughExactly(ts: seq<Tick>, k: string, m: nat, j: nat)
    requires WellFormedRun(ts) && m <= j < |ts| && Crossed(ts[j], k)
    ensures LongEnough(ts, k, m, j) <==>
      View(ts, k)[j].now - View(ts, k)[m].now >= View(ts, k)[j].duration
  {
    assert SoundAt(ts, j);
    var d, x :| Reads(ts[j], k, d, x) && Crosses(d, x);
    ReadByPair(ts[j], k, d, x);
    forall e, y | Reads(ts[j], k, e, y)
      ensures e == d
    {
      ReadByPair(ts[j], k, e, y);
    }
  }

  lemma BlockIsCrossed(ts: seq<Tick>, k: string, m: nat, n: nat)
    requires WellFormedRun(ts) && n < |ts|
    ensures Block(View(ts, k), m, n) <==> CrossedThrough(ts, k, m, n)
  {
    forall i | 0 <= i < |ts|
      ensures View(ts, k)[i].breaching <==> Crossed(ts[i], k)
    {
      assert SoundAt(ts, i);
      CrossedExactly(ts[i], k);
    }
  }

  lemma SustainedIsPersistent(ts: seq<Tick>, k: string, m: nat, j: nat, n: nat)
    requires WellFormedRun(ts) && n < |ts|
    ensures Sustained(View(ts, k), m, j, n) <==> Persists(ts, k, m, j, n)
  {
    BlockIsCrossed(ts, k, m, n);
    if m <= j <= n {
      BlockIsCrossed(ts, k, m, j);
      if CrossedThrough(ts, k, m, n) {
        LongEnoughExactly(ts, k, m, j);
      }
    }
  }

  /** In terms of the readings alone: an alarm is active after a tick exactly when an enabled
      definition's readings of that object have crossed its threshold from some tick m on, and
      at some tick j, with no restart in between, had done so for the definition's duration. */
  lemma ActiveByReadings(r: Run, n: nat, k: string)
    requires r.Valid() && WellFormedRun(r.ticks) && RunsForward(r.ticks) && n < |r.ticks|
    ensures ActiveAt(r, n + 1, k) <==> exists m: nat, j: nat :: Persists(r.ticks, k, m, j, n)
  {
    ActiveExactly(r, n, k);
    var bs := View(r.ticks, k);
    if m: nat, j: nat :| Sustained(bs, m, j, n) {
      SustainedIsPersistent(r.ticks, k, m, j, n);
    }
    if m: nat, j: nat :| Persists(r.ticks, k, m, j, n) {
      SustainedIsPersistent(r.ticks, k, m, j, n);
    }
  }

  /** So what is raised or active has just been read out of bounds. */
  lemma RaisedOutOfBounds(r: Run, n: nat, k: string, d: Definition, x: Reading)
    requires r.Valid() && WellFormedRun(r.ticks) && n < |r.ticks| && Reads(r.ticks[n], k, d, x)
    requires RaisedAt(r, n, k) || ActiveAt(r, n + 1, k)
    ensures x.hasData
    ensures d.metric == LifecycleState ==> SameText(x.stateRaw, d.stateValue)
    ensures d.metric != LifecycleState ==>
      (d.comparator == GT ==> x.value > d.threshold) && (d.comparator == LT ==> x.value < d.threshold) &&
      (d.comparator == EQ ==> x.value == d.threshold) && d.comparator != Unknown
  {
    assert SoundAt(r.ticks, n);
    ActiveSetLaw(r, n, k);
    ReadByPair(r.ticks[n], k, d, x);
    BreachesExactly(d, x);
  }

  /** A reading further out of bounds. */
  predicate Further(d: Definition, x: Reading, y: Reading) {
    y.hasData && d.metric != LifecycleState &&
    ((d.comparator == GT && y.value >= x.value) || (d.comparator == LT && y.value <= x.value))
  }

  /** Raising the value never ends or prevents a GT alarm, lowering it never an LT alarm. */
  lemma FurtherStaysActive(t: Tick, u: Tick, prior: map<string, Instance>, k: string, d: Definition, x: Reading, y: Reading)
    requires WellFormed(t.defs, t.readings) && WellFormed(u.defs, u.readings) && t.now == u.now
    requires Reads(t, k, d, x) && Reads(u, k, d, y) && Further(d, x, y)
    ensures LifeOf(OutcomeOf(t, prior).next, k).Up? ==> LifeOf(OutcomeOf(u, prior).next, k).Up?
    ensures Names(OutcomeOf(u, prior).cleared, k) ==> Names(OutcomeOf(t, prior).cleared, k)
  {
    KeyStep(t, prior, k);
    KeyStep(u, prior, k);
    ReadByPair(t, k, d, x);
    ReadByPair(u, k, d, y);
  }

  // ----- what an alarm says -----

  /** The instance is about this definition and this object, as it was read. */
  predicate Describes(i: Instance, d: Definition, x: Reading) {
    i.definitionId == d.id && i.definitionName == d.name && i.severity == d.severity && i.metric == d.metric &&
    i.objectId == x.objectId && i.objectName == x.objectName && i.objectType == x.objectType &&
    i.value == x.value && i.stateRaw == x.stateRaw && i.id == d.id + ":" + x.objectId
  }

  predicate RaiseOf(p: Pair, e: Instance, now: Time) {
    Describes(e, p.d, p.r) && Crosses(p.d, p.r) && e.state == Active && e.raisedAt == now == e.lastNotifiedAt
  }

  predicate ClearOf(p: Pair, prior: map<string, Instance>, e: Instance, now: Time) {
    Describes(e, p.d, p.r) && !Crosses(p.d, p.r) && e.state == Cleared && e.clearedAt == now == e.lastNotifiedAt &&
    e.id in prior && prior[e.id].state == Active && e.raisedAt == prior[e.id].raisedAt
  }

  /** What one reading raises or clears describes it. */
  lemma VerdictDescribes(p: Pair, prior: map<string, Instance>, now: Time)
    ensures
      var v := Judge(p, PriorOf(prior, Key(p)), now);
      (v.raised.Some? ==> RaiseOf(p, v.raised.value, now)) && (v.cleared.Some? ==> ClearOf(p, prior, v.cleared.value, now))
  {
    BreachesExactly(p.d, p.r);
  }

  lemma InListed(s: seq<Instance>, o: Option<Instance>, e: Instance)
    ensures e in s + Listed(o) <==> e in s || o == Some(e)
  {}

  /** Every raise of a pass describes the reading it comes from and carries the pass's time. */
  lemma {:induction false} RaisesDescribe(ps: seq<Pair>, prior: map<string, Instance>, now: Time, e: Instance)
    requires e in Pass(ps, prior, now).raised
    ensures exists p :: p in ps && RaiseOf(p, e, now)
  {
    var rest, last := ps[..|ps| - 1], ps[|ps| - 1];
    var v := Judge(last, PriorOf(prior, Key(last)), now);
    InListed(Pass(rest, prior, now).raised, v.raised, e);
    if v.raised == Some(e) {
      VerdictDescribes(last, prior, now);
      assert last in ps && RaiseOf(last, e, now);
    } else {
      RaisesDescribe(rest, prior, now, e);
      var p :| p in rest && RaiseOf(p, e, now);
      assert p in ps;
    }
  }

  /** Every clear describes the healthy reading it comes from, and carries the pass's time
      and the time of its raise. */
  lemma {:induction false} ClearsDescribe(ps: seq<Pair>, prior: map<string, Instance>, now: Time, e: Instance)
    requires e in Pass(ps, prior, now).cleared
    ensures exists p :: p in ps && ClearOf(p, prior, e, now)
  {
    var rest, last := ps[..|ps| - 1], ps[|ps| - 1];
    var v := Judge(last, PriorOf(prior, Key(last)), now);
    InListed(Pass(rest, prior, now).cleared, v.cleared, e);
    if v.cleared == Some(e) {
      VerdictDescribes(last, prior, now);
      assert last in ps && ClearOf(last, prior, e, now);
    } else {
      ClearsDescribe(rest, prior, now, e);
      var p :| p in rest && ClearOf(p, prior, e, now);
      assert p in ps;
    }
  }

  lemma KeptDescribes(t: Tick, prior: map<string, Instance>, k: string, d: Definition, x: Reading)
    requires WellFormed(t.defs, t.readings) && Reads(t, k, d, x) && k in OutcomeOf(t, prior).next
    ensures Describes(OutcomeOf(t, prior).next[k], d, x)
  {
    ReadByPair(t, k, d, x);
    KeyRead(t, prior, k);
    JudgedDescribes(Pair(d, x), PriorOf(prior, k), t.now);
  }

  lemma JudgedDescribes(p: Pair, prior: Option<Instance>, now: Time)
    ensures Judge(p, prior, now).kept.Some? ==> Describes(Judge(p, prior, now).kept.value, p.d, p.r)
  {}

  /** What is on record after a tick describes the last reading, restart or not. */
  lemma RecordDescribes(r: Run, n: nat, k: string, d: Definition, x: Reading)
    requires r.Valid() && WellFormedRun(r.ticks) && n < |r.ticks|
    requires Reads(r.ticks[n], k, d, x) && k in r.states[n + 1]
    ensures Describes(r.states[n + 1][k], d, x)
  {
    assert r.Steps(n) && SoundAt(r.ticks, n);
    KeptDescribes(r.ticks[n], r.states[n], k, d, x);
  }

  // ----- since when -----

  /** Tick m raised the alarm, and its object has crossed ever since. */
  ghost predicate RaisedAndHeld(r: Run, m: nat, n: nat, k: string)
    requires r.Valid()
  {
    m <= n < |r.ticks| && RaisedAt(r, m, k) && forall i :: m < i <= n ==> Breaching(r.ticks[i], k)
  }

  /** The raise time as kept: to the second once a restart has come in between. */
  function KeptTime(ts: seq<Tick>, m: nat, n: nat): Time
    requires m <= n < |ts|
  {
    if RestartedIn(ts, m, n) then ts[m].now - ts[m].now % SECOND else ts[m].now
  }

  predicate RestartedIn(ts: seq<Tick>, m: nat, n: nat)
    requires n < |ts|
  {
    exists i :: m <= i <= n && ts[i].restart
  }

  /** The instance shows these times: of its raise, and of its notification, which a restart
      forgets; it has none of a clear. */
  predicate Dated(i: Instance, ts: seq<Tick>, m: nat, n: nat)
    requires m <= n < |ts|
  {
    i.raisedAt == KeptTime(ts, m, n) && i.lastNotifiedAt == (if RestartedIn(ts, m, n) then ZERO_TIME else ts[m].now) &&
    i.clearedAt == ZERO_TIME
  }

  lemma RaiseTime(r: Run, n: nat, k: string)
    requires r.Valid() && WellFormedRun(r.ticks) && n < |r.ticks| && RaisedAt(r, n, k)
    ensures ActiveAt(r, n + 1, k) && Dated(r.states[n + 1][k], r.ticks, n, n)
  {
    assert r.Steps(n) && SoundAt(r.ticks, n);
    ActiveSetLaw(r, n, k);
    KeyRead(r.ticks[n], r.states[n], k);
  }

  lemma HeldTime(r: Run, n: nat, k: string)
    requires r.Valid() && WellFormedRun(r.ticks) && n < |r.ticks| && ActiveAt(r, n, k) && Breaching(r.ticks[n], k)
    ensures ActiveAt(r, n + 1, k) && !RaisedAt(r, n, k)
    ensures
      var before, after := r.states[n][k], r.states[n + 1][k];
      after.raisedAt == (if r.ticks[n].restart then before.raisedAt - before.raisedAt % SECOND else before.raisedAt) &&
      after.lastNotifiedAt == (if r.ticks[n].restart then ZERO_TIME else before.lastNotifiedAt) &&
      after.clearedAt == ZERO_TIME
  {
    assert r.Steps(n) && SoundAt(r.ticks, n);
    ActiveSetLaw(r, n, k);
    KeyRead(r.ticks[n], r.states[n], k);
  }

  lemma KeptTimeOn(ts: seq<Tick>, m: nat, n: nat)
    requires m < n < |ts|
    ensures RestartedIn(ts, m, n) <==> RestartedIn(ts, m, n - 1) || ts[n].restart
    ensures
      var before := KeptTime(ts, m, n - 1);
      KeptTime(ts, m, n) == if ts[n].restart then before - before % SECOND else before
  {
    if ts[n].restart {
      assert (ts[m].now - ts[m].now % SECOND) % SECOND == 0;
    } else if RestartedIn(ts, m, n) {
      var i :| m <= i <= n && ts[i].restart;
      assert m <= i <= n - 1;
    }
  }

  /** An active alarm shows the time of the tick that raised it, however often the engine has
      restarted since, but for the fraction of a second that a restart drops; that is also
      when it was last notified, as far as it is remembered. */
  lemma {:induction false} ActiveSince(r: Run, n: nat, k: string) returns (m: nat)
    requires r.Valid() && WellFormedRun(r.ticks) && n < |r.ticks| && ActiveAt(r, n + 1, k)
    ensures RaisedAndHeld(r, m, n, k) && Dated(r.states[n + 1][k], r.ticks, m, n)
  {
    ActiveSetLaw(r, n, k);
    if RaisedAt(r, n, k) {
      m := n;
      RaiseTime(r, n, k);
    } else {
      m := ActiveSince(r, n - 1, k);
      HeldTime(r, n, k);
      KeptTimeOn(r.ticks, m, n);
    }
  }
}
