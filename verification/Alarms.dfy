/** The alarm state machine: one evaluation pass over readings and prior instances. */
module Alarms {
  import opened Wrappers
  import opened Strings

  /** Nanoseconds since the zero time. */
  type Time = int

  const ZERO_TIME: Time := 0
  const SECOND := 1_000_000_000

  datatype Metric = CPU | Memory | Disk | StoragePct | LifecycleState

  datatype Comparator = GT | LT | EQ | Unknown

  datatype Definition = Definition(
    id: string,
    name: string,
    metric: Metric,
    comparator: Comparator,
    threshold: real,
    stateValue: string,
    durationSec: int,
    severity: string,
    enabled: bool)

  datatype Reading = Reading(
    objectId: string,
    objectName: string,
    objectType: string,
    value: real,
    stateRaw: string,
    hasData: bool)

  datatype InstanceState = Active | Cleared

  datatype Instance = Instance(
    id: string,
    definitionId: string,
    definitionName: string,
    objectId: string,
    objectName: string,
    objectType: string,
    severity: string,
    metric: Metric,
    state: InstanceState,
    value: real,
    stateRaw: string,
    raisedAt: Time,
    clearedAt: Time,
    lastNotifiedAt: Time,
    breachSince: Time)

  /** breaches. */
  predicate Breaches(d: Definition, r: Reading) {
    r.hasData &&
    if d.metric == LifecycleState then EqualFold(r.stateRaw, d.stateValue)
    else
      match d.comparator
      case GT => r.value > d.threshold
      case LT => r.value < d.threshold
      case EQ => r.value == d.threshold
      case Unknown => false
  }

  // ----- one definition and one object -----

  /** A definition applied to one of its readings. */
  datatype Pair = Pair(d: Definition, r: Reading)

  function Key(p: Pair): string {
    p.d.id + ":" + p.r.objectId
  }

  /** The instance before its state is decided: refreshed values, carried-over times. */
  function Refreshed(p: Pair, prior: Option<Instance>): Instance {
    var had := prior.Some?;
    Instance(Key(p), p.d.id, p.d.name, p.r.objectId, p.r.objectName, p.r.objectType, p.d.severity, p.d.metric,
             Cleared, p.r.value, p.r.stateRaw,
             if had then prior.value.raisedAt else ZERO_TIME,
             ZERO_TIME,
             if had then prior.value.lastNotifiedAt else ZERO_TIME,
             if had then prior.value.breachSince else ZERO_TIME)
  }

  /** What one reading does to its instance: what is kept, raised and cleared. */
  datatype Verdict = Verdict(kept: Option<Instance>, raised: Option<Instance>, cleared: Option<Instance>)

  function Judge(p: Pair, prior: Option<Instance>, now: Time): Verdict {
    var inst := Refreshed(p, prior);
    var active := prior.Some? && prior.value.state == Active;
    if Breaches(p.d, p.r) then
      if active then
        Verdict(Some(inst.(state := Active)), None, None)
      else
        var since := if inst.breachSince == ZERO_TIME then now else inst.breachSince;
        if now - since >= p.d.durationSec * SECOND then
          var up := inst.(breachSince := since, state := Active, raisedAt := now, lastNotifiedAt := now);
          Verdict(Some(up), Some(up), None)
        else
          Verdict(Some(inst.(breachSince := since)), None, None)
    else if active then
      Verdict(None, None, Some(inst.(clearedAt := now, lastNotifiedAt := now, breachSince := ZERO_TIME)))
    else
      Verdict(None, None, None)
  }

  // ----- a whole pass -----

  datatype Outcome = Outcome(next: map<string, Instance>, raised: seq<Instance>, cleared: seq<Instance>)

  function Listed(i: Option<Instance>): seq<Instance> {
    if i.Some? then [i.value] else []
  }

  function Absorb(o: Outcome, key: string, v: Verdict): Outcome {
    Outcome(
      if v.kept.Some? then o.next[key := v.kept.value] else o.next,
      o.raised + Listed(v.raised),
      o.cleared + Listed(v.cleared))
  }

  function PriorOf(prior: map<string, Instance>, key: string): Option<Instance> {
    if key in prior then Some(prior[key]) else None
  }

  /** The pairs of a pass are judged in order, all against the prior instances. */
  function Pass(ps: seq<Pair>, prior: map<string, Instance>, now: Time): Outcome {
    if |ps| == 0 then Outcome(map[], [], [])
    else
      var last := ps[|ps| - 1];
      Absorb(Pass(ps[..|ps| - 1], prior, now), Key(last), Judge(last, PriorOf(prior, Key(last)), now))
  }

  function ReadingsOf(readings: map<string, seq<Reading>>, id: string): seq<Reading> {
    if id in readings then readings[id] else []
  }

  function PairsOf(d: Definition, rs: seq<Reading>): (ps: seq<Pair>)
    ensures |ps| == |rs| && forall i :: 0 <= i < |rs| ==> ps[i] == Pair(d, rs[i])
  {
    if |rs| == 0 then [] else PairsOf(d, rs[..|rs| - 1]) + [Pair(d, rs[|rs| - 1])]
  }

  /** Every enabled definition with each of its readings, in order. */
  function Pairs(defs: seq<Definition>, readings: map<string, seq<Reading>>): seq<Pair> {
    if |defs| == 0 then []
    else
      var d := defs[|defs| - 1];
      Pairs(defs[..|defs| - 1], readings) + if d.enabled then PairsOf(d, ReadingsOf(readings, d.id)) else []
  }

  lemma PassAppend(ps: seq<Pair>, p: Pair, prior: map<string, Instance>, now: Time)
    ensures Pass(ps + [p], prior, now) == Absorb(Pass(ps, prior, now), Key(p), Judge(p, PriorOf(prior, Key(p)), now))
  {
    assert (ps + [p])[..|ps|] == ps;
  }

  /** One round of Evaluate's inner loop. */
  method JudgeReading(d: Definition, r: Reading, prior: map<string, Instance>, now: Time) returns (v: Verdict)
    ensures v == Judge(Pair(d, r), PriorOf(prior, Key(Pair(d, r))), now)
  {
    var key := d.id + ":" + r.objectId;
    var had := key in prior;
    var breaching := Breaches(d, r);
    var inst := Instance(key, d.id, d.name, r.objectId, r.objectName, r.objectType, d.severity, d.metric,
                         Cleared, r.value, r.stateRaw, ZERO_TIME, ZERO_TIME, ZERO_TIME, ZERO_TIME);
    if had {
      inst := inst.(raisedAt := prior[key].raisedAt, lastNotifiedAt := prior[key].lastNotifiedAt,
                    breachSince := prior[key].breachSince);
    }
    if breaching && (!had || prior[key].state == Cleared) {
      if inst.breachSince == ZERO_TIME {
        inst := inst.(breachSince := now);
      }
      if now - inst.breachSince >= d.durationSec * SECOND {
        inst := inst.(state := Active, raisedAt := now, lastNotifiedAt := now);
        return Verdict(Some(inst), Some(inst), None);
      }
      return Verdict(Some(inst), None, None);
    } else if breaching && had && prior[key].state == Active {
      inst := inst.(state := Active);
      return Verdict(Some(inst), None, None);
    } else if !breaching && had && prior[key].state == Active {
      inst := inst.(clearedAt := now, lastNotifiedAt := now, breachSince := ZERO_TIME);
      return Verdict(None, None, Some(inst));
    }
    return Verdict(None, None, None);
  }

  /** Evaluate's inner loop: all readings of one enabled definition. */
  method EvaluateDefinition(d: Definition, rs: seq<Reading>, prior: map<string, Instance>, now: Time,
                            ghost before: seq<Pair>, o0: Outcome)
      returns (o: Outcome)
    requires o0 == Pass(before, prior, now)
    ensures o == Pass(before + PairsOf(d, rs), prior, now)
  {
    o := o0;
    ghost var ps := before;
    for j := 0 to |rs|
      invariant ps == before + PairsOf(d, rs[..j])
      invariant o == Pass(ps, prior, now)
    {
      var v := JudgeReading(d, rs[j], prior, now);
      PassAppend(ps, Pair(d, rs[j]), prior, now);
      assert rs[..j + 1][..j] == rs[..j];
      ps := ps + [Pair(d, rs[j])];
      var key := d.id + ":" + rs[j].objectId;
      o := Outcome(
        if v.kept.Some? then o.next[key := v.kept.value] else o.next,
        o.raised + Listed(v.raised),
        o.cleared + Listed(v.cleared));
    }
    assert rs[..|rs|] == rs;
  }

  /** Evaluate. */
  method Evaluate(defs: seq<Definition>, readings: map<string, seq<Reading>>, prior: map<string, Instance>, now: Time)
      returns (o: Outcome)
    ensures o == Pass(Pairs(defs, readings), prior, now)
  {
    o := Outcome(map[], [], []);
    for i := 0 to |defs|
      invariant o == Pass(Pairs(defs[..i], readings), prior, now)
    {
      assert defs[..i + 1][..i] == defs[..i];
      if !defs[i].enabled {
        assert Pairs(defs[..i + 1], readings) == Pairs(defs[..i], readings);
        continue;
      }
      var rs := if defs[i].id in readings then readings[defs[i].id] else [];
      o := EvaluateDefinition(defs[i], rs, prior, now, Pairs(defs[..i], readings), o);
    }
    assert defs[..|defs|] == defs;
  }

  // ----- what a pass does to one key -----

  ghost predicate KeysDistinct(ps: seq<Pair>) {
    forall i, j :: 0 <= i < j < |ps| ==> Key(ps[i]) != Key(ps[j])
  }

  predicate Names(insts: seq<Instance>, key: string) {
    exists i :: 0 <= i < |insts| && insts[i].id == key
  }

  lemma NamesAppend(a: seq<Instance>, o: Option<Instance>, key: string)
    ensures Names(a + Listed(o), key) <==> Names(a, key) || (o.Some? && o.value.id == key)
  {
    var s := a + Listed(o);
    if i :| 0 <= i < |a| && a[i].id == key {
      assert s[i].id == key;
    }
    if o.Some? {
      assert s[|a|] == o.value;
    }
  }

  /** Everything a reading produces carries its key. */
  lemma JudgeIds(p: Pair, prior: Option<Instance>, now: Time)
    ensures var v := Judge(p, prior, now);
      && (v.kept.Some? ==> v.kept.value.id == Key(p))
      && (v.raised.Some? ==> v.raised.value.id == Key(p))
      && (v.cleared.Some? ==> v.cleared.value.id == Key(p))
  {}

  lemma AbsorbAt(o: Outcome, p: Pair, v: Verdict, key: string)
    requires v.raised.Some? ==> v.raised.value.id == Key(p)
    requires v.cleared.Some? ==> v.cleared.value.id == Key(p)
    ensures var o', hit := Absorb(o, Key(p), v), key == Key(p);
      && (PriorOf(o'.next, key) == if hit && v.kept.Some? then v.kept else PriorOf(o.next, key))
      && (Names(o'.raised, key) <==> Names(o.raised, key) || (hit && v.raised.Some?))
      && (Names(o'.cleared, key) <==> Names(o.cleared, key) || (hit && v.cleared.Some?))
  {
    NamesAppend(o.raised, v.raised, key);
    NamesAppend(o.cleared, v.cleared, key);
  }

  /** Keys without a reading vanish without an event. */
  lemma {:induction false} PassAbsent(ps: seq<Pair>, prior: map<string, Instance>, now: Time, key: string)
    requires forall i :: 0 <= i < |ps| ==> Key(ps[i]) != key
    ensures var o := Pass(ps, prior, now);
      PriorOf(o.next, key) == None && !Names(o.raised, key) && !Names(o.cleared, key)
  {
    if |ps| > 0 {
      var rest, last := ps[..|ps| - 1], ps[|ps| - 1];
      var was := PriorOf(prior, Key(last));
      PassAbsent(rest, prior, now, key);
      JudgeIds(last, was, now);
      AbsorbAt(Pass(rest, prior, now), last, Judge(last, was, now), key);
    }
  }

  /** A key with a reading is decided by that reading alone. */
  lemma {:induction false} PassAt(ps: seq<Pair>, prior: map<string, Instance>, now: Time, i: nat)
    requires KeysDistinct(ps) && i < |ps|
    ensures var o, key := Pass(ps, prior, now), Key(ps[i]);
      var v := Judge(ps[i], PriorOf(prior, key), now);
      && PriorOf(o.next, key) == v.kept
      && (Names(o.raised, key) <==> v.raised.Some?)
      && (Names(o.cleared, key) <==> v.cleared.Some?)
  {
    var rest, last := ps[..|ps| - 1], ps[|ps| - 1];
    var was := PriorOf(prior, Key(last));
    JudgeIds(last, was, now);
    AbsorbAt(Pass(rest, prior, now), last, Judge(last, was, now), Key(ps[i]));
    if i < |ps| - 1 {
      PassAt(rest, prior, now, i);
    } else {
      PassAbsent(rest, prior, now, Key(ps[i]));
    }
  }

  // ----- keys tell definitions and objects apart -----

  lemma KeyInjective(a: string, x: string, b: string, y: string)
    requires ':' !in a && ':' !in b && a + ":" + x == b + ":" + y
    ensures a == b && x == y
  {
    SplitAt(a, x, ':');
    SplitAt(b, y, ':');
    assert a == Split(a + ":" + x, ':')[0] == b;
    assert x == (a + ":" + x)[|a| + 1..];
  }

  ghost predicate DistinctIds(defs: seq<Definition>) {
    && (forall i, j :: 0 <= i < j < |defs| ==> defs[i].id != defs[j].id)
    && (forall i :: 0 <= i < |defs| ==> ':' !in defs[i].id)
  }

  ghost predicate DistinctObjects(rs: seq<Reading>) {
    forall i, j :: 0 <= i < j < |rs| ==> rs[i].objectId != rs[j].objectId
  }

  ghost predicate WellFormed(defs: seq<Definition>, readings: map<string, seq<Reading>>) {
    DistinctIds(defs) && forall id :: id in readings ==> DistinctObjects(readings[id])
  }

  lemma {:induction false} PairsFrom(defs: seq<Definition>, readings: map<string, seq<Reading>>)
    ensures forall p :: p in Pairs(defs, readings) ==> p.d in defs
  {
    if |defs| > 0 {
      PairsFrom(defs[..|defs| - 1], readings);
    }
  }

  lemma {:induction false} PairsDistinct(defs: seq<Definition>, readings: map<string, seq<Reading>>)
    requires WellFormed(defs, readings)
    ensures KeysDistinct(Pairs(defs, readings))
  {
    if |defs| > 0 {
      var rest, d := defs[..|defs| - 1], defs[|defs| - 1];
      PairsDistinct(rest, readings);
      PairsFrom(rest, readings);
      var ps, before := Pairs(defs, readings), Pairs(rest, readings);
      forall i, j | 0 <= i < j < |ps| ensures Key(ps[i]) != Key(ps[j]) {
        if j >= |before| {
          assert ps[j].d == d;
          if i < |before| {
            assert ps[i] in before;
          }
          if Key(ps[i]) == Key(ps[j]) {
            KeyInjective(ps[i].d.id, ps[i].r.objectId, d.id, ps[j].r.objectId);
          }
        }
      }
    }
  }
}
