/** Whole histories of the alarm engine, with restarts after any of the ticks. */
module AlarmRuns {
  import opened Wrappers
  import opened Strings
  import opened Alarms
  import opened AlarmEngine
  import opened AlarmLife

  /** One tick's inputs, and whether the process restarts right after it. */
  datatype Tick = Tick(
    defs: seq<Definition>,
    readings: map<string, seq<Reading>>,
    now: Time,
    restart: bool)

  function OutcomeOf(t: Tick, prior: map<string, Instance>): Outcome {
    Pass(Pairs(t.defs, t.readings), prior, t.now)
  }

  /** The instances after a tick and the restart that may follow it. */
  function AfterTick(t: Tick, prior: map<string, Instance>): map<string, Instance> {
    var next := OutcomeOf(t, prior).next;
    if t.restart then Restarted(next) else next
  }

  /** A run of the engine: its ticks, and its instances before and after each of them. */
  datatype Run = Run(ticks: seq<Tick>, states: seq<map<string, Instance>>)
  {
    ghost predicate Valid() {
      && |states| == |ticks| + 1
      && states[0] == map[]
      && forall i :: 0 <= i < |ticks| ==> Steps(i)
    }

    ghost predicate Steps(i: int)
      requires 0 <= i < |ticks| < |states|
    {
      states[i + 1] == AfterTick(ticks[i], states[i])
    }
  }

  /** Every sequence of ticks has a run. */
  lemma {:induction false} RunExists(ticks: seq<Tick>) returns (r: Run)
    ensures r.Valid() && r.ticks == ticks
  {
    if |ticks| == 0 {
      r := Run([], [map[]]);
    } else {
      var rest, last := ticks[..|ticks| - 1], ticks[|ticks| - 1];
      var q := RunExists(rest);
      r := Run(ticks, q.states + [AfterTick(last, q.states[|rest|])]);
      forall i | 0 <= i < |ticks|
        ensures r.Steps(i)
      {
        assert i < |rest| ==> q.Steps(i);
      }
    }
  }

  /** Tick n raises key k, or clears it. */
  ghost predicate RaisedAt(r: Run, n: nat, k: string)
    requires r.Valid() && n < |r.ticks|
  {
    Names(OutcomeOf(r.ticks[n], r.states[n]).raised, k)
  }

  ghost predicate ClearedAt(r: Run, n: nat, k: string)
    requires r.Valid() && n < |r.ticks|
  {
    Names(OutcomeOf(r.ticks[n], r.states[n]).cleared, k)
  }

  /** Key k is active before tick n. */
  ghost predicate ActiveAt(r: Run, n: nat, k: string)
    requires r.Valid() && n <= |r.ticks|
  {
    k in r.states[n] && r.states[n][k].state == Active
  }

  /** Some enabled definition has a reading for key k at this tick. */
  ghost predicate Read(t: Tick, k: string) {
    exists p :: p in Pairs(t.defs, t.readings) && Key(p) == k
  }

  ghost function PairFor(t: Tick, k: string): (p: Pair)
    requires Read(t, k)
    ensures p in Pairs(t.defs, t.readings) && Key(p) == k
  {
    var p :| p in Pairs(t.defs, t.readings) && Key(p) == k;
    p
  }

  ghost predicate Breaching(t: Tick, k: string) {
    Read(t, k) && Breaches(PairFor(t, k).d, PairFor(t, k).r)
  }

  ghost function Duration(t: Tick, k: string): int
    requires Read(t, k)
  {
    PairFor(t, k).d.durationSec * SECOND
  }

  ghost predicate WellFormedRun(ts: seq<Tick>) {
    forall i :: 0 <= i < |ts| ==> SoundAt(ts, i)
  }

  ghost predicate SoundAt(ts: seq<Tick>, i: int)
    requires 0 <= i < |ts|
  {
    WellFormed(ts[i].defs, ts[i].readings) && ts[i].now != ZERO_TIME
  }

  ghost predicate RunsForward(ts: seq<Tick>) {
    forall i, j :: 0 <= i <= j < |ts| ==> ts[i].now <= ts[j].now
  }

  // ----- one key of a run is the life of one alarm -----

  ghost function BeatOf(t: Tick, k: string): Beat {
    Beat(Read(t, k), Breaching(t, k), if Read(t, k) then Duration(t, k) else 0, t.now, t.restart)
  }

  /** The history of one key. */
  ghost function View(ts: seq<Tick>, k: string): (bs: seq<Beat>)
    ensures |bs| == |ts| && forall i :: 0 <= i < |ts| ==> bs[i] == BeatOf(ts[i], k)
  {
    seq(|ts|, i requires 0 <= i < |ts| => BeatOf(ts[i], k))
  }

  function LifeOf(m: map<string, Instance>, k: string): Life {
    if k !in m then Absent
    else if m[k].state == Active then Up(m[k].breachSince) else Pending(m[k].breachSince)
  }

  lemma KeyUnread(t: Tick, prior: map<string, Instance>, k: string)
    requires !Read(t, k)
    ensures var o := OutcomeOf(t, prior);
      k !in o.next && !Names(o.raised, k) && !Names(o.cleared, k)
  {
    var ps := Pairs(t.defs, t.readings);
    forall i | 0 <= i < |ps| ensures Key(ps[i]) != k {
      assert ps[i] in ps;
    }
    PassAbsent(ps, prior, t.now, k);
  }

  lemma KeyRead(t: Tick, prior: map<string, Instance>, k: string)
    requires WellFormed(t.defs, t.readings) && Read(t, k)
    ensures var o, v := OutcomeOf(t, prior), Judge(PairFor(t, k), PriorOf(prior, k), t.now);
      && (k in o.next <==> v.kept.Some?) && (k in o.next ==> o.next[k] == v.kept.value)
      && (Names(o.raised, k) <==> v.raised.Some?) && (Names(o.cleared, k) <==> v.cleared.Some?)
  {
    var ps := Pairs(t.defs, t.readings);
    PairsDistinct(t.defs, t.readings);
    var i :| 0 <= i < |ps| && ps[i] == PairFor(t, k);
    PassAt(ps, prior, t.now, i);
  }

  /** One pass, seen from one key: its new state, and exactly when it is raised or cleared. */
  lemma KeyStep(t: Tick, prior: map<string, Instance>, k: string)
    requires WellFormed(t.defs, t.readings)
    ensures var o, s, b := OutcomeOf(t, prior), LifeOf(prior, k), BeatOf(t, k);
      && LifeOf(o.next, k) == Next(b, s)
      && (Names(o.raised, k) <==> !s.Up? && Next(b, s).Up?)
      && (Names(o.cleared, k) <==> s.Up? && b.read && !b.breaching)
  {
    if Read(t, k) {
      KeyRead(t, prior, k);
    } else {
      KeyUnread(t, prior, k);
    }
  }

  lemma RestartStep(m: map<string, Instance>, k: string)
    ensures LifeOf(Restarted(m), k) == AfterRestart(LifeOf(m, k), true)
  {}

  /** One key's state over a run. */
  function LivesOf(states: seq<map<string, Instance>>, k: string): (ls: seq<Life>)
    ensures |ls| == |states| && forall i :: 0 <= i < |states| ==> ls[i] == LifeOf(states[i], k)
  {
    seq(|states|, i requires 0 <= i < |states| => LifeOf(states[i], k))
  }

  lemma StateStep(r: Run, n: nat, k: string)
    requires r.Valid() && WellFormedRun(r.ticks) && n < |r.ticks|
    ensures Carries(View(r.ticks, k), LivesOf(r.states, k), n)
  {
    assert r.Steps(n) && SoundAt(r.ticks, n);
    KeyStep(r.ticks[n], r.states[n], k);
    RestartStep(OutcomeOf(r.ticks[n], r.states[n]).next, k);
  }

  lemma StateLives(r: Run, n: nat, k: string)
    requires r.Valid() && WellFormedRun(r.ticks) && n <= |r.ticks|
    ensures LifeOf(r.states[n], k) == At(View(r.ticks, k), n)
  {
    forall i: nat | i < n
      ensures Carries(View(r.ticks, k), LivesOf(r.states, k), i)
    {
      StateStep(r, i, k);
    }
    CarriedAlong(View(r.ticks, k), LivesOf(r.states, k), n);
  }

  lemma ActiveLives(r: Run, n: nat, k: string)
    requires r.Valid() && WellFormedRun(r.ticks) && n <= |r.ticks|
    ensures ActiveAt(r, n, k) <==> At(View(r.ticks, k), n).Up?
  {
    StateLives(r, n, k);
  }

  /** The engine's state and events for a key are those of the key's own history. */
  lemma EngineLives(r: Run, n: nat, k: string)
    requires r.Valid() && WellFormedRun(r.ticks) && n <= |r.ticks|
    ensures ActiveAt(r, n, k) <==> At(View(r.ticks, k), n).Up?
    ensures n < |r.ticks| ==> (RaisedAt(r, n, k) <==> Raises(View(r.ticks, k), n))
    ensures n < |r.ticks| ==> (ClearedAt(r, n, k) <==> Clears(View(r.ticks, k), n))
  {
    StateLives(r, n, k);
    if n < |r.ticks| {
      assert SoundAt(r.ticks, n);
      KeyStep(r.ticks[n], r.states[n], k);
    }
  }

  /** What a key's own history says about one step of the engine. */
  lemma StepSeen(r: Run, n: nat, k: string)
    requires r.Valid() && WellFormedRun(r.ticks) && n < |r.ticks|
    ensures ActiveAt(r, n, k) <==> At(View(r.ticks, k), n).Up?
    ensures ActiveAt(r, n + 1, k) <==> At(View(r.ticks, k), n + 1).Up?
    ensures RaisedAt(r, n, k) <==> Raises(View(r.ticks, k), n)
    ensures ClearedAt(r, n, k) <==> Clears(View(r.ticks, k), n)
  {
    EngineLives(r, n, k);
    ActiveLives(r, n + 1, k);
  }

  lemma ViewSane(ts: seq<Tick>, k: string)
    requires WellFormedRun(ts)
    ensures Sane(View(ts, k))
    ensures RunsForward(ts) ==> ClockRuns(View(ts, k))
  {
    forall i | 0 <= i < |ts| ensures View(ts, k)[i].now != 0 {
      assert SoundAt(ts, i);
    }
  }

  // ----- what holds over every run -----

  /** At every tick the active set becomes the alarms that were active and still
      breach, plus the raised ones; exactly the active ones read as healthy clear. */
  lemma ActiveSetLaw(r: Run, n: nat, k: string)
    requires r.Valid() && WellFormedRun(r.ticks) && n < |r.ticks|
    ensures ActiveAt(r, n + 1, k) <==> (ActiveAt(r, n, k) && Breaching(r.ticks[n], k)) || RaisedAt(r, n, k)
    ensures ClearedAt(r, n, k) <==> ActiveAt(r, n, k) && Read(r.ticks[n], k) && !Breaching(r.ticks[n], k)
    ensures RaisedAt(r, n, k) ==> !ActiveAt(r, n, k) && Breaching(r.ticks[n], k)
  {
    StepSeen(r, n, k);
    SetLaw(View(r.ticks, k), n, ActiveAt(r, n, k), ActiveAt(r, n + 1, k), RaisedAt(r, n, k), ClearedAt(r, n, k));
    assert View(r.ticks, k)[n] == BeatOf(r.ticks[n], k);
  }

  lemma SetLaw(bs: seq<Beat>, n: nat, before: bool, after: bool, raised: bool, cleared: bool)
    requires n < |bs| && before == At(bs, n).Up? && after == At(bs, n + 1).Up?
    requires raised == Raises(bs, n) && cleared == Clears(bs, n)
    ensures after <==> (before && bs[n].breaching) || raised
    ensures cleared <==> before && bs[n].read && !bs[n].breaching
    ensures raised ==> !before && bs[n].breaching
  {
    ActiveLaw(bs, n);
  }

  /** A raise is always backed by an unbroken block of breaching ticks, without a
      restart inside it, that lasted at least the definition's duration. */
  lemma RaiseNeedsBlock(r: Run, n: nat, k: string)
    requires r.Valid() && WellFormedRun(r.ticks) && n < |r.ticks| && RaisedAt(r, n, k)
    ensures exists m: nat :: Backed(View(r.ticks, k), m, n)
  {
    EngineLives(r, n, k);
    ViewSane(r.ticks, k);
    RaiseIsBacked(View(r.ticks, k), n);
  }

  /** Exactly when an alarm is active: the object has breached without a break since
      tick m, and at some tick j since then, with no restart before it, the breach
      had lasted for the duration in force. */
  lemma ActiveExactly(r: Run, n: nat, k: string)
    requires r.Valid() && WellFormedRun(r.ticks) && RunsForward(r.ticks) && n < |r.ticks|
    ensures ActiveAt(r, n + 1, k) <==> Due(View(r.ticks, k), n)
  {
    ActiveLives(r, n + 1, k);
    ViewSane(r.ticks, k);
    UpExactly(View(r.ticks, k), n);
  }

  /** A clear only ever follows a raise, with no other clear in between. */
  lemma ClearNeedsRaise(r: Run, n: nat, k: string)
    requires r.Valid() && WellFormedRun(r.ticks) && n < |r.ticks| && ClearedAt(r, n, k)
    ensures exists m: nat :: m < n && RaisedAt(r, m, k) && forall i :: m <= i < n ==> !ClearedAt(r, i, k)
  {
    var bs := View(r.ticks, k);
    EngineLives(r, n, k);
    ClearFollowsRaise(bs, n);
    var m: nat :| m < n && Raises(bs, m) && forall i :: m <= i < n ==> !Clears(bs, i);
    forall i | m <= i < n ensures !ClearedAt(r, i, k) {
      EngineLives(r, i, k);
    }
    EngineLives(r, m, k);
  }

  /** Two raises are always separated by a clear or by a tick without a reading. */
  lemma RaisesNeedGap(r: Run, m: nat, n: nat, k: string)
    requires r.Valid() && WellFormedRun(r.ticks) && m < n < |r.ticks| && RaisedAt(r, m, k) && RaisedAt(r, n, k)
    ensures exists j :: m < j < n && (ClearedAt(r, j, k) || !Read(r.ticks[j], k))
  {
    var bs := View(r.ticks, k);
    EngineLives(r, m, k);
    EngineLives(r, n, k);
    ViewSane(r.ticks, k);
    RaisesAreSeparated(bs, m, n);
    var j :| m < j < n && (Clears(bs, j) || !bs[j].read);
    EngineLives(r, j, k);
  }

  // ----- restarts only delay -----

  /** The same ticks without any restart. */
  function Uninterrupted(ts: seq<Tick>): (us: seq<Tick>)
    ensures |us| == |ts|
    ensures forall i :: 0 <= i < |ts| ==> us[i] == ts[i].(restart := false)
  {
    seq(|ts|, i requires 0 <= i < |ts| => ts[i].(restart := false))
  }

  /** A tick with and without the restart means the same for a key. */
  lemma SameBeat(t: Tick, k: string)
    requires WellFormed(t.defs, t.readings)
    ensures BeatOf(t.(restart := false), k) == BeatOf(t, k).(restart := false)
  {
    var u, ps := t.(restart := false), Pairs(t.defs, t.readings);
    if Read(t, k) {
      assert PairFor(t, k) in Pairs(u.defs, u.readings);
      PairsDistinct(t.defs, t.readings);
      var i :| 0 <= i < |ps| && ps[i] == PairFor(t, k);
      var j :| 0 <= j < |ps| && ps[j] == PairFor(u, k);
    }
  }

  lemma UninterruptedView(ts: seq<Tick>, k: string)
    requires WellFormedRun(ts)
    ensures WellFormedRun(Uninterrupted(ts)) && Unbroken(View(ts, k), View(Uninterrupted(ts), k))
  {
    forall i | 0 <= i < |ts| ensures View(Uninterrupted(ts), k)[i] == View(ts, k)[i].(restart := false) {
      assert SoundAt(ts, i);
      SameBeat(ts[i], k);
    }
    forall i | 0 <= i < |ts| ensures SoundAt(Uninterrupted(ts), i) {
      assert SoundAt(ts, i);
    }
  }

  /** r and u have the same definitions, readings and clock; u never restarts. */
  ghost predicate Twins(r: Run, u: Run) {
    && r.Valid() && u.Valid() && u.ticks == Uninterrupted(r.ticks)
    && WellFormedRun(r.ticks) && RunsForward(r.ticks)
  }

  /** However often the engine restarts, its active alarms are always among those
      of the uninterrupted engine: a restart can delay a raise, never hasten one. */
  lemma RestartsOnlyDelay(r: Run, u: Run, n: nat, k: string)
    requires Twins(r, u) && n <= |r.ticks| && ActiveAt(r, n, k)
    ensures ActiveAt(u, n, k)
  {
    UninterruptedView(r.ticks, k);
    ViewSane(r.ticks, k);
    ActiveLives(r, n, k);
    ActiveLives(u, n, k);
    RunLags(View(r.ticks, k), View(u.ticks, k), n);
  }

  /** An alarm active in the interrupted run stays in step with the other run: as long
      as it breaches it is active in both, and at the first tick where it does not it
      ends in both, clearing in both or in neither. */
  lemma ActiveStaysInStep(r: Run, u: Run, m: nat, n: nat, k: string)
    requires Twins(r, u) && m <= n < |r.ticks| && ActiveAt(r, m, k)
    requires forall i :: m <= i < n ==> Breaching(r.ticks[i], k)
    ensures ActiveAt(r, n, k) && ActiveAt(u, n, k)
    ensures ActiveAt(r, n + 1, k) <==> Breaching(r.ticks[n], k)
    ensures ActiveAt(u, n + 1, k) <==> Breaching(r.ticks[n], k)
    ensures ClearedAt(r, n, k) <==> ClearedAt(u, n, k)
  {
    LivesInStep(r, u, m, n, k);
    StepSeen(r, n, k);
    StepSeen(u, n, k);
  }

  lemma LivesInStep(r: Run, u: Run, m: nat, n: nat, k: string)
    requires Twins(r, u) && m <= n < |r.ticks| && ActiveAt(r, m, k)
    requires forall i :: m <= i < n ==> Breaching(r.ticks[i], k)
    ensures WellFormedRun(u.ticks)
    ensures var bs, us := View(r.ticks, k), View(u.ticks, k);
      && At(bs, n).Up? && At(us, n).Up?
      && (At(bs, n + 1).Up? <==> Breaching(r.ticks[n], k))
      && (At(us, n + 1).Up? <==> Breaching(r.ticks[n], k))
      && (Clears(bs, n) <==> Clears(us, n))
  {
    UninterruptedView(r.ticks, k);
    ViewSane(r.ticks, k);
    ActiveLives(r, m, k);
    StaysInStep(View(r.ticks, k), View(u.ticks, k), m, n);
  }
}
