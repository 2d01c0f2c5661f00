/** Restarts of the alarm engine when saving and loading its table may fail: a restart
    then resumes whatever the last successful save left there, or nothing. */
module AlarmSaves {
  import opened Wrappers
  import opened Strings
  import opened Alarms
  import opened AlarmEngine
  import opened AlarmLife
  import opened AlarmRuns

  // ----- one alarm and its row -----

  /** Whether the save after a tick worked, and the load of a restart after it. */
  datatype Keep = Keep(saved: bool, loaded: bool)

  /** An alarm, and whether the table has a row for it. */
  datatype Kept = Kept(life: Life, row: bool)

  function Then(b: Beat, k: Keep, s: Kept): Kept {
    var next := Next(b, s.life);
    var row := if k.saved then next.Up? else s.row;
    Kept(if !b.restart then next else if k.loaded && row then Up(0) else Absent, row)
  }

  function KeptAt(bs: seq<Beat>, ks: seq<Keep>, n: nat): Kept
    requires n <= |bs| == |ks|
  {
    if n == 0 then Kept(Absent, false) else Then(bs[n - 1], ks[n - 1], KeptAt(bs, ks, n - 1))
  }

  /** The restart after beat n brings the alarm up from its row. */
  predicate Revives(bs: seq<Beat>, ks: seq<Keep>, n: nat)
    requires n < |bs| == |ks|
  {
    bs[n].restart && ks[n].loaded && KeptAt(bs, ks, n + 1).row
  }

  lemma {:induction false} KeptPending(bs: seq<Beat>, ks: seq<Keep>, n: nat)
    requires Sane(bs) && ClockRuns(bs) && 0 < n <= |bs| == |ks| && KeptAt(bs, ks, n).life.Pending?
    ensures 0 != KeptAt(bs, ks, n).life.since <= bs[n - 1].now
  {
    if n > 1 && KeptAt(bs, ks, n - 1).life.Pending? {
      KeptPending(bs, ks, n - 1);
    }
  }

  /** One tick keeps the lag. */
  lemma LagsNext(b: Beat, s: Life, u: Life)
    requires Lags(s, u)
    requires s.Pending? ==> 0 != s.since <= b.now
    requires u.Pending? ==> 0 != u.since <= b.now
    ensures Lags(Next(b, s), Next(b.(restart := false), u))
  {}

  lemma LagsStep(bs: seq<Beat>, ks: seq<Keep>, us: seq<Beat>, n: nat)
    requires Sane(bs) && ClockRuns(bs) && Unbroken(bs, us) && n < |bs| == |ks|
    requires Lags(KeptAt(bs, ks, n).life, At(us, n))
    ensures Lags(Next(bs[n], KeptAt(bs, ks, n).life), At(us, n + 1))
  {
    SameClock(bs, us);
    if KeptAt(bs, ks, n).life.Pending? {
      KeptPending(bs, ks, n);
    }
    if At(us, n).Pending? {
      PendingSinceBefore(us, n);
    }
    LagsNext(bs[n], KeptAt(bs, ks, n).life, At(us, n));
  }

  lemma {:induction false} KeptLags(bs: seq<Beat>, ks: seq<Keep>, us: seq<Beat>, n: nat)
    requires Sane(bs) && ClockRuns(bs) && Unbroken(bs, us) && n <= |bs| == |ks|
    requires forall j :: 0 <= j < n && Revives(bs, ks, j) ==> At(us, j + 1).Up?
    ensures Lags(KeptAt(bs, ks, n).life, At(us, n))
  {
    if n > 0 {
      KeptLags(bs, ks, us, n - 1);
      LagsStep(bs, ks, us, n - 1);
      assert Revives(bs, ks, n - 1) ==> At(us, n - 1 + 1).Up?;
    }
  }

  ghost predicate NeverAhead(bs: seq<Beat>, ks: seq<Keep>, us: seq<Beat>)
    requires |us| == |bs| == |ks|
  {
    forall n: nat :: n <= |bs| && KeptAt(bs, ks, n).life.Up? ==> At(us, n).Up?
  }

  ghost predicate RevivalsDue(bs: seq<Beat>, ks: seq<Keep>, us: seq<Beat>)
    requires |us| == |bs| == |ks|
  {
    forall n: nat :: n < |bs| && Revives(bs, ks, n) ==> Due(us, n)
  }

  lemma DueNeverAhead(bs: seq<Beat>, ks: seq<Keep>, us: seq<Beat>)
    requires Sane(bs) && ClockRuns(bs) && Unbroken(bs, us) && |ks| == |bs| && RevivalsDue(bs, ks, us)
    ensures NeverAhead(bs, ks, us)
  {
    SameClock(bs, us);
    forall n: nat | n < |bs| && Revives(bs, ks, n)
      ensures At(us, n + 1).Up?
    {
      UpExactly(us, n);
    }
    forall n: nat | n <= |bs| && KeptAt(bs, ks, n).life.Up?
      ensures At(us, n).Up?
    {
      KeptLags(bs, ks, us, n);
    }
  }

  /** The alarm is up only where it is up in the uninterrupted history exactly when every
      row a restart revives belongs to an object that has breached without a break, and long
      enough, up to that restart. */
  lemma ContainedExactly(bs: seq<Beat>, ks: seq<Keep>, us: seq<Beat>)
    requires Sane(bs) && ClockRuns(bs) && Unbroken(bs, us) && |ks| == |bs|
    ensures NeverAhead(bs, ks, us) <==> RevivalsDue(bs, ks, us)
  {
    SameClock(bs, us);
    if RevivalsDue(bs, ks, us) {
      DueNeverAhead(bs, ks, us);
    }
    if NeverAhead(bs, ks, us) {
      forall n: nat | n < |bs| && Revives(bs, ks, n)
        ensures Due(us, n)
      {
        assert KeptAt(bs, ks, n + 1).life.Up?;
        UpExactly(us, n);
      }
    }
  }

  /** In particular when every restart that loads follows a successful save. */
  lemma {:induction false} FreshSavesContain(bs: seq<Beat>, ks: seq<Keep>, us: seq<Beat>, n: nat)
    requires Sane(bs) && ClockRuns(bs) && Unbroken(bs, us) && n <= |bs| == |ks|
    requires forall j :: 0 <= j < |bs| && bs[j].restart && ks[j].loaded ==> ks[j].saved
    ensures Lags(KeptAt(bs, ks, n).life, At(us, n))
  {
    if n > 0 {
      FreshSavesContain(bs, ks, us, n - 1);
      LagsStep(bs, ks, us, n - 1);
    }
  }

  /** An alarm that is up and saved, heals, is not saved, and is resumed by a restart. */
  lemma StaleBeats(duration: int, now: int, bs: seq<Beat>, ks: seq<Keep>, us: seq<Beat>)
    requires duration <= 0
    requires bs == [Beat(true, true, duration, now, false), Beat(true, false, duration, now, true)]
    requires ks == [Keep(true, true), Keep(false, true)] && us == [bs[0], bs[1].(restart := false)]
    ensures KeptAt(bs, ks, 2).life.Up? && At(us, 2) == Absent
  {
    assert KeptAt(bs, ks, 1) == Then(bs[0], ks[0], KeptAt(bs, ks, 0));
    assert KeptAt(bs, ks, 2) == Then(bs[1], ks[1], KeptAt(bs, ks, 1));
  }

  // ----- the engine and its table -----

  datatype StoreTick = StoreTick(tick: Tick, keep: Keep)

  /** A run of the engine over a store: its ticks, and its instances and table before and
      after each of them. */
  datatype StoreRun = StoreRun(ticks: seq<StoreTick>, states: seq<map<string, Instance>>, tables: seq<seq<Row>>)
  {
    ghost predicate Valid() {
      && |states| == |tables| == |ticks| + 1
      && states[0] == map[] && tables[0] == []
      && forall i :: 0 <= i < |ticks| ==> Follows(ticks[i], states[i], tables[i], states[i + 1], tables[i + 1])
    }
  }

  /** One tick with its save, and the restart that may follow. */
  ghost predicate Follows(t: StoreTick, before: map<string, Instance>, table: seq<Row>,
                          after: map<string, Instance>, table': seq<Row>)
  {
    var next := OutcomeOf(t.tick, before).next;
    (if t.keep.saved then Stored(table', next) else table' == table) &&
    after == if !t.tick.restart then next else if t.keep.loaded then LoadAll(map[], table') else map[]
  }

  ghost predicate HasRow(table: seq<Row>, k: string) {
    exists i :: 0 <= i < |table| && table[i].id == k
  }

  lemma {:induction false} TableFor(m: map<string, Instance>, todo: set<string>) returns (table: seq<Row>)
    requires IdsMatch(m) && todo <= m.Keys
    ensures forall i :: 0 <= i < |table| ==> table[i].id in todo && table[i] == SaveRow(m[table[i].id])
    ensures forall k :: k in todo ==> HasRow(table, k)
    decreases |todo|
  {
    if todo == {} {
      table := [];
    } else {
      var k :| k in todo;
      var rest := TableFor(m, todo - {k});
      table := rest + [SaveRow(m[k])];
      assert table[|rest|].id == k;
      forall x | x in todo && x != k
        ensures HasRow(table, x)
      {
        assert x in todo - {k} && HasRow(rest, x);
        var i :| 0 <= i < |rest| && rest[i].id == x;
        assert table[i].id == x;
      }
    }
  }

  lemma TableOf(m: map<string, Instance>) returns (table: seq<Row>)
    requires IdsMatch(m)
    ensures Stored(table, m)
  {
    table := TableFor(m, set k | k in m && m[k].state == Active);
    forall k | k in m && m[k].state == Active
      ensures exists i :: 0 <= i < |table| && table[i].id == k
    {
      assert HasRow(table, k);
    }
  }

  /** Every sequence of ticks, saves and loads has a run. */
  lemma {:induction false} StoreRunExists(ticks: seq<StoreTick>) returns (r: StoreRun)
    ensures r.Valid() && r.ticks == ticks
  {
    if |ticks| == 0 {
      r := StoreRun([], [map[]], [[]]);
    } else {
      var rest, last := ticks[..|ticks| - 1], ticks[|ticks| - 1];
      var q := StoreRunExists(rest);
      var before, table := q.states[|rest|], q.tables[|rest|];
      var next := OutcomeOf(last.tick, before).next;
      PassIdsMatch(Pairs(last.tick.defs, last.tick.readings), before, last.tick.now);
      var table' := TableOf(next);
      if !last.keep.saved {
        table' := table;
      }
      var after := if !last.tick.restart then next else if last.keep.loaded then LoadAll(map[], table') else map[];
      assert Follows(last, before, table, after, table');
      r := StoreRun(ticks, q.states + [after], q.tables + [table']);
    }
  }

  function TicksOf(ts: seq<StoreTick>): (r: seq<Tick>)
    ensures |r| == |ts| && forall i :: 0 <= i < |ts| ==> r[i] == ts[i].tick
  {
    seq(|ts|, i requires 0 <= i < |ts| => ts[i].tick)
  }

  function KeepsOf(ts: seq<StoreTick>): (r: seq<Keep>)
    ensures |r| == |ts| && forall i :: 0 <= i < |ts| ==> r[i] == ts[i].keep
  {
    seq(|ts|, i requires 0 <= i < |ts| => ts[i].keep)
  }

  /** The table was left by some save. */
  ghost predicate Saved(table: seq<Row>) {
    exists m :: Stored(table, m)
  }

  lemma StoredRow(table: seq<Row>, m: map<string, Instance>, k: string)
    requires Stored(table, m)
    ensures HasRow(table, k) <==> LifeOf(m, k).Up?
  {}

  lemma LoadedLife(table: seq<Row>, k: string)
    requires Saved(table)
    ensures LifeOf(LoadAll(map[], table), k) == if HasRow(table, k) then Up(0) else Absent
  {
    var m :| Stored(table, m);
    LoadAllContents(table, m, k);
  }

  /** A run seen from one key. */
  lemma KeptStep(t: StoreTick, before: map<string, Instance>, table: seq<Row>, after: map<string, Instance>, table': seq<Row>,
      k: string)
    requires WellFormed(t.tick.defs, t.tick.readings) && Saved(table) && Follows(t, before, table, after, table')
    ensures Saved(table')
    ensures Kept(LifeOf(after, k), HasRow(table', k)) ==
      Then(BeatOf(t.tick, k), t.keep, Kept(LifeOf(before, k), HasRow(table, k)))
  {
    var next := OutcomeOf(t.tick, before).next;
    KeyStep(t.tick, before, k);
    if t.keep.saved {
      StoredRow(table', next, k);
    }
    LoadedLife(table', k);
  }

  lemma {:induction false} KeptLives(r: StoreRun, n: nat, k: string)
    requires r.Valid() && WellFormedRun(TicksOf(r.ticks)) && n <= |r.ticks|
    ensures Saved(r.tables[n])
    ensures Kept(LifeOf(r.states[n], k), HasRow(r.tables[n], k)) == KeptAt(View(TicksOf(r.ticks), k), KeepsOf(r.ticks), n)
  {
    if n > 0 {
      KeptLives(r, n - 1, k);
      assert SoundAt(TicksOf(r.ticks), n - 1) && TicksOf(r.ticks)[n - 1] == r.ticks[n - 1].tick;
      KeptStep(r.ticks[n - 1], r.states[n - 1], r.tables[n - 1], r.states[n], r.tables[n], k);
    } else {
      assert Stored([], map[]);
    }
  }

  ghost predicate ActiveIn(r: StoreRun, n: nat, k: string)
    requires r.Valid() && n <= |r.ticks|
  {
    k in r.states[n] && r.states[n][k].state == Active
  }

  /** The restart after tick n loads a row for key k. */
  ghost predicate Resumed(r: StoreRun, n: nat, k: string)
    requires r.Valid() && n < |r.ticks|
  {
    r.ticks[n].tick.restart && r.ticks[n].keep.loaded && HasRow(r.tables[n + 1], k)
  }

  /** u has the same definitions, readings and clock and never restarts. */
  ghost predicate Undisturbed(r: StoreRun, u: Run) {
    r.Valid() && u.Valid() && u.ticks == Uninterrupted(TicksOf(r.ticks)) &&
    WellFormedRun(TicksOf(r.ticks)) && RunsForward(TicksOf(r.ticks))
  }

  lemma KeyViews(r: StoreRun, u: Run, n: nat, k: string)
    requires Undisturbed(r, u) && n <= |r.ticks|
    ensures ActiveIn(r, n, k) <==> KeptAt(View(TicksOf(r.ticks), k), KeepsOf(r.ticks), n).life.Up?
    ensures ActiveAt(u, n, k) <==> At(View(u.ticks, k), n).Up?
    ensures n < |r.ticks| ==> (Resumed(r, n, k) <==> Revives(View(TicksOf(r.ticks), k), KeepsOf(r.ticks), n))
  {
    UninterruptedView(TicksOf(r.ticks), k);
    KeptLives(r, n, k);
    ActiveLives(u, n, k);
    if n < |r.ticks| {
      KeptLives(r, n + 1, k);
    }
  }

  ghost predicate ContainedAt(r: StoreRun, u: Run, k: string)
    requires Undisturbed(r, u)
  {
    forall n: nat :: n <= |r.ticks| && ActiveIn(r, n, k) ==> ActiveAt(u, n, k)
  }

  ghost predicate DueAt(r: StoreRun, u: Run, k: string)
    requires Undisturbed(r, u)
  {
    forall n: nat :: n < |r.ticks| && Resumed(r, n, k) ==> Due(View(u.ticks, k), n)
  }

  lemma ContainedAtKey(r: StoreRun, u: Run, k: string)
    requires Undisturbed(r, u)
    ensures ContainedAt(r, u, k) <==> DueAt(r, u, k)
  {
    var bs, ks, us := View(TicksOf(r.ticks), k), KeepsOf(r.ticks), View(u.ticks, k);
    UninterruptedView(TicksOf(r.ticks), k);
    ViewSane(TicksOf(r.ticks), k);
    ContainedExactly(bs, ks, us);
    forall n: nat | n <= |r.ticks|
      ensures ActiveIn(r, n, k) <==> KeptAt(bs, ks, n).life.Up?
      ensures ActiveAt(u, n, k) <==> At(us, n).Up?
    {
      KeyViews(r, u, n, k);
    }
    forall n: nat | n < |r.ticks|
      ensures Resumed(r, n, k) <==> Revives(bs, ks, n)
    {
      KeyViews(r, u, n, k);
    }
    assert ContainedAt(r, u, k) <==> NeverAhead(bs, ks, us);
    assert DueAt(r, u, k) <==> RevivalsDue(bs, ks, us);
  }

  /** Every alarm active in r is active in u at the same time. */
  ghost predicate Contained(r: StoreRun, u: Run)
    requires Undisturbed(r, u)
  {
    forall k :: ContainedAt(r, u, k)
  }

  /** However often the engine restarts and whatever saves and loads fail, its active alarms
      are always among those of the uninterrupted engine exactly when every row that a
      restart resumes belongs to an object that has breached, without a break and long
      enough, up to that restart. */
  lemma RestartsContained(r: StoreRun, u: Run)
    requires Undisturbed(r, u)
    ensures Contained(r, u) <==> forall k :: DueAt(r, u, k)
  {
    forall k
      ensures ContainedAt(r, u, k) <==> DueAt(r, u, k)
    {
      ContainedAtKey(r, u, k);
    }
  }

  /** It is enough that every restart that loads follows a successful save. */
  lemma FreshRestartsContained(r: StoreRun, u: Run)
    requires Undisturbed(r, u)
    requires forall i :: 0 <= i < |r.ticks| && r.ticks[i].tick.restart && r.ticks[i].keep.loaded ==> r.ticks[i].keep.saved
    ensures Contained(r, u)
  {
    forall k, n: nat | n <= |r.ticks| && ActiveIn(r, n, k)
      ensures ActiveAt(u, n, k)
    {
      KeyViews(r, u, n, k);
      UninterruptedView(TicksOf(r.ticks), k);
      ViewSane(TicksOf(r.ticks), k);
      FreshSavesContain(View(TicksOf(r.ticks), k), KeepsOf(r.ticks), View(u.ticks, k), n);
    }
  }
  // ----- a stale table -----

  /** One definition read on one object. */
  function OneReading(d: Definition, x: Reading, now: Time, restart: bool): Tick {
    Tick([d], map[d.id := [x]], now, restart)
  }

  lemma OnePair(d: Definition, x: Reading)
    requires d.enabled
    ensures Pairs([d], map[d.id := [x]]) == [Pair(d, x)]
  {
    var readings := map[d.id := [x]];
    assert [d][..0] == [] && Pairs([], readings) == [];
    assert ReadingsOf(readings, d.id) == [x];
    assert PairsOf(d, [x]) == [Pair(d, x)];
  }

  lemma OneBeat(d: Definition, x: Reading, now: Time, restart: bool)
    requires d.enabled && ':' !in d.id
    ensures WellFormed([d], map[d.id := [x]])
    ensures BeatOf(OneReading(d, x, now, restart), Key(Pair(d, x))) ==
      Beat(true, Breaches(d, x), d.durationSec * SECOND, now, restart)
  {
    var t, p := OneReading(d, x, now, restart), Pair(d, x);
    OnePair(d, x);
    assert p in Pairs(t.defs, t.readings);
    assert PairFor(t, Key(p)) == p;
  }

  /** The object breaches and its alarm is saved; then it is healthy, the save fails and
      the process restarts. */
  function StaleTicks(d: Definition, bad: Reading, good: Reading, now: Time): seq<StoreTick> {
    [StoreTick(OneReading(d, bad, now, false), Keep(true, true)), StoreTick(OneReading(d, good, now, true), Keep(false, true))]
  }

  lemma StaleViews(d: Definition, bad: Reading, good: Reading, now: Time, ts: seq<Tick>)
    requires d.enabled && ':' !in d.id && d.durationSec <= 0 && now != ZERO_TIME
    requires bad.objectId == good.objectId && Breaches(d, bad) && !Breaches(d, good)
    requires ts == TicksOf(StaleTicks(d, bad, good, now))
    ensures WellFormedRun(ts) && RunsForward(ts)
    ensures
      var k, duration := Key(Pair(d, bad)), d.durationSec * SECOND;
      View(ts, k) == [Beat(true, true, duration, now, false), Beat(true, false, duration, now, true)] &&
      View(Uninterrupted(ts), k) == [Beat(true, true, duration, now, false), Beat(true, false, duration, now, false)]
  {
    OneBeat(d, bad, now, false);
    OneBeat(d, good, now, true);
    OneBeat(d, good, now, false);
    assert Key(Pair(d, good)) == Key(Pair(d, bad));
  }

  /** One failed save is enough: whatever the definition and the object, an alarm without a
      minimum duration that was saved while it breached is active again after the restart,
      though the object has healed and the uninterrupted engine has cleared it. */
  lemma StaleSaveRevives(d: Definition, bad: Reading, good: Reading, now: Time) returns (r: StoreRun, u: Run)
    requires d.enabled && ':' !in d.id && d.durationSec <= 0 && now != ZERO_TIME
    requires bad.objectId == good.objectId && Breaches(d, bad) && !Breaches(d, good)
    ensures r.ticks == StaleTicks(d, bad, good, now) && Undisturbed(r, u)
    ensures ActiveIn(r, 2, Key(Pair(d, bad))) && !ActiveAt(u, 2, Key(Pair(d, bad))) && !Contained(r, u)
  {
    var k := Key(Pair(d, bad));
    r := StoreRunExists(StaleTicks(d, bad, good, now));
    var ts := TicksOf(r.ticks);
    u := RunExists(Uninterrupted(ts));
    StaleViews(d, bad, good, now, ts);
    KeyViews(r, u, 2, k);
    assert KeepsOf(r.ticks) == [Keep(true, true), Keep(false, true)];
    StaleBeats(d.durationSec * SECOND, now, View(ts, k), KeepsOf(r.ticks), View(u.ticks, k));
    assert !ContainedAt(r, u, k);
  }
}
