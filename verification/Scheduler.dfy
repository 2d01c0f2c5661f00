/** The backup engine's policy schedulers: starting, stopping, updating and removing
    policies while tickers run. */
module Scheduler {
  import opened Wrappers

  datatype Policy = Policy(
    id: string,
    name: string,
    providerID: string,
    vmID: string,
    backendID: string,
    intervalSeconds: int,
    retentionCount: int,
    enabled: bool)

  // ----- the specification: whole runs -----

  /** A registered policy, with its ticker's number if it has one. */
  datatype Entry = Entry(policy: Policy, ticker: Option<nat>)

  datatype Op = Start | Stop | Upsert(policy: Policy) | Remove(id: string)

  /** Tickers are numbered as they are launched; live are those not cancelled. */
  datatype State = State(running: bool, jobs: map<string, Entry>, launched: nat, live: set<nat>)

  const EMPTY := State(false, map[], 0, {})

  function Ticker(s: State, id: string): Option<nat> {
    if id in s.jobs then s.jobs[id].ticker else None
  }

  function Without(live: set<nat>, ticker: Option<nat>): set<nat> {
    if ticker.Some? then live - {ticker.value} else live
  }

  function Tickers(jobs: map<string, Entry>): set<nat> {
    set id | id in jobs && jobs[id].ticker.Some? :: jobs[id].ticker.value
  }

  function Halted(jobs: map<string, Entry>): map<string, Entry> {
    map id | id in jobs :: jobs[id].(ticker := None)
  }

  function Next(s: State, op: Op): State {
    match op
    case Start => s.(running := true)
    case Stop => State(false, Halted(s.jobs), s.launched, s.live - Tickers(s.jobs))
    case Upsert(p) =>
      var kept := Without(s.live, Ticker(s, p.id));
      if s.running && p.enabled then
        State(true, s.jobs[p.id := Entry(p, Some(s.launched))], s.launched + 1, kept + {s.launched})
      else
        State(s.running, s.jobs[p.id := Entry(p, None)], s.launched, kept)
    case Remove(id) => s.(jobs := s.jobs - {id}, live := Without(s.live, Ticker(s, id)))
  }

  function Run(ops: seq<Op>): State {
    if |ops| == 0 then EMPTY else Next(Run(ops[..|ops| - 1]), ops[|ops| - 1])
  }

  /** Started and not stopped since. */
  ghost predicate Started(ops: seq<Op>) {
    exists n :: 0 <= n < |ops| && ops[n] == Start && NoStopAfter(ops, n)
  }

  ghost predicate NoStopAfter(ops: seq<Op>, n: int) {
    forall m :: n < m < |ops| && 0 <= m ==> ops[m] != Stop
  }

  /** Step n upserts an enabled policy while the engine is started. */
  ghost predicate Launches(ops: seq<Op>, n: nat) {
    n < |ops| && ops[n].Upsert? && ops[n].policy.enabled && Started(ops[..n])
  }

  predicate Ends(op: Op, id: string) {
    match op
    case Start => false
    case Stop => true
    case Upsert(p) => p.id == id
    case Remove(other) => other == id
  }

  ghost predicate Undisturbed(ops: seq<Op>, n: nat, id: string) {
    forall m :: n < m < |ops| ==> !Ends(ops[m], id)
  }

  /** The ticker launched by step n. */
  ghost function TickerOf(ops: seq<Op>, n: nat): nat
    requires n < |ops|
  {
    Run(ops[..n]).launched
  }

  lemma {:induction false} RunningIsStarted(ops: seq<Op>)
    ensures Run(ops).running <==> Started(ops)
  {
    if |ops| > 0 {
      var shorter, last := ops[..|ops| - 1], ops[|ops| - 1];
      RunningIsStarted(shorter);
      assert forall m :: 0 <= m < |shorter| ==> ops[m] == shorter[m];
      if last == Start {
        assert NoStopAfter(ops, |ops| - 1);
      } else {
        if Started(shorter) && last != Stop {
          var n :| 0 <= n < |shorter| && shorter[n] == Start && NoStopAfter(shorter, n);
          assert ops[n] == Start && NoStopAfter(ops, n);
        }
        if Started(ops) {
          var n :| 0 <= n < |ops| && ops[n] == Start && NoStopAfter(ops, n);
          assert shorter[n] == Start && NoStopAfter(shorter, n);
        }
      }
    }
  }

  ghost predicate Records(s: State, id: string, ticker: int) {
    Ticker(s, id).Some? && Ticker(s, id).value == ticker
  }

  /** The live tickers are exactly those on record, one per policy; a policy has one
      only while the engine runs and its latest definition is enabled. */
  ghost predicate Consistent(s: State) {
    (forall id, t :: Records(s, id, t) ==> t in s.live && t < s.launched) &&
    (forall t :: t in s.live ==> exists id :: Records(s, id, t)) &&
    (forall id, other, t :: Records(s, id, t) && Records(s, other, t) ==> id == other) &&
    (forall id, t :: Records(s, id, t) ==> s.running && s.jobs[id].policy.enabled && s.jobs[id].policy.id == id)
  }

  /** What a step does to a policy it neither upserts nor removes nor stops. */
  lemma OtherPolicies(s: State, op: Op, id: string)
    requires !Ends(op, id)
    ensures Ticker(Next(s, op), id) == Ticker(s, id)
    ensures id in s.jobs ==> id in Next(s, op).jobs && Next(s, op).jobs[id] == s.jobs[id]
  {}

  /** What a step does to a ticker already launched. */
  lemma TickerStep(s: State, op: Op, id: string, t: nat)
    requires Consistent(s) && Records(s, id, t)
    ensures if Ends(op, id) then t !in Next(s, op).live else t in Next(s, op).live && Records(Next(s, op), id, t)
  {
    if !Ends(op, id) {
      OtherPolicies(s, op, id);
      if op.Upsert? {
        assert !Records(s, op.policy.id, t);
      } else if op.Remove? {
        assert !Records(s, op.id, t);
      }
    }
  }

  lemma Gone(s: State, op: Op, t: nat)
    requires t < s.launched && t !in s.live
    ensures t !in Next(s, op).live
  {}

  lemma Arises(s: State, op: Op, id: string, t: int)
    requires Records(Next(s, op), id, t)
    ensures (Records(s, id, t) && !Ends(op, id))
      || (op.Upsert? && op.policy.id == id && op.policy.enabled && s.running && t == s.launched)
  {
    if !Ends(op, id) {
      OtherPolicies(s, op, id);
    }
  }

  lemma StopEndsAll(s: State)
    requires Consistent(s)
    ensures Next(s, Stop).live == {}
  {
    forall t | t in s.live
      ensures t in Tickers(s.jobs)
    {
      var id :| Records(s, id, t);
    }
  }

  lemma NextConsistent(s: State, op: Op)
    requires Consistent(s)
    ensures Consistent(Next(s, op))
  {
    var n := Next(s, op);
    forall id, t | Records(n, id, t)
      ensures t in n.live && t < n.launched
      ensures n.running && n.jobs[id].policy.enabled && n.jobs[id].policy.id == id
      ensures Records(s, id, t) || (op.Upsert? && op.policy.id == id && t == s.launched)
    {
      Arises(s, op, id, t);
      if Records(s, id, t) && !Ends(op, id) {
        TickerStep(s, op, id, t);
        OtherPolicies(s, op, id);
      }
    }
    forall t | t in n.live
      ensures exists id :: Records(n, id, t)
    {
      if op == Stop {
        StopEndsAll(s);
        assert false;
      } else if op.Upsert? && t == s.launched {
        assert Records(n, op.policy.id, t);
      } else {
        var id :| Records(s, id, t);
        TickerStep(s, op, id, t);
        assert Records(n, id, t);
      }
    }
  }

  lemma {:induction false} RunConsistent(ops: seq<Op>)
    ensures Consistent(Run(ops))
  {
    if |ops| > 0 {
      RunConsistent(ops[..|ops| - 1]);
      NextConsistent(Run(ops[..|ops| - 1]), ops[|ops| - 1]);
    }
  }

  /** A ticker belongs to the policy that step n upserts, and survives exactly while no
      later step stops the engine or upserts or removes that policy. */
  lemma {:induction false} LiveExactly(ops: seq<Op>, n: nat)
    requires Launches(ops, n)
    ensures TickerOf(ops, n) < Run(ops).launched
    ensures TickerOf(ops, n) in Run(ops).live <==> Undisturbed(ops, n, ops[n].policy.id)
    ensures Ticker(Run(ops), ops[n].policy.id) == Some(TickerOf(ops, n)) <==> Undisturbed(ops, n, ops[n].policy.id)
  {
    var shorter, op := ops[..|ops| - 1], ops[|ops| - 1];
    var id, t := ops[n].policy.id, TickerOf(ops, n);
    RunConsistent(shorter);
    RunConsistent(ops);
    if n == |ops| - 1 {
      assert ops[..n] == shorter;
      RunningIsStarted(shorter);
    } else {
      assert shorter[..n] == ops[..n];
      LiveExactly(shorter, n);
      assert forall m :: n < m < |shorter| ==> ops[m] == shorter[m];
      if t in Run(shorter).live {
        assert Records(Run(shorter), id, t);
        TickerStep(Run(shorter), op, id, t);
      } else {
        Gone(Run(shorter), op, t);
      }
      assert Records(Run(ops), id, t) ==> t in Run(ops).live;
    }
  }

  /** Every live ticker was launched by some step, for an enabled policy upserted while
      the engine was started. */
  lemma {:induction false} LiveWasLaunched(ops: seq<Op>, t: nat)
    requires t in Run(ops).live
    ensures exists n: nat :: Launches(ops, n) && TickerOf(ops, n) == t
  {
    var shorter, op := ops[..|ops| - 1], ops[|ops| - 1];
    if t in Run(shorter).live {
      LiveWasLaunched(shorter, t);
      var n: nat :| Launches(shorter, n) && TickerOf(shorter, n) == t;
      assert shorter[..n] == ops[..n];
      assert Launches(ops, n) && TickerOf(ops, n) == t;
    } else {
      var n := |ops| - 1;
      assert ops[..n] == shorter;
      RunningIsStarted(shorter);
      assert Launches(ops, n) && TickerOf(ops, n) == t;
    }
  }

  /** A policy is being scheduled exactly when its last upsert was enabled and came while
      the engine was started, with no stop and no removal since. Starting the engine by
      itself schedules nothing. */
  lemma ScheduledExactly(ops: seq<Op>, id: string)
    ensures Ticker(Run(ops), id).Some? <==>
      exists n: nat :: Launches(ops, n) && ops[n].policy.id == id && Undisturbed(ops, n, id)
  {
    RunConsistent(ops);
    var s := Run(ops);
    if Ticker(s, id).Some? {
      var t := Ticker(s, id).value;
      assert Records(s, id, t);
      LiveWasLaunched(ops, t);
      var n: nat :| Launches(ops, n) && TickerOf(ops, n) == t;
      LiveExactly(ops, n);
      assert Records(s, ops[n].policy.id, t);
    }
    forall n: nat | Launches(ops, n) && ops[n].policy.id == id && Undisturbed(ops, n, id)
      ensures Ticker(s, id).Some?
    {
      LiveExactly(ops, n);
    }
  }

  /** Stopping cancels every scheduler, and starting again brings none back. */
  lemma RestartSchedulesNothing(ops: seq<Op>)
    ensures Run(ops + [Stop, Start]).live == {}
  {
    var stopped := ops + [Stop];
    assert (ops + [Stop, Start])[..|ops| + 1] == stopped;
    assert stopped[..|ops|] == ops;
    RunConsistent(ops);
    StopEndsAll(Run(ops));
  }

  // ----- the engine itself -----

  class Job {
    var policy: Policy
    var cancel: Option<nat>
    ghost const key: string

    constructor (policy: Policy)
      ensures this.policy == policy && cancel == None && key == policy.id
    {
      key := policy.id;
      this.policy := policy;
      cancel := None;
    }
  }

  /** The tickers launched, seen from outside. */
  datatype Tally = Tally(launched: nat, live: set<nat>)

  class Engine {
    var running: bool
    var jobs: map<string, Job>
    var tickers: Tally
    ghost var repr: set<Job>
    ghost var entries: map<string, Entry>

    ghost predicate Valid()
      reads this, repr
    {
      (forall k :: k in entries <==> k in jobs) &&
      forall k :: k in jobs ==>
        jobs[k] in repr && jobs[k].key == k && entries[k] == Entry(jobs[k].policy, jobs[k].cancel)
    }

    ghost function Abs(): State
      reads this
    {
      State(running, entries, tickers.launched, tickers.live)
    }

    constructor ()
      ensures Valid() && Abs() == EMPTY && fresh(repr)
    {
      running, jobs, tickers, entries, repr := false, map[], Tally(0, {}), map[], {};
    }

    method Start()
      requires Valid()
      modifies `running
      ensures Valid() && repr == old(repr)
      ensures Abs() == Next(old(Abs()), Op.Start)
    {
      running := true;
    }

    /** Cancels a job's ticker, if it has one. */
    method CancelJob(j: Job)
      modifies `tickers, j`cancel
      ensures tickers == old(tickers).(live := Without(old(tickers).live, old(j.cancel))) && j.cancel == None
    {
      if j.cancel.Some? {
        tickers := tickers.(live := tickers.live - {j.cancel.value});
        j.cancel := None;
      }
    }

    /** Part of a stop: these jobs are still to be visited. */
    ghost predicate Halting(before: map<string, Entry>, tally: Tally, todo: set<string>)
      reads this, repr
    {
      Valid() && todo <= jobs.Keys &&
      entries == HaltedBut(before, todo) &&
      tickers == tally.(live := tally.live - TickersBut(before, todo))
    }

    method HaltNext(ghost before: map<string, Entry>, ghost tally: Tally, todo: set<string>, k: string)
      requires Halting(before, tally, todo) && k in todo
      modifies `tickers, `entries, repr
      ensures Halting(before, tally, todo - {k})
    {
      HaltOneMore(before, todo, k);
      CancelJob(jobs[k]);
      entries := entries[k := Entry(entries[k].policy, None)];
    }

    /** Cancels every job's ticker; the jobs are visited in an arbitrary order. */
    method HaltJobs()
      requires Valid()
      modifies `tickers, `entries, repr
      ensures Valid() && entries == Halted(old(entries))
      ensures tickers == old(tickers).(live := old(tickers).live - Tickers(old(entries)))
    {
      var todo := jobs.Keys;
      ghost var before, tally := entries, tickers;
      HaltNone(before, todo);
      while todo != {}
        invariant Halting(before, tally, todo)
        decreases |todo|
      {
        var k :| k in todo;
        HaltNext(before, tally, todo, k);
        todo := todo - {k};
      }
      HaltAll(before);
    }

    method Stop()
      requires Valid()
      modifies this, repr
      ensures Valid() && repr == old(repr)
      ensures Abs() == Next(old(Abs()), Op.Stop)
    {
      running := false;
      HaltJobs();
    }

    method Upsert(p: Policy)
      requires Valid()
      modifies this, repr
      ensures Valid() && fresh(repr - old(repr))
      ensures Abs() == Next(old(Abs()), Op.Upsert(p))
    {
      if p.id !in jobs {
        var created := new Job(p);
        jobs, repr := jobs[p.id := created], repr + {created};
      }
      var j := jobs[p.id];
      j.policy := p;
      CancelJob(j);
      if running && p.enabled {
        ScheduleLocked(j);
      }
      entries := entries[p.id := Entry(p, j.cancel)];
    }

    /** scheduleLocked: launches a new ticker. */
    method ScheduleLocked(j: Job)
      modifies `tickers, j`cancel
      ensures tickers == Tally(old(tickers).launched + 1, old(tickers).live + {old(tickers).launched})
      ensures j.cancel == Some(old(tickers).launched)
    {
      j.cancel := Some(tickers.launched);
      tickers := Tally(tickers.launched + 1, tickers.live + {tickers.launched});
    }

    method Remove(id: string)
      requires Valid()
      modifies this
      ensures Valid() && repr == old(repr)
      ensures Abs() == Next(old(Abs()), Op.Remove(id))
    {
      if id in jobs {
        if jobs[id].cancel.Some? {
          tickers := tickers.(live := tickers.live - {jobs[id].cancel.value});
        }
        jobs := jobs - {id};
      }
      entries := entries - {id};
    }
  }

  ghost function HaltedBut(jobs: map<string, Entry>, todo: set<string>): map<string, Entry> {
    map id | id in jobs :: if id in todo then jobs[id] else jobs[id].(ticker := None)
  }

  ghost function TickersBut(jobs: map<string, Entry>, todo: set<string>): set<nat> {
    set id | id in jobs && id !in todo && jobs[id].ticker.Some? :: jobs[id].ticker.value
  }

  lemma HaltNone(jobs: map<string, Entry>, todo: set<string>)
    requires forall id :: id in jobs <==> id in todo
    ensures HaltedBut(jobs, todo) == jobs && TickersBut(jobs, todo) == {}
  {}

  lemma HaltAll(jobs: map<string, Entry>)
    ensures HaltedBut(jobs, {}) == Halted(jobs) && TickersBut(jobs, {}) == Tickers(jobs)
  {
    assert HaltedBut(jobs, {}) == Halted(jobs);
    assert TickersBut(jobs, {}) == Tickers(jobs);
  }

  lemma HaltOneMore(jobs: map<string, Entry>, todo: set<string>, id: string)
    requires id in todo && id in jobs
    ensures HaltedBut(jobs, todo - {id}) == HaltedBut(jobs, todo)[id := Entry(jobs[id].policy, None)]
    ensures TickersBut(jobs, todo - {id}) ==
      if jobs[id].ticker.Some? then TickersBut(jobs, todo) + {jobs[id].ticker.value} else TickersBut(jobs, todo)
  {
    var t := jobs[id].ticker;
    assert TickersBut(jobs, todo - {id}) == if t.Some? then TickersBut(jobs, todo) + {t.value} else TickersBut(jobs, todo) by {
      if t.Some? {
        assert t.value in TickersBut(jobs, todo - {id});
      }
    }
  }

  /** How many steps launched a ticker. */
  ghost function LaunchCount(ops: seq<Op>): nat {
    if |ops| == 0 then 0 else LaunchCount(ops[..|ops| - 1]) + if Launches(ops, |ops| - 1) then 1 else 0
  }

  /** Tickers are numbered in the order of their launches. */
  lemma {:induction false} LaunchedCounts(ops: seq<Op>)
    ensures Run(ops).launched == LaunchCount(ops)
  {
    if |ops| > 0 {
      LaunchedCounts(ops[..|ops| - 1]);
      RunningIsStarted(ops[..|ops| - 1]);
    }
  }
}
