/** The one-live-stats registry: each UI session has at most one live stats stream,
    and opening a new one cancels the old one. */
module Streams {
  import opened Wrappers

  /** A stats stream's subscription id and the context handed out for it. */
  datatype Handle = Handle(subID: string, id: nat)

  // ----- the specification: whole runs -----

  datatype Op =
    | Acquire(key: string, subID: string, listening: bool)
    | Release(key: string, subID: string)
    | Close(key: string)

  /** The sessions on record with their active handle, the number of contexts handed
      out so far, and those not cancelled. */
  datatype State = State(sessions: map<string, Option<Handle>>, issued: nat, live: set<nat>)

  const EMPTY := State(map[], 0, {})

  function Active(s: State, key: string): Option<Handle> {
    if key in s.sessions then s.sessions[key] else None
  }

  function Without(live: set<nat>, h: Option<Handle>): set<nat> {
    if h.Some? then live - {h.value.id} else live
  }

  function Next(s: State, op: Op): State {
    var h := Active(s, op.key);
    match op
    case Acquire(key, subID, listening) =>
      State(
        s.sessions[key := Some(Handle(subID, s.issued))],
        s.issued + 1,
        Without(s.live, h) + {s.issued})
    case Release(key, subID) =>
      if h.Some? && h.value.subID == subID then
        s.(sessions := s.sessions[key := None], live := Without(s.live, h))
      else
        s.(sessions := s.sessions[key := h])
    case Close(key) =>
      s.(sessions := s.sessions - {key}, live := Without(s.live, h))
  }

  /** The subscription whose listener is told that a new one took over. */
  function Superseded(s: State, key: string, subID: string, listening: bool): Option<string> {
    var h := Active(s, key);
    if h.Some? && listening && h.value.subID != subID then Some(h.value.subID) else None
  }

  function Run(ops: seq<Op>): State {
    if |ops| == 0 then EMPTY else Next(Run(ops[..|ops| - 1]), ops[|ops| - 1])
  }

  /** The step ends a stream of this session and subscription. */
  predicate Ends(op: Op, key: string, subID: string) {
    op.key == key && (op.Release? ==> op.subID == subID)
  }

  /** What happened after step n leaves the stream it opened alone. */
  ghost predicate Undisturbed(ops: seq<Op>, n: nat)
    requires n < |ops| && ops[n].Acquire?
  {
    forall m :: n < m < |ops| ==> !Ends(ops[m], ops[n].key, ops[n].subID)
  }

  /** The handle that step n hands out. */
  ghost function HandleOf(ops: seq<Op>, n: nat): Handle
    requires n < |ops| && ops[n].Acquire?
  {
    Handle(ops[n].subID, Run(ops[..n]).issued)
  }

  ghost predicate Records(s: State, key: string, id: int) {
    Active(s, key).Some? && Active(s, key).value.id == id
  }

  /** The contexts not cancelled are exactly those on record, one per session. */
  ghost predicate Consistent(s: State) {
    (forall k, i :: Records(s, k, i) ==> i in s.live && i < s.issued) &&
    (forall i :: i in s.live ==> exists k :: Records(s, k, i)) &&
    (forall k, l, i :: Records(s, k, i) && Records(s, l, i) ==> k == l)
  }

  lemma OtherSessions(s: State, op: Op, key: string)
    requires key != op.key
    ensures Active(Next(s, op), key) == Active(s, key)
  {}

  /** One step, seen from a handle already on record or already cancelled. */
  lemma LiveStep(s: State, op: Op, key: string, h: Handle)
    requires Consistent(s) && h.id < s.issued
    requires Active(s, key) == Some(h) <==> h.id in s.live
    ensures h.id in Next(s, op).live <==> h.id in s.live && !Ends(op, key, h.subID)
    ensures Active(Next(s, op), key) == Some(h) <==> h.id in Next(s, op).live
  {
    if key != op.key {
      OtherSessions(s, op, key);
      if h.id in s.live {
        assert Records(s, key, h.id);
        assert !Records(s, op.key, h.id);
      }
    }
  }

  lemma NextConsistent(s: State, op: Op)
    requires Consistent(s)
    ensures Consistent(Next(s, op))
  {
    var t := Next(s, op);
    forall k, i | Records(t, k, i)
      ensures i in t.live && i < t.issued
      ensures Records(s, k, i) || (k == op.key && i == s.issued)
    {
      if k != op.key {
        OtherSessions(s, op, k);
        assert Records(s, k, i);
        assert !Records(s, op.key, i);
      } else if !op.Acquire? {
        assert Records(s, k, i);
      }
    }
    forall i | i in t.live
      ensures exists k :: Records(t, k, i)
    {
      if op.Acquire? && i == s.issued {
        assert Records(t, op.key, i);
      } else {
        var k :| Records(s, k, i);
        if k != op.key {
          OtherSessions(s, op, k);
        }
        assert Records(t, k, i);
      }
    }
  }

  lemma {:induction false} RunConsistent(ops: seq<Op>)
    ensures Consistent(Run(ops))
  {
    if |ops| > 0 {
      RunConsistent(ops[..|ops| - 1]);
      NextConsistent(Run(ops[..|ops| - 1]), ops[|ops| - 1]);
    }
  }

  lemma {:induction false} IssuedGrows(ops: seq<Op>, n: nat)
    requires n < |ops| && ops[n].Acquire?
    ensures Run(ops[..n]).issued < Run(ops).issued
  {
    var shorter := ops[..|ops| - 1];
    if n == |ops| - 1 {
      assert ops[..n] == shorter;
    } else {
      assert shorter[..n] == ops[..n];
      IssuedGrows(shorter, n);
    }
  }

  /** After any run, the stream opened at step n is live exactly when no later step
      acquired for its session, closed its session, or released its subscription; and
      it is live exactly when it is the one on record. */
  lemma {:induction false} LiveExactly(ops: seq<Op>, n: nat)
    requires n < |ops| && ops[n].Acquire?
    ensures HandleOf(ops, n).id in Run(ops).live <==> Undisturbed(ops, n)
    ensures Active(Run(ops), ops[n].key) == Some(HandleOf(ops, n)) <==> Undisturbed(ops, n)
  {
    var shorter, op := ops[..|ops| - 1], ops[|ops| - 1];
    var h := HandleOf(ops, n);
    RunConsistent(shorter);
    if n == |ops| - 1 {
      assert ops[..n] == shorter;
    } else {
      assert shorter[..n] == ops[..n];
      LiveExactly(shorter, n);
      IssuedGrows(shorter, n);
      LiveStep(Run(shorter), op, ops[n].key, h);
      assert forall m :: n < m < |shorter| ==> ops[m] == shorter[m];
    }
  }

  /** So after any run a session has at most one live stream. */
  lemma OneLivePerSession(ops: seq<Op>, m: nat, n: nat)
    requires m < n < |ops| && ops[m].Acquire? && ops[n].Acquire? && ops[m].key == ops[n].key
    ensures HandleOf(ops, m).id !in Run(ops).live
  {
    LiveExactly(ops, m);
    assert Ends(ops[n], ops[m].key, ops[m].subID);
  }

  /** A session the registry has forgotten has no live stream at all. */
  lemma ForgottenHasNone(ops: seq<Op>, n: nat)
    requires n < |ops| && ops[n].Acquire? && ops[n].key !in Run(ops).sessions
    ensures HandleOf(ops, n).id !in Run(ops).live
  {
    LiveExactly(ops, n);
  }

  /** A takeover is reported exactly when a stream of another subscription of the same
      session is still live, and it is that subscription that is named. */
  lemma SupersededExactly(ops: seq<Op>, key: string, subID: string, other: string)
    ensures Superseded(Run(ops), key, subID, true) == Some(other) <==>
      other != subID &&
      exists n: nat :: n < |ops| && ops[n].Acquire? && ops[n].key == key && ops[n].subID == other && Undisturbed(ops, n)
  {
    var h := Active(Run(ops), key);
    if h.Some? && h.value.subID == other {
      RunConsistent(ops);
      assert Records(Run(ops), key, h.value.id);
      LiveWasHandedOut(ops, h.value.id);
      var n: nat :| n < |ops| && ops[n].Acquire? && HandleOf(ops, n).id == h.value.id;
      LiveExactly(ops, n);
      assert Records(Run(ops), ops[n].key, h.value.id);
    }
    forall n: nat | n < |ops| && ops[n].Acquire? && ops[n].key == key && ops[n].subID == other && Undisturbed(ops, n)
      ensures h == Some(HandleOf(ops, n))
    {
      LiveExactly(ops, n);
    }
  }

  /** Every live context was handed out by some step of the run. */
  lemma {:induction false} LiveWasHandedOut(ops: seq<Op>, id: nat)
    requires id < Run(ops).issued
    ensures exists n: nat :: n < |ops| && ops[n].Acquire? && HandleOf(ops, n).id == id
  {
    var shorter, op := ops[..|ops| - 1], ops[|ops| - 1];
    if id < Run(shorter).issued {
      LiveWasHandedOut(shorter, id);
      var n: nat :| n < |shorter| && shorter[n].Acquire? && HandleOf(shorter, n).id == id;
      assert shorter[..n] == ops[..n];
      assert HandleOf(ops, n).id == id;
    } else {
      var n := |ops| - 1;
      assert HandleOf(ops, n).id == id;
    }
  }

  /** Releasing any other subscription than the one on record cancels nothing and
      leaves every session's stream as it was. */
  lemma StaleReleaseIsHarmless(ops: seq<Op>, key: string, subID: string)
    requires Active(Run(ops), key) != None ==> Active(Run(ops), key).value.subID != subID
    ensures
      var s, t := Run(ops), Run(ops + [Release(key, subID)]);
      t.live == s.live && t.issued == s.issued &&
      forall k :: Active(t, k) == Active(s, k)
  {
    assert (ops + [Release(key, subID)])[..|ops|] == ops;
  }

  // ----- the registry itself -----

  lemma Overwritten(m: map<string, Option<Handle>>, key: string, x: Option<Handle>, y: Option<Handle>)
    ensures m[key := x][key := y] == m[key := y]
  {}

  class SessionStreams {
    var activeStat: Option<Handle>
    ghost const key: string

    constructor (ghost key: string)
      ensures activeStat == None && this.key == key
    {
      this.key := key;
      activeStat := None;
    }
  }

  /** The contexts handed out, seen from outside. */
  datatype Contexts = Contexts(issued: nat, live: set<nat>)

  class Registry {
    var sessions: map<string, SessionStreams>
    var contexts: Contexts
    ghost var repr: set<SessionStreams>
    ghost var entries: map<string, Option<Handle>>

    ghost predicate Valid()
      reads this, repr
    {
      (forall k :: k in entries <==> k in sessions) &&
      forall k :: k in sessions ==>
        sessions[k] in repr && sessions[k].key == k && sessions[k].activeStat == entries[k]
    }

    ghost function Abs(): State
      reads this
    {
      State(entries, contexts.issued, contexts.live)
    }

    constructor ()
      ensures Valid() && Abs() == EMPTY && fresh(repr)
    {
      sessions, entries, contexts, repr := map[], map[], Contexts(0, {}), {};
    }

    /** sessionFor. */
    method SessionFor(key: string) returns (ss: SessionStreams)
      requires Valid()
      modifies `sessions, `entries, `repr
      ensures Valid() && fresh(repr - old(repr))
      ensures key in sessions && sessions[key] == ss
      ensures entries == old(entries)[key := Active(old(Abs()), key)]
    {
      if key in sessions {
        return sessions[key];
      }
      ss := new SessionStreams(key);
      sessions, entries, repr := sessions[key := ss], entries[key := None], repr + {ss};
    }

    /** Cancels the session's stream, if it has one. */
    method Cancel(key: string, ss: SessionStreams)
      requires Valid() && key in sessions && sessions[key] == ss
      modifies `contexts, `entries, ss
      ensures Valid() && entries == old(entries)[key := None]
      ensures contexts == old(contexts).(live := Without(old(contexts).live, old(entries)[key]))
    {
      if ss.activeStat.Some? {
        contexts := contexts.(live := contexts.live - {ss.activeStat.value.id});
        ss.activeStat := None;
      }
      entries := entries[key := None];
    }

    /** Hands out a new context and records its stream. */
    method Open(key: string, ss: SessionStreams, subID: string) returns (ctx: nat)
      requires Valid() && key in sessions && sessions[key] == ss
      modifies `contexts, `entries, ss
      ensures Valid() && ctx == old(contexts).issued && entries == old(entries)[key := Some(Handle(subID, ctx))]
      ensures contexts == Contexts(ctx + 1, old(contexts).live + {ctx})
    {
      ctx := contexts.issued;
      contexts := Contexts(ctx + 1, contexts.live + {ctx});
      ss.activeStat := Some(Handle(subID, ctx));
      entries := entries[key := ss.activeStat];
    }

    method AcquireStats(key: string, subID: string, listening: bool)
        returns (ctx: nat, superseded: Option<string>)
      requires Valid()
      modifies this, repr
      ensures Valid() && fresh(repr - old(repr))
      ensures Abs() == Next(old(Abs()), Acquire(key, subID, listening))
      ensures ctx == old(contexts.issued)
      ensures superseded == Superseded(old(Abs()), key, subID, listening)
    {
      ghost var before := entries;
      var ss := SessionFor(key);
      superseded := None;
      if ss.activeStat.Some? && listening && ss.activeStat.value.subID != subID {
        superseded := Some(ss.activeStat.value.subID);
      }
      Cancel(key, ss);
      ctx := Open(key, ss, subID);
      Overwritten(before, key, Active(old(Abs()), key), None);
      Overwritten(before, key, None, Some(Handle(subID, ctx)));
    }

    method ReleaseStats(key: string, subID: string)
      requires Valid()
      modifies this, repr
      ensures Valid() && fresh(repr - old(repr))
      ensures Abs() == Next(old(Abs()), Release(key, subID))
    {
      ghost var before := entries;
      var ss := SessionFor(key);
      if ss.activeStat.Some? && ss.activeStat.value.subID == subID {
        Cancel(key, ss);
        Overwritten(before, key, Active(old(Abs()), key), None);
      }
    }

    method CloseSession(key: string)
      requires Valid()
      modifies this, repr
      ensures Valid() && repr == old(repr)
      ensures Abs() == Next(old(Abs()), Close(key))
    {
      if key !in sessions {
        assert entries - {key} == entries;
        return;
      }
      var ss := sessions[key];
      sessions, entries := sessions - {key}, entries - {key};
      if ss.activeStat.Some? {
        contexts := contexts.(live := contexts.live - {ss.activeStat.value.id});
        ss.activeStat := None;
      }
    }
  }
}
