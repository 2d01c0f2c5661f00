/** The alarm engine: ticks, the persisted active alarms and restarts. */
module AlarmEngine {
  import opened Wrappers
  import opened Strings
  import opened Alarms

  // ----- what is persisted -----

  /** The Unix epoch in seconds after the zero time. */
  const UNIX_EPOCH := 62135596800

  function Unix(t: Time): int {
    t / SECOND - UNIX_EPOCH
  }

  function FromUnix(u: int): Time {
    (u + UNIX_EPOCH) * SECOND
  }

  datatype Row = Row(
    id: string,
    definitionId: string,
    definitionName: string,
    objectId: string,
    objectName: string,
    objectType: string,
    severity: string,
    metric: Metric,
    value: real,
    stateRaw: string,
    raisedAt: int,
    lastNotifiedAt: int)

  function SaveRow(i: Instance): Row {
    Row(i.id, i.definitionId, i.definitionName, i.objectId, i.objectName, i.objectType, i.severity, i.metric,
        i.value, i.stateRaw, Unix(i.raisedAt), if i.lastNotifiedAt == ZERO_TIME then 0 else Unix(i.lastNotifiedAt))
  }

  function LoadRow(r: Row): Instance {
    Instance(r.id, r.definitionId, r.definitionName, r.objectId, r.objectName, r.objectType, r.severity, r.metric,
             Active, r.value, r.stateRaw, FromUnix(r.raisedAt), ZERO_TIME, ZERO_TIME, ZERO_TIME)
  }

  /** What a restart makes of an active instance: the raise time loses its fraction
      of a second, the breach window and the notification times are lost. */
  function Restored(i: Instance): Instance {
    i.(state := Active, raisedAt := i.raisedAt - i.raisedAt % SECOND, clearedAt := ZERO_TIME,
       lastNotifiedAt := ZERO_TIME, breachSince := ZERO_TIME)
  }

  lemma SaveLoad(i: Instance)
    ensures LoadRow(SaveRow(i)) == Restored(i)
  {}

  /** Only active instances survive a restart. */
  function Restarted(m: map<string, Instance>): map<string, Instance> {
    map k | k in m && m[k].state == Active :: Restored(m[k])
  }

  ghost predicate IdsMatch(m: map<string, Instance>) {
    forall k :: k in m ==> m[k].id == k
  }

  lemma {:induction false} PassIdsMatch(ps: seq<Pair>, prior: map<string, Instance>, now: Time)
    ensures IdsMatch(Pass(ps, prior, now).next)
  {
    if |ps| > 0 {
      PassIdsMatch(ps[..|ps| - 1], prior, now);
      var last := ps[|ps| - 1];
      JudgeIds(last, PriorOf(prior, Key(last)), now);
    }
  }

  /** The table holds exactly the active instances of m, one row each. */
  ghost predicate Stored(rows: seq<Row>, m: map<string, Instance>) {
    && (forall i :: 0 <= i < |rows| ==>
         rows[i].id in m && m[rows[i].id].state == Active && rows[i] == SaveRow(m[rows[i].id]))
    && (forall k :: k in m && m[k].state == Active ==> exists i :: 0 <= i < |rows| && rows[i].id == k)
  }

  function LoadAll(base: map<string, Instance>, rows: seq<Row>): map<string, Instance> {
    if |rows| == 0 then base
    else
      var last := rows[|rows| - 1];
      LoadAll(base, rows[..|rows| - 1])[last.id := LoadRow(last)]
  }

  lemma {:induction false} LoadAllContents(rows: seq<Row>, m: map<string, Instance>, k: string)
    requires forall i :: 0 <= i < |rows| ==> rows[i].id in m && rows[i] == SaveRow(m[rows[i].id])
    ensures k in LoadAll(map[], rows) <==> exists i :: 0 <= i < |rows| && rows[i].id == k
    ensures k in LoadAll(map[], rows) ==> k in m && LoadAll(map[], rows)[k] == Restored(m[k])
  {
    if |rows| > 0 {
      var rest, last := rows[..|rows| - 1], rows[|rows| - 1];
      LoadAllContents(rest, m, k);
      SaveLoad(m[last.id]);
      if i :| 0 <= i < |rest| && rest[i].id == k {
        assert rows[i].id == k;
      }
    }
  }

  /** Saving the live set and resuming from it yields the active instances, restored. */
  lemma ResumeAfterSave(rows: seq<Row>, m: map<string, Instance>)
    requires Stored(rows, m)
    ensures LoadAll(map[], rows) == Restarted(m)
  {
    forall k ensures k in LoadAll(map[], rows) <==> k in Restarted(m) {
      LoadAllContents(rows, m, k);
    }
    forall k | k in Restarted(m) ensures LoadAll(map[], rows)[k] == Restarted(m)[k] {
      LoadAllContents(rows, m, k);
    }
  }

  // ----- the engine -----

  class Engine {
    var instances: map<string, Instance>
    var rows: seq<Row>

    constructor ()
      ensures instances == map[] && rows == []
    {
      instances, rows := map[], [];
    }

    /** The snapshot of the live set, in no particular order. */
    method Snapshot() returns (insts: seq<Instance>)
      requires IdsMatch(instances)
      ensures forall i :: 0 <= i < |insts| ==> insts[i].id in instances && insts[i] == instances[insts[i].id]
      ensures forall k :: k in instances ==> exists i :: 0 <= i < |insts| && insts[i].id == k
    {
      insts := [];
      var todo := instances.Keys;
      while todo != {}
        invariant todo <= instances.Keys
        invariant forall i :: 0 <= i < |insts| ==> insts[i].id in instances && insts[i] == instances[insts[i].id]
        invariant forall k :: k in instances && k !in todo ==> exists i :: 0 <= i < |insts| && insts[i].id == k
      {
        var k :| k in todo;
        ghost var before := insts;
        insts := insts + [instances[k]];
        assert insts[|before|].id == k;
        forall x | x in instances && x !in todo ensures exists i :: 0 <= i < |insts| && insts[i].id == x {
          var i :| 0 <= i < |before| && before[i].id == x;
          assert insts[i].id == x;
        }
        todo := todo - {k};
      }
    }

    /** SaveInstances of the active instances: replaces the whole table. */
    method SaveActive(insts: seq<Instance>)
      modifies `rows
      ensures forall r :: r in rows <==> exists i :: 0 <= i < |insts| && insts[i].state == Active && r == SaveRow(insts[i])
    {
      var out := [];
      for i := 0 to |insts|
        invariant forall r :: r in out <==> exists j :: 0 <= j < i && insts[j].state == Active && r == SaveRow(insts[j])
      {
        if insts[i].state == Active {
          out := out + [SaveRow(insts[i])];
        }
      }
      rows := out;
    }

    /** Tick: without definitions nothing happens; otherwise one pass over the
        readings, whose active result is persisted when the store lets it. */
    method Tick(defs: Option<seq<Definition>>, readings: map<string, seq<Reading>>, now: Time, saveOk: bool)
        returns (raised: seq<Instance>, cleared: seq<Instance>)
      modifies this
      ensures defs.None? ==>
        instances == old(instances) && rows == old(rows) && raised == [] && cleared == []
      ensures defs.Some? ==>
        Outcome(instances, raised, cleared) == Pass(Pairs(defs.value, readings), old(instances), now)
      ensures defs.Some? && saveOk ==> Stored(rows, instances)
      ensures !saveOk ==> rows == old(rows)
    {
      if defs.None? {
        return [], [];
      }
      var o := Evaluate(defs.value, readings, instances, now);
      PassIdsMatch(Pairs(defs.value, readings), instances, now);
      instances := o.next;
      var snapshot := Snapshot();
      if saveOk {
        SaveActive(snapshot);
        SavedIsStored(rows, snapshot, instances);
      }
      return o.raised, o.cleared;
    }

    /** Resume: puts every persisted instance back under its id; a failed load is passed
        over. */
    method Resume(loads: bool)
      modifies `instances
      ensures instances == if loads then LoadAll(old(instances), rows) else old(instances)
    {
      if !loads {
        return;
      }
      for i := 0 to |rows|
        invariant instances == LoadAll(old(instances), rows[..i])
      {
        var r := rows[i];
        assert rows[..i + 1][..i] == rows[..i];
        instances := instances[r.id := LoadRow(r)];
      }
      assert rows[..|rows|] == rows;
    }

    /** A process restart: a new engine over the same table resumes. When the table holds
        the live set, exactly its active instances are back. */
    method Restart(loads: bool)
      modifies `instances
      ensures instances == if loads then LoadAll(map[], rows) else map[]
      ensures loads && Stored(rows, old(instances)) ==> instances == Restarted(old(instances))
    {
      ghost var live := instances;
      instances := map[];
      Resume(loads);
      if Stored(rows, live) {
        ResumeAfterSave(rows, live);
      }
    }
  }

  lemma SavedIsStored(rows: seq<Row>, insts: seq<Instance>, m: map<string, Instance>)
    requires forall r :: r in rows <==> exists i :: 0 <= i < |insts| && insts[i].state == Active && r == SaveRow(insts[i])
    requires forall i :: 0 <= i < |insts| ==> insts[i].id in m && insts[i] == m[insts[i].id]
    requires forall k :: k in m ==> exists i :: 0 <= i < |insts| && insts[i].id == k
    ensures Stored(rows, m)
  {
    forall i | 0 <= i < |rows|
      ensures rows[i].id in m && m[rows[i].id].state == Active && rows[i] == SaveRow(m[rows[i].id])
    {
      assert rows[i] in rows;
    }
    forall k | k in m && m[k].state == Active ensures exists i :: 0 <= i < |rows| && rows[i].id == k {
      var i :| 0 <= i < |insts| && insts[i].id == k;
      assert SaveRow(insts[i]) in rows;
    }
  }

  /** A row keeps the raise time in whole seconds since 1970, rounded down, and the time of
      the last notification likewise, or zero if there was none. */
  lemma RowTimes(i: Instance)
    ensures FromUnix(SaveRow(i).raisedAt) <= i.raisedAt < FromUnix(SaveRow(i).raisedAt + 1)
    ensures i.lastNotifiedAt == ZERO_TIME ==> SaveRow(i).lastNotifiedAt == 0
    ensures i.lastNotifiedAt != ZERO_TIME ==>
      FromUnix(SaveRow(i).lastNotifiedAt) <= i.lastNotifiedAt < FromUnix(SaveRow(i).lastNotifiedAt + 1)
    ensures FromUnix(0) == 719162 * 24 * 60 * 60 * SECOND
  {}
}
