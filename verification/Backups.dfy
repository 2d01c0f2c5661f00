/** Backup, delete and prune as steps over backup rows and stored objects, each with
    the outcomes of the calls it makes, and what every run of such steps keeps. */
module Backups {
  import opened Wrappers
  import opened BackupKeys

  datatype Status = Pending | Completed | Failed

  datatype Row = Row(
    id: string,
    vmID: string,
    backendID: string,
    policyID: string,
    keyPrefix: string,
    disks: seq<string>,
    status: Status,
    createdAt: int)

  datatype Object = Object(backendID: string, key: string)

  datatype State = State(rows: map<string, Row>, objects: set<Object>)

  datatype Request = Request(vmID: string, backendID: string, policyID: string)

  /** How the calls a backup makes turn out: the provider is known and exports, the
      backend opens, the pending row is inserted, the disk image is exported, converted
      and staged, the disk upload succeeds, the manifest upload succeeds, an error mark
      on the row succeeds, the final row update succeeds. A failed upload or row update
      may still have taken effect. */
  datatype Outcomes = Outcomes(
    exports: bool,
    opens: bool,
    records: bool,
    stages: bool,
    uploads: bool,
    diskLands: bool,
    describes: bool,
    manifestLands: bool,
    marksError: bool,
    finalizes: bool,
    finalLands: bool)

  /** How the calls of one deletion turn out: the backend opens, its objects can be
      listed, each object's removal, and the removal of the row. */
  datatype Deletion = Deletion(opens: bool, lists: bool, removes: Object -> bool, unrecords: bool)

  function DiskOf(r: Row): Object {
    Object(r.backendID, r.keyPrefix + DISK_NAME)
  }

  function ManifestOf(r: Row): Object {
    Object(r.backendID, r.keyPrefix + MANIFEST_NAME)
  }

  function Fresh(req: Request, id: string, now: int): Row {
    Row(id, req.vmID, req.backendID, req.policyID, Prefix(req.vmID, now), [], Pending, now)
  }

  /** The object is among those a deletion of this row's artifacts goes for. */
  predicate Targeted(r: Row, lists: bool, o: Object) {
    o.backendID == r.backendID &&
    if lists then r.keyPrefix <= o.key else o.key in r.disks || o == ManifestOf(r)
  }

  // ----- the steps -----

  function AfterBackup(s: State, req: Request, id: string, now: int, o: Outcomes): State {
    if !o.exports || !o.opens || !o.records || id in s.rows then s
    else
      var r := Fresh(req, id, now);
      var disk := o.stages && (o.uploads || o.diskLands);
      var manifest := o.stages && o.uploads && (o.describes || o.manifestLands);
      var completed := o.stages && o.uploads && o.describes;
      State(
        s.rows[id :=
          if !completed then (if o.marksError then r.(status := Failed) else r)
          else if o.finalizes || o.finalLands then r.(status := Completed, disks := [DiskOf(r).key])
          else r],
        s.objects + (if disk then {DiskOf(r)} else {}) + (if manifest then {ManifestOf(r)} else {}))
  }

  predicate BackupSucceeds(s: State, id: string, o: Outcomes) {
    o.exports && o.opens && o.records && id !in s.rows && o.stages && o.uploads && o.describes && o.finalizes
  }

  function Removed(s: State, r: Row, d: Deletion): set<Object> {
    if d.opens then set o | o in s.objects && Targeted(r, d.lists, o) && d.removes(o) else {}
  }

  /** deleteBackupArtifactsAndRow. */
  function AfterDelete(s: State, r: Row, d: Deletion): State {
    State(if d.unrecords then s.rows - {r.id} else s.rows, s.objects - Removed(s, r, d))
  }

  /** Several rows one after the other. */
  function AfterDeletes(s: State, rows: seq<Row>, ds: nat -> Deletion): State {
    if |rows| == 0 then s
    else AfterDelete(AfterDeletes(s, rows[..|rows| - 1], ds), rows[|rows| - 1], ds(|rows| - 1))
  }

  /** Every one of the rows was still on record when its turn came, and was taken off. */
  predicate AllDeleted(s: State, rows: seq<Row>, ds: nat -> Deletion) {
    |rows| == 0 ||
    (AllDeleted(s, rows[..|rows| - 1], ds) &&
     ds(|rows| - 1).unrecords && rows[|rows| - 1].id in AfterDeletes(s, rows[..|rows| - 1], ds).rows)
  }

  /** The rows a prune goes for: all but the newest keep. */
  function Excess(listing: Option<seq<Row>>, keep: int): seq<Row> {
    if keep <= 0 || listing.None? || |listing.value| <= keep then []
    else listing.value[..|listing.value| - keep]
  }

  /** A policy's completed rows, oldest first. */
  ghost predicate ListsOldestFirst(s: State, policyID: string, listing: seq<Row>) {
    (forall i :: 0 <= i < |listing| ==> Belongs(s, policyID, listing[i])) &&
    (forall r :: Belongs(s, policyID, r) ==> r in listing) &&
    (forall i, j :: 0 <= i < j < |listing| ==> listing[i].id != listing[j].id && listing[i].createdAt <= listing[j].createdAt)
  }

  ghost predicate Belongs(s: State, policyID: string, r: Row) {
    r.id in s.rows && s.rows[r.id] == r && r.policyID == policyID && r.status == Completed
  }

  // ----- what a backup's rows and objects look like -----

  ghost predicate WellKept(r: Row, id: string) {
    r.id == id && r.keyPrefix == Prefix(r.vmID, r.createdAt) &&
    (forall k :: k in r.disks ==> k == DiskOf(r).key) && (r.status == Completed ==> r.disks == [DiskOf(r).key])
  }

  /** What t stored lies under r's prefix as well. */
  predicate Covers(r: Row, t: Row) {
    r.backendID == t.backendID && r.keyPrefix <= t.keyPrefix
  }

  predicate Clash(r: Row, t: Row) {
    Covers(r, t) || Covers(t, r)
  }

  ghost predicate WellFormed(s: State) {
    (forall id :: id in s.rows ==> WellKept(s.rows[id], id)) &&
    (forall i, j :: Apart(s, i, j))
  }

  predicate Apart(s: State, i: string, j: string) {
    i in s.rows && j in s.rows && i != j ==> !Clash(s.rows[i], s.rows[j])
  }

  /** The row's artifacts are all there. */
  predicate Intact(s: State, r: Row) {
    DiskOf(r) in s.objects && ManifestOf(r) in s.objects
  }

  /** Exactly the completed rows listed as spoiled miss an artifact. */
  ghost predicate Accounted(s: State, spoiled: set<string>) {
    forall id :: AccountedFor(s, id, spoiled)
  }

  predicate AccountedFor(s: State, id: string, spoiled: set<string>) {
    id in s.rows && s.rows[id].status == Completed ==> (Intact(s, s.rows[id]) <==> id !in spoiled)
  }

  lemma TargetsAreUnderPrefix(r: Row, id: string, lists: bool, o: Object)
    requires WellKept(r, id) && Targeted(r, lists, o)
    ensures r.keyPrefix <= o.key
  {
    UnderPrefix(r.keyPrefix, DISK_NAME);
    UnderPrefix(r.keyPrefix, MANIFEST_NAME);
  }

  /** Deleting one backup leaves every object of every other backup untouched. */
  lemma DeleteSparesOthers(s: State, r: Row, d: Deletion, other: Row, o: Object)
    requires WellKept(r, r.id) && WellKept(other, other.id) && !Clash(r, other)
    requires o in s.objects && o.backendID == other.backendID && other.keyPrefix <= o.key
    ensures o in AfterDelete(s, r, d).objects
  {
    if o in Removed(s, r, d) {
      TargetsAreUnderPrefix(r, r.id, d.lists, o);
      Comparable(r.keyPrefix, other.keyPrefix, o.key);
      assert false;
    }
  }

  /** In particular its disk and manifest; nor does it bring any back. */
  lemma DeleteKeepsIntact(s: State, r: Row, d: Deletion, other: Row)
    requires WellKept(r, r.id) && WellKept(other, other.id) && !Clash(r, other)
    ensures Intact(AfterDelete(s, r, d), other) <==> Intact(s, other)
  {
    UnderPrefix(other.keyPrefix, DISK_NAME);
    UnderPrefix(other.keyPrefix, MANIFEST_NAME);
    if Intact(s, other) {
      DeleteSparesOthers(s, r, d, other, DiskOf(other));
      DeleteSparesOthers(s, r, d, other, ManifestOf(other));
    }
  }

  /** A deletion whose calls all succeed removes the row and everything stored for it. */
  lemma DeleteIsComplete(s: State, r: Row, d: Deletion, o: Object)
    requires d.opens && d.lists && d.unrecords && (forall x :: d.removes(x))
    requires o.backendID == r.backendID && r.keyPrefix <= o.key
    ensures r.id !in AfterDelete(s, r, d).rows && o !in AfterDelete(s, r, d).objects
  {}

  /** Such a deletion of r leaves another backup's disk and manifest exactly when r does
      not cover it. */
  lemma FullDeletionSparesExactly(s: State, r: Row, d: Deletion, other: Row)
    requires d.opens && d.lists && (forall x :: d.removes(x)) && Intact(s, other)
    requires WellKept(r, r.id) && WellKept(other, other.id)
    ensures Intact(AfterDelete(s, r, d), other) <==> !Covers(r, other)
  {
    var p, q := r.keyPrefix, other.keyPrefix;
    if p <= q {
      assert p <= q + DISK_NAME;
    }
    if r.backendID == other.backendID && p <= DiskOf(other).key {
      PrefixEndsBefore(r.vmID, r.createdAt, q, DISK_NAME);
    }
    if r.backendID == other.backendID && p <= ManifestOf(other).key {
      PrefixEndsBefore(r.vmID, r.createdAt, q, MANIFEST_NAME);
    }
  }

  /** With VM ids free of slashes only a backup of the same VM on the same backend in the
      same second clashes. */
  lemma SlashFreeClash(r: Row, t: Row)
    requires WellKept(r, r.id) && WellKept(t, t.id) && '/' !in r.vmID && '/' !in t.vmID
    ensures Clash(r, t) <==> r.backendID == t.backendID && r.vmID == t.vmID && r.createdAt == t.createdAt
  {
    OnlyOwnCovered(r.vmID, r.createdAt, t.vmID, t.createdAt);
    OnlyOwnCovered(t.vmID, t.createdAt, r.vmID, r.createdAt);
  }

  // ----- runs -----

  datatype Step =
    | Backup(req: Request, id: string, now: int, outcomes: Outcomes)
    | Delete(id: string, found: bool, deletion: Deletion)
    | Prune(policyID: string, keep: int, listing: Option<seq<Row>>, deletions: nat -> Deletion)

  /** The new backup's prefix neither covers nor lies under that of one on record on the
      same backend; the store lists what it holds. */
  ghost predicate Admissible(s: State, step: Step) {
    match step
    case Backup(req, id, now, o) =>
      forall i :: i in s.rows ==> !Clash(s.rows[i], Fresh(req, id, now))
    case Delete(id, found, d) => true
    case Prune(policyID, keep, listing, ds) =>
      listing.Some? ==> ListsOldestFirst(s, policyID, listing.value)
  }

  function Next(s: State, step: Step): State {
    match step
    case Backup(req, id, now, o) => AfterBackup(s, req, id, now, o)
    case Delete(id, found, d) => if found && id in s.rows then AfterDelete(s, s.rows[id], d) else s
    case Prune(policyID, keep, listing, ds) => AfterDeletes(s, Excess(listing, keep), ds)
  }

  /** This deletion removes the row's disk or manifest and leaves the row on record. */
  predicate Spoils(s: State, r: Row, d: Deletion) {
    !d.unrecords && (DiskOf(r) in Removed(s, r, d) || ManifestOf(r) in Removed(s, r, d))
  }

  /** The row, if this deletion spoils it. */
  function SpoiledRow(s: State, r: Row, d: Deletion): set<string> {
    if Spoils(s, r, d) then {r.id} else {}
  }

  /** The rows that deletions one after the other spoil. */
  function SpoiledIn(s: State, rows: seq<Row>, ds: nat -> Deletion): set<string> {
    if |rows| == 0 then {}
    else
      var k := |rows| - 1;
      SpoiledIn(s, rows[..k], ds) + SpoiledRow(AfterDeletes(s, rows[..k], ds), rows[k], ds(k))
  }

  /** The rows a step spoils: it opens their backend, removes their disk or manifest
      object, and cannot take the row off the record. */
  function SpoiledBy(s: State, step: Step): set<string> {
    match step
    case Backup(req, id, now, o) => {}
    case Delete(id, found, d) => if found && id in s.rows then SpoiledRow(s, s.rows[id], d) else {}
    case Prune(policyID, keep, listing, ds) => SpoiledIn(s, Excess(listing, keep), ds)
  }

  const EMPTY := State(map[], {})

  function Run(steps: seq<Step>): State {
    if |steps| == 0 then EMPTY else Next(Run(steps[..|steps| - 1]), steps[|steps| - 1])
  }

  /** The rows spoiled so far and still the same row on record. */
  function Spoiled(steps: seq<Step>): set<string> {
    if |steps| == 0 then {}
    else
      var before := steps[..|steps| - 1];
      set id | id in Spoiled(before) + SpoiledBy(Run(before), steps[|steps| - 1]) && id in Run(steps).rows
  }

  /** Some step spoiled the row, which has been on record ever since. */
  ghost predicate WasSpoiled(steps: seq<Step>, id: string) {
    exists n :: SpoiledAt(steps, n, id)
  }

  ghost predicate SpoiledAt(steps: seq<Step>, n: int, id: string) {
    0 <= n < |steps| && SpoiledStep(steps, n, id) && forall m :: n < m <= |steps| ==> OnRecord(steps, m, id)
  }

  ghost predicate SpoiledStep(steps: seq<Step>, n: int, id: string)
    requires 0 <= n < |steps|
  {
    id in SpoiledBy(Run(steps[..n]), steps[n])
  }

  ghost predicate OnRecord(steps: seq<Step>, m: int, id: string)
    requires 0 <= m <= |steps|
  {
    id in Run(steps[..m]).rows
  }

  lemma SamePast(steps: seq<Step>, m: nat, id: string)
    requires m < |steps|
    ensures OnRecord(steps[..|steps| - 1], m, id) <==> OnRecord(steps, m, id)
    ensures m < |steps| - 1 ==> (SpoiledStep(steps[..|steps| - 1], m, id) <==> SpoiledStep(steps, m, id))
  {
    assert steps[..|steps| - 1][..m] == steps[..m];
  }

  lemma OnRecordNow(steps: seq<Step>, id: string)
    ensures OnRecord(steps, |steps|, id) <==> id in Run(steps).rows
  {
    assert steps[..|steps|] == steps;
  }

  lemma SpoiledThen(steps: seq<Step>, n: nat, id: string)
    requires n < |steps| - 1 && SpoiledAt(steps[..|steps| - 1], n, id) && id in Run(steps).rows
    ensures SpoiledAt(steps, n, id)
  {
    SamePast(steps, n, id);
    forall m | n < m <= |steps|
      ensures OnRecord(steps, m, id)
    {
      if m == |steps| {
        OnRecordNow(steps, id);
      } else {
        SamePast(steps, m, id);
      }
    }
  }

  lemma SpoiledBefore(steps: seq<Step>, n: nat, id: string)
    requires n < |steps| - 1 && SpoiledAt(steps, n, id)
    ensures SpoiledAt(steps[..|steps| - 1], n, id) && id in Run(steps).rows
  {
    SamePast(steps, n, id);
    OnRecordNow(steps, id);
    var before := steps[..|steps| - 1];
    forall m | n < m <= |before|
      ensures OnRecord(before, m, id)
    {
      SamePast(steps, m, id);
    }
  }

  lemma SpoiledLast(steps: seq<Step>, id: string)
    requires |steps| > 0
    ensures SpoiledAt(steps, |steps| - 1, id) <==>
      id in SpoiledBy(Run(steps[..|steps| - 1]), steps[|steps| - 1]) && id in Run(steps).rows
  {
    OnRecordNow(steps, id);
  }

  lemma {:induction false} SpoiledMeans(steps: seq<Step>, id: string)
    ensures id in Spoiled(steps) <==> WasSpoiled(steps, id)
  {
    if |steps| > 0 {
      SpoiledMeans(steps[..|steps| - 1], id);
      SpoiledLast(steps, id);
      if id in Spoiled(steps) && WasSpoiled(steps[..|steps| - 1], id) {
        var n :| SpoiledAt(steps[..|steps| - 1], n, id);
        SpoiledThen(steps, n, id);
      }
      if WasSpoiled(steps, id) {
        var n :| SpoiledAt(steps, n, id);
        if n < |steps| - 1 {
          SpoiledBefore(steps, n, id);
        }
      }
    }
  }

  ghost predicate AllAdmissible(steps: seq<Step>) {
    forall n :: 0 <= n < |steps| ==> Admissible(Run(steps[..n]), steps[n])
  }

  lemma FewerRows(s: State, t: State)
    requires WellFormed(s) && forall id :: id in t.rows ==> id in s.rows && t.rows[id] == s.rows[id]
    ensures WellFormed(t)
  {
    forall i, j
      ensures Apart(t, i, j)
    {
      assert Apart(s, i, j);
    }
  }

  lemma RowAdded(s: State, t: State, r: Row)
    requires WellFormed(s) && WellKept(r, r.id) && r.id !in s.rows && t.rows == s.rows[r.id := r]
    requires forall i :: i in s.rows ==> !Clash(s.rows[i], r)
    ensures WellFormed(t)
  {
    forall i, j
      ensures Apart(t, i, j)
    {
      assert Apart(s, i, j);
    }
  }

  lemma BackupKeepsOthers(s: State, req: Request, id: string, now: int, o: Outcomes, i: string)
    requires Admissible(s, Backup(req, id, now, o)) && i in s.rows && id !in s.rows
    ensures i in AfterBackup(s, req, id, now, o).rows && AfterBackup(s, req, id, now, o).rows[i] == s.rows[i]
    ensures Intact(AfterBackup(s, req, id, now, o), s.rows[i]) <==> Intact(s, s.rows[i])
  {
    UploadsElsewhere(s.rows[i], Fresh(req, id, now));
  }

  lemma BackupKeepsAccount(s: State, req: Request, id: string, now: int, o: Outcomes, spoiled: set<string>)
    requires WellFormed(s) && Accounted(s, spoiled) && Admissible(s, Backup(req, id, now, o)) && spoiled <= s.rows.Keys
    ensures WellFormed(AfterBackup(s, req, id, now, o)) && Accounted(AfterBackup(s, req, id, now, o), spoiled)
  {
    var t := AfterBackup(s, req, id, now, o);
    if t != s {
      RowAdded(s, t, t.rows[id]);
      forall i
        ensures AccountedFor(t, i, spoiled)
      {
        assert AccountedFor(s, i, spoiled);
        if i in s.rows {
          BackupKeepsOthers(s, req, id, now, o, i);
        }
      }
    }
  }

  /** What a backup uploads is not another row's disk or manifest. */
  lemma UploadsElsewhere(other: Row, r: Row)
    requires !Clash(other, r)
    ensures DiskOf(other) != DiskOf(r) && DiskOf(other) != ManifestOf(r)
    ensures ManifestOf(other) != DiskOf(r) && ManifestOf(other) != ManifestOf(r)
  {
    UnderPrefix(other.keyPrefix, DISK_NAME);
    UnderPrefix(other.keyPrefix, MANIFEST_NAME);
    UnderPrefix(r.keyPrefix, DISK_NAME);
    UnderPrefix(r.keyPrefix, MANIFEST_NAME);
    if DiskOf(other) in {DiskOf(r), ManifestOf(r)} {
      Comparable(other.keyPrefix, r.keyPrefix, DiskOf(other).key);
    }
    if ManifestOf(other) in {DiskOf(r), ManifestOf(r)} {
      Comparable(other.keyPrefix, r.keyPrefix, ManifestOf(other).key);
    }
  }

  lemma DeleteAccountsFor(s: State, r: Row, d: Deletion, spoiled: set<string>, id: string)
    requires WellKept(r, r.id) && (r.id in s.rows ==> s.rows[r.id] == r) && AccountedFor(s, id, spoiled)
    requires id in s.rows && id != r.id ==> WellKept(s.rows[id], id) && !Clash(r, s.rows[id])
    ensures AccountedFor(AfterDelete(s, r, d), id, spoiled + SpoiledRow(s, r, d))
  {
    if id in s.rows && id != r.id {
      DeleteKeepsIntact(s, r, d, s.rows[id]);
    }
  }

  lemma DeleteKeepsAccount(s: State, r: Row, d: Deletion, spoiled: set<string>)
    requires WellFormed(s) && Accounted(s, spoiled) && WellKept(r, r.id)
    requires r.id in s.rows ==> s.rows[r.id] == r
    requires forall id :: id in s.rows && id != r.id ==> !Clash(r, s.rows[id])
    ensures WellFormed(AfterDelete(s, r, d))
    ensures Accounted(AfterDelete(s, r, d), spoiled + SpoiledRow(s, r, d))
  {
    var t, more := AfterDelete(s, r, d), spoiled + SpoiledRow(s, r, d);
    FewerRows(s, t);
    forall id
      ensures AccountedFor(t, id, more)
    {
      assert AccountedFor(s, id, spoiled);
      DeleteAccountsFor(s, r, d, spoiled, id);
    }
  }

  /** Deletions never add or change rows. */
  lemma {:induction false} DeletesShrink(s: State, rows: seq<Row>, ds: nat -> Deletion)
    ensures forall id :: id in AfterDeletes(s, rows, ds).rows ==>
      id in s.rows && AfterDeletes(s, rows, ds).rows[id] == s.rows[id]
    ensures AfterDeletes(s, rows, ds).objects <= s.objects
  {
    if |rows| > 0 {
      DeletesShrink(s, rows[..|rows| - 1], ds);
    }
  }

  lemma NoneClash(s: State, t: State, r: Row)
    requires WellFormed(s) && r.id in s.rows && s.rows[r.id] == r
    requires forall id :: id in t.rows ==> id in s.rows && t.rows[id] == s.rows[id]
    ensures WellKept(r, r.id) && (r.id in t.rows ==> t.rows[r.id] == r)
    ensures forall id :: id in t.rows && id != r.id ==> !Clash(r, t.rows[id])
  {
    forall id | id in t.rows && id != r.id
      ensures !Clash(r, t.rows[id])
    {
      assert Apart(s, r.id, id);
    }
  }

  lemma OneMoreDeletion(s: State, t: State, r: Row, d: Deletion, spoiled: set<string>, next: State, more: set<string>)
    requires WellFormed(s) && r.id in s.rows && s.rows[r.id] == r
    requires forall id :: id in t.rows ==> id in s.rows && t.rows[id] == s.rows[id]
    requires WellFormed(t) && Accounted(t, spoiled) && next == AfterDelete(t, r, d) && more == spoiled + SpoiledRow(t, r, d)
    ensures WellFormed(next) && Accounted(next, more)
  {
    NoneClash(s, t, r);
    DeleteKeepsAccount(t, r, d, spoiled);
  }

  /** What the last of several deletions adds. */
  lemma LastDeletion(s: State, rows: seq<Row>, ds: nat -> Deletion, spoiled: set<string>)
    requires |rows| > 0
    ensures
      var k := |rows| - 1;
      var t := AfterDeletes(s, rows[..k], ds);
      AfterDeletes(s, rows, ds) == AfterDelete(t, rows[k], ds(k)) &&
      spoiled + SpoiledIn(s, rows, ds) == (spoiled + SpoiledIn(s, rows[..k], ds)) + SpoiledRow(t, rows[k], ds(k))
  {}

  lemma {:induction false} DeletesKeepAccount(s: State, rows: seq<Row>, ds: nat -> Deletion, spoiled: set<string>)
    requires WellFormed(s) && Accounted(s, spoiled)
    requires forall i :: 0 <= i < |rows| ==> rows[i].id in s.rows && s.rows[rows[i].id] == rows[i]
    ensures WellFormed(AfterDeletes(s, rows, ds))
    ensures Accounted(AfterDeletes(s, rows, ds), spoiled + SpoiledIn(s, rows, ds))
  {
    if |rows| > 0 {
      var k := |rows| - 1;
      var t, sofar := AfterDeletes(s, rows[..k], ds), spoiled + SpoiledIn(s, rows[..k], ds);
      DeletesKeepAccount(s, rows[..k], ds, spoiled);
      DeletesShrink(s, rows[..k], ds);
      LastDeletion(s, rows, ds, spoiled);
      OneMoreDeletion(s, t, rows[k], ds(k), sofar, AfterDeletes(s, rows, ds), spoiled + SpoiledIn(s, rows, ds));
    } else {
      assert spoiled + SpoiledIn(s, rows, ds) == spoiled;
    }
  }

  lemma StepKeepsAccount(s: State, step: Step, spoiled: set<string>)
    requires WellFormed(s) && Accounted(s, spoiled) && Admissible(s, step) && spoiled <= s.rows.Keys
    ensures WellFormed(Next(s, step)) && Accounted(Next(s, step), spoiled + SpoiledBy(s, step))
  {
    match step
    case Backup(req, id, now, o) =>
      BackupKeepsAccount(s, req, id, now, o, spoiled);
      assert spoiled + {} == spoiled;
    case Delete(id, found, d) =>
      if found && id in s.rows {
        NoneClash(s, s, s.rows[id]);
        DeleteKeepsAccount(s, s.rows[id], d, spoiled);
      } else {
        assert spoiled + {} == spoiled;
      }
    case Prune(policyID, keep, listing, ds) =>
      var rows := Excess(listing, keep);
      forall i | 0 <= i < |rows|
        ensures rows[i].id in s.rows && s.rows[rows[i].id] == rows[i]
      {
        assert Belongs(s, policyID, listing.value[i]);
      }
      DeletesKeepAccount(s, rows, ds, spoiled);
  }

  lemma {:induction false} RunIsAccounted(steps: seq<Step>)
    requires AllAdmissible(steps)
    ensures WellFormed(Run(steps)) && Accounted(Run(steps), Spoiled(steps)) && Spoiled(steps) <= Run(steps).rows.Keys
  {
    if |steps| > 0 {
      var before, last := steps[..|steps| - 1], steps[|steps| - 1];
      forall n | 0 <= n < |before|
        ensures Admissible(Run(before[..n]), before[n])
      {
        assert before[..n] == steps[..n];
      }
      RunIsAccounted(before);
      StepKeepsAccount(Run(before), last, Spoiled(before));
      OnlyRowsCount(Run(steps), Spoiled(before) + SpoiledBy(Run(before), last));
    }
  }

  lemma OnlyRowsCount(s: State, spoiled: set<string>)
    requires Accounted(s, spoiled)
    ensures Accounted(s, set id | id in spoiled && id in s.rows)
  {
    var kept := set id | id in spoiled && id in s.rows;
    forall id
      ensures AccountedFor(s, id, kept)
    {
      assert AccountedFor(s, id, spoiled);
    }
  }

  /** Over every run of backups, deletions and prunes, whatever calls fail: a row marked
      completed has lost its manifest or disk image exactly when some step since it went on
      record opened its backend, removed one of the two, and could not remove the row. */
  lemma CompletedStaysRestorable(steps: seq<Step>, id: string)
    requires AllAdmissible(steps)
    requires id in Run(steps).rows && Run(steps).rows[id].status == Completed
    ensures Intact(Run(steps), Run(steps).rows[id]) <==> !WasSpoiled(steps, id)
  {
    RunIsAccounted(steps);
    assert AccountedFor(Run(steps), id, Spoiled(steps));
    SpoiledMeans(steps, id);
  }

  /** This does happen: such a row stays completed without its artifacts. */
  lemma RowOutlivesArtifacts()
    ensures
      var all := Outcomes(true, true, true, true, true, true, true, true, true, true, true);
      var steps := [
        Backup(Request("vm", "backend", "policy"), "b1", 0, all),
        Delete("b1", true, Deletion(true, true, o => true, false))];
      AllAdmissible(steps) && "b1" in Run(steps).rows && Run(steps).rows["b1"].status == Completed &&
      !Intact(Run(steps), Run(steps).rows["b1"])
  {
    var all := Outcomes(true, true, true, true, true, true, true, true, true, true, true);
    var backup := Backup(Request("vm", "backend", "policy"), "b1", 0, all);
    var delete := Delete("b1", true, Deletion(true, true, o => true, false));
    var steps := [backup, delete];
    assert steps[..1] == [backup] && steps[..0] == [] && [backup][..0] == [];
    assert Run([]) == EMPTY;
    var s := Run([backup]);
    assert s == Next(EMPTY, backup);
    assert Run(steps) == Next(s, delete);
    var r := s.rows["b1"];
    UnderPrefix(r.keyPrefix, DISK_NAME);
    assert Targeted(r, true, DiskOf(r));
  }

  // ----- pruning -----

  lemma {:induction false} DeletesRemoveRows(s: State, rows: seq<Row>, ds: nat -> Deletion, id: string)
    requires id in s.rows
    ensures id in AfterDeletes(s, rows, ds).rows <==>
      forall i: nat :: i < |rows| && rows[i].id == id ==> !ds(i).unrecords
  {
    if |rows| > 0 {
      var before := rows[..|rows| - 1];
      DeletesRemoveRows(s, before, ds, id);
      assert forall i: nat :: i < |before| ==> rows[i] == before[i];
    }
  }

  /** keep different rows of the policy that stay and are all as new as r. */
  ghost predicate Newest(s: State, t: State, policyID: string, keep: int, newest: seq<Row>, r: Row) {
    |newest| == keep &&
    (forall i, j :: 0 <= i < j < |newest| ==> newest[i].id != newest[j].id) &&
    forall j :: 0 <= j < |newest| ==>
      Belongs(s, policyID, newest[j]) && newest[j].id in t.rows && r.createdAt <= newest[j].createdAt
  }

  /** A row of the newest keep is not among those a prune goes for, so it stays. */
  lemma TailRowStays(s: State, policyID: string, keep: int, listing: seq<Row>, ds: nat -> Deletion, k: nat, n: nat)
    requires ListsOldestFirst(s, policyID, listing) && 0 < keep && k < |listing| - keep <= n < |listing|
    ensures Belongs(s, policyID, listing[n]) && listing[k].createdAt <= listing[n].createdAt
    ensures listing[n].id in AfterDeletes(s, Excess(Some(listing), keep), ds).rows
  {
    assert Belongs(s, policyID, listing[n]);
    DeletesRemoveRows(s, Excess(Some(listing), keep), ds, listing[n].id);
  }

  lemma TailIsNewest(s: State, policyID: string, keep: int, listing: seq<Row>, ds: nat -> Deletion, k: nat)
    requires ListsOldestFirst(s, policyID, listing) && 0 < keep && k < |listing| - keep
    ensures
      Newest(s, AfterDeletes(s, Excess(Some(listing), keep), ds), policyID, keep, listing[|listing| - keep..], listing[k])
  {
    var newest := listing[|listing| - keep..];
    var t := AfterDeletes(s, Excess(Some(listing), keep), ds);
    forall j | 0 <= j < |newest|
      ensures Belongs(s, policyID, newest[j]) && newest[j].id in t.rows && listing[k].createdAt <= newest[j].createdAt
    {
      TailRowStays(s, policyID, keep, listing, ds, k, |listing| - keep + j);
    }
  }

  /** A prune touches only completed rows of its own policy, and never one of the newest
      keep: each row it takes off the record has at least keep rows as new as itself that
      all stay. When no row removal fails, exactly the newest keep remain. */
  lemma PruneKeepsTheNewest(s: State, policyID: string, keep: int, listing: seq<Row>, ds: nat -> Deletion, id: string)
    requires ListsOldestFirst(s, policyID, listing) && id in s.rows && s.rows[id].id == id
    ensures
      var t := AfterDeletes(s, Excess(Some(listing), keep), ds);
      (!Belongs(s, policyID, s.rows[id]) ==> id in t.rows) &&
      (keep > 0 && id !in t.rows ==> exists newest: seq<Row> :: Newest(s, t, policyID, keep, newest, s.rows[id])) &&
      (forall i :: 0 <= i < |listing| && listing[i].id == id && (keep <= 0 || |listing| <= keep + i) ==> id in t.rows) &&
      (forall i :: 0 <= i < |listing| - keep && keep > 0 && listing[i].id == id && ds(i).unrecords ==> id !in t.rows)
  {
    var rows := Excess(Some(listing), keep);
    DeletesRemoveRows(s, rows, ds, id);
    forall i: nat | i < |rows| && rows[i].id == id
      ensures Belongs(s, policyID, s.rows[id]) && rows[i] == s.rows[id]
    {
      assert Belongs(s, policyID, listing[i]);
    }
    if keep > 0 && id !in AfterDeletes(s, rows, ds).rows {
      var k: nat :| k < |rows| && rows[k].id == id;
      TailIsNewest(s, policyID, keep, listing, ds, k);
    }
  }

  /** When the backend cannot list its objects, a deletion goes for what the row names: the
      recorded disks and the manifest, and nothing else. */
  lemma DeleteWithoutListing(s: State, r: Row, d: Deletion, o: Object)
    requires d.opens && !d.lists && (forall x :: d.removes(x)) && o in s.objects
    ensures o in AfterDelete(s, r, d).objects <==>
      o.backendID != r.backendID || (o.key !in r.disks && o.key != r.keyPrefix + "manifest.json")
  {}

  /** A prune of rows on record, each once, succeeds exactly when every row removal does. */
  lemma {:induction false} AllDeletedExactly(s: State, rows: seq<Row>, ds: nat -> Deletion)
    requires forall i :: 0 <= i < |rows| ==> rows[i].id in s.rows
    requires forall i, j :: 0 <= i < j < |rows| ==> rows[i].id != rows[j].id
    ensures AllDeleted(s, rows, ds) <==> forall i: nat :: i < |rows| ==> ds(i).unrecords
  {
    if |rows| > 0 {
      var k := |rows| - 1;
      var before := rows[..k];
      AllDeletedExactly(s, before, ds);
      DeletesRemoveRows(s, before, ds, rows[k].id);
      assert forall i: nat :: i < k ==> before[i].id != rows[k].id;
    }
  }
}
