/** Backup rows and stored objects in terms of the backups that were asked for. */
module BackupRecords {
  import opened Wrappers
  import opened Strings
  import opened BackupKeys
  import opened Backups

  /** The key of an artifact, spelled out. */
  function KeyFor(vmID: string, at: int, name: string): string {
    "vm/" + vmID + "/" + Itoa(at) + "/" + name
  }

  lemma Associate(a: string, b: string, c: string, d: string, e: string, f: string)
    ensures (a + (b + (c + (d + e)))) + f == a + b + c + d + e + f
  {
    assert (a + (b + (c + (d + e)))) == a + b + c + d + e;
  }

  lemma KeyIsSpelled(vmID: string, at: int, name: string)
    ensures Prefix(vmID, at) + name == KeyFor(vmID, at, name)
  {
    Associate("vm/", vmID, ['/'], Itoa(at), ['/'], name);
  }

  /** The row is of the VM, backend, policy and time that were asked for, and its artifacts
      are expected below vm/, the VM's id and the second. */
  predicate AsAsked(r: Row, req: Request, id: string, now: int) {
    r.id == id && r.vmID == req.vmID && r.backendID == req.backendID && r.policyID == req.policyID && r.createdAt == now &&
    DiskOf(r) == Object(req.backendID, KeyFor(req.vmID, now, "disk-0.qcow2")) &&
    ManifestOf(r) == Object(req.backendID, KeyFor(req.vmID, now, "manifest.json"))
  }

  lemma FinalIsAsAsked(req: Request, id: string, now: int, r: Row)
    requires r == Fresh(req, id, now).(disks := r.disks, status := r.status)
    ensures AsAsked(r, req, id, now)
  {
    KeyIsSpelled(req.vmID, now, "disk-0.qcow2");
    KeyIsSpelled(req.vmID, now, "manifest.json");
  }

  /** Both uploads were reported as done and the final row update took effect. */
  predicate Finished(o: Outcomes) {
    o.exports && o.opens && o.records && o.stages && o.uploads && o.describes && (o.finalizes || o.finalLands)
  }

  /** A backup that is recorded leaves the row that was asked for, completed exactly when
      it finished. */
  lemma RowIsAsAsked(s: State, req: Request, id: string, now: int, o: Outcomes)
    requires id !in s.rows
    ensures
      var t := AfterBackup(s, req, id, now, o);
      (id in t.rows <==> o.exports && o.opens && o.records) &&
      (id in t.rows ==>
         AsAsked(t.rows[id], req, id, now) && (t.rows[id].status == Completed <==> Finished(o)) &&
         (t.rows[id].status == Failed <==> !(o.stages && o.uploads && o.describes) && o.marksError) &&
         t.rows[id].disks == if Finished(o) then [DiskOf(t.rows[id]).key] else [])
  {
    var t := AfterBackup(s, req, id, now, o);
    if id in t.rows {
      FinalIsAsAsked(req, id, now, t.rows[id]);
    }
  }

  /** What a backup stores, whatever fails: the disk image once its upload was tried and has
      landed, the manifest once the disk upload was reported as done and its own has landed;
      nothing else is stored, and nothing is lost. */
  lemma StoresExactly(s: State, req: Request, id: string, now: int, o: Outcomes)
    requires id !in s.rows
    ensures
      var recorded := o.exports && o.opens && o.records;
      AfterBackup(s, req, id, now, o).objects == s.objects +
        (if recorded && o.stages && (o.uploads || o.diskLands)
         then {Object(req.backendID, KeyFor(req.vmID, now, "disk-0.qcow2"))} else {}) +
        (if recorded && o.stages && o.uploads && (o.describes || o.manifestLands)
         then {Object(req.backendID, KeyFor(req.vmID, now, "manifest.json"))} else {})
  {
    KeyIsSpelled(req.vmID, now, "disk-0.qcow2");
    KeyIsSpelled(req.vmID, now, "manifest.json");
  }

  /** After a successful backup the disk image and the manifest lie on the backend asked
      for, under the VM's id and the second. */
  lemma SuccessStoresAsAsked(s: State, req: Request, id: string, now: int, o: Outcomes)
    requires BackupSucceeds(s, id, o)
    ensures AfterBackup(s, req, id, now, o).objects == s.objects +
      {Object(req.backendID, KeyFor(req.vmID, now, "disk-0.qcow2")),
       Object(req.backendID, KeyFor(req.vmID, now, "manifest.json"))}
  {
    StoresExactly(s, req, id, now, o);
  }

  // ----- over runs -----

  /** Step n asked for this row. */
  ghost predicate AskedAt(steps: seq<Step>, n: int, r: Row) {
    0 <= n < |steps| && steps[n].Backup? && AsAsked(r, steps[n].req, steps[n].id, steps[n].now) &&
    (r.status == Completed <==> Finished(steps[n].outcomes))
  }

  ghost predicate Asked(steps: seq<Step>, r: Row) {
    exists n :: AskedAt(steps, n, r)
  }

  lemma StillAsked(steps: seq<Step>, r: Row)
    requires |steps| > 0 && Asked(steps[..|steps| - 1], r)
    ensures Asked(steps, r)
  {
    var n :| AskedAt(steps[..|steps| - 1], n, r);
    assert AskedAt(steps, n, r);
  }

  /** A step keeps a row as it is, removes it, or is the backup that asked for it. */
  lemma RowAfter(s: State, step: Step, id: string)
    requires id in Next(s, step).rows
    ensures (id in s.rows && Next(s, step).rows[id] == s.rows[id]) || (id !in s.rows && step.Backup? && step.id == id)
  {
    if step.Prune? {
      DeletesShrink(s, Excess(step.listing, step.keep), step.deletions);
    }
  }

  /** Every row on record is the one its backup step asked for, and is marked completed
      exactly when that backup finished, whatever else has happened since. */
  lemma {:induction false} RowsWereAsked(steps: seq<Step>, id: string)
    requires id in Run(steps).rows
    ensures Run(steps).rows[id].id == id && Asked(steps, Run(steps).rows[id])
  {
    var before, last := steps[..|steps| - 1], steps[|steps| - 1];
    RowAfter(Run(before), last, id);
    if id in Run(before).rows {
      RowsWereAsked(before, id);
      StillAsked(steps, Run(steps).rows[id]);
    } else {
      RowIsAsAsked(Run(before), last.req, id, last.now, last.outcomes);
      assert AskedAt(steps, |steps| - 1, Run(steps).rows[id]);
    }
  }

  /** Step n is a backup that stores o. */
  ghost predicate StoredAt(steps: seq<Step>, n: int, o: Object) {
    0 <= n < |steps| && steps[n].Backup? && o.backendID == steps[n].req.backendID &&
    o.key in {KeyFor(steps[n].req.vmID, steps[n].now, "disk-0.qcow2"), KeyFor(steps[n].req.vmID, steps[n].now, "manifest.json")}
  }

  lemma ObjectAfter(s: State, step: Step, o: Object)
    requires o in Next(s, step).objects
    ensures o in s.objects ||
      (step.Backup? && o.backendID == step.req.backendID &&
       o.key in {KeyFor(step.req.vmID, step.now, "disk-0.qcow2"), KeyFor(step.req.vmID, step.now, "manifest.json")})
  {
    match step
    case Backup(req, id, now, outcomes) =>
      KeyIsSpelled(req.vmID, now, "disk-0.qcow2");
      KeyIsSpelled(req.vmID, now, "manifest.json");
    case Delete(_, _, _) =>
    case Prune(_, keep, listing, ds) =>
      DeletesShrink(s, Excess(listing, keep), ds);
  }

  /** Every stored object is the disk image or the manifest of some backup step, on the
      backend and under the VM and second that were asked for. */
  lemma {:induction false} ObjectsWereAsked(steps: seq<Step>, o: Object)
    requires o in Run(steps).objects
    ensures exists n :: StoredAt(steps, n, o)
  {
    var before, last := steps[..|steps| - 1], steps[|steps| - 1];
    ObjectAfter(Run(before), last, o);
    if o in Run(before).objects {
      ObjectsWereAsked(before, o);
      var n :| StoredAt(before, n, o);
      assert StoredAt(steps, n, o);
    } else {
      assert StoredAt(steps, |steps| - 1, o);
    }
  }

  // ----- pruning the backups that were asked for -----

  /** The row of a finished backup of this policy, asked for no earlier than at. */
  ghost predicate NewerBackup(steps: seq<Step>, policyID: string, at: int, r: Row) {
    exists n :: AskedAt(steps, n, r) && Finished(steps[n].outcomes) && steps[n].req.policyID == policyID && steps[n].now >= at
  }

  /** After any run, a prune that takes a backup off the record leaves at least keep others,
      each of them a finished backup of the same policy asked for no earlier. */
  lemma PrunedHasNewerBackups(steps: seq<Step>, policyID: string, keep: int, listing: seq<Row>, ds: nat -> Deletion, id: string)
      returns (newest: seq<Row>)
    requires keep > 0 && ListsOldestFirst(Run(steps), policyID, listing) && id in Run(steps).rows
    requires id !in AfterDeletes(Run(steps), Excess(Some(listing), keep), ds).rows
    ensures |newest| == keep && forall i, j :: 0 <= i < j < |newest| ==> newest[i].id != newest[j].id
    ensures forall j :: 0 <= j < |newest| ==>
      newest[j].id in AfterDeletes(Run(steps), Excess(Some(listing), keep), ds).rows &&
      NewerBackup(steps, policyID, Run(steps).rows[id].createdAt, newest[j])
  {
    var s := Run(steps);
    RowsWereAsked(steps, id);
    PruneKeepsTheNewest(s, policyID, keep, listing, ds, id);
    var t := AfterDeletes(s, Excess(Some(listing), keep), ds);
    newest :| Newest(s, t, policyID, keep, newest, s.rows[id]);
    forall j | 0 <= j < |newest|
      ensures NewerBackup(steps, policyID, s.rows[id].createdAt, newest[j])
    {
      assert Belongs(s, policyID, newest[j]);
      RowsWereAsked(steps, newest[j].id);
      var n :| AskedAt(steps, n, newest[j]);
    }
  }
}
