/** The backup engine's steps as they run: one effect after another on the store's rows
    and the backends' objects. */
module BackupEngine {
  import opened Wrappers
  import opened BackupKeys
  import opened Backups
  import opened BackupRecords

  datatype BackupError = UnknownProvider | NoBackend | NotRecorded | NotUploaded | NoManifest | NotFinalized

  class Engine {
    var rows: map<string, Row>
    var objects: set<Object>

    ghost function Abs(): State
      reads this
    {
      State(rows, objects)
    }

    constructor ()
      ensures Abs() == EMPTY
    {
      rows, objects := map[], {};
    }

    /** An upload: a failed one may or may not leave the object behind. */
    method PutObject(o: Object, succeeds: bool, lands: bool) returns (ok: bool)
      modifies `objects
      ensures ok == succeeds
      ensures objects == old(objects) + if succeeds || lands then {o} else {}
    {
      ok := succeeds;
      if succeeds || lands {
        objects := objects + {o};
      }
    }

    /** UpdateBackupResult on a row that exists. */
    method UpdateRow(r: Row, succeeds: bool, lands: bool) returns (ok: bool)
      modifies `rows
      ensures ok == succeeds
      ensures rows == if succeeds || lands then old(rows)[r.id := r] else old(rows)
    {
      ok := succeeds;
      if succeeds || lands {
        rows := rows[r.id := r];
      }
    }

    /** exportAndUpload: the combined image is stored as disk 0. */
    method ExportAndUpload(r: Row, o: Outcomes) returns (disks: Option<seq<string>>)
      modifies `objects
      ensures disks == if o.stages && o.uploads then Some([DiskOf(r).key]) else None
      ensures objects == old(objects) + if o.stages && (o.uploads || o.diskLands) then {DiskOf(r)} else {}
    {
      if !o.stages {
        return None;
      }
      var key := r.keyPrefix + DISK_NAME;
      var ok := PutObject(Object(r.backendID, key), o.uploads, o.diskLands);
      if !ok {
        return None;
      }
      return Some([key]);
    }

    method BackupNow(req: Request, id: string, now: int, o: Outcomes) returns (r: Result<Row, BackupError>)
      modifies this
      ensures Abs() == AfterBackup(old(Abs()), req, id, now, o)
      ensures r.Ok? <==> BackupSucceeds(old(Abs()), id, o)
      ensures r.Ok? ==> id in rows && rows[id] == r.value && r.value.status == Completed && Intact(Abs(), r.value)
      ensures r.Ok? ==> AsAsked(r.value, req, id, now)
    {
      if !o.exports {
        return Err(UnknownProvider);
      }
      if !o.opens {
        return Err(NoBackend);
      }
      var rec := Fresh(req, id, now);
      if !o.records || id in rows {
        return Err(NotRecorded);
      }
      rows := rows[id := rec];
      var disks := ExportAndUpload(rec, o);
      if disks.None? {
        var marked := UpdateRow(rec.(status := Failed), o.marksError, false);
        return Err(NotUploaded);
      }
      var put := PutObject(ManifestOf(rec), o.describes, o.manifestLands);
      if !put {
        var marked := UpdateRow(rec.(status := Failed), o.marksError, false);
        return Err(NoManifest);
      }
      rec := rec.(disks := disks.value, status := Completed);
      FinalIsAsAsked(req, id, now, rec);
      var finalized := UpdateRow(rec, o.finalizes, o.finalLands);
      if !finalized {
        return Err(NotFinalized);
      }
      return Ok(rec);
    }

    /** Removes the listed objects one by one, in an arbitrary order; a removal that
        fails is passed over. */
    method DeleteObjects(listed: set<Object>, removes: Object -> bool)
      modifies `objects
      ensures objects == old(objects) - set o | o in listed && removes(o)
    {
      var todo := listed;
      while todo != {}
        invariant todo <= listed
        invariant objects == old(objects) - set o | o in listed - todo && removes(o)
        decreases |todo|
      {
        var o :| o in todo;
        todo := todo - {o};
        if removes(o) {
          objects := objects - {o};
        }
      }
    }

    method DeleteBackupArtifactsAndRow(r: Row, d: Deletion) returns (ok: bool)
      modifies this
      ensures Abs() == AfterDelete(old(Abs()), r, d)
      ensures ok == (d.unrecords && r.id in old(rows))
    {
      ghost var before := Abs();
      if d.opens {
        if d.lists {
          var listed := set o | o in objects && o.backendID == r.backendID && r.keyPrefix <= o.key;
          DeleteObjects(listed, d.removes);
        } else {
          var known := (set k | k in r.disks :: Object(r.backendID, k)) + {ManifestOf(r)};
          DeleteObjects(known, d.removes);
        }
      }
      assert objects == before.objects - Removed(before, r, d);
      ok := d.unrecords && r.id in rows;
      if d.unrecords {
        rows := rows - {r.id};
      }
    }

    method DeleteBackup(id: string, found: bool, d: Deletion) returns (ok: bool)
      modifies this
      ensures Abs() == Next(old(Abs()), Delete(id, found, d))
      ensures ok <==> found && id in old(rows) && d.unrecords && old(rows)[id].id in old(rows)
    {
      if !found || id !in rows {
        return false;
      }
      ok := DeleteBackupArtifactsAndRow(rows[id], d);
    }

    /** pruneRetention. The first error is kept; the rest of the rows are still visited. */
    method PruneRetention(policyID: string, keep: int, listing: Option<seq<Row>>, ds: nat -> Deletion) returns (ok: bool)
      modifies this
      ensures Abs() == Next(old(Abs()), Prune(policyID, keep, listing, ds))
      ensures ok <==> keep <= 0 || (listing.Some? && AllDeleted(old(Abs()), Excess(listing, keep), ds))
    {
      if keep <= 0 {
        return true;
      }
      if listing.None? {
        return false;
      }
      if |listing.value| <= keep {
        return true;
      }
      var excess := listing.value[..|listing.value| - keep];
      ok := true;
      for i := 0 to |excess|
        invariant Abs() == AfterDeletes(old(Abs()), excess[..i], ds)
        invariant ok <==> AllDeleted(old(Abs()), excess[..i], ds)
      {
        assert excess[..i + 1][..i] == excess[..i];
        var deleted := DeleteBackupArtifactsAndRow(excess[i], ds(i));
        ok := ok && deleted;
      }
      assert excess[..|excess|] == excess;
    }
  }
}
