/**
 Delete and restore as the file-system calls they make, with a crash possible
 between any two: `log` holds the disk after every call.
 */
module TrashProtocol {
  import opened DriveArchive
  import opened DriveInvariant
  import opened DriveModel
  import opened DriveSteps
  import opened DriveTrash
  import opened LogicalPath
  import opened Strings
  import opened Wrappers

  datatype Note = Note(orig: Path, versions: seq<Ref>, deletedAt: int)

  /** A file that may be half written. */
  datatype Draft = Whole(note: Note) | Torn

  /** The user's tree and `trash/<user>`: payloads `<id>`, sidecars `<id>.json.tmp`, notes `<id>.json`. */
  datatype Disk = Disk(
    files: map<Path, File>,
    payloads: map<Id, map<string, File>>,
    sidecars: map<Id, Draft>,
    notes: map<Id, Note>)

  datatype TrashError = Failed | DoubleFault

  /** Which calls fail, and whether a failed write leaves half a file. */
  datatype DeleteFaults = DeleteFaults(
    write: bool, torn: bool, move: bool, publish: bool, rollback: bool, cleanup: bool)

  // ---- what a disk shows ----

  /** What `ListTrash` lists; a note may outlive its payload. */
  function Items(k: Disk): map<Id, TrashItem> {
    map id | id in k.notes ::
      TrashItem(k.notes[id].orig, if id in k.payloads then k.payloads[id] else map[], k.notes[id].versions,
                k.notes[id].deletedAt)
  }

  /** Payloads that no note names. */
  function Stranded(k: Disk): map<Id, map<string, File>> {
    map id | id in k.payloads && id !in k.notes :: k.payloads[id]
  }

  /** The drive a disk stands for, with the index and the blobs of `d`. */
  function Shown(d: Drive, k: Disk): Drive {
    d.(files := k.files, trash := Items(k), stranded := Stranded(k))
  }

  /** Nothing but item `id` and the subtree at `path` differs from `k0`. */
  predicate OnlyItem(k0: Disk, k: Disk, id: Id) {
    k.payloads - {id} == k0.payloads - {id} && k.notes - {id} == k0.notes - {id} &&
    k.sidecars - {id} == k0.sidecars - {id}
  }

  /** The payload is at its original path and nowhere else. */
  predicate AtHome(k0: Disk, k: Disk, id: Id) {
    k.files == k0.files && id !in k.payloads
  }

  /** The payload is in the trash, whole, and nowhere else. */
  predicate InTrashDir(k0: Disk, k: Disk, path: Path, id: Id) {
    k.files == k0.files - Subtree(k0.files, path) && id in k.payloads && k.payloads[id] == Detach(k0.files, path)
  }

  /** What holds after every call of a delete: one place, and no note before the payload is there. */
  predicate DeletePoint(k0: Disk, k: Disk, path: Path, id: Id, note: Note) {
    && OnlyItem(k0, k, id)
    && (AtHome(k0, k, id) || InTrashDir(k0, k, path, id))
    && (id in k.notes ==> k.notes[id] == note && InTrashDir(k0, k, path, id))
  }

  lemma UnmovedPoint(k0: Disk, k: Disk, path: Path, id: Id, note: Note)
    requires id !in k0.payloads && id !in k0.notes
    requires k == k0.(sidecars := k.sidecars) && k.sidecars - {id} == k0.sidecars - {id}
    ensures DeletePoint(k0, k, path, id, note) && AtHome(k0, k, id)
  {
  }

  lemma MovedPoint(k0: Disk, k: Disk, path: Path, id: Id, note: Note)
    requires id !in k0.payloads && id !in k0.notes
    requires k.files == k0.files - Subtree(k0.files, path) && k.payloads == k0.payloads[id := Detach(k0.files, path)]
    requires k.sidecars - {id} == k0.sidecars - {id} && (k.notes == k0.notes || k.notes == k0.notes[id := note])
    ensures DeletePoint(k0, k, path, id, note) && InTrashDir(k0, k, path, id)
  {
    hide Subtree, Detach;
  }

  /** What holds after every call of a restore: one place, and the note outlives the move. */
  predicate RestorePoint(k0: Disk, k: Disk, dest: Path, id: Id)
    requires id in k0.payloads && id in k0.notes
  {
    && OnlyItem(k0, k, id)
    && ((k.files == k0.files && id in k.payloads && k.payloads[id] == k0.payloads[id] && id in k.notes) ||
        (k.files == Attach(k0.files, dest, k0.payloads[id]) && id !in k.payloads))
  }

  class TrashDir {
    var files: map<Path, File>
    var payloads: map<Id, map<string, File>>
    var sidecars: map<Id, Draft>
    var notes: map<Id, Note>
    ghost var log: seq<Disk>

    ghost function Now(): Disk
      reads this
    {
      Disk(files, payloads, sidecars, notes)
    }

    // ---- one call each ----

    method WriteSidecar(id: Id, note: Note, fails: bool, torn: bool)
      modifies this
      ensures Now() == old(Now()).(sidecars := sidecars) && sidecars - {id} == old(sidecars) - {id}
      ensures !fails ==> sidecars == old(sidecars)[id := Whole(note)]
      ensures log == old(log) + [Now()]
    {
      if !fails { sidecars := sidecars[id := Whole(note)]; } else if torn { sidecars := sidecars[id := Torn]; }
      log := log + [Now()];
    }

    method RemoveSidecar(id: Id, fails: bool)
      modifies this
      ensures Now() == old(Now()).(sidecars := sidecars) && sidecars - {id} == old(sidecars) - {id}
      ensures !fails ==> sidecars == old(sidecars) - {id}
      ensures log == old(log) + [Now()]
    {
      if !fails { sidecars := sidecars - {id}; }
      log := log + [Now()];
    }

    method MoveToTrash(path: Path, id: Id, fails: bool)
      modifies this
      ensures fails ==> Now() == old(Now())
      ensures !fails ==> Now() == old(Now()).(files := old(files) - Subtree(old(files), path),
                                                payloads := old(payloads)[id := Detach(old(files), path)])
      ensures log == old(log) + [Now()]
    {
      if !fails {
        var payload := Detach(files, path);
        files := files - Subtree(files, path);
        payloads := payloads[id := payload];
      }
      log := log + [Now()];
    }

    method MoveHome(dest: Path, id: Id, fails: bool)
      requires id in payloads
      modifies this
      ensures fails ==> Now() == old(Now())
      ensures !fails ==> Now() == old(Now()).(files := Attach(old(files), dest, old(payloads)[id]),
                                                payloads := old(payloads) - {id})
      ensures log == old(log) + [Now()]
    {
      if !fails {
        files := Attach(files, dest, payloads[id]);
        payloads := payloads - {id};
      }
      log := log + [Now()];
    }

    method Publish(id: Id, note: Note, fails: bool)
      requires id in sidecars && sidecars[id] == Whole(note)
      modifies this
      ensures fails ==> Now() == old(Now())
      ensures !fails ==> Now() == old(Now()).(sidecars := old(sidecars) - {id}, notes := old(notes)[id := note])
      ensures log == old(log) + [Now()]
    {
      if !fails {
        notes := notes[id := note];
        sidecars := sidecars - {id};
      }
      log := log + [Now()];
    }

    method RemoveNote(id: Id, fails: bool)
      modifies this
      ensures Now() == old(Now()).(notes := if fails then old(notes) else old(notes) - {id})
      ensures log == old(log) + [Now()]
    {
      if !fails { notes := notes - {id}; }
      log := log + [Now()];
    }

    // ---- the two protocols ----

    /** Sidecar first, then the payload, then the note; every failure rolls back. */
    method DeleteWithVersions(path: Path, id: Id, note: Note, f: DeleteFaults) returns (r: Result<Id, TrashError>)
      requires Subtree(files, path) != {} && id !in payloads && id !in sidecars && id !in notes
      modifies this
      ensures old(log) < log && log[|log| - 1] == Now()
      ensures forall i :: |old(log)| <= i < |log| ==> DeletePoint(old(Now()), log[i], path, id, note)
      ensures r.Ok? ==> InTrashDir(old(Now()), Now(), path, id) && notes == old(notes)[id := note] &&
                        sidecars == old(sidecars)
      ensures r == Err(Failed) ==> AtHome(old(Now()), Now(), id) && notes == old(notes)
      ensures r == Err(DoubleFault) ==> InTrashDir(old(Now()), Now(), path, id) && notes == old(notes)
      ensures r == Err(DoubleFault) <==> !f.write && !f.move && f.publish && f.rollback
      ensures r.Ok? <==> !f.write && !f.move && !f.publish
      ensures r.Err? && !f.cleanup ==> sidecars == old(sidecars)
    {
      hide Subtree, Detach, Attach, OnlyItem, DeletePoint;
      ghost var k0 := Now();
      WriteSidecar(id, note, f.write, f.torn);
      UnmovedPoint(k0, Now(), path, id, note);
      if f.write {
        RemoveSidecar(id, f.cleanup);
        UnmovedPoint(k0, Now(), path, id, note);
        return Err(Failed);
      }
      MoveToTrash(path, id, f.move);
      if f.move {
        RemoveSidecar(id, f.cleanup);
        UnmovedPoint(k0, Now(), path, id, note);
        return Err(Failed);
      }
      MovedPoint(k0, Now(), path, id, note);
      r := PublishOrRollBack(path, id, note, f, k0);
    }

    /** The last call of a delete, and what undoes the move when it fails. */
    method PublishOrRollBack(path: Path, id: Id, note: Note, f: DeleteFaults, ghost k0: Disk)
      returns (r: Result<Id, TrashError>)
      requires id !in k0.payloads && id !in k0.notes && id !in k0.sidecars
      requires Now() == Disk(k0.files - Subtree(k0.files, path), k0.payloads[id := Detach(k0.files, path)],
                             k0.sidecars[id := Whole(note)], k0.notes)
      requires log != [] && log[|log| - 1] == Now()
      modifies this
      ensures old(log) < log && log[|log| - 1] == Now()
      ensures forall i :: |old(log)| <= i < |log| ==> DeletePoint(k0, log[i], path, id, note)
      ensures r.Ok? ==> InTrashDir(k0, Now(), path, id) && notes == k0.notes[id := note] && sidecars == k0.sidecars
      ensures r == Err(Failed) ==> AtHome(k0, Now(), id) && notes == k0.notes
      ensures r == Err(DoubleFault) ==> InTrashDir(k0, Now(), path, id) && notes == k0.notes
      ensures r == Err(DoubleFault) <==> f.publish && f.rollback
      ensures r.Ok? <==> !f.publish
      ensures r.Err? && !f.cleanup ==> sidecars == k0.sidecars
    {
      hide Subtree, Detach, Attach, OnlyItem, DeletePoint, AtHome, InTrashDir;
      Publish(id, note, f.publish);
      MovedPoint(k0, Now(), path, id, note);
      if !f.publish { return Ok(id); }
      r := RollBack(path, id, note, f, k0);
    }

    /** The note was not published: bring the payload home, if that works. */
    method RollBack(path: Path, id: Id, note: Note, f: DeleteFaults, ghost k0: Disk) returns (r: Result<Id, TrashError>)
      requires id !in k0.payloads && id !in k0.notes && id !in k0.sidecars
      requires Now() == Disk(k0.files - Subtree(k0.files, path), k0.payloads[id := Detach(k0.files, path)],
                             k0.sidecars[id := Whole(note)], k0.notes)
      modifies this
      ensures old(log) < log && log[|log| - 1] == Now()
      ensures forall i :: |old(log)| <= i < |log| ==> DeletePoint(k0, log[i], path, id, note)
      ensures r == Err(if f.rollback then DoubleFault else Failed) && notes == k0.notes
      ensures if f.rollback then InTrashDir(k0, Now(), path, id) else AtHome(k0, Now(), id)
      ensures !f.cleanup ==> sidecars == k0.sidecars
    {
      hide Subtree, Detach, Attach, OnlyItem, DeletePoint, AtHome, InTrashDir;
      RemoveSidecar(id, f.cleanup);
      MovedPoint(k0, Now(), path, id, note);
      AttachBack(k0.files, path);
      MoveHome(path, id, f.rollback);
      if !f.rollback { UnmovedPoint(k0, Now(), path, id, note); }
      return Err(if f.rollback then DoubleFault else Failed);
    }

    /** Puts the payload back at `dest`, then drops the note. */
    method FinishRestore(id: Id, dest: Path, moveFails: bool, removeFails: bool) returns (ok: bool)
      requires id in payloads && id in notes && dest !in Occupied(files) && dest != ""
      requires PayloadShape(payloads[id])
      modifies this
      ensures old(log) < log && log[|log| - 1] == Now()
      ensures forall i :: |old(log)| <= i < |log| ==> RestorePoint(old(Now()), log[i], dest, id)
      ensures ok == !moveFails
      ensures !ok ==> Now() == old(Now())
      ensures ok ==>
                && files == Attach(old(files), dest, old(payloads)[id])
                && id !in payloads && (id in notes <==> removeFails)
      ensures forall p :: p in old(files) ==> p in files && files[p] == old(files)[p]
    {
      hide Attach, Occupied, PayloadShape;
      MoveHome(dest, id, moveFails);
      ok := !moveFails;
      if ok {
        AttachOverwritesNothing(old(files), dest, old(payloads)[id]);
        RemoveNote(id, removeFails);
      }
    }
  }

  // ---- what a crash leaves ----

  predicate OnDisk(k: Disk, b: Bytes) {
    InFiles(k.files, b) || exists id, s :: id in k.payloads && s in k.payloads[id] && k.payloads[id][s].bytes == b
  }

  /** Whatever call a delete died after, every byte that was on the disk still is. */
  lemma CrashedDeleteKeepsContent(k0: Disk, k: Disk, path: Path, id: Id, note: Note, b: Bytes)
    requires DeletePoint(k0, k, path, id, note) && id !in k0.payloads && OnDisk(k0, b)
    ensures OnDisk(k, b)
  {
    hide Subtree;
    if InFiles(k0.files, b) {
      var p :| p in k0.files && k0.files[p].bytes == b;
      if p in k.files && k.files[p] == k0.files[p] {
      } else {
        DetachTakes(k0.files, path);
        assert TrimPrefix(p, path) in k.payloads[id];
      }
    } else {
      var j, s :| j in k0.payloads && s in k0.payloads[j] && k0.payloads[j][s].bytes == b;
      assert j in k0.payloads - {id};
      assert j in k.payloads - {id};
    }
  }

  /** What is on the disk is what the drive it shows has live or in the trash directory. */
  lemma OnDiskIsShown(d: Drive, k: Disk, b: Bytes)
    ensures OnDisk(k, b) <==>
            var v := Shown(d, k); InFiles(v.files, b) || InTrash(v.trash, b) || InStranded(v.stranded, b)
  {
    var v := Shown(d, k);
    if i, s :| i in k.payloads && s in k.payloads[i] && k.payloads[i][s].bytes == b {
      if i in k.notes {
        assert v.trash[i].payload[s].bytes == b;
      } else {
        assert v.stranded[i][s].bytes == b;
      }
    }
    if InTrash(v.trash, b) {
      var i, s :| i in v.trash && s in v.trash[i].payload && v.trash[i].payload[s].bytes == b;
      assert i in k.payloads && k.payloads[i][s].bytes == b;
    }
    if InStranded(v.stranded, b) {
      var i, s :| i in v.stranded && s in v.stranded[i] && v.stranded[i][s].bytes == b;
      assert k.payloads[i][s].bytes == b;
    }
  }

  /** The drive a crashed delete shows: untouched, trashed, or with the payload stranded in the trash directory. */
  lemma CrashedDeleteShows(d: Drive, k0: Disk, k: Disk, path: Path, id: Id, note: Note)
    requires DeletePoint(k0, k, path, id, note) && id !in k0.payloads && id !in k0.notes && note.orig == path
    ensures Shown(d, k) == if id in k.notes then TrashPath(Shown(d, k0), path, id, note.versions, note.deletedAt)
                           else if id in k.payloads then StrandPath(Shown(d, k0), path, id)
                           else Shown(d, k0)
  {
    hide Subtree, Detach, OnlyItem, SameElsewhere, Items, Stranded;
    OtherItems(k0, k, id);
    if id in k.notes {
      ListedItem(k0, k, id, note, Detach(k0.files, path));
    } else {
      UnlistedItem(k0, k, id, Detach(k0.files, path));
    }
  }

  /** So a delete that died at any call is one delete of the model, with one of its three endings. */
  lemma CrashedDeleteIsDelete(d: Drive, k0: Disk, k: Disk, raw: string, id: Id, note: Note, queryOk: bool)
    requires ValidateRel(raw).Ok? && ValidateRel(raw).value != "/"
    requires var path := ValidateRel(raw).value;
      && DeletePoint(k0, k, path, id, note) && Subtree(k0.files, path) != {} && id !in k0.payloads && id !in k0.notes
      && note == Note(path, if queryOk then VersionsUnder(d, path) else [], note.deletedAt)
    ensures var ending := if id in k.notes then Deletes else if id in k.payloads then Strands else DeleteFails;
      Shown(d, k) == Delete(Shown(d, k0), raw, id, note.deletedAt, queryOk, ending).0
  {
    hide ValidateRel, Subtree, Detach, DeletePoint, RefsUnder, TrashPath, StrandPath;
    CrashedDeleteShows(d, k0, k, ValidateRel(raw).value, id, note);
  }

  /** A restore that died at any call shows the item in the trash, or put back with or without its note. */
  lemma CrashedRestoreShows(d: Drive, k0: Disk, k: Disk, dest: Path, id: Id)
    requires id in k0.payloads && id in k0.notes && RestorePoint(k0, k, dest, id)
    requires id in k.notes ==> k.notes[id] == k0.notes[id]
    ensures Shown(d, k) == if id in k.payloads then Shown(d, k0) else PutBack(Shown(d, k0), id, dest, id in k.notes)
  {
    hide Attach, OnlyItem, SameElsewhere, Items, Stranded;
    OtherItems(k0, k, id);
    RestoredItems(k0, k, id);
    FirstItem(k0, id);
  }

  lemma FirstItem(k0: Disk, id: Id)
    requires id in k0.payloads && id in k0.notes
    ensures id in Items(k0) && Items(k0)[id].payload == k0.payloads[id]
  {
  }

  lemma RestoredItems(k0: Disk, k: Disk, id: Id)
    requires SameElsewhere(k0, k, id) && id in k0.payloads && id in k0.notes
    requires id in k.notes ==> k.notes[id] == k0.notes[id]
    requires id in k.payloads ==> k.payloads[id] == k0.payloads[id] && id in k.notes
    ensures Stranded(k) == Stranded(k0)
    ensures id in Items(k0)
    ensures Items(k) == if id in k.payloads then Items(k0)
                        else if id in k.notes then Items(k0)[id := Items(k0)[id].(payload := map[])]
                        else Items(k0) - {id}
  {
  }

  ghost predicate SameElsewhere(k0: Disk, k: Disk, id: Id) {
    && (forall j :: j != id ==> (j in Items(k) <==> j in Items(k0)) && (j in Items(k) ==> Items(k)[j] == Items(k0)[j]))
    && (forall j :: j != id ==> (j in Stranded(k) <==> j in Stranded(k0)) &&
                                (j in Stranded(k) ==> Stranded(k)[j] == Stranded(k0)[j]))
  }

  lemma ListedItem(k0: Disk, k: Disk, id: Id, note: Note, payload: map<string, File>)
    requires SameElsewhere(k0, k, id) && id in k.notes && k.notes[id] == note && id !in k0.payloads
    requires id in k.payloads && k.payloads[id] == payload
    ensures Items(k) == Items(k0)[id := TrashItem(note.orig, payload, note.versions, note.deletedAt)]
    ensures Stranded(k) == Stranded(k0)
  {
  }

  lemma UnlistedItem(k0: Disk, k: Disk, id: Id, payload: map<string, File>)
    requires SameElsewhere(k0, k, id) && id !in k.notes && id !in k0.notes && id !in k0.payloads
    requires id in k.payloads ==> k.payloads[id] == payload
    ensures Items(k) == Items(k0)
    ensures Stranded(k) == if id in k.payloads then Stranded(k0)[id := payload] else Stranded(k0)
  {
  }

  lemma OtherItems(k0: Disk, k: Disk, id: Id)
    requires OnlyItem(k0, k, id)
    ensures SameElsewhere(k0, k, id)
  {
    forall j | j != id ensures (j in k.payloads <==> j in k0.payloads) && (j in k.notes <==> j in k0.notes) &&
        (j in k.payloads ==> k.payloads[j] == k0.payloads[j]) && (j in k.notes ==> k.notes[j] == k0.notes[j]) {
      assert j in k.payloads - {id} <==> j in k0.payloads - {id};
      assert j in k.notes - {id} <==> j in k0.notes - {id};
    }
  }
}
