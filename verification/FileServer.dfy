/**
 The drive as a server object: the handlers, in the order they write the file
 tree, the version index and the version blobs, each proved to be one step of
 the drive model.
 */
module FileServer {
  import opened DriveInvariant
  import opened DriveHistory
  import opened DriveModel
  import opened DriveSteps
  import opened DriveTrash
  import opened LikePattern
  import opened LogicalPath
  import opened Strings
  import opened Wrappers

  /** Lists a set in some order, each member once. */
  method ListSet(s: set<Path>) returns (order: seq<Path>)
    ensures Lists(order, s)
  {
    order := [];
    var rest := s;
    while rest != {}
      invariant forall p :: p in s <==> p in order || p in rest
      invariant forall p :: p in order ==> p !in rest
      invariant forall i, j :: 0 <= i < j < |order| ==> order[i] != order[j]
      decreases |rest|
    {
      var p :| p in rest;
      order, rest := order + [p], rest - {p};
    }
  }

  method ListRefs(s: set<Ref>) returns (order: seq<Ref>)
    ensures forall r :: r in s <==> r in order
  {
    order := [];
    var rest := s;
    while rest != {}
      invariant forall r :: r in s <==> r in order || r in rest
      decreases |rest|
    {
      var r :| r in rest;
      order, rest := order + [r], rest - {r};
    }
  }

  class Server {
    var files: map<Path, File>
    var trash: map<Id, TrashItem>
    var stranded: map<Id, map<string, File>>
    var rows: map<nat, Row>
    var nextRow: nat
    var blobs: map<BlobKey, Bytes>
    ghost var issued: map<Id, Bytes>

    ghost function State(): Drive
      reads this
    {
      Drive(files, trash, stranded, rows, nextRow, blobs, issued)
    }

    constructor ()
      ensures State() == Drive(map[], map[], map[], map[], 0, map[], map[])
    {
      files, trash, stranded, rows, nextRow, blobs, issued := map[], map[], map[], map[], 0, map[], map[];
    }

    // ---- upload ----

    /** Probes for a conflict-copy name nothing occupies. */
    method FindCopyName(path: Path) returns (r: Result<Path, FsError>)
      ensures r == FreeCopyName(files, path, 2)
    {
      var np, i := path, 2;
      while true
        invariant FreeCopyName(files, path, 2) == FreeCopyName(files, np, i)
        decreases 4097 - |np|
      {
        if ValidateRel(np) != Ok(np) { return Err(Invalid); }
        if np !in Occupied(files) { return Ok(np); }
        assert |np| <= 4096;
        assert |TrimSuffix(np, Ext(np))| + |Ext(np)| == |np|;
        np, i := Numbered(np, i), i + 1;
      }
    }

    method SnapshotVersion(path: Path, vid: Id)
      requires path in files
      modifies this
      ensures State() == Snapshot(old(State()), path, vid)
    {
      blobs := blobs[BlobKey(path, vid) := files[path].bytes];
      issued := issued[vid := files[path].bytes];
    }

    method AddVersion(path: Path, vid: Id, size: nat, at: int)
      modifies this
      ensures State() == AddRow(old(State()), path, vid, size, at)
    {
      rows := rows[nextRow := Row(path, vid, size, at)];
      nextRow := nextRow + 1;
    }

    /** A target that cannot be looked at counts as absent. */
    method StoreUpload(req: UploadRequest, vid: Id, now: int, fault: UploadFault) returns (r: Result<Stored, FsError>)
      requires vid !in issued
      modifies this
      ensures (State(), r) == DriverUpload(old(State()), req, vid, now, fault)
    {
      hide ValidateRel, ConflictCopyName, FreeCopyName, Directories, Blocked, EtagOf;
      var valid := ValidateRel(req.path);
      if valid.Err? { return Err(valid.error); }
      var target := valid.value;
      if target == "/" { return Err(Invalid); }
      if fault.Staging? { return Err(Io); }
      var conflicted, prev, prevSize := false, None, 0;
      var existing := if target in files && !fault.Unseen? then Some(files[target]) else None;
      if target in Directories(files) && target !in files && !fault.Unseen? { return Err(Exists); }
      if existing.Some? {
        var size := |existing.value.bytes|;
        if req.conflictRename {
          var name := ConflictCopyName(target, req.deviceTag, req.stamp);
          if name.Err? { return Err(name.error); }
          var free := FindCopyName(name.value);
          if free.Err? { return Err(free.error); }
          target, conflicted := free.value, true;
        } else if req.ifMatch != "" && req.ifMatch != EtagOf(existing.value.mtime, size) {
          return Err(Conflict);
        } else {
          if fault.Snapshotting? { return Err(Io); }
          SnapshotVersion(target, vid);
          prev, prevSize := Some(vid), size;
        }
      }
      if fault.Unseen? && target in Directories(files) { return Err(Io); }
      if fault.Committing? || Blocked(files, target) { return Err(Io); }
      files := files[target := File(req.bytes, now)];
      if fault.StatAfterCommit? || fault == Unseen(true) { return Err(Io); }
      return Ok(Stored(Entry(target, |req.bytes|, now), conflicted, prev, prevSize));
    }

    method HandleUpload(req: UploadRequest, vid: Id, now: int, fault: UploadFault) returns (r: Result<Stored, FsError>)
      requires vid !in issued
      modifies this
      ensures (State(), r) == Upload(old(State()), req, vid, now, fault)
    {
      hide ValidateRel, DriverUpload;
      r := StoreUpload(req, vid, now, fault);
      if r.Ok? && r.value.prev.Some? && !fault.Indexing? {
        AddVersion(MustValidate(req.path), r.value.prev.value, r.value.prevSize, now);
      }
    }

    // ---- rename and move ----

    /** Rewrites the rows under `oldPath` in one transaction and returns the paths that had some. */
    method RelocateVersions(oldPath: Path, newPath: Path) returns (moved: seq<Path>)
      requires oldPath !in {"", "/"} && newPath !in {"", "/"}
      modifies this`rows
      ensures Lists(moved, OldPaths(old(State()), oldPath)) && rows == RelocateRows(old(rows), oldPath, newPath)
    {
      moved := ListSet(RowPaths(rows, SelectedRows(rows, oldPath)));
      rows := RelocateRows(rows, oldPath, newPath);
    }

    /**
     Rewrites the rows, then moves each listed blob directory; `left` tells what a
     move leaves behind, which is logged and not reported.
     */
    method RelocateVersionHistory(oldPath: Path, newPath: Path, indexOk: bool, left: Path -> set<Id>)
      returns (ghost how: Relocation)
      modifies this
      ensures State() == RelocateHistory(old(State()), oldPath, newPath, how) && how.indexOk == indexOk
      ensures indexOk && oldPath !in {"", "/"} && newPath !in {"", "/"} && oldPath != newPath ==>
                MovesListed(old(State()), oldPath, how.moves, left)
    {
      hide RelocateRows, MoveBlobDir, GoRewrite;
      how := Relocation(indexOk, []);
      if oldPath in {"", "/"} || newPath in {"", "/"} || oldPath == newPath || !indexOk { return; }
      var moved := RelocateVersions(oldPath, newPath);
      how := Relocation(true, MovesOf(moved, left));
      assert PathsOf(how.moves) == moved;
      var i := 0;
      while i < |moved|
        modifies this`blobs
        invariant 0 <= i <= |moved|
        invariant MoveBlobDirs(blobs, how.moves[i..], oldPath, newPath) ==
                  MoveBlobDirs(old(blobs), how.moves, oldPath, newPath)
      {
        blobs := MoveBlobDir(blobs, moved[i], GoRewrite(oldPath, newPath, moved[i]), left(moved[i]));
        assert how.moves[i..][1..] == how.moves[i + 1..];
        i := i + 1;
      }
    }

    /** `os.Rename` after the existence check, which a failed look passes: all or nothing. */
    method RenameTree(src: Path, dst: Path, f: RenameFault) returns (r: Result<Path, FsError>)
      modifies this`files
      ensures if r.Ok? then State() == MoveTree(old(State()), src, dst) else State() == old(State())
      ensures r == (var taken := dst in Occupied(old(files));
                    if taken && !f.CheckFails? then Err(Exists)
                    else if Subtree(old(files), src) == {} then Err(NotFound)
                    else if f.CallFails? || Blocked(old(files), dst) || (taken && !Replaceable(old(files), src, dst))
                    then Err(Io) else Ok(dst))
    {
      hide Occupied, Subtree, Blocked, Attach, Detach, Replaceable;
      var taken := dst in Occupied(files);
      if taken && !f.CheckFails? { return Err(Exists); }
      if Subtree(files, src) == {} { return Err(NotFound); }
      if f.CallFails? || Blocked(files, dst) { return Err(Io); }
      if taken && !Replaceable(files, src, dst) { return Err(Io); }
      files := Attach(files - Subtree(files, src), dst, Detach(files, src));
      return Ok(dst);
    }

    method HandleRename(from: string, toName: string, f: RenameFault, indexOk: bool, left: Path -> set<Id>)
      returns (r: Result<Path, FsError>, ghost how: Relocation)
      modifies this
      ensures (State(), r) == Rename(old(State()), from, toName, how, f) && how.indexOk == indexOk
      ensures r.Ok? && indexOk && r.value != MustValidate(from) ==>
                MovesListed(old(State()), MustValidate(from), how.moves, left)
    {
      hide ValidateRel, ValidName, ParentOf, JoinPath, MoveTree, Occupied, Subtree, RelocateHistory, MovesListed;
      how := Relocation(indexOk, []);
      if !ValidName(toName) { return Err(Invalid), how; }
      var src := ValidateRel(from);
      if src.Err? { return Err(src.error), how; }
      if src.value == "/" { return Err(Invalid), how; }
      var dst := JoinPath(ParentOf(src.value), toName);
      if dst.Err? { return Err(dst.error), how; }
      if ValidateRel(dst.value) != Ok(dst.value) { return Err(Invalid), how; }
      r := RenameTree(src.value, dst.value, f);
      if r.Ok? {
        assert Rename(old(State()), from, toName, how, f).1.Ok?;
        RenameIsRelocatable(old(State()), from, toName, how, f);
        ghost var mid := State();
        how := RelocateVersionHistory(src.value, dst.value, indexOk, left);
        ListedByRows(old(State()), mid, src.value, how.moves, left);
      }
    }

    method HandleMove(from: string, destDir: string, f: RenameFault, indexOk: bool, left: Path -> set<Id>)
      returns (r: Result<Path, FsError>, ghost how: Relocation)
      modifies this
      ensures (State(), r) == Move(old(State()), from, destDir, how, f) && how.indexOk == indexOk
      ensures r.Ok? && indexOk && r.value != MustValidate(from) ==>
                MovesListed(old(State()), MustValidate(from), how.moves, left)
    {
      hide ValidateRel, NameOf, JoinPath, MoveTree, Occupied, Subtree, RelocateHistory, MovesListed;
      how := Relocation(indexOk, []);
      var src := ValidateRel(from);
      if src.Err? { return Err(src.error), how; }
      var dir := ValidateRel(destDir);
      if dir.Err? { return Err(dir.error), how; }
      if src.value == "/" { return Err(Invalid), how; }
      if src.value == dir.value || HasPrefix(dir.value, src.value + "/") { return Err(Invalid), how; }
      var dst := JoinPath(dir.value, NameOf(src.value));
      if dst.Err? { return Err(dst.error), how; }
      if ValidateRel(dst.value) != Ok(dst.value) { return Err(Invalid), how; }
      r := RenameTree(src.value, dst.value, f);
      if r.Ok? {
        assert Move(old(State()), from, destDir, how, f).1.Ok?;
        MoveIsRelocatable(old(State()), from, destDir, how, f);
        ghost var mid := State();
        how := RelocateVersionHistory(src.value, dst.value, indexOk, left);
        ListedByRows(old(State()), mid, src.value, how.moves, left);
      }
    }

    // ---- trash ----

    /**
     An unanswered index query leaves the item without a record of its versions; a
     payload that reaches the trash without its note stays there unlisted.
     */
    method HandleDelete(raw: string, id: Id, now: int, queryOk: bool, ending: DeleteFault)
      returns (r: Result<Id, FsError>)
      requires id !in trash && id !in stranded
      modifies this
      ensures (State(), r) == Delete(old(State()), raw, id, now, queryOk, ending)
    {
      hide ValidateRel, Subtree, RefsUnder, Detach;
      var valid := ValidateRel(raw);
      if valid.Err? { return Err(valid.error); }
      var path := valid.value;
      if path == "/" { return Err(Invalid); }
      if Subtree(files, path) == {} { return Err(NotFound); }
      var owned := if queryOk then RefsUnder(rows, path, nextRow) else [];
      if ending.DeleteFails? { return Err(Io); }
      var payload := Detach(files, path);
      files := files - Subtree(files, path);
      if ending.Strands? {
        stranded := stranded[id := payload];
        return Err(Io);
      }
      trash := trash[id := TrashItem(path, payload, owned, now)];
      return Ok(id);
    }

    /** Searches the original path and its numbered siblings for a free one. */
    method FindRestoreTarget(orig: Path) returns (r: Result<Path, FsError>)
      ensures r == FreeRestoreName(files, orig, 1)
    {
      hide ValidateRel, Directories;
      var dest, i := orig, 2;
      while true
        invariant i >= 2 && dest == RestoreName(orig, i - 1)
        invariant FreeRestoreName(files, orig, 1) == FreeRestoreName(files, orig, i - 1)
        decreases Untried(files, orig, i - 1)
      {
        if ValidateRel(dest) != Ok(dest) { return Err(Invalid); }
        if dest !in Occupied(files) { return Ok(dest); }
        TriedIsGone(files, orig, i - 1);
        NextRestoreName(orig, i);
        var ext := Ext(dest);
        dest, i := TrimSuffix(orig, ext) + " (restored " + Numeral(i, Ten) + ")" + ext, i + 1;
      }
    }

    /** Moves exactly the listed rows, one insert and one delete per reference. */
    method MoveSpecificRows(refs: seq<Ref>, oldRoot: Path, newRoot: Path)
      modifies this`rows, this`nextRow
      ensures State() == MoveRefRows(old(State()), refs, oldRoot, newRoot)
    {
      hide GoRewrite, HasPrefix, FindRow;
      assert refs[0..] == refs;
      for k := 0 to |refs|
        modifies this`rows, this`nextRow
        invariant MoveRefRows(State(), refs[k..], oldRoot, newRoot) == MoveRefRows(old(State()), refs, oldRoot, newRoot)
      {
        assert refs[k..][1..] == refs[k + 1..];
        var ref := refs[k];
        if !HasPrefix(ref.path, oldRoot) { continue; }
        var np := GoRewrite(oldRoot, newRoot, ref.path);
        var found := FindRow(rows, ref, nextRow);
        if found.None? { continue; }
        var row := rows[found.value].(path := np);
        rows := (rows - {found.value})[nextRow := row];
        nextRow := nextRow + 1;
      }
    }

    /** One rename per blob; those in `stuck` fail, and the loop goes on. */
    method RelocateVersionBlobs(moves: seq<BlobMove>, stuck: set<Id>)
      modifies this`blobs
      ensures blobs == MoveBlobs(old(blobs), Unstuck(moves, stuck))
    {
      hide MoveBlob;
      assert moves[0..] == moves;
      for k := 0 to |moves|
        modifies this`blobs
        invariant MoveBlobs(blobs, Unstuck(moves[k..], stuck)) == MoveBlobs(old(blobs), Unstuck(moves, stuck))
      {
        assert moves[k..][1..] == moves[k + 1..];
        UnstuckFirst(moves[k..], stuck);
        if moves[k].vid !in stuck { blobs := MoveBlob(blobs, moves[k].from, moves[k].to, moves[k].vid); }
      }
    }

    method MoveSpecificVersions(refs: seq<Ref>, oldRoot: Path, newRoot: Path, how: SpecificMove)
      modifies this
      ensures State() == MoveSpecific(old(State()), refs, oldRoot, newRoot, how)
    {
      hide MoveRefRows, MoveBlobs, BlobMoves, Unstuck;
      if refs == [] || oldRoot in {"", "/"} || newRoot in {"", "/"} || !how.indexOk { return; }
      MoveSpecificRows(refs, oldRoot, newRoot);
      MoveRowsFrame(old(State()), refs, oldRoot, newRoot);
      UnstuckMoves(refs, oldRoot, newRoot, how.stuck);
      RelocateVersionBlobs(BlobMoves(refs, oldRoot, newRoot, {}), how.stuck);
    }

    method HandleRestore(id: Id, f: RestoreFault) returns (r: Result<Path, FsError>)
      modifies this
      ensures (State(), r) == Restore(old(State()), id, f)
    {
      hide Blocked, Attach, FreeRestoreName, RefsUnder, MoveSpecific;
      if id !in trash { return Err(NotFound); }
      var item := trash[id];
      var owned := if item.versions != [] then item.versions else RefsUnder(rows, item.orig, nextRow);
      var dest := FindRestoreTarget(item.orig);
      if dest.Err? { return Err(dest.error); }
      if f.moveFails || item.payload == map[] || Blocked(files, dest.value) { return Err(Io); }
      files := Attach(files, dest.value, item.payload);
      trash := if f.noteStays then trash[id := item.(payload := map[])] else trash - {id};
      if dest.value != item.orig { MoveSpecificVersions(owned, item.orig, dest.value, f.how); }
      return Ok(dest.value);
    }

    // ---- permanent removal ----

    /** Deletes the listed rows and returns the paths that lost some, each once. */
    method DeleteSpecificVersions(refs: seq<Ref>) returns (removed: seq<Path>)
      modifies this`rows
      ensures rows == old(rows) - NamedRows(old(rows), refs)
      ensures forall p :: p in removed <==> p in RowPaths(old(rows), NamedRows(old(rows), refs))
    {
      removed := [];
      ghost var was := rows;
      for k := 0 to |refs|
        modifies this`rows
        invariant rows == was - NamedRows(was, refs[..k])
        invariant forall p :: p in removed <==> p in RowPaths(was, NamedRows(was, refs[..k]))
      {
        var ref := refs[k];
        var hit := NamedRows(rows, [ref]);
        NamedRowsStep(was, refs, k);
        assert hit == NamedRows(was, [ref]) - NamedRows(was, refs[..k]);
        if hit != {} && ref.path !in removed { removed := removed + [ref.path]; }
        rows := rows - hit;
      }
      assert refs[..|refs|] == refs;
    }

    method PurgeSpecificVersions(refs: seq<Ref>, how: Purging)
      modifies this
      ensures State() == PurgeRefs(old(State()), refs, how)
    {
      if !how.indexOk { return; }
      var removed := DeleteSpecificVersions(refs);
      ghost var was := blobs;
      for k := 0 to |refs|
        modifies this`blobs
        invariant forall key :: key in blobs <==>
                    key in was && !(key.path in removed && Ref(key.path, key.vid) in refs[..k] && key !in how.kept)
        invariant forall key :: key in blobs ==> blobs[key] == was[key]
      {
        assert refs[..k + 1] == refs[..k] + [refs[k]];
        var key := BlobKey(refs[k].path, refs[k].vid);
        if refs[k].path in removed && key !in how.kept { blobs := blobs - {key}; }
      }
      assert refs[..|refs|] == refs;
      assert blobs == PurgeRefs(old(State()), refs, how).blobs;
    }

    /** Drops a path's rows and everything below it, then each blob directory that had rows. */
    method PurgeVersionHistory(root: Path, how: Purging)
      modifies this
      ensures State() == PurgeHistory(old(State()), root, how)
    {
      hide Selected;
      if root in {"", "/"} || !how.indexOk { return; }
      var gone := SelectedRows(rows, root);
      var paths := ListSet(RowPaths(rows, gone));
      rows := rows - gone;
      ghost var was := blobs;
      for k := 0 to |paths|
        modifies this`blobs
        invariant forall key :: key in blobs <==> key in was && (key.path !in paths[..k] || key in how.kept)
        invariant forall key :: key in blobs ==> blobs[key] == was[key]
      {
        assert paths[..k + 1] == paths[..k] + [paths[k]];
        var dir := set key | key in blobs && key.path == paths[k] && key !in how.kept;
        blobs := blobs - dir;
      }
      assert paths[..|paths|] == paths;
      assert blobs == PurgeHistory(old(State()), root, how).blobs;
    }

    method PurgeItem(item: TrashItem, how: Purging)
      modifies this
      ensures State() == PurgeItemHistory(old(State()), item, how)
    {
      hide PurgeRefs, PurgeHistory;
      if item.versions != [] {
        PurgeSpecificVersions(item.versions, how);
      } else {
        PurgeVersionHistory(item.orig, how);
      }
    }

    /** `left` is what a failed removal leaves of the payload; it ends the purge. */
    method HandleTrashDelete(id: Id, left: Option<set<string>>, how: Purging) returns (ok: bool)
      modifies this
      ensures ok == (id in old(trash) && left.None?) && State() == TrashDelete(old(State()), id, left, how)
    {
      hide PurgeItemHistory, Remnant;
      ok := id in trash && left.None?;
      if id in trash {
        var item := trash[id];
        if left.Some? {
          TrimmedAt(trash, id, left.value);
          trash := trash[id := Trimmed(item, left.value)];
        } else {
          trash := trash - {id};
          PurgeItem(item, how);
        }
      }
    }

    /** Lists the trash but the notes in `unread`, removes all of it, then purges what was listed. */
    method HandleTrashEmpty(unread: set<Id>, left: Option<Leavings>, how: Id -> Purging)
      returns (ok: bool, ghost order: seq<Id>)
      modifies this
      ensures State() == TrashEmpty(old(State()), order, left, how) && ok == left.None?
      ensures Lists(order, old(trash).Keys - unread)
    {
      hide PurgeItemHistory, HalfEmptied;
      var ids := ListSet(trash.Keys - unread);
      var items := trash;
      order, ok := ids, left.None?;
      if left.Some? {
        LoseTrash(left.value);
        return;
      }
      trash, stranded := map[], map[];
      ghost var start := State();
      assert ids[0..] == ids;
      for k := 0 to |ids|
        invariant PurgeItems(State(), Listed(items, ids[k..], how)) == PurgeItems(start, Listed(items, ids, how))
      {
        assert ids[k..][1..] == ids[k + 1..];
        assert ids[k] in ids;
        ListedFirst(items, ids[k..], how);
        PurgeItem(items[ids[k]], how(ids[k]));
      }
    }

    /** The removal of the trash directory stops half way. */
    method LoseTrash(left: Leavings)
      modifies this`trash, this`stranded
      ensures State() == HalfEmptied(old(State()), left)
    {
      stranded :=
        (map id | id in stranded && id in left.files :: Spared(stranded[id], left, id)) +
        (map id | id in trash && id !in left.notes && id in left.files :: Spared(trash[id].payload, left, id));
      trash := map id | id in trash && id in left.notes :: trash[id].(payload := Spared(trash[id].payload, left, id));
    }

    /**
     Removes the expired payloads one by one: one in `stuck` stays with what is left
     of it and is passed over; a note in `notes` outlives its payload.
     */
    method PurgeOldTrash(cutoff: int, stuck: map<Id, set<string>>, notes: set<Id>) returns (origs: seq<Path>)
      modifies this`trash
      ensures State() == SweepTrash(old(State()), cutoff, Outlasting(stuck, notes), [])
      ensures forall p :: p in origs <==> p in SweptOrigs(old(State()), cutoff, stuck)
    {
      hide SweptTo, Outlasting, Trimmed;
      ghost var was := trash;
      var expired := set id | id in trash && MIN_PLAUSIBLE_UNIX <= trash[id].deletedAt < cutoff;
      var ids := ListSet(expired);
      origs := [];
      SweptNone(was, Outlasting(stuck, notes));
      assert ids[..0] == [];
      for k := 0 to |ids|
        modifies this`trash
        invariant SweptTo(was, trash, ids[..k], Outlasting(stuck, notes))
        invariant forall p :: p in origs <==> p in OrigsOf(was, ids[..k], stuck)
      {
        var id := ids[k];
        assert ids[..k + 1] == ids[..k] + [id] && id in expired && id !in ids[..k];
        SweptStep(was, trash, ids[..k], id, stuck, notes);
        if id in stuck {
          trash := trash[id := Trimmed(trash[id], stuck[id])];
        } else {
          origs := origs + [trash[id].orig];
          trash := if id in notes then trash[id := trash[id].(payload := map[])] else trash - {id};
        }
      }
      assert ids[..|ids|] == ids;
      SweptAll(old(State()), State(), cutoff, ids, stuck, notes);
    }

    /** The janitor's sweep of expired items; history goes by whole path, whatever the items recorded. */
    method SweepExpired(cutoff: int, stuck: map<Id, set<string>>, notes: set<Id>, how: Path -> Purging)
      returns (ghost roots: seq<RootPurge>)
      modifies this
      ensures State() == SweepTrash(old(State()), cutoff, Outlasting(stuck, notes), roots)
      ensures forall x :: x in roots ==> x.how == how(x.root)
      ensures RootPaths(roots) == SweptOrigs(old(State()), cutoff, stuck)
    {
      hide PurgeHistory, Expired, Remnant, SweptOrigs, RootPaths;
      var origs := PurgeOldTrash(cutoff, stuck, notes);
      roots := RootsOf(origs, how);
      RootsAre(origs, how);
      ghost var start := State();
      assert roots[0..] == roots;
      for k := 0 to |origs|
        invariant PurgeHistories(State(), roots[k..]) == PurgeHistories(start, roots)
      {
        assert roots[k..][1..] == roots[k + 1..];
        PurgeVersionHistory(origs[k], how(origs[k]));
      }
    }

    /** Lists the rows past the newest `keep` of their path, then deletes them one by one until one delete fails. */
    method PruneVersions(keep: nat, fails: nat) returns (pruned: seq<Ref>)
      modifies this`rows
      ensures forall r :: r in pruned <==> r in RefsOf(old(rows), Overflow(old(rows), keep))
      ensures rows == WithoutRefs(old(rows), set r | r in UpTo(pruned, fails))
    {
      hide Overflow;
      var gone := Overflow(rows, keep);
      pruned := ListRefs(RefsOf(rows, gone));
      ghost var was := rows;
      for k := 0 to |pruned|
        modifies this`rows
        invariant k <= fails && rows == WithoutRefs(was, set r | r in pruned[..k])
      {
        if k == fails {
          assert UpTo(pruned, fails) == pruned[..k];
          return;
        }
        assert pruned[..k + 1] == pruned[..k] + [pruned[k]];
        rows := rows - NamedRows(rows, [pruned[k]]);
      }
      assert pruned[..|pruned|] == pruned && UpTo(pruned, fails) == pruned;
    }

    method PruneBlobs(pruned: seq<Ref>, kept: set<BlobKey>)
      modifies this`blobs
      ensures blobs == old(blobs) - set k | k in old(blobs) && Ref(k.path, k.vid) in pruned && k !in kept
    {
      ghost var was := blobs;
      for k := 0 to |pruned|
        modifies this`blobs
        invariant forall key :: key in blobs <==>
                    key in was && !(Ref(key.path, key.vid) in pruned[..k] && key !in kept)
        invariant forall key :: key in blobs ==> blobs[key] == was[key]
      {
        assert pruned[..k + 1] == pruned[..k] + [pruned[k]];
        var key := BlobKey(pruned[k].path, pruned[k].vid);
        if key !in kept { blobs := blobs - {key}; }
      }
      assert pruned[..|pruned|] == pruned;
      assert blobs == was - set k | k in was && Ref(k.path, k.vid) in pruned && k !in kept;
    }

    /** Rows first, then their blobs, unless delete number `fails` of the rows fails. */
    method HandlePrune(keep: nat, fails: nat, kept: set<BlobKey>) returns (ghost pruned: seq<Ref>)
      modifies this
      ensures forall r :: r in pruned <==> r in RefsOf(old(rows), Overflow(old(rows), keep))
      ensures State() == Prune(old(State()), keep,
                               if fails < |pruned| then Stopped(set r | r in pruned[..fails]) else Pruned(kept))
    {
      hide Overflow;
      var refs := PruneVersions(keep, fails);
      pruned := refs;
      ghost var all := RefsOf(old(rows), Overflow(old(rows), keep));
      if fails < |refs| {
        assert all * (set r | r in refs[..fails]) == set r | r in refs[..fails];
        return;
      }
      assert all == set r | r in refs;
      PruneBlobs(refs, kept);
      assert blobs == Prune(old(State()), keep, Pruned(kept)).blobs;
    }

    // ---- version restore ----

    /** Snapshots what is there under a row of its own, then stores the version as an upload would. */
    method HandleVersionRestore(raw: string, vid: Id, v1: Id, v2: Id, now: int, snap: Snapping, fault: UploadFault)
      returns (r: Result<Stored, FsError>)
      requires v1 !in issued && v2 !in issued && v1 != v2
      modifies this
      ensures (State(), r) == VersionRestore(old(State()), raw, vid, v1, v2, now, snap, fault)
    {
      hide ValidateRel, DriverUpload;
      var path := MustValidate(raw);
      if NamedRows(rows, [Ref(path, vid)]) == {} {
        assert forall i :: i in rows && RefOf(rows[i]) == Ref(path, vid) ==> i in NamedRows(rows, [Ref(path, vid)]);
        return Err(NotFound);
      }
      var row :| row in NamedRows(rows, [Ref(path, vid)]);
      assert HasRow(State(), Ref(path, vid));
      if ValidateRel(raw).Ok? && path in files && !snap.NoSnapshot? {
        var size := |files[path].bytes|;
        SnapshotVersion(path, v1);
        if snap.Indexed? { AddVersion(path, v1, size, now); }
      }
      if ValidateRel(raw).Err? || BlobKey(path, vid) !in blobs { return Err(NotFound); }
      r := StoreUpload(UploadRequest(raw, blobs[BlobKey(path, vid)], "", false, "", ""), v2, now, fault);
    }
  }

  lemma TriedIsGone(files: map<Path, File>, orig: Path, n: nat)
    requires n >= 1 && RestoreName(orig, n) in Occupied(files)
    ensures Untried(files, orig, n + 1) < Untried(files, orig, n)
  {
    hide Directories, RestoreName;
    var dest := RestoreName(orig, n);
    assert dest in Untried(files, orig, n);
    assert dest !in Untried(files, orig, n + 1) by {
      forall j: nat | j >= n + 1 ensures dest != RestoreName(orig, j) { RestoreNamesDiffer(orig, n, j); }
    }
  }

  /** Numbering keeps the extension, so the next name can be built from the one before it. */
  lemma NextRestoreName(orig: Path, n: nat)
    requires n >= 2
    ensures var ext := Ext(RestoreName(orig, n - 1));
      RestoreName(orig, n) == TrimSuffix(orig, ext) + " (restored " + Numeral(n, Ten) + ")" + ext
  {
    hide Ext, TrimSuffix, Numeral, NoneOf;
    if n > 2 {
      var middle := " (restored " + Numeral(n - 1, Ten) + ")";
      NumberIsPlain(n - 1);
      ExtAfterInsert(orig, middle);
      Grouped(TrimSuffix(orig, Ext(orig)), " (restored ", Numeral(n - 1, Ten), ")", Ext(orig));
    }
  }

  lemma Grouped(a: string, b: string, c: string, d: string, e: string)
    ensures a + b + c + d + e == a + (b + c + d) + e
  {
    assert a + (b + c + d) == a + (b + c) + d;
    assert a + (b + c) == a + b + c;
  }

  lemma NumberIsPlain(n: nat)
    ensures var middle := " (restored " + Numeral(n, Ten) + ")"; NoneOf(middle, '.') && NoneOf(middle, '/')
  {
    hide Numeral;
    var middle := " (restored " + Numeral(n, Ten) + ")";
    assert forall i :: 0 <= i < |middle| ==>
      middle[i] in " (restored" || middle[i] in "0123456789abcdef" || middle[i] == ')';
  }

  function MovesOf(paths: seq<Path>, left: Path -> set<Id>): (moves: seq<DirMove>)
    ensures |moves| == |paths|
  {
    seq(|paths|, i requires 0 <= i < |paths| => DirMove(paths[i], left(paths[i])))
  }

  /** The moves attempt each path the index listed once, each leaving what `left` says. */
  ghost predicate MovesListed(d: Drive, oldPath: Path, moves: seq<DirMove>, left: Path -> set<Id>) {
    Lists(PathsOf(moves), OldPaths(d, oldPath)) && forall m :: m in moves ==> m.left == left(m.path)
  }

  lemma ListedByRows(d: Drive, mid: Drive, oldPath: Path, moves: seq<DirMove>, left: Path -> set<Id>)
    requires d.rows == mid.rows
    ensures MovesListed(d, oldPath, moves, left) == MovesListed(mid, oldPath, moves, left)
  {
  }

  function Unstuck(moves: seq<BlobMove>, stuck: set<Id>): seq<BlobMove> {
    if moves == [] then []
    else (if moves[0].vid in stuck then [] else [moves[0]]) + Unstuck(moves[1..], stuck)
  }

  lemma UnstuckFirst(moves: seq<BlobMove>, stuck: set<Id>)
    requires moves != []
    ensures moves[0].vid in stuck ==> Unstuck(moves, stuck) == Unstuck(moves[1..], stuck)
    ensures moves[0].vid !in stuck ==>
              Unstuck(moves, stuck) != [] && Unstuck(moves, stuck)[0] == moves[0] &&
              Unstuck(moves, stuck)[1..] == Unstuck(moves[1..], stuck)
  {
  }

  lemma {:induction false} UnstuckMoves(refs: seq<Ref>, oldRoot: Path, newRoot: Path, stuck: set<Id>)
    ensures BlobMoves(refs, oldRoot, newRoot, stuck) == Unstuck(BlobMoves(refs, oldRoot, newRoot, {}), stuck)
  {
    hide GoRewrite, HasPrefix;
    if refs != [] {
      UnstuckMoves(refs[1..], oldRoot, newRoot, stuck);
      var rest := BlobMoves(refs[1..], oldRoot, newRoot, {});
      if HasPrefix(refs[0].path, oldRoot) {
        var m := BlobMove(refs[0].path, GoRewrite(oldRoot, newRoot, refs[0].path), refs[0].vid);
        assert BlobMoves(refs, oldRoot, newRoot, {}) == [m] + rest;
        assert ([m] + rest)[1..] == rest;
      } else {
        assert BlobMoves(refs, oldRoot, newRoot, {}) == rest;
      }
    }
  }

  lemma {:induction false} MoveRowsFrame(d: Drive, refs: seq<Ref>, oldRoot: Path, newRoot: Path)
    ensures var d' := MoveRefRows(d, refs, oldRoot, newRoot); d' == d.(rows := d'.rows, nextRow := d'.nextRow)
    decreases |refs|
  {
    hide GoRewrite, HasPrefix, FindRow;
    if refs != [] {
      var to := GoRewrite(oldRoot, newRoot, refs[0].path);
      var next := if HasPrefix(refs[0].path, oldRoot) then MoveRefRow(d, refs[0], to) else d;
      MoveRowsFrame(next, refs[1..], oldRoot, newRoot);
    }
  }

  /** What a failed removal leaves of one item. */
  function Trimmed(item: TrashItem, left: set<string>): TrashItem {
    item.(payload := map s | s in item.payload && s in left :: item.payload[s])
  }

  lemma TrimmedAt(trash: map<Id, TrashItem>, id: Id, left: set<string>)
    requires id in trash
    ensures trash[id := Trimmed(trash[id], left)] == trash + Remnant(trash, map[id := left])
  {
  }

  ghost predicate SweptTo(
    was: map<Id, TrashItem>, trash: map<Id, TrashItem>, done: seq<Id>, left: map<Id, set<string>>)
  {
    && (forall id :: id in trash <==> id in was && (id in done ==> id in left))
    && (forall id :: id in trash ==> trash[id] == if id in done then Trimmed(was[id], left[id]) else was[id])
  }

  /** The original paths of the items in `done` that went. */
  function OrigsOf(was: map<Id, TrashItem>, done: seq<Id>, stuck: map<Id, set<string>>): set<Path> {
    set id | id in done && id !in stuck && id in was :: was[id].orig
  }

  lemma SweptNone(was: map<Id, TrashItem>, left: map<Id, set<string>>)
    ensures SweptTo(was, was, [], left)
  {
  }

  lemma SweptStep(was: map<Id, TrashItem>, trash: map<Id, TrashItem>, done: seq<Id>, id: Id,
                  stuck: map<Id, set<string>>, notes: set<Id>)
    requires SweptTo(was, trash, done, Outlasting(stuck, notes)) && id in was && id !in done
    ensures id in trash && trash[id] == was[id]
    ensures id in stuck ==>
              SweptTo(was, trash[id := Trimmed(trash[id], stuck[id])], done + [id], Outlasting(stuck, notes))
    ensures id !in stuck && id in notes ==>
              SweptTo(was, trash[id := trash[id].(payload := map[])], done + [id], Outlasting(stuck, notes))
    ensures id !in stuck && id !in notes ==> SweptTo(was, trash - {id}, done + [id], Outlasting(stuck, notes))
    ensures forall p :: p in OrigsOf(was, done + [id], stuck) <==>
                        p in OrigsOf(was, done, stuck) || (id !in stuck && p == was[id].orig)
  {
    assert trash[id].(payload := map[]) == Trimmed(was[id], {});
    hide Trimmed;
    var now := done + [id];
    assert forall j :: j in now <==> j in done || j == id;
    assert id in now;
  }

  lemma SweptAll(d: Drive, d': Drive, cutoff: int, ids: seq<Id>, stuck: map<Id, set<string>>, notes: set<Id>)
    requires d' == d.(trash := d'.trash) && SweptTo(d.trash, d'.trash, ids, Outlasting(stuck, notes))
    requires forall id :: id in ids <==> id in Expired(d, cutoff)
    ensures d' == SweepTrash(d, cutoff, Outlasting(stuck, notes), [])
    ensures OrigsOf(d.trash, ids, stuck) == SweptOrigs(d, cutoff, stuck)
  {
    hide Outlasting, Expired;
    SweptTrash(d, d'.trash, cutoff, ids, Outlasting(stuck, notes));
    assert forall id :: id in ids ==> id in d.trash by { ExpiredAreTrash(d, cutoff); }
  }

  lemma SweptTrash(d: Drive, trash: map<Id, TrashItem>, cutoff: int, ids: seq<Id>, left: map<Id, set<string>>)
    requires SweptTo(d.trash, trash, ids, left) && forall id :: id in ids <==> id in Expired(d, cutoff)
    ensures trash == SweepTrash(d, cutoff, left, []).trash
  {
    hide Expired;
  }

  lemma ExpiredAreTrash(d: Drive, cutoff: int)
    ensures forall id :: id in Expired(d, cutoff) ==> id in d.trash
  {
  }

  function RootsOf(origs: seq<Path>, how: Path -> Purging): (roots: seq<RootPurge>)
    ensures |roots| == |origs|
  {
    seq(|origs|, i requires 0 <= i < |origs| => RootPurge(origs[i], how(origs[i])))
  }

  lemma RootsAre(origs: seq<Path>, how: Path -> Purging)
    ensures forall x :: x in RootsOf(origs, how) ==> x.how == how(x.root)
    ensures forall p :: p in RootPaths(RootsOf(origs, how)) <==> p in origs
  {
    forall p | p in origs ensures p in RootPaths(RootsOf(origs, how)) {
      var i :| 0 <= i < |origs| && origs[i] == p;
      assert RootsOf(origs, how)[i] in RootsOf(origs, how);
    }
  }

  lemma ListedFirst(trash: map<Id, TrashItem>, order: seq<Id>, how: Id -> Purging)
    requires order != [] && order[0] in trash
    ensures var all := Listed(trash, order, how);
      all != [] && all[0] == ItemPurge(trash[order[0]], how(order[0])) && all[1..] == Listed(trash, order[1..], how)
  {
  }

  function UpTo(refs: seq<Ref>, n: nat): seq<Ref> {
    if n < |refs| then refs[..n] else refs
  }

  function NamedRows(rows: map<nat, Row>, refs: seq<Ref>): set<nat> {
    set i | i in rows && RefOf(rows[i]) in refs
  }

  lemma NamedRowsStep(rows: map<nat, Row>, refs: seq<Ref>, k: nat)
    requires k < |refs|
    ensures NamedRows(rows, refs[..k + 1]) == NamedRows(rows, refs[..k]) + NamedRows(rows, [refs[k]])
  {
    assert refs[..k + 1] == refs[..k] + [refs[k]];
  }
}
