/** What an upload does to the archive: nothing is lost in it, unless a live file is replaced unseen. */
module DriveArchive {
  import opened DriveInvariant
  import opened DriveModel
  import opened LikePattern
  import opened LogicalPath
  import opened Strings
  import opened Wrappers

  predicate InFiles(files: map<Path, File>, b: Bytes) {
    exists p :: p in files && files[p].bytes == b
  }

  predicate InTrash(trash: map<Id, TrashItem>, b: Bytes) {
    exists id, s :: id in trash && s in trash[id].payload && trash[id].payload[s].bytes == b
  }

  predicate InBlobs(blobs: map<BlobKey, Bytes>, b: Bytes) {
    exists k :: k in blobs && blobs[k] == b
  }

  predicate InStranded(stranded: map<Id, map<string, File>>, b: Bytes) {
    exists id, s :: id in stranded && s in stranded[id] && stranded[id][s].bytes == b
  }

  /** `b` is live, in the trash directory, listed or not, or in a version blob. */
  predicate Archived(d: Drive, b: Bytes) {
    InFiles(d.files, b) || InTrash(d.trash, b) || InStranded(d.stranded, b) || InBlobs(d.blobs, b)
  }

  /** `b` is archived somewhere else than at the live path `p`. */
  predicate ArchivedBeside(d: Drive, p: Path, b: Bytes) {
    || (exists q :: q in d.files && q != p && d.files[q].bytes == b)
    || InTrash(d.trash, b) || InStranded(d.stranded, b) || InBlobs(d.blobs, b)
  }

  ghost predicate Keeps(d: Drive, d': Drive) {
    forall b: Bytes :: Archived(d, b) ==> Archived(d', b)
  }

  /** Blobs may move between paths; their contents stay. */
  predicate SameVids(blobs: map<BlobKey, Bytes>, blobs': map<BlobKey, Bytes>) {
    forall k :: k in blobs ==> exists j :: j in blobs' && j.vid == k.vid
  }

  lemma SameVidsKeepBytes(blobs: map<BlobKey, Bytes>, blobs': map<BlobKey, Bytes>, issued: map<Id, Bytes>)
    requires SoundBlobs(blobs, issued) && SoundBlobs(blobs', issued) && SameVids(blobs, blobs')
    ensures forall b :: InBlobs(blobs, b) ==> InBlobs(blobs', b)
  {
    forall b | InBlobs(blobs, b) ensures InBlobs(blobs', b) {
      var k :| k in blobs && blobs[k] == b;
      var j :| j in blobs' && j.vid == k.vid;
      assert blobs'[j] == b;
    }
  }

  // ---- upload ----

  lemma PutKeeps(d: Drive, target: Path, file: File)
    requires target in d.files ==> InBlobs(d.blobs, d.files[target].bytes)
    ensures Keeps(d, d.(files := d.files[target := file]))
  {
    var d' := d.(files := d.files[target := file]);
    forall b | InFiles(d.files, b) ensures Archived(d', b) {
      var p :| p in d.files && d.files[p].bytes == b;
      if p != target {
        assert p in d'.files && d'.files[p] == d.files[p];
      }
    }
  }

  lemma SnapshotKeeps(d: Drive, path: Path, vid: Id)
    requires Valid(d) && path in d.files && vid !in d.issued
    ensures Valid(Snapshot(d, path, vid)) && Keeps(d, Snapshot(d, path, vid))
    ensures InBlobs(Snapshot(d, path, vid).blobs, d.files[path].bytes)
  {
    var d' := Snapshot(d, path, vid);
    assert BlobKey(path, vid) !in d.blobs;
    assert BlobKey(path, vid) in d'.blobs;
    assert SoundBlobs(d'.blobs, d'.issued);
    forall b | InBlobs(d.blobs, b) ensures InBlobs(d'.blobs, b) {
      var k :| k in d.blobs && d.blobs[k] == b;
      assert k in d'.blobs && d'.blobs[k] == b;
    }
  }

  /** Replacing a live file keeps the archive if and only if the old bytes come back or are archived beside it. */
  lemma PutOverKeepsIff(d: Drive, target: Path, file: File)
    requires target in d.files
    ensures var b := d.files[target].bytes;
      Keeps(d, Put(d, target, file)) <==> file.bytes == b || ArchivedBeside(d, target, b)
  {
    hide InTrash, InStranded, InBlobs;
    var d', b := Put(d, target, file), d.files[target].bytes;
    assert Archived(d, b);
    if file.bytes == b || ArchivedBeside(d, target, b) {
      forall c | InFiles(d.files, c) ensures Archived(d', c) {
        var p :| p in d.files && d.files[p].bytes == c;
        if p != target {
          assert p in d'.files && d'.files[p] == d.files[p];
        } else if file.bytes == b {
          assert d'.files[target].bytes == c;
        } else if exists q :: q in d.files && q != target && d.files[q].bytes == b {
          var q :| q in d.files && q != target && d.files[q].bytes == b;
          assert q in d'.files && d'.files[q].bytes == c;
        }
      }
    } else {
      assert forall p :: p in d'.files ==> d'.files[p].bytes != b;
    }
  }

  /** The blind upload meets a live file and replaces it. */
  predicate Overwrites(d: Drive, req: UploadRequest, fault: UploadFault) {
    var path := MustValidate(req.path);
    && fault.Unseen? && ValidateRel(req.path).Ok? && path != "/" && path in d.files
    && path !in Directories(d.files) && !Blocked(d.files, path)
  }

  /** The bytes replaced unseen are other ones and nowhere else. */
  predicate UploadLoses(d: Drive, req: UploadRequest, fault: UploadFault) {
    var path := MustValidate(req.path);
    Overwrites(d, req, fault) && req.bytes != d.files[path].bytes && !ArchivedBeside(d, path, d.files[path].bytes)
  }

  /**
   What one upload can have done: nothing, only a snapshot, or a file put at
   `target`; and the blind one that meets a live file just replaces it.
   */
  ghost predicate UploadShape(d: Drive, req: UploadRequest, vid: Id, now: int, fault: UploadFault, d': Drive,
                              r: Result<Stored, FsError>, target: Path)
  {
    if Overwrites(d, req, fault) then Replaces(d, req, now, d', r, target)
    else
      || (d' == d && r.Err?)
      || (Snapshots(d, req, vid, target) && d' == Snapshot(d, target, vid) && r.Err?)
      || Stores(d, req, vid, now, d', r, target)
  }

  ghost predicate Replaces(d: Drive, req: UploadRequest, now: int, d': Drive, r: Result<Stored, FsError>,
                           target: Path)
  {
    && target == MustValidate(req.path) && d' == Put(d, target, File(req.bytes, now))
    && (r.Ok? ==> r.value == Stored(Entry(target, |req.bytes|, now), false, None, 0))
  }

  ghost predicate Stores(d: Drive, req: UploadRequest, vid: Id, now: int, d': Drive,
                         r: Result<Stored, FsError>, target: Path)
  {
    var taken := target in d.files;
    && (taken ==> Snapshots(d, req, vid, target))
    && (!taken ==> target !in Directories(d.files))
    && d' == Put(if taken then Snapshot(d, target, vid) else d, target, File(req.bytes, now))
    && (ValidateRel(req.path) != Ok(target) ==> req.conflictRename)
    && (r.Ok? ==> r.value == Stored(Entry(target, |req.bytes|, now), ValidateRel(req.path) != Ok(target),
                                    if taken then Some(vid) else None,
                                    if taken then |d.files[target].bytes| else 0))
  }

  predicate Snapshots(d: Drive, req: UploadRequest, vid: Id, target: Path) {
    && target in d.files && vid !in d.issued && ValidateRel(req.path) == Ok(target) && !req.conflictRename
    && (req.ifMatch == "" || req.ifMatch == EtagOf(d.files[target].mtime, |d.files[target].bytes|))
  }

  function Put(d: Drive, target: Path, file: File): Drive {
    d.(files := d.files[target := file])
  }

  lemma CopyHasShape(d: Drive, path: Path, req: UploadRequest, vid: Id, now: int, fault: UploadFault)
    returns (target: Path)
    requires path in d.files && req.conflictRename && ValidateRel(req.path) == Ok(path) && !fault.Unseen?
    ensures var (d', r) := StoreCopy(d, path, req, now, fault);
            UploadShape(d, req, vid, now, fault, d', r, target)
  {
    hide ValidateRel, ConflictCopyName, FreeCopyName, Blocked, Directories;
    target := path;
    var name := ConflictCopyName(path, req.deviceTag, req.stamp);
    if name.Ok? {
      var free := FreeCopyName(d.files, name.value, 2);
      if free.Ok? {
        target := free.value;
      }
    }
  }

  lemma OverwriteHasShape(d: Drive, path: Path, req: UploadRequest, vid: Id, now: int, fault: UploadFault)
    requires path in d.files && !req.conflictRename && ValidateRel(req.path) == Ok(path) && !fault.Unseen?
    ensures var (d', r) := Overwrite(d, path, req, vid, now, fault);
            UploadShape(d, req, vid, now, fault, d', r, path)
  {
  }

  lemma UnseenHasShape(d: Drive, req: UploadRequest, vid: Id, now: int, fault: UploadFault)
    requires fault.Unseen?
    ensures var (d', r) := DriverUpload(d, req, vid, now, fault);
            UploadShape(d, req, vid, now, fault, d', r, MustValidate(req.path))
  {
    hide ValidateRel, Directories, Blocked;
  }

  lemma UploadHasShape(d: Drive, req: UploadRequest, vid: Id, now: int, fault: UploadFault)
    returns (target: Path)
    ensures var (d', r) := DriverUpload(d, req, vid, now, fault);
            UploadShape(d, req, vid, now, fault, d', r, target)
  {
    target := MustValidate(req.path);
    if fault.Unseen? {
      UnseenHasShape(d, req, vid, now, fault);
    } else if ValidateRel(req.path).Ok? && target in d.files {
      if req.conflictRename {
        target := CopyHasShape(d, target, req, vid, now, fault);
      } else {
        OverwriteHasShape(d, target, req, vid, now, fault);
      }
    }
  }

  /**
   For every argument and every fault an upload keeps all archived content, the
   file it replaces included, if and only if it does not replace one unseen whose
   bytes are nowhere else. With the conflict-rename flag it leaves every live file
   as it was, unless it replaces one unseen.
   */
  lemma DriverUploadKeeps(d: Drive, req: UploadRequest, vid: Id, now: int, fault: UploadFault)
    requires Valid(d)
    ensures var (d', r) := DriverUpload(d, req, vid, now, fault);
      && Valid(d') && (Keeps(d, d') <==> !UploadLoses(d, req, fault))
      && d' == d.(files := d'.files, blobs := d'.blobs, issued := d'.issued)
      && (forall k :: k in d.blobs ==> k in d'.blobs && d'.blobs[k] == d.blobs[k])
      && (forall v :: v in d.issued ==> v in d'.issued && d'.issued[v] == d.issued[v])
      && (req.conflictRename && !Overwrites(d, req, fault) ==>
            forall p :: p in d.files ==> p in d'.files && d'.files[p] == d.files[p])
      && (forall p :: p in d.files && Ok(p) != ValidateRel(req.path) ==> p in d'.files && d'.files[p] == d.files[p])
  {
    hide DriverUpload, ValidateRel, Valid, UploadShape, UploadLoses, Overwrites, Keeps;
    var (d', r) := DriverUpload(d, req, vid, now, fault);
    var target := UploadHasShape(d, req, vid, now, fault);
    ShapeKeeps(d, req, vid, now, fault, d', r, target);
    ShapeFrame(d, req, vid, now, fault, d', r, target);
    ShapeFiles(d, req, vid, now, fault, d', r, target);
  }

  lemma PutIsValid(d: Drive, target: Path, file: File)
    requires Valid(d)
    ensures Valid(Put(d, target, file))
  {
  }

  lemma ShapeKeeps(d: Drive, req: UploadRequest, vid: Id, now: int, fault: UploadFault, d': Drive,
                   r: Result<Stored, FsError>, target: Path)
    requires Valid(d) && UploadShape(d, req, vid, now, fault, d', r, target)
    ensures Valid(d') && d' == d.(files := d'.files, blobs := d'.blobs, issued := d'.issued)
    ensures Keeps(d, d') <==> !UploadLoses(d, req, fault)
  {
    hide ValidateRel, Directories, Keeps, ArchivedBeside, Blocked, Snapshot, Valid, Stores;
    if Overwrites(d, req, fault) {
      PutIsValid(d, target, File(req.bytes, now));
      PutOverKeepsIff(d, target, File(req.bytes, now));
    } else {
      UnseenOnly(d, req, fault);
      if Stores(d, req, vid, now, d', r, target) {
        StoresKeep(d, req, vid, now, d', r, target);
      } else if d' != d {
        SnapshotKeeps(d, target, vid);
        SnapshotFrame(d, target, vid);
      }
    }
  }

  lemma StoresKeep(d: Drive, req: UploadRequest, vid: Id, now: int, d': Drive, r: Result<Stored, FsError>,
                   target: Path)
    requires Valid(d) && Stores(d, req, vid, now, d', r, target)
    ensures Valid(d') && d' == d.(files := d'.files, blobs := d'.blobs, issued := d'.issued) && Keeps(d, d')
  {
    hide ValidateRel, Directories, EtagOf, Archived, Snapshot, Valid;
    if target in d.files {
      SnapshotKeeps(d, target, vid);
      SnapshotFrame(d, target, vid);
      PutIsValid(Snapshot(d, target, vid), target, File(req.bytes, now));
      PutKeeps(Snapshot(d, target, vid), target, File(req.bytes, now));
    } else {
      PutIsValid(d, target, File(req.bytes, now));
      PutKeeps(d, target, File(req.bytes, now));
    }
  }

  lemma ShapeFrame(d: Drive, req: UploadRequest, vid: Id, now: int, fault: UploadFault, d': Drive,
                   r: Result<Stored, FsError>, target: Path)
    requires Valid(d) && UploadShape(d, req, vid, now, fault, d', r, target)
    ensures forall k :: k in d.blobs ==> k in d'.blobs && d'.blobs[k] == d.blobs[k]
    ensures forall v :: v in d.issued ==> v in d'.issued && d'.issued[v] == d.issued[v]
    ensures r.Ok? && r.value.prev.Some? ==>
              r.value.prev == Some(vid) && vid !in d.issued && vid in d'.issued &&
              BlobKey(MustValidate(req.path), vid) in d'.blobs
  {
    hide ValidateRel, Directories, EtagOf, Valid, Blocked, Overwrites, Snapshot;
    if target in d.files && vid !in d.issued { SnapshotFrame(d, target, vid); }
  }

  lemma SnapshotFrame(d: Drive, path: Path, vid: Id)
    requires Valid(d) && path in d.files && vid !in d.issued
    ensures var d' := Snapshot(d, path, vid);
      && d' == d.(blobs := d'.blobs, issued := d'.issued) && BlobKey(path, vid) in d'.blobs && vid in d'.issued
      && (forall k :: k in d.blobs ==> k in d'.blobs && d'.blobs[k] == d.blobs[k])
      && (forall v :: v in d.issued ==> v in d'.issued && d'.issued[v] == d.issued[v])
  {
    hide SoundTrash, SoundRows;
    assert BlobKey(path, vid) !in d.blobs;
  }

  lemma ShapeFiles(d: Drive, req: UploadRequest, vid: Id, now: int, fault: UploadFault, d': Drive,
                   r: Result<Stored, FsError>, target: Path)
    requires UploadShape(d, req, vid, now, fault, d', r, target)
    ensures req.conflictRename && !Overwrites(d, req, fault) ==>
              forall p :: p in d.files ==> p in d'.files && d'.files[p] == d.files[p]
    ensures forall p :: p in d.files && Ok(p) != ValidateRel(req.path) ==> p in d'.files && d'.files[p] == d.files[p]
  {
    hide ValidateRel, Directories, EtagOf, Blocked, Valid;
    assert forall p :: p in d.files && p != target ==> p in d'.files && d'.files[p] == d.files[p];
  }

  lemma UnseenOnly(d: Drive, req: UploadRequest, fault: UploadFault)
    requires !Overwrites(d, req, fault)
    ensures !UploadLoses(d, req, fault) && Keeps(d, d)
  {
  }

  lemma AddRowKeeps(d: Drive, path: Path, vid: Id, size: nat, at: int)
    requires Valid(d) && vid in d.issued && BlobKey(path, vid) in d.blobs
    requires forall i :: i in d.rows ==> d.rows[i].vid != vid
    ensures var d' := AddRow(d, path, vid, size, at);
      Valid(d') && Keeps(d, d') && (RowsResolve(d) ==> RowsResolve(d'))
  {
  }

  lemma IndexKeeps(d: Drive, path: Path, r: Result<Stored, FsError>, now: int, fault: UploadFault)
    requires Valid(d)
    requires r.Ok? && r.value.prev.Some? ==>
               r.value.prev.value in d.issued && BlobKey(path, r.value.prev.value) in d.blobs &&
               forall i :: i in d.rows ==> d.rows[i].vid != r.value.prev.value
    ensures var d' := IndexSnapshot(d, path, r, now, fault);
      Valid(d') && Keeps(d, d') && (RowsResolve(d) ==> RowsResolve(d'))
  {
    if r.Ok? && r.value.prev.Some? {
      AddRowKeeps(d, path, r.value.prev.value, r.value.prevSize, now);
    }
  }

  /** Indexing changes nothing that is archived. */
  lemma IndexIsBeside(d: Drive, d1: Drive, path: Path, r: Result<Stored, FsError>, now: int, fault: UploadFault)
    ensures Keeps(d, IndexSnapshot(d1, path, r, now, fault)) <==> Keeps(d, d1)
  {
    hide InFiles, InTrash, InStranded, InBlobs;
    var d' := IndexSnapshot(d1, path, r, now, fault);
    assert forall b :: Archived(d', b) == Archived(d1, b);
  }

  lemma UploadKeeps(d: Drive, req: UploadRequest, vid: Id, now: int, fault: UploadFault)
    requires Valid(d)
    ensures var (d', r) := Upload(d, req, vid, now, fault);
      Valid(d') && (Keeps(d, d') <==> !UploadLoses(d, req, fault)) && (RowsResolve(d) ==> RowsResolve(d'))
  {
    hide DriverUpload, ValidateRel, UploadShape, IndexSnapshot, UploadLoses, Overwrites;
    var (d1, r) := DriverUpload(d, req, vid, now, fault);
    var target := UploadHasShape(d, req, vid, now, fault);
    ShapeKeeps(d, req, vid, now, fault, d1, r, target);
    ShapeFrame(d, req, vid, now, fault, d1, r, target);
    IndexKeeps(d1, MustValidate(req.path), r, now, fault);
    IndexIsBeside(d, d1, MustValidate(req.path), r, now, fault);
  }

  /**
   With the conflict-rename flag a stored upload goes to a name nothing occupied,
   and is marked as a conflict copy exactly when that is not the requested path;
   unless it could not see the file there: that one it replaces, unmarked.
   */
  lemma ConflictCopyIsNew(d: Drive, req: UploadRequest, vid: Id, now: int, fault: UploadFault)
    requires req.conflictRename && DriverUpload(d, req, vid, now, fault).1.Ok?
    ensures var (d', r) := DriverUpload(d, req, vid, now, fault);
      && (r.value.entry.path !in Occupied(d.files) <==> !Overwrites(d, req, fault))
      && (Overwrites(d, req, fault) ==> Ok(r.value.entry.path) == ValidateRel(req.path))
      && d' == Put(d, r.value.entry.path, File(req.bytes, now))
      && r.value.prev == None
      && (r.value.conflicted <==> Ok(r.value.entry.path) != ValidateRel(req.path))
  {
    hide ValidateRel, Directories, Blocked;
    var target := UploadHasShape(d, req, vid, now, fault);
  }
}
