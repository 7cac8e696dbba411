/** What one failure-free step of a pass does to its own path, its conflict copy, and every other path. */
module SyncStep {
  import opened ConflictName
  import opened DriveArchive
  import opened DriveInvariant
  import opened DriveModel
  import opened DriveRuns
  import opened LogicalPath
  import opened Strings
  import opened SyncModel
  import opened SyncNoLoss
  import opened Wrappers

  // ---- paths of a pair ----

  /** Seen by both walks. */
  predicate Shared(p: Path) {
    LocalVisible(p) && RemoteVisible(p) && p != "" && p[0] == '/'
  }

  lemma JoinClean(dir: Path, p: Path)
    requires CleanPath(dir) && Rel(p)
    ensures CleanPath(JoinRemote(dir, p)) && JoinRemote(dir, p) != "/"
  {
    hide CleanPath;
    if dir != "/" { ConcatClean(dir, p); }
  }

  lemma TailClean(dir: Path, p: Path)
    requires CleanPath(dir) && dir != "/" && CleanPath(p) && HasPrefix(p, dir + "/")
    ensures Rel(TrimPrefix(p, dir)) && JoinRemote(dir, TrimPrefix(p, dir)) == p
  {
    hide CleanPath;
    TailIsRel(dir, p);
  }

  lemma JoinInjective(dir: Path, p: Path, q: Path)
    requires JoinRemote(dir, p) == JoinRemote(dir, q)
    ensures p == q
  {
    if dir != "/" {
      assert (dir + p)[|dir|..] == p && (dir + q)[|dir|..] == q;
    }
  }

  lemma ConflictPathLonger(p: Path, tag: string, stamp: string)
    ensures |ConflictPath(p, tag, stamp)| > |p|
  {
    PartsRejoin(p);
    var name := NamePart(p);
    assert |TrimSuffix(name, Ext(name))| + |Ext(name)| == |name|;
    assert |Suffix(tag, stamp)| > 0;
  }

  lemma JoinKeepsName(dir: Path, p: Path)
    requires p != "" && p[0] == '/'
    ensures NamePart(JoinRemote(dir, p)) == NamePart(p)
  {
    if dir != "/" { LastIndexUnique(dir + p, '/', |dir| + LastIndex(p, '/')); }
  }

  // ---- what a path looks like ----

  function LocalAt(w: World, p: Path): Option<File> {
    if p in w.local then Some(w.local[p]) else None
  }

  function RemoteAt(w: World, dir: Path, p: Path): Option<File> {
    if JoinRemote(dir, p) in w.drive.files then Some(w.drive.files[JoinRemote(dir, p)]) else None
  }

  /** The local file, the remote file and the baseline entry are one. */
  predicate AgreeAt(w: World, dir: Path, p: Path) {
    && LocalAt(w, p) == RemoteAt(w, dir, p)
    && (LocalAt(w, p).None? <==> Lookup(w.base, p).None?)
    && (LocalAt(w, p).Some? && Lookup(w.base, p).Some? ==>
          Lookup(w.base, p).value.Same(MetaOf(LocalAt(w, p).value)))
  }

  predicate SameAt(w: World, w': World, dir: Path, p: Path) {
    LocalAt(w', p) == LocalAt(w, p) && RemoteAt(w', dir, p) == RemoteAt(w, dir, p) &&
    Lookup(w'.base, p) == Lookup(w.base, p)
  }

  // ---- failure-free outcomes ----

  predicate ClearPush(p: Push) { p.gap == [] && p.reply.Answered? && p.fault.NoFault? }

  predicate ClearFetch(f: Fetch) { f.gap == [] && f.ok && f.touched }

  /** Nothing fails and no other client acts while this path is handled. */
  predicate Clear(f: Fate) {
    && ClearPush(f.push) && f.touched && ClearPush(f.park) && ClearFetch(f.fetch) && ClearFetch(f.canonical)
    && ClearFetch(f.copy) && f.remove.gap == [] && f.remove.reply.Answered? && f.stat.gap == [] && f.stat.ok
    && f.remove.ending.Deletes? && f.mkdirOk && f.mkdirCopyOk && f.binOk && f.binUnseen == {}
  }

  lemma CleanTarget(dir: Path, p: Path)
    requires CleanPath(dir) && Rel(p)
    ensures ValidateRel(JoinRemote(dir, p)) in {Ok(JoinRemote(dir, p)), Err(Invalid)}
    ensures MustValidate(JoinRemote(dir, p)) in {JoinRemote(dir, p), "/"}
  {
    hide ValidateRel;
    JoinClean(dir, p);
    ValidateClean(JoinRemote(dir, p));
  }

  lemma RefusedUploadChangesNothing(d: Drive, req: UploadRequest, vid: Id, now: int, fault: UploadFault)
    requires !req.conflictRename && Upload(d, req, vid, now, fault).1 == Err(Conflict)
    ensures Upload(d, req, vid, now, fault).0 == d
  {
    hide ValidateRel, Occupied, FreeCopyName, Blocked;
  }

  lemma ClearUpload(w: World, dir: Path, from: Path, to: Path, ifMatch: string, p: Push)
    requires ClearPush(p) && CleanPath(dir) && Rel(to)
    ensures var (w', r) := UploadFile(w, dir, from, to, ifMatch, p);
      && w' == w.(drive := w'.drive)
      && (r.Mismatch? ==> w' == w)
      && (r.Recorded? ==>
            && from in w.local
            && w'.drive.files == w.drive.files[JoinRemote(dir, to) := File(w.local[from].bytes, p.now)]
            && r.meta.Same(MetaOf(File(w.local[from].bytes, p.now))))
  {
    hide DriveModel.Upload, ValidateRel, DriverUpload;
    if from in w.local {
      assert Run(w.drive, []) == w.drive;
      var req := UploadRequest(JoinRemote(dir, to), w.local[from].bytes, ifMatch, false, "", "");
      CleanTarget(dir, to);
      var r := Upload(w.drive, req, p.vid, p.now, p.fault).1;
      if r == Err(Conflict) {
        RefusedUploadChangesNothing(w.drive, req, p.vid, p.now, p.fault);
      } else if r.Ok? {
        StoredWhere(w.drive, req, p.vid, p.now, p.fault);
      }
    }
  }

  lemma StoredWhere(d: Drive, req: UploadRequest, vid: Id, now: int, fault: UploadFault)
    requires !req.conflictRename && Upload(d, req, vid, now, fault).1.Ok?
    ensures var (d', r) := Upload(d, req, vid, now, fault);
      && ValidateRel(req.path).Ok?
      && d'.files == d.files[ValidateRel(req.path).value := File(req.bytes, now)]
      && r.value.entry.size == |req.bytes| && r.value.entry.mtime == now
  {
    hide ValidateRel, DriverUpload;
    var target := UploadHasShape(d, req, vid, now, fault);
  }

  lemma ClearPull(w: World, dir: Path, rel: Path, to: Path, f: Fetch)
    requires ClearFetch(f) && CleanPath(dir) && Rel(rel) && Tidy(w.drive)
    ensures var (w', ok) := PullTo(w, dir, rel, to, f);
      ok ==> JoinRemote(dir, rel) in w.drive.files && MustValidate(JoinRemote(dir, rel)) == JoinRemote(dir, rel) &&
             var file := File(w.drive.files[JoinRemote(dir, rel)].bytes, f.now);
             w' == w.(local := (w.local - {StagingOf(to)})[to := file])
  {
    hide ValidateRel, LocalBlocked, CleanPath;
    CleanTarget(dir, rel);
    assert Run(w.drive, []) == w.drive;
  }

  lemma ClearDelete(w: World, dir: Path, rel: Path, f: Remove)
    requires f.gap == [] && CleanPath(dir) && Rel(rel) && JoinRemote(dir, rel) in w.drive.files
    requires RemoveRemote(w, dir, rel, f).1
    ensures var w' := RemoveRemote(w, dir, rel, f).0;
      w' == w.(drive := w'.drive) && w'.drive.files == w.drive.files - {JoinRemote(dir, rel)}
  {
    hide ValidateRel, VersionsUnder, Detach;
    CleanTarget(dir, rel);
    assert Run(w.drive, []) == w.drive;
  }

  lemma PullFrame(w: World, dir: Path, rel: Path, to: Path, f: Fetch)
    ensures var w' := PullTo(w, dir, rel, to, f).0; w' == w.(drive := w'.drive, local := w'.local)
  {
    hide MustValidate, JoinRemote, LocalBlocked, Strew;
  }

  lemma RemoveFrame(w: World, dir: Path, rel: Path, f: Remove)
    ensures var w' := RemoveRemote(w, dir, rel, f).0; w' == w.(drive := w'.drive)
  {
    hide Delete;
  }
}
