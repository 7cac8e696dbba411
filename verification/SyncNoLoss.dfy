/**
 No pass of the sync engine loses content, whatever fails and wherever it stops,
 unless other clients purge the drive or something is overwritten unseen: on the
 drive, in the local trash, or below a path the local walk did not report.
 */
module SyncNoLoss {
  import opened ConflictName
  import opened DriveArchive
  import opened DriveInvariant
  import opened DriveModel
  import opened DriveRuns
  import opened DriveTrash
  import opened LogicalPath
  import opened Strings
  import opened SyncModel
  import opened Wrappers

  // ---- where content is ----

  /** Staging names belong to the engine; everything else below the local directory is the user's. */
  predicate Kept(local: map<Path, File>, b: Bytes) {
    exists p :: p in local && !ConflictName.Staging(NamePart(p)) && local[p].bytes == b
  }

  /** Live locally, in the local trash, or anywhere in the drive's archive. */
  predicate Held(w: World, b: Bytes) {
    Kept(w.local, b) || Archived(w.drive, b)
  }

  ghost predicate Holds(w: World, w': World) {
    forall b: Bytes :: Held(w, b) ==> Held(w', b)
  }

  /** Some other file of the user's, not a staging file, has these bytes. */
  predicate KeptElsewhere(local: map<Path, File>, p: Path, b: Bytes) {
    exists q :: q in local && q != p && !ConflictName.Staging(NamePart(q)) && local[q].bytes == b
  }

  /** The bytes at `p`, if there are any, are in the archive or in another local file. */
  predicate HeldBeside(w: World, p: Path) {
    p in w.local ==> Archived(w.drive, w.local[p].bytes) || KeptElsewhere(w.local, p, w.local[p].bytes)
  }

  // ---- what a pass may assume ----

  /** A pull over a path the local walk did not report finds nothing there that is only there. */
  predicate PullCare(w: World, l: Option<Meta>, r: Option<Meta>, rp: Path) {
    l.None? && Changed(r, Lookup(w.base, rp)) ==> HeldBeside(w, rp)
  }

  /** A place in the local trash that is taken to be free has nothing in it that is only there. */
  predicate BinCare(w: World, rp: Path, fate: Fate) {
    var dst := FreeBin(w.local, fate.binStamp, rp, 0, fate.binUnseen);
    dst.Some? ==> HeldBeside(w, dst.value)
  }

  /** Nothing a step asks of the drive, or does locally, overwrites or removes what is nowhere else. */
  ghost predicate CarefulStep(w: World, dir: Path, tag: string, l: Option<Meta>, r: Option<Meta>, rp: Path, fate: Fate)
  {
    && Careful(w.drive, StepOps(w, dir, tag, l, r, rp, fate)) && PullCare(w, l, r, rp)
    && (l.Some? && r.None? ==> BinCare(w, rp, fate))
  }

  /** What the baseline calls unchanged is in the archive. */
  predicate Backed(w: World, q: Path) {
    q in w.local && q in w.base && MetaOf(w.local[q]).Same(w.base[q]) ==> Archived(w.drive, w.local[q].bytes)
  }

  /** A file that was not there at the start came from the drive. */
  predicate Known(w0: World, w: World, q: Path) {
    q in w.local ==> (q in w0.local && w.local[q] == w0.local[q]) || Archived(w.drive, w.local[q].bytes)
  }

  predicate Pending(w0: World, w: World, q: Path) {
    q in w0.local ==> q in w.local && w.local[q] == w0.local[q] && Lookup(w.base, q) == Lookup(w0.base, q)
  }

  /** The invariant of the loop; `todo` are the paths not reached yet. */
  ghost predicate Inv(w0: World, w: World, todo: seq<Path>) {
    && Valid(w.drive) && Keeps(w0.drive, w.drive) && Holds(w0, w)
    && (forall q :: LocalVisible(q) ==> Backed(w, q) && Known(w0, w, q))
    && (forall q :: q in todo && LocalVisible(q) ==> Pending(w0, w, q))
  }

  // ---- one action ----

  /** An action that touched no file and no entry but those of `paths`. */
  ghost predicate Within(w: World, w': World, paths: set<Path>) {
    && Valid(w'.drive) && Keeps(w.drive, w'.drive)
    && (forall q :: q !in paths && !ConflictName.Staging(NamePart(q)) ==>
          (q in w.local <==> q in w'.local) && (q in w.local ==> w'.local[q] == w.local[q]))
    && (forall q :: q !in paths ==> Lookup(w'.base, q) == Lookup(w.base, q))
  }

  lemma WithinHolds(w: World, w': World, paths: set<Path>)
    requires Within(w, w', paths)
    requires forall q :: q in paths && q in w.local ==> Held(w', w.local[q].bytes)
    ensures Holds(w, w')
  {
    forall b | Held(w, b) ensures Held(w', b) {
      if Kept(w.local, b) {
        var p :| p in w.local && !ConflictName.Staging(NamePart(p)) && w.local[p].bytes == b;
        if p !in paths { assert p in w'.local && w'.local[p].bytes == b; }
      }
    }
  }

  lemma ServeKeeps(w: World, gap: seq<Op>)
    requires Valid(w.drive) && Careful(w.drive, gap)
    ensures Within(w, Serve(w, gap), {})
  {
    RunKeeps(w.drive, gap);
  }

  lemma StoredIsLive(d: Drive, req: UploadRequest, vid: Id, now: int, fault: UploadFault)
    requires Upload(d, req, vid, now, fault).1.Ok?
    ensures InFiles(Upload(d, req, vid, now, fault).0.files, req.bytes)
  {
    hide ValidateRel;
    var target := UploadHasShape(d, req, vid, now, fault);
    var d' := Upload(d, req, vid, now, fault).0;
    assert target in d'.files && d'.files[target].bytes == req.bytes;
  }

  lemma WithinDrive(w: World, d1: Drive, d2: Drive)
    requires Keeps(w.drive, d1) && Valid(d2) && Keeps(d1, d2)
    ensures Within(w, w.(drive := d2), {})
  {
    hide Valid, Archived;
  }

  lemma KeepsItself(d: Drive)
    ensures Keeps(d, d)
  {
  }

  lemma LiveIsArchived(d: Drive, b: Bytes)
    requires InFiles(d.files, b)
    ensures Archived(d, b)
  {
  }

  lemma UploadFileArchives(w: World, dir: Path, from: Path, to: Path, ifMatch: string, p: Push)
    requires Valid(w.drive) && Careful(w.drive, UploadOps(w, dir, from, to, ifMatch, p))
    ensures var (w', r) := UploadFile(w, dir, from, to, ifMatch, p);
      && Within(w, w', {}) && w' == w.(drive := w'.drive)
      && w'.drive == Run(w.drive, UploadOps(w, dir, from, to, ifMatch, p))
      && (r.Recorded? ==> from in w.local && Archived(w'.drive, w.local[from].bytes))
  {
    hide DriveModel.Upload, Run, Valid, Keeps, Archived, Within, InFiles, JoinRemote, Careful, Clobbers;
    KeepsItself(w.drive);
    WithinDrive(w, w.drive, w.drive);
    if from in w.local {
      var req := UploadRequest(JoinRemote(dir, to), w.local[from].bytes, ifMatch, false, "", "");
      var op := UploadOp(req, p.vid, p.now, p.fault);
      RunParts(w.drive, p.gap, [op]);
      RunKeeps(w.drive, p.gap);
      var w1 := Serve(w, p.gap);
      KeepsItself(w1.drive);
      WithinDrive(w, w1.drive, w1.drive);
      if !p.reply.Dropped? {
        OneOp(w1.drive, op);
        ApplyKeeps(w1.drive, op);
        var (d2, r) := Upload(w1.drive, req, p.vid, p.now, p.fault);
        WithinDrive(w, w1.drive, d2);
        if r.Ok? {
          StoredIsLive(w1.drive, req, p.vid, p.now, p.fault);
          LiveIsArchived(d2, w.local[from].bytes);
        }
      }
    } else {
      RunNothing(w.drive);
    }
  }

  lemma OneOp(d: Drive, op: Op)
    ensures Run(d, [op]) == Apply(d, op) && (Careful(d, [op]) ==> !Purges(op) && !Clobbers(d, op))
  {
    hide Apply, Clobbers;
    assert [op][1..] == [];
  }

  lemma RunNothing(d: Drive)
    ensures Run(d, []) == d && Careful(d, [])
  {
  }

  lemma StagingNames(to: Path)
    ensures ConflictName.Staging(NamePart(StagingOf(to)))
  {
    var s := StagingOf(to);
    var at := LastIndex(s, '/');
    assert forall k :: |to| <= k < |s| ==> s[k] == ".xxpart"[k - |to|] != '/';
    assert at < |to|;
    assert s[|s| - 7..] == ".xxpart";
    assert NamePart(s)[|NamePart(s)| - 7..] == ".xxpart";
  }

  /** A new file in place of the staging file: nothing else of the user's changes. */
  lemma PulledWithin(w: World, w': World, to: Path, f: File)
    requires Within(w, w.(drive := w'.drive), {})
    requires w' == w.(drive := w'.drive, local := (w.local - {StagingOf(to)})[to := f])
    ensures Within(w, w', {to})
  {
    StagingNames(to);
    hide ConflictName.Staging, NamePart, StagingOf, Valid, Keeps;
  }

  lemma StrewnWithin(w: World, w': World, to: Path, litter: Litter)
    requires Within(w, w.(drive := w'.drive), {})
    requires w' == w.(drive := w'.drive, local := Strew(w.local, to, litter))
    ensures Within(w, w', {})
  {
    StagingNames(to);
    hide ConflictName.Staging, NamePart, StagingOf, Valid, Keeps;
  }

  lemma PullArchives(w: World, dir: Path, rel: Path, to: Path, f: Fetch)
    requires Valid(w.drive) && Careful(w.drive, f.gap)
    ensures var (w', ok) := PullTo(w, dir, rel, to, f);
      && Within(w, w', if ok then {to} else {}) && w' == w.(drive := Run(w.drive, f.gap), local := w'.local)
      && (ok ==> to in w'.local && Archived(w'.drive, w'.local[to].bytes))
  {
    hide LocalBlocked, Run, StagingOf, Valid, Keeps, Archived, Within, InFiles, JoinRemote, MustValidate, Strew,
         Careful;
    RunKeeps(w.drive, f.gap);
    var w1 := Serve(w, f.gap);
    KeepsItself(w1.drive);
    WithinDrive(w, w1.drive, w1.drive);
    var source := MustValidate(JoinRemote(dir, rel));
    if source in w1.drive.files {
      if !f.ok || LocalBlocked(w.local, to) {
        StrewnWithin(w, PullTo(w, dir, rel, to, f).0, to, f.litter);
      } else {
        PulledWithin(w, PullTo(w, dir, rel, to, f).0, to, File(w1.drive.files[source].bytes, f.now));
        assert InFiles(w1.drive.files, w1.drive.files[source].bytes) by { LiveAt(w1.drive, source); }
        LiveIsArchived(w1.drive, w1.drive.files[source].bytes);
      }
    }
  }

  lemma LiveAt(d: Drive, p: Path)
    requires p in d.files
    ensures InFiles(d.files, d.files[p].bytes)
  {
  }

  lemma RemoveKeeps(w: World, dir: Path, rel: Path, f: Remove)
    requires Valid(w.drive) && Careful(w.drive, RemoveOps(dir, rel, f))
    ensures var (w', ok) := RemoveRemote(w, dir, rel, f); Within(w, w', {}) && w' == w.(drive := w'.drive)
  {
    hide DriveModel.Delete, Run, Valid, Keeps, Within, JoinRemote, Careful;
    var op := DeleteOp(JoinRemote(dir, rel), f.id, f.now, f.queryOk, f.ending);
    RunParts(w.drive, f.gap, [op]);
    RunKeeps(w.drive, f.gap);
    var w1 := Serve(w, f.gap);
    KeepsItself(w1.drive);
    WithinDrive(w, w1.drive, w1.drive);
    DeleteKeeps(w1.drive, JoinRemote(dir, rel), f.id, f.now, f.queryOk, f.ending);
    WithinDrive(w, w1.drive, Delete(w1.drive, JoinRemote(dir, rel), f.id, f.now, f.queryOk, f.ending).0);
  }

  // ---- paths ----

  lemma VisibleIsNotStaging(q: Path)
    requires LocalVisible(q)
    ensures !ConflictName.Staging(NamePart(q))
  {
    hide ConflictName.Staging, Split, DirPart, NamePart, HiddenDir;
    PartsRejoin(q);
    SplitParts(DirPart(q), NamePart(q));
    var segs := Split(DirPart(q) + NamePart(q));
    assert segs[|segs| - 1] == NamePart(q);
  }

  lemma RemoteVisibleName(q: Path)
    requires RemoteVisible(q)
    ensures !ConflictName.Staging(NamePart(q))
  {
    PartsRejoin(q);
    SplitParts(DirPart(q), NamePart(q));
    hide ConflictName.Staging;
    var segs := Split(DirPart(q) + NamePart(q));
    assert segs[|segs| - 1] == NamePart(q);
  }

  lemma BelowHiddenDir(top: string, rest: string)
    requires NoneOf(top, '/') && HiddenDir(top)
    ensures !LocalVisible("/" + top + ("/" + rest))
  {
    SplitAt("/" + top, rest);
    SplitSlash(top);
    SplitPlain(top);
    hide Split, HiddenDir, ConflictName.Staging;
    var segs := Split("/" + top + ("/" + rest));
    assert segs == ["", top] + Split(rest);
    assert segs[1] == top && |segs| > 2;
  }

  lemma BinPathIsHidden(stamp: string, n: nat, p: Path)
    ensures !LocalVisible(BinPath(stamp, n, p))
  {
    hide LocalVisible, Numeral;
    var rest := stamp + (if n == 0 then "" else "-" + Numeral(n, Ten)) + p;
    assert "/" + ".xxdrive-trash" == "/.xxdrive-trash";
    BelowHiddenDir(".xxdrive-trash", rest);
  }

  lemma BinPathKeepsName(stamp: string, n: nat, p: Path)
    requires p != "" && p[0] == '/'
    ensures NamePart(BinPath(stamp, n, p)) == NamePart(p)
  {
    var front := "/.xxdrive-trash" + ("/" + (stamp + (if n == 0 then "" else "-" + Numeral(n, Ten))));
    var b := BinPath(stamp, n, p);
    assert b == front + p;
    LastIndexUnique(b, '/', |front| + LastIndex(p, '/'));
  }

  lemma BinIsElsewhere(w: World, p: Path, stamp: string, unseen: set<Path>) returns (dst: Path)
    requires LocalVisible(p) && p != "" && p[0] == '/' && FreeBin(w.local, stamp, p, 0, unseen).Some?
    ensures dst == FreeBin(w.local, stamp, p, 0, unseen).value && dst != p
    ensures !LocalVisible(dst) && !ConflictName.Staging(NamePart(dst))
  {
    dst := FreeBin(w.local, stamp, p, 0, unseen).value;
    hide LocalVisible, NamePart, ConflictName.Staging, BinPath, FreeBin, Directories;
    var m: nat :| dst == BinPath(stamp, m, p);
    BinPathIsHidden(stamp, m, p);
    BinPathKeepsName(stamp, m, p);
    VisibleIsNotStaging(p);
  }

  /** A file moved over another one: what was at `dst` stays held just when it was held beside it. */
  lemma BinnedHoldsIff(w: World, w': World, p: Path, dst: Path)
    requires p in w.local && p != dst && !ConflictName.Staging(NamePart(p)) && !ConflictName.Staging(NamePart(dst))
    requires w' == w.(local := (w.local - {p})[dst := w.local[p]])
    ensures Holds(w, w') <==> HeldBeside(w, dst)
  {
    hide ConflictName.Staging, NamePart, Archived;
    assert dst in w'.local && w'.local[dst].bytes == w.local[p].bytes;
    forall b | Held(w, b) && HeldBeside(w, dst) ensures Held(w', b) {
      if Kept(w.local, b) && !Archived(w.drive, b) {
        var q :| q in w.local && !ConflictName.Staging(NamePart(q)) && w.local[q].bytes == b;
        if q == dst {
          var o :| o in w.local && o != dst && !ConflictName.Staging(NamePart(o)) && w.local[o].bytes == b;
          BinnedStill(w, w', p, dst, o);
        } else {
          BinnedStill(w, w', p, dst, q);
        }
      }
    }
    if !HeldBeside(w, dst) {
      var b := w.local[dst].bytes;
      assert Held(w, b);
      assert forall q :: q in w'.local && !ConflictName.Staging(NamePart(q)) ==> w'.local[q].bytes != b;
      assert !Held(w', b);
    }
  }

  lemma BinnedStill(w: World, w': World, p: Path, dst: Path, q: Path)
    requires p in w.local && p != dst && q in w.local && q != dst && !ConflictName.Staging(NamePart(q))
    requires !ConflictName.Staging(NamePart(dst))
    requires w' == w.(local := (w.local - {p})[dst := w.local[p]])
    ensures Kept(w'.local, w.local[q].bytes)
  {
    hide ConflictName.Staging, NamePart;
    var o := if q == p then dst else q;
    assert o in w'.local && w'.local[o].bytes == w.local[q].bytes;
  }

  /** Moving a file into the local trash loses content if and only if it goes over a file held nowhere else. */
  lemma TrashHoldsIff(w: World, p: Path, stamp: string, ok: bool, unseen: set<Path>)
    requires LocalVisible(p) && p != "" && p[0] == '/'
    ensures var (w', done) := TrashLocal(w, p, stamp, ok, unseen); var dst := FreeBin(w.local, stamp, p, 0, unseen);
      Holds(w, w') <==> !done || HeldBeside(w, dst.value)
  {
    hide LocalVisible, NamePart, ConflictName.Staging, FreeBin, LocalBlocked, HeldBeside, Held;
    var (w', done) := TrashLocal(w, p, stamp, ok, unseen);
    if done {
      var dst := BinIsElsewhere(w, p, stamp, unseen);
      VisibleIsNotStaging(p);
      BinnedHoldsIff(w, w', p, dst);
    }
  }

  lemma TrashKeeps(w: World, p: Path, stamp: string, ok: bool, unseen: set<Path>) returns (dst: Path)
    requires Valid(w.drive) && LocalVisible(p) && p != "" && p[0] == '/'
    requires var at := FreeBin(w.local, stamp, p, 0, unseen); at.Some? ==> HeldBeside(w, at.value)
    ensures !LocalVisible(dst)
    ensures var (w', done) := TrashLocal(w, p, stamp, ok, unseen);
      && Within(w, w', if done then {p, dst} else {}) && w' == w.(local := w'.local) && Holds(w, w')
      && (done ==> p !in w'.local)
  {
    hide LocalVisible, NamePart, ConflictName.Staging, BinPath, FreeBin, LocalBlocked, HeldBeside, Held, Archived;
    TrashHoldsIff(w, p, stamp, ok, unseen);
    var (w', done) := TrashLocal(w, p, stamp, ok, unseen);
    if done {
      dst := BinIsElsewhere(w, p, stamp, unseen);
    } else {
      dst := BinPath("", 0, "");
      BinPathIsHidden("", 0, "");
    }
  }

  // ---- one path ----

  /** An action over `paths` whose files, afterwards, all came from the drive or are in it. */
  ghost predicate Acts(w: World, w': World, paths: set<Path>) {
    && Within(w, w', paths)
    && (forall q :: q in paths && q in w'.local && !ConflictName.Staging(NamePart(q)) ==>
          Archived(w'.drive, w'.local[q].bytes))
  }

  lemma ActsTrans(w: World, w1: World, w2: World, a: set<Path>, b: set<Path>)
    requires Acts(w, w1, a) && Acts(w1, w2, b)
    ensures Acts(w, w2, a + b)
  {
  }

  /** Setting a time, or an entry, of a path whose content is archived. */
  lemma SettleActs(w: World, w': World, p: Path)
    requires Valid(w.drive) && w' == w.(local := w'.local, base := w'.base)
    requires p in w.local ==> Archived(w.drive, w.local[p].bytes)
    requires forall q :: q != p ==> Lookup(w'.base, q) == Lookup(w.base, q)
    requires w'.local == w.local || exists t :: w'.local == Touch(w, p, t, true).local
    ensures Acts(w, w', {p})
  {
  }

  /** From the parked copy to the converged canonical path. */
  lemma CanonicalActs(w: World, dir: Path, rp: Path, listed: Meta, fate: Fate)
    requires Valid(w.drive) && !ConflictName.Staging(NamePart(rp))
    requires Careful(w.drive, fate.canonical.gap) && Careful(Run(w.drive, fate.canonical.gap), fate.stat.gap)
    requires PullTo(w, dir, rp, rp, fate.canonical).1
    ensures var w2 := PullTo(w, dir, rp, rp, fate.canonical).0;
      var meta := FreshMeta(w2, dir, rp, fate.stat, listed);
      Acts(w, Touch(Serve(w2, fate.stat.gap), rp, meta.mtime, fate.canonical.touched), {rp})
  {
    hide PullTo, Run, Careful, ConflictName.Staging, NamePart, FreshMeta, Valid, Archived;
    var w2 := PullTo(w, dir, rp, rp, fate.canonical).0;
    PullArchives(w, dir, rp, rp, fate.canonical);
    var meta := FreshMeta(w2, dir, rp, fate.stat, listed);
    var served := Serve(w2, fate.stat.gap);
    ServeKeeps(w2, fate.stat.gap);
    ActsTrans(w, w2, served, {rp}, {});
    var w3 := Touch(served, rp, meta.mtime, fate.canonical.touched);
    SettleActs(served, w3, rp);
    ActsTrans(w, served, w3, {rp} + {}, {rp});
    assert {rp} + {} + {rp} == {rp};
  }

  /** From there to the mirrored copy and the two baseline entries. */
  lemma MirrorActs(w: World, dir: Path, rp: Path, conf: Path, meta: Meta, copyMeta: Meta, fetch: Fetch)
    requires Valid(w.drive) && Careful(w.drive, fetch.gap)
    requires !ConflictName.Staging(NamePart(rp)) && !ConflictName.Staging(NamePart(conf))
    requires rp in w.local ==> Archived(w.drive, w.local[rp].bytes)
    requires PullTo(w, dir, conf, conf, fetch).1
    ensures var w5 := Touch(PullTo(w, dir, conf, conf, fetch).0, conf, copyMeta.mtime, fetch.touched);
      Acts(w, w5.(base := w5.base[rp := meta][conf := copyMeta]), {rp, conf})
  {
    hide PullTo, ConflictName.Staging, NamePart, Valid, Archived;
    var w4 := PullTo(w, dir, conf, conf, fetch).0;
    PullArchives(w, dir, conf, conf, fetch);
    var w5 := Touch(w4, conf, copyMeta.mtime, fetch.touched);
    SettleActs(w4, w5, conf);
    ActsTrans(w, w4, w5, {conf}, {conf});
    var w6 := w5.(base := w5.base[rp := meta]);
    assert rp in w5.local ==> Archived(w5.drive, w5.local[rp].bytes);
    SettleActs(w5, w6, rp);
    ActsTrans(w, w5, w6, {conf} + {conf}, {rp});
    var w7 := w6.(base := w6.base[conf := copyMeta]);
    SettleActs(w6, w7, conf);
    ActsTrans(w, w6, w7, {conf} + {conf} + {rp}, {conf});
    assert {conf} + {conf} + {rp} + {conf} == {rp, conf};
  }

  lemma ConflictActs(w: World, dir: Path, tag: string, rp: Path, listed: Meta, fate: Fate) returns (paths: set<Path>)
    requires Valid(w.drive) && Careful(w.drive, ConflictOps(w, dir, tag, rp, fate))
    requires !ConflictName.Staging(NamePart(rp))
    requires !ConflictName.Staging(NamePart(ConflictPath(rp, tag, fate.stamp)))
    ensures paths <= {rp, ConflictPath(rp, tag, fate.stamp)}
    ensures var w' := ResolveConflict(w, dir, tag, rp, listed, fate);
      && Acts(w, w', paths)
      && (paths != {} ==> rp in w.local && Archived(w'.drive, w.local[rp].bytes))
  {
    hide UploadFile, PullTo, Run, ConflictPath, ConflictName.Staging, NamePart, FreshMeta, Valid, Archived, Touch,
         Careful, UploadOps, Acts;
    var conf := ConflictPath(rp, tag, fate.stamp);
    var (w1, parked) := UploadFile(w, dir, rp, conf, "", fate.park);
    var first := UploadOps(w, dir, rp, conf, "", fate.park);
    ParkedCareful(w, dir, tag, rp, fate);
    UploadFileArchives(w, dir, rp, conf, "", fate.park);
    ActsNothing(w, w1);
    ReportActs(w, w1, {});
    paths := {};
    if parked.Recorded? {
      var (w2, pulled) := PullTo(w1, dir, rp, rp, fate.canonical);
      PullArchives(w1, dir, rp, rp, fate.canonical);
      if !pulled {
        ActsNothing(w1, w2);
        ActsTrans(w, w1, w2, {}, {});
        assert {} + {} == paths;
        ReportActs(w, w2, {});
      } else {
        paths := {rp};
        CanonicalActs(w1, dir, rp, listed, fate);
        var meta := FreshMeta(w2, dir, rp, fate.stat, listed);
        var w3 := Touch(Serve(w2, fate.stat.gap), rp, meta.mtime, fate.canonical.touched);
        TouchIsLocal(Serve(w2, fate.stat.gap), rp, meta.mtime, fate.canonical.touched);
        ActsTrans(w, w1, w3, {}, {rp});
        assert {} + {rp} == {rp};
        ActsKeep(w1, w3, {rp}, w.local[rp].bytes);
        ReportActs(w, w3, {rp});
        if fate.mkdirCopyOk {
          paths := MirroredActs(w, w3, dir, tag, rp, listed, fate, meta, parked.meta);
        }
      }
    }
  }

  /** The care taken of the whole conflict, part by part. */
  lemma ParkedCareful(w: World, dir: Path, tag: string, rp: Path, fate: Fate)
    requires Careful(w.drive, ConflictOps(w, dir, tag, rp, fate))
    ensures var conf := ConflictPath(rp, tag, fate.stamp);
      var (w1, parked) := UploadFile(w, dir, rp, conf, "", fate.park);
      var d1 := Run(w.drive, UploadOps(w, dir, rp, conf, "", fate.park));
      && Careful(w.drive, UploadOps(w, dir, rp, conf, "", fate.park))
      && (parked.Recorded? ==> Careful(d1, fate.canonical.gap))
      && (parked.Recorded? && PullTo(w1, dir, rp, rp, fate.canonical).1 ==>
            var d2 := Run(d1, fate.canonical.gap);
            Careful(d2, fate.stat.gap) && (fate.mkdirCopyOk ==> Careful(Run(d2, fate.stat.gap), fate.copy.gap)))
  {
    hide UploadFile, PullTo, Run, ConflictPath, Careful, UploadOps;
    var conf := ConflictPath(rp, tag, fate.stamp);
    var (w1, parked) := UploadFile(w, dir, rp, conf, "", fate.park);
    var first := UploadOps(w, dir, rp, conf, "", fate.park);
    var d1 := Run(w.drive, first);
    var copy := if fate.mkdirCopyOk then fate.copy.gap else [];
    var last := if PullTo(w1, dir, rp, rp, fate.canonical).1 then fate.stat.gap + copy else [];
    RunParts(w.drive, first, if parked.Recorded? then fate.canonical.gap + last else []);
    RunParts(d1, fate.canonical.gap, last);
    RunParts(Run(d1, fate.canonical.gap), fate.stat.gap, copy);
  }

  lemma ActsNothing(w: World, w': World)
    requires Within(w, w', {})
    ensures Acts(w, w', {})
  {
  }

  lemma TouchIsLocal(w: World, p: Path, mtime: int, ok: bool)
    ensures Touch(w, p, mtime, ok).drive == w.drive
  {
  }

  lemma ActsKeep(w: World, w': World, paths: set<Path>, b: Bytes)
    requires Acts(w, w', paths) && Archived(w.drive, b)
    ensures Archived(w'.drive, b) && Valid(w'.drive)
  {
    hide Archived, Valid;
  }

  /** The copy of a conflict, mirrored or not. */
  lemma MirroredActs(w: World, w3: World, dir: Path, tag: string, rp: Path, listed: Meta, fate: Fate, meta: Meta,
                     copyMeta: Meta) returns (paths: set<Path>)
    requires var conf := ConflictPath(rp, tag, fate.stamp);
      && !ConflictName.Staging(NamePart(rp)) && !ConflictName.Staging(NamePart(conf))
      && var (w4, mirrored) := PullTo(w3, dir, conf, conf, fate.copy);
         ResolveConflict(w, dir, tag, rp, listed, fate) ==
         if !mirrored then Report(w4)
         else
           var w5 := Touch(w4, conf, copyMeta.mtime, fate.copy.touched);
           w5.(base := w5.base[rp := meta][conf := copyMeta])
    requires Acts(w, w3, {rp}) && Careful(w3.drive, fate.copy.gap) && Valid(w3.drive)
    requires rp in w.local && Archived(w3.drive, w.local[rp].bytes)
    ensures paths <= {rp, ConflictPath(rp, tag, fate.stamp)} && paths != {}
    ensures var w' := ResolveConflict(w, dir, tag, rp, listed, fate);
      Acts(w, w', paths) && Archived(w'.drive, w.local[rp].bytes)
  {
    hide ResolveConflict, PullTo, Run, ConflictPath, ConflictName.Staging, NamePart, Valid, Archived, Touch, Careful,
         Acts;
    var conf := ConflictPath(rp, tag, fate.stamp);
    var (w4, mirrored) := PullTo(w3, dir, conf, conf, fate.copy);
    PullArchives(w3, dir, conf, conf, fate.copy);
    var w' := ResolveConflict(w, dir, tag, rp, listed, fate);
    if !mirrored {
      paths := {rp};
      ActsNothing(w3, w4);
      ReportActs(w3, w4, {});
      ActsTrans(w, w3, w', {rp}, {});
      assert {rp} + {} == {rp};
      ActsKeep(w3, w', {}, w.local[rp].bytes);
    } else {
      paths := {rp, conf};
      ActsArchives(w, w3, rp);
      MirrorActs(w3, dir, rp, conf, meta, copyMeta, fate.copy);
      ActsTrans(w, w3, w', {rp}, {rp, conf});
      assert {rp} + {rp, conf} == {rp, conf};
      ActsKeep(w3, w', {rp, conf}, w.local[rp].bytes);
    }
  }

  lemma ReportActs(w: World, w': World, paths: set<Path>)
    requires Acts(w, w', paths)
    ensures Acts(w, Report(w'), paths)
  {
  }

  lemma ActsArchives(w: World, w': World, p: Path)
    requires Acts(w, w', {p}) && !ConflictName.Staging(NamePart(p))
    ensures p in w'.local ==> Archived(w'.drive, w'.local[p].bytes)
  {
  }

  // ---- the loop ----

  predicate Distinct(order: seq<Path>) {
    forall i, j :: 0 <= i < j < |order| ==> order[i] != order[j]
  }

  /** An action over paths that are done with, or were not there at the start, keeps the invariant. */
  lemma InvActs(w0: World, w: World, w': World, paths: set<Path>, rp: Path, rest: seq<Path>)
    requires Inv(w0, w, [rp] + rest) && rp !in rest
    requires Acts(w, w', paths) && Holds(w, w')
    requires forall q :: q in paths && LocalVisible(q) && q != rp ==> q !in w0.local
    ensures Inv(w0, w', rest)
  {
    hide LocalVisible, Valid, Archived, ConflictName.Staging, NamePart;
    forall q | LocalVisible(q) ensures Backed(w', q) && Known(w0, w', q) {
      VisibleIsNotStaging(q);
      assert Backed(w, q) && Known(w0, w, q);
    }
    forall q | q in rest && LocalVisible(q) ensures Pending(w0, w', q) {
      VisibleIsNotStaging(q);
      assert q in [rp] + rest;
      assert Pending(w0, w, q);
    }
  }

  /**
   What the walks and the plan must meet at one path. The local walk reports what
   is there or nothing at all; the remote one reports no staging file.
   */
  ghost predicate Seen(w0: World, dir: Path, tag: string, l: Option<Meta>, r: Option<Meta>, rp: Path, fate: Fate) {
    && (l.Some? ==> l == Lookup(Walk(w0.local), rp))
    && (l.Some? || r.Some? ==> rp != "" && rp[0] == '/')
    && (r.Some? ==> !ConflictName.Staging(NamePart(rp)))
    && (l.Some? && r.Some? && l.value.Same(r.value) && Changed(l, Lookup(w0.base, rp)) ==>
          Archived(w0.drive, w0.local[rp].bytes))
    && NoneOf(tag, '/') && NoneOf(fate.stamp, '/') && ConflictPath(rp, tag, fate.stamp) !in w0.local
  }

  lemma SeenIsVisible(w0: World, dir: Path, tag: string, l: Option<Meta>, r: Option<Meta>, rp: Path, fate: Fate)
    requires Seen(w0, dir, tag, l, r, rp, fate)
    ensures l.Some? ==> LocalVisible(rp) && rp in w0.local && l.value == MetaOf(w0.local[rp])
    ensures l.Some? || r.Some? ==> !ConflictName.Staging(NamePart(rp))
  {
    hide LocalVisible, ConflictName.Staging, NamePart, ConflictPath;
    if l.Some? { VisibleIsNotStaging(rp); }
  }

  /** What is at a path the engine is about to overwrite or drop from its baseline is archived. */
  lemma SafeToReplace(w0: World, w: World, rp: Path, rest: seq<Path>)
    requires Inv(w0, w, [rp] + rest) && LocalVisible(rp)
    requires !Changed(Lookup(Walk(w0.local), rp), Lookup(w.base, rp))
    ensures rp in w.local ==> Archived(w.drive, w.local[rp].bytes)
  {
    hide LocalVisible, Valid, Archived;
    assert rp in [rp] + rest;
    assert Pending(w0, w, rp) && Known(w0, w, rp) && Backed(w, rp);
  }

  lemma InvConflict(w0: World, w: World, dir: Path, tag: string, l: Option<Meta>, r: Option<Meta>, listed: Meta,
                    rp: Path, rest: seq<Path>, fate: Fate)
    requires Inv(w0, w, [rp] + rest) && rp !in rest && Seen(w0, dir, tag, l, r, rp, fate) && l.Some?
    requires Careful(w.drive, ConflictOps(w, dir, tag, rp, fate))
    ensures Inv(w0, ResolveConflict(w, dir, tag, rp, listed, fate), rest)
  {
    hide LocalVisible, ResolveConflict, ConflictPath, Archived, Valid, RemoteVisible, ConflictName.Staging, NamePart,
         Careful, ConflictOps;
    var w' := ResolveConflict(w, dir, tag, rp, listed, fate);
    var conf := ConflictPath(rp, tag, fate.stamp);
    SeenIsVisible(w0, dir, tag, l, r, rp, fate);
    ConflictPathVisible(rp, tag, fate.stamp);
    VisibleIsNotStaging(conf);
    var paths := ConflictActs(w, dir, tag, rp, listed, fate);
    assert Known(w0, w, conf);
    forall q | q in paths && q in w.local ensures Held(w', w.local[q].bytes) {
      if q == conf { assert Archived(w.drive, w.local[conf].bytes); }
    }
    WithinHolds(w, w', paths);
    InvActs(w0, w, w', paths, rp, rest);
  }

  lemma InvQuiet(w0: World, w: World, w': World, rp: Path, rest: seq<Path>)
    requires Inv(w0, w, [rp] + rest) && rp !in rest && Within(w, w', {}) && w'.local == w.local
    ensures Inv(w0, w', rest) && Inv(w0, w', [rp] + rest)
  {
    hide LocalVisible, Archived, Valid, Keeps, Inv, Walk;
    WithinHolds(w, w', {});
    InvActs(w0, w, w', {}, rp, rest);
    StillPending(w0, w, w', rp, rest);
  }

  lemma StillPending(w0: World, w: World, w': World, rp: Path, rest: seq<Path>)
    requires Inv(w0, w, [rp] + rest) && Within(w, w', {}) && w'.local == w.local && Inv(w0, w', rest)
    ensures Inv(w0, w', [rp] + rest)
  {
    hide LocalVisible, Archived, Valid, Keeps, Holds, Backed, Known;
    forall q | q in [rp] + rest && LocalVisible(q) ensures Pending(w0, w', q) {
      assert Pending(w0, w, q) && Lookup(w'.base, q) == Lookup(w.base, q);
    }
  }

  lemma InvPush(w0: World, w: World, dir: Path, tag: string, l: Option<Meta>, r: Option<Meta>, b: Option<Meta>,
                listed: Meta, rp: Path, rest: seq<Path>, fate: Fate)
    requires Inv(w0, w, [rp] + rest) && rp !in rest && Seen(w0, dir, tag, l, r, rp, fate) && l.Some?
    requires Careful(w.drive, PushOps(w, dir, tag, rp, b, fate))
    ensures Inv(w0, PushLocal(w, dir, tag, rp, b, listed, fate), rest)
  {
    hide LocalVisible, UploadFile, ResolveConflict, ConflictPath, Archived, Valid, Inv, Walk, Careful, UploadOps,
         ConflictOps, Run;
    InvValid(w0, w, [rp] + rest);
    var w' := PushLocal(w, dir, tag, rp, b, listed, fate);
    var ifMatch := if b.Some? then b.value.etag else "";
    var (w1, pushed) := UploadFile(w, dir, rp, rp, ifMatch, fate.push);
    RunParts(w.drive, UploadOps(w, dir, rp, rp, ifMatch, fate.push),
             if pushed.Mismatch? then ConflictOps(w1, dir, tag, rp, fate) else []);
    UploadFileArchives(w, dir, rp, rp, ifMatch, fate.push);
    InvQuiet(w0, w, w1, rp, rest);
    match pushed
    case Mismatch => InvConflict(w0, w1, dir, tag, l, r, listed, rp, rest, fate);
    case Failed => InvReport(w0, w1, rest);
    case Recorded(meta) =>
      PushedActs(w1, w', rp, meta, fate);
      InvActs(w0, w1, w', {rp}, rp, rest);
  }

  lemma PushedActs(w: World, w': World, rp: Path, meta: Meta, fate: Fate)
    requires Valid(w.drive) && rp in w.local && Archived(w.drive, w.local[rp].bytes)
    requires w' == Touch(w, rp, meta.mtime, fate.touched).(base := w.base[rp := meta])
    ensures Acts(w, w', {rp}) && Holds(w, w')
  {
    hide Archived, Valid;
    SettleActs(w, w', rp);
    WithinHolds(w, w', {rp});
  }

  lemma InvValid(w0: World, w: World, todo: seq<Path>)
    requires Inv(w0, w, todo)
    ensures Valid(w.drive)
  {
  }

  lemma InvPull(w0: World, w: World, dir: Path, tag: string, l: Option<Meta>, r: Option<Meta>,
                rp: Path, rest: seq<Path>, fate: Fate)
    requires Inv(w0, w, [rp] + rest) && rp !in rest && Seen(w0, dir, tag, l, r, rp, fate)
    requires r.Some? && !Changed(l, Lookup(w.base, rp)) && Changed(r, Lookup(w.base, rp)) && PullCare(w, l, r, rp)
    requires fate.mkdirOk && !Blocked(w.local, rp) ==> Careful(w.drive, fate.fetch.gap)
    ensures Inv(w0, PullRemote(w, dir, rp, r.value, fate), rest)
  {
    hide LocalVisible, PullTo, Archived, Valid, Blocked, ConflictPath, Inv, Walk, Acts, Touch, NamePart, HeldBeside,
         ConflictName.Staging, Careful, Seen;
    InvValid(w0, w, [rp] + rest);
    SeenIsVisible(w0, dir, tag, l, r, rp, fate);
    var w' := PullRemote(w, dir, rp, r.value, fate);
    if !fate.mkdirOk || Blocked(w.local, rp) {
      assert w' == w.(errors := w.errors + 1, aborted := true);
      InvStopped(w0, w, w', rp, rest);
    } else {
      ReplacedIsHeld(w0, w, dir, tag, l, r, rp, rest, fate);
      PullActs(w, dir, rp, r.value, fate);
      var paths := if PullTo(w, dir, rp, rp, fate.fetch).1 then {rp} else {};
      PulledHolds(w, w', rp, paths);
      InvActs(w0, w, w', paths, rp, rest);
    }
  }

  /** What a pull is about to replace is held beside: the baseline vouches for it, or the care taken does. */
  lemma ReplacedIsHeld(w0: World, w: World, dir: Path, tag: string, l: Option<Meta>, r: Option<Meta>,
                       rp: Path, rest: seq<Path>, fate: Fate)
    requires Inv(w0, w, [rp] + rest) && Seen(w0, dir, tag, l, r, rp, fate)
    requires !Changed(l, Lookup(w.base, rp)) && Changed(r, Lookup(w.base, rp)) && PullCare(w, l, r, rp)
    ensures HeldBeside(w, rp)
  {
    hide LocalVisible, Archived, Valid, ConflictPath, NamePart, ConflictName.Staging, Inv;
    if l.Some? {
      SeenIsVisible(w0, dir, tag, l, r, rp, fate);
      SafeToReplace(w0, w, rp, rest);
    }
  }

  lemma PulledHolds(w: World, w': World, rp: Path, paths: set<Path>)
    requires Acts(w, w', paths) && paths <= {rp} && HeldBeside(w, rp)
    ensures Holds(w, w')
  {
    hide Archived, Valid, ConflictName.Staging, NamePart, HeldBeside, Held;
    BesideSurvives(w, w', rp, paths);
    WithinHolds(w, w', paths);
  }

  lemma BesideSurvives(w: World, w': World, p: Path, paths: set<Path>)
    requires Within(w, w', paths) && paths <= {p} && HeldBeside(w, p)
    ensures p in w.local ==> Held(w', w.local[p].bytes)
  {
    hide Archived, Valid, ConflictName.Staging, NamePart;
    if p in w.local && !Archived(w.drive, w.local[p].bytes) {
      var b := w.local[p].bytes;
      var q :| q in w.local && q != p && !ConflictName.Staging(NamePart(q)) && w.local[q].bytes == b;
      assert q in w'.local && w'.local[q].bytes == b;
    }
  }

  /** The counters of a pass are not part of what it keeps. */
  lemma InvStopped(w0: World, w: World, w': World, rp: Path, rest: seq<Path>)
    requires Inv(w0, w, [rp] + rest) && w' == w.(errors := w'.errors, aborted := w'.aborted)
    ensures Inv(w0, w', rest)
  {
    hide LocalVisible, Archived, Valid;
    assert forall b :: Held(w', b) == Held(w, b);
    assert forall q :: Backed(w', q) == Backed(w, q) && Known(w0, w', q) == Known(w0, w, q);
    assert forall q :: Pending(w0, w', q) == Pending(w0, w, q);
    assert forall q :: q in rest ==> q in [rp] + rest;
  }

  lemma PullActs(w: World, dir: Path, rp: Path, r: Meta, fate: Fate)
    requires Valid(w.drive) && Careful(w.drive, fate.fetch.gap) && fate.mkdirOk && !Blocked(w.local, rp)
    requires !ConflictName.Staging(NamePart(rp))
    ensures Acts(w, PullRemote(w, dir, rp, r, fate), if PullTo(w, dir, rp, rp, fate.fetch).1 then {rp} else {})
  {
    hide PullTo, Archived, Valid, Blocked, ConflictName.Staging, NamePart, Careful, Run;
    PullArchives(w, dir, rp, rp, fate.fetch);
    var (w1, ok) := PullTo(w, dir, rp, rp, fate.fetch);
    if ok {
      var w' := PullRemote(w, dir, rp, r, fate);
      SettleActs(w1, w', rp);
      ActsTrans(w, w1, w', {rp}, {rp});
      assert {rp} + {rp} == {rp};
    }
  }

  lemma InvReport(w0: World, w: World, todo: seq<Path>)
    requires Inv(w0, w, todo)
    ensures Inv(w0, Report(w), todo)
  {
    hide LocalVisible, Archived, Valid;
    assert forall b :: Held(Report(w), b) == Held(w, b);
    assert forall q :: Backed(Report(w), q) == Backed(w, q) && Known(w0, Report(w), q) == Known(w0, w, q);
    assert forall q :: Pending(w0, Report(w), q) == Pending(w0, w, q);
  }

  lemma InvBin(w0: World, w: World, dir: Path, tag: string, l: Option<Meta>, r: Option<Meta>,
               rp: Path, rest: seq<Path>, fate: Fate)
    requires Inv(w0, w, [rp] + rest) && rp !in rest && Seen(w0, dir, tag, l, r, rp, fate) && l.Some?
    requires BinCare(w, rp, fate)
    ensures Inv(w0, BinLocal(w, rp, fate), rest)
  {
    hide LocalVisible, TrashLocal, Archived, Valid, ConflictPath, Inv, FreeBin, HeldBeside, Seen;
    InvValid(w0, w, [rp] + rest);
    SeenIsVisible(w0, dir, tag, l, r, rp, fate);
    SeenHasSlash(w0, dir, tag, l, r, rp, fate);
    var w' := BinLocal(w, rp, fate);
    var dst := TrashKeeps(w, rp, fate.binStamp, fate.binOk, fate.binUnseen);
    var (w1, done) := TrashLocal(w, rp, fate.binStamp, fate.binOk, fate.binUnseen);
    if done {
      DropWithin(w, w1, rp, dst);
      BinActs(w0, w, w', dst, rp, rest);
    } else {
      InvActs(w0, w, w1, {}, rp, rest);
      InvReport(w0, w1, rest);
    }
  }

  lemma SeenHasSlash(w0: World, dir: Path, tag: string, l: Option<Meta>, r: Option<Meta>, rp: Path, fate: Fate)
    requires Seen(w0, dir, tag, l, r, rp, fate) && (l.Some? || r.Some?)
    ensures rp != "" && rp[0] == '/'
  {
  }

  lemma DropWithin(w: World, w1: World, rp: Path, dst: Path)
    requires Within(w, w1, {rp, dst}) && Holds(w, w1)
    ensures Within(w, w1.(base := w1.base - {rp}), {rp, dst}) && Holds(w, w1.(base := w1.base - {rp}))
  {
    hide Archived, Valid;
    assert forall b :: Held(w1.(base := w1.base - {rp}), b) == Held(w1, b);
  }

  lemma BinActs(w0: World, w: World, w': World, dst: Path, rp: Path, rest: seq<Path>)
    requires Inv(w0, w, [rp] + rest) && rp !in rest
    requires Within(w, w', {rp, dst}) && Holds(w, w') && !LocalVisible(dst) && rp !in w'.local
    ensures Inv(w0, w', rest)
  {
    hide LocalVisible, Valid, Archived, ConflictName.Staging, NamePart;
    forall q | LocalVisible(q) ensures Backed(w', q) && Known(w0, w', q) {
      VisibleIsNotStaging(q);
      assert Backed(w, q) && Known(w0, w, q);
      if q != rp { assert Lookup(w'.base, q) == Lookup(w.base, q); }
    }
    forall q | q in rest && LocalVisible(q) ensures Pending(w0, w', q) {
      VisibleIsNotStaging(q);
      assert q in [rp] + rest;
      assert Pending(w0, w, q);
    }
  }

  lemma InvDelete(w0: World, w: World, dir: Path, rp: Path, rest: seq<Path>, fate: Fate)
    requires Inv(w0, w, [rp] + rest) && rp !in rest && Careful(w.drive, RemoveOps(dir, rp, fate.remove))
    ensures Inv(w0, DeleteRemote(w, dir, rp, fate), rest)
  {
    hide LocalVisible, RemoveRemote, Archived, Valid, ConflictPath, Inv, Within, Careful, Walk;
    InvValid(w0, w, [rp] + rest);
    RemoveKeeps(w, dir, rp, fate.remove);
    var (w1, ok) := RemoveRemote(w, dir, rp, fate.remove);
    InvQuiet(w0, w, w1, rp, rest);
    if ok {
      InvForget(w0, w1, rp, rest);
    } else {
      InvReport(w0, w1, rest);
    }
  }

  /** Only the baseline entry goes. */
  lemma InvForget(w0: World, w: World, rp: Path, rest: seq<Path>)
    requires Inv(w0, w, [rp] + rest) && rp !in rest
    ensures Inv(w0, w.(base := w.base - {rp}), rest)
  {
    hide LocalVisible, Archived, Valid;
    var w' := w.(base := w.base - {rp});
    assert forall b :: Held(w', b) == Held(w, b);
    forall q | LocalVisible(q) ensures Backed(w', q) && Known(w0, w', q) {
      assert Backed(w, q) && Known(w0, w, q);
    }
    forall q | q in rest && LocalVisible(q) ensures Pending(w0, w', q) {
      assert q in [rp] + rest;
      assert Pending(w0, w, q) && Lookup(w'.base, q) == Lookup(w.base, q);
    }
  }

  /** Only the baseline entry changes, of a path whose content is archived. */
  lemma InvAdopt(w0: World, w: World, dir: Path, tag: string, l: Option<Meta>, r: Option<Meta>,
                 rp: Path, rest: seq<Path>, fate: Fate)
    requires Inv(w0, w, [rp] + rest) && rp !in rest && Seen(w0, dir, tag, l, r, rp, fate)
    requires Changed(l, Lookup(w.base, rp)) && r.Some? && l.value.Same(r.value)
    ensures Inv(w0, w.(base := w.base[rp := l.value.WithEtag()]), rest)
  {
    hide LocalVisible, Archived, Valid, ConflictPath, NamePart, ConflictName.Staging;
    SeenIsVisible(w0, dir, tag, l, r, rp, fate);
    assert rp in [rp] + rest && Pending(w0, w, rp);
    assert Archived(w0.drive, w0.local[rp].bytes);
    var w' := w.(base := w.base[rp := l.value.WithEtag()]);
    SettleActs(w, w', rp);
    WithinHolds(w, w', {rp});
    InvActs(w0, w, w', {rp}, rp, rest);
  }

  /** Every branch of the reconcile switch keeps the invariant, whatever fails in it. */
  lemma StepKeeps(w0: World, w: World, dir: Path, tag: string, l: Option<Meta>, r: Option<Meta>,
                  rp: Path, rest: seq<Path>, fate: Fate)
    requires Inv(w0, w, [rp] + rest) && rp !in rest && Seen(w0, dir, tag, l, r, rp, fate)
    requires CarefulStep(w, dir, tag, l, r, rp, fate)
    ensures Inv(w0, StepPath(w, dir, tag, l, r, rp, fate), rest)
  {
    hide LocalVisible, ResolveConflict, PushLocal, DeleteRemote, PullRemote, BinLocal, ConflictPath, Archived, Valid,
         Inv, Seen, Careful, ConflictOps, PushOps, RemoveOps, BinCare, Blocked, HeldBeside;
    var b := Lookup(w.base, rp);
    var w' := StepPath(w, dir, tag, l, r, rp, fate);
    if Changed(l, b) && Changed(r, b) {
      if l.value.Same(r.value) {
        InvAdopt(w0, w, dir, tag, l, r, rp, rest, fate);
      } else {
        InvConflict(w0, w, dir, tag, l, r, r.value, rp, rest, fate);
      }
    } else if Changed(l, b) {
      InvPush(w0, w, dir, tag, l, r, b, if r.Some? then r.value else Meta(0, 0, ""), rp, rest, fate);
    } else if Gone(l, b) && !Changed(r, b) && !Gone(r, b) {
      InvDelete(w0, w, dir, rp, rest, fate);
    } else if Changed(r, b) {
      InvPull(w0, w, dir, tag, l, r, rp, rest, fate);
    } else if Gone(r, b) && !Changed(l, b) && !Gone(l, b) {
      InvBin(w0, w, dir, tag, l, r, rp, rest, fate);
    } else if Gone(l, b) && Gone(r, b) {
      InvForget(w0, w, rp, rest);
    } else {
      InvSame(w0, w, rp, rest);
    }
  }

  lemma InvSame(w0: World, w: World, rp: Path, rest: seq<Path>)
    requires Inv(w0, w, [rp] + rest)
    ensures Inv(w0, w, rest)
  {
    hide LocalVisible, Archived, Valid;
    assert forall q :: q in rest ==> q in [rp] + rest;
  }
}
