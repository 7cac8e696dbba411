/** The If-Match push is a compare-and-swap on the file's recorded time and size; and where the two walks disagree. */
module GuardedPush {
  import opened ConflictName
  import opened DriveArchive
  import opened DriveInvariant
  import opened DriveModel
  import opened DriveRuns
  import opened LogicalPath
  import opened Strings
  import opened SyncConvergence
  import opened SyncModel
  import opened SyncNoLoss
  import opened SyncPass
  import opened SyncStep
  import opened Wrappers

  /** The live file at `target` has the size and time the etag was made from. */
  predicate Matches(d: Drive, target: Path, m: Meta) {
    target in d.files && MetaOf(d.files[target]).Same(m)
  }

  /**
   On an existing file a guarded upload takes effect only if the file is the
   recorded one, or could not be looked at: then the guard is void.
   */
  lemma GuardedUpload(d: Drive, target: Path, bytes: Bytes, m: Meta, vid: Id, now: int, fault: UploadFault)
    requires ValidateRel(target) == Ok(target) && target != "/" && target in d.files
    ensures var req := UploadRequest(target, bytes, EtagOf(m.mtime, m.size), false, "", "");
      var (d', r) := Upload(d, req, vid, now, fault);
      && (d' != d || r.Ok? ==> Matches(d, target, m) || fault.Unseen?)
      && (fault.NoFault? && vid !in d.issued && !Blocked(d.files, target) ==> (r.Ok? <==> Matches(d, target, m)))
      && (r == Err(Conflict) <==> !fault.Staging? && !fault.Unseen? && !Matches(d, target, m))
      && (r.Ok? && !fault.Unseen? ==>
            d'.files == d.files[target := File(bytes, now)] &&
            BlobKey(target, vid) in d'.blobs && d'.blobs[BlobKey(target, vid)] == d.files[target].bytes)
      && (fault.Unseen? ==>
            d' == if Overwrites(d, req, fault) then d.(files := d.files[target := File(bytes, now)]) else d)
  {
    hide ValidateRel, Directories, Blocked, FreeCopyName, EtagOf;
    EtagInjective(m.mtime, m.size, d.files[target].mtime, |d.files[target].bytes|);
  }

  /** An absent target is accepted whatever the etag says. */
  lemma AbsentTargetIsAccepted(d: Drive, target: Path, bytes: Bytes, ifMatch: string, vid: Id, now: int)
    requires ValidateRel(target) == Ok(target) && target != "/" && target !in d.files
    ensures var req := UploadRequest(target, bytes, ifMatch, false, "", "");
      var (d', r) := Upload(d, req, vid, now, NoFault);
      && (r.Ok? <==> target !in Directories(d.files) && !Blocked(d.files, target))
      && (r.Ok? ==> d' == d.(files := d.files[target := File(bytes, now)]))
  {
    hide ValidateRel, Blocked, FreeCopyName;
  }

  /**
   When another client replaced the remote file first, the push leaves the path
   alone and both versions end up on the drive.
   */
  lemma LostRaceKeepsBoth(w: World, dir: Path, tag: string, rp: Path, m: Meta, listed: Meta, fate: Fate)
    requires Clear(fate.(push := fate.push.(gap := []))) && CleanPath(dir) && Rel(rp) && Shared(rp)
    requires NoneOf(tag, '/') && NoneOf(fate.stamp, '/')
    requires var w1 := Serve(w, fate.push.gap);
             Neat(w1, dir) && RemoteAt(w1, dir, rp).Some? && !MetaOf(RemoteAt(w1, dir, rp).value).Same(m)
    requires PushLocal(w, dir, tag, rp, Some(m.WithEtag()), listed, fate).errors == w.errors
    ensures var w1 := Serve(w, fate.push.gap);
      var w' := PushLocal(w, dir, tag, rp, Some(m.WithEtag()), listed, fate);
      var conf := ConflictPath(rp, tag, fate.stamp);
      Settles(w1, w', dir, rp, conf) && AgreeAt(w', dir, conf) && BothKept(w1, w', dir, rp, conf)
  {
    hide Upload, ResolveConflict, ConflictPath, Shared, CleanPath, Neat, EtagOf, Run, ValidateRel;
    var w1 := Serve(w, fate.push.gap);
    CleanTarget(dir, rp);
    JoinClean(dir, rp);
    assert rp in w.local;
    var target := JoinRemote(dir, rp);
    if ValidateRel(target).Ok? {
      GuardedUpload(w1.drive, target, w.local[rp].bytes, m, fate.push.vid, fate.push.now, fate.push.fault);
    } else {
      InvalidUpload(w1.drive, target, w.local[rp].bytes, EtagOf(m.mtime, m.size), fate.push);
    }
    PairOf(dir, rp, tag, fate.stamp);
    ConflictStepAfterPush(w1, dir, tag, rp, listed, fate);
  }

  lemma InvalidUpload(d: Drive, target: Path, bytes: Bytes, ifMatch: string, p: Push)
    requires ValidateRel(target).Err?
    ensures Upload(d, UploadRequest(target, bytes, ifMatch, false, "", ""), p.vid, p.now, p.fault) ==
            (d, Err(ValidateRel(target).error))
  {
    hide ValidateRel;
  }

  lemma ConflictStepAfterPush(w: World, dir: Path, tag: string, rp: Path, listed: Meta, fate: Fate)
    requires Clear(fate.(push := fate.push.(gap := []))) && Neat(w, dir)
    requires Pair(dir, rp, ConflictPath(rp, tag, fate.stamp))
    requires ResolveConflict(w, dir, tag, rp, listed, fate).errors == w.errors
    ensures var w' := ResolveConflict(w, dir, tag, rp, listed, fate);
      var conf := ConflictPath(rp, tag, fate.stamp);
      Settles(w, w', dir, rp, conf) && AgreeAt(w', dir, conf) && BothKept(w, w', dir, rp, conf)
  {
    var fate' := fate.(push := fate.push.(gap := []));
    PushIsIrrelevant(w, dir, tag, rp, listed, fate);
    ConflictStep(w, dir, tag, rp, listed, fate');
  }

  lemma PushIsIrrelevant(w: World, dir: Path, tag: string, rp: Path, listed: Meta, fate: Fate)
    ensures ResolveConflict(w, dir, tag, rp, listed, fate) ==
            ResolveConflict(w, dir, tag, rp, listed, fate.(push := fate.push.(gap := [])))
  {
    hide UploadFile, PullTo, ConflictPath, FreshMeta, Run;
  }

  /**
   Losing the race loses nothing, whatever fails in the push and in what follows,
   with care on the drive: everything held before is held after, and all of what
   the winner's drive archives stays there.
   */
  lemma LostRaceLosesNothing(w: World, dir: Path, tag: string, rp: Path, m: Meta, listed: Meta, fate: Fate)
    requires Valid(w.drive) && Careful(w.drive, PushOps(w, dir, tag, rp, Some(m.WithEtag()), fate))
    requires CleanPath(dir) && Rel(rp) && Shared(rp) && rp in w.local
    requires NoneOf(tag, '/') && NoneOf(fate.stamp, '/') && ConflictPath(rp, tag, fate.stamp) !in w.local
    requires var w1 := Serve(w, fate.push.gap);
             RemoteAt(w1, dir, rp).Some? && !MetaOf(RemoteAt(w1, dir, rp).value).Same(m)
    ensures var w1 := Serve(w, fate.push.gap);
      var w' := PushLocal(w, dir, tag, rp, Some(m.WithEtag()), listed, fate);
      && Holds(w, w') && Keeps(w1.drive, w'.drive)
      && (UploadFile(w, dir, rp, rp, m.WithEtag().etag, fate.push).1.Recorded? ==> fate.push.fault.Unseen?)
  {
    hide UploadFile, ResolveConflict, ConflictPath, CleanPath, EtagOf, Run, ConflictName.Staging, NamePart, Valid,
         Archived, RemoteVisible, LocalVisible, Careful, ConflictOps, UploadOps, Keeps;
    var etag := m.WithEtag().etag;
    var w1 := Serve(w, fate.push.gap);
    var (w2, pushed) := UploadFile(w, dir, rp, rp, etag, fate.push);
    var first := UploadOps(w, dir, rp, rp, etag, fate.push);
    RunParts(w.drive, first, if pushed.Mismatch? then ConflictOps(w2, dir, tag, rp, fate) else []);
    UploadFileArchives(w, dir, rp, rp, etag, fate.push);
    AfterGap(w, dir, rp, etag, fate.push);
    ServedHolds(w, w2);
    OnlyUnseen(w, dir, rp, m, fate.push);
    match pushed
    case Failed =>
    case Recorded(meta) =>
      var w' := PushLocal(w, dir, tag, rp, Some(m.WithEtag()), listed, fate);
      PushedActs(w2, w', rp, meta, fate);
      HoldsTrans(w, w2, w', w1.drive);
    case Mismatch =>
      ConflictPathVisible(rp, tag, fate.stamp);
      VisibleIsNotStaging(rp);
      VisibleIsNotStaging(ConflictPath(rp, tag, fate.stamp));
      var paths := ConflictActs(w2, dir, tag, rp, listed, fate);
      ActedHolds(w, w2, ResolveConflict(w2, dir, tag, rp, listed, fate), rp, paths);
      HoldsTrans(w, w2, ResolveConflict(w2, dir, tag, rp, listed, fate), w1.drive);
  }

  /** What the push does after the gap keeps what was there after the gap. */
  lemma AfterGap(w: World, dir: Path, rp: Path, etag: string, p: Push)
    requires Valid(w.drive) && Careful(w.drive, UploadOps(w, dir, rp, rp, etag, p)) && rp in w.local
    ensures Keeps(Run(w.drive, p.gap), Run(w.drive, UploadOps(w, dir, rp, rp, etag, p)))
  {
    hide Run, Careful, Valid, Keeps;
    var own := UploadOps(w, dir, rp, rp, etag, p)[|p.gap|..];
    assert UploadOps(w, dir, rp, rp, etag, p) == p.gap + own;
    RunParts(w.drive, p.gap, own);
    RunKeeps(w.drive, p.gap);
    RunKeeps(Run(w.drive, p.gap), own);
  }

  /** Only a push that could not look at the file is stored over one that is not the recorded one. */
  lemma OnlyUnseen(w: World, dir: Path, rp: Path, m: Meta, p: Push)
    requires CleanPath(dir) && Rel(rp)
    requires var w1 := Serve(w, p.gap); RemoteAt(w1, dir, rp).Some? && !MetaOf(RemoteAt(w1, dir, rp).value).Same(m)
    ensures UploadFile(w, dir, rp, rp, m.WithEtag().etag, p).1.Recorded? ==> p.fault.Unseen?
  {
    hide Upload, Run, ValidateRel, EtagOf, CleanPath;
    CleanTarget(dir, rp);
    JoinClean(dir, rp);
    if rp in w.local {
      var w1, target := Serve(w, p.gap), JoinRemote(dir, rp);
      if ValidateRel(target).Ok? {
        GuardedUpload(w1.drive, target, w.local[rp].bytes, m, p.vid, p.now, p.fault);
      } else {
        InvalidUpload(w1.drive, target, w.local[rp].bytes, EtagOf(m.mtime, m.size), p);
      }
    }
  }

  lemma HoldsTrans(w: World, w1: World, w2: World, d: Drive)
    requires Holds(w, w1) && Holds(w1, w2) && Keeps(d, w1.drive) && Keeps(w1.drive, w2.drive)
    ensures Holds(w, w2) && Keeps(d, w2.drive)
  {
    hide Held, Archived;
  }

  lemma ServedHolds(w: World, w1: World)
    requires Within(w, w1, {}) && w1.local == w.local
    ensures Holds(w, w1) && Holds(w, Report(w1))
  {
    hide Valid, Archived, ConflictName.Staging, NamePart;
    WithinHolds(w, w1, {});
    forall b ensures Held(Report(w1), b) == Held(w1, b) {}
  }

  lemma ActedHolds(w: World, w1: World, w': World, rp: Path, paths: set<Path>)
    requires Within(w1, w', paths)
    requires forall q :: q in paths && q in w1.local ==> q == rp
    requires paths != {} ==> rp in w1.local && Archived(w'.drive, w1.local[rp].bytes)
    ensures Holds(w1, w') && Keeps(w1.drive, w'.drive)
  {
    hide Valid, Archived, ConflictName.Staging, NamePart;
    forall q | q in paths && q in w1.local ensures Held(w', w1.local[q].bytes) {
      assert Archived(w'.drive, w1.local[rp].bytes);
    }
    WithinHolds(w1, w', paths);
  }

  // ---- paths only one walk sees ----

  function SeenLocal(w: World, p: Path): Option<Meta> {
    if LocalVisible(p) then MetaAt(LocalAt(w, p)) else None
  }

  function SeenRemote(w: World, dir: Path, p: Path): Option<Meta> {
    if RemoteVisible(p) then MetaAt(RemoteAt(w, dir, p)) else None
  }

  /**
   A path that is in step on both sides is left in step if and only if both walks
   can see it: one the local walk hides is deleted remotely, one the listing
   hides is taken out of the local tree.
   */
  lemma InStepRestsIff(w: World, dir: Path, tag: string, p: Path, fate: Fate)
    requires AgreeAt(w, dir, p) && LocalAt(w, p).Some?
    ensures StepPath(w, dir, tag, SeenLocal(w, p), SeenRemote(w, dir, p), p, fate) == w <==>
            LocalVisible(p) && RemoteVisible(p)
  {
    hide LocalVisible, RemoteVisible, RemoveRemote, TrashLocal, JoinRemote;
    RemoveFrame(w, dir, p, fate.remove);
    TrashFrame(w, p, fate.binStamp, fate.binOk, fate.binUnseen);
  }

  /** What a failure-free pull over `p` leaves of the old bytes there. */
  lemma PulledOver(w: World, w': World, p: Path, f: File)
    requires p in w.local && f.bytes != w.local[p].bytes
    requires w'.drive == w.drive && w'.local == (w.local - {StagingOf(p)})[p := f]
    ensures Held(w', w.local[p].bytes) <==>
            Archived(w.drive, w.local[p].bytes) || KeptElsewhere(w.local, p, w.local[p].bytes)
  {
    StagingNames(p);
    hide ConflictName.Staging, NamePart, StagingOf, Archived;
    var b := w.local[p].bytes;
    if KeptElsewhere(w.local, p, b) {
      var q :| q in w.local && q != p && !ConflictName.Staging(NamePart(q)) && w.local[q].bytes == b;
      assert q in w'.local && w'.local[q].bytes == b;
    }
  }

  /** Pulling a path the local walk did not report overwrites whatever local file is there. */
  lemma UnreportedPull(w: World, dir: Path, tag: string, p: Path, fate: Fate)
    requires Clear(fate) && CleanPath(dir) && Rel(p) && Tidy(w.drive)
    requires RemoteAt(w, dir, p).Some? && Changed(SeenRemote(w, dir, p), Lookup(w.base, p))
    requires StepPath(w, dir, tag, None, SeenRemote(w, dir, p), p, fate).errors == w.errors
    ensures var w' := StepPath(w, dir, tag, None, SeenRemote(w, dir, p), p, fate);
      && w' == w.(local := w'.local, base := w'.base)
      && w'.local == (w.local - {StagingOf(p)})[p := RemoteAt(w, dir, p).value]
  {
    hide PullTo, CleanPath, LocalVisible, RemoteVisible, Blocked, StagingOf, MustValidate;
    PullFrame(w, dir, p, p, fate.fetch);
    ClearPull(w, dir, p, p, fate.fetch);
  }

  lemma ClearIsCareful(w: World, dir: Path, tag: string, rp: Path, fate: Fate)
    requires Clear(fate)
    ensures Careful(w.drive, ConflictOps(w, dir, tag, rp, fate)) && Careful(w.drive, fate.fetch.gap)
  {
    hide ConflictPath, UploadFile, PullTo, Apply;
    var ops := ConflictOps(w, dir, tag, rp, fate);
    assert |ops| <= 1;
    if ops != [] { assert ops[1..] == [] && !Clobbers(w.drive, ops[0]); }
  }

  /** A reported path that changed on the drive: the local bytes are pushed aside, adopted, or known to be archived. */
  lemma ReportedIsHeld(w: World, dir: Path, tag: string, p: Path, fate: Fate)
    requires Valid(w.drive) && Clear(fate) && Rel(p) && LocalVisible(p) && RemoteVisible(p) && p in w.local
    requires NoneOf(tag, '/') && NoneOf(fate.stamp, '/') && Backed(w, p)
    requires Changed(SeenRemote(w, dir, p), Lookup(w.base, p))
    ensures Held(StepPath(w, dir, tag, SeenLocal(w, p), SeenRemote(w, dir, p), p, fate), w.local[p].bytes)
  {
    hide LocalVisible, RemoteVisible, ResolveConflict, PullRemote, ConflictPath, Archived, Valid, CleanPath, NamePart,
         ConflictName.Staging, Careful, ConflictOps, Clear;
    var w' := StepPath(w, dir, tag, SeenLocal(w, p), SeenRemote(w, dir, p), p, fate);
    var conf := ConflictPath(p, tag, fate.stamp);
    ClearIsCareful(w, dir, tag, p, fate);
    RelShape(p);
    VisibleIsNotStaging(p);
    if !Changed(SeenLocal(w, p), Lookup(w.base, p)) {
      PulledArchive(w, dir, p, SeenRemote(w, dir, p).value, fate);
    } else if !SeenLocal(w, p).value.Same(SeenRemote(w, dir, p).value) {
      ConflictPathVisible(p, tag, fate.stamp);
      VisibleIsNotStaging(conf);
      var paths := ConflictActs(w, dir, tag, p, SeenRemote(w, dir, p).value, fate);
    }
  }

  lemma PulledArchive(w: World, dir: Path, p: Path, r: Meta, fate: Fate)
    requires Valid(w.drive) && Careful(w.drive, fate.fetch.gap)
    ensures Keeps(w.drive, PullRemote(w, dir, p, r, fate).drive)
  {
    hide PullTo, Archived, Valid, Blocked, Within, Careful, Run;
    PullArchives(w, dir, p, p, fate.fetch);
    WithinKeeps(w, PullTo(w, dir, p, p, fate.fetch).0, if PullTo(w, dir, p, p, fate.fetch).1 then {p} else {});
    KeepsItself(w.drive);
  }

  lemma WithinKeeps(w: World, w': World, paths: set<Path>)
    requires Within(w, w', paths)
    ensures Keeps(w.drive, w'.drive)
  {
  }

  /**
   A pull loses local content if and only if the local walk did not report the
   path, because it hides it or could not read it, and the bytes are neither in
   the drive's archive nor in another local file.
   */
  lemma PullLosesIff(w: World, dir: Path, tag: string, l: Option<Meta>, p: Path, fate: Fate)
    requires Valid(w.drive) && Clear(fate) && CleanPath(dir) && Rel(p) && Tidy(w.drive) && RemoteVisible(p)
    requires l.None? || (l == SeenLocal(w, p) && Backed(w, p))
    requires NoneOf(tag, '/') && NoneOf(fate.stamp, '/')
    requires p in w.local && RemoteAt(w, dir, p).Some? && RemoteAt(w, dir, p).value.bytes != w.local[p].bytes
    requires Changed(SeenRemote(w, dir, p), Lookup(w.base, p))
    requires StepPath(w, dir, tag, l, SeenRemote(w, dir, p), p, fate).errors == w.errors
    ensures var b := w.local[p].bytes;
      !Held(StepPath(w, dir, tag, l, SeenRemote(w, dir, p), p, fate), b) <==>
      l.None? && !Archived(w.drive, b) && !KeptElsewhere(w.local, p, b)
  {
    hide LocalVisible, RemoteVisible, StepPath, Archived, Valid, CleanPath, Clear, Backed, KeptElsewhere, Held,
         StagingOf;
    if l.Some? {
      ReportedIsHeld(w, dir, tag, p, fate);
    } else {
      UnreportedPull(w, dir, tag, p, fate);
      PulledOver(w, StepPath(w, dir, tag, None, SeenRemote(w, dir, p), p, fate), p, RemoteAt(w, dir, p).value);
    }
  }

  // ---- one such path ----

  const HIDDEN := "/.xxdrive-a/b"

  const CALM_FETCH := Fetch([], true, Untouched, 0, true)
  const CALM_PUSH := Push([], Answered, NoFault, "v", 0)
  const CALM: Fate :=
    Fate(CALM_PUSH, true, Remove([], Answered, "t", 0, true, Deletes), true, CALM_FETCH, true, "now", {}, CALM_PUSH,
         "now", CALM_FETCH, Stat([], true), true, CALM_FETCH)

  /** A file of the drive at the hidden path, and a local one there. */
  function HiddenWorld(local: Bytes, remote: Bytes, base: map<Path, Meta>): World {
    World(map[HIDDEN := File(local, 0)],
          Drive(map[HIDDEN := File(remote, 0)], map[], map[], map[], 0, map[], map[]), base, 0, false)
  }

  lemma TwoRooted(a: string, b: string)
    requires GoodSegment(a) && GoodSegment(b)
    ensures Rel("/" + a + ("/" + b))
  {
    hide Split, Render, GoodSegment, DirPart, NamePart;
    RenderOne(a);
    RootedParts([a], b);
    assert [a] + [b] == [a, b] && GoodSegments([a, b]);
    assert "/" + a + "/" + b == "/" + a + ("/" + b);
  }

  lemma TwoSegments(a: string, b: string)
    requires GoodSegment(a) && GoodSegment(b)
    ensures Rel("/" + a + ("/" + b)) && Split("/" + a + ("/" + b)) == ["", a, b]
  {
    hide Split, Render;
    SplitAt("/" + a, b);
    SplitSlash(a);
    SplitPlain(a);
    SplitPlain(b);
    TwoRooted(a, b);
  }

  lemma HiddenPath()
    ensures !LocalVisible(HIDDEN) && RemoteVisible(HIDDEN) && Rel(HIDDEN) && ValidateRel(HIDDEN) == Ok(HIDDEN)
  {
    hide Rel, ValidateRel, Split;
    assert HIDDEN == "/" + ".xxdrive-a" + ("/" + "b");
    TwoSegments(".xxdrive-a", "b");
    BelowHiddenDir(".xxdrive-a", "b");
    HiddenIsListed(HIDDEN);
    HiddenIsPlain();
    ValidatePlain(HIDDEN);
  }

  lemma HiddenIsListed(p: Path)
    requires Split(p) == ["", ".xxdrive-a", "b"]
    ensures RemoteVisible(p)
  {
    hide Split;
    assert ".xxdrive-a"[3..] != ".xxpart" && ".xxdrive-a"[3] == 'd';
  }

  lemma HiddenIsPlain()
    requires Rel(HIDDEN)
    ensures Normal(HIDDEN) && '%' !in HIDDEN
  {
    hide CleanPath;
  }

  lemma HiddenIsFree(local: Bytes)
    ensures var m := map[HIDDEN := File(local, 0)]; !LocalBlocked(m, HIDDEN) && !Blocked(m, HIDDEN)
  {
    assert |HIDDEN + "/"| > |HIDDEN|;
  }

  /** With nothing failing, pulling "/.xxdrive-a/b" loses the one copy of the local bytes. */
  lemma HiddenPullLoses(local: Bytes, remote: Bytes)
    requires local != remote
    ensures var w := HiddenWorld(local, remote, map[]);
      var w' := StepPath(w, "/", "me", SeenLocal(w, HIDDEN), SeenRemote(w, "/", HIDDEN), HIDDEN, CALM);
      w'.errors == 0 && Held(w, local) && !Held(w', local)
  {
    hide ValidateRel, LocalVisible, RemoteVisible, LocalBlocked, Blocked, CleanPath, ConflictName.Staging, NamePart;
    var w := HiddenWorld(local, remote, map[]);
    HiddenPath();
    HiddenIsFree(local);
    HiddenName();
    assert Run(w.drive, []) == w.drive;
    assert w.local[HIDDEN].bytes == local;
    PullLosesIff(w, "/", "me", None, HIDDEN, CALM);
  }

  lemma HiddenName()
    ensures CleanPath("/") && !ConflictName.Staging(NamePart(HIDDEN))
  {
    hide LocalVisible, RemoteVisible, ValidateRel, Rel, ConflictName.Staging, NamePart;
    HiddenPath();
    RemoteVisibleName(HIDDEN);
    assert GoodSegments([]) && Rooted([]) == "/";
  }

  /** With nothing failing and both sides in step, the drive's "/.xxdrive-a/b" is deleted. */
  lemma HiddenInStepIsDeleted(b: Bytes)
    ensures var w := HiddenWorld(b, b, map[HIDDEN := Meta(|b|, 0, "")]);
      && AgreeAt(w, "/", HIDDEN)
      && HIDDEN !in StepPath(w, "/", "me", SeenLocal(w, HIDDEN), SeenRemote(w, "/", HIDDEN), HIDDEN, CALM).drive.files
  {
    hide ValidateRel, LocalVisible, RemoteVisible, CleanPath, VersionsUnder, Detach;
    var w := HiddenWorld(b, b, map[HIDDEN := Meta(|b|, 0, "")]);
    HiddenPath();
    assert Run(w.drive, []) == w.drive;
    assert HIDDEN in Subtree(w.drive.files, HIDDEN);
  }
}
