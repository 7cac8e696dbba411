/**
 Which way changes travel: the outcome of a failure-free step, and of a whole
 pass, at every path, told from the two trees and the baseline of its start.
 */
module SyncMerge {
  import opened ConflictName
  import opened DriveInvariant
  import opened DriveModel
  import opened DriveRuns
  import opened DriveSteps
  import opened LogicalPath
  import opened Strings
  import opened SyncClients
  import opened SyncConvergence
  import opened SyncModel
  import opened SyncNoLoss
  import opened SyncPass
  import opened SyncProgress
  import opened SyncStep
  import opened Wrappers

  // ---- a three-way merge of one path ----

  predicate Matches(f: File, m: Meta) {
    |f.bytes| == m.size && f.mtime == m.mtime
  }

  predicate Edited(f: Option<File>, b: Option<Meta>) {
    f.Some? && (b.None? || !Matches(f.value, b.value))
  }

  predicate Untouched(f: Option<File>, b: Option<Meta>) {
    f.Some? && b.Some? && Matches(f.value, b.value)
  }

  /** Both sides were edited, to different sizes or times. */
  predicate Clash(l: Option<File>, r: Option<File>, b: Option<Meta>) {
    Edited(l, b) && Edited(r, b) && (|l.value.bytes| != |r.value.bytes| || l.value.mtime != r.value.mtime)
  }

  /** An edit wins over no edit, and over a removal; of two edits the remote one stays in place. */
  function Winner(l: Option<File>, r: Option<File>, b: Option<Meta>): Option<Bytes> {
    if Edited(r, b) then Some(r.value.bytes)
    else if Edited(l, b) then Some(l.value.bytes)
    else if l.Some? && r.Some? then Some(r.value.bytes)
    else None
  }

  /** An entry without an etag, or with that of its own time and size. */
  predicate EtagFits(b: Option<Meta>) {
    b.Some? ==> b.value.etag == "" || b.value.etag == EtagOf(b.value.mtime, b.value.size)
  }

  /** The file at `path` is in the drive's trash as an item of its own. */
  predicate Trashed(d: Drive, id: Id, path: Path, f: File) {
    id in d.trash && d.trash[id].orig == path && d.trash[id].payload == map["" := f]
  }

  predicate SameFiles(w: World, w': World, dir: Path, p: Path) {
    LocalAt(w', p) == LocalAt(w, p) && RemoteAt(w', dir, p) == RemoteAt(w, dir, p)
  }

  /** Both sides have one file at `p`: the winner's bytes, and a remote edit as it was; or neither has one. */
  predicate Agreed(w0: World, w: World, dir: Path, p: Path, b: Option<Meta>) {
    var l, r := LocalAt(w0, p), RemoteAt(w0, dir, p);
    && LocalAt(w, p) == RemoteAt(w, dir, p)
    && (LocalAt(w, p).Some? <==> Winner(l, r, b).Some?)
    && (LocalAt(w, p).Some? ==> Some(LocalAt(w, p).value.bytes) == Winner(l, r, b))
    && (Edited(r, b) ==> RemoteAt(w, dir, p) == r)
    && (Untouched(l, b) && Untouched(r, b) ==> SameFiles(w0, w, dir, p))
  }

  /** A clash leaves the local version as the copy on both sides; anything else leaves the copy's place alone. */
  predicate Copied(w0: World, w: World, dir: Path, p: Path, conf: Path, b: Option<Meta>) {
    var l, r := LocalAt(w0, p), RemoteAt(w0, dir, p);
    if Clash(l, r, b) then
      && LocalAt(w, conf).Some? && LocalAt(w, conf) == RemoteAt(w, dir, conf)
      && LocalAt(w, conf).value.bytes == l.value.bytes
    else SameFiles(w0, w, dir, conf)
  }

  /** What was removed on one side and not touched on the other is in the trash of that one. */
  ghost predicate Kept(w0: World, w: World, dir: Path, p: Path, fate: Fate, b: Option<Meta>) {
    var l, r := LocalAt(w0, p), RemoteAt(w0, dir, p);
    && (Untouched(l, b) && r.None? ==> Binned(w.local, fate.binStamp, p, l.value))
    && (l.None? && Untouched(r, b) ==> Trashed(w.drive, fate.remove.id, JoinRemote(dir, p), r.value))
  }

  // ---- one step ----

  /** A file is changed, gone or as it was in the switch's sense just when it is so by size and time. */
  lemma SwitchSees(f: Option<File>, b: Option<Meta>)
    ensures Changed(MetaAt(f), b) <==> Edited(f, b)
    ensures Gone(MetaAt(f), b) <==> f.None? && b.Some?
  {
  }

  lemma PushLands(w: World, dir: Path, rp: Path, b: Option<Meta>, p: Push)
    requires ClearPush(p) && EtagFits(b) && CleanPath(dir) && Rel(rp) && !Edited(RemoteAt(w, dir, rp), b)
    ensures !UploadFile(w, dir, rp, rp, if b.Some? then b.value.etag else "", p).1.Mismatch?
  {
    hide ValidateRel, Directories, Blocked, EtagOf, FreeCopyName;
    CleanTarget(dir, rp);
    assert Serve(w, p.gap) == w by { assert Run(w.drive, []) == w.drive; }
    if rp in w.local {
      NoMismatch(w.drive, JoinRemote(dir, rp), w.local[rp].bytes, b, p.vid, p.now);
    }
  }

  lemma NoMismatch(d: Drive, target: Path, bytes: Bytes, b: Option<Meta>, vid: Id, now: int)
    requires EtagFits(b) && ValidateRel(target) in {Ok(target), Err(Invalid)}
    requires target in d.files ==> b.Some? && Matches(d.files[target], b.value)
    ensures var req := UploadRequest(target, bytes, if b.Some? then b.value.etag else "", false, "", "");
      DriveModel.Upload(d, req, vid, now, NoFault).1 != Err(Conflict)
  {
    hide ValidateRel, Directories, Blocked, EtagOf, FreeCopyName;
  }

  lemma DeleteTrashes(w: World, dir: Path, rp: Path, fate: Fate)
    requires Clear(fate) && CleanPath(dir) && Rel(rp) && RemoteAt(w, dir, rp).Some?
    requires DeleteRemote(w, dir, rp, fate).errors == w.errors
    ensures Trashed(DeleteRemote(w, dir, rp, fate).drive, fate.remove.id, JoinRemote(dir, rp),
                    RemoteAt(w, dir, rp).value)
  {
    hide ValidateRel, VersionsUnder, Detach, Subtree;
    CleanTarget(dir, rp);
    assert Run(w.drive, []) == w.drive;
    FileDetached(w.drive.files, JoinRemote(dir, rp));
  }

  /**
   A failure-free step settles its path the way the merge says, leaves its copy's
   place alone unless both sides were edited, and keeps what it removes.
   */
  lemma StepMerges(w: World, dir: Path, tag: string, l: Option<Meta>, r: Option<Meta>, rp: Path, fate: Fate)
    requires Clear(fate) && Neat(w, dir) && Current(w, dir, l, r, rp) && CleanPath(dir) && Shared(rp) && Rel(rp)
    requires NoneOf(tag, '/') && NoneOf(fate.stamp, '/') && EtagFits(Lookup(w.base, rp))
    requires StepPath(w, dir, tag, l, r, rp, fate).errors == w.errors
    ensures var w' := StepPath(w, dir, tag, l, r, rp, fate);
      var b, conf := Lookup(w.base, rp), ConflictPath(rp, tag, fate.stamp);
      Agreed(w, w', dir, rp, b) && Copied(w, w', dir, rp, conf, b) && Kept(w, w', dir, rp, fate, b)
  {
    hide ResolveConflict, PushLocal, DeleteRemote, PullRemote, BinLocal, ConflictPath, Shared, CleanPath,
         RemoteVisible, LocalVisible, Neat, Settles, Clear, Rel, Binned;
    var b, w', conf := Lookup(w.base, rp), StepPath(w, dir, tag, l, r, rp, fate), ConflictPath(rp, tag, fate.stamp);
    SwitchSees(LocalAt(w, rp), b);
    SwitchSees(RemoteAt(w, dir, rp), b);
    StepSettles(w, dir, tag, l, r, rp, fate);
    SettledParts(w, w', dir, rp, conf);
    PairOf(dir, rp, tag, fate.stamp);
    if Edited(LocalAt(w, rp), b) && !Edited(RemoteAt(w, dir, rp), b) {
      PushMerges(w, dir, tag, l, r, rp, fate);
    }
    if LocalAt(w, rp).None? && Untouched(RemoteAt(w, dir, rp), b) {
      DeleteRemoteStep(w, dir, l, r, rp, conf, fate);
      DeleteTrashes(w, dir, rp, fate);
    }
    if !Edited(LocalAt(w, rp), b) && Edited(RemoteAt(w, dir, rp), b) {
      PullRemoteStep(w, dir, l, r, rp, conf, fate);
    }
    if Untouched(LocalAt(w, rp), b) && RemoteAt(w, dir, rp).None? {
      BinLocalStep(w, dir, l, r, rp, conf, fate);
    }
  }

  lemma SettledParts(w: World, w': World, dir: Path, rp: Path, conf: Path)
    requires Settles(w, w', dir, rp, conf)
    ensures Neat(w', dir) && (Shared(rp) ==> AgreeAt(w', dir, rp))
  {
  }

  lemma PushMerges(w: World, dir: Path, tag: string, l: Option<Meta>, r: Option<Meta>, rp: Path, fate: Fate)
    requires Clear(fate) && Neat(w, dir) && Current(w, dir, l, r, rp) && l.Some?
    requires Pair(dir, rp, ConflictPath(rp, tag, fate.stamp)) && EtagFits(Lookup(w.base, rp))
    requires !Edited(RemoteAt(w, dir, rp), Lookup(w.base, rp))
    requires var listed := if r.Some? then r.value else Meta(0, 0, "");
             PushLocal(w, dir, tag, rp, Lookup(w.base, rp), listed, fate).errors == w.errors
    ensures var listed := if r.Some? then r.value else Meta(0, 0, "");
      var w' := PushLocal(w, dir, tag, rp, Lookup(w.base, rp), listed, fate);
      && SameAt(w, w', dir, ConflictPath(rp, tag, fate.stamp)) && LocalAt(w, rp).Some? && RemoteAt(w', dir, rp).Some?
      && RemoteAt(w', dir, rp).value.bytes == LocalAt(w, rp).value.bytes
  {
    hide PushLocal, UploadFile, ConflictPath, Shared, CleanPath, Neat, Settles, SameAt, Rel;
    var b, listed := Lookup(w.base, rp), if r.Some? then r.value else Meta(0, 0, "");
    PushStep(w, dir, tag, l, r, b, listed, rp, fate);
    PushLands(w, dir, rp, b, fate.push);
  }

  // ---- the trashes of a pass ----

  /** Files in the local trash stay there as they are. */
  ghost predicate BinsStay(w: World, w': World) {
    forall x :: x in w.local && HasPrefix(x, BIN + "/") ==> x in w'.local && w'.local[x] == w.local[x]
  }

  lemma VisibleIsOutside(p: Path)
    requires LocalVisible(p)
    ensures !HasPrefix(p, BIN + "/") && !HasPrefix(StagingOf(p), BIN + "/")
  {
    hide LocalVisible;
    BelowBinIsHidden(p);
    StagingOutsideBin(p);
  }

  lemma StagingOutsideBin(p: Path)
    ensures HasPrefix(StagingOf(p), BIN + "/") ==> HasPrefix(p, BIN + "/")
  {
    var front, s := BIN + "/", StagingOf(p);
    BinFront();
    assert s[|p|] == '.' && s[|p| + 3] == 'p';
    SamePlace(s, front, |p|);
    SamePlace(s, front, 4);
    assert |p| >= |front| ==> p[..|front|] == s[..|front|];
  }

  lemma BinFront()
    ensures var front := BIN + "/";
      |front| > 4 && front[4] == 'd' && forall i :: 0 <= i < |front| && i != 1 ==> front[i] != '.'
  {
    assert BIN + "/" == "/.xxdrive-trash/";
  }

  lemma PullLeavesBins(w: World, dir: Path, rel: Path, to: Path, f: Fetch)
    requires LocalVisible(to)
    ensures BinsStay(w, PullTo(w, dir, rel, to, f).0)
  {
    hide LocalVisible, MustValidate, LocalBlocked, StagingOf, Run;
    VisibleIsOutside(to);
  }

  lemma TouchLeavesBins(w: World, p: Path, mtime: int, ok: bool)
    requires LocalVisible(p)
    ensures BinsStay(w, Touch(w, p, mtime, ok))
  {
    hide LocalVisible, StagingOf;
    VisibleIsOutside(p);
  }

  lemma BinLeavesBins(w: World, p: Path, fate: Fate)
    requires LocalVisible(p) && fate.binUnseen == {}
    ensures BinsStay(w, BinLocal(w, p, fate))
  {
    hide LocalVisible, StagingOf, FreeBin, LocalBlocked, Directories;
    VisibleIsOutside(p);
  }

  lemma ConflictLeavesBins(w: World, dir: Path, tag: string, rp: Path, listed: Meta, fate: Fate)
    requires LocalVisible(rp) && LocalVisible(ConflictPath(rp, tag, fate.stamp))
    ensures BinsStay(w, ResolveConflict(w, dir, tag, rp, listed, fate))
  {
    hide UploadFile, PullTo, Touch, Run, ConflictPath, FreshMeta, LocalVisible, HasPrefix;
    var conf := ConflictPath(rp, tag, fate.stamp);
    UploadFrame(w, dir, rp, conf, "", fate.park);
    var (w1, parked) := UploadFile(w, dir, rp, conf, "", fate.park);
    PullLeavesBins(w1, dir, rp, rp, fate.canonical);
    var w2 := PullTo(w1, dir, rp, rp, fate.canonical).0;
    var w3 := Serve(w2, fate.stat.gap);
    TouchLeavesBins(w3, rp, FreshMeta(w2, dir, rp, fate.stat, listed).mtime, fate.canonical.touched);
    var w4 := Touch(w3, rp, FreshMeta(w2, dir, rp, fate.stat, listed).mtime, fate.canonical.touched);
    PullLeavesBins(w4, dir, conf, conf, fate.copy);
    if parked.Recorded? {
      TouchLeavesBins(PullTo(w4, dir, conf, conf, fate.copy).0, conf, parked.meta.mtime, fate.copy.touched);
    }
  }

  lemma PushLeavesBins(w: World, dir: Path, tag: string, rp: Path, b: Option<Meta>, listed: Meta, fate: Fate)
    requires LocalVisible(rp) && LocalVisible(ConflictPath(rp, tag, fate.stamp))
    ensures BinsStay(w, PushLocal(w, dir, tag, rp, b, listed, fate))
  {
    hide UploadFile, Touch, ConflictPath, LocalVisible, HasPrefix, ResolveConflict;
    var ifMatch := if b.Some? then b.value.etag else "";
    UploadFrame(w, dir, rp, rp, ifMatch, fate.push);
    var (w1, pushed) := UploadFile(w, dir, rp, rp, ifMatch, fate.push);
    if pushed.Mismatch? { ConflictLeavesBins(w1, dir, tag, rp, listed, fate); }
    if pushed.Recorded? { TouchLeavesBins(w1, rp, pushed.meta.mtime, fate.touched); }
  }

  lemma OthersLeaveBins(w: World, dir: Path, rp: Path, r: Meta, fate: Fate)
    requires LocalVisible(rp)
    ensures BinsStay(w, DeleteRemote(w, dir, rp, fate)) && BinsStay(w, PullRemote(w, dir, rp, r, fate))
  {
    hide PullTo, Touch, LocalVisible, HasPrefix, RemoveRemote, Blocked;
    RemoveFrame(w, dir, rp, fate.remove);
    PullLeavesBins(w, dir, rp, rp, fate.fetch);
    TouchLeavesBins(PullTo(w, dir, rp, rp, fate.fetch).0, rp, r.mtime, fate.fetch.touched);
  }

  /** Whatever fails, a step leaves alone what was in the local trash before, if it sees where there is room. */
  lemma StepLeavesBins(w: World, dir: Path, tag: string, l: Option<Meta>, r: Option<Meta>, rp: Path, fate: Fate)
    requires fate.binUnseen == {}
    requires l.Some? || r.Some? ==> LocalVisible(rp) && LocalVisible(ConflictPath(rp, tag, fate.stamp))
    ensures BinsStay(w, StepPath(w, dir, tag, l, r, rp, fate))
  {
    hide ConflictPath, LocalVisible, HasPrefix, ResolveConflict, PushLocal, DeleteRemote, PullRemote, BinLocal;
    if l.Some? || r.Some? {
      var listed := if r.Some? then r.value else Meta(0, 0, "");
      ConflictLeavesBins(w, dir, tag, rp, listed, fate);
      PushLeavesBins(w, dir, tag, rp, Lookup(w.base, rp), listed, fate);
      OthersLeaveBins(w, dir, rp, listed, fate);
      BinLeavesBins(w, rp, fate);
    }
  }

  // ---- the whole pass ----

  /** One path's outcome, between its copy's place and both trashes. */
  ghost predicate Merged(w0: World, w: World, dir: Path, p: Path, conf: Path, fate: Fate, b: Option<Meta>) {
    Agreed(w0, w, dir, p, b) && Copied(w0, w, dir, p, conf, b) && Kept(w0, w, dir, p, fate, b)
  }

  lemma MergedFrom(w0: World, w: World, w': World, dir: Path, p: Path, conf: Path, fate: Fate)
    requires Merged(w, w', dir, p, conf, fate, Lookup(w.base, p))
    requires SameAt(w0, w, dir, p) && SameFiles(w0, w, dir, conf)
    ensures Merged(w0, w', dir, p, conf, fate, Lookup(w0.base, p))
  {
    hide Binned, Edited, Untouched;
  }

  lemma BinnedStays(w: World, w': World, stamp: string, p: Path, f: File)
    requires Binned(w.local, stamp, p, f) && BinsStay(w, w')
    ensures Binned(w'.local, stamp, p, f)
  {
    hide BinPath;
    var n: nat :| BinPath(stamp, n, p) in w.local && w.local[BinPath(stamp, n, p)] == f;
    BinIs(stamp, n, p);
    assert (BIN + "/" + (StampDir(stamp, n) + p))[..|BIN + "/"|] == BIN + "/";
  }

  lemma MergedStays(w0: World, w: World, w': World, dir: Path, p: Path, conf: Path, fate: Fate, b: Option<Meta>)
    requires Merged(w0, w, dir, p, conf, fate, b)
    requires SameAt(w, w', dir, p) && SameAt(w, w', dir, conf) && BinsStay(w, w')
    requires forall i :: i in w.drive.trash ==> i in w'.drive.trash && w'.drive.trash[i] == w.drive.trash[i]
    ensures Merged(w0, w', dir, p, conf, fate, b)
  {
    hide Binned, Edited, Matches, BinsStay;
    var l := LocalAt(w0, p);
    if Untouched(l, b) && RemoteAt(w0, dir, p).None? { BinnedStays(w, w', fate.binStamp, p, l.value); }
  }

  lemma OwnMerges(c: Client, d: Drive, dir: Path, tag: string, all: seq<Path>, plan: Plan, w: World, p: Path)
    requires Ready(c, d, dir) && ClearPlan(c, d, dir, tag, all, plan) && EtagFits(Lookup(c.saved, p))
    requires p in all && Neat(w, dir) && Shared(p) && Rel(p) && SameAt(Begin(c, d), w, dir, p)
    requires SameFiles(Begin(c, d), w, dir, ConflictPath(p, tag, plan(p).stamp))
    requires StepPath(w, dir, tag, Lookup(Walk(c.local), p), Lookup(Listing(d, dir), p), p, plan(p)).errors == w.errors
    ensures var w' := StepPath(w, dir, tag, Lookup(Walk(c.local), p), Lookup(Listing(d, dir), p), p, plan(p));
      Merged(Begin(c, d), w', dir, p, ConflictPath(p, tag, plan(p).stamp), plan(p), Lookup(c.saved, p))
  {
    hide StepPath, Shared, Rel, CleanPath, ConflictPath, Neat, Clear, Identified, Walk, Listing, EtagFits, Agreed,
         Copied, Kept, SameFiles;
    CurrentAt(c, d, dir, w, p);
    StepMerges(w, dir, tag, Lookup(Walk(c.local), p), Lookup(Listing(d, dir), p), p, plan(p));
    var w' := StepPath(w, dir, tag, Lookup(Walk(c.local), p), Lookup(Listing(d, dir), p), p, plan(p));
    MergedFrom(Begin(c, d), w, w', dir, p, ConflictPath(p, tag, plan(p).stamp), plan(p));
  }

  /** A step at another path leaves this path, its copy's place and the local trash as they are. */
  lemma OtherLeaves(c: Client, d: Drive, dir: Path, tag: string, all: seq<Path>, plan: Plan,
                    w: World, q: Path, p: Path)
    requires Ready(c, d, dir) && ClearPlan(c, d, dir, tag, all, plan) && PlainStamps(all, plan)
    requires q in all && p in all && q != p && Neat(w, dir) && Shared(p) && Rel(p)
    requires Shared(q) ==> SameAt(Begin(c, d), w, dir, q)
    requires StepPath(w, dir, tag, Lookup(Walk(c.local), q), Lookup(Listing(d, dir), q), q, plan(q)).errors == w.errors
    ensures var w' := StepPath(w, dir, tag, Lookup(Walk(c.local), q), Lookup(Listing(d, dir), q), q, plan(q));
      SameAt(w, w', dir, p) && SameAt(w, w', dir, ConflictPath(p, tag, plan(p).stamp)) && BinsStay(w, w')
  {
    hide StepPath, Shared, Rel, CleanPath, ConflictPath, Neat, SameAt, Identified, Walk, Listing, BinsStay,
         LocalVisible, RemoteVisible;
    var l, r := Lookup(Walk(c.local), q), Lookup(Listing(d, dir), q);
    var w' := StepPath(w, dir, tag, l, r, q, plan(q));
    var conf, other := ConflictPath(p, tag, plan(p).stamp), ConflictPath(q, tag, plan(q).stamp);
    CurrentAt(c, d, dir, w, q);
    StepSettles(w, dir, tag, l, r, q, plan(q));
    PairOf(dir, p, tag, plan(p).stamp);
    if conf == other { ConflictPathInjective(p, q, tag, plan(p).stamp, plan(q).stamp); }
    assert other !in all && conf !in all;
    assert SameAt(w, w', dir, p) && SameAt(w, w', dir, conf);
    if l.Some? || r.Some? {
      PairOf(dir, q, tag, plan(q).stamp);
      SharedVisible(q);
      SharedVisible(other);
    }
    StepLeavesBins(w, dir, tag, l, r, q, plan(q));
  }

  lemma {:induction false} StepsMerge(c: Client, d: Drive, dir: Path, tag: string, all: seq<Path>, plan: Plan,
                                      w: World, order: seq<Path>, p: Path)
    requires Ready(c, d, dir) && ClearPlan(c, d, dir, tag, all, plan) && Smooth(c, d, dir, tag, all, plan)
    requires PlainStamps(all, plan) && EtagFits(Lookup(c.saved, p)) && p in all && Shared(p) && Rel(p)
    requires Distinct(order) && forall q :: q in order ==> q in all
    requires Converging(Begin(c, d), w, dir, order) && Going(c, d, dir, w, order, plan, Spots(c, d, dir, tag, plan))
    requires !w.aborted
    requires var conf := ConflictPath(p, tag, plan(p).stamp);
             if p in order then SameFiles(Begin(c, d), w, dir, conf)
             else Merged(Begin(c, d), w, dir, p, conf, plan(p), Lookup(c.saved, p))
    ensures var w' := Steps(w, dir, tag, Walk(c.local), Listing(d, dir), order, plan);
      Merged(Begin(c, d), w', dir, p, ConflictPath(p, tag, plan(p).stamp), plan(p), Lookup(c.saved, p))
    decreases |order|
  {
    hide StepPath, Ready, ClearPlan, Smooth, Going, Spots, PlainStamps, Merged, SameFiles, Shared, Rel, ConflictPath,
         Neat, SameAt, BinsStay, EtagFits, IsBin, Targets, AgreeAt;
    if order != [] {
      var q, rest := order[0], order[1..];
      assert order == [q] + rest;
      var l, r := Lookup(Walk(c.local), q), Lookup(Listing(d, dir), q);
      var w1 := StepPath(w, dir, tag, l, r, q, plan(q));
      var added := StepGoes(c, d, dir, tag, all, plan, w, q, rest);
      StepConverges(c, d, dir, tag, all, plan, w, q, rest);
      GoingStep(c, d, dir, tag, all, plan, w, w1, q, rest, added, l.Some? && r.None?);
      var conf := ConflictPath(p, tag, plan(p).stamp);
      if p == q {
        OwnMerges(c, d, dir, tag, all, plan, w, p);
      } else {
        OtherLeaves(c, d, dir, tag, all, plan, w, q, p);
        if p in order {
          FilesStay(Begin(c, d), w, w1, dir, conf);
        } else {
          MergedStays(Begin(c, d), w, w1, dir, p, conf, plan(p), Lookup(c.saved, p));
        }
      }
      StepsMerge(c, d, dir, tag, all, plan, w1, rest, p);
    }
  }

  lemma FilesStay(w0: World, w: World, w': World, dir: Path, q: Path)
    requires SameFiles(w0, w, dir, q) && SameAt(w, w', dir, q)
    ensures SameFiles(w0, w', dir, q)
  {
  }

  /**
   At the end of a pass in which nothing fails and nothing is in the way, every path
   that either walk saw at its start is merged: what was edited on one side is on
   both, what was removed on one side and not edited on the other is on neither but
   in the trash of that other, and of what was edited on both the remote version is
   in place and the local one is the copy. No other copy is made.
   */
  lemma PassMerges(c: Client, d: Drive, dir: Path, tag: string, order: seq<Path>, plan: Plan, p: Path)
    requires Ready(c, d, dir) && ClearPlan(c, d, dir, tag, order, plan) && Smooth(c, d, dir, tag, order, plan)
    requires PlainStamps(order, plan) && EtagFits(Lookup(c.saved, p))
    requires p in Walk(c.local).Keys + Listing(d, dir).Keys
    ensures var w0, w := Begin(c, d), Pass(c, d, dir, tag, order, plan);
      Merged(w0, w, dir, p, ConflictPath(p, tag, plan(p).stamp), plan(p), Lookup(c.saved, p))
  {
    hide Steps, Converging, Going, Spots, Merged, ConflictPath, Clear, Identified, EtagFits, RemoteVisible,
         LocalVisible, CleanPath, Listing;
    assert p in PassPaths(c, d, dir);
    assert p in order && Distinct(order);
    WalkedIsShared(c, d, dir, p);
    ConvergingAtStart(c, d, dir, order);
    StepsMerge(c, d, dir, tag, order, plan, Begin(c, d), order, p);
  }

  lemma WalkedIsShared(c: Client, d: Drive, dir: Path, p: Path)
    requires Ready(c, d, dir) && p in Walk(c.local).Keys + Listing(d, dir).Keys
    ensures Shared(p) && Rel(p)
  {
    hide RemoteVisible, LocalVisible, CleanPath, Listing;
    ListedIs(d, dir, p);
  }

  // ---- etags in the baseline ----

  /** Every entry fits. */
  ghost predicate EtagsFit(base: map<Path, Meta>) {
    forall p :: EtagFits(Lookup(base, p))
  }

  lemma UploadedFits(w: World, dir: Path, from: Path, to: Path, ifMatch: string, p: Push)
    ensures var r := UploadFile(w, dir, from, to, ifMatch, p).1; r.Recorded? ==> EtagFits(Some(r.meta))
  {
    hide DriveModel.Upload, EtagOf, Run;
  }

  lemma FreshFits(w: World, dir: Path, rp: Path, stat: Stat, listed: Meta)
    requires listed.etag == ""
    ensures EtagFits(Some(FreshMeta(w, dir, rp, stat, listed)))
  {
    hide EtagOf, Run, MustValidate, NamePart;
  }

  lemma EntryFits(base: map<Path, Meta>, p: Path, m: Meta)
    requires EtagsFit(base) && EtagFits(Some(m))
    ensures EtagsFit(base[p := m])
  {
    hide EtagFits;
    var base' := base[p := m];
    forall q ensures EtagFits(Lookup(base', q)) { assert EtagFits(Lookup(base, q)); }
  }

  lemma FewerFit(base: map<Path, Meta>, p: Path)
    requires EtagsFit(base)
    ensures EtagsFit(base - {p})
  {
    forall q ensures EtagFits(Lookup(base - {p}, q)) { assert EtagFits(Lookup(base, q)); }
  }

  lemma ConflictFits(w: World, dir: Path, tag: string, rp: Path, listed: Meta, fate: Fate)
    requires EtagsFit(w.base) && listed.etag == ""
    ensures EtagsFit(ResolveConflict(w, dir, tag, rp, listed, fate).base)
  {
    hide UploadFile, PullTo, Run, ConflictPath, FreshMeta, EtagFits, EtagsFit;
    var conf := ConflictPath(rp, tag, fate.stamp);
    UploadFrame(w, dir, rp, conf, "", fate.park);
    UploadedFits(w, dir, rp, conf, "", fate.park);
    var (w1, parked) := UploadFile(w, dir, rp, conf, "", fate.park);
    PullFrame(w1, dir, rp, rp, fate.canonical);
    var w2 := PullTo(w1, dir, rp, rp, fate.canonical).0;
    FreshFits(w2, dir, rp, fate.stat, listed);
    var meta := FreshMeta(w2, dir, rp, fate.stat, listed);
    PullFrame(Touch(Serve(w2, fate.stat.gap), rp, meta.mtime, fate.canonical.touched), dir, conf, conf, fate.copy);
    if parked.Recorded? {
      EntryFits(w.base, rp, meta);
      EntryFits(w.base[rp := meta], conf, parked.meta);
    }
  }

  lemma StampedFits(m: Meta)
    ensures EtagFits(Some(m.WithEtag()))
  {
    hide EtagOf;
  }

  lemma PushFits(w: World, dir: Path, tag: string, rp: Path, b: Option<Meta>, listed: Meta, fate: Fate)
    requires EtagsFit(w.base) && listed.etag == ""
    ensures EtagsFit(PushLocal(w, dir, tag, rp, b, listed, fate).base)
  {
    hide UploadFile, ResolveConflict, EtagFits, EtagsFit, ConflictPath;
    var ifMatch := if b.Some? then b.value.etag else "";
    UploadFrame(w, dir, rp, rp, ifMatch, fate.push);
    UploadedFits(w, dir, rp, rp, ifMatch, fate.push);
    var (w1, pushed) := UploadFile(w, dir, rp, rp, ifMatch, fate.push);
    if pushed.Mismatch? { ConflictFits(w1, dir, tag, rp, listed, fate); }
    if pushed.Recorded? { EntryFits(w.base, rp, pushed.meta); }
  }

  lemma OthersFit(w: World, dir: Path, rp: Path, r: Meta, fate: Fate)
    requires EtagsFit(w.base)
    ensures EtagsFit(DeleteRemote(w, dir, rp, fate).base) && EtagsFit(PullRemote(w, dir, rp, r, fate).base)
    ensures EtagsFit(BinLocal(w, rp, fate).base)
  {
    hide PullTo, RemoveRemote, TrashLocal, Blocked, EtagFits, EtagsFit;
    RemoveFrame(w, dir, rp, fate.remove);
    PullFrame(w, dir, rp, rp, fate.fetch);
    TrashFrame(w, rp, fate.binStamp, fate.binOk, fate.binUnseen);
    FewerFit(w.base, rp);
    StampedFits(r);
    EntryFits(w.base, rp, r.WithEtag());
  }

  lemma StepFits(w: World, dir: Path, tag: string, l: Option<Meta>, r: Option<Meta>, rp: Path, fate: Fate)
    requires EtagsFit(w.base) && (r.Some? ==> r.value.etag == "")
    ensures EtagsFit(StepPath(w, dir, tag, l, r, rp, fate).base)
  {
    hide ResolveConflict, PushLocal, DeleteRemote, PullRemote, BinLocal, EtagFits, EtagsFit;
    var b, listed := Lookup(w.base, rp), if r.Some? then r.value else Meta(0, 0, "");
    ConflictFits(w, dir, tag, rp, listed, fate);
    PushFits(w, dir, tag, rp, b, listed, fate);
    OthersFit(w, dir, rp, listed, fate);
    FewerFit(w.base, rp);
    if l.Some? {
      StampedFits(l.value);
      EntryFits(w.base, rp, l.value.WithEtag());
    }
  }

  lemma {:induction false} StepsFit(w: World, dir: Path, tag: string, here: map<Path, Meta>, there: map<Path, Meta>,
                                    order: seq<Path>, plan: Plan)
    requires EtagsFit(w.base) && forall p :: p in there ==> there[p].etag == ""
    ensures EtagsFit(Steps(w, dir, tag, here, there, order, plan).base)
    decreases |order|
  {
    hide StepPath, EtagsFit;
    if order != [] && !w.aborted {
      var p := order[0];
      StepFits(w, dir, tag, Lookup(here, p), Lookup(there, p), p, plan(p));
      StepsFit(StepPath(w, dir, tag, Lookup(here, p), Lookup(there, p), p, plan(p)), dir, tag, here, there, order[1..],
               plan);
    }
  }

  /** However a pass goes, the etags in the baseline it leaves are those of the recorded times and sizes. */
  lemma PassKeepsEtags(c: Client, d: Drive, dir: Path, tag: string, here: map<Path, Meta>, there: map<Path, Meta>,
                       order: seq<Path>, plan: Plan, save: Save)
    requires EtagsFit(c.saved) && forall p :: p in there ==> there[p].etag == ""
    ensures EtagsFit(AfterPass(c, PassOn(c, d, dir, tag, here, there, order, plan), save).saved)
  {
    hide Steps, EtagFits;
    StepsFit(Begin(c, d), dir, tag, here, there, order, plan);
    assert forall p :: Lookup(map[], p) == None;
    NoEntryFits();
  }

  lemma NoEntryFits()
    ensures EtagFits(None)
  {
  }

  /** An entry with the etag the server will compare against. */
  predicate Stamped(m: Meta) {
    m.etag == EtagOf(m.mtime, m.size)
  }

  /**
   A new entry is stamped, unless it is that of a conflict whose canonical file
   could not be looked at again, taken from the listing.
   */
  ghost predicate Stamps(base: map<Path, Meta>, base': map<Path, Meta>, rp: Path, l: Option<Meta>, listed: Meta) {
    forall q :: q in base' ==>
      (q in base && base'[q] == base[q]) || Stamped(base'[q]) || (q == rp && l.Some? && base'[q] == listed)
  }

  lemma UploadStamps(w: World, dir: Path, from: Path, to: Path, ifMatch: string, p: Push)
    ensures var r := UploadFile(w, dir, from, to, ifMatch, p).1; r.Recorded? ==> Stamped(r.meta)
  {
    hide DriveModel.Upload, EtagOf, Run;
  }

  lemma FreshStamps(w: World, dir: Path, rp: Path, stat: Stat, listed: Meta)
    ensures var m := FreshMeta(w, dir, rp, stat, listed); Stamped(m) || m == listed
  {
    hide EtagOf, Run, MustValidate, NamePart;
  }

  lemma ConflictStamps(w: World, dir: Path, tag: string, rp: Path, listed: Meta, fate: Fate, l: Option<Meta>)
    requires l.Some?
    ensures Stamps(w.base, ResolveConflict(w, dir, tag, rp, listed, fate).base, rp, l, listed)
  {
    hide UploadFile, PullTo, Run, ConflictPath, FreshMeta, Stamped;
    var conf := ConflictPath(rp, tag, fate.stamp);
    UploadFrame(w, dir, rp, conf, "", fate.park);
    UploadStamps(w, dir, rp, conf, "", fate.park);
    var w1 := UploadFile(w, dir, rp, conf, "", fate.park).0;
    PullFrame(w1, dir, rp, rp, fate.canonical);
    var w2 := PullTo(w1, dir, rp, rp, fate.canonical).0;
    FreshStamps(w2, dir, rp, fate.stat, listed);
    var meta := FreshMeta(w2, dir, rp, fate.stat, listed);
    PullFrame(Touch(Serve(w2, fate.stat.gap), rp, meta.mtime, fate.canonical.touched), dir, conf, conf, fate.copy);
  }

  lemma PushStamps(w: World, dir: Path, tag: string, rp: Path, b: Option<Meta>, listed: Meta, fate: Fate,
                   l: Option<Meta>)
    requires l.Some?
    ensures Stamps(w.base, PushLocal(w, dir, tag, rp, b, listed, fate).base, rp, l, listed)
  {
    hide UploadFile, ResolveConflict, Stamped, ConflictPath;
    var ifMatch := if b.Some? then b.value.etag else "";
    UploadFrame(w, dir, rp, rp, ifMatch, fate.push);
    UploadStamps(w, dir, rp, rp, ifMatch, fate.push);
    ConflictStamps(UploadFile(w, dir, rp, rp, ifMatch, fate.push).0, dir, tag, rp, listed, fate, l);
  }

  predicate Fewer(base': map<Path, Meta>, base: map<Path, Meta>) {
    forall q :: q in base' ==> q in base && base'[q] == base[q]
  }

  lemma OthersStamp(w: World, dir: Path, rp: Path, r: Meta, fate: Fate)
    ensures Fewer(DeleteRemote(w, dir, rp, fate).base, w.base) && Fewer(BinLocal(w, rp, fate).base, w.base)
    ensures Stamps(w.base, PullRemote(w, dir, rp, r, fate).base, rp, None, r)
  {
    hide PullTo, RemoveRemote, TrashLocal, Blocked, EtagOf;
    RemoveFrame(w, dir, rp, fate.remove);
    PullFrame(w, dir, rp, rp, fate.fetch);
    TrashFrame(w, rp, fate.binStamp, fate.binOk, fate.binUnseen);
  }

  /** Whatever fails, each entry a step records is stamped, but for that one case. */
  lemma StepStamps(w: World, dir: Path, tag: string, l: Option<Meta>, r: Option<Meta>, rp: Path, fate: Fate)
    ensures var listed := if r.Some? then r.value else Meta(0, 0, "");
      Stamps(w.base, StepPath(w, dir, tag, l, r, rp, fate).base, rp, l, listed)
  {
    hide ResolveConflict, PushLocal, DeleteRemote, PullRemote, BinLocal, EtagOf;
    var listed := if r.Some? then r.value else Meta(0, 0, "");
    if l.Some? {
      ConflictStamps(w, dir, tag, rp, listed, fate, l);
      PushStamps(w, dir, tag, rp, Lookup(w.base, rp), listed, fate, l);
    }
    OthersStamp(w, dir, rp, listed, fate);
  }

  /** A pass is forgotten if it was abandoned or its baseline cannot be written; a torn baseline reads as none. */
  lemma SavedIs(c: Client, w: World, save: Save)
    ensures var c' := AfterPass(c, w, save);
      && c'.local == w.local
      && (w.aborted || save == SaveFailed ==> c'.saved == c.saved)
      && (!w.aborted && save == SaveTorn ==> c'.saved == map[])
      && (!w.aborted && save == SaveOk ==> c'.saved == w.base)
  {
  }
}
