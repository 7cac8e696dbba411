/**
 When a pass in which no call fails meets no error: its paths are accepted by the
 server, nothing is in the way of any of them on either side, ids are new, and
 the local trash has room. Then it converges.
 */
module SyncProgress {
  import opened ConflictName
  import opened DriveArchive
  import opened DriveInvariant
  import opened DriveModel
  import opened DriveRuns
  import opened LogicalPath
  import opened Strings
  import opened SyncConvergence
  import opened SyncModel
  import opened SyncNoLoss
  import opened SyncPass
  import opened SyncStep
  import opened Wrappers

  // ---- room for files ----

  /** One path is a directory of the other. */
  predicate Nested(a: Path, b: Path) {
    HasPrefix(a, b + "/") || HasPrefix(b, a + "/")
  }

  /** A file can be put at each of `spots`. */
  predicate Roomy(files: map<Path, File>, spots: set<Path>) {
    forall t :: t in spots ==> t !in Directories(files) && !Blocked(files, t)
  }

  predicate Flat(spots: set<Path>) {
    forall a, b :: a in spots && b in spots ==> !HasPrefix(a, b + "/")
  }

  /** Files below or above no spot take no room away. */
  lemma RoomyGrows(files: map<Path, File>, files': map<Path, File>, spots: set<Path>, added: set<Path>)
    requires Roomy(files, spots) && forall q :: q in files' ==> q in files || q in added
    requires forall t, x :: t in spots && x in added ==> !Nested(t, x)
    ensures Roomy(files', spots)
  {
    forall t | t in spots ensures t !in Directories(files') && !Blocked(files', t) {
      assert t !in Directories(files) && !Blocked(files, t);
      forall p, k | p in files' && 0 < k < |p| && p[k] == '/' ensures p[..k] != t {
        if p in files {
        } else if p[..k] == t {
          assert p[..k + 1] == t + "/";
          assert Nested(t, p);
        }
      }
    }
  }

  function Targets(dir: Path, spots: set<Path>): set<Path> {
    set u | u in spots :: JoinRemote(dir, u)
  }

  lemma JoinNests(dir: Path, a: Path, b: Path)
    ensures HasPrefix(JoinRemote(dir, a), JoinRemote(dir, b) + "/") ==> HasPrefix(a, b + "/")
  {
    if dir != "/" && HasPrefix(dir + a, dir + b + "/") {
      assert dir + b + "/" == dir + (b + "/");
      assert (dir + a)[..|dir + b + "/"|] == dir + b + "/";
      assert a[..|b| + 1] == (dir + a)[|dir|..|dir| + |b| + 1] == b + "/";
    }
  }

  lemma FlatTargets(dir: Path, spots: set<Path>, some: set<Path>)
    requires Flat(spots) && some <= spots
    ensures forall t, x :: t in Targets(dir, spots) && x in Targets(dir, some) ==> !Nested(t, x)
    ensures forall t, x :: t in spots && x in some ==> !Nested(t, x)
  {
    forall t, x | t in Targets(dir, spots) && x in Targets(dir, some) ensures !Nested(t, x) {
      var a :| a in spots && t == JoinRemote(dir, a);
      var b :| b in some && x == JoinRemote(dir, b);
      JoinNests(dir, a, b);
      JoinNests(dir, b, a);
    }
  }

  // ---- room in the local trash ----

  const BIN := "/.xxdrive-trash"

  /** Some numbered place is free, and no file is in the way of any. */
  ghost predicate BinReady(local: map<Path, File>, stamp: string, p: Path) {
    FreeBin(local, stamp, p, 0, {}).Some? && forall n: nat :: !Blocked(local, BinPath(stamp, n, p))
  }

  lemma {:induction false} FreeBinStays(
    local: map<Path, File>, local': map<Path, File>, stamp: string, p: Path, n: nat)
    requires FreeBin(local, stamp, p, n, {}).Some?
    requires forall m: nat :: BinPath(stamp, m, p) in Occupied(local') ==> BinPath(stamp, m, p) in Occupied(local)
    ensures FreeBin(local', stamp, p, n, {}).Some?
    decreases 1000 - n
  {
    hide BinPath, Occupied;
    if BinPath(stamp, n, p) in Occupied(local') { FreeBinStays(local, local', stamp, p, n + 1); }
  }

  /** `q` is neither one of the places of `p` nor above or below one. */
  ghost predicate Apart(q: Path, stamp: string, p: Path) {
    forall n: nat :: q != BinPath(stamp, n, p) && !Nested(q, BinPath(stamp, n, p))
  }

  lemma BinStaysReady(local: map<Path, File>, local': map<Path, File>, stamp: string, p: Path)
    requires BinReady(local, stamp, p) && forall q :: q in local' ==> q in local || Apart(q, stamp, p)
    ensures BinReady(local', stamp, p)
  {
    hide BinPath, FreeBin;
    forall m: nat | BinPath(stamp, m, p) in Occupied(local') ensures BinPath(stamp, m, p) in Occupied(local) {
      BinSpot(local, local', stamp, p, m);
    }
    FreeBinStays(local, local', stamp, p, 0);
    forall n: nat ensures !Blocked(local', BinPath(stamp, n, p)) {
      assert !Blocked(local, BinPath(stamp, n, p));
      forall q | q in local' ensures !HasPrefix(BinPath(stamp, n, p), q + "/") {
        if q !in local { assert !Nested(q, BinPath(stamp, n, p)); }
      }
    }
  }

  lemma BinSpot(local: map<Path, File>, local': map<Path, File>, stamp: string, p: Path, m: nat)
    requires forall q :: q in local' ==> q in local || Apart(q, stamp, p)
    requires BinPath(stamp, m, p) in Occupied(local')
    ensures BinPath(stamp, m, p) in Occupied(local)
  {
    hide BinPath;
    var b := BinPath(stamp, m, p);
    if b in local' {
      assert b in local;
    } else if b != "/" {
      var q, k :| q in local' && 0 < k < |q| && q[k] == '/' && b == q[..k];
      assert q[..k + 1] == b + "/";
      assert HasPrefix(q, b + "/") && Nested(q, b);
      assert q in local;
    }
  }

  /** A visible path is apart from the local trash, unless it is where the trash directory goes. */
  lemma VisibleIsApart(q: Path, stamp: string, p: Path)
    requires LocalVisible(q) && q != "" && q != BIN
    ensures Apart(q, stamp, p)
  {
    hide LocalVisible;
    forall n: nat ensures q != BinPath(stamp, n, p) && !Nested(q, BinPath(stamp, n, p)) {
      var rest := stamp + (if n == 0 then "" else "-" + Numeral(n, Ten)) + p;
      assert BinPath(stamp, n, p) == BIN + ("/" + rest) by { hide Numeral; }
      OutsideBin(q, rest);
    }
  }

  lemma OutsideBin(q: Path, rest: string)
    requires LocalVisible(q) && q != "" && q != BIN
    ensures q != BIN + ("/" + rest) && !Nested(q, BIN + ("/" + rest))
  {
    hide LocalVisible;
    var b := BIN + ("/" + rest);
    assert b[..|BIN| + 1] == BIN + "/";
    BelowBinIsHidden(q);
    BelowIsBelow(q, b, BIN + "/");
    BelowIsBelow(b, q, BIN + "/");
    AboveBin(q, b);
  }

  lemma BelowBinIsHidden(q: Path)
    ensures HasPrefix(q, BIN + "/") ==> !LocalVisible(q)
  {
    hide LocalVisible;
    if HasPrefix(q, BIN + "/") {
      var more := q[|BIN| + 1..];
      assert q == BIN + "/" + more == BIN + ("/" + more);
      assert BIN == "/" + ".xxdrive-trash";
      BelowHiddenDir(".xxdrive-trash", more);
    }
  }

  lemma BelowIsBelow(q: Path, b: Path, front: string)
    ensures HasPrefix(q, b + "/") && HasPrefix(b, front) ==> HasPrefix(q, front)
  {
    if HasPrefix(q, b + "/") && HasPrefix(b, front) {
      assert q[..|front|] == (b + "/")[..|front|] == b[..|front|];
    }
  }

  /** What lies above a place in the trash directory lies in it or is that directory. */
  lemma AboveBin(q: Path, b: Path)
    requires q != "" && HasPrefix(b, BIN + "/")
    ensures HasPrefix(b, q + "/") ==> q == BIN || HasPrefix(q, BIN + "/")
  {
    if HasPrefix(b, q + "/") {
      assert b[|q|] == '/' && b[..|q|] == q && b[..|BIN| + 1] == BIN + "/";
      if |q| > |BIN| {
        assert q[..|BIN| + 1] == b[..|BIN| + 1];
      } else {
        assert (BIN + "/")[|q|] == '/';
      }
    }
  }

  /** The part of a place below the trash directory: a stamp and a number, then the path. */
  function StampDir(stamp: string, n: nat): string {
    stamp + (if n == 0 then "" else "-" + Numeral(n, Ten))
  }

  lemma StampIsPlain(stamp: string, n: nat)
    requires NoneOf(stamp, '/')
    ensures NoneOf(StampDir(stamp, n), '/')
  {
    hide Numeral;
    var s := StampDir(stamp, n);
    forall i | 0 <= i < |s| ensures s[i] != '/' {
      if i > |stamp| { assert s[i] in "0123456789abcdef"; }
    }
  }

  /** Places of paths that differ and do not nest, differ and do not nest. */
  lemma BinsAreApart(s1: string, p1: Path, q: Path, s2: string, p2: Path)
    requires NoneOf(s1, '/') && NoneOf(s2, '/') && p1 != "" && p1[0] == '/' && p2 != "" && p2[0] == '/'
    requires p1 != p2 && !Nested(p1, p2) && IsBin(s1, p1, q)
    ensures Apart(q, s2, p2)
  {
    hide Numeral;
    var m: nat :| q == BinPath(s1, m, p1);
    forall n: nat ensures q != BinPath(s2, n, p2) && !Nested(q, BinPath(s2, n, p2)) {
      StampIsPlain(s1, m);
      StampIsPlain(s2, n);
      var a, b := StampDir(s1, m), StampDir(s2, n);
      BinIs(s1, m, p1);
      BinIs(s2, n, p2);
      TailsNest(a, p1, b, p2 + "/");
      TailsNest(b, p2, a, p1 + "/");
      SameStart(a, p1, b, p2);
      assert BIN + "/" + (b + p2) + "/" == BIN + "/" + (b + (p2 + "/"));
      assert BIN + "/" + (a + p1) + "/" == BIN + "/" + (a + (p1 + "/"));
      FrontNests(BIN + "/", a + p1, b + (p2 + "/"));
      FrontNests(BIN + "/", b + p2, a + (p1 + "/"));
      assert (BIN + "/" + (a + p1))[|BIN + "/"|..] == a + p1;
      assert (BIN + "/" + (b + p2))[|BIN + "/"|..] == b + p2;
    }
  }

  lemma BinIs(stamp: string, n: nat, p: Path)
    ensures BinPath(stamp, n, p) == BIN + "/" + (StampDir(stamp, n) + p)
  {
    hide Numeral;
    assert BIN + ("/" + (StampDir(stamp, n) + p)) == BIN + "/" + (StampDir(stamp, n) + p);
  }

  lemma FrontNests(front: string, x: string, y: string)
    ensures HasPrefix(front + x, front + y) ==> HasPrefix(x, y)
  {
    if HasPrefix(front + x, front + y) {
      assert x[..|y|] == (front + x)[|front|..|front| + |y|] == (front + y)[|front|..] == y;
    }
  }

  /** Slash-free fronts before a slash are told apart. */
  lemma TailsNest(a: string, p: string, b: string, q: string)
    requires NoneOf(a, '/') && NoneOf(b, '/') && p != "" && p[0] == '/' && q != "" && q[0] == '/'
    ensures HasPrefix(a + p, b + q) ==> a == b && HasPrefix(p, q)
  {
    if HasPrefix(a + p, b + q) {
      SlashesMeet(a, p, b, q);
      assert a == (a + p)[..|a|] == (b + q)[..|a|] == b;
      FrontNests(a, p, q);
    }
  }

  lemma SlashesMeet(a: string, p: string, b: string, q: string)
    requires NoneOf(a, '/') && NoneOf(b, '/') && p != "" && p[0] == '/' && q != "" && q[0] == '/'
    ensures HasPrefix(a + p, b + q) ==> |a| == |b|
  {
    var x, y := a + p, b + q;
    assert x[|a|] == p[0] && y[|b|] == q[0];
    assert |a| < |b| ==> y[|a|] == b[|a|];
    assert |b| < |a| ==> x[|b|] == a[|b|];
    SamePlace(x, y, |a|);
    if |b| < |x| { SamePlace(x, y, |b|); }
  }

  lemma SamePlace(x: string, y: string, i: nat)
    requires i < |x|
    ensures HasPrefix(x, y) && i < |y| ==> x[i] == y[i]
  {
    if HasPrefix(x, y) && i < |y| { assert x[i] == x[..|y|][i]; }
  }

  lemma SameStart(a: string, p: string, b: string, q: string)
    requires NoneOf(a, '/') && NoneOf(b, '/') && p != "" && p[0] == '/' && q != "" && q[0] == '/'
    ensures a + p == b + q ==> p == q
  {
    if a + p == b + q {
      assert (a + p)[..|a + p|] == a + p && HasPrefix(a + p, b + q);
      TailsNest(a, p, b, q);
      assert p == (a + p)[|a|..] && q == (b + q)[|b|..];
    }
  }

  // ---- single actions ----

  /** The server takes `rel` as it is, and there is room for it. */
  predicate Open(w: World, dir: Path, rel: Path) {
    var t := JoinRemote(dir, rel);
    && ValidateRel(t) == Ok(t) && t != "/" && t !in Directories(w.drive.files) && !Blocked(w.drive.files, t)
  }

  lemma UploadWorks(w: World, dir: Path, from: Path, to: Path, ifMatch: string, p: Push)
    requires ClearPush(p) && from in w.local && Open(w, dir, to) && p.vid !in w.drive.issued
    ensures var (w', r) := UploadFile(w, dir, from, to, ifMatch, p); var t := JoinRemote(dir, to);
      && !r.Failed? && w' == w.(drive := w'.drive)
      && (r.Mismatch? ==> w' == w && t in w.drive.files)
      && (r.Recorded? ==> w'.drive.files.Keys == w.drive.files.Keys + {t})
      && w'.drive.trash == w.drive.trash && w'.drive.stranded == w.drive.stranded
      && (forall v :: v in w'.drive.issued ==> v in w.drive.issued || v == p.vid)
  {
    hide DriveModel.Upload, ValidateRel, Directories, Blocked;
    assert Serve(w, p.gap) == w by { assert Run(w.drive, []) == w.drive; }
    var req := UploadRequest(JoinRemote(dir, to), w.local[from].bytes, ifMatch, false, "", "");
    StoresOrRefuses(w.drive, req, p.vid, p.now);
    assert p.fault == NoFault;
    var (d2, r) := DriveModel.Upload(w.drive, req, p.vid, p.now, p.fault);
  }

  lemma StoresOrRefuses(d: Drive, req: UploadRequest, vid: Id, now: int)
    requires ValidateRel(req.path) == Ok(req.path) && req.path != "/" && !req.conflictRename && vid !in d.issued
    requires req.path !in Directories(d.files) && !Blocked(d.files, req.path)
    ensures var (d', r) := DriveModel.Upload(d, req, vid, now, NoFault);
      && (r.Err? ==> r.error.Conflict? && d' == d && req.path in d.files)
      && (r.Ok? ==> d'.files.Keys == d.files.Keys + {req.path})
      && d'.trash == d.trash && d'.stranded == d.stranded
      && (forall v :: v in d'.issued ==> v in d.issued || v == vid)
  {
    hide ValidateRel, Directories, Blocked, EtagOf;
  }

  lemma PullWorks(w: World, dir: Path, rel: Path, to: Path, f: Fetch)
    requires ClearFetch(f) && ValidateRel(JoinRemote(dir, rel)) == Ok(JoinRemote(dir, rel))
    requires JoinRemote(dir, rel) in w.drive.files && !LocalBlocked(w.local, to)
    ensures var (w', ok) := PullTo(w, dir, rel, to, f);
      ok && w' == w.(local := w'.local) && (forall q :: q in w'.local ==> q in w.local || q == to)
  {
    hide ValidateRel, LocalBlocked;
    assert Run(w.drive, []) == w.drive;
  }

  lemma RemoveWorks(w: World, dir: Path, rel: Path, f: Remove)
    requires f.gap == [] && f.reply.Answered? && f.ending.Deletes? && Open(w, dir, rel)
    requires JoinRemote(dir, rel) in w.drive.files && f.id !in w.drive.trash && f.id !in w.drive.stranded
    ensures var (w', ok) := RemoveRemote(w, dir, rel, f);
      && ok && w' == w.(drive := w'.drive) && w'.drive.files.Keys <= w.drive.files.Keys
      && w'.drive.issued == w.drive.issued && w'.drive.stranded == w.drive.stranded
      && (forall i :: i in w'.drive.trash ==> i in w.drive.trash || i == f.id)
      && (forall i :: i in w.drive.trash ==> i in w'.drive.trash && w'.drive.trash[i] == w.drive.trash[i])
  {
    hide ValidateRel, VersionsUnder, Detach, Directories, Blocked;
    assert Run(w.drive, []) == w.drive;
    assert JoinRemote(dir, rel) in Subtree(w.drive.files, JoinRemote(dir, rel));
  }

  /** `q` is one of the numbered places for `p` in the local trash. */
  ghost predicate IsBin(stamp: string, p: Path, q: Path) {
    exists n: nat :: q == BinPath(stamp, n, p)
  }

  lemma BinWorks(w: World, p: Path, stamp: string)
    requires p in w.local && BinReady(w.local, stamp, p)
    ensures var (w', ok) := TrashLocal(w, p, stamp, true, {});
      && ok && w' == w.(local := w'.local)
      && (forall q :: q in w'.local ==> q in w.local || IsBin(stamp, p, q))
  {
    hide FreeBin, BinPath, Directories, Blocked;
    var dst := FreeBin(w.local, stamp, p, 0, {}).value;
    var n: nat :| dst == BinPath(stamp, n, p);
  }

  // ---- one step ----

  /** The ids a step draws are new. */
  predicate FreshIds(d: Drive, fate: Fate) {
    && fate.push.vid !in d.issued && fate.park.vid !in d.issued
    && fate.remove.id !in d.trash && fate.remove.id !in d.stranded
  }

  /** No error was met, and only these paths, ids and places were taken. */
  ghost predicate Advances(w: World, w': World, dir: Path, added: set<Path>, binned: bool, rp: Path, fate: Fate) {
    && w'.errors == w.errors && w'.aborted == w.aborted
    && (forall q :: q in w'.drive.files ==> q in w.drive.files || q in Targets(dir, added))
    && (forall v :: v in w'.drive.issued ==> v in w.drive.issued || v in {fate.push.vid, fate.park.vid})
    && (forall i :: i in w'.drive.trash ==> i in w.drive.trash || i == fate.remove.id)
    && (forall i :: i in w.drive.trash ==> i in w'.drive.trash && w'.drive.trash[i] == w.drive.trash[i])
    && w'.drive.stranded == w.drive.stranded
    && (forall q :: q in w'.local ==> q in w.local || q in added || (binned && IsBin(fate.binStamp, rp, q)))
  }

  /** The spots of a pass are accepted as they are, lie beside each other, and there is room for each. */
  ghost predicate Spacious(w: World, dir: Path, spots: set<Path>) {
    && (forall u :: u in spots ==> ValidateRel(JoinRemote(dir, u)) == Ok(JoinRemote(dir, u)))
    && Flat(spots) && Roomy(w.drive.files, Targets(dir, spots)) && Roomy(w.local, spots)
  }

  lemma SpotIsOpen(w: World, dir: Path, spots: set<Path>, u: Path)
    requires Spacious(w, dir, spots) && u in spots
    ensures Open(w, dir, u) && !LocalBlocked(w.local, u)
  {
    hide ValidateRel, Blocked;
    assert JoinRemote(dir, u) in Targets(dir, spots);
    assert "/" in Directories(w.drive.files);
  }

  lemma TouchAdds(w: World, p: Path, mtime: int, ok: bool)
    ensures var w' := Touch(w, p, mtime, ok); w' == w.(local := w'.local) && w'.local.Keys == w.local.Keys
  {
  }

  lemma ConflictWorks(w: World, dir: Path, tag: string, rp: Path, listed: Meta, fate: Fate, spots: set<Path>)
    requires Clear(fate) && Spacious(w, dir, spots) && FreshIds(w.drive, fate)
    requires rp in spots && ConflictPath(rp, tag, fate.stamp) in spots
    requires rp in w.local && JoinRemote(dir, rp) in w.drive.files
    ensures var conf := ConflictPath(rp, tag, fate.stamp);
      Advances(w, ResolveConflict(w, dir, tag, rp, listed, fate), dir, {rp, conf}, false, rp, fate)
  {
    hide UploadFile, PullTo, ConflictPath, Touch, FreshMeta, Roomy, Flat, Open, Run, ValidateRel, LocalBlocked;
    var conf := ConflictPath(rp, tag, fate.stamp);
    SpotIsOpen(w, dir, spots, conf);
    SpotIsOpen(w, dir, spots, rp);
    UploadWorks(w, dir, rp, conf, "", fate.park);
    NoGuardNoMismatch(w, dir, rp, conf, fate.park);
    var (w1, parked) := UploadFile(w, dir, rp, conf, "", fate.park);
    PullWorks(w1, dir, rp, rp, fate.canonical);
    var w2 := PullTo(w1, dir, rp, rp, fate.canonical).0;
    assert Run(w2.drive, fate.stat.gap) == w2.drive by { RunNothing(w2.drive); }
    var meta := FreshMeta(w2, dir, rp, fate.stat, listed);
    TouchAdds(w2, rp, meta.mtime, fate.canonical.touched);
    var w3 := Touch(w2, rp, meta.mtime, fate.canonical.touched);
    assert !LocalBlocked(w3.local, conf) by { StillOpen(w, w3, dir, spots, rp, conf); }
    PullWorks(w3, dir, conf, conf, fate.copy);
    var w4 := PullTo(w3, dir, conf, conf, fate.copy).0;
    TouchAdds(w4, conf, parked.meta.mtime, fate.copy.touched);
    assert JoinRemote(dir, conf) in Targets(dir, {rp, conf});
  }

  lemma NoGuardNoMismatch(w: World, dir: Path, from: Path, to: Path, p: Push)
    ensures !UploadFile(w, dir, from, to, "", p).1.Mismatch?
  {
    hide Directories, Blocked, Run, FreeCopyName;
  }

  lemma StillOpen(w: World, w': World, dir: Path, spots: set<Path>, rp: Path, conf: Path)
    requires Spacious(w, dir, spots) && rp in spots && conf in spots
    requires forall q :: q in w'.local ==> q in w.local || q == rp
    ensures !LocalBlocked(w'.local, conf)
  {
    hide ValidateRel, Blocked, Directories;
    FlatTargets(dir, spots, {rp});
    RoomyGrows(w.local, w'.local, spots, {rp});
  }

  lemma PushWorks(w: World, dir: Path, tag: string, rp: Path, b: Option<Meta>, listed: Meta, fate: Fate,
                  spots: set<Path>)
    requires Clear(fate) && Spacious(w, dir, spots) && FreshIds(w.drive, fate)
    requires rp in spots && ConflictPath(rp, tag, fate.stamp) in spots && rp in w.local
    ensures var conf := ConflictPath(rp, tag, fate.stamp);
      Advances(w, PushLocal(w, dir, tag, rp, b, listed, fate), dir, {rp, conf}, false, rp, fate)
  {
    hide UploadFile, ResolveConflict, ConflictPath, Touch, Spacious, Open;
    var ifMatch := if b.Some? then b.value.etag else "";
    SpotIsOpen(w, dir, spots, rp);
    UploadWorks(w, dir, rp, rp, ifMatch, fate.push);
    var (w1, pushed) := UploadFile(w, dir, rp, rp, ifMatch, fate.push);
    match pushed
    case Mismatch => ConflictWorks(w, dir, tag, rp, listed, fate, spots);
    case Failed =>
    case Recorded(meta) =>
      TouchAdds(w1, rp, meta.mtime, fate.touched);
      assert JoinRemote(dir, rp) in Targets(dir, {rp, ConflictPath(rp, tag, fate.stamp)});
  }

  lemma DeleteWorks(w: World, dir: Path, rp: Path, conf: Path, fate: Fate, spots: set<Path>)
    requires Clear(fate) && Spacious(w, dir, spots) && FreshIds(w.drive, fate)
    requires rp in spots && JoinRemote(dir, rp) in w.drive.files
    ensures Advances(w, DeleteRemote(w, dir, rp, fate), dir, {rp, conf}, false, rp, fate)
  {
    hide RemoveRemote, Spacious, Open;
    SpotIsOpen(w, dir, spots, rp);
    RemoveWorks(w, dir, rp, fate.remove);
  }

  lemma PullRemoteWorks(w: World, dir: Path, rp: Path, conf: Path, r: Meta, fate: Fate, spots: set<Path>)
    requires Clear(fate) && Spacious(w, dir, spots) && rp in spots && JoinRemote(dir, rp) in w.drive.files
    ensures Advances(w, PullRemote(w, dir, rp, r, fate), dir, {rp, conf}, false, rp, fate)
  {
    hide PullTo, Touch, Spacious, ValidateRel, Directories, Blocked;
    SpotIsOpen(w, dir, spots, rp);
    PullWorks(w, dir, rp, rp, fate.fetch);
    TouchAdds(PullTo(w, dir, rp, rp, fate.fetch).0, rp, r.mtime, fate.fetch.touched);
  }

  lemma BinLocalWorks(w: World, dir: Path, rp: Path, conf: Path, fate: Fate)
    requires Clear(fate) && rp in w.local && BinReady(w.local, fate.binStamp, rp)
    ensures Advances(w, BinLocal(w, rp, fate), dir, {rp, conf}, true, rp, fate)
  {
    hide TrashLocal, BinReady, IsBin;
    BinWorks(w, rp, fate.binStamp);
  }

  /** A step in which nothing fails and nothing is in the way meets no error. */
  lemma StepWorks(w: World, dir: Path, tag: string, l: Option<Meta>, r: Option<Meta>, rp: Path, fate: Fate,
                  spots: set<Path>)
    requires Clear(fate) && Spacious(w, dir, spots) && FreshIds(w.drive, fate) && Current(w, dir, l, r, rp)
    requires l.Some? || r.Some? ==> rp in spots && ConflictPath(rp, tag, fate.stamp) in spots
    requires l.Some? && r.None? ==> BinReady(w.local, fate.binStamp, rp)
    ensures var w' := StepPath(w, dir, tag, l, r, rp, fate);
      Advances(w, w', dir, if l.Some? || r.Some? then {rp, ConflictPath(rp, tag, fate.stamp)} else {},
               l.Some? && r.None?, rp, fate)
  {
    hide ResolveConflict, PushLocal, DeleteRemote, PullRemote, BinLocal, ConflictPath, Shared, Rel, Spacious, Clear,
         BinReady, IsBin, FreshIds;
    var b := Lookup(w.base, rp);
    var conf := ConflictPath(rp, tag, fate.stamp);
    if Changed(l, b) && Changed(r, b) {
      if !l.value.Same(r.value) {
        ConflictWorks(w, dir, tag, rp, r.value, fate, spots);
      }
    } else if Changed(l, b) {
      PushWorks(w, dir, tag, rp, b, if r.Some? then r.value else Meta(0, 0, ""), fate, spots);
    } else if Gone(l, b) && !Changed(r, b) && !Gone(r, b) {
      DeleteWorks(w, dir, rp, conf, fate, spots);
    } else if Changed(r, b) {
      PullRemoteWorks(w, dir, rp, conf, r.value, fate, spots);
    } else if Gone(r, b) && !Changed(l, b) && !Gone(l, b) {
      BinLocalWorks(w, dir, rp, conf, fate);
    }
  }

  // ---- the whole pass ----

  /** The paths the walks report, and the copies their conflicts would make. */
  function Spots(c: Client, d: Drive, dir: Path, tag: string, plan: Plan): set<Path> {
    var seen := Walk(c.local).Keys + Listing(d, dir).Keys;
    seen + set p | p in seen :: ConflictPath(p, tag, plan(p).stamp)
  }

  /** Files a pass may have to move to the local trash. */
  function Binnable(c: Client, d: Drive, dir: Path): set<Path> {
    Walk(c.local).Keys - Listing(d, dir).Keys
  }

  ghost predicate DistinctDraws(order: seq<Path>, plan: Plan) {
    forall p, q :: p in order && q in order && p != q ==>
      && {plan(p).push.vid, plan(p).park.vid} !! {plan(q).push.vid, plan(q).park.vid}
      && plan(p).remove.id != plan(q).remove.id
  }

  /** What the steps still to come need. */
  ghost predicate Going(c: Client, d: Drive, dir: Path, w: World, rest: seq<Path>, plan: Plan, spots: set<Path>) {
    && Spacious(w, dir, spots)
    && (forall p :: p in rest ==> FreshIds(w.drive, plan(p)))
    && (forall p :: p in rest && p in Binnable(c, d, dir) ==> BinReady(w.local, plan(p).binStamp, p))
  }

  /**
   Nothing is in the way of the pass: the server accepts every path as it is; none
   lies below another, below a file or where a directory is, on either side; ids
   are new; and the local trash has room.
   */
  ghost predicate Smooth(c: Client, d: Drive, dir: Path, tag: string, order: seq<Path>, plan: Plan) {
    var spots := Spots(c, d, dir, tag, plan);
    && Going(c, d, dir, Begin(c, d), order, plan, spots) && BIN !in spots
    && DistinctDraws(order, plan) && forall p :: p in order ==> NoneOf(plan(p).binStamp, '/')
  }

  lemma SpotsAreVisible(c: Client, d: Drive, dir: Path, tag: string, order: seq<Path>, plan: Plan)
    requires Ready(c, d, dir) && ClearPlan(c, d, dir, tag, order, plan)
    ensures forall u :: u in Spots(c, d, dir, tag, plan) ==> LocalVisible(u) && u != "" && u[0] == '/'
  {
    hide CleanPath, RemoteVisible, LocalVisible, RemotePaths, Listing, Rel, ConflictPath;
    var seen := Walk(c.local).Keys + Listing(d, dir).Keys;
    forall p | p in seen
      ensures Shared(p) && Rel(p)
      ensures var conf := ConflictPath(p, tag, plan(p).stamp); LocalVisible(conf) && conf != "" && conf[0] == '/'
    {
      ListedIs(d, dir, p);
      assert p in PassPaths(c, d, dir);
      assert p in order;
      PairOf(dir, p, tag, plan(p).stamp);
    }
  }

  lemma GoingStep(c: Client, d: Drive, dir: Path, tag: string, all: seq<Path>, plan: Plan, w: World, w': World,
                  rp: Path, rest: seq<Path>, added: set<Path>, binned: bool)
    requires Ready(c, d, dir) && ClearPlan(c, d, dir, tag, all, plan) && Smooth(c, d, dir, tag, all, plan)
    requires var spots := Spots(c, d, dir, tag, plan);
      Going(c, d, dir, w, [rp] + rest, plan, spots) && added <= spots && (binned ==> rp in spots)
    requires rp in all && rp !in rest && forall p :: p in rest ==> p in all
    requires Advances(w, w', dir, added, binned, rp, plan(rp))
    ensures Going(c, d, dir, w', rest, plan, Spots(c, d, dir, tag, plan))
  {
    hide Ready, ClearPlan, Spots, Clear, ConflictPath, LocalVisible, Roomy, Flat, BinReady, IsBin, Binnable, Targets,
         ValidateRel;
    var spots := Spots(c, d, dir, tag, plan);
    SpotsAreVisible(c, d, dir, tag, all, plan);
    FlatTargets(dir, spots, added);
    RoomyGrows(w.drive.files, w'.drive.files, Targets(dir, spots), Targets(dir, added));
    LocalStaysRoomy(w, w', dir, spots, added, binned, rp, plan(rp));
    forall p | p in rest ensures FreshIds(w'.drive, plan(p)) {
      assert p in [rp] + rest && p != rp;
      assert FreshIds(w.drive, plan(p));
    }
    forall p | p in rest && p in Binnable(c, d, dir) ensures BinReady(w'.local, plan(p).binStamp, p) {
      assert p in [rp] + rest && p != rp;
      BinnableIsSpot(c, d, dir, tag, plan, p);
      NewAreApart(w, w', dir, spots, added, binned, rp, plan(rp), p, plan(p).binStamp);
      BinStaysReady(w.local, w'.local, plan(p).binStamp, p);
    }
  }

  lemma BinnableIsSpot(c: Client, d: Drive, dir: Path, tag: string, plan: Plan, p: Path)
    requires p in Binnable(c, d, dir)
    ensures p in Spots(c, d, dir, tag, plan)
  {
  }

  lemma LocalStaysRoomy(w: World, w': World, dir: Path, spots: set<Path>, added: set<Path>, binned: bool, rp: Path,
                        fate: Fate)
    requires Spacious(w, dir, spots) && Advances(w, w', dir, added, binned, rp, fate) && added <= spots
    requires BIN !in spots && forall u :: u in spots ==> LocalVisible(u) && u != ""
    ensures Roomy(w'.local, spots)
  {
    hide LocalVisible, Roomy, ValidateRel, Apart, BinPath;
    FlatTargets(dir, spots, added);
    var more := added + set q | q in w'.local && binned && IsBin(fate.binStamp, rp, q);
    forall t, x | t in spots && x in more ensures !Nested(t, x) {
      if x !in added {
        var n: nat :| x == BinPath(fate.binStamp, n, rp);
        VisibleIsApart(t, fate.binStamp, rp);
        ApartAt(t, fate.binStamp, rp, n);
      }
    }
    RoomyGrows(w.local, w'.local, spots, more);
  }

  lemma ApartAt(q: Path, stamp: string, p: Path, n: nat)
    requires Apart(q, stamp, p)
    ensures q != BinPath(stamp, n, p) && !Nested(q, BinPath(stamp, n, p))
  {
  }

  lemma NewAreApart(w: World, w': World, dir: Path, spots: set<Path>, added: set<Path>, binned: bool, rp: Path,
                    fate: Fate, p: Path, stamp: string)
    requires Advances(w, w', dir, added, binned, rp, fate) && added <= spots && Flat(spots) && BIN !in spots
    requires forall u :: u in spots ==> LocalVisible(u) && u != "" && u[0] == '/'
    requires p in spots && p != rp && (binned ==> rp in spots) && NoneOf(stamp, '/') && NoneOf(fate.binStamp, '/')
    ensures forall q :: q in w'.local ==> q in w.local || Apart(q, stamp, p)
  {
    hide LocalVisible, IsBin, Apart, Targets;
    forall q | q in w'.local && q !in w.local ensures Apart(q, stamp, p) {
      if q in added { VisibleIsApart(q, stamp, p); } else { BinsAreApart(fate.binStamp, rp, q, stamp, p); }
    }
  }

  lemma {:induction false} StepsWork(c: Client, d: Drive, dir: Path, tag: string, all: seq<Path>, plan: Plan,
                                     w: World, order: seq<Path>)
    requires Ready(c, d, dir) && ClearPlan(c, d, dir, tag, all, plan) && Smooth(c, d, dir, tag, all, plan)
    requires Distinct(order) && forall p :: p in order ==> p in all
    requires Converging(Begin(c, d), w, dir, order) && Going(c, d, dir, w, order, plan, Spots(c, d, dir, tag, plan))
    ensures Steps(w, dir, tag, Walk(c.local), Listing(d, dir), order, plan).errors == w.errors
    decreases |order|
  {
    hide StepPath, Ready, ClearPlan, Converging, Smooth, Going, Advances, Spots;
    if order != [] && !w.aborted {
      var rp, rest := order[0], order[1..];
      assert order == [rp] + rest;
      var l, r := Lookup(Walk(c.local), rp), Lookup(Listing(d, dir), rp);
      var w1 := StepPath(w, dir, tag, l, r, rp, plan(rp));
      var added := StepGoes(c, d, dir, tag, all, plan, w, rp, rest);
      StepConverges(c, d, dir, tag, all, plan, w, rp, rest);
      GoingStep(c, d, dir, tag, all, plan, w, w1, rp, rest, added, l.Some? && r.None?);
      StepsWork(c, d, dir, tag, all, plan, w1, rest);
    }
  }

  lemma StepGoes(c: Client, d: Drive, dir: Path, tag: string, all: seq<Path>, plan: Plan, w: World, rp: Path,
                 rest: seq<Path>) returns (added: set<Path>)
    requires Ready(c, d, dir) && ClearPlan(c, d, dir, tag, all, plan) && rp in all
    requires Converging(Begin(c, d), w, dir, [rp] + rest)
    requires Going(c, d, dir, w, [rp] + rest, plan, Spots(c, d, dir, tag, plan))
    ensures var l, r := Lookup(Walk(c.local), rp), Lookup(Listing(d, dir), rp);
      var w' := StepPath(w, dir, tag, l, r, rp, plan(rp));
      && added <= Spots(c, d, dir, tag, plan) && (l.Some? && r.None? ==> rp in Spots(c, d, dir, tag, plan))
      && Advances(w, w', dir, added, l.Some? && r.None?, rp, plan(rp)) && w'.errors == w.errors
  {
    hide StepPath, Ready, ConflictPath, Clear, Shared, Neat, AgreeAt, SameAt, Spacious, FreshIds, BinReady, Walk,
         Listing, IsBin;
    var l, r := Lookup(Walk(c.local), rp), Lookup(Listing(d, dir), rp);
    assert rp in [rp] + rest;
    CurrentAt(c, d, dir, w, rp);
    StepWorks(w, dir, tag, l, r, rp, plan(rp), Spots(c, d, dir, tag, plan));
    added := if l.Some? || r.Some? then {rp, ConflictPath(rp, tag, plan(rp).stamp)} else {};
  }

  /** A pass in which nothing fails and nothing is in the way meets no error. */
  lemma SmoothPassHasNoErrors(c: Client, d: Drive, dir: Path, tag: string, order: seq<Path>, plan: Plan)
    requires Ready(c, d, dir) && ClearPlan(c, d, dir, tag, order, plan) && Smooth(c, d, dir, tag, order, plan)
    ensures Pass(c, d, dir, tag, order, plan).errors == 0
  {
    hide Steps, Ready, Going, Converging, Spots;
    assert Distinct(order);
    ConvergingAtStart(c, d, dir, order);
    StepsWork(c, d, dir, tag, order, plan, Begin(c, d), order);
  }

  /**
   From any two trees and any baseline, a pass in which nothing fails and nothing
   is in the way ends with all three agreeing on every path.
   */
  lemma PassConverges(c: Client, d: Drive, dir: Path, tag: string, order: seq<Path>, plan: Plan)
    requires Ready(c, d, dir) && ClearPlan(c, d, dir, tag, order, plan) && Smooth(c, d, dir, tag, order, plan)
    ensures var w := Pass(c, d, dir, tag, order, plan);
      && w.errors == 0 && Converged(w, dir) && Neat(w, dir)
      && AfterPass(c, w, SaveOk) == Client(w.local, w.base)
  {
    hide Pass, Ready, ClearPlan, Smooth, Converged, Neat;
    SmoothPassHasNoErrors(c, d, dir, tag, order, plan);
    ErrorFreePassConverges(c, d, dir, tag, order, plan);
  }

  // ---- a file where the other side has a directory ----

  const ClashClient := Client(map["/a" := File([1], 10)], map[])
  const ClashDrive := Drive(map["/a/b" := File([2], 20)], map[], map[], map[], 0, map[], map[])

  lemma ClashSplits()
    ensures Split("/a") == ["", "a"] && Split("/a/b") == ["", "a", "b"]
  {
    hide Split;
    SplitPlain("a");
    SplitPlain("b");
    SplitSlash("a");
    SplitAt("/a", "b");
    assert "/" + "a" == "/a" && "/a" + ("/" + "b") == "/a/b";
  }

  lemma ClashPaths()
    ensures Normal("/a") && Rel("/a/b") && CleanPath("/") && Shared("/a") && Shared("/a/b")
  {
    hide Split, Normal, CleanPath;
    ClashSplits();
    SingleNormal("a");
    SingleNormal("b");
    assert "/" + "a" == "/a" && "/" + "b" == "/b" && "/a" + "/b" == "/a/b";
    NormalIsClean("/a");
    NormalIsClean("/b");
    ConcatClean("/a", "/b");
    CleanRoot();
  }

  lemma NormalIsClean(p: Path)
    requires Normal(p)
    ensures CleanPath(p)
  {
  }

  lemma CleanRoot()
    ensures CleanPath("/")
  {
    assert GoodSegments([]) && Rooted([]) == "/";
  }

  lemma ClashWalks()
    ensures Walk(ClashClient.local) == map["/a" := Meta(1, 10, "")]
    ensures Listing(ClashDrive, "/") == map["/a/b" := Meta(1, 20, "")]
  {
    hide LocalVisible, RemoteVisible, CleanPath, Normal;
    ClashPaths();
    assert forall p :: p in RemotePaths(ClashDrive, "/") <==> p in ClashDrive.files;
  }

  lemma ClashReady()
    ensures Ready(ClashClient, ClashDrive, "/")
  {
    hide LocalVisible, RemoteVisible, CleanPath, Normal, Walk, Listing;
    ClashPaths();
    ClashWalks();
    NormalIsClean("/a");
  }

  lemma ClashPush(w: World, tag: string, fate: Fate)
    requires w.local == ClashClient.local && w.drive == ClashDrive && w.base == map[] && Clear(fate)
    ensures StepPath(w, "/", tag, Some(Meta(1, 10, "")), None, "/a", fate) == Report(w)
  {
    hide ResolveConflict, ValidateRel, Normal, Shared, Rel, CleanPath;
    assert Run(w.drive, []) == w.drive;
    ClashPaths();
    ValidatePlain("/a");
    assert "/a/b"[..2] == "/a" && "/a" in Directories(w.drive.files);
  }

  lemma ClashPull(w: World, tag: string, fate: Fate)
    requires w.local == ClashClient.local && w.drive == ClashDrive && w.base == map[]
    ensures StepPath(w, "/", tag, None, Some(Meta(1, 20, "")), "/a/b", fate) == Report(w).(aborted := true)
  {
    assert "/a/b"[..3] == "/a" + "/" && Blocked(w.local, "/a/b");
  }

  lemma StopsAborted(w: World, tag: string, order: seq<Path>, plan: Plan)
    requires w.aborted
    ensures Steps(w, "/", tag, map["/a" := Meta(1, 10, "")], map["/a/b" := Meta(1, 20, "")], order, plan) == w
  {
  }

  lemma ClashSteps(tag: string, order: seq<Path>, plan: Plan)
    requires Lists(order, {"/a", "/a/b"}) && Clear(plan("/a"))
    ensures var w := Begin(ClashClient, ClashDrive);
      Steps(w, "/", tag, map["/a" := Meta(1, 10, "")], map["/a/b" := Meta(1, 20, "")], order, plan) in
        {Report(w).(aborted := true), Report(Report(w)).(aborted := true)}
  {
    hide StepPath, Clear;
    var w := Begin(ClashClient, ClashDrive);
    var all: set<Path> := {"/a", "/a/b"};
    assert "/a" in all && "/a/b" in all;
    assert order[0] in order && order[0] in all;
    ClashPull(w, tag, plan("/a/b"));
    StopsAborted(Report(w).(aborted := true), tag, order[1..], plan);
    if order[0] == "/a" {
      ClashPush(w, tag, plan("/a"));
      assert order[1] in order && order[1] in all && order[1] != order[0];
      assert order[1..][0] == "/a/b";
      StopsAborted(Report(Report(w)).(aborted := true), tag, order[1..][1..], plan);
      ClashPull(Report(w), tag, plan("/a/b"));
    }
  }

  /**
   The client holds a file where the drive has a directory. Even when no call
   fails, every pass meets an error and leaves both sides and the baseline as
   they were, so no later pass ends otherwise.
   */
  lemma ClashStays(tag: string, order: seq<Path>, plan: Plan, save: Save)
    requires ClearPlan(ClashClient, ClashDrive, "/", tag, order, plan)
    ensures Ready(ClashClient, ClashDrive, "/")
    ensures var w := Pass(ClashClient, ClashDrive, "/", tag, order, plan);
      w.errors > 0 && w.drive == ClashDrive && AfterPass(ClashClient, w, save) == ClashClient
  {
    hide Steps, Clear, ConflictPath, Walk, Listing, Ready;
    ClashWalks();
    ClashReady();
    assert PassPaths(ClashClient, ClashDrive, "/") == {"/a", "/a/b"};
    assert "/a" in order;
    ClashSteps(tag, order, plan);
  }
}
