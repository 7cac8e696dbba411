/** A failure-free pass makes the local tree, the drive and the baseline agree, and leaves nothing to do. */
module SyncConvergence {
  import opened ConflictName
  import opened DriveInvariant
  import opened DriveModel
  import opened DriveRuns
  import opened LogicalPath
  import opened Strings
  import opened SyncModel
  import opened SyncNoLoss
  import opened SyncStep
  import opened Wrappers

  /** Every path one side can see is a path the other side can see. */
  ghost predicate Neat(w: World, dir: Path) {
    && Tidy(w.drive)
    && (forall q :: q in w.local && LocalVisible(q) ==> Shared(q) && Rel(q))
    && (forall q :: JoinRemote(dir, q) in w.drive.files && RemoteVisible(q) && Rel(q) ==> Shared(q))
  }

  ghost predicate Elsewhere(w: World, w': World, dir: Path, paths: set<Path>) {
    forall q :: Shared(q) && q !in paths ==> SameAt(w, w', dir, q)
  }

  lemma ElsewhereTrans(w: World, w1: World, w2: World, dir: Path, a: set<Path>, b: set<Path>)
    requires Elsewhere(w, w1, dir, a) && Elsewhere(w1, w2, dir, b)
    ensures Elsewhere(w, w2, dir, a + b)
  {
    hide Shared, SameAt;
    forall q | Shared(q) && q !in a + b ensures SameAt(w, w2, dir, q) {
      assert SameAt(w, w1, dir, q) && SameAt(w1, w2, dir, q);
      SameTrans(w, w1, w2, dir, q);
    }
  }

  lemma SameTrans(w: World, w1: World, w2: World, dir: Path, q: Path)
    requires SameAt(w, w1, dir, q) && SameAt(w1, w2, dir, q)
    ensures SameAt(w, w2, dir, q)
  {
  }

  lemma SharedIsNotStaging(q: Path, to: Path)
    requires Shared(q)
    ensures q != StagingOf(to) && !ConflictName.Staging(NamePart(q))
  {
    VisibleIsNotStaging(q);
    StagingNames(to);
  }

  // ---- single actions ----

  lemma UploadStep(w: World, dir: Path, from: Path, to: Path, ifMatch: string, p: Push)
    requires ClearPush(p) && CleanPath(dir) && Rel(to) && Shared(to) && Neat(w, dir)
    requires UploadFile(w, dir, from, to, ifMatch, p).1.Recorded?
    ensures var (w', r) := UploadFile(w, dir, from, to, ifMatch, p);
      && Neat(w', dir) && Elsewhere(w, w', dir, {to}) && w' == w.(drive := w'.drive) && from in w.local
      && RemoteAt(w', dir, to) == Some(File(w.local[from].bytes, p.now))
      && r.meta.Same(MetaOf(File(w.local[from].bytes, p.now)))
  {
    hide UploadFile, Shared, CleanPath, RemoteVisible, LocalVisible;
    var (w', r) := UploadFile(w, dir, from, to, ifMatch, p);
    ClearUpload(w, dir, from, to, ifMatch, p);
    JoinClean(dir, to);
    PutRemote(w, w', dir, to, File(w.local[from].bytes, p.now));
  }

  lemma PutRemote(w: World, w': World, dir: Path, to: Path, f: File)
    requires Neat(w, dir) && Shared(to) && CleanPath(JoinRemote(dir, to)) && JoinRemote(dir, to) != "/"
    requires w' == w.(drive := w'.drive) && w'.drive.files == w.drive.files[JoinRemote(dir, to) := f]
    ensures Neat(w', dir) && Elsewhere(w, w', dir, {to}) && RemoteAt(w', dir, to) == Some(f)
  {
    hide Shared, CleanPath, RemoteVisible, LocalVisible;
    forall q | q != to ensures JoinRemote(dir, q) != JoinRemote(dir, to) {
      if JoinRemote(dir, q) == JoinRemote(dir, to) { JoinInjective(dir, q, to); }
    }
  }

  lemma TakeRemote(w: World, w': World, dir: Path, p: Path)
    requires Neat(w, dir) && w' == w.(drive := w'.drive, base := w.base - {p})
    requires w'.drive.files == w.drive.files - {JoinRemote(dir, p)}
    ensures Neat(w', dir) && Elsewhere(w, w', dir, {p}) && RemoteAt(w', dir, p) == None
  {
    hide Shared, CleanPath, RemoteVisible, LocalVisible;
    forall q | q != p ensures JoinRemote(dir, q) != JoinRemote(dir, p) {
      if JoinRemote(dir, q) == JoinRemote(dir, p) { JoinInjective(dir, q, p); }
    }
  }

  lemma PullStep(w: World, dir: Path, p: Path, f: Fetch)
    requires ClearFetch(f) && CleanPath(dir) && Rel(p) && Shared(p) && Neat(w, dir)
    requires PullTo(w, dir, p, p, f).1
    ensures var w' := PullTo(w, dir, p, p, f).0;
      && Neat(w', dir) && Elsewhere(w, w', dir, {p}) && w' == w.(local := w'.local)
      && MustValidate(JoinRemote(dir, p)) == JoinRemote(dir, p)
      && RemoteAt(w, dir, p).Some? && LocalAt(w', p) == Some(File(RemoteAt(w, dir, p).value.bytes, f.now))
  {
    hide PullTo, Shared, CleanPath, RemoteVisible, LocalVisible, StagingOf, MustValidate, Neat, Elsewhere;
    NeatIsTidy(w, dir);
    ClearPull(w, dir, p, p, f);
    var w' := PullTo(w, dir, p, p, f).0;
    PlacedAlone(w, w', dir, p, File(RemoteAt(w, dir, p).value.bytes, f.now));
  }

  lemma NeatIsTidy(w: World, dir: Path)
    requires Neat(w, dir)
    ensures Tidy(w.drive)
  {
  }

  lemma PlacedAlone(w: World, w': World, dir: Path, p: Path, f: File)
    requires Neat(w, dir) && Shared(p) && Rel(p) && w' == w.(local := (w.local - {StagingOf(p)})[p := f])
    ensures Neat(w', dir) && Elsewhere(w, w', dir, {p})
  {
    hide Shared, CleanPath, RemoteVisible, LocalVisible, StagingOf;
    forall q | Shared(q) && q != p ensures SameAt(w, w', dir, q) { SharedIsNotStaging(q, p); }
  }

  /** Setting a time and an entry. */
  lemma SettleStep(w: World, w': World, dir: Path, p: Path, mtime: int, ok: bool, base: map<Path, Meta>)
    requires Neat(w, dir) && w' == Touch(w, p, mtime, ok).(base := base)
    requires forall q :: q != p ==> Lookup(base, q) == Lookup(w.base, q)
    ensures Neat(w', dir) && Elsewhere(w, w', dir, {p}) && w'.drive == w.drive
    ensures ok && p in w.local ==> LocalAt(w', p) == Some(w.local[p].(mtime := mtime))
  {
    hide Shared, CleanPath, RemoteVisible, LocalVisible;
  }

  // ---- one path ----

  /** A step that leaves `rp` and its copy settled, and every other path as it was. */
  ghost predicate Settles(w: World, w': World, dir: Path, rp: Path, conf: Path) {
    && Neat(w', dir) && (Shared(rp) ==> AgreeAt(w', dir, rp))
    && Elsewhere(w, w', dir, {rp, conf})
    && (SameAt(w, w', dir, conf) || AgreeAt(w', dir, conf))
  }

  /** Both versions of a conflict are on the drive: the remote one in place, the local one as the copy. */
  predicate BothKept(w: World, w': World, dir: Path, rp: Path, conf: Path) {
    && RemoteAt(w', dir, rp) == RemoteAt(w, dir, rp)
    && LocalAt(w, rp).Some? && RemoteAt(w', dir, conf).Some?
    && RemoteAt(w', dir, conf).value.bytes == LocalAt(w, rp).value.bytes
  }

  ghost predicate Pair(dir: Path, rp: Path, conf: Path) {
    CleanPath(dir) && Rel(rp) && Shared(rp) && Rel(conf) && Shared(conf) && rp != conf
  }

  lemma PairOf(dir: Path, rp: Path, tag: string, stamp: string)
    requires CleanPath(dir) && Rel(rp) && Shared(rp) && NoneOf(tag, '/') && NoneOf(stamp, '/')
    ensures Pair(dir, rp, ConflictPath(rp, tag, stamp))
  {
    hide LocalVisible, RemoteVisible, ConflictPath, CleanPath;
    var conf := ConflictPath(rp, tag, stamp);
    ConflictPathClean(rp, tag, stamp);
    ConflictPathVisible(rp, tag, stamp);
    ConflictPathLonger(rp, tag, stamp);
    RelShape(conf);
  }

  lemma FreshIsRemote(w: World, dir: Path, rp: Path, stat: Stat, listed: Meta)
    requires stat.gap == [] && stat.ok && CleanPath(dir) && Rel(rp) && Shared(rp) && Tidy(w.drive)
    requires RemoteAt(w, dir, rp).Some? && MustValidate(JoinRemote(dir, rp)) == JoinRemote(dir, rp)
    ensures FreshMeta(w, dir, rp, stat, listed).Same(MetaOf(RemoteAt(w, dir, rp).value))
    ensures Serve(w, stat.gap) == w
  {
    hide MustValidate, LocalVisible, CleanPath;
    JoinKeepsName(dir, rp);
    RemoteVisibleName(rp);
    assert Run(w.drive, []) == w.drive;
  }

  lemma CanonicalStep(w: World, dir: Path, rp: Path, conf: Path, listed: Meta, fate: Fate)
    requires Clear(fate) && Pair(dir, rp, conf) && Neat(w, dir)
    requires PullTo(w, dir, rp, rp, fate.canonical).1
    ensures var w2 := PullTo(w, dir, rp, rp, fate.canonical).0;
      var meta := FreshMeta(w2, dir, rp, fate.stat, listed);
      var w3 := Touch(Serve(w2, fate.stat.gap), rp, meta.mtime, fate.canonical.touched);
      && Neat(w3, dir) && Elsewhere(w, w3, dir, {rp}) && w3 == w.(local := w3.local)
      && RemoteAt(w, dir, rp).Some? && LocalAt(w3, rp) == RemoteAt(w, dir, rp)
      && meta.Same(MetaOf(RemoteAt(w, dir, rp).value))
  {
    hide PullTo, Shared, CleanPath, RemoteVisible, LocalVisible, Run, FreshMeta, MustValidate;
    PullStep(w, dir, rp, fate.canonical);
    var w2 := PullTo(w, dir, rp, rp, fate.canonical).0;
    FreshIsRemote(w2, dir, rp, fate.stat, listed);
    var meta := FreshMeta(w2, dir, rp, fate.stat, listed);
    var w3 := Touch(w2, rp, meta.mtime, true);
    SettleStep(w2, w3, dir, rp, meta.mtime, true, w2.base);
    ElsewhereTrans(w, w2, w3, dir, {rp}, {rp});
    assert {rp} + {rp} == {rp};
  }

  lemma MirrorStep(w: World, dir: Path, rp: Path, conf: Path, meta: Meta, copyMeta: Meta, f: Fetch)
    requires ClearFetch(f) && Pair(dir, rp, conf) && Neat(w, dir)
    requires PullTo(w, dir, conf, conf, f).1
    requires RemoteAt(w, dir, conf).Some? ==> copyMeta.Same(MetaOf(RemoteAt(w, dir, conf).value))
    requires LocalAt(w, rp).Some? && LocalAt(w, rp) == RemoteAt(w, dir, rp) && meta.Same(MetaOf(LocalAt(w, rp).value))
    ensures var w5 := Touch(PullTo(w, dir, conf, conf, f).0, conf, copyMeta.mtime, f.touched);
      var w' := w5.(base := w5.base[rp := meta][conf := copyMeta]);
      && Settles(w, w', dir, rp, conf) && AgreeAt(w', dir, conf) && w'.drive == w.drive
  {
    hide PullTo, Shared, CleanPath, RemoteVisible, LocalVisible;
    PullStep(w, dir, conf, f);
    var w4 := PullTo(w, dir, conf, conf, f).0;
    var w4' := w4.(base := w4.base[rp := meta]);
    SettleStep(w4, w4', dir, rp, 0, false, w4'.base);
    var w' := Touch(w4', conf, copyMeta.mtime, true).(base := w4'.base[conf := copyMeta]);
    SettleStep(w4', w', dir, conf, copyMeta.mtime, true, w4'.base[conf := copyMeta]);
    ElsewhereTrans(w, w4, w4', dir, {conf}, {rp});
    ElsewhereTrans(w, w4', w', dir, {conf} + {rp}, {conf});
    assert {conf} + {rp} + {conf} == {rp, conf};
    assert LocalAt(w4, rp) == LocalAt(w, rp) by { assert SameAt(w, w4, dir, rp); }
  }

  lemma ConflictStep(w: World, dir: Path, tag: string, rp: Path, listed: Meta, fate: Fate)
    requires Clear(fate) && Neat(w, dir)
    requires Pair(dir, rp, ConflictPath(rp, tag, fate.stamp))
    requires ResolveConflict(w, dir, tag, rp, listed, fate).errors == w.errors
    ensures var w' := ResolveConflict(w, dir, tag, rp, listed, fate);
      var conf := ConflictPath(rp, tag, fate.stamp);
      Settles(w, w', dir, rp, conf) && AgreeAt(w', dir, conf) && BothKept(w, w', dir, rp, conf)
  {
    hide UploadFile, PullTo, Run, ConflictPath, Shared, CleanPath, RemoteVisible, LocalVisible, FreshMeta, Neat, Touch;
    var conf := ConflictPath(rp, tag, fate.stamp);
    var (w1, parked) := UploadFile(w, dir, rp, conf, "", fate.park);
    ClearUpload(w, dir, rp, conf, "", fate.park);
    assert parked.Recorded?;
    UploadStep(w, dir, rp, conf, "", fate.park);
    assert SameAt(w, w1, dir, rp);
    PullFrame(w1, dir, rp, rp, fate.canonical);
    CanonicalStep(w1, dir, rp, conf, listed, fate);
    var w2 := PullTo(w1, dir, rp, rp, fate.canonical).0;
    var meta := FreshMeta(w2, dir, rp, fate.stat, listed);
    var w3 := Touch(Serve(w2, fate.stat.gap), rp, meta.mtime, fate.canonical.touched);
    assert SameAt(w1, w3, dir, conf);
    PullFrame(w3, dir, conf, conf, fate.copy);
    MirrorStep(w3, dir, rp, conf, meta, parked.meta, fate.copy);
    var w' := ResolveConflict(w, dir, tag, rp, listed, fate);
    ElsewhereTrans(w, w1, w3, dir, {conf}, {rp});
    ElsewhereTrans(w, w3, w', dir, {conf} + {rp}, {rp, conf});
    assert {conf} + {rp} + {rp, conf} == {rp, conf};
  }

  function MetaAt(f: Option<File>): Option<Meta> {
    match f case None => None case Some(x) => Some(MetaOf(x))
  }

  /** The walks still describe `rp`, and one size and time there mean the same bytes. */
  ghost predicate Current(w: World, dir: Path, l: Option<Meta>, r: Option<Meta>, rp: Path) {
    && (Shared(rp) ==> l == MetaAt(LocalAt(w, rp)) && r == MetaAt(RemoteAt(w, dir, rp)))
    && (l.Some? || r.Some? ==> Shared(rp) && Rel(rp))
    && (l.Some? && r.Some? && l.value.Same(r.value) ==>
          LocalAt(w, rp).value.bytes == RemoteAt(w, dir, rp).value.bytes)
  }

  lemma EntryStep(w: World, w': World, dir: Path, rp: Path, conf: Path)
    requires Neat(w, dir) && w' == w.(base := w'.base) && rp != conf
    requires forall q :: q != rp ==> Lookup(w'.base, q) == Lookup(w.base, q)
    requires Shared(rp) ==> AgreeAt(w', dir, rp)
    ensures Settles(w, w', dir, rp, conf)
  {
    hide Shared, Rel, RemoteVisible, LocalVisible;
  }

  lemma PushStep(w: World, dir: Path, tag: string, l: Option<Meta>, r: Option<Meta>, b: Option<Meta>, listed: Meta,
                 rp: Path, fate: Fate)
    requires Clear(fate) && Neat(w, dir) && Current(w, dir, l, r, rp) && l.Some?
    requires Pair(dir, rp, ConflictPath(rp, tag, fate.stamp))
    requires PushLocal(w, dir, tag, rp, b, listed, fate).errors == w.errors
    ensures var w', conf := PushLocal(w, dir, tag, rp, b, listed, fate), ConflictPath(rp, tag, fate.stamp);
      && Settles(w, w', dir, rp, conf)
      && (!UploadFile(w, dir, rp, rp, if b.Some? then b.value.etag else "", fate.push).1.Mismatch? ==>
            SameAt(w, w', dir, conf) && LocalAt(w, rp).Some? && RemoteAt(w', dir, rp).Some? &&
            RemoteAt(w', dir, rp).value.bytes == LocalAt(w, rp).value.bytes)
  {
    hide UploadFile, ResolveConflict, ConflictPath, Shared, CleanPath, RemoteVisible, LocalVisible, Neat;
    var conf := ConflictPath(rp, tag, fate.stamp);
    var ifMatch := if b.Some? then b.value.etag else "";
    var (w1, pushed) := UploadFile(w, dir, rp, rp, ifMatch, fate.push);
    ClearUpload(w, dir, rp, rp, ifMatch, fate.push);
    match pushed
    case Mismatch => ConflictStep(w, dir, tag, rp, listed, fate);
    case Failed =>
    case Recorded(meta) =>
      UploadStep(w, dir, rp, rp, ifMatch, fate.push);
      var w' := PushLocal(w, dir, tag, rp, b, listed, fate);
      SettleStep(w1, w', dir, rp, meta.mtime, true, w'.base);
      ElsewhereTrans(w, w1, w', dir, {rp}, {rp});
      SettledAlone(w, w', dir, rp, conf);
  }

  lemma SettledAlone(w: World, w': World, dir: Path, rp: Path, conf: Path)
    requires Neat(w', dir) && Elsewhere(w, w', dir, {rp} + {rp}) && AgreeAt(w', dir, rp)
    requires Shared(conf) && rp != conf
    ensures Settles(w, w', dir, rp, conf) && SameAt(w, w', dir, conf)
  {
    hide Shared, Neat, SameAt;
    assert SameAt(w, w', dir, conf);
  }

  lemma PullRemoteStep(w: World, dir: Path, l: Option<Meta>, r: Option<Meta>, rp: Path, conf: Path, fate: Fate)
    requires Clear(fate) && Neat(w, dir) && Current(w, dir, l, r, rp) && r.Some? && Pair(dir, rp, conf)
    requires PullRemote(w, dir, rp, r.value, fate).errors == w.errors
    ensures var w' := PullRemote(w, dir, rp, r.value, fate);
      Settles(w, w', dir, rp, conf) && SameAt(w, w', dir, conf) && RemoteAt(w', dir, rp) == RemoteAt(w, dir, rp)
  {
    hide PullTo, Shared, CleanPath, RemoteVisible, LocalVisible, Neat, Blocked;
    var (w1, ok) := PullTo(w, dir, rp, rp, fate.fetch);
    PullFrame(w, dir, rp, rp, fate.fetch);
    assert ok;
    PullStep(w, dir, rp, fate.fetch);
    var w' := PullRemote(w, dir, rp, r.value, fate);
    SettleStep(w1, w', dir, rp, r.value.mtime, true, w'.base);
    ElsewhereTrans(w, w1, w', dir, {rp}, {rp});
    SettledAlone(w, w', dir, rp, conf);
  }

  lemma DeleteRemoteStep(w: World, dir: Path, l: Option<Meta>, r: Option<Meta>, rp: Path, conf: Path, fate: Fate)
    requires Clear(fate) && Neat(w, dir) && Current(w, dir, l, r, rp) && l.None? && r.Some? && Pair(dir, rp, conf)
    requires DeleteRemote(w, dir, rp, fate).errors == w.errors
    ensures var w' := DeleteRemote(w, dir, rp, fate);
      Settles(w, w', dir, rp, conf) && SameAt(w, w', dir, conf) && RemoteAt(w', dir, rp) == None
  {
    hide RemoveRemote, Shared, CleanPath, RemoteVisible, LocalVisible, Neat;
    var (w1, ok) := RemoveRemote(w, dir, rp, fate.remove);
    RemoveFrame(w, dir, rp, fate.remove);
    assert ok;
    ClearDelete(w, dir, rp, fate.remove);
    var w' := DeleteRemote(w, dir, rp, fate);
    TakeRemote(w, w', dir, rp);
    assert {rp} + {rp} == {rp};
    SettledAlone(w, w', dir, rp, conf);
  }

  lemma BinLocalStep(w: World, dir: Path, l: Option<Meta>, r: Option<Meta>, rp: Path, conf: Path, fate: Fate)
    requires Clear(fate) && Neat(w, dir) && Current(w, dir, l, r, rp) && l.Some? && r.None? && Pair(dir, rp, conf)
    requires BinLocal(w, rp, fate).errors == w.errors
    ensures var w' := BinLocal(w, rp, fate);
      && Settles(w, w', dir, rp, conf) && SameAt(w, w', dir, conf) && LocalAt(w', rp) == None
      && rp in w.local && Binned(w'.local, fate.binStamp, rp, w.local[rp])
  {
    hide FreeBin, Shared, CleanPath, RemoteVisible, LocalVisible, Blocked;
    var w' := BinLocal(w, rp, fate);
    var dst := FreeBin(w.local, fate.binStamp, rp, 0, fate.binUnseen).value;
    var m: nat :| dst == BinPath(fate.binStamp, m, rp);
    BinPathIsHidden(fate.binStamp, m, rp);
    hide BinPath;
    forall q | Shared(q) ensures q != dst { SharedVisible(q); }
    assert {rp} + {rp} == {rp};
    SettledAlone(w, w', dir, rp, conf);
  }

  /** The file is at one of the numbered places for `p` in the local trash. */
  ghost predicate Binned(local: map<Path, File>, stamp: string, p: Path, f: File) {
    exists n: nat :: BinPath(stamp, n, p) in local && local[BinPath(stamp, n, p)] == f
  }

  lemma SharedVisible(q: Path)
    requires Shared(q)
    ensures LocalVisible(q)
  {
  }

  /** A failure-free step settles its path, whatever the switch decides. */
  lemma StepSettles(w: World, dir: Path, tag: string, l: Option<Meta>, r: Option<Meta>, rp: Path, fate: Fate)
    requires Clear(fate) && Neat(w, dir) && Current(w, dir, l, r, rp) && CleanPath(dir)
    requires NoneOf(tag, '/') && NoneOf(fate.stamp, '/')
    requires StepPath(w, dir, tag, l, r, rp, fate).errors == w.errors
    ensures var w' := StepPath(w, dir, tag, l, r, rp, fate);
      var conf := ConflictPath(rp, tag, fate.stamp);
      && Settles(w, w', dir, rp, conf)
      && (Diverged(l, r, Lookup(w.base, rp)) ==> AgreeAt(w', dir, conf) && BothKept(w, w', dir, rp, conf))
  {
    hide ResolveConflict, PushLocal, DeleteRemote, PullRemote, BinLocal, ConflictPath, Shared, CleanPath,
         RemoteVisible, LocalVisible, Neat, Settles;
    var b := Lookup(w.base, rp);
    var conf := ConflictPath(rp, tag, fate.stamp);
    ConflictPathLonger(rp, tag, fate.stamp);
    var w' := StepPath(w, dir, tag, l, r, rp, fate);
    if l.None? && r.None? {
      EntryStep(w, w', dir, rp, conf);
    } else {
      PairOf(dir, rp, tag, fate.stamp);
      if Changed(l, b) && Changed(r, b) {
        if l.value.Same(r.value) {
          EntryStep(w, w', dir, rp, conf);
        } else {
          ConflictStep(w, dir, tag, rp, r.value, fate);
        }
      } else if Changed(l, b) {
        PushStep(w, dir, tag, l, r, b, if r.Some? then r.value else Meta(0, 0, ""), rp, fate);
      } else if Gone(l, b) && !Changed(r, b) && !Gone(r, b) {
        DeleteRemoteStep(w, dir, l, r, rp, conf, fate);
      } else if Changed(r, b) {
        PullRemoteStep(w, dir, l, r, rp, conf, fate);
      } else if Gone(r, b) && !Changed(l, b) && !Gone(l, b) {
        BinLocalStep(w, dir, l, r, rp, conf, fate);
      } else {
        EntryStep(w, w', dir, rp, conf);
      }
    }
  }

  /** Both sides changed, and not to the same size and time. */
  predicate Diverged(l: Option<Meta>, r: Option<Meta>, b: Option<Meta>) {
    Changed(l, b) && Changed(r, b) && !l.value.Same(r.value)
  }
}
