/** Whole passes in which nothing fails: as long as they meet no error, they converge. */
module SyncPass {
  import opened ConflictName
  import opened DriveInvariant
  import opened DriveModel
  import opened DriveRuns
  import opened LogicalPath
  import opened Strings
  import opened SyncConvergence
  import opened SyncModel
  import opened SyncNoLoss
  import opened SyncStep
  import opened Wrappers

  // ---- what every step leaves alone ----

  /** Errors only accumulate, an abandoned pass has one, and only these entries change. */
  ghost predicate Grows(w: World, w': World, entries: set<Path>) {
    && w'.errors >= w.errors && (w'.aborted ==> w.aborted || w'.errors > w.errors)
    && forall q :: q !in entries ==> Lookup(w'.base, q) == Lookup(w.base, q)
  }

  lemma UploadFrame(w: World, dir: Path, from: Path, to: Path, ifMatch: string, p: Push)
    ensures var w' := UploadFile(w, dir, from, to, ifMatch, p).0; w' == w.(drive := w'.drive)
  {
    hide DriveModel.Upload;
  }

  lemma TrashFrame(w: World, p: Path, stamp: string, ok: bool, unseen: set<Path>)
    ensures var w' := TrashLocal(w, p, stamp, ok, unseen).0; w' == w.(local := w'.local)
  {
    hide FreeBin, LocalBlocked;
  }

  lemma ConflictGrows(w: World, dir: Path, tag: string, rp: Path, listed: Meta, fate: Fate)
    ensures Grows(w, ResolveConflict(w, dir, tag, rp, listed, fate), {rp, ConflictPath(rp, tag, fate.stamp)})
  {
    hide UploadFile, PullTo, Run, ConflictPath, FreshMeta;
    var conf := ConflictPath(rp, tag, fate.stamp);
    UploadFrame(w, dir, rp, conf, "", fate.park);
    var w1 := UploadFile(w, dir, rp, conf, "", fate.park).0;
    PullFrame(w1, dir, rp, rp, fate.canonical);
    var w2 := PullTo(w1, dir, rp, rp, fate.canonical).0;
    var meta := FreshMeta(w2, dir, rp, fate.stat, listed);
    PullFrame(Touch(Serve(w2, fate.stat.gap), rp, meta.mtime, fate.canonical.touched), dir, conf, conf, fate.copy);
  }

  lemma PushGrows(w: World, dir: Path, tag: string, rp: Path, b: Option<Meta>, listed: Meta, fate: Fate)
    ensures Grows(w, PushLocal(w, dir, tag, rp, b, listed, fate), {rp, ConflictPath(rp, tag, fate.stamp)})
  {
    hide UploadFile, ResolveConflict, ConflictPath;
    var ifMatch := if b.Some? then b.value.etag else "";
    UploadFrame(w, dir, rp, rp, ifMatch, fate.push);
    ConflictGrows(UploadFile(w, dir, rp, rp, ifMatch, fate.push).0, dir, tag, rp, listed, fate);
  }

  lemma OthersGrow(w: World, dir: Path, rp: Path, r: Meta, fate: Fate)
    ensures Grows(w, DeleteRemote(w, dir, rp, fate), {rp}) && Grows(w, PullRemote(w, dir, rp, r, fate), {rp})
    ensures Grows(w, BinLocal(w, rp, fate), {rp})
  {
    hide RemoveRemote, PullTo, TrashLocal, Blocked;
    RemoveFrame(w, dir, rp, fate.remove);
    PullFrame(w, dir, rp, rp, fate.fetch);
    TrashFrame(w, rp, fate.binStamp, fate.binOk, fate.binUnseen);
  }

  lemma StepGrows(w: World, dir: Path, tag: string, l: Option<Meta>, r: Option<Meta>, rp: Path, fate: Fate)
    ensures var w' := StepPath(w, dir, tag, l, r, rp, fate);
      && Grows(w, w', if l.Some? then {rp, ConflictPath(rp, tag, fate.stamp)} else {rp})
      && (l.None? && r.None? ==> rp !in w'.base)
  {
    hide ResolveConflict, PushLocal, DeleteRemote, PullRemote, BinLocal, ConflictPath;
    if l.Some? {
      var listed := if r.Some? then r.value else Meta(0, 0, "");
      PushGrows(w, dir, tag, rp, Lookup(w.base, rp), listed, fate);
      ConflictGrows(w, dir, tag, rp, listed, fate);
    }
    OthersGrow(w, dir, rp, if r.Some? then r.value else Meta(0, 0, ""), fate);
  }

  lemma {:induction false} StepsErrors(w: World, dir: Path, tag: string, local: map<Path, Meta>,
                                       remote: map<Path, Meta>, order: seq<Path>, plan: Plan)
    ensures Steps(w, dir, tag, local, remote, order, plan).errors >= w.errors
    decreases |order|
  {
    hide StepPath;
    if order != [] && !w.aborted {
      var l, r := Lookup(local, order[0]), Lookup(remote, order[0]);
      StepGrows(w, dir, tag, l, r, order[0], plan(order[0]));
      StepsErrors(StepPath(w, dir, tag, l, r, order[0], plan(order[0])), dir, tag, local, remote, order[1..], plan);
    }
  }

  // ---- the start of a pass ----

  /** One size and time mean one content, wherever both sides hold a path. */
  ghost predicate Identified(c: Client, d: Drive, dir: Path) {
    forall p :: p in Walk(c.local) && p in Listing(d, dir) && Walk(c.local)[p].Same(Listing(d, dir)[p]) ==>
      c.local[p].bytes == d.files[JoinRemote(dir, p)].bytes
  }

  /** What convergence asks of the two trees; nothing is asked of the baseline. */
  ghost predicate Ready(c: Client, d: Drive, dir: Path) {
    CleanPath(dir) && Neat(Begin(c, d), dir) && Identified(c, d, dir)
  }

  /** A failure-free plan over all paths, whose conflict copies are new. */
  ghost predicate ClearPlan(c: Client, d: Drive, dir: Path, tag: string, order: seq<Path>, plan: Plan) {
    && NoneOf(tag, '/') && Lists(order, PassPaths(c, d, dir))
    && forall p :: p in order ==>
         Clear(plan(p)) && NoneOf(plan(p).stamp, '/') && ConflictPath(p, tag, plan(p).stamp) !in PassPaths(c, d, dir)
  }

  lemma ListedIs(d: Drive, dir: Path, p: Path)
    requires Tidy(d) && CleanPath(dir)
    ensures p in Listing(d, dir) ==> Rel(p) && RemoteVisible(p) && JoinRemote(dir, p) in d.files
    ensures Shared(p) && JoinRemote(dir, p) in d.files ==> p in Listing(d, dir)
    ensures p in Listing(d, dir) ==> Listing(d, dir)[p] == MetaOf(d.files[JoinRemote(dir, p)])
  {
    hide CleanPath, RemoteVisible, LocalVisible;
    if p in Listing(d, dir) {
      var q :| q in d.files && (dir == "/" || HasPrefix(q, dir + "/")) &&
               p == if dir == "/" then q else TrimPrefix(q, dir);
      if dir != "/" { TailClean(dir, q); }
    }
    if Shared(p) && JoinRemote(dir, p) in d.files {
      var q := JoinRemote(dir, p);
      if dir != "/" {
        assert q[..|dir| + 1] == dir + "/";
        assert TrimPrefix(q, dir) == p;
      }
      assert p in RemotePaths(d, dir);
    }
  }

  lemma CurrentAt(c: Client, d: Drive, dir: Path, w: World, p: Path)
    requires Ready(c, d, dir) && (Shared(p) ==> SameAt(Begin(c, d), w, dir, p))
    ensures Current(w, dir, Lookup(Walk(c.local), p), Lookup(Listing(d, dir), p), p)
  {
    hide CleanPath, RemoteVisible, LocalVisible, RemotePaths;
    ListedIs(d, dir, p);
    SharedParts(p);
  }

  lemma SharedParts(p: Path)
    ensures Shared(p) ==> LocalVisible(p) && RemoteVisible(p)
  {
  }

  // ---- the loop ----

  /** Paths still to come are as they were; all others agree. */
  ghost predicate Converging(w0: World, w: World, dir: Path, todo: seq<Path>) {
    && Neat(w, dir)
    && (forall q :: Shared(q) && q in todo ==> SameAt(w0, w, dir, q))
    && (forall q :: Shared(q) && q !in todo ==> AgreeAt(w, dir, q))
    && (forall q :: q in w.base && q !in todo ==> Shared(q))
  }

  lemma SameAgree(w: World, w': World, dir: Path, q: Path)
    requires SameAt(w, w', dir, q) && AgreeAt(w, dir, q)
    ensures AgreeAt(w', dir, q)
  {
  }

  lemma ConvergingStep(w0: World, w: World, w': World, dir: Path, rp: Path, conf: Path, rest: seq<Path>)
    requires Converging(w0, w, dir, [rp] + rest) && rp !in rest && conf !in [rp] + rest
    requires Settles(w, w', dir, rp, conf)
    requires rp in w'.base ==> Shared(rp)
    requires conf in w'.base ==> conf in w.base || Shared(conf)
    requires forall q :: q != rp && q != conf ==> Lookup(w'.base, q) == Lookup(w.base, q)
    ensures Converging(w0, w', dir, rest)
  {
    hide Shared, Neat, AgreeAt, SameAt;
    forall q | Shared(q) && q in rest ensures SameAt(w0, w', dir, q) {
      assert q in [rp] + rest;
      assert SameAt(w0, w, dir, q) && SameAt(w, w', dir, q);
      SameTrans(w0, w, w', dir, q);
    }
    forall q | Shared(q) && q !in rest ensures AgreeAt(w', dir, q) {
      if q != rp {
        assert q !in [rp] + rest;
        assert AgreeAt(w, dir, q);
        if SameAt(w, w', dir, q) { SameAgree(w, w', dir, q); }
      }
    }
    forall q | q in w'.base && q !in rest ensures Shared(q) {
      if q != rp {
        assert q !in [rp] + rest;
        if q != conf { assert Lookup(w'.base, q) == Lookup(w.base, q); }
      }
    }
  }

  lemma StepConverges(c: Client, d: Drive, dir: Path, tag: string, all: seq<Path>, plan: Plan,
                      w: World, rp: Path, rest: seq<Path>)
    requires Ready(c, d, dir) && ClearPlan(c, d, dir, tag, all, plan)
    requires rp in all && rp !in rest && forall p :: p in rest ==> p in all
    requires Converging(Begin(c, d), w, dir, [rp] + rest)
    requires var w' := StepPath(w, dir, tag, Lookup(Walk(c.local), rp), Lookup(Listing(d, dir), rp), rp, plan(rp));
             w'.errors == w.errors
    ensures var w' := StepPath(w, dir, tag, Lookup(Walk(c.local), rp), Lookup(Listing(d, dir), rp), rp, plan(rp));
      Converging(Begin(c, d), w', dir, rest)
  {
    hide StepPath, Shared, Rel, CleanPath, ConflictPath, Neat, Clear, AgreeAt, SameAt, Identified, Walk, Listing,
         Settles;
    var l, r := Lookup(Walk(c.local), rp), Lookup(Listing(d, dir), rp);
    var w' := StepPath(w, dir, tag, l, r, rp, plan(rp));
    var conf := ConflictPath(rp, tag, plan(rp).stamp);
    assert rp in [rp] + rest;
    CurrentAt(c, d, dir, w, rp);
    StepSettles(w, dir, tag, l, r, rp, plan(rp));
    StepGrows(w, dir, tag, l, r, rp, plan(rp));
    if l.Some? { PairOf(dir, rp, tag, plan(rp).stamp); }
    assert conf !in all;
    assert conf !in rest;
    ConvergingStep(Begin(c, d), w, w', dir, rp, conf, rest);
  }

  lemma {:induction false} StepsConverge(c: Client, d: Drive, dir: Path, tag: string, all: seq<Path>, plan: Plan,
                                         w: World, order: seq<Path>)
    requires Ready(c, d, dir) && ClearPlan(c, d, dir, tag, all, plan)
    requires Distinct(order) && forall p :: p in order ==> p in all
    requires Converging(Begin(c, d), w, dir, order) && !w.aborted
    requires Steps(w, dir, tag, Walk(c.local), Listing(d, dir), order, plan).errors == w.errors
    ensures var w' := Steps(w, dir, tag, Walk(c.local), Listing(d, dir), order, plan);
      Converging(Begin(c, d), w', dir, []) && !w'.aborted
    decreases |order|
  {
    hide StepPath, Ready, ClearPlan, Converging;
    if order != [] {
      var rp, rest := order[0], order[1..];
      assert order == [rp] + rest;
      var l, r := Lookup(Walk(c.local), rp), Lookup(Listing(d, dir), rp);
      var w1 := StepPath(w, dir, tag, l, r, rp, plan(rp));
      StepGrows(w, dir, tag, l, r, rp, plan(rp));
      StepsErrors(w1, dir, tag, Walk(c.local), Listing(d, dir), rest, plan);
      StepConverges(c, d, dir, tag, all, plan, w, rp, rest);
      StepsConverge(c, d, dir, tag, all, plan, w1, rest);
    }
  }

  lemma ConvergingAtStart(c: Client, d: Drive, dir: Path, order: seq<Path>)
    requires Ready(c, d, dir) && Lists(order, PassPaths(c, d, dir))
    ensures Converging(Begin(c, d), Begin(c, d), dir, order)
  {
    hide CleanPath, RemoteVisible, LocalVisible, RemotePaths, Listing, Rel;
    forall q | Shared(q) && q !in order ensures AgreeAt(Begin(c, d), dir, q) {
      ListedIs(d, dir, q);
      SharedParts(q);
      assert q !in PassPaths(c, d, dir);
    }
    forall q | q in c.saved ensures q in order { assert q in PassPaths(c, d, dir); }
  }

  /** Every path agrees and nothing else is recorded. */
  ghost predicate Converged(w: World, dir: Path) {
    (forall q :: Shared(q) ==> AgreeAt(w, dir, q)) && forall q :: q in w.base ==> Shared(q)
  }

  /** A pass that meets no error ends with all three agreeing on every path. */
  lemma ErrorFreePassConverges(c: Client, d: Drive, dir: Path, tag: string, order: seq<Path>, plan: Plan)
    requires Ready(c, d, dir) && ClearPlan(c, d, dir, tag, order, plan)
    requires Pass(c, d, dir, tag, order, plan).errors == 0
    ensures var w := Pass(c, d, dir, tag, order, plan);
      Converged(w, dir) && Neat(w, dir) && AfterPass(c, w, SaveOk) == Client(w.local, w.base)
  {
    hide Steps, AgreeAt, Shared, Neat, SameAt;
    ConvergingAtStart(c, d, dir, order);
    StepsConverge(c, d, dir, tag, order, plan, Begin(c, d), order);
  }
}
