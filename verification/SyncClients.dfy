/** Idle second passes, two clients, and conflicts with both sides kept. */
module SyncClients {
  import opened ConflictName
  import opened DriveArchive
  import opened DriveModel
  import opened DriveRuns
  import opened LogicalPath
  import opened Strings
  import opened SyncConvergence
  import opened SyncModel
  import opened SyncNoLoss
  import opened SyncPass
  import opened SyncProgress
  import opened SyncStep
  import opened Wrappers

  // ---- the pass after a converged one ----

  predicate Agreed(a: Option<Meta>, b: Option<Meta>) {
    (a.None? && b.None?) || (a.Some? && b.Some? && a.value.Same(b.value))
  }

  lemma AgreedStepIsIdle(w: World, dir: Path, tag: string, l: Option<Meta>, r: Option<Meta>, rp: Path, fate: Fate)
    requires Agreed(l, Lookup(w.base, rp)) && Agreed(r, Lookup(w.base, rp))
    ensures StepPath(w, dir, tag, l, r, rp, fate) == w
  {
  }

  lemma WalksAgree(w: World, dir: Path, p: Path)
    requires Converged(w, dir) && Neat(w, dir) && CleanPath(dir)
    ensures Agreed(Lookup(Walk(w.local), p), Lookup(w.base, p))
    ensures Agreed(Lookup(Listing(w.drive, dir), p), Lookup(w.base, p))
  {
    hide CleanPath, RemoteVisible, LocalVisible, RemotePaths, Listing, Rel;
    ListedIs(w.drive, dir, p);
    SharedParts(p);
    if Shared(p) { assert AgreeAt(w, dir, p); }
  }

  lemma {:induction false} IdleSteps(w: World, dir: Path, tag: string, local: map<Path, Meta>,
                                     remote: map<Path, Meta>, order: seq<Path>, plan: Plan)
    requires forall p :: Agreed(Lookup(local, p), Lookup(w.base, p)) && Agreed(Lookup(remote, p), Lookup(w.base, p))
    ensures Steps(w, dir, tag, local, remote, order, plan) == w
    decreases |order|
  {
    hide StepPath, Agreed;
    if order != [] && !w.aborted {
      AgreedStepIsIdle(w, dir, tag, Lookup(local, order[0]), Lookup(remote, order[0]), order[0], plan(order[0]));
      IdleSteps(w, dir, tag, local, remote, order[1..], plan);
    }
  }

  /** After a failure-free pass the next one does nothing at all, whatever it might have met. */
  lemma SecondPassIsIdle(c: Client, d: Drive, dir: Path, tag: string, order: seq<Path>, plan: Plan,
                         order2: seq<Path>, plan2: Plan)
    requires Ready(c, d, dir) && ClearPlan(c, d, dir, tag, order, plan)
    requires Smooth(c, d, dir, tag, order, plan)
    ensures var w := Pass(c, d, dir, tag, order, plan);
      var next := AfterPass(c, w, SaveOk);
      Pass(next, w.drive, dir, tag, order2, plan2) == Begin(next, w.drive)
  {
    hide Steps, Converged, Neat, CleanPath, Walk, Listing, Agreed, Smooth;
    PassConverges(c, d, dir, tag, order, plan);
    var w := Pass(c, d, dir, tag, order, plan);
    var next := AfterPass(c, w, SaveOk);
    forall p ensures Agreed(Lookup(Walk(w.local), p), Lookup(w.base, p)) &&
                     Agreed(Lookup(Listing(w.drive, dir), p), Lookup(w.base, p)) {
      WalksAgree(w, dir, p);
    }
    IdleSteps(Begin(next, w.drive), dir, tag, Walk(next.local), Listing(w.drive, dir), order2, plan2);
  }

  // ---- two clients ----

  /** The local tree is what the baseline recorded. */
  ghost predicate Unedited(c: Client) {
    forall p :: Agreed(Lookup(Walk(c.local), p), Lookup(c.saved, p))
  }

  /** No other client acts during the pass; anything may fail. */
  ghost predicate Alone(order: seq<Path>, plan: Plan) {
    forall p :: p in order ==> plan(p).fetch.gap == []
  }

  lemma PullOnlyReads(w: World, dir: Path, p: Path, f: Fetch)
    requires f.gap == []
    ensures var w' := PullTo(w, dir, p, p, f).0; w' == w.(local := w'.local)
  {
    hide MustValidate, LocalBlocked, Strew, StagingOf, JoinRemote;
    assert Run(w.drive, []) == w.drive;
  }

  lemma PulledThenTouched(w: World, dir: Path, p: Path, r: Meta, fate: Fate)
    requires fate.fetch.gap == []
    ensures var w' := PullRemote(w, dir, p, r, fate);
      w'.drive == w.drive && forall q :: q != p ==> Lookup(w'.base, q) == Lookup(w.base, q)
  {
    hide PullTo, Blocked;
    PullOnlyReads(w, dir, p, fate.fetch);
  }

  lemma UneditedStep(w: World, dir: Path, tag: string, l: Option<Meta>, r: Option<Meta>, rp: Path, fate: Fate)
    requires Agreed(l, Lookup(w.base, rp)) && fate.fetch.gap == []
    ensures var w' := StepPath(w, dir, tag, l, r, rp, fate);
      w'.drive == w.drive && forall q :: q != rp ==> Lookup(w'.base, q) == Lookup(w.base, q)
  {
    hide MustValidate, LocalBlocked, TrashLocal, PullTo, Blocked, ResolveConflict, PushLocal, DeleteRemote, PullRemote;
    TrashFrame(w, rp, fate.binStamp, fate.binOk, fate.binUnseen);
    PulledThenTouched(w, dir, rp, if r.Some? then r.value else Meta(0, 0, ""), fate);
  }

  lemma {:induction false} UneditedSteps(w: World, dir: Path, tag: string, local: map<Path, Meta>,
                                         remote: map<Path, Meta>, order: seq<Path>, plan: Plan)
    requires Distinct(order) && Alone(order, plan)
    requires forall p :: p in order ==> Agreed(Lookup(local, p), Lookup(w.base, p))
    ensures Steps(w, dir, tag, local, remote, order, plan).drive == w.drive
    decreases |order|
  {
    hide StepPath, Agreed;
    if order != [] && !w.aborted {
      var rp := order[0];
      UneditedStep(w, dir, tag, Lookup(local, rp), Lookup(remote, rp), rp, plan(rp));
      UneditedSteps(StepPath(w, dir, tag, Lookup(local, rp), Lookup(remote, rp), rp, plan(rp)),
                    dir, tag, local, remote, order[1..], plan);
    }
  }

  /** A client whose files are as its baseline recorded them never writes the drive, whatever fails. */
  lemma UneditedPassOnlyReads(c: Client, d: Drive, dir: Path, tag: string, order: seq<Path>, plan: Plan)
    requires Unedited(c) && Distinct(order) && Alone(order, plan)
    ensures Pass(c, d, dir, tag, order, plan).drive == d
  {
    UneditedSteps(Begin(c, d), dir, tag, Walk(c.local), Listing(d, dir), order, plan);
  }

  lemma ConvergedIsUnedited(w: World, dir: Path)
    requires Converged(w, dir) && Neat(w, dir) && CleanPath(dir)
    ensures Unedited(Client(w.local, w.base))
  {
    hide CleanPath, Neat, Agreed;
    forall p ensures Agreed(Lookup(Walk(w.local), p), Lookup(w.base, p)) { WalksAgree(w, dir, p); }
  }

  /** Nothing fails in this pass and nothing is in its way. */
  ghost predicate CleanPass(c: Client, d: Drive, dir: Path, tag: string, order: seq<Path>, plan: Plan) {
    Identified(c, d, dir) && ClearPlan(c, d, dir, tag, order, plan) && Smooth(c, d, dir, tag, order, plan)
  }

  /** The trees of both clients and the drive are one, path by path. */
  ghost predicate AllEqual(wa: World, wb: World, dir: Path) {
    forall q :: Shared(q) ==> LocalAt(wa, q) == RemoteAt(wa, dir, q) == LocalAt(wb, q)
  }

  /** Passes of one client, the other, and the first again leave both trees and the drive equal on every path. */
  lemma TwoClientsConverge(a: Client, b: Client, d: Drive, dir: Path, tagA: string, tagB: string,
                           o1: seq<Path>, p1: Plan, o2: seq<Path>, p2: Plan, o3: seq<Path>, p3: Plan)
    requires CleanPath(dir) && Neat(Begin(a, d), dir) && Neat(Begin(b, d), dir)
    requires CleanPass(a, d, dir, tagA, o1, p1)
    requires var w1 := Pass(a, d, dir, tagA, o1, p1); CleanPass(b, w1.drive, dir, tagB, o2, p2)
    requires var w1 := Pass(a, d, dir, tagA, o1, p1); var w2 := Pass(b, w1.drive, dir, tagB, o2, p2);
             CleanPass(AfterPass(a, w1, SaveOk), w2.drive, dir, tagA, o3, p3)
    ensures var w1 := Pass(a, d, dir, tagA, o1, p1); var w2 := Pass(b, w1.drive, dir, tagB, o2, p2);
      var w3 := Pass(AfterPass(a, w1, SaveOk), w2.drive, dir, tagA, o3, p3);
      w3.drive == w2.drive && AllEqual(w3, w2, dir)
  {
    hide Pass, CleanPath, Identified, ClearPlan, Converged, Neat, Shared, Clear, Smooth;
    PassConverges(a, d, dir, tagA, o1, p1);
    var w1 := Pass(a, d, dir, tagA, o1, p1);
    NeatMix(w1, Begin(b, d), dir);
    PassConverges(b, w1.drive, dir, tagB, o2, p2);
    var w2 := Pass(b, w1.drive, dir, tagB, o2, p2);
    NeatMix(w2, w1, dir);
    var a2 := AfterPass(a, w1, SaveOk);
    PassConverges(a2, w2.drive, dir, tagA, o3, p3);
    var w3 := Pass(a2, w2.drive, dir, tagA, o3, p3);
    ConvergedIsUnedited(w1, dir);
    ClearPlanIsAlone(a2, w2.drive, dir, tagA, o3, p3);
    UneditedPassOnlyReads(a2, w2.drive, dir, tagA, o3, p3);
    EqualTrees(w3, w2, dir);
  }

  lemma NeatMix(w: World, v: World, dir: Path)
    requires Neat(w, dir) && Neat(v, dir)
    ensures Neat(Begin(Client(v.local, v.base), w.drive), dir)
  {
    hide Shared, Rel, RemoteVisible, LocalVisible;
  }

  lemma ClearPlanIsAlone(c: Client, d: Drive, dir: Path, tag: string, order: seq<Path>, plan: Plan)
    requires ClearPlan(c, d, dir, tag, order, plan)
    ensures Distinct(order) && Alone(order, plan)
  {
    hide PassPaths, ConflictPath;
  }

  lemma EqualTrees(wa: World, wb: World, dir: Path)
    requires Converged(wa, dir) && Converged(wb, dir) && wa.drive == wb.drive
    ensures AllEqual(wa, wb, dir)
  {
    hide Shared;
    forall q | Shared(q) ensures LocalAt(wa, q) == RemoteAt(wa, dir, q) == LocalAt(wb, q) {
      assert AgreeAt(wa, dir, q) && AgreeAt(wb, dir, q);
    }
  }

  // ---- conflicts ----

  /** The walks of the start found `p` changed on both sides, to different sizes or times. */
  predicate InConflict(c: Client, d: Drive, dir: Path, p: Path) {
    Diverged(Lookup(Walk(c.local), p), Lookup(Listing(d, dir), p), Lookup(c.saved, p))
  }

  /** Stamps are times to the second, printed at one width. */
  predicate PlainStamps(order: seq<Path>, plan: Plan) {
    forall p :: p in order ==> |plan(p).stamp| == 19 && NoneOf(plan(p).stamp, '.')
  }

  lemma KeptElsewhere(w0: World, w: World, w': World, dir: Path, rp: Path, conf: Path, p: Path, other: Path)
    requires BothKept(w0, w, dir, rp, conf) && Settles(w, w', dir, p, other)
    requires Shared(rp) && Shared(conf) && rp !in {p, other} && conf !in {p, other}
    ensures BothKept(w0, w', dir, rp, conf)
  {
    hide Shared, Neat;
    assert SameAt(w, w', dir, rp) && SameAt(w, w', dir, conf);
  }

  /** A step at another path leaves this path's copy alone: copies of different paths differ. */
  lemma OtherStepKeeps(c: Client, d: Drive, dir: Path, tag: string, all: seq<Path>, plan: Plan,
                       w: World, p: Path, rp: Path)
    requires Ready(c, d, dir) && ClearPlan(c, d, dir, tag, all, plan) && PlainStamps(all, plan)
    requires p in all && rp in all && p != rp && Neat(w, dir) && Shared(rp) && Rel(rp)
    requires Shared(p) ==> SameAt(Begin(c, d), w, dir, p)
    requires BothKept(Begin(c, d), w, dir, rp, ConflictPath(rp, tag, plan(rp).stamp))
    requires StepPath(w, dir, tag, Lookup(Walk(c.local), p), Lookup(Listing(d, dir), p), p, plan(p)).errors == w.errors
    ensures var w' := StepPath(w, dir, tag, Lookup(Walk(c.local), p), Lookup(Listing(d, dir), p), p, plan(p));
      BothKept(Begin(c, d), w', dir, rp, ConflictPath(rp, tag, plan(rp).stamp))
  {
    hide StepPath, Shared, Rel, CleanPath, ConflictPath, Neat, Clear, SameAt, Identified, Walk, Listing, Settles,
         BothKept;
    var l, r := Lookup(Walk(c.local), p), Lookup(Listing(d, dir), p);
    var w' := StepPath(w, dir, tag, l, r, p, plan(p));
    var conf, other := ConflictPath(rp, tag, plan(rp).stamp), ConflictPath(p, tag, plan(p).stamp);
    CurrentAt(c, d, dir, w, p);
    StepSettles(w, dir, tag, l, r, p, plan(p));
    PairOf(dir, rp, tag, plan(rp).stamp);
    if conf == other { ConflictPathInjective(rp, p, tag, plan(rp).stamp, plan(p).stamp); }
    KeptElsewhere(Begin(c, d), w, w', dir, rp, conf, p, other);
  }

  lemma OwnStepKeeps(c: Client, d: Drive, dir: Path, tag: string, all: seq<Path>, plan: Plan, w: World, rp: Path)
    requires Ready(c, d, dir) && ClearPlan(c, d, dir, tag, all, plan) && InConflict(c, d, dir, rp)
    requires rp in all && Neat(w, dir) && Shared(rp) && SameAt(Begin(c, d), w, dir, rp)
    requires var w' := StepPath(w, dir, tag, Lookup(Walk(c.local), rp), Lookup(Listing(d, dir), rp), rp, plan(rp));
             w'.errors == w.errors
    ensures var w' := StepPath(w, dir, tag, Lookup(Walk(c.local), rp), Lookup(Listing(d, dir), rp), rp, plan(rp));
      BothKept(Begin(c, d), w', dir, rp, ConflictPath(rp, tag, plan(rp).stamp))
  {
    hide StepPath, Shared, Rel, CleanPath, ConflictPath, Neat, Clear, Identified, Walk, Listing, Settles;
    CurrentAt(c, d, dir, w, rp);
    StepSettles(w, dir, tag, Lookup(Walk(c.local), rp), Lookup(Listing(d, dir), rp), rp, plan(rp));
  }

  lemma {:induction false} StepsKeepBoth(c: Client, d: Drive, dir: Path, tag: string, all: seq<Path>, plan: Plan,
                                         w: World, order: seq<Path>, rp: Path)
    requires Ready(c, d, dir) && ClearPlan(c, d, dir, tag, all, plan) && PlainStamps(all, plan)
    requires rp in all && Shared(rp) && Rel(rp) && InConflict(c, d, dir, rp)
    requires Distinct(order) && forall p :: p in order ==> p in all
    requires Converging(Begin(c, d), w, dir, order) && !w.aborted
    requires rp in order || BothKept(Begin(c, d), w, dir, rp, ConflictPath(rp, tag, plan(rp).stamp))
    requires Steps(w, dir, tag, Walk(c.local), Listing(d, dir), order, plan).errors == w.errors
    ensures var w' := Steps(w, dir, tag, Walk(c.local), Listing(d, dir), order, plan);
      BothKept(Begin(c, d), w', dir, rp, ConflictPath(rp, tag, plan(rp).stamp))
    decreases |order|
  {
    hide StepPath, Ready, ClearPlan, PlainStamps, InConflict, BothKept, Shared, Rel, ConflictPath, Neat, SameAt;
    if order != [] {
      var p, rest := order[0], order[1..];
      assert order == [p] + rest;
      var l, r := Lookup(Walk(c.local), p), Lookup(Listing(d, dir), p);
      var w1 := StepPath(w, dir, tag, l, r, p, plan(p));
      StepGrows(w, dir, tag, l, r, p, plan(p));
      StepsErrors(w1, dir, tag, Walk(c.local), Listing(d, dir), rest, plan);
      StepConverges(c, d, dir, tag, all, plan, w, p, rest);
      if p == rp {
        OwnStepKeeps(c, d, dir, tag, all, plan, w, rp);
      } else if rp !in rest {
        OtherStepKeeps(c, d, dir, tag, all, plan, w, p, rp);
      }
      StepsKeepBoth(c, d, dir, tag, all, plan, w1, rest, rp);
    }
  }

  /**
   After a failure-free pass each conflict holds the remote version at the path
   and the local version at the copy, on both sides.
   */
  lemma ConflictsKeepBoth(c: Client, d: Drive, dir: Path, tag: string, order: seq<Path>, plan: Plan, rp: Path)
    requires Ready(c, d, dir) && ClearPlan(c, d, dir, tag, order, plan) && PlainStamps(order, plan)
    requires Smooth(c, d, dir, tag, order, plan) && InConflict(c, d, dir, rp)
    ensures var w := Pass(c, d, dir, tag, order, plan); var conf := ConflictPath(rp, tag, plan(rp).stamp);
      && rp in c.local && RemoteAt(Begin(c, d), dir, rp).Some?
      && LocalAt(w, rp) == RemoteAt(w, dir, rp) == RemoteAt(Begin(c, d), dir, rp)
      && LocalAt(w, conf).Some? && LocalAt(w, conf) == RemoteAt(w, dir, conf)
      && LocalAt(w, conf).value.bytes == c.local[rp].bytes
  {
    hide Steps, Converged, Neat, CleanPath, Shared, Rel, ConflictPath, Clear, Identified, Smooth;
    ConflictIsShared(c, d, dir, rp);
    assert rp in PassPaths(c, d, dir);
    ConvergingAtStart(c, d, dir, order);
    PassConverges(c, d, dir, tag, order, plan);
    StepsKeepBoth(c, d, dir, tag, order, plan, Begin(c, d), order, rp);
    PairOf(dir, rp, tag, plan(rp).stamp);
    var w := Pass(c, d, dir, tag, order, plan);
    ConvergedAgrees(w, dir, rp);
    ConvergedAgrees(w, dir, ConflictPath(rp, tag, plan(rp).stamp));
  }

  lemma ConflictIsShared(c: Client, d: Drive, dir: Path, rp: Path)
    requires Ready(c, d, dir) && InConflict(c, d, dir, rp)
    ensures Shared(rp) && Rel(rp) && rp in Walk(c.local) && rp in Listing(d, dir)
  {
    hide CleanPath, RemoteVisible, LocalVisible, RemotePaths, Listing;
  }

  lemma ConvergedAgrees(w: World, dir: Path, q: Path)
    requires Converged(w, dir) && Shared(q)
    ensures AgreeAt(w, dir, q)
  {
  }

  // ---- one file changed on both sides ----

  function PairClient(mine: Bytes): Client { Client(map["/a" := File(mine, 1)], map[]) }

  function PairDrive(theirs: Bytes): Drive {
    Drive(map["/a" := File(theirs, 2)], map[], map[], map[], 0, map[], map[])
  }

  /** Text that the server takes as part of a name. */
  predicate PlainText(s: string) {
    NoneOf(s, '/') && NoneOf(s, '\0') && NoneOf(s, '\\') && NoneOf(s, '%')
  }

  lemma PlainJoin(a: string, b: string)
    requires PlainText(a) && PlainText(b)
    ensures PlainText(a + b)
  {
  }

  lemma SuffixIsPlain(tag: string, stamp: string)
    requires PlainText(tag) && PlainText(stamp)
    ensures PlainText("a" + Suffix(tag, stamp)) && |Suffix(tag, stamp)| == |tag| + |stamp| + 18
  {
    assert PlainText("a") && PlainText(" (conflict from ") && PlainText(" ") && PlainText(")");
    hide PlainText;
    PlainJoin(" (conflict from ", tag);
    PlainJoin(" (conflict from " + tag, " ");
    PlainJoin(" (conflict from " + tag + " ", stamp);
    PlainJoin(" (conflict from " + tag + " " + stamp, ")");
    PlainJoin("a", Suffix(tag, stamp));
  }

  /** The copy of "/a" is "/a" with the suffix, and the server takes it. */
  lemma PairCopy(tag: string, stamp: string)
    requires PlainText(tag) && PlainText(stamp) && |tag| + |stamp| <= 200
    ensures var conf := ConflictPath("/a", tag, stamp);
      && conf == "/a" + Suffix(tag, stamp) && ValidateRel(conf) == Ok(conf) && NoneOf(conf[1..], '/')
      && |conf| > 2 && conf[0] == '/' && conf[1] == 'a'
  {
    hide ValidateRel, Normal, Suffix, LastIndex, DirPart, NamePart;
    PartsUnique("/", "a");
    assert "/" + "a" == "/a";
    var name := "a" + Suffix(tag, stamp);
    NoExtension();
    assert "a" + Suffix(tag, stamp) + "" == name;
    SuffixIsPlain(tag, stamp);
    SingleNormal(name);
    assert "/" + name == "/a" + Suffix(tag, stamp);
    ValidatePlain("/" + name);
  }

  lemma NoExtension()
    ensures Ext("a") == "" && TrimSuffix("a", "") == "a"
  {
    assert "a"[..1] == "a";
  }

  /** What the times and the host name print. */
  predicate PlainTimes(tag: string, fate: Fate) {
    && PlainText(tag) && |tag| <= 100 && PlainText(fate.stamp) && |fate.stamp| == 19 && NoneOf(fate.stamp, '.')
    && NoneOf(fate.binStamp, '/')
  }

  /** Nothing is in the way when the only file was changed on both sides, and the pass has a conflict to settle. */
  lemma OneConflictIsSmooth(mine: Bytes, theirs: Bytes, tag: string, plan: Plan)
    requires PlainTimes(tag, plan("/a")) && Clear(plan("/a"))
    ensures var c, d, order := PairClient(mine), PairDrive(theirs), ["/a"];
      && Ready(c, d, "/") && ClearPlan(c, d, "/", tag, order, plan) && Smooth(c, d, "/", tag, order, plan)
      && PlainStamps(order, plan) && InConflict(c, d, "/", "/a")
  {
    hide Ready, Clear, ClearPlan, Smooth, Walk, Listing;
    PairWalks(mine, theirs);
    PairIsClear(mine, theirs, tag, plan);
    PairIsSmooth(mine, theirs, tag, plan);
  }

  lemma PairIsClear(mine: Bytes, theirs: Bytes, tag: string, plan: Plan)
    requires PlainTimes(tag, plan("/a")) && Clear(plan("/a"))
    ensures ClearPlan(PairClient(mine), PairDrive(theirs), "/", tag, ["/a"], plan)
  {
    hide PassPaths, Clear, ConflictPath, Suffix, ValidateRel, PlainText, NoneOf;
    PairSpots(mine, theirs, tag, plan);
    ConflictPathLonger("/a", tag, plan("/a").stamp);
    PlainHasNoSlash(tag);
    PlainHasNoSlash(plan("/a").stamp);
    var order: seq<Path> := ["/a"];
    assert order[0] == "/a" && forall p :: p in order <==> p == "/a";
  }

  lemma PlainHasNoSlash(s: string)
    requires PlainText(s)
    ensures NoneOf(s, '/')
  {
  }

  lemma PairIsSmooth(mine: Bytes, theirs: Bytes, tag: string, plan: Plan)
    requires PlainTimes(tag, plan("/a"))
    ensures Smooth(PairClient(mine), PairDrive(theirs), "/", tag, ["/a"], plan)
  {
    hide Spots, Going, ConflictPath, Suffix, ValidateRel, PassPaths, PlainText;
    PairSpots(mine, theirs, tag, plan);
    PairCopy(tag, plan("/a").stamp);
    PairGoes(mine, theirs, tag, plan);
    assert BIN == "/.xxdrive-trash" && BIN[1] == '.';
  }

  lemma PairSpots(mine: Bytes, theirs: Bytes, tag: string, plan: Plan)
    ensures Spots(PairClient(mine), PairDrive(theirs), "/", tag, plan) ==
              {"/a", ConflictPath("/a", tag, plan("/a").stamp)}
    ensures PassPaths(PairClient(mine), PairDrive(theirs), "/") == {"/a"}
  {
    hide Walk, Listing, ConflictPath, Ready;
    PairWalks(mine, theirs);
    var conf := ConflictPath("/a", tag, plan("/a").stamp);
    assert "/a" in Walk(PairClient(mine).local).Keys;
    assert conf in Spots(PairClient(mine), PairDrive(theirs), "/", tag, plan);
  }

  lemma PairWalks(mine: Bytes, theirs: Bytes)
    ensures Walk(PairClient(mine).local) == map["/a" := Meta(|mine|, 1, "")]
    ensures Listing(PairDrive(theirs), "/") == map["/a" := Meta(|theirs|, 2, "")]
    ensures Ready(PairClient(mine), PairDrive(theirs), "/")
  {
    hide LocalVisible, RemoteVisible, CleanPath, Normal;
    ClashPaths();
    NormalIsClean("/a");
    assert forall p :: p in RemotePaths(PairDrive(theirs), "/") <==> p in PairDrive(theirs).files;
  }

  lemma PairGoes(mine: Bytes, theirs: Bytes, tag: string, plan: Plan)
    requires PlainTimes(tag, plan("/a"))
    ensures var c, d := PairClient(mine), PairDrive(theirs);
      Going(c, d, "/", Begin(c, d), ["/a"], plan, {"/a", ConflictPath("/a", tag, plan("/a").stamp)})
  {
    hide ConflictPath, Walk, Listing, Suffix, ValidateRel, BinReady, Normal, Roomy, Flat, PlainText;
    PairWalks(mine, theirs);
    PairCopy(tag, plan("/a").stamp);
    ClashPaths();
    ValidatePlain("/a");
    var conf := ConflictPath("/a", tag, plan("/a").stamp);
    assert Targets("/", {"/a", conf}) == {"/a", conf};
    PairIsRoomy(PairClient(mine).local, conf);
    PairIsRoomy(PairDrive(theirs).files, conf);
  }

  lemma PairIsRoomy(files: map<Path, File>, conf: Path)
    requires files.Keys == {"/a"} && conf != "" && conf[0] == '/' && NoneOf(conf[1..], '/') && |conf| > 2
    ensures Roomy(files, {"/a", conf}) && Flat({"/a", conf})
  {
    assert forall p, k :: p in files && 0 < k < |p| ==> p[k] != '/';
    assert Directories(files) == {"/"};
    assert forall k :: 0 < k < |conf| ==> conf[k] == conf[1..][k - 1];
    BelowHasSlash("/a", "/a");
    BelowHasSlash("/a", conf);
    BelowHasSlash(conf, "/a");
    BelowHasSlash(conf, conf);
  }

  lemma BelowHasSlash(a: Path, b: Path)
    requires b != ""
    ensures HasPrefix(a, b + "/") ==> exists k :: 0 < k < |a| && a[k] == '/'
  {
    if HasPrefix(a, b + "/") { assert a[..|b| + 1][|b|] == '/'; }
  }
}
