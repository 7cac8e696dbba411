/** Every drive a run can reach names its files, live and trashed, by clean paths below the root. */
module DriveTidy {
  import opened DriveArchive
  import opened DriveHistory
  import opened DriveInvariant
  import opened DriveModel
  import opened DriveRuns
  import opened DriveSteps
  import opened DriveTrash
  import opened LikePattern
  import opened LogicalPath
  import opened Strings
  import opened Wrappers

  ghost predicate TidyItem(item: TrashItem) {
    Rel(item.orig) && forall s :: s in item.payload ==> (s == "" || s[0] == '/') && Rel(item.orig + s)
  }

  ghost predicate AllTidy(d: Drive) {
    Tidy(d) && forall id :: id in d.trash ==> TidyItem(d.trash[id])
  }

  /** Hanging the tail of one clean path below another gives a clean path. */
  lemma Rehang(from: Path, s: string, to: Path)
    requires Rel(from) && Rel(from + s) && Rel(to) && (s == "" || s[0] == '/')
    ensures Rel(to + s)
  {
    if s == "" {
      assert to + s == to;
    } else {
      assert HasPrefix(from + s, from + "/") by {
        assert (from + s)[..|from| + 1] == from + "/";
      }
      TailIsRel(from, from + s);
      assert TrimPrefix(from + s, from) == s;
      ConcatClean(to, s);
    }
  }

  lemma AttachTidy(files: map<Path, File>, orig: Path, dest: Path, payload: map<string, File>)
    requires forall p :: p in files ==> Rel(p)
    requires Rel(orig) && Rel(dest) && forall s :: s in payload ==> (s == "" || s[0] == '/') && Rel(orig + s)
    ensures forall p :: p in Attach(files, dest, payload) ==> Rel(p)
  {
    hide Rel;
    forall p | p in Attach(files, dest, payload) ensures Rel(p) {
      if p !in files {
        var s :| s in payload && p == dest + s;
        Rehang(orig, s, dest);
      }
    }
  }

  lemma DetachTidy(d: Drive, path: Path)
    requires Tidy(d) && path != ""
    ensures forall s :: s in Detach(d.files, path) ==> (s == "" || s[0] == '/') && Rel(path + s)
  {
    hide CleanPath;
    forall s | s in Detach(d.files, path) ensures (s == "" || s[0] == '/') && Rel(path + s) {
      var q :| q in Subtree(d.files, path) && s == TrimPrefix(q, path);
      if q != path && HasPrefix(q, path + "/") {
        assert q[|path|] == (path + "/")[|path|];
        assert q[..|path|] == (path + "/")[..|path|] == path;
      }
    }
  }

  lemma AcceptedIsRel(raw: string)
    requires ValidateRel(raw).Ok? && ValidateRel(raw).value != "/"
    ensures Rel(ValidateRel(raw).value)
  {
    hide ValidateRel;
    AcceptedIsNormal(raw);
  }

  lemma FreeIsRel(files: map<Path, File>, p: Path)
    requires ValidateRel(p) == Ok(p) && p !in Occupied(files)
    ensures Rel(p)
  {
    assert "/" in Directories(files);
    AcceptedIsRel(p);
  }

  /** Nothing is at `p`, below it, or in the way of its parents. */
  predicate Free(files: map<Path, File>, p: Path) {
    p !in Occupied(files) && !Blocked(files, p)
  }

  /** What an upload does to the tree: nothing, or one file at a clean path. */
  lemma UploadPuts(d: Drive, req: UploadRequest, vid: Id, now: int, fault: UploadFault) returns (target: Path)
    ensures var d' := DriverUpload(d, req, vid, now, fault).0;
      && d'.trash == d.trash
      && (d'.files == d.files ||
          (Rel(target) && d'.files == d.files[target := File(req.bytes, now)] &&
           (target in d.files || Free(d.files, target))))
  {
    hide Rel, ValidateRel, Blocked, Directories, StoreCopy, Overwrite, PutUnseen, Commit, Snapshot;
    target := MustValidate(req.path);
    if ValidateRel(req.path).Ok? && target != "/" {
      AcceptedIsRel(req.path);
      CommitPuts(d, target, req, now, fault);
      if target in d.files {
        if req.conflictRename && !fault.Unseen? {
          target := CopyPuts(d, target, req, now, fault);
        } else {
          OverwritePuts(d, target, req, vid, now, fault);
        }
      }
    }
  }

  lemma CommitPuts(d: Drive, target: Path, req: UploadRequest, now: int, fault: UploadFault)
    ensures var d' := Commit(d, target, req.bytes, now, fault).0;
      && d'.trash == d.trash
      && (d'.files == d.files ||
          (d'.files == d.files[target := File(req.bytes, now)] && !Blocked(d.files, target)))
    ensures fault.Unseen? ==>
      var d' := PutUnseen(d, target, req.bytes, now, fault.again).0;
      && d'.trash == d.trash
      && (d'.files == d.files ||
          (d'.files == d.files[target := File(req.bytes, now)] && !Blocked(d.files, target) &&
           target !in Directories(d.files)))
  {
    hide Blocked, Directories;
  }

  lemma OverwritePuts(d: Drive, target: Path, req: UploadRequest, vid: Id, now: int, fault: UploadFault)
    requires target in d.files
    ensures var d' := Overwrite(d, target, req, vid, now, fault).0;
      && d'.trash == d.trash && (d'.files == d.files || d'.files == d.files[target := File(req.bytes, now)])
  {
    hide Blocked, EtagOf;
  }

  lemma CopyPuts(d: Drive, path: Path, req: UploadRequest, now: int, fault: UploadFault) returns (target: Path)
    ensures var d' := StoreCopy(d, path, req, now, fault).0;
      && d'.trash == d.trash
      && (d'.files == d.files ||
          (Rel(target) && d'.files == d.files[target := File(req.bytes, now)] && Free(d.files, target)))
  {
    hide Rel, ValidateRel, FreeCopyName, ConflictCopyName, Directories, Blocked;
    target := path;
    var name := ConflictCopyName(path, req.deviceTag, req.stamp);
    if name.Ok? && FreeCopyName(d.files, name.value, 2).Ok? {
      target := FreeCopyName(d.files, name.value, 2).value;
      FreeIsRel(d.files, target);
    }
  }

  lemma UploadTidy(d: Drive, req: UploadRequest, vid: Id, now: int, fault: UploadFault)
    requires AllTidy(d)
    ensures AllTidy(DriverUpload(d, req, vid, now, fault).0) && AllTidy(Upload(d, req, vid, now, fault).0)
  {
    hide DriverUpload, TidyItem, CleanPath;
    var target := UploadPuts(d, req, vid, now, fault);
  }

  /** Where a relocation goes is a clean path: a new one, or one of a file. */
  lemma DestinationIsRel(d: Drive, from: Path, dst: Path, how: Relocation, f: RenameFault)
    requires Tidy(d) && Rel(from) && Relocate(d, from, dst, how, f).1.Ok?
    ensures Rel(dst)
  {
    hide ValidateRel, Subtree, Blocked, RelocateHistory, MoveTree, Relocate, CleanPath, Directories;
    SucceededIs(d, from, dst, how, f);
    if dst !in Occupied(d.files) { FreeIsRel(d.files, dst); }
  }

  lemma RelocateTidy(d: Drive, from: Path, dst: Path, how: Relocation, f: RenameFault)
    requires AllTidy(d) && Rel(from)
    ensures AllTidy(Relocate(d, from, dst, how, f).0)
  {
    hide ValidateRel, Occupied, Attach, Detach, CleanPath, TidyItem, RelocateRows, MoveBlobDirs, Subtree, Blocked,
         Relocate, Replaceable;
    FailedKeeps(d, from, dst, how, f);
    if Relocate(d, from, dst, how, f).1.Ok? {
      SucceededIs(d, from, dst, how, f);
      DestinationIsRel(d, from, dst, how, f);
      RelShape(from);
      DetachTidy(d, from);
      AttachTidy(d.files - Subtree(d.files, from), from, dst, Detach(d.files, from));
    }
  }

  lemma DeleteTidy(d: Drive, raw: string, id: Id, now: int, queryOk: bool, f: DeleteFault)
    requires AllTidy(d)
    ensures AllTidy(Delete(d, raw, id, now, queryOk, f).0)
  {
    hide ValidateRel, Detach, CleanPath, Subtree, VersionsUnder;
    if ValidateRel(raw).Ok? && ValidateRel(raw).value != "/" {
      AcceptedIsRel(raw);
      RelShape(ValidateRel(raw).value);
      DetachTidy(d, ValidateRel(raw).value);
    }
  }

  lemma PayloadTidy(item: TrashItem, some: map<string, File>)
    requires TidyItem(item) && forall s :: s in some ==> s in item.payload
    ensures TidyItem(item.(payload := some))
  {
    hide Rel;
  }

  lemma RestoreTidy(d: Drive, id: Id, f: RestoreFault)
    requires AllTidy(d)
    ensures AllTidy(Restore(d, id, f).0)
  {
    hide ValidateRel, Attach, CleanPath, FreeRestoreName, MoveSpecific, Blocked, OwnedRefs, Restore, TidyItem, Occupied;
    RestoreErrs(d, id, f);
    if Restore(d, id, f).1.Ok? {
      RestoreIs(d, id, f);
      var item, dest := d.trash[id], Restore(d, id, f).1.value;
      AcceptedIsRel(dest) by { assert "/" in Occupied(d.files) by { RootIsOccupied(d.files); } }
      TidyItemIs(item);
      AttachTidy(d.files, item.orig, dest, item.payload);
      PayloadTidy(item, map[]);
      var mid := PutBack(d, id, dest, f.noteStays);
      assert AllTidy(mid);
      MovesLeaveTrees(mid, OwnedRefs(d, item), item.orig, dest, f.how);
    }
  }

  lemma TidyItemIs(item: TrashItem)
    requires TidyItem(item)
    ensures Rel(item.orig) && forall s :: s in item.payload ==> (s == "" || s[0] == '/') && Rel(item.orig + s)
  {
  }

  lemma RootIsOccupied(files: map<Path, File>)
    ensures "/" in Occupied(files)
  {
  }

  lemma {:induction false} RowMovesLeaveTrees(d: Drive, refs: seq<Ref>, oldRoot: Path, newRoot: Path)
    ensures var d' := MoveRefRows(d, refs, oldRoot, newRoot); d'.files == d.files && d'.trash == d.trash
    decreases |refs|
  {
    hide HasPrefix, GoRewrite, FindRow;
    if refs != [] {
      var to := GoRewrite(oldRoot, newRoot, refs[0].path);
      RowMovesLeaveTrees(if HasPrefix(refs[0].path, oldRoot) then MoveRefRow(d, refs[0], to) else d, refs[1..],
                         oldRoot, newRoot);
    }
  }

  lemma MovesLeaveTrees(d: Drive, refs: seq<Ref>, oldRoot: Path, newRoot: Path, how: SpecificMove)
    ensures var d' := MoveSpecific(d, refs, oldRoot, newRoot, how); d'.files == d.files && d'.trash == d.trash
  {
    hide MoveRefRows, MoveBlobs, BlobMoves;
    RowMovesLeaveTrees(d, refs, oldRoot, newRoot);
  }

  lemma PurgeLeavesTrees(d: Drive, item: TrashItem, how: Purging)
    ensures PurgeItemHistory(d, item, how).files == d.files && PurgeItemHistory(d, item, how).trash == d.trash
  {
    hide SelectedRows, RowPaths;
  }

  lemma {:induction false} PurgesLeaveTrees(d: Drive, items: seq<ItemPurge>)
    ensures PurgeItems(d, items).files == d.files && PurgeItems(d, items).trash == d.trash
    decreases |items|
  {
    hide PurgeItemHistory;
    if items != [] {
      PurgeLeavesTrees(d, items[0].item, items[0].how);
      PurgesLeaveTrees(PurgeItemHistory(d, items[0].item, items[0].how), items[1..]);
    }
  }

  lemma {:induction false} SweepsLeaveTrees(d: Drive, roots: seq<RootPurge>)
    ensures PurgeHistories(d, roots).files == d.files && PurgeHistories(d, roots).trash == d.trash
    decreases |roots|
  {
    hide SelectedRows, RowPaths;
    if roots != [] { SweepsLeaveTrees(PurgeHistory(d, roots[0].root, roots[0].how), roots[1..]); }
  }

  /** A trash in which some items are gone and some have lost files. */
  predicate Shrunk(trash: map<Id, TrashItem>, trash': map<Id, TrashItem>) {
    forall id :: id in trash' ==>
      && id in trash && trash'[id] == trash[id].(payload := trash'[id].payload)
      && (forall s :: s in trash'[id].payload ==> s in trash[id].payload)
  }

  lemma RemnantShrinks(trash: map<Id, TrashItem>, left: map<Id, set<string>>, gone: set<Id>)
    ensures Shrunk(trash, Remnant(trash, left)) && Shrunk(trash, trash + Remnant(trash, left))
    ensures Shrunk(trash, (trash - gone) + Remnant(trash, left)) && Shrunk(trash, trash - gone)
  {
  }

  lemma SweepShrinks(d: Drive, cutoff: int, stuck: map<Id, set<string>>, roots: seq<RootPurge>)
    ensures var d' := SweepTrash(d, cutoff, stuck, roots); d'.files == d.files && Shrunk(d.trash, d'.trash)
  {
    hide PurgeHistories, Expired, Remnant, Shrunk;
    var gone := Expired(d, cutoff);
    var some := map id | id in gone && id in stuck :: stuck[id];
    RemnantShrinks(d.trash, some, gone);
    SweepsLeaveTrees(d.(trash := (d.trash - gone) + Remnant(d.trash, some)), roots);
  }

  lemma TrashDeleteShrinks(d: Drive, id: Id, left: Option<set<string>>, how: Purging)
    ensures var d' := TrashDelete(d, id, left, how); d'.files == d.files && Shrunk(d.trash, d'.trash)
  {
    hide PurgeItemHistory, Remnant;
    if id in d.trash {
      RemnantShrinks(d.trash, if left.Some? then map[id := left.value] else map[], {id});
      PurgeLeavesTrees(d.(trash := d.trash - {id}), d.trash[id], how);
    }
  }

  lemma TrashEmptyShrinks(d: Drive, order: seq<Id>, left: Option<Leavings>, how: Id -> Purging)
    ensures var d' := TrashEmpty(d, order, left, how); d'.files == d.files && Shrunk(d.trash, d'.trash)
  {
    hide PurgeItems, Listed;
    PurgesLeaveTrees(d.(trash := map[], stranded := map[]), Listed(d.trash, order, how));
  }

  /** No purging operation touches a live file or adds to the trash. */
  lemma PurgeShrinks(d: Drive, op: Op)
    requires Purges(op)
    ensures Apply(d, op).files == d.files && Shrunk(d.trash, Apply(d, op).trash)
  {
    hide TrashDelete, TrashEmpty, SweepTrash, Overflow;
    match op
    case TrashDeleteOp(id, left, purging) => TrashDeleteShrinks(d, id, left, purging);
    case TrashEmptyOp(order, remains, each) => TrashEmptyShrinks(d, order, remains, each);
    case SweepOp(cutoff, stuck, roots) => SweepShrinks(d, cutoff, stuck, roots);
    case PruneOp(_, _) =>
  }

  lemma PurgeTidy(d: Drive, op: Op)
    requires AllTidy(d) && Purges(op)
    ensures AllTidy(Apply(d, op))
  {
    hide Apply, TidyItem, Rel;
    PurgeShrinks(d, op);
    var d' := Apply(d, op);
    forall id | id in d'.trash ensures TidyItem(d'.trash[id]) { PayloadTidy(d.trash[id], d'.trash[id].payload); }
  }

  lemma RelocationTidy(d: Drive, op: Op)
    requires AllTidy(d) && Relocates(op)
    ensures AllTidy(Apply(d, op))
  {
    hide AllTidy, Relocate, Apply, CleanPath, Outcome, Relocatable;
    if Succeeds(d, op) {
      SuccessIsRelocation(d, op);
      SourceIsRel(d, op);
      RelocateTidy(d, MustValidate(op.from), Outcome(d, op).value, op.how, op.call);
    } else {
      RelocationFailed(d, op);
    }
  }

  lemma SourceIsRel(d: Drive, op: Op)
    requires Relocates(op) && Succeeds(d, op)
    ensures Rel(MustValidate(op.from))
  {
    hide ValidateRel, NameOf, JoinPath, ParentOf, ValidName, Relocate;
    AcceptedIsRel(op.from);
  }

  lemma VersionRestoreTidy(d: Drive, raw: string, vid: Id, v1: Id, v2: Id, now: int, snap: Snapping, fault: UploadFault)
    requires AllTidy(d)
    ensures AllTidy(VersionRestore(d, raw, vid, v1, v2, now, snap, fault).0)
  {
    hide ValidateRel, DriverUpload, Rel;
    var d1 := IndexCurrent(d, raw, v1, now, snap);
    assert AllTidy(d1);
    var key := BlobKey(MustValidate(raw), vid);
    if key in d1.blobs {
      UploadTidy(d1, UploadRequest(raw, d1.blobs[key], "", false, "", ""), v2, now, fault);
    }
  }

  lemma ApplyTidy(d: Drive, op: Op)
    requires AllTidy(d)
    ensures AllTidy(Apply(d, op))
  {
    hide Rel, Upload, Delete, Restore, VersionRestore, TrashDelete, TrashEmpty, SweepTrash, Prune, TidyItem;
    match op
    case UploadOp(req, vid, now, fault) => UploadTidy(d, req, vid, now, fault);
    case DeleteOp(path, id, now, queryOk, ending) => DeleteTidy(d, path, id, now, queryOk, ending);
    case RenameOp(_, _, _, _) => RelocationTidy(d, op);
    case MoveOp(_, _, _, _) => RelocationTidy(d, op);
    case RestoreOp(id, f) => RestoreTidy(d, id, f);
    case VersionRestoreOp(path, vid, v1, v2, now, snap, fault) =>
      VersionRestoreTidy(d, path, vid, v1, v2, now, snap, fault);
    case TrashDeleteOp(_, _, _) => PurgeTidy(d, op);
    case TrashEmptyOp(_, _, _) => PurgeTidy(d, op);
    case SweepOp(_, _, _) => PurgeTidy(d, op);
    case PruneOp(_, _) => PurgeTidy(d, op);
  }

  const NEW_DRIVE: Drive := Drive(map[], map[], map[], map[], 0, map[], map[])

  // ---- no file is also a directory ----

  predicate PayloadTree(payload: map<string, File>) {
    PayloadShape(payload) && forall s, t :: s in payload && t in payload ==> !HasPrefix(t, s + "/")
  }

  predicate AllTrees(d: Drive) {
    TreeShaped(d.files) && forall id :: id in d.trash ==> PayloadTree(d.trash[id].payload)
  }

  lemma AboveIsOccupied(files: map<Path, File>, p: Path, q: Path)
    requires p in files && p != q && q != "" && HasPrefix(p, q) && (|p| > |q| ==> p[|q|] == '/')
    ensures q in Occupied(files)
  {
    assert p[..|q|] == q;
  }

  lemma FewerFilesFreer(files: map<Path, File>, gone: set<Path>, p: Path)
    requires Free(files, p) && p != ""
    ensures Free(files - gone, p)
  {
  }

  lemma AttachTree(files: map<Path, File>, dest: Path, payload: map<string, File>)
    requires TreeShaped(files) && Free(files, dest) && dest != "" && PayloadTree(payload)
    ensures TreeShaped(Attach(files, dest, payload))
  {
    var out := Attach(files, dest, payload);
    hide Occupied, Blocked;
    forall p, q | p in out && q in out ensures !HasPrefix(q, p + "/") {
      if p in files && q in files {
      } else if p in files {
        var t :| t in payload && q == dest + t;
        AttachedBelow(files, dest, t, p);
      } else if q in files {
        var s :| s in payload && p == dest + s;
        AttachedAbove(files, dest, s, q);
      } else {
        var s :| s in payload && p == dest + s;
        var t :| t in payload && q == dest + t;
        PrefixTail(dest, t, s + "/");
        assert dest + s + "/" == dest + (s + "/");
      }
    }
  }

  lemma PrefixTail(a: string, t: string, s: string)
    ensures HasPrefix(a + t, a + s) <==> HasPrefix(t, s)
  {
    if HasPrefix(a + t, a + s) {
      assert t[..|s|] == (a + t)[|a|..|a| + |s|] == (a + s)[|a|..] == s;
    }
    if HasPrefix(t, s) {
      assert (a + t)[..|a| + |s|] == a + t[..|s|];
    }
  }

  lemma LongerPrefix(dest: Path, t: string, p: Path)
    requires t == "" || t[0] == '/'
    ensures HasPrefix(dest + t, p + "/") ==> p == dest || HasPrefix(p, dest + "/") || HasPrefix(dest, p + "/")
  {
    var q := dest + t;
    if HasPrefix(q, p + "/") {
      assert q[..|p| + 1] == p + "/";
      if |p| < |dest| {
        assert dest[..|p| + 1] == q[..|p| + 1];
      } else {
        assert p == q[..|p|] && p[..|dest|] == q[..|dest|] == dest;
        if |p| > |dest| { assert p[|dest|] == q[|dest|] == t[0]; }
      }
    }
  }

  lemma FileBelowOccupies(files: map<Path, File>, dest: Path, p: Path)
    requires p in files && dest != ""
    ensures p == dest || HasPrefix(p, dest + "/") ==> dest in Occupied(files)
  {
    if HasPrefix(p, dest + "/") {
      assert p[..|dest|] == (dest + "/")[..|dest|] == dest && p[|dest|] == (dest + "/")[|dest|];
      AboveIsOccupied(files, p, dest);
    }
  }

  lemma AttachedBelow(files: map<Path, File>, dest: Path, t: string, p: Path)
    requires p in files && Free(files, dest) && dest != "" && (t == "" || t[0] == '/')
    ensures !HasPrefix(dest + t, p + "/")
  {
    hide Occupied;
    LongerPrefix(dest, t, p);
    FileBelowOccupies(files, dest, p);
  }

  lemma DeeperPrefix(dest: Path, s: string, q: Path)
    requires s == "" || s[0] == '/'
    ensures HasPrefix(q, dest + s + "/") ==> HasPrefix(q, dest + "/")
  {
    if HasPrefix(q, dest + s + "/") {
      assert q[..|dest| + 1] == (dest + s + "/")[..|dest| + 1] == dest + "/";
    }
  }

  lemma AttachedAbove(files: map<Path, File>, dest: Path, s: string, q: Path)
    requires q in files && Free(files, dest) && dest != "" && (s == "" || s[0] == '/')
    ensures !HasPrefix(q, dest + s + "/")
  {
    hide Occupied;
    DeeperPrefix(dest, s, q);
    FileBelowOccupies(files, dest, q);
  }

  lemma PutTree(files: map<Path, File>, p: Path, f: File)
    requires TreeShaped(files) && (p in files || Free(files, p)) && p != ""
    ensures TreeShaped(files[p := f])
  {
    hide Occupied;
    var out := files[p := f];
    forall a, b | a in out && b in out ensures !HasPrefix(b, a + "/") {
      if a == p && b != p && p !in files { FileBelowOccupies(files, p, b); }
      if a != p && b == p && p !in files { assert !Blocked(files, p); }
    }
  }

  lemma DetachTree(files: map<Path, File>, path: Path)
    requires TreeShaped(files) && path != ""
    requires forall s :: s in Detach(files, path) ==> s == "" || s[0] == '/'
    ensures PayloadTree(Detach(files, path))
  {
    var payload := Detach(files, path);
    forall s, t | s in payload && t in payload ensures !HasPrefix(t, s + "/") {
      PrefixTail(path, t, s + "/");
      assert path + s + "/" == path + (s + "/");
    }
  }

  /** Indexing the snapshot changes neither files nor trash. */
  lemma UploadTakesTree(d: Drive, req: UploadRequest, vid: Id, now: int, fault: UploadFault)
    ensures var stored, d' := DriverUpload(d, req, vid, now, fault).0, Upload(d, req, vid, now, fault).0;
      d'.files == stored.files && d'.trash == stored.trash
  {
    hide DriverUpload, ValidateRel;
  }

  lemma UploadTrees(d: Drive, req: UploadRequest, vid: Id, now: int, fault: UploadFault)
    requires AllTrees(d)
    ensures AllTrees(DriverUpload(d, req, vid, now, fault).0) && AllTrees(Upload(d, req, vid, now, fault).0)
  {
    hide DriverUpload, DriveModel.Upload, Rel, TreeShaped, PayloadTree, Free;
    UploadTakesTree(d, req, vid, now, fault);
    var target := UploadPuts(d, req, vid, now, fault);
    if Rel(target) {
      RelShape(target);
      if target in d.files || Free(d.files, target) { PutTree(d.files, target, File(req.bytes, now)); }
    }
  }

  lemma RelocateTrees(d: Drive, from: Path, dst: Path, how: Relocation, f: RenameFault)
    requires AllTrees(d) && Tidy(d) && Rel(from)
    ensures AllTrees(Relocate(d, from, dst, how, f).0)
  {
    hide ValidateRel, Occupied, Attach, Detach, CleanPath, RelocateRows, MoveBlobDirs, Subtree, Blocked, TreeShaped,
         PayloadTree, Relocate, MoveTree;
    FailedKeeps(d, from, dst, how, f);
    if Relocate(d, from, dst, how, f).1.Ok? {
      SucceededIs(d, from, dst, how, f);
      TreeMoveIndex(d, from, dst);
      MovedTree(d, from, dst, how, f);
    }
  }

  lemma MovedTree(d: Drive, from: Path, dst: Path, how: Relocation, f: RenameFault)
    requires TreeShaped(d.files) && Tidy(d) && Rel(from) && Relocate(d, from, dst, how, f).1.Ok?
    ensures TreeShaped(MoveTree(d, from, dst).files)
  {
    hide ValidateRel, Directories, Attach, Detach, CleanPath, Subtree, Blocked, TreeShaped, PayloadTree, Relocate;
    SucceededIs(d, from, dst, how, f);
    DestinationIsRel(d, from, dst, how, f);
    RelShape(from);
    RelShape(dst);
    if dst == from {
      MoveSelf(d, from);
    } else if dst in Occupied(d.files) {
      FileMoveIs(d, from, dst);
      FewerFilesTree(d.files, {from});
      PutTree(d.files - {from}, dst, d.files[from]);
    } else {
      DetachTidy(d, from);
      DetachTree(d.files, from);
      FewerFilesFreer(d.files, Subtree(d.files, from), dst);
      FewerFilesTree(d.files, Subtree(d.files, from));
      AttachTree(d.files - Subtree(d.files, from), dst, Detach(d.files, from));
    }
  }

  lemma FewerFilesTree(files: map<Path, File>, gone: set<Path>)
    requires TreeShaped(files)
    ensures TreeShaped(files - gone)
  {
    hide HasPrefix;
  }

  lemma DeleteTrees(d: Drive, raw: string, id: Id, now: int, queryOk: bool, f: DeleteFault)
    requires AllTrees(d) && Tidy(d)
    ensures AllTrees(Delete(d, raw, id, now, queryOk, f).0)
  {
    hide ValidateRel, Detach, CleanPath, Subtree, VersionsUnder, TreeShaped, PayloadTree;
    if ValidateRel(raw).Ok? && ValidateRel(raw).value != "/" {
      var path := ValidateRel(raw).value;
      AcceptedIsRel(raw);
      RelShape(path);
      DetachTidy(d, path);
      DetachTree(d.files, path);
      FewerFilesTree(d.files, Subtree(d.files, path));
    }
  }

  lemma RestoreTrees(d: Drive, id: Id, f: RestoreFault)
    requires AllTrees(d)
    ensures AllTrees(Restore(d, id, f).0)
  {
    hide ValidateRel, Attach, CleanPath, FreeRestoreName, MoveSpecific, OwnedRefs, Restore, TreeShaped, PayloadTree,
         Occupied, Blocked;
    RestoreErrs(d, id, f);
    if Restore(d, id, f).1.Ok? {
      RestoreIs(d, id, f);
      var item, dest := d.trash[id], Restore(d, id, f).1.value;
      assert Free(d.files, dest);
      AttachTree(d.files, dest, item.payload);
      SmallerPayload(item.payload, map[]);
      var mid := PutBack(d, id, dest, f.noteStays);
      assert AllTrees(mid);
      MovesLeaveTrees(mid, OwnedRefs(d, item), item.orig, dest, f.how);
    }
  }

  lemma SmallerPayload(payload: map<string, File>, some: map<string, File>)
    requires PayloadTree(payload) && forall s :: s in some ==> s in payload
    ensures PayloadTree(some)
  {
  }

  lemma PurgeTrees(d: Drive, op: Op)
    requires AllTrees(d) && Purges(op)
    ensures AllTrees(Apply(d, op))
  {
    hide Apply, TreeShaped, PayloadTree;
    PurgeShrinks(d, op);
    var d' := Apply(d, op);
    forall id | id in d'.trash ensures PayloadTree(d'.trash[id].payload) {
      SmallerPayload(d.trash[id].payload, d'.trash[id].payload);
    }
  }

  lemma RelocationTrees(d: Drive, op: Op)
    requires AllTrees(d) && Tidy(d) && Relocates(op)
    ensures AllTrees(Apply(d, op))
  {
    hide AllTrees, Relocate, Apply, Tidy, CleanPath, Outcome, Relocatable;
    if Succeeds(d, op) {
      SuccessIsRelocation(d, op);
      SourceIsRel(d, op);
      RelocateTrees(d, MustValidate(op.from), Outcome(d, op).value, op.how, op.call);
    } else {
      RelocationFailed(d, op);
    }
  }

  lemma VersionRestoreTrees(
    d: Drive, raw: string, vid: Id, v1: Id, v2: Id, now: int, snap: Snapping, fault: UploadFault)
    requires AllTrees(d)
    ensures AllTrees(VersionRestore(d, raw, vid, v1, v2, now, snap, fault).0)
  {
    hide ValidateRel, DriverUpload, TreeShaped, PayloadTree;
    var d1 := IndexCurrent(d, raw, v1, now, snap);
    assert AllTrees(d1);
    var key := BlobKey(MustValidate(raw), vid);
    if key in d1.blobs {
      UploadTrees(d1, UploadRequest(raw, d1.blobs[key], "", false, "", ""), v2, now, fault);
    }
  }

  lemma ApplyTrees(d: Drive, op: Op)
    requires AllTrees(d) && Tidy(d)
    ensures AllTrees(Apply(d, op))
  {
    hide Rel, Upload, Delete, Restore, VersionRestore, TrashDelete, TrashEmpty, SweepTrash, Prune, TreeShaped,
         PayloadTree;
    match op
    case UploadOp(req, vid, now, fault) => UploadTrees(d, req, vid, now, fault);
    case DeleteOp(path, id, now, queryOk, ending) => DeleteTrees(d, path, id, now, queryOk, ending);
    case RenameOp(_, _, _, _) => RelocationTrees(d, op);
    case MoveOp(_, _, _, _) => RelocationTrees(d, op);
    case RestoreOp(id, f) => RestoreTrees(d, id, f);
    case VersionRestoreOp(path, vid, v1, v2, now, snap, fault) =>
      VersionRestoreTrees(d, path, vid, v1, v2, now, snap, fault);
    case TrashDeleteOp(_, _, _) => PurgeTrees(d, op);
    case TrashEmptyOp(_, _, _) => PurgeTrees(d, op);
    case SweepOp(_, _, _) => PurgeTrees(d, op);
    case PruneOp(_, _) => PurgeTrees(d, op);
  }

  /** No run of any handlers and sweeps makes an unclean name, or a file that is also a directory. */
  lemma {:induction false} RunIsWellFormed(d: Drive, ops: seq<Op>)
    requires AllTidy(d) && AllTrees(d)
    ensures AllTidy(Run(d, ops)) && AllTrees(Run(d, ops))
    decreases |ops|
  {
    hide AllTrees, Apply, TidyItem;
    if ops != [] {
      ApplyTidy(d, ops[0]);
      ApplyTrees(d, ops[0]);
      RunIsWellFormed(Apply(d, ops[0]), ops[1..]);
    }
  }

  /** On every drive reached from a new one, restoring a deleted subtree at once gives the drive back. */
  lemma ReachedDeleteThenRestore(ops: seq<Op>, raw: string, id: Id, now: int, queryOk: bool, how: SpecificMove)
    requires Delete(Run(NEW_DRIVE, ops), raw, id, now, queryOk, Deletes).1.Ok?
    ensures var d := Run(NEW_DRIVE, ops);
      Restore(Delete(d, raw, id, now, queryOk, Deletes).0, id, RestoreFault(false, false, how)) ==
      (d, Ok(ValidateRel(raw).value))
  {
    hide Run, Delete, Restore, ValidateRel, PayloadTree;
    RunIsWellFormed(NEW_DRIVE, ops);
    RunIsValid(NEW_DRIVE, ops);
    DeleteThenRestore(Run(NEW_DRIVE, ops), raw, id, now, queryOk, how);
  }

  lemma {:induction false} RunIsValid(d: Drive, ops: seq<Op>)
    requires Valid(d)
    ensures Valid(Run(d, ops))
    decreases |ops|
  {
    hide Valid, Apply;
    if ops != [] {
      ApplyKeeps(d, ops[0]);
      RunIsValid(Apply(d, ops[0]), ops[1..]);
    }
  }
}
