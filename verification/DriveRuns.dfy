/** Whole runs of the server: any sequence of handlers and janitor sweeps. */
module DriveRuns {
  import opened DriveArchive
  import opened DriveHistory
  import opened DriveInvariant
  import opened DriveModel
  import opened DriveSteps
  import opened DriveTrash
  import opened LikePattern
  import opened LogicalPath
  import opened Strings
  import opened Wrappers

  datatype Op =
    | UploadOp(req: UploadRequest, vid: Id, now: int, fault: UploadFault)
    | DeleteOp(path: string, id: Id, now: int, queryOk: bool, ending: DeleteFault)
    | RenameOp(from: string, toName: string, how: Relocation, call: RenameFault)
    | MoveOp(from: string, destDir: string, how: Relocation, call: RenameFault)
    | RestoreOp(id: Id, f: RestoreFault)
    | VersionRestoreOp(path: string, vid: Id, v1: Id, v2: Id, now: int, snap: Snapping, fault: UploadFault)
    | TrashDeleteOp(id: Id, left: Option<set<string>>, purging: Purging)
    | TrashEmptyOp(order: seq<Id>, remains: Option<Leavings>, each: Id -> Purging)
    | SweepOp(cutoff: int, stuck: map<Id, set<string>>, roots: seq<RootPurge>)
    | PruneOp(keep: nat, pruning: Pruning)

  function Apply(d: Drive, op: Op): Drive {
    match op
    case UploadOp(req, vid, now, fault) => Upload(d, req, vid, now, fault).0
    case DeleteOp(path, id, now, queryOk, ending) => Delete(d, path, id, now, queryOk, ending).0
    case RenameOp(from, toName, how, call) => Rename(d, from, toName, how, call).0
    case MoveOp(from, destDir, how, call) => Move(d, from, destDir, how, call).0
    case RestoreOp(id, f) => Restore(d, id, f).0
    case VersionRestoreOp(path, vid, v1, v2, now, snap, fault) =>
      VersionRestore(d, path, vid, v1, v2, now, snap, fault).0
    case TrashDeleteOp(id, left, purging) => TrashDelete(d, id, left, purging)
    case TrashEmptyOp(order, remains, each) => TrashEmpty(d, order, remains, each)
    case SweepOp(cutoff, stuck, roots) => SweepTrash(d, cutoff, stuck, roots)
    case PruneOp(keep, pruning) => Prune(d, keep, pruning)
  }

  function Run(d: Drive, ops: seq<Op>): Drive
    decreases |ops|
  {
    if ops == [] then d else Run(Apply(d, ops[0]), ops[1..])
  }

  /** The operations that remove content for good. */
  predicate Purges(op: Op) {
    op.TrashDeleteOp? || op.TrashEmptyOp? || op.SweepOp? || op.PruneOp?
  }

  predicate Relocates(op: Op) {
    op.RenameOp? || op.MoveOp?
  }

  function Outcome(d: Drive, op: Op): Result<Path, FsError>
    requires Relocates(op)
  {
    if op.RenameOp? then Rename(d, op.from, op.toName, op.how, op.call).1
    else Move(d, op.from, op.destDir, op.how, op.call).1
  }

  predicate Succeeds(d: Drive, op: Op)
    requires Relocates(op)
  {
    Outcome(d, op).Ok?
  }

  /** Whichever it is, a successful rename or move is one relocation, onto itself or between roots that do not nest. */
  lemma SuccessIsRelocation(d: Drive, op: Op)
    requires Relocates(op) && Succeeds(d, op)
    ensures var src, dst := MustValidate(op.from), Outcome(d, op).value;
      && (dst != src ==> Relocatable(src, dst)) && Normal(src)
      && Relocate(d, src, dst, op.how, op.call) == (Apply(d, op), Ok(dst))
  {
    hide ValidateRel, Occupied, Subtree, RelocateHistory, MoveTree, Blocked, Relocatable, Relocate, Rename, Move;
    if op.RenameOp? {
      RenameIsRelocatable(d, op.from, op.toName, op.how, op.call);
    } else {
      MoveIsRelocatable(d, op.from, op.destDir, op.how, op.call);
    }
    AcceptedIsNormal(op.from);
    SucceededIs(d, MustValidate(op.from), Outcome(d, op).value, op.how, op.call);
  }

  /** A path moved onto itself, which takes a look at it that failed, leaves everything as it was. */
  lemma OntoItself(d: Drive, op: Op)
    requires Relocates(op) && Succeeds(d, op) && Outcome(d, op).value == MustValidate(op.from)
    ensures Apply(d, op) == d
  {
    hide Relocate, Apply, Outcome, MoveTree;
    SuccessIsRelocation(d, op);
    SucceededIs(d, MustValidate(op.from), MustValidate(op.from), op.how, op.call);
    MoveSelf(d, MustValidate(op.from));
  }

  lemma RelocationFailed(d: Drive, op: Op)
    requires Relocates(op) && !Succeeds(d, op)
    ensures Apply(d, op) == d
  {
    hide ValidateRel, ValidName, NameOf, ParentOf, JoinPath, MoveTree, Occupied, Subtree, RelocateHistory, Blocked;
  }

  /** A relocation attempts directory moves only on the paths the index listed. */
  ghost predicate Heeds(d: Drive, op: Op) {
    Relocates(op) && Succeeds(d, op) ==> Attempts(d, MustValidate(op.from), op.how.moves)
  }

  /** The operation succeeds, its index update commits, and its path changes. */
  predicate Shifts(d: Drive, op: Op)
    requires Relocates(op)
  {
    Succeeds(d, op) && op.how.indexOk && Outcome(d, op).value != MustValidate(op.from)
  }

  /** The relocation moves some row and its blob apart. */
  predicate Strays(d: Drive, op: Op)
    requires Relocates(op)
  {
    Shifts(d, op) && !AllMeet(d, MustValidate(op.from), Outcome(d, op).value, op.how.moves)
  }

  /** The operations that part a row from its blob. */
  predicate Parts(d: Drive, op: Op) {
    (Relocates(op) && Strays(d, op)) || (op.RestoreOp? && RestoreParts(d, op.id, op.f))
  }

  /** The relocation only changes case and meets both troubles at once, which can make up for each other. */
  predicate DoublyAstray(d: Drive, op: Op)
    requires Relocates(op)
  {
    Succeeds(d, op) && EqFold(Outcome(d, op).value, MustValidate(op.from)) &&
    !CaseExact(d, MustValidate(op.from)) && LeftBehind(d, MustValidate(op.from), op.how.moves)
  }

  /** A rename or move keeps rows resolving if and only if it moves none apart from its blob. */
  lemma RelocationStraysIff(d: Drive, op: Op)
    requires Valid(d) && RowsResolve(d) && Relocates(op) && Heeds(d, op)
    ensures RowsResolve(Apply(d, op)) <==> !Strays(d, op)
  {
    hide Relocatable, Relocate, Apply, Valid, RowsResolve, AllMeet, Attempts, Outcome;
    if !Succeeds(d, op) {
      RelocationFailed(d, op);
    } else if Outcome(d, op).value == MustValidate(op.from) {
      OntoItself(d, op);
    } else {
      SuccessIsRelocation(d, op);
      RelocateRowsMet(d, MustValidate(op.from), Outcome(d, op).value, op.how, op.call);
    }
  }

  /**
   Which is to say: it fails, or its index update does, or its path stays the same,
   or every row it selects is below the old path case and all and no blob of those
   is left behind.
   */
  lemma RelocationResolvesIff(d: Drive, op: Op)
    requires Valid(d) && RowsResolve(d) && Relocates(op) && Heeds(d, op) && !DoublyAstray(d, op)
    ensures var src := MustValidate(op.from);
      RowsResolve(Apply(d, op)) <==> !Shifts(d, op) || (CaseExact(d, src) && !LeftBehind(d, src, op.how.moves))
  {
    hide Relocatable, Relocate, Apply, Valid, RowsResolve, CaseExact, LeftBehind, Attempts, Outcome, EqFold;
    if !Succeeds(d, op) {
      RelocationFailed(d, op);
    } else if Outcome(d, op).value == MustValidate(op.from) {
      OntoItself(d, op);
    } else {
      SuccessIsRelocation(d, op);
      RelocateRowsIff(d, MustValidate(op.from), Outcome(d, op).value, op.how, op.call);
    }
  }

  lemma ShiftSucceeds(d: Drive, op: Op)
    requires Relocates(op) && Shifts(d, op)
    ensures Succeeds(d, op) && op.how.indexOk && Outcome(d, op).value != MustValidate(op.from)
  {
    hide Outcome;
  }

  /**
   History follows the file through every successful rename and move whose index
   update commits: at each suffix of the new path are the rows of the old path
   and those already there, and nowhere else does anything change.
   */
  lemma RelocationMovesHistory(d: Drive, op: Op)
    requires Relocates(op) && Shifts(d, op) && CaseExact(d, MustValidate(op.from))
    ensures var src, dst, d' := MustValidate(op.from), Outcome(d, op).value, Apply(d, op);
      && (forall s: string :: s == "" || s[0] == '/' ==>
            RowsAt(d', dst + s) == RowsAt(d, src + s) + RowsAt(d, dst + s) && RowsAt(d', src + s) == {})
      && (forall p: Path :: !Under(src, p) && !Under(dst, p) ==> RowsAt(d', p) == RowsAt(d, p))
  {
    hide Relocatable, CaseExact, Outcome, Apply, RelocateHistory, RowsAt, Under, Shifts, Relocate, MoveTree, Normal,
         MustValidate;
    ShiftSucceeds(d, op);
    var src, dst := MustValidate(op.from), Outcome(d, op).value;
    SuccessIsRelocation(d, op);
    RelocatedHistory(d, src, dst, op.how, op.call);
    HistoryFollows(MoveTree(d, src, dst), src, dst, op.how);
    forall p ensures RowsAt(MoveTree(d, src, dst), p) == RowsAt(d, p) { SameRowsAt(d, src, dst, p); }
  }

  lemma RelocatedHistory(d: Drive, src: Path, dst: Path, how: Relocation, f: RenameFault)
    requires Relocate(d, src, dst, how, f).1.Ok?
    ensures Relocate(d, src, dst, how, f).0 == RelocateHistory(MoveTree(d, src, dst), src, dst, how)
    ensures CaseExact(MoveTree(d, src, dst), src) == CaseExact(d, src)
  {
    hide ValidateRel, Occupied, Subtree, Blocked, RelocateHistory, Selected, Under, Attach, Detach, Relocate;
    SucceededIs(d, src, dst, how, f);
  }

  lemma SameRowsAt(d: Drive, src: Path, dst: Path, p: Path)
    ensures RowsAt(MoveTree(d, src, dst), p) == RowsAt(d, p)
  {
    hide Attach, Detach, Subtree;
  }

  /** Something live is replaced unseen whose bytes are nowhere else. */
  predicate Clobbers(d: Drive, op: Op) {
    match op
    case UploadOp(req, _, _, fault) => UploadLoses(d, req, fault)
    case VersionRestoreOp(path, vid, v1, _, now, snap, fault) => VersionRestoreLoses(d, path, vid, v1, now, snap, fault)
    case RenameOp(from, _, _, call) =>
      Destination(op).Ok? && RelocateLoses(d, MustValidate(from), Destination(op).value, call)
    case MoveOp(from, _, _, call) =>
      Destination(op).Ok? && RelocateLoses(d, MustValidate(from), Destination(op).value, call)
    case _ => false
  }

  /** Where a rename or move goes, if the server takes its arguments. */
  function Destination(op: Op): Result<Path, FsError>
    requires Relocates(op)
  {
    var src := MustValidate(op.from);
    if src == "/" then Err(Invalid)
    else if op.RenameOp? then
      if ValidName(op.toName) then JoinPath(ParentOf(src), op.toName) else Err(Invalid)
    else
      match ValidateRel(op.destDir)
      case Err(e) => Err(e)
      case Ok(dir) => if src == dir || HasPrefix(dir, src + "/") then Err(Invalid) else JoinPath(dir, NameOf(src))
  }

  lemma RelocatesTo(d: Drive, op: Op)
    requires Relocates(op) && Destination(op).Ok?
    ensures var (d', r) := Relocate(d, MustValidate(op.from), Destination(op).value, op.how, op.call);
      Apply(d, op) == d' && Outcome(d, op) == r
  {
    hide Relocate, ValidName, JoinPath, ParentOf, NameOf, ValidateRel;
  }

  lemma RelocatesNowhere(d: Drive, op: Op)
    requires Relocates(op) && Destination(op).Err?
    ensures Apply(d, op) == d
  {
    hide Relocate, ValidName, JoinPath, ParentOf, NameOf, ValidateRel;
  }

  lemma RelocationKeeps(d: Drive, op: Op)
    requires Valid(d) && Relocates(op)
    ensures Valid(Apply(d, op)) && (Keeps(d, Apply(d, op)) <==> !Clobbers(d, op))
  {
    hide Relocate, Apply, Valid, Outcome, RelocateLoses, Archived, Destination, Normal, ValidateRel;
    if Destination(op).Ok? {
      RelocatesTo(d, op);
      SourceIsNormal(op);
      RelocateKeeps(d, MustValidate(op.from), Destination(op).value, op.how, op.call);
    } else {
      RelocatesNowhere(d, op);
    }
  }

  lemma SourceIsNormal(op: Op)
    requires Relocates(op) && Destination(op).Ok?
    ensures Normal(MustValidate(op.from))
  {
    hide ValidName, JoinPath, ParentOf, NameOf, ValidateRel, Normal;
    AcceptedIsNormal(op.from);
  }

  lemma TrashValid(d: Drive, trash: map<Id, TrashItem>, stranded: map<Id, map<string, File>>)
    requires Valid(d) && SoundTrash(trash)
    ensures var d' := d.(trash := trash, stranded := stranded); Valid(d') && (RowsResolve(d) ==> RowsResolve(d'))
  {
  }

  lemma TrashDeleteKeeps(d: Drive, id: Id, left: Option<set<string>>, how: Purging)
    requires Valid(d)
    ensures var d' := TrashDelete(d, id, left, how); Valid(d') && (RowsResolve(d) ==> RowsResolve(d'))
  {
    hide PurgeItemHistory, Remnant, RowsResolve;
    if id in d.trash {
      if left.Some? {
        RemnantSound(d.trash, map[id := left.value]);
        TrashValid(d, d.trash + Remnant(d.trash, map[id := left.value]), d.stranded);
      } else {
        TrashValid(d, d.trash - {id}, d.stranded);
        PurgeItemKeeps(d.(trash := d.trash - {id}), d.trash[id], how);
      }
    }
  }

  lemma TrashEmptyKeeps(d: Drive, order: seq<Id>, remains: Option<Leavings>, each: Id -> Purging)
    requires Valid(d)
    ensures var d' := TrashEmpty(d, order, remains, each); Valid(d') && (RowsResolve(d) ==> RowsResolve(d'))
  {
    hide PurgeItems, HalfEmptied, Listed, RowsResolve, Valid;
    if remains.Some? {
      HalfEmptiedValid(d, remains.value);
    } else {
      TrashValid(d, map[], map[]);
      PurgeItemsKeep(d.(trash := map[], stranded := map[]), Listed(d.trash, order, each));
    }
  }

  lemma HalfEmptiedValid(d: Drive, left: Leavings)
    requires Valid(d)
    ensures Valid(HalfEmptied(d, left)) && (RowsResolve(d) ==> RowsResolve(HalfEmptied(d, left)))
  {
    var d' := HalfEmptied(d, left);
    assert SoundTrash(d'.trash);
    TrashValid(d, d'.trash, d'.stranded);
  }

  lemma SweepKeeps(d: Drive, cutoff: int, stuck: map<Id, set<string>>, roots: seq<RootPurge>)
    requires Valid(d)
    ensures var d' := SweepTrash(d, cutoff, stuck, roots); Valid(d') && (RowsResolve(d) ==> RowsResolve(d'))
  {
    hide PurgeHistories, Remnant, Expired, RowsResolve;
    var gone := Expired(d, cutoff);
    var some := map id | id in gone && id in stuck :: stuck[id];
    RemnantSound(d.trash, some);
    var trash := (d.trash - gone) + Remnant(d.trash, some);
    assert SoundTrash(trash);
    TrashValid(d, trash, d.stranded);
    PurgeHistoriesKeep(d.(trash := trash), roots);
  }

  /**
   Every operation keeps the drive valid, whatever fails in it. One that does not
   purge keeps all content if and only if it does not replace something unseen;
   and those that part no row from its blob keep every row resolving.
   */
  lemma ApplyKeeps(d: Drive, op: Op)
    requires Valid(d)
    ensures Valid(Apply(d, op))
    ensures !Purges(op) ==> (Keeps(d, Apply(d, op)) <==> !Clobbers(d, op))
    ensures RowsResolve(d) && Heeds(d, op) && !Parts(d, op) ==> RowsResolve(Apply(d, op))
  {
    hide Upload, Delete, Rename, Move, Restore, VersionRestore, TrashDelete, TrashEmpty, SweepTrash, Prune, Keeps,
         Strays, RestoreParts, Outcome, UploadLoses, VersionRestoreLoses, RelocateLoses;
    match op
    case UploadOp(req, vid, now, fault) => UploadKeeps(d, req, vid, now, fault);
    case DeleteOp(path, id, now, queryOk, ending) => DeleteKeeps(d, path, id, now, queryOk, ending);
    case RenameOp(_, _, _, _) => RelocationApplied(d, op);
    case MoveOp(_, _, _, _) => RelocationApplied(d, op);
    case RestoreOp(id, f) =>
      RestoreKeeps(d, id, f);
      if RowsResolve(d) { RestoreResolvesIff(d, id, f); }
    case VersionRestoreOp(path, vid, v1, v2, now, snap, fault) =>
      VersionRestoreReversible(d, path, vid, v1, v2, now, snap, fault);
    case TrashDeleteOp(id, left, purging) => TrashDeleteKeeps(d, id, left, purging);
    case TrashEmptyOp(order, remains, each) => TrashEmptyKeeps(d, order, remains, each);
    case SweepOp(cutoff, stuck, roots) => SweepKeeps(d, cutoff, stuck, roots);
    case PruneOp(keep, pruning) => PruneKeeps(d, keep, pruning);
  }

  lemma RelocationApplied(d: Drive, op: Op)
    requires Valid(d) && Relocates(op)
    ensures Valid(Apply(d, op)) && (Keeps(d, Apply(d, op)) <==> !Clobbers(d, op))
    ensures RowsResolve(d) && Heeds(d, op) && !Strays(d, op) ==> RowsResolve(Apply(d, op))
  {
    hide Valid, RowsResolve, Apply, Keeps, Strays, Heeds, Clobbers;
    RelocationKeeps(d, op);
    if RowsResolve(d) && Heeds(d, op) { RelocationStraysIff(d, op); }
  }

  /** No step of the run parts a row from its blob. */
  ghost predicate IntactRun(d: Drive, ops: seq<Op>)
    decreases |ops|
  {
    ops == [] || (Heeds(d, ops[0]) && !Parts(d, ops[0]) && IntactRun(Apply(d, ops[0]), ops[1..]))
  }

  /** Rows resolve to the right bytes after every run of handlers and sweeps that parts none, whatever fails in it. */
  lemma {:induction false} RunResolves(d: Drive, ops: seq<Op>)
    requires Valid(d) && RowsResolve(d) && IntactRun(d, ops)
    ensures Valid(Run(d, ops)) && RowsResolve(Run(d, ops))
    decreases |ops|
  {
    hide Valid, RowsResolve, Apply, Heeds, Parts;
    if ops != [] {
      ApplyKeeps(d, ops[0]);
      RunResolves(Apply(d, ops[0]), ops[1..]);
    }
  }

  /** Each step that parts a row does break the property. */
  lemma PartingBreaks(d: Drive, op: Op)
    requires Valid(d) && RowsResolve(d) && Heeds(d, op) && Parts(d, op)
    ensures !RowsResolve(Apply(d, op))
  {
    hide Valid, RowsResolve, Strays, RestoreParts, Heeds, Restore, Outcome;
    if Relocates(op) { RelocationStraysIff(d, op); } else { RestoreResolvesIff(d, op.id, op.f); }
  }

  /** No step of the run removes anything for good or replaces something unseen that is nowhere else. */
  ghost predicate Careful(d: Drive, ops: seq<Op>)
    decreases |ops|
  {
    ops == [] || (!Purges(ops[0]) && !Clobbers(d, ops[0]) && Careful(Apply(d, ops[0]), ops[1..]))
  }

  /** A run none of whose steps does so loses no content, whatever fails in it. */
  lemma {:induction false} RunKeeps(d: Drive, ops: seq<Op>)
    requires Valid(d) && Careful(d, ops)
    ensures Valid(Run(d, ops)) && Keeps(d, Run(d, ops))
    decreases |ops|
  {
    hide Valid, Apply, Clobbers;
    if ops != [] {
      ApplyKeeps(d, ops[0]);
      RunKeeps(Apply(d, ops[0]), ops[1..]);
    }
  }

  /** The run of a concatenation, and the care taken in it, are those of its parts. */
  lemma {:induction false} RunParts(d: Drive, a: seq<Op>, b: seq<Op>)
    ensures Run(d, a + b) == Run(Run(d, a), b)
    ensures Careful(d, a + b) <==> Careful(d, a) && Careful(Run(d, a), b)
    decreases |a|
  {
    hide Apply, Clobbers;
    if a == [] {
      assert a + b == b;
    } else {
      assert (a + b)[1..] == a[1..] + b;
      RunParts(Apply(d, a[0]), a[1..], b);
    }
  }

  /** A live file "/a" beside the history of a deleted "/A/x". */
  const FOLDED: Drive :=
    Drive(map["/a" := File([], 0)], map[], map[], map[0 := Row("/A/x", "v", 0, 0)], 1,
          map[BlobKey("/A/x", "v") := []], map["v" := []])

  lemma FoldedSelects()
    ensures Selected("/a", "/A/x") && !Under("/a", "/A/x")
    ensures OldPaths(FOLDED, "/a") == {"/A/x"}
  {
    SubtreeTest("/a", "/A/x");
    assert "/A/x"[..2] == "/A" && EqFold("/A", "/a");
    assert "/A/x"[0..2] != "/a";
    assert FOLDED.rows[0].path == "/A/x" && SelectedRows(FOLDED.rows, "/a") == {0};
    assert FOLDED.rows[0].path in RowPaths(FOLDED.rows, {0});
  }

  lemma FoldedPaths()
    ensures Normal("/a") && ValidateRel("/a") == Ok("/a") && ValidateRel("/b") == Ok("/b")
    ensures JoinPath(ParentOf("/a"), "b") == Ok("/b")
  {
    SingleNormal("a");
    SingleNormal("b");
    assert "/" + "a" == "/a" && "/" + "b" == "/b";
    ValidatePlain("/a");
    ValidatePlain("/b");
    RootChild("a");
    assert Child("/", "b") == "/b";
  }

  lemma FoldedRelocates(how: Relocation)
    ensures Relocate(FOLDED, "/a", "/b", how, NoneFails).1 == Ok("/b")
  {
    FoldedPaths();
    hide ValidateRel, RelocateHistory, MoveTree;
    assert Directories(FOLDED.files) == {"/"};
    assert Subtree(FOLDED.files, "/a") == {"/a"};
    assert forall q :: q in FOLDED.files ==> |q + "/"| == 3;
  }

  lemma FoldedRenames(how: Relocation)
    ensures Rename(FOLDED, "/a", "b", how, NoneFails) == Relocate(FOLDED, "/a", "/b", how, NoneFails)
  {
    hide ValidateRel, ParentOf, JoinPath, Relocate, ValidName, Normal;
    FoldedPaths();
    PlainNameIsValid();
  }

  lemma PlainNameIsValid()
    ensures ValidName("b")
  {
    assert "b"[0..] != " " && "b"[0..] != ".";
  }

  /** The index lists the one path there is history for, and its directory move works. */
  const FOLDED_MOVE := Relocation(true, [DirMove("/A/x", {})])

  lemma FoldedSound()
    ensures Valid(FOLDED) && RowsResolve(FOLDED) && Lists(PathsOf(FOLDED_MOVE.moves), OldPaths(FOLDED, "/a"))
    ensures Attempts(FOLDED, "/a", FOLDED_MOVE.moves) && !LeftBehind(FOLDED, "/a", FOLDED_MOVE.moves)
    ensures Relocatable("/a", "/b") && !CaseExact(FOLDED, "/a")
  {
    FoldedSelects();
    assert |"/a" + "/"| == 3 && |"/b" + "/"| == 3;
    assert FOLDED.rows[0].path == "/A/x";
    assert FOLDED_MOVE.moves[0] in FOLDED_MOVE.moves;
    assert PathsOf(FOLDED_MOVE.moves) == ["/A/x"];
  }

  /**
   Case folding does break a valid drive, with nothing failing: rename "/a" while
   history of a deleted "/A/x" is kept, and that history no longer finds its blob.
   */
  lemma CaseFoldingBreaksRows()
    ensures Valid(FOLDED) && RowsResolve(FOLDED) && Lists(PathsOf(FOLDED_MOVE.moves), OldPaths(FOLDED, "/a"))
    ensures Rename(FOLDED, "/a", "b", FOLDED_MOVE, NoneFails).1 == Ok("/b")
    ensures !RowsResolve(Rename(FOLDED, "/a", "b", FOLDED_MOVE, NoneFails).0)
  {
    hide ValidateRel, Occupied, Subtree, MoveBlobDirs, Rename, Relocate, Relocatable;
    FoldedSound();
    FoldedRenames(FOLDED_MOVE);
    FoldedRelocates(FOLDED_MOVE);
    RelocateRowsIff(FOLDED, "/a", "/b", FOLDED_MOVE, NoneFails);
  }

  /** Two wrongs: "/A/x" is selected for "/a", and its directory move fails. */
  const FOLDED_STAYS := Relocation(true, [DirMove("/A/x", {"v"})])

  /** They make up for each other when "/a" becomes "/A": the row's path is rewritten to itself. */
  lemma WrongsMakeUp()
    ensures Valid(FOLDED) && RowsResolve(FOLDED) && Relocatable("/a", "/A") && EqFold("/A", "/a")
    ensures !CaseExact(FOLDED, "/a") && LeftBehind(FOLDED, "/a", FOLDED_STAYS.moves)
    ensures RowsResolve(RelocateHistory(FOLDED, "/a", "/A", FOLDED_STAYS))
  {
    hide RelocateHistory, CaseExact, Relocatable, LeftBehind, Attempts;
    FoldedWrongs();
    FoldedSelects();
    assert FOLDED.rows[0].path == "/A/x";
    FoldedMeets(FOLDED.rows[0]);
    RelocationResolvesIffMet(FOLDED, "/a", "/A", FOLDED_STAYS);
  }

  lemma FoldedWrongs()
    ensures Relocatable("/a", "/A") && !CaseExact(FOLDED, "/a") && LeftBehind(FOLDED, "/a", FOLDED_STAYS.moves)
    ensures Attempts(FOLDED, "/a", FOLDED_STAYS.moves)
  {
    FoldedSelects();
    assert |"/a" + "/"| == 3 && |"/A" + "/"| == 3;
    assert FOLDED.rows[0].path == "/A/x";
  }

  lemma FoldedMeets(row: Row)
    requires row.path == "/A/x" && row.vid == "v"
    ensures !Taken(KeyOf(row), FOLDED_STAYS.moves) && Meets(row, FOLDED_STAYS.moves, "/a", "/A")
  {
    assert FOLDED_STAYS.moves[0] == DirMove("/A/x", {"v"}) && FOLDED_STAYS.moves[1..] == [];
    assert "/A" + "/A/x"[2..] == "/A/x";
  }

  /** Two live files, and nothing else. */
  function TwoFiles(a: Bytes, b: Bytes): Drive {
    Drive(map["/a" := File(a, 0), "/b" := File(b, 0)], map[], map[], map[], 0, map[], map[])
  }

  lemma TwoSpots(a: Bytes, b: Bytes)
    ensures var files := TwoFiles(a, b).files;
      && Directories(files) == {"/"} && !Blocked(files, "/a") && !Blocked(files, "/b")
  {
    assert |"/a" + "/"| == 3 && |"/b" + "/"| == 3;
  }

  /** An upload over "/a" with the wrong etag, whose look at "/a" fails: it is stored, and the old bytes are gone. */
  lemma UnseenUploadLoses(a: Bytes, b: Bytes, next: Bytes)
    requires a != b && a != next
    ensures var req := UploadRequest("/a", next, "stale", false, "", "");
      var (d', r) := Upload(TwoFiles(a, b), req, "v", 0, Unseen(false));
      r.Ok? && Archived(TwoFiles(a, b), a) && !Archived(d', a)
  {
    var d, req := TwoFiles(a, b), UploadRequest("/a", next, "stale", false, "", "");
    FoldedPaths();
    TwoSpots(a, b);
    hide ValidateRel, Directories, Blocked;
    assert d.files["/a"].bytes == a;
    assert Upload(d, req, "v", 0, Unseen(false)).0 == d.(files := d.files["/a" := File(next, 0)]);
  }

  /** A rename of "/a" to "/b" whose look at "/b" fails: it succeeds, and the bytes of "/b" are gone. */
  lemma UnseenRenameLoses(a: Bytes, b: Bytes)
    requires a != b
    ensures var d := TwoFiles(a, b); var op := RenameOp("/a", "b", Relocation(true, []), CheckFails);
      Succeeds(d, op) && Archived(d, b) && !Archived(Apply(d, op), b)
  {
    var d, op := TwoFiles(a, b), RenameOp("/a", "b", Relocation(true, []), CheckFails);
    FoldedPaths();
    TwoSpots(a, b);
    PlainNameIsValid();
    hide ValidateRel, Directories, Blocked, ParentOf, JoinPath, ValidName, MoveTree, Normal;
    assert Subtree(d.files, "/a") == {"/a"};
    TwoMoved(a, b);
    assert d.files["/b"].bytes == b;
  }

  lemma TwoMoved(a: Bytes, b: Bytes)
    requires a != b
    ensures var d' := RelocateHistory(MoveTree(TwoFiles(a, b), "/a", "/b"), "/a", "/b", Relocation(true, []));
      !Archived(d', b)
  {
    hide MoveTree;
    FileMoveIs(TwoFiles(a, b), "/a", "/b");
    var mid := MoveTree(TwoFiles(a, b), "/a", "/b");
    var d' := RelocateHistory(mid, "/a", "/b", Relocation(true, []));
    assert d'.files == mid.files && d'.trash == map[] && d'.stranded == map[] && d'.blobs == map[];
    assert forall p :: p in d'.files ==> d'.files[p].bytes == a;
  }

  lemma SingleNormal(name: string)
    requires GoodSegment(name) && NoneOf(name, '\0') && NoneOf(name, '\\')
    ensures Normal("/" + name)
  {
    assert GoodSegments([name]);
    assert Render([name]) == "/" + name + Render([name][1..]);
    assert "/" + name == Rooted([name]);
  }

  lemma RootChild(name: string)
    requires GoodSegment(name)
    ensures ParentOf("/" + name) == "/"
  {
    var p := "/" + name;
    LastIndexUnique(p, '/', 0);
    assert p[..1] == "/";
    CleanRooted([]);
  }
}
