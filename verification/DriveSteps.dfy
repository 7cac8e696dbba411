/** Each remaining handler keeps the drive valid, keeps content, and keeps rows resolving. */
module DriveSteps {
  import opened DriveArchive
  import opened DriveHistory
  import opened DriveInvariant
  import opened DriveModel
  import opened LikePattern
  import opened LogicalPath
  import opened Strings
  import opened Wrappers

  // ---- moving subtrees of the file tree ----

  lemma SubtreeSuffix(files: map<Path, File>, p: Path, q: Path)
    requires q in Subtree(files, p)
    ensures q == p + TrimPrefix(q, p) && (TrimPrefix(q, p) == "" || TrimPrefix(q, p)[0] == '/')
  {
    if q != p {
      assert q[..|p| + 1] == p + "/";
      assert q[..|p|] == p && q[|p|] == '/';
    }
  }

  /** Detaching takes exactly the subtree, suffix by suffix. */
  lemma DetachTakes(files: map<Path, File>, p: Path)
    ensures PayloadShape(Detach(files, p))
    ensures forall q :: q in Subtree(files, p) ==>
              TrimPrefix(q, p) in Detach(files, p) && Detach(files, p)[TrimPrefix(q, p)] == files[q]
    ensures forall s :: s in Detach(files, p) ==> p + s in Subtree(files, p) && Detach(files, p)[s] == files[p + s]
  {
    forall q | q in Subtree(files, p) ensures TrimPrefix(q, p) in Detach(files, p) && q == p + TrimPrefix(q, p) {
      SubtreeSuffix(files, p, q);
    }
    forall s | s in Detach(files, p) ensures p + s in Subtree(files, p) && (s == "" || s[0] == '/') {
      var q :| q in Subtree(files, p) && s == TrimPrefix(q, p);
      SubtreeSuffix(files, p, q);
    }
  }

  lemma TrimOwn(p: Path, s: string)
    ensures TrimPrefix(p + s, p) == s
  {
  }

  lemma SpotOccupied(files: map<Path, File>, p: Path, s: string)
    requires p + s in files && p != "" && (s == "" || s[0] == '/')
    ensures p in Occupied(files)
  {
    if s == "" {
      assert p + s == p;
    } else {
      assert (p + s)[|p|] == '/' && (p + s)[..|p|] == p;
    }
  }

  /** Attaching at a free path adds the payload and leaves every live file alone. */
  lemma AttachAdds(files: map<Path, File>, p: Path, payload: map<string, File>)
    requires PayloadShape(payload)
    ensures var files' := Attach(files, p, payload);
      && (forall s :: s in payload ==> p + s in files' && files'[p + s] == payload[s])
      && (forall q :: q in files' && q !in files ==> exists s :: s in payload && q == p + s)
  {
    forall s | s in payload ensures TrimPrefix(p + s, p) == s {
      TrimOwn(p, s);
    }
  }

  lemma AttachOverwritesNothing(files: map<Path, File>, p: Path, payload: map<string, File>)
    requires PayloadShape(payload) && p !in Occupied(files) && p != ""
    ensures forall q :: q in files ==> q in Attach(files, p, payload) && Attach(files, p, payload)[q] == files[q]
  {
    forall q, s | q in files && s in payload ensures q != p + s {
      if q == p + s { SpotOccupied(files, p, s); }
    }
  }

  lemma AttachLeaves(files: map<Path, File>, path: Path, payload: map<string, File>, q: Path)
    requires q in files && forall s :: s in payload ==> path + s != q
    ensures q in Attach(files, path, payload) && Attach(files, path, payload)[q] == files[q]
  {
  }

  lemma AttachedBackAt(files: map<Path, File>, path: Path, q: Path)
    requires q in files
    ensures var out := Attach(files - Subtree(files, path), path, Detach(files, path)); q in out && out[q] == files[q]
  {
    hide Subtree, Detach, Attach, TrimPrefix;
    var payload, rest := Detach(files, path), files - Subtree(files, path);
    DetachTakes(files, path);
    if q in Subtree(files, path) {
      SubtreeSuffix(files, path, q);
      AttachAdds(rest, path, payload);
      assert TrimPrefix(q, path) in payload;
    } else {
      AttachLeaves(rest, path, payload, q);
    }
  }

  lemma AttachBack(files: map<Path, File>, path: Path)
    ensures Attach(files - Subtree(files, path), path, Detach(files, path)) == files
  {
    hide Subtree, Detach, Attach;
    var payload, rest := Detach(files, path), files - Subtree(files, path);
    var out := Attach(rest, path, payload);
    forall q | q in files ensures q in out && out[q] == files[q] { AttachedBackAt(files, path, q); }
    DetachTakes(files, path);
    AttachAdds(rest, path, payload);
    forall q | q in out ensures q in files {
      if q !in rest {
        var s :| s in payload && q == path + s;
        assert path + s in Subtree(files, path);
        SubtreeIsLive(files, path, q);
      }
    }
  }

  lemma SubtreeIsLive(files: map<Path, File>, path: Path, q: Path)
    requires q in Subtree(files, path)
    ensures q in files
  {
  }

  lemma MoveTreeKeeps(d: Drive, from: Path, to: Path)
    requires Valid(d) && to !in Occupied(d.files) && to != ""
    ensures Valid(MoveTree(d, from, to)) && Keeps(d, MoveTree(d, from, to))
    ensures RowsResolve(d) ==> RowsResolve(MoveTree(d, from, to))
    ensures MoveTree(d, from, to) == d.(files := MoveTree(d, from, to).files)
  {
    var payload, rest := Detach(d.files, from), d.files - Subtree(d.files, from);
    var d' := MoveTree(d, from, to);
    DetachTakes(d.files, from);
    AttachAdds(rest, to, payload);
    assert Directories(rest) <= Directories(d.files);
    AttachOverwritesNothing(rest, to, payload);
    forall b | InFiles(d.files, b) ensures InFiles(d'.files, b) {
      var q :| q in d.files && d.files[q].bytes == b;
      if q in Subtree(d.files, from) {
        assert d'.files[to + TrimPrefix(q, from)].bytes == b;
      } else {
        assert q in rest && d'.files[q].bytes == b;
      }
    }
  }

  /** Relocating history moves rows and blobs and changes no bytes. */
  lemma RelocateHistoryKeeps(d: Drive, oldRoot: Path, newRoot: Path, how: Relocation)
    requires Valid(d)
    ensures var d' := RelocateHistory(d, oldRoot, newRoot, how);
      && Valid(d') && Keeps(d, d') && d' == d.(rows := d'.rows, blobs := d'.blobs)
      && (forall b :: InBlobs(d'.blobs, b) ==> InBlobs(d.blobs, b))
  {
    hide MoveBlobDirs, Selected, SqlRewrite;
    MoveBlobDirsTrack(d.blobs, d.issued, how.moves, oldRoot, newRoot);
    var d' := RelocateHistory(d, oldRoot, newRoot, how);
    if d' != d {
      assert SameVids(d.blobs, d'.blobs);
      SameVidsKeepBytes(d.blobs, d'.blobs, d.issued);
      forall b | InBlobs(d'.blobs, b) ensures InBlobs(d.blobs, b) {
        var k :| k in d'.blobs && d'.blobs[k] == b;
        var j := MoveBlobDirsSource(d.blobs, how.moves, oldRoot, newRoot, k);
      }
    }
  }

  lemma NormalStartsWithSlash(p: Path)
    requires Normal(p)
    ensures p != "" && p[0] == '/'
  {
    var segs :| GoodSegments(segs) && p == Rooted(segs);
  }

  /** Moving a path onto itself changes nothing. */
  lemma MoveSelf(d: Drive, from: Path)
    ensures MoveTree(d, from, from) == d
  {
    hide Attach, Detach, Subtree;
    AttachBack(d.files, from);
  }

  lemma FileMoveIs(d: Drive, from: Path, to: Path)
    requires from in d.files
    ensures MoveTree(d, from, to) == d.(files := (d.files - {from})[to := d.files[from]])
  {
    hide Attach, Detach;
    FileDetached(d.files, from);
    FileAttached(d.files - {from}, to, d.files[from]);
  }

  lemma FileDetached(files: map<Path, File>, p: Path)
    requires p in files
    ensures Detach(files, p) == map["" := files[p]]
  {
    assert TrimPrefix(p, p) == "" && p + "" == p;
    assert Subtree(files, p) == {p};
    hide TrimPrefix, Subtree;
  }

  lemma FileAttached(files: map<Path, File>, p: Path, file: File)
    ensures Attach(files, p, map["" := file]) == files[p := file]
  {
    assert p + "" == p && TrimPrefix(p, p) == "";
    hide TrimPrefix;
    var out := Attach(files, p, map["" := file]);
    assert forall q :: q in out <==> q == p || q in files;
  }

  /** A file moved over another keeps the archive if and only if the bytes it replaces are archived beside them. */
  lemma MoveOverKeepsIff(d: Drive, from: Path, to: Path)
    requires from in d.files && to in d.files && from != to
    ensures Keeps(d, MoveTree(d, from, to)) <==> ArchivedBeside(d, to, d.files[to].bytes)
  {
    hide InTrash, InStranded, InBlobs, MoveTree;
    FileMoveIs(d, from, to);
    var d', b := MoveTree(d, from, to), d.files[to].bytes;
    assert InFiles(d.files, b);
    if ArchivedBeside(d, to, b) {
      forall c | InFiles(d.files, c) ensures Archived(d', c) {
        var p :| p in d.files && d.files[p].bytes == c;
        MovedOverAt(d, from, to, p);
        if p == to && exists q :: q in d.files && q != to && d.files[q].bytes == b {
          var q :| q in d.files && q != to && d.files[q].bytes == b;
          MovedOverAt(d, from, to, q);
        }
      }
    } else {
      assert forall p :: p in d'.files ==> d'.files[p].bytes != b;
      assert Archived(d, b) && !Archived(d', b);
    }
  }

  lemma MovedOverAt(d: Drive, from: Path, to: Path, p: Path)
    requires from in d.files && from != to && p in d.files
    ensures p != to ==> InFiles((d.files - {from})[to := d.files[from]], d.files[p].bytes)
  {
    var out := (d.files - {from})[to := d.files[from]];
    var q := if p == from then to else p;
    assert p != to ==> q in out && out[q] == d.files[p];
  }

  /** The look at the destination fails, and the rename can put the file there in place of another. */
  predicate MovesOver(d: Drive, from: Path, dst: Path, f: RenameFault) {
    && f.CheckFails? && from in d.files && dst in d.files && dst != from && dst !in Directories(d.files)
    && ValidateRel(dst) == Ok(dst) && !Blocked(d.files, dst)
  }

  /** And the bytes of that one are nowhere else. */
  predicate RelocateLoses(d: Drive, from: Path, dst: Path, f: RenameFault) {
    MovesOver(d, from, dst, f) && !ArchivedBeside(d, dst, d.files[dst].bytes)
  }

  lemma MovesOverIff(d: Drive, from: Path, dst: Path, how: Relocation, f: RenameFault)
    ensures MovesOver(d, from, dst, f) <==> Relocate(d, from, dst, how, f).1.Ok? && dst != from && dst in d.files
  {
    hide ValidateRel, Directories, Blocked, RelocateHistory, MoveTree;
    if from in d.files { assert from in Subtree(d.files, from); }
  }

  lemma TreeMoveIndex(d: Drive, from: Path, to: Path)
    ensures var mid := MoveTree(d, from, to);
      && mid == d.(files := mid.files) && (Valid(d) ==> Valid(mid)) && (RowsResolve(d) ==> RowsResolve(mid))
  {
    hide Attach, Detach, Subtree;
  }

  lemma FailedKeeps(d: Drive, from: Path, dst: Path, how: Relocation, f: RenameFault)
    ensures Relocate(d, from, dst, how, f).1.Err? ==> Relocate(d, from, dst, how, f).0 == d && Keeps(d, d)
  {
    hide ValidateRel, Occupied, Subtree, Blocked, RelocateHistory, MoveTree, Replaceable, Archived;
  }

  lemma SucceededIs(d: Drive, from: Path, dst: Path, how: Relocation, f: RenameFault)
    requires Relocate(d, from, dst, how, f).1.Ok?
    ensures Relocate(d, from, dst, how, f) == (RelocateHistory(MoveTree(d, from, dst), from, dst, how), Ok(dst))
    ensures ValidateRel(dst) == Ok(dst) && Subtree(d.files, from) != {} && !Blocked(d.files, dst)
    ensures dst in Occupied(d.files) ==> f.CheckFails? && Replaceable(d.files, from, dst)
  {
    hide ValidateRel, Occupied, Subtree, Blocked, RelocateHistory, MoveTree, Replaceable;
  }

  /** A relocation keeps the archive if and only if it replaces no live file unseen whose bytes are nowhere else. */
  lemma RelocateKeeps(d: Drive, from: Path, dst: Path, how: Relocation, f: RenameFault)
    requires Valid(d) && Normal(from)
    ensures Valid(Relocate(d, from, dst, how, f).0)
    ensures Keeps(d, Relocate(d, from, dst, how, f).0) <==> !RelocateLoses(d, from, dst, f)
  {
    hide ValidateRel, Occupied, Subtree, Blocked, RelocateHistory, MoveTree, Archived, ArchivedBeside, Relocate, Valid,
         Keeps, MovesOver;
    MovesOverIff(d, from, dst, how, f);
    FailedKeeps(d, from, dst, how, f);
    if Relocate(d, from, dst, how, f).1.Ok? {
      SucceededIs(d, from, dst, how, f);
      var mid := MoveTree(d, from, dst);
      TreeMoveIndex(d, from, dst);
      RelocateHistoryKeeps(mid, from, dst, how);
      TreeKeepsIff(d, from, dst);
      BlobsAreBeside(d, mid, RelocateHistory(mid, from, dst, how), from, dst);
    }
  }

  lemma TreeKeepsIff(d: Drive, from: Path, dst: Path)
    requires Valid(d) && ValidateRel(dst) == Ok(dst) && (dst in Occupied(d.files) ==> Replaceable(d.files, from, dst))
    ensures Keeps(d, MoveTree(d, from, dst)) <==>
            !(dst != from && dst in d.files && !ArchivedBeside(d, dst, d.files[dst].bytes))
  {
    hide Subtree, MoveTree, Archived, ArchivedBeside, ValidateRel, Directories, Valid;
    if dst == from {
      MoveSelf(d, from);
    } else if dst in Occupied(d.files) {
      MoveOverKeepsIff(d, from, dst);
    } else {
      AcceptedIsNormal(dst);
      NormalStartsWithSlash(dst);
      MoveTreeKeeps(d, from, dst);
    }
  }

  lemma BlobsAreBeside(d: Drive, mid: Drive, d': Drive, from: Path, dst: Path)
    requires mid == d.(files := mid.files) && d' == mid.(rows := d'.rows, blobs := d'.blobs)
    requires Keeps(mid, d') && (forall b :: InBlobs(d'.blobs, b) ==> InBlobs(mid.blobs, b))
    ensures Keeps(d, d') <==> Keeps(d, mid)
  {
    hide InFiles, InTrash, InStranded, InBlobs;
  }

  /** What lies strictly above something live is a directory. */
  lemma AboveLiveIsDirectory(d: Drive, from: Path, dst: Path)
    requires HasPrefix(from, dst + "/") && Subtree(d.files, from) != {} && dst != ""
    ensures dst in Directories(d.files)
  {
    var q :| q in Subtree(d.files, from);
    SubtreeSuffix(d.files, from, q);
    assert from[..|dst| + 1] == dst + "/";
    assert q[..|dst|] == from[..|dst|] == dst && q[|dst|] == from[|dst|] == '/';
  }

  /** A move that succeeds does not go above its own source. */
  lemma NotAbove(d: Drive, from: Path, dst: Path, how: Relocation, f: RenameFault)
    requires Relocate(d, from, dst, how, f).1.Ok? && dst != "" && dst != from
    ensures !Under(dst, from)
  {
    hide ValidateRel, Directories, Subtree, Blocked, RelocateHistory, MoveTree, Relocate;
    SucceededIs(d, from, dst, how, f);
    if HasPrefix(from, dst + "/") { AboveLiveIsDirectory(d, from, dst); }
  }

  lemma SiblingUnder(dir: Path, name: string, other: string)
    requires HasPrefix(Child(dir, other), Child(dir, name) + "/")
    ensures !NoneOf(other, '/')
  {
    var a, b := Child(dir, name) + "/", Child(dir, other);
    assert b[|a| - 1] == a[|a| - 1] == '/';
    assert b[|b| - |other|..] == other;
    assert other[|a| - 1 - (|b| - |other|)] == '/';
  }

  lemma ChildUnder(src: Path, dir: Path, name: string)
    requires src != "/" && NoneOf(name, '/') && src != "" && HasPrefix(Child(dir, name), src + "/")
    ensures src == dir || HasPrefix(dir, src + "/")
  {
    var a, b := src + "/", Child(dir, name);
    var at := |b| - |name|;
    assert b[|src|] == a[|src|] == '/';
    assert forall i :: at <= i < |b| ==> b[i] == name[i - at];
    assert |src| < at;
    assert src == b[..|src|] == a[..|src|];
    if dir != "/" {
      assert b[..|dir|] == dir;
      if |src| < |dir| { assert dir[..|a|] == b[..|a|] == a; }
    }
  }

  /** Whenever a rename or move succeeds, it is onto itself or neither root lies in the other's subtree. */
  lemma RenameIsRelocatable(d: Drive, from: string, toName: string, how: Relocation, f: RenameFault)
    requires Rename(d, from, toName, how, f).1.Ok?
    ensures var dst := Rename(d, from, toName, how, f).1.value;
      && ValidateRel(from).Ok? && (dst != ValidateRel(from).value ==> Relocatable(ValidateRel(from).value, dst))
      && Rename(d, from, toName, how, f) == Relocate(d, ValidateRel(from).value, dst, how, f)
  {
    hide ValidateRel, NameOf, ParentOf, Occupied, Subtree, Blocked, RelocateHistory, MoveTree, ValidName, Replaceable;
    var src := ValidateRel(from).value;
    AcceptedIsNormal(from);
    var dst := JoinPath(ParentOf(src), toName).value;
    SiblingIsRelocatable(d, src, toName, dst, how, f);
  }

  lemma SiblingIsRelocatable(d: Drive, src: Path, toName: string, dst: Path, how: Relocation, f: RenameFault)
    requires Normal(src) && src != "/" && ValidName(toName) && JoinPath(ParentOf(src), toName) == Ok(dst)
    requires Relocate(d, src, dst, how, f).1.Ok?
    ensures dst != src ==> Relocatable(src, dst)
  {
    hide Relocate;
    SucceededIs(d, src, dst, how, f);
    AcceptedIsNormal(dst);
    NormalStartsWithSlash(src);
    NormalStartsWithSlash(dst);
    JoinOfParts(src);
    if HasPrefix(dst, src + "/") { SiblingUnder(ParentOf(src), NameOf(src), toName); }
    if dst != src { NotAbove(d, src, dst, how, f); }
    RootTaken(d, src, dst, how, f);
  }

  /** The root is always there, and only the root can take its place. */
  lemma RootTaken(d: Drive, from: Path, dst: Path, how: Relocation, f: RenameFault)
    requires Relocate(d, from, dst, how, f).1.Ok? && from != "/"
    ensures dst != "/"
  {
    hide ValidateRel, Subtree, Blocked, RelocateHistory, MoveTree, Relocate;
    SucceededIs(d, from, dst, how, f);
    assert "/" in Directories(d.files);
  }

  lemma ChildIsRelocatable(d: Drive, src: Path, dir: Path, dst: Path, how: Relocation, f: RenameFault)
    requires Normal(src) && src != "/" && src != dir && !HasPrefix(dir, src + "/")
    requires dst == Child(dir, NameOf(src)) && Relocate(d, src, dst, how, f).1.Ok?
    ensures dst != src ==> Relocatable(src, dst)
  {
    hide Relocate;
    SucceededIs(d, src, dst, how, f);
    AcceptedIsNormal(dst);
    NormalStartsWithSlash(src);
    NormalStartsWithSlash(dst);
    JoinOfParts(src);
    if HasPrefix(dst, src + "/") { ChildUnder(src, dir, NameOf(src)); }
    if dst != src { NotAbove(d, src, dst, how, f); }
    RootTaken(d, src, dst, how, f);
  }

  lemma MoveIsRelocatable(d: Drive, from: string, destDir: string, how: Relocation, f: RenameFault)
    requires Move(d, from, destDir, how, f).1.Ok?
    ensures var dst := Move(d, from, destDir, how, f).1.value;
      && ValidateRel(from).Ok? && (dst != ValidateRel(from).value ==> Relocatable(ValidateRel(from).value, dst))
      && Move(d, from, destDir, how, f) == Relocate(d, ValidateRel(from).value, dst, how, f)
  {
    hide ValidateRel, NameOf, Occupied, Subtree, Blocked, RelocateHistory, MoveTree, Replaceable;
    var src, dir := ValidateRel(from).value, ValidateRel(destDir).value;
    AcceptedIsNormal(from);
    ChildIsRelocatable(d, src, dir, Child(dir, NameOf(src)), how, f);
  }

  lemma RelocateRowsIff(d: Drive, from: Path, dst: Path, how: Relocation, f: RenameFault)
    requires Valid(d) && RowsResolve(d) && Relocatable(from, dst) && Relocate(d, from, dst, how, f).1.Ok?
    requires Attempts(d, from, how.moves)
    ensures !how.indexOk ==> RowsResolve(Relocate(d, from, dst, how, f).0)
    ensures how.indexOk && (CaseExact(d, from) || !LeftBehind(d, from, how.moves) || !EqFold(dst, from)) ==>
              (RowsResolve(Relocate(d, from, dst, how, f).0) <==>
               CaseExact(d, from) && !LeftBehind(d, from, how.moves))
  {
    hide ValidateRel, Occupied, Subtree, Blocked, RelocateHistory, MoveTree, Selected, Taken, EqFold;
    TreeMoveIndex(d, from, dst);
    var mid := MoveTree(d, from, dst);
    assert CaseExact(mid, from) == CaseExact(d, from);
    assert LeftBehind(mid, from, how.moves) == LeftBehind(d, from, how.moves);
    if how.indexOk && (CaseExact(d, from) || !LeftBehind(d, from, how.moves) || !EqFold(dst, from)) {
      RelocateKeepsRowsIff(mid, from, dst, how);
    }
    UnindexedRelocation(mid, from, dst, how);
  }

  /** Each selected row names the place the directory moves take its blob to. */
  predicate AllMeet(d: Drive, from: Path, dst: Path, moves: seq<DirMove>) {
    forall i :: i in d.rows && Selected(from, d.rows[i].path) ==> Meets(d.rows[i], moves, from, dst)
  }

  lemma RelocateRowsMet(d: Drive, from: Path, dst: Path, how: Relocation, f: RenameFault)
    requires Valid(d) && RowsResolve(d) && Relocatable(from, dst) && Relocate(d, from, dst, how, f).1.Ok?
    requires Attempts(d, from, how.moves)
    ensures RowsResolve(Relocate(d, from, dst, how, f).0) <==> !how.indexOk || AllMeet(d, from, dst, how.moves)
  {
    hide ValidateRel, Occupied, Subtree, Blocked, RelocateHistory, MoveTree, Selected, Meets;
    TreeMoveIndex(d, from, dst);
    var mid := MoveTree(d, from, dst);
    if how.indexOk { RelocationResolvesIffMet(mid, from, dst, how); }
    UnindexedRelocation(mid, from, dst, how);
  }

  lemma UnindexedRelocation(d: Drive, oldRoot: Path, newRoot: Path, how: Relocation)
    ensures !how.indexOk ==> RelocateHistory(d, oldRoot, newRoot, how) == d
  {
  }
}
