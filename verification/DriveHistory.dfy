/** Version history across rename and move: it follows the file, exactly. */
module DriveHistory {
  import opened DriveInvariant
  import opened DriveModel
  import opened LikePattern
  import opened LogicalPath
  import opened Strings
  import opened Wrappers

  predicate Relocatable(oldRoot: Path, newRoot: Path) {
    && Separate(oldRoot, newRoot) && oldRoot != "/" && newRoot != "/"
    && oldRoot != "" && oldRoot[0] == '/' && newRoot != "" && newRoot[0] == '/'
  }

  function KeyOf(row: Row): BlobKey {
    BlobKey(row.path, row.vid)
  }

  /** Directory moves are attempted only on paths the index listed. */
  ghost predicate Attempts(d: Drive, oldRoot: Path, moves: seq<DirMove>) {
    forall m :: m in moves ==> m.path in OldPaths(d, oldRoot)
  }

  /** The blob of some selected row was not taken along by any attempt. */
  predicate LeftBehind(d: Drive, oldRoot: Path, moves: seq<DirMove>) {
    exists i :: i in d.rows && Selected(oldRoot, d.rows[i].path) && !Taken(KeyOf(d.rows[i]), moves)
  }

  lemma OldPathIsSelected(d: Drive, oldRoot: Path, p: Path)
    requires p in OldPaths(d, oldRoot)
    ensures exists i :: i in d.rows && Selected(oldRoot, d.rows[i].path) && d.rows[i].path == p
  {
    hide Selected;
  }

  lemma AttemptsAreSelected(d: Drive, oldRoot: Path, moves: seq<DirMove>)
    requires Attempts(d, oldRoot, moves)
    ensures forall m :: m in moves ==> Selected(oldRoot, m.path)
    ensures CaseExact(d, oldRoot) ==> forall m :: m in moves ==> Under(oldRoot, m.path)
  {
    hide Selected, Under, OldPaths;
    forall m | m in moves ensures Selected(oldRoot, m.path) && (CaseExact(d, oldRoot) ==> Under(oldRoot, m.path)) {
      OldPathIsSelected(d, oldRoot, m.path);
    }
  }

  /** Where the directory moves take the blob of `row` is where the index says it is. */
  predicate Meets(row: Row, moves: seq<DirMove>, oldRoot: Path, newRoot: Path) {
    Track(KeyOf(row), moves, oldRoot, newRoot) == BlobKey(SqlRewrite(oldRoot, newRoot, row.path), row.vid)
  }

  /** A relocation keeps rows resolving exactly when each selected row and its blob meet. */
  lemma RelocationResolvesIffMet(d: Drive, oldRoot: Path, newRoot: Path, how: Relocation)
    requires Valid(d) && RowsResolve(d) && Relocatable(oldRoot, newRoot) && Attempts(d, oldRoot, how.moves)
    requires how.indexOk
    ensures RowsResolve(RelocateHistory(d, oldRoot, newRoot, how)) <==>
            forall i :: i in d.rows && Selected(oldRoot, d.rows[i].path) ==>
              Meets(d.rows[i], how.moves, oldRoot, newRoot)
  {
    hide MoveBlobDirs, Selected, GoRewrite, SqlRewrite, HasPrefix, Attempts, Track;
    var d' := RelocateHistory(d, oldRoot, newRoot, how);
    MoveBlobDirsTrack(d.blobs, d.issued, how.moves, oldRoot, newRoot);
    forall i | i in d.rows
      ensures KeyOf(d'.rows[i]) in d'.blobs <==>
              (Selected(oldRoot, d.rows[i].path) ==> Meets(d.rows[i], how.moves, oldRoot, newRoot))
    {
      var k := KeyOf(d.rows[i]);
      assert k in d.blobs && Track(k, how.moves, oldRoot, newRoot) in d'.blobs;
      if !Selected(oldRoot, d.rows[i].path) { UnselectedStays(d, oldRoot, newRoot, how.moves, i); }
    }
  }

  /** A row below the old root, case and all, meets its blob just when the blob was taken along. */
  lemma ExactRowMeetsIff(d: Drive, oldRoot: Path, newRoot: Path, moves: seq<DirMove>, i: nat)
    requires Relocatable(oldRoot, newRoot) && Attempts(d, oldRoot, moves)
    requires CaseExact(d, oldRoot) && i in d.rows && Selected(oldRoot, d.rows[i].path)
    ensures Meets(d.rows[i], moves, oldRoot, newRoot) <==> Taken(KeyOf(d.rows[i]), moves)
  {
    hide Selected, GoRewrite, SqlRewrite, Track, Taken, Attempts;
    var k := KeyOf(d.rows[i]);
    AttemptsAreSelected(d, oldRoot, moves);
    TrackExact(k, moves, oldRoot, newRoot);
    RewritesAgree(oldRoot, newRoot, k.path);
    RewrittenIsElsewhere(oldRoot, newRoot, k.path);
  }

  lemma SameTail(a: string, b: string, s: string)
    ensures a + s == b + s ==> a == b
  {
    if a + s == b + s { assert a == (a + s)[..|a|] == (b + s)[..|a|] == b; }
  }

  /**
   A row that differs from the old root in case ends up apart from its blob, if
   that was taken along or the new root is more than another case of the old.
   */
  lemma InexactRowMisses(d: Drive, oldRoot: Path, newRoot: Path, moves: seq<DirMove>, i: nat)
    requires Relocatable(oldRoot, newRoot) && Attempts(d, oldRoot, moves)
    requires i in d.rows && Selected(oldRoot, d.rows[i].path) && !Under(oldRoot, d.rows[i].path)
    requires Taken(KeyOf(d.rows[i]), moves) || !EqFold(newRoot, oldRoot)
    ensures !Meets(d.rows[i], moves, oldRoot, newRoot)
  {
    hide Taken, Attempts, Track;
    var k := KeyOf(d.rows[i]);
    AttemptsAreSelected(d, oldRoot, moves);
    SubtreeTest(oldRoot, k.path);
    if Taken(k, moves) {
      assert k.path[..|oldRoot|][0] == k.path[0];
      SelectedPrefixIsUnder(oldRoot, k.path);
      TrackAstray(k, k.path, moves, oldRoot, newRoot);
    } else {
      UntakenStays(k, moves, oldRoot, newRoot);
      var s := k.path[|oldRoot|..];
      assert k.path == k.path[..|oldRoot|] + s;
      SameTail(newRoot, k.path[..|oldRoot|], s);
    }
  }

  /**
   A relocation whose index update commits keeps every row resolving if and only
   if no selected row differs from the old root in case - LIKE folds case, the
   blob rewrite does not - and no blob of a selected row is left behind. (Where
   both go wrong in a relocation that only changes case, they can make up for each
   other: there `RelocationResolvesIffMet` decides.)
   */
  lemma RelocateKeepsRowsIff(d: Drive, oldRoot: Path, newRoot: Path, how: Relocation)
    requires Valid(d) && RowsResolve(d) && Relocatable(oldRoot, newRoot) && Attempts(d, oldRoot, how.moves)
    requires CaseExact(d, oldRoot) || !LeftBehind(d, oldRoot, how.moves) || !EqFold(newRoot, oldRoot)
    requires how.indexOk
    ensures RowsResolve(RelocateHistory(d, oldRoot, newRoot, how)) <==>
            CaseExact(d, oldRoot) && !LeftBehind(d, oldRoot, how.moves)
  {
    hide RelocateHistory, Selected, Under, Attempts, Valid, RowsResolve, Relocatable, Taken, Meets, EqFold;
    RelocationResolvesIffMet(d, oldRoot, newRoot, how);
    if CaseExact(d, oldRoot) {
      forall i | i in d.rows && Selected(oldRoot, d.rows[i].path)
        ensures Meets(d.rows[i], how.moves, oldRoot, newRoot) <==> Taken(KeyOf(d.rows[i]), how.moves)
      {
        ExactRowMeetsIff(d, oldRoot, newRoot, how.moves, i);
      }
    } else {
      var i :| i in d.rows && Selected(oldRoot, d.rows[i].path) && !Under(oldRoot, d.rows[i].path);
      InexactRowMisses(d, oldRoot, newRoot, how.moves, i);
    }
  }

  lemma UnselectedStays(d: Drive, oldRoot: Path, newRoot: Path, moves: seq<DirMove>, i: nat)
    requires Attempts(d, oldRoot, moves) && i in d.rows && !Selected(oldRoot, d.rows[i].path)
    ensures Track(KeyOf(d.rows[i]), moves, oldRoot, newRoot) == KeyOf(d.rows[i])
  {
    hide Selected;
    AttemptsAreSelected(d, oldRoot, moves);
    UntakenStays(KeyOf(d.rows[i]), moves, oldRoot, newRoot);
  }

  /** On a case-exact index the order of the directory moves makes no difference to any blob. */
  lemma MoveOrderIsIrrelevant(d: Drive, oldRoot: Path, newRoot: Path, a: seq<DirMove>, b: seq<DirMove>)
    requires Relocatable(oldRoot, newRoot) && CaseExact(d, oldRoot) && Valid(d)
    requires Attempts(d, oldRoot, a) && forall m :: m in a <==> m in b
    ensures MoveBlobDirs(d.blobs, a, oldRoot, newRoot) == MoveBlobDirs(d.blobs, b, oldRoot, newRoot)
  {
    hide MoveBlobDirs, GoRewrite, CaseExact;
    AttemptsAreSelected(d, oldRoot, a);
    SameTracksSameBlobs(d, oldRoot, newRoot, a, b);
    SameTracksSameBlobs(d, oldRoot, newRoot, b, a);
  }

  lemma SameTracksSameBlobs(d: Drive, oldRoot: Path, newRoot: Path, a: seq<DirMove>, b: seq<DirMove>)
    requires Separate(oldRoot, newRoot) && Valid(d) && forall m :: m in a <==> m in b
    requires forall m :: m in a ==> Under(oldRoot, m.path)
    ensures var x, y := MoveBlobDirs(d.blobs, a, oldRoot, newRoot), MoveBlobDirs(d.blobs, b, oldRoot, newRoot);
      forall k :: k in x ==> k in y && y[k] == x[k]
  {
    hide MoveBlobDirs, GoRewrite, Under;
    var x, y := MoveBlobDirs(d.blobs, a, oldRoot, newRoot), MoveBlobDirs(d.blobs, b, oldRoot, newRoot);
    MoveBlobDirsTrack(d.blobs, d.issued, a, oldRoot, newRoot);
    MoveBlobDirsTrack(d.blobs, d.issued, b, oldRoot, newRoot);
    forall k | k in x ensures k in y && y[k] == x[k] {
      var j := MoveBlobDirsSource(d.blobs, a, oldRoot, newRoot, k);
      TrackExact(j, a, oldRoot, newRoot);
      TrackExact(j, b, oldRoot, newRoot);
    }
  }

  /** The rows listed at one path. */
  function RowsAt(d: Drive, path: Path): set<nat> {
    set i | i in d.rows && d.rows[i].path == path
  }

  /**
   History follows the file: for every suffix, the rows at the new path are the
   rows formerly at the old path together with those already there; none stay
   behind, and every other path keeps its rows.
   */
  lemma HistoryFollows(d: Drive, oldRoot: Path, newRoot: Path, how: Relocation)
    requires Relocatable(oldRoot, newRoot) && CaseExact(d, oldRoot) && how.indexOk
    ensures var d' := RelocateHistory(d, oldRoot, newRoot, how);
      && (forall s: string :: s == "" || s[0] == '/' ==>
            RowsAt(d', newRoot + s) == RowsAt(d, oldRoot + s) + RowsAt(d, newRoot + s) &&
            RowsAt(d', oldRoot + s) == {})
      && (forall p: Path :: !Under(oldRoot, p) && !Under(newRoot, p) ==> RowsAt(d', p) == RowsAt(d, p))
      && (forall i :: i in d.rows ==> i in d'.rows && d'.rows[i].(path := "") == d.rows[i].(path := ""))
  {
    var d' := RelocateHistory(d, oldRoot, newRoot, how);
    assert forall i :: i in d.rows <==> i in d'.rows;
    forall s: string | s == "" || s[0] == '/'
      ensures RowsAt(d', newRoot + s) == RowsAt(d, oldRoot + s) + RowsAt(d, newRoot + s)
      ensures RowsAt(d', oldRoot + s) == {}
    {
      SuffixUnder(oldRoot, s);
      SuffixUnder(newRoot, s);
      forall i | i in d.rows
        ensures d'.rows[i].path == newRoot + s <==> d.rows[i].path == oldRoot + s || d.rows[i].path == newRoot + s
        ensures d'.rows[i].path != oldRoot + s
      {
        RowPathAfter(d, oldRoot, newRoot, how, i, s);
      }
    }
    forall p: Path | !Under(oldRoot, p) && !Under(newRoot, p) ensures RowsAt(d', p) == RowsAt(d, p) {
      forall i | i in d.rows ensures d'.rows[i].path == p <==> d.rows[i].path == p {
        RowPathAfter(d, oldRoot, newRoot, how, i, "");
      }
    }
  }

  lemma SuffixUnder(root: Path, s: string)
    requires s == "" || s[0] == '/'
    ensures Under(root, root + s)
  {
    if s == "" {
      assert root + s == root;
    } else {
      assert s == "/" + s[1..];
      assert root + s == root + "/" + s[1..];
    }
  }

  lemma RowPathAfter(d: Drive, oldRoot: Path, newRoot: Path, how: Relocation, i: nat, s: string)
    requires Relocatable(oldRoot, newRoot) && CaseExact(d, oldRoot) && i in d.rows && how.indexOk
    requires s == "" || s[0] == '/'
    ensures var p, p' := d.rows[i].path, RelocateHistory(d, oldRoot, newRoot, how).rows[i].path;
      && (if Under(oldRoot, p)
          then p' == newRoot + p[|oldRoot|..] && p == oldRoot + p[|oldRoot|..] && Under(newRoot, p')
          else p' == p)
      && (p' == newRoot + s <==> p == oldRoot + s || p == newRoot + s)
      && p' != oldRoot + s
  {
    var p := d.rows[i].path;
    SuffixUnder(oldRoot, s);
    SuffixUnder(newRoot, s);
    if Under(oldRoot, p) {
      UnderIsSelected(oldRoot, p);
      RewriteIsUnder(oldRoot, newRoot, p);
      RewritesAgree(oldRoot, newRoot, p);
      if p == newRoot + s { UnderLinear(oldRoot, newRoot, p); }
      var p' := newRoot + p[|oldRoot|..];
      if p' == oldRoot + s { UnderLinear(oldRoot, newRoot, p'); }
      if p' == newRoot + s {
        assert p[|oldRoot|..] == p'[|newRoot|..] == s;
      }
    }
  }
}
