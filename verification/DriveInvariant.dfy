/** What every handler keeps: the class invariant of the drive, and where each version blob goes. */
module DriveInvariant {
  import opened DriveModel
  import opened LikePattern
  import opened LogicalPath
  import opened Strings
  import opened Wrappers

  /** Every blob holds what was snapshotted under its id, and an id names one blob. */
  predicate SoundBlobs(blobs: map<BlobKey, Bytes>, issued: map<Id, Bytes>) {
    && (forall k :: k in blobs ==> k.vid in issued && blobs[k] == issued[k.vid])
    && (forall j, k :: j in blobs && k in blobs && j.vid == k.vid ==> j == k)
  }

  predicate SoundRows(rows: map<nat, Row>, nextRow: nat, issued: map<Id, Bytes>) {
    && (forall i :: i in rows ==> i < nextRow && rows[i].vid in issued)
    && (forall i, j :: i in rows && j in rows && rows[i].vid == rows[j].vid ==> i == j)
  }

  predicate DistinctRefs(refs: seq<Ref>) {
    forall i, j :: 0 <= i < j < |refs| ==> refs[i].vid != refs[j].vid
  }

  predicate PayloadShape(payload: map<string, File>) {
    forall s :: s in payload ==> s == "" || s[0] == '/'
  }

  predicate SoundTrash(trash: map<Id, TrashItem>) {
    forall id :: id in trash ==> DistinctRefs(trash[id].versions) && PayloadShape(trash[id].payload)
  }

  /** Kept by every handler, whatever its arguments and faults. */
  predicate Valid(d: Drive) {
    SoundBlobs(d.blobs, d.issued) && SoundRows(d.rows, d.nextRow, d.issued) && SoundTrash(d.trash)
  }

  /** Every index row resolves to the bytes snapshotted under its version id. */
  predicate RowsResolve(d: Drive) {
    forall i :: i in d.rows ==>
      BlobKey(d.rows[i].path, d.rows[i].vid) in d.blobs && d.rows[i].vid in d.issued &&
      d.blobs[BlobKey(d.rows[i].path, d.rows[i].vid)] == d.issued[d.rows[i].vid]
  }

  /** Live files are named by clean paths below the root. */
  ghost predicate Tidy(d: Drive) {
    forall p :: p in d.files ==> Rel(p)
  }

  /** Every row the index selects for `root` is below it case and all. */
  predicate CaseExact(d: Drive, root: Path) {
    forall i :: i in d.rows && Selected(root, d.rows[i].path) ==> Under(root, d.rows[i].path)
  }

  predicate Separate(a: Path, b: Path) {
    !Under(a, b) && !Under(b, a)
  }

  lemma UnderLinear(a: Path, b: Path, p: Path)
    requires Under(a, p) && Under(b, p)
    ensures Under(a, b) || Under(b, a)
  {
    if p != a && p != b {
      if |a| < |b| {
        assert b[..|a| + 1] == p[..|a| + 1] == a + "/";
      } else if |b| < |a| {
        assert a[..|b| + 1] == p[..|b| + 1] == b + "/";
      } else {
        assert a == p[..|a|] == b;
      }
    }
  }

  // ---- where the directory moves take a blob ----

  /** Where one directory move takes a blob. */
  function Moved(k: BlobKey, m: DirMove, oldRoot: Path, newRoot: Path): BlobKey {
    if k.path == m.path && k.vid !in m.left then BlobKey(GoRewrite(oldRoot, newRoot, k.path), k.vid) else k
  }

  function Track(k: BlobKey, moves: seq<DirMove>, oldRoot: Path, newRoot: Path): (to: BlobKey)
    ensures to.vid == k.vid
    decreases |moves|
  {
    if moves == [] then k else Track(Moved(k, moves[0], oldRoot, newRoot), moves[1..], oldRoot, newRoot)
  }

  lemma MovedIsThere(blobs: map<BlobKey, Bytes>, m: DirMove, oldRoot: Path, newRoot: Path, k: BlobKey)
    requires k in blobs
    ensures Moved(k, m, oldRoot, newRoot) in MoveBlobDir(blobs, m.path, GoRewrite(oldRoot, newRoot, m.path), m.left)
  {
    hide GoRewrite;
    if k.path == m.path { assert BlobKey(m.path, k.vid) == k; }
  }

  lemma MoveBlobDirSound(blobs: map<BlobKey, Bytes>, issued: map<Id, Bytes>, m: DirMove, oldRoot: Path, newRoot: Path)
    requires SoundBlobs(blobs, issued)
    ensures var out := MoveBlobDir(blobs, m.path, GoRewrite(oldRoot, newRoot, m.path), m.left);
      SoundBlobs(out, issued) && forall k :: k in blobs ==> Moved(k, m, oldRoot, newRoot) in out
  {
    hide GoRewrite, MoveBlobDir;
    var out := MoveBlobDir(blobs, m.path, GoRewrite(oldRoot, newRoot, m.path), m.left);
    forall k | k in out
      ensures exists j :: j in blobs && j.vid == k.vid && k == Moved(j, m, oldRoot, newRoot) && out[k] == blobs[j]
    {
      var j := MoveBlobDirSource(blobs, m, oldRoot, newRoot, k);
    }
    forall k | k in blobs ensures Moved(k, m, oldRoot, newRoot) in out { MovedIsThere(blobs, m, oldRoot, newRoot, k); }
  }

  /** A directory move creates nothing. */
  lemma MoveBlobDirSource(blobs: map<BlobKey, Bytes>, m: DirMove, oldRoot: Path, newRoot: Path, k: BlobKey)
    returns (j: BlobKey)
    requires k in MoveBlobDir(blobs, m.path, GoRewrite(oldRoot, newRoot, m.path), m.left)
    ensures j in blobs && k == Moved(j, m, oldRoot, newRoot)
    ensures MoveBlobDir(blobs, m.path, GoRewrite(oldRoot, newRoot, m.path), m.left)[k] == blobs[j]
  {
    hide GoRewrite;
    var to := GoRewrite(oldRoot, newRoot, m.path);
    j := if k.path == to && BlobKey(m.path, k.vid) in blobs && k.vid !in m.left then BlobKey(m.path, k.vid) else k;
  }

  lemma {:induction false} MoveBlobDirsTrack(
    blobs: map<BlobKey, Bytes>, issued: map<Id, Bytes>, moves: seq<DirMove>, oldRoot: Path, newRoot: Path)
    requires SoundBlobs(blobs, issued)
    ensures SoundBlobs(MoveBlobDirs(blobs, moves, oldRoot, newRoot), issued)
    ensures forall k :: k in blobs ==>
              Track(k, moves, oldRoot, newRoot) in MoveBlobDirs(blobs, moves, oldRoot, newRoot)
    decreases |moves|
  {
    hide SoundBlobs, MoveBlobDir, GoRewrite;
    if moves != [] {
      var m := moves[0];
      var next := MoveBlobDir(blobs, m.path, GoRewrite(oldRoot, newRoot, m.path), m.left);
      MoveBlobDirSound(blobs, issued, m, oldRoot, newRoot);
      MoveBlobDirsTrack(next, issued, moves[1..], oldRoot, newRoot);
      forall k | k in blobs
        ensures Track(k, moves, oldRoot, newRoot) in MoveBlobDirs(blobs, moves, oldRoot, newRoot)
      {
        assert Moved(k, m, oldRoot, newRoot) in next;
      }
    }
  }

  /** Each blob after the moves is one from before, with its bytes. */
  lemma {:induction false} MoveBlobDirsSource(
    blobs: map<BlobKey, Bytes>, moves: seq<DirMove>, oldRoot: Path, newRoot: Path, k: BlobKey) returns (j: BlobKey)
    requires k in MoveBlobDirs(blobs, moves, oldRoot, newRoot)
    ensures j in blobs && k == Track(j, moves, oldRoot, newRoot)
    ensures MoveBlobDirs(blobs, moves, oldRoot, newRoot)[k] == blobs[j]
    decreases |moves|
  {
    hide MoveBlobDir, GoRewrite;
    if moves == [] {
      j := k;
    } else {
      var m := moves[0];
      var next := MoveBlobDir(blobs, m.path, GoRewrite(oldRoot, newRoot, m.path), m.left);
      var i := MoveBlobDirsSource(next, moves[1..], oldRoot, newRoot, k);
      j := MoveBlobDirSource(blobs, m, oldRoot, newRoot, i);
    }
  }

  /** Some attempt on the blob's directory took the blob along. */
  predicate Taken(k: BlobKey, moves: seq<DirMove>) {
    exists m :: m in moves && m.path == k.path && k.vid !in m.left
  }

  lemma {:induction false} UntakenStays(k: BlobKey, moves: seq<DirMove>, oldRoot: Path, newRoot: Path)
    requires !Taken(k, moves)
    ensures Track(k, moves, oldRoot, newRoot) == k
    decreases |moves|
  {
    if moves != [] {
      assert moves[0] in moves;
      assert forall m :: m in moves[1..] ==> m in moves;
      UntakenStays(k, moves[1..], oldRoot, newRoot);
    }
  }

  /** Below the old root case and all, each blob moves once or not at all, whatever the order. */
  lemma {:induction false} TrackExact(k: BlobKey, moves: seq<DirMove>, oldRoot: Path, newRoot: Path)
    requires Separate(oldRoot, newRoot)
    requires forall m :: m in moves ==> Under(oldRoot, m.path)
    ensures Track(k, moves, oldRoot, newRoot) ==
            if Taken(k, moves) then BlobKey(GoRewrite(oldRoot, newRoot, k.path), k.vid) else k
    decreases |moves|
  {
    hide Under, GoRewrite;
    if !Taken(k, moves) {
      UntakenStays(k, moves, oldRoot, newRoot);
    } else if Moved(k, moves[0], oldRoot, newRoot) == k && !(k.path == moves[0].path && k.vid !in moves[0].left) {
      assert Taken(k, moves[1..]) by {
        var m :| m in moves && m.path == k.path && k.vid !in m.left;
        assert m in moves[1..];
      }
      TrackExact(k, moves[1..], oldRoot, newRoot);
    } else {
      var to := Moved(k, moves[0], oldRoot, newRoot);
      assert moves[0] in moves;
      RewrittenIsElsewhere(oldRoot, newRoot, k.path);
      assert !Taken(to, moves[1..]);
      UntakenStays(to, moves[1..], oldRoot, newRoot);
    }
  }

  lemma RewrittenIsElsewhere(oldRoot: Path, newRoot: Path, path: Path)
    requires Separate(oldRoot, newRoot) && Under(oldRoot, path)
    ensures !Under(oldRoot, GoRewrite(oldRoot, newRoot, path))
  {
    var to := GoRewrite(oldRoot, newRoot, path);
    RewriteIsUnder(oldRoot, newRoot, path);
    if Under(oldRoot, to) { UnderLinear(oldRoot, newRoot, to); }
  }

  lemma RewriteIsUnder(oldRoot: Path, newRoot: Path, path: Path)
    requires Under(oldRoot, path)
    ensures Under(newRoot, GoRewrite(oldRoot, newRoot, path))
    ensures GoRewrite(oldRoot, newRoot, path) == newRoot + path[|oldRoot|..]
    ensures path == oldRoot + path[|oldRoot|..]
  {
    if path == oldRoot {
      assert newRoot + "" == newRoot;
    } else {
      assert path[|oldRoot|..][0] == (oldRoot + "/")[|oldRoot|];
      assert path[..|oldRoot|] == (oldRoot + "/")[..|oldRoot|];
      assert path[|oldRoot|..] == "/" + path[|oldRoot| + 1..];
    }
  }

  /**
   A directory that is selected but not below the old root is moved to a path
   longer than the one its rows are given, and never comes back.
   */
  lemma {:induction false} TrackAstray(k: BlobKey, start: Path, moves: seq<DirMove>, oldRoot: Path, newRoot: Path)
    requires Separate(oldRoot, newRoot) && oldRoot != "" && newRoot != "" && newRoot[0] == '/'
    requires start != "" && start[0] == '/' && !HasPrefix(start, oldRoot)
    requires forall m :: m in moves ==> Selected(oldRoot, m.path)
    requires k.path == start || (|k.path| >= |newRoot| + |start| && HasPrefix(k.path, newRoot + "/"))
    ensures var out := Track(k, moves, oldRoot, newRoot);
      (out == k && k.path == start && !Taken(k, moves)) ||
      (|out.path| >= |newRoot| + |start| && HasPrefix(out.path, newRoot + "/"))
    decreases |moves|
  {
    hide Selected, Under, Separate;
    if moves != [] {
      var m := moves[0];
      assert m in moves && forall x :: x in moves[1..] ==> x in moves;
      if k.path == m.path && k.vid !in m.left { AstrayStep(k.path, start, oldRoot, newRoot); }
      TrackAstray(Moved(k, m, oldRoot, newRoot), start, moves[1..], oldRoot, newRoot);
    }
  }

  lemma AstrayStep(path: Path, start: Path, oldRoot: Path, newRoot: Path)
    requires Separate(oldRoot, newRoot) && oldRoot != "" && newRoot != "" && newRoot[0] == '/'
    requires start != "" && start[0] == '/' && !HasPrefix(start, oldRoot) && Selected(oldRoot, path)
    requires path == start || (|path| >= |newRoot| + |start| && HasPrefix(path, newRoot + "/"))
    ensures var to := GoRewrite(oldRoot, newRoot, path);
      |to| >= |newRoot| + |start| && HasPrefix(to, newRoot + "/")
  {
    hide Selected;
    if path == start {
      StartsWithSlash(newRoot, start);
    } else if HasPrefix(path, oldRoot) {
      SelectedPrefixIsUnder(oldRoot, path);
      UnderLinear(oldRoot, newRoot, path);
    } else {
      assert path[0] == (newRoot + "/")[0];
      StartsWithSlash(newRoot, path);
    }
  }

  lemma SelectedPrefixIsUnder(root: Path, path: Path)
    requires Selected(root, path)
    ensures HasPrefix(path, root) ==> Under(root, path)
  {
    SubtreeTest(root, path);
    if path != root && HasPrefix(path, root) {
      assert path == root + path[|root|..];
      assert path[..|root| + 1] == root + "/";
    }
  }

  lemma StartsWithSlash(newRoot: Path, path: Path)
    requires path != "" && path[0] == '/'
    ensures HasPrefix(newRoot + path, newRoot + "/")
  {
    assert path == "/" + path[1..];
    assert newRoot + path == newRoot + "/" + path[1..];
  }
}
