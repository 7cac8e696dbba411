/** Delete, restore, purge and version restore: what comes back, and whose history moves. */
module DriveTrash {
  import opened DriveArchive
  import opened DriveHistory
  import opened DriveInvariant
  import opened DriveModel
  import opened DriveSteps
  import opened LikePattern
  import opened LogicalPath
  import opened Strings
  import opened Wrappers

  // ---- delete ----

  lemma {:induction false} RefsUnderAre(rows: map<nat, Row>, root: Path, n: nat)
    ensures forall r :: r in RefsUnder(rows, root, n) <==>
              exists i :: 0 <= i < n && i in rows && Selected(root, rows[i].path) && r == RefOf(rows[i])
  {
    if n > 0 {
      RefsUnderAre(rows, root, n - 1);
    }
  }

  lemma {:induction false} RefsUnderDistinct(rows: map<nat, Row>, root: Path, n: nat)
    requires forall i, j :: i in rows && j in rows && rows[i].vid == rows[j].vid ==> i == j
    ensures DistinctRefs(RefsUnder(rows, root, n))
  {
    if n > 0 {
      RefsUnderDistinct(rows, root, n - 1);
      RefsUnderAre(rows, root, n - 1);
      var refs := RefsUnder(rows, root, n - 1);
      forall k | 0 <= k < |refs| && n - 1 in rows ensures refs[k].vid != rows[n - 1].vid {
        assert refs[k] in refs;
      }
    }
  }

  lemma TrashPathKeeps(d: Drive, path: Path, id: Id, owned: seq<Ref>, now: int)
    requires Valid(d) && id !in d.trash && DistinctRefs(owned)
    ensures var d' := TrashPath(d, path, id, owned, now);
      Valid(d') && Keeps(d, d')
  {
    hide Subtree, Detach, TrimPrefix, HasPrefix;
    var d' := TrashPath(d, path, id, owned, now);
    DetachTakes(d.files, path);
    forall b | InFiles(d.files, b) ensures Archived(d', b) {
      var q :| q in d.files && d.files[q].bytes == b;
      if q in Subtree(d.files, path) {
        assert d'.trash[id].payload[TrimPrefix(q, path)].bytes == b;
      } else {
        assert q in d'.files && d'.files[q].bytes == b;
      }
    }
    forall b | InTrash(d.trash, b) ensures InTrash(d'.trash, b) {
      var i, s :| i in d.trash && s in d.trash[i].payload && d.trash[i].payload[s].bytes == b;
      assert i in d'.trash && d'.trash[i] == d.trash[i];
    }
  }

  lemma StrandPathKeeps(d: Drive, path: Path, id: Id)
    requires Valid(d) && id !in d.stranded
    ensures var d' := StrandPath(d, path, id);
      Valid(d') && Keeps(d, d')
  {
    hide Subtree, Detach, TrimPrefix, HasPrefix;
    var d' := StrandPath(d, path, id);
    DetachTakes(d.files, path);
    forall b | InFiles(d.files, b) ensures Archived(d', b) {
      var q :| q in d.files && d.files[q].bytes == b;
      if q in Subtree(d.files, path) {
        assert d'.stranded[id][TrimPrefix(q, path)].bytes == b;
      } else {
        assert q in d'.files && d'.files[q].bytes == b;
      }
    }
    forall b | InStranded(d.stranded, b) ensures InStranded(d'.stranded, b) {
      var i, s :| i in d.stranded && s in d.stranded[i] && d.stranded[i][s].bytes == b;
      assert i in d'.stranded && d'.stranded[i] == d.stranded[i];
    }
  }

  /** A delete keeps all content and every row resolving, also when it strands its payload. */
  lemma DeleteKeeps(d: Drive, raw: string, id: Id, now: int, queryOk: bool, f: DeleteFault)
    requires Valid(d)
    ensures var d' := Delete(d, raw, id, now, queryOk, f).0;
      Valid(d') && Keeps(d, d') && (RowsResolve(d) ==> RowsResolve(d'))
  {
    hide ValidateRel, Subtree, TrashPath, StrandPath, Archived, Valid, RefsUnder, RowsResolve;
    var path := MustValidate(raw);
    if id !in d.trash && id !in d.stranded {
      ValidIndex(d);
      VersionsDistinct(d, path);
      TrashPathKeeps(d, path, id, if queryOk then VersionsUnder(d, path) else [], now);
      StrandPathKeeps(d, path, id);
      TrashedIndex(d, path, id, if queryOk then VersionsUnder(d, path) else [], now);
    }
    KeepsSelf(d);
  }

  lemma KeepsSelf(d: Drive)
    ensures Keeps(d, d)
  {
    hide Archived;
  }

  lemma VersionsDistinct(d: Drive, path: Path)
    requires Valid(d)
    ensures DistinctRefs(VersionsUnder(d, path)) && DistinctRefs([])
  {
    RefsUnderDistinct(d.rows, path, d.nextRow);
  }

  lemma TrashedIndex(d: Drive, path: Path, id: Id, owned: seq<Ref>, now: int)
    ensures RowsResolve(d) ==> RowsResolve(TrashPath(d, path, id, owned, now)) && RowsResolve(StrandPath(d, path, id))
  {
    hide Subtree, Detach;
  }

  /** The record a delete leaves: exactly the index rows selected for the path, each once. */
  lemma DeleteRecordsOwned(d: Drive, raw: string, id: Id, now: int, f: DeleteFault)
    requires Valid(d) && Delete(d, raw, id, now, true, f).1.Ok?
    ensures var (d', _) := Delete(d, raw, id, now, true, f);
      && id in d'.trash && DistinctRefs(d'.trash[id].versions)
      && (forall i :: i in d.rows ==>
            (RefOf(d.rows[i]) in d'.trash[id].versions <==> Selected(ValidateRel(raw).value, d.rows[i].path)))
      && d'.rows == d.rows && d'.blobs == d.blobs
  {
    var path := ValidateRel(raw).value;
    RefsUnderDistinct(d.rows, path, d.nextRow);
    RefsUnderAre(d.rows, path, d.nextRow);
  }

  // ---- restore ----

  /** Where a list of blob moves takes a blob. */
  function MoveTarget(moves: seq<BlobMove>, k: BlobKey): BlobKey {
    if moves == [] then k
    else if moves[0].from == k.path && moves[0].vid == k.vid then BlobKey(moves[0].to, k.vid)
    else MoveTarget(moves[1..], k)
  }

  predicate DistinctMoves(moves: seq<BlobMove>) {
    forall i, j :: 0 <= i < j < |moves| ==> moves[i].vid != moves[j].vid
  }

  lemma {:induction false} MoveTargetKeepsVid(moves: seq<BlobMove>, k: BlobKey)
    ensures MoveTarget(moves, k).vid == k.vid
    ensures (forall m :: m in moves ==> m.vid != k.vid) ==> MoveTarget(moves, k) == k
  {
    if moves != [] {
      MoveTargetKeepsVid(moves[1..], k);
      assert moves[0] in moves;
    }
  }

  lemma MoveBlobSound(blobs: map<BlobKey, Bytes>, issued: map<Id, Bytes>, from: Path, to: Path, vid: Id)
    requires SoundBlobs(blobs, issued)
    ensures SoundBlobs(MoveBlob(blobs, from, to, vid), issued)
    ensures forall k :: k in blobs ==>
              (if k == BlobKey(from, vid) then BlobKey(to, vid) else k) in MoveBlob(blobs, from, to, vid)
  {
    if BlobKey(from, vid) in blobs {
      assert forall m :: m in blobs && m.vid == vid ==> m == BlobKey(from, vid);
    }
  }

  lemma {:induction false} MoveBlobsTrack(blobs: map<BlobKey, Bytes>, issued: map<Id, Bytes>, moves: seq<BlobMove>)
    requires SoundBlobs(blobs, issued) && DistinctMoves(moves)
    ensures SoundBlobs(MoveBlobs(blobs, moves), issued)
    ensures forall k :: k in blobs ==> MoveTarget(moves, k) in MoveBlobs(blobs, moves)
    decreases |moves|
  {
    if moves != [] {
      var m, rest := moves[0], moves[1..];
      var next := MoveBlob(blobs, m.from, m.to, m.vid);
      MoveBlobSound(blobs, issued, m.from, m.to, m.vid);
      MoveBlobsTrack(next, issued, rest);
      forall k | k in blobs ensures MoveTarget(moves, k) in MoveBlobs(next, rest) {
        MoveTargetStep(moves, k);
        var k' := if k == BlobKey(m.from, m.vid) then BlobKey(m.to, m.vid) else k;
        assert k' in next;
      }
    }
  }

  lemma MoveTargetStep(moves: seq<BlobMove>, k: BlobKey)
    requires moves != [] && DistinctMoves(moves)
    ensures var m := moves[0];
      MoveTarget(moves, k) ==
      MoveTarget(moves[1..], if k == BlobKey(m.from, m.vid) then BlobKey(m.to, m.vid) else k)
  {
    var m, rest := moves[0], moves[1..];
    if k == BlobKey(m.from, m.vid) {
      forall r | r in rest ensures r.vid != m.vid {
        var i :| 0 <= i < |rest| && rest[i] == r;
        assert moves[i + 1] == r;
      }
      MoveTargetKeepsVid(rest, BlobKey(m.to, m.vid));
    }
  }

  lemma MoveBlobSource(blobs: map<BlobKey, Bytes>, m: BlobMove, j: BlobKey) returns (k: BlobKey)
    requires j in MoveBlob(blobs, m.from, m.to, m.vid)
    ensures k in blobs && MoveBlob(blobs, m.from, m.to, m.vid)[j] == blobs[k]
    ensures j == if k == BlobKey(m.from, m.vid) then BlobKey(m.to, m.vid) else k
  {
    k := if j == BlobKey(m.to, m.vid) && BlobKey(m.from, m.vid) in blobs then BlobKey(m.from, m.vid) else j;
  }

  /** Blob moves create nothing: each blob afterwards is one from before, moved as listed. */
  lemma {:induction false} MovedBlobSource(
    blobs: map<BlobKey, Bytes>, moves: seq<BlobMove>, k': BlobKey) returns (k: BlobKey)
    requires DistinctMoves(moves) && k' in MoveBlobs(blobs, moves)
    ensures k in blobs && k' == MoveTarget(moves, k) && MoveBlobs(blobs, moves)[k'] == blobs[k]
    decreases |moves|
  {
    if moves == [] {
      k := k';
    } else {
      var m := moves[0];
      var j := MovedBlobSource(MoveBlob(blobs, m.from, m.to, m.vid), moves[1..], k');
      k := MoveBlobSource(blobs, m, j);
      MoveTargetStep(moves, k);
    }
  }

  /** The same, for the moves a list of owned versions asks for. */
  function RefTarget(refs: seq<Ref>, oldRoot: Path, newRoot: Path, stuck: set<Id>, k: BlobKey): BlobKey {
    if Ref(k.path, k.vid) in refs && HasPrefix(k.path, oldRoot) && k.vid !in stuck
    then BlobKey(GoRewrite(oldRoot, newRoot, k.path), k.vid) else k
  }

  lemma {:induction false} MoveTargetIsRefTarget(
    refs: seq<Ref>, oldRoot: Path, newRoot: Path, stuck: set<Id>, k: BlobKey)
    ensures MoveTarget(BlobMoves(refs, oldRoot, newRoot, stuck), k) == RefTarget(refs, oldRoot, newRoot, stuck, k)
  {
    hide GoRewrite, HasPrefix;
    if refs != [] {
      MoveTargetIsRefTarget(refs[1..], oldRoot, newRoot, stuck, k);
      assert Ref(k.path, k.vid) in refs <==> Ref(k.path, k.vid) == refs[0] || Ref(k.path, k.vid) in refs[1..];
      var rest := BlobMoves(refs[1..], oldRoot, newRoot, stuck);
      if HasPrefix(refs[0].path, oldRoot) && refs[0].vid !in stuck {
        var m := BlobMove(refs[0].path, GoRewrite(oldRoot, newRoot, refs[0].path), refs[0].vid);
        assert BlobMoves(refs, oldRoot, newRoot, stuck) == [m] + rest;
        assert ([m] + rest)[1..] == rest;
      } else {
        assert BlobMoves(refs, oldRoot, newRoot, stuck) == rest;
      }
    }
  }

  lemma {:induction false} BlobMovesDistinct(refs: seq<Ref>, oldRoot: Path, newRoot: Path, stuck: set<Id>)
    requires DistinctRefs(refs)
    ensures DistinctMoves(BlobMoves(refs, oldRoot, newRoot, stuck))
    ensures forall m :: m in BlobMoves(refs, oldRoot, newRoot, stuck) ==> exists r :: r in refs && r.vid == m.vid
  {
    hide GoRewrite, HasPrefix;
    if refs != [] {
      var rest := refs[1..];
      BlobMovesDistinct(rest, oldRoot, newRoot, stuck);
      var moves := BlobMoves(rest, oldRoot, newRoot, stuck);
      forall m | m in moves ensures m.vid != refs[0].vid && exists r :: r in refs && r.vid == m.vid {
        var r :| r in rest && r.vid == m.vid;
        var i :| 0 <= i < |rest| && rest[i] == r;
        assert refs[i + 1] == r && r in refs;
      }
      forall i | 0 <= i < |moves| ensures moves[i].vid != refs[0].vid {
        assert moves[i] in moves;
      }
      assert refs[0] in refs;
    }
  }

  lemma MovedBlobs(d: Drive, refs: seq<Ref>, oldRoot: Path, newRoot: Path, stuck: set<Id>)
    requires Valid(d) && DistinctRefs(refs)
    ensures var blobs' := MoveBlobs(d.blobs, BlobMoves(refs, oldRoot, newRoot, stuck));
      && SoundBlobs(blobs', d.issued) && SameVids(d.blobs, blobs')
      && (forall k :: k in d.blobs ==>
            (var to := RefTarget(refs, oldRoot, newRoot, stuck, k); to in blobs' && blobs'[to] == d.blobs[k]))
  {
    hide BlobMoves, MoveBlobs, MoveTarget, HasPrefix, GoRewrite;
    var moves := BlobMoves(refs, oldRoot, newRoot, stuck);
    var blobs' := MoveBlobs(d.blobs, moves);
    BlobMovesDistinct(refs, oldRoot, newRoot, stuck);
    MoveBlobsTrack(d.blobs, d.issued, moves);
    forall k | k in d.blobs
      ensures var to := RefTarget(refs, oldRoot, newRoot, stuck, k);
        to.vid == k.vid && to in blobs' && blobs'[to] == d.blobs[k]
    {
      MoveTargetIsRefTarget(refs, oldRoot, newRoot, stuck, k);
    }
  }

  /** Each blob after the moves is one from before. */
  lemma MovedBlobWas(blobs: map<BlobKey, Bytes>, refs: seq<Ref>, oldRoot: Path, newRoot: Path, stuck: set<Id>,
                     k': BlobKey)
    returns (k: BlobKey)
    requires DistinctRefs(refs) && k' in MoveBlobs(blobs, BlobMoves(refs, oldRoot, newRoot, stuck))
    ensures k in blobs && k' == RefTarget(refs, oldRoot, newRoot, stuck, k)
  {
    hide BlobMoves, MoveBlobs, MoveTarget, RefTarget;
    BlobMovesDistinct(refs, oldRoot, newRoot, stuck);
    k := MovedBlobSource(blobs, BlobMoves(refs, oldRoot, newRoot, stuck), k');
    MoveTargetIsRefTarget(refs, oldRoot, newRoot, stuck, k);
  }

  // ---- the rows of a restore ----

  /** A row the move of `refs` takes along. */
  predicate Owned(row: Row, refs: seq<Ref>, oldRoot: Path) {
    RefOf(row) in refs && HasPrefix(row.path, oldRoot)
  }

  function Renamed(row: Row, oldRoot: Path, newRoot: Path): Row {
    row.(path := GoRewrite(oldRoot, newRoot, row.path))
  }

  predicate SoundIndex(d: Drive) {
    SoundRows(d.rows, d.nextRow, d.issued)
  }

  /** The row of one reference gets a new id and path; every other row stays. */
  lemma MoveRefRowIs(d: Drive, ref: Ref, to: Path)
    requires SoundIndex(d)
    ensures var d' := MoveRefRow(d, ref, to);
      && SoundIndex(d') && d' == d.(rows := d'.rows, nextRow := d'.nextRow) && d'.nextRow >= d.nextRow
      && (forall i :: i in d.rows && RefOf(d.rows[i]) != ref ==> i in d'.rows && d'.rows[i] == d.rows[i])
      && (forall i :: i in d.rows && RefOf(d.rows[i]) == ref ==>
            d.nextRow in d'.rows && d'.rows[d.nextRow] == d.rows[i].(path := to))
      && (forall j :: j in d'.rows && j != d.nextRow ==>
            j in d.rows && d'.rows[j] == d.rows[j] && RefOf(d.rows[j]) != ref)
      && (d.nextRow in d'.rows ==> exists i :: i in d.rows && RefOf(d.rows[i]) == ref)
  {
    var found := FindRow(d.rows, ref, d.nextRow);
    if found.Some? {
      assert forall i :: i in d.rows && RefOf(d.rows[i]) == ref ==> i == found.value;
    }
  }

  lemma {:induction false} MoveRefRowsSound(d: Drive, refs: seq<Ref>, oldRoot: Path, newRoot: Path)
    requires SoundIndex(d)
    ensures var d' := MoveRefRows(d, refs, oldRoot, newRoot);
      SoundIndex(d') && d' == d.(rows := d'.rows, nextRow := d'.nextRow) && d'.nextRow >= d.nextRow
    decreases |refs|
  {
    hide MoveRefRow, SoundIndex, HasPrefix, GoRewrite;
    if refs != [] {
      var to := GoRewrite(oldRoot, newRoot, refs[0].path);
      MoveRefRowIs(d, refs[0], to);
      var next := if HasPrefix(refs[0].path, oldRoot) then MoveRefRow(d, refs[0], to) else d;
      MoveRefRowsSound(next, refs[1..], oldRoot, newRoot);
    }
  }

  lemma RestIsDistinct(refs: seq<Ref>)
    requires DistinctRefs(refs) && refs != []
    ensures DistinctRefs(refs[1..]) && forall r :: r in refs[1..] ==> r.vid != refs[0].vid
  {
    forall r | r in refs[1..] ensures r.vid != refs[0].vid {
      var i :| 0 <= i < |refs[1..]| && refs[1..][i] == r;
      assert refs[i + 1] == r;
    }
  }

  /** Where a row is afterwards: renamed under a new id if it is owned, and untouched if not. */
  lemma {:induction false} RowAfter(d: Drive, refs: seq<Ref>, oldRoot: Path, newRoot: Path, i: nat) returns (j: nat)
    requires SoundIndex(d) && DistinctRefs(refs) && i in d.rows
    ensures var d' := MoveRefRows(d, refs, oldRoot, newRoot);
      j in d'.rows &&
      if Owned(d.rows[i], refs, oldRoot) then j >= d.nextRow && d'.rows[j] == Renamed(d.rows[i], oldRoot, newRoot)
      else j == i && d'.rows[j] == d.rows[i]
    decreases |refs|
  {
    hide MoveRefRow, SoundIndex, HasPrefix, GoRewrite, DistinctRefs;
    if refs == [] {
      j := i;
    } else {
      var ref, rest := refs[0], refs[1..];
      assert refs == [ref] + rest;
      RestIsDistinct(refs);
      var to := GoRewrite(oldRoot, newRoot, ref.path);
      MoveRefRowIs(d, ref, to);
      if !HasPrefix(ref.path, oldRoot) {
        j := RowAfter(d, rest, oldRoot, newRoot, i);
      } else if RefOf(d.rows[i]) == ref {
        j := RowAfter(MoveRefRow(d, ref, to), rest, oldRoot, newRoot, d.nextRow);
      } else {
        j := RowAfter(MoveRefRow(d, ref, to), rest, oldRoot, newRoot, i);
      }
    }
  }

  /** Each row afterwards is one from before, renamed if it was owned. */
  lemma {:induction false} RowBefore(d: Drive, refs: seq<Ref>, oldRoot: Path, newRoot: Path, j: nat) returns (i: nat)
    requires SoundIndex(d) && DistinctRefs(refs) && j in MoveRefRows(d, refs, oldRoot, newRoot).rows
    ensures var d' := MoveRefRows(d, refs, oldRoot, newRoot);
      i in d.rows &&
      if Owned(d.rows[i], refs, oldRoot) then j >= d.nextRow && d'.rows[j] == Renamed(d.rows[i], oldRoot, newRoot)
      else j == i && d'.rows[j] == d.rows[i]
    decreases |refs|
  {
    hide MoveRefRow, SoundIndex, HasPrefix, GoRewrite, DistinctRefs;
    if refs == [] {
      i := j;
    } else {
      var ref, rest := refs[0], refs[1..];
      assert refs == [ref] + rest;
      RestIsDistinct(refs);
      var to := GoRewrite(oldRoot, newRoot, ref.path);
      MoveRefRowIs(d, ref, to);
      if !HasPrefix(ref.path, oldRoot) {
        i := RowBefore(d, rest, oldRoot, newRoot, j);
      } else {
        var mid := MoveRefRow(d, ref, to);
        var k := RowBefore(mid, rest, oldRoot, newRoot, j);
        if k == d.nextRow {
          i :| i in d.rows && RefOf(d.rows[i]) == ref;
        } else {
          i := k;
        }
      }
    }
  }

  /** The moves are attempted at all: there are some, and neither root is involved. */
  predicate MovesSome(refs: seq<Ref>, oldRoot: Path, newRoot: Path, how: SpecificMove) {
    refs != [] && oldRoot !in {"", "/"} && newRoot !in {"", "/"} && how.indexOk
  }

  /**
   Ownership split: moving listed versions relocates exactly the listed rows
   still present below the old root, under new ids, and their blobs except those
   whose rename fails; every other row and every other blob is where it was, and
   there is no further row and no further blob.
   */
  lemma OwnershipSplit(d: Drive, refs: seq<Ref>, oldRoot: Path, newRoot: Path, how: SpecificMove)
    requires Valid(d) && DistinctRefs(refs) && MovesSome(refs, oldRoot, newRoot, how)
    ensures var d' := MoveSpecific(d, refs, oldRoot, newRoot, how);
      && d' == d.(rows := d'.rows, nextRow := d'.nextRow, blobs := d'.blobs)
      && (forall i :: i in d.rows && !Owned(d.rows[i], refs, oldRoot) ==> i in d'.rows && d'.rows[i] == d.rows[i])
      && (forall i :: i in d.rows && Owned(d.rows[i], refs, oldRoot) ==>
            i !in d'.rows &&
            exists j :: j in d'.rows && j >= d.nextRow && d'.rows[j] == Renamed(d.rows[i], oldRoot, newRoot))
      && (forall j :: j in d'.rows && j !in d.rows ==>
            exists i :: i in d.rows && Owned(d.rows[i], refs, oldRoot) &&
                        d'.rows[j] == Renamed(d.rows[i], oldRoot, newRoot))
      && (forall k :: k in d.blobs ==>
            (var to := RefTarget(refs, oldRoot, newRoot, how.stuck, k); to in d'.blobs && d'.blobs[to] == d.blobs[k]))
      && (forall k' :: k' in d'.blobs ==>
            exists k :: k in d.blobs && k' == RefTarget(refs, oldRoot, newRoot, how.stuck, k))
  {
    hide MoveBlobs, BlobMoves, RefTarget, MoveRefRows, Owned, Renamed, Valid, SoundIndex, SoundBlobs, SameVids;
    ValidIndex(d);
    MoveRefRowsSound(d, refs, oldRoot, newRoot);
    SplitRows(d, refs, oldRoot, newRoot);
    MovedBlobs(d, refs, oldRoot, newRoot, how.stuck);
    var d' := MoveSpecific(d, refs, oldRoot, newRoot, how);
    forall k' | k' in d'.blobs
      ensures exists k :: k in d.blobs && k' == RefTarget(refs, oldRoot, newRoot, how.stuck, k)
    {
      var k := MovedBlobWas(d.blobs, refs, oldRoot, newRoot, how.stuck, k');
    }
  }

  lemma SplitRows(d: Drive, refs: seq<Ref>, oldRoot: Path, newRoot: Path)
    requires SoundIndex(d) && DistinctRefs(refs)
    ensures var d' := MoveRefRows(d, refs, oldRoot, newRoot);
      && (forall i :: i in d.rows && !Owned(d.rows[i], refs, oldRoot) ==> i in d'.rows && d'.rows[i] == d.rows[i])
      && (forall i :: i in d.rows && Owned(d.rows[i], refs, oldRoot) ==>
            i !in d'.rows &&
            exists j :: j in d'.rows && j >= d.nextRow && d'.rows[j] == Renamed(d.rows[i], oldRoot, newRoot))
      && (forall j :: j in d'.rows && j !in d.rows ==>
            exists i :: i in d.rows && Owned(d.rows[i], refs, oldRoot) &&
                        d'.rows[j] == Renamed(d.rows[i], oldRoot, newRoot))
  {
    hide MoveRefRows, Owned, Renamed, DistinctRefs;
    var d' := MoveRefRows(d, refs, oldRoot, newRoot);
    forall i | i in d.rows
      ensures !Owned(d.rows[i], refs, oldRoot) ==> i in d'.rows && d'.rows[i] == d.rows[i]
      ensures Owned(d.rows[i], refs, oldRoot) ==>
                exists j :: j in d'.rows && j >= d.nextRow && d'.rows[j] == Renamed(d.rows[i], oldRoot, newRoot)
      ensures Owned(d.rows[i], refs, oldRoot) ==> i !in d'.rows
    {
      var j := RowAfter(d, refs, oldRoot, newRoot, i);
      if i in d'.rows { var k := RowBefore(d, refs, oldRoot, newRoot, i); }
    }
    forall j | j in d'.rows && j !in d.rows
      ensures exists i :: i in d.rows && Owned(d.rows[i], refs, oldRoot) &&
                          d'.rows[j] == Renamed(d.rows[i], oldRoot, newRoot)
    {
      var i := RowBefore(d, refs, oldRoot, newRoot, j);
    }
  }

  /** Some row moves and its blob does not. */
  predicate StuckRow(d: Drive, refs: seq<Ref>, oldRoot: Path, stuck: set<Id>) {
    exists i :: i in d.rows && Owned(d.rows[i], refs, oldRoot) && d.rows[i].vid in stuck
  }

  lemma MovedRowMeetsBlobIff(d: Drive, refs: seq<Ref>, oldRoot: Path, newRoot: Path, stuck: set<Id>, i: nat, row: Row)
    requires Valid(d) && DistinctRefs(refs) && RowsResolve(d) && i in d.rows && oldRoot != newRoot
    requires row == if Owned(d.rows[i], refs, oldRoot) then Renamed(d.rows[i], oldRoot, newRoot) else d.rows[i]
    ensures BlobKey(row.path, row.vid) in MoveBlobs(d.blobs, BlobMoves(refs, oldRoot, newRoot, stuck)) <==>
            !(Owned(d.rows[i], refs, oldRoot) && d.rows[i].vid in stuck)
  {
    hide MoveBlobs, BlobMoves;
    var k := BlobKey(d.rows[i].path, d.rows[i].vid);
    MovedBlobs(d, refs, oldRoot, newRoot, stuck);
    if HasPrefix(k.path, oldRoot) { RewriteChanges(oldRoot, newRoot, k.path); }
    assert k in d.blobs;
  }

  lemma RewriteChanges(oldRoot: Path, newRoot: Path, path: Path)
    requires HasPrefix(path, oldRoot) && oldRoot != newRoot
    ensures GoRewrite(oldRoot, newRoot, path) != path
  {
    var s := path[|oldRoot|..];
    assert path == oldRoot + s && GoRewrite(oldRoot, newRoot, path) == newRoot + s;
    SameTail(newRoot, oldRoot, s);
  }

  /** A version move keeps rows resolving if and only if no moved row's blob is stuck. */
  lemma MovedRowsResolveIff(d: Drive, refs: seq<Ref>, oldRoot: Path, newRoot: Path, how: SpecificMove)
    requires Valid(d) && DistinctRefs(refs) && RowsResolve(d) && oldRoot != newRoot
    ensures RowsResolve(MoveSpecific(d, refs, oldRoot, newRoot, how)) <==>
            !(MovesSome(refs, oldRoot, newRoot, how) && StuckRow(d, refs, oldRoot, how.stuck))
  {
    hide MoveBlobs, BlobMoves, MoveRefRows, Owned, Renamed, Valid, SoundIndex, DistinctRefs;
    var d' := MoveSpecific(d, refs, oldRoot, newRoot, how);
    if MovesSome(refs, oldRoot, newRoot, how) {
      ValidIndex(d);
      MoveRefRowsSound(d, refs, oldRoot, newRoot);
      if StuckRow(d, refs, oldRoot, how.stuck) {
        var i :| i in d.rows && Owned(d.rows[i], refs, oldRoot) && d.rows[i].vid in how.stuck;
        var j := RowAfter(d, refs, oldRoot, newRoot, i);
        MovedRowMeetsBlobIff(d, refs, oldRoot, newRoot, how.stuck, i, d'.rows[j]);
      } else {
        MovedBlobs(d, refs, oldRoot, newRoot, how.stuck);
        forall j | j in d'.rows
          ensures BlobKey(d'.rows[j].path, d'.rows[j].vid) in d'.blobs && d'.rows[j].vid in d.issued
        {
          var i := RowBefore(d, refs, oldRoot, newRoot, j);
          MovedRowMeetsBlobIff(d, refs, oldRoot, newRoot, how.stuck, i, d'.rows[j]);
          RenamedKeepsVid(d.rows[i], oldRoot, newRoot);
        }
      }
    }
  }

  lemma RenamedKeepsVid(row: Row, oldRoot: Path, newRoot: Path)
    ensures Renamed(row, oldRoot, newRoot).vid == row.vid
  {
  }

  lemma ValidIndex(d: Drive)
    requires Valid(d)
    ensures SoundIndex(d)
  {
  }

  lemma MoveSpecificKeeps(d: Drive, refs: seq<Ref>, oldRoot: Path, newRoot: Path, how: SpecificMove)
    requires Valid(d) && DistinctRefs(refs)
    ensures var d' := MoveSpecific(d, refs, oldRoot, newRoot, how);
      && Valid(d') && Keeps(d, d') && d'.files == d.files && d'.trash == d.trash
  {
    hide MoveBlobs, BlobMoves, MoveRefRows;
    var d' := MoveSpecific(d, refs, oldRoot, newRoot, how);
    if MovesSome(refs, oldRoot, newRoot, how) {
      MovedBlobs(d, refs, oldRoot, newRoot, how.stuck);
      MoveRefRowsSound(d, refs, oldRoot, newRoot);
      SameVidsKeepBytes(d.blobs, d'.blobs, d.issued);
    }
  }

  lemma OwnedRefsDistinct(d: Drive, id: Id)
    requires Valid(d) && id in d.trash
    ensures DistinctRefs(OwnedRefs(d, d.trash[id]))
  {
    RefsUnderDistinct(d.rows, d.trash[id].orig, d.nextRow);
  }

  /** The files and the trash of a restore; its history moves come after. */
  function PutBack(d: Drive, id: Id, dest: Path, noteStays: bool): Drive
    requires id in d.trash
  {
    d.(files := Attach(d.files, dest, d.trash[id].payload),
       trash := if noteStays then d.trash[id := d.trash[id].(payload := map[])] else d.trash - {id})
  }

  lemma RestoreIs(d: Drive, id: Id, f: RestoreFault)
    requires Restore(d, id, f).1.Ok?
    ensures var (d', r) := Restore(d, id, f);
      && id in d.trash && FreeRestoreName(d.files, d.trash[id].orig, 1) == r
      && r.value !in Occupied(d.files) && r.value != "" && ValidateRel(r.value) == Ok(r.value)
      && !Blocked(d.files, r.value)
      && d' == (var mid := PutBack(d, id, r.value, f.noteStays);
                if r.value == d.trash[id].orig then mid
                else MoveSpecific(mid, OwnedRefs(d, d.trash[id]), d.trash[id].orig, r.value, f.how))
  {
    hide ValidateRel, Attach, MoveSpecific, FreeRestoreName, Occupied, Blocked;
    FoundIsAccepted(d.files, d.trash[id].orig, 1);
  }

  /**
   Restore loses nothing and overwrites nothing: every live file is as it was,
   and the whole payload is at a free name.
   */
  lemma RestoreKeeps(d: Drive, id: Id, f: RestoreFault)
    requires Valid(d)
    ensures var (d', r) := Restore(d, id, f);
      && Valid(d') && Keeps(d, d')
      && (forall q :: q in d.files ==> q in d'.files && d'.files[q] == d.files[q])
      && (r.Err? ==> d' == d)
      && (r.Ok? ==> r.value !in Occupied(d.files) && id in d.trash)
      && (r.Ok? ==> forall s :: s in d.trash[id].payload ==>
                      r.value + s in d'.files && d'.files[r.value + s] == d.trash[id].payload[s])
  {
    hide Attach, Occupied, MoveSpecific, FreeRestoreName, OwnedRefs, ValidateRel;
    if Restore(d, id, f).1.Ok? {
      RestoreIs(d, id, f);
      var item, dest := d.trash[id], Restore(d, id, f).1.value;
      AttachAdds(d.files, dest, item.payload);
      AttachOverwritesNothing(d.files, dest, item.payload);
      PutBackKeeps(d, id, dest, f.noteStays);
      OwnedRefsDistinct(d, id);
      MoveSpecificKeeps(PutBack(d, id, dest, f.noteStays), OwnedRefs(d, item), item.orig, dest, f.how);
    }
  }

  /** A restore to a sibling moves a row whose blob rename fails. */
  predicate RestoreParts(d: Drive, id: Id, f: RestoreFault) {
    var r := Restore(d, id, f).1;
    r.Ok? && id in d.trash && r.value != d.trash[id].orig &&
    MovesSome(OwnedRefs(d, d.trash[id]), d.trash[id].orig, r.value, f.how) &&
    StuckRow(d, OwnedRefs(d, d.trash[id]), d.trash[id].orig, f.how.stuck)
  }

  lemma RestoreResolvesIff(d: Drive, id: Id, f: RestoreFault)
    requires Valid(d) && RowsResolve(d)
    ensures RowsResolve(Restore(d, id, f).0) <==> !RestoreParts(d, id, f)
  {
    hide Attach, Occupied, MoveSpecific, FreeRestoreName, OwnedRefs, MovesSome, ValidateRel, Owned, Restore;
    RestoreErrs(d, id, f);
    if Restore(d, id, f).1.Ok? {
      RestoreIs(d, id, f);
      var item, dest := d.trash[id], Restore(d, id, f).1.value;
      PutBackKeeps(d, id, dest, f.noteStays);
      OwnedRefsDistinct(d, id);
      var mid := PutBack(d, id, dest, f.noteStays);
      var refs := OwnedRefs(d, item);
      assert StuckRow(mid, refs, item.orig, f.how.stuck) == StuckRow(d, refs, item.orig, f.how.stuck);
      if dest != item.orig { MovedRowsResolveIff(mid, OwnedRefs(d, item), item.orig, dest, f.how); }
    }
  }

  lemma RestoreErrs(d: Drive, id: Id, f: RestoreFault)
    ensures Restore(d, id, f).1.Err? ==> Restore(d, id, f).0 == d
  {
    hide FreeRestoreName, RestoreAt, Blocked;
  }

  /**
   The split at the handler: restored to a numbered sibling, exactly the owned
   rows still present move below it, with their blobs; restored in place, none do.
   */
  lemma RestoreSplitsHistory(d: Drive, id: Id, f: RestoreFault)
    requires Valid(d) && Restore(d, id, f).1.Ok?
    ensures var (d', r) := Restore(d, id, f); var orig, refs := d.trash[id].orig, OwnedRefs(d, d.trash[id]);
      var moves := r.value != orig && MovesSome(refs, orig, r.value, f.how);
      && (forall i :: i in d.rows && !(moves && Owned(d.rows[i], refs, orig)) ==>
            i in d'.rows && d'.rows[i] == d.rows[i])
      && (forall i :: i in d.rows && moves && Owned(d.rows[i], refs, orig) ==>
            i !in d'.rows && exists j :: j in d'.rows && d'.rows[j] == Renamed(d.rows[i], orig, r.value))
      && (forall j :: j in d'.rows && j !in d.rows ==>
            exists i :: i in d.rows && moves && Owned(d.rows[i], refs, orig) &&
                        d'.rows[j] == Renamed(d.rows[i], orig, r.value))
      && (forall k :: k in d.blobs ==>
            (var to := if moves then RefTarget(refs, orig, r.value, f.how.stuck, k) else k;
             to in d'.blobs && d'.blobs[to] == d.blobs[k]))
      && (forall k' :: k' in d'.blobs ==>
            exists k :: k in d.blobs && k' == if moves then RefTarget(refs, orig, r.value, f.how.stuck, k) else k)
  {
    hide Attach, Occupied, FreeRestoreName, OwnedRefs, MovesSome, ValidateRel, Owned, Renamed, RefTarget, Restore,
         MoveSpecific;
    RestoreIs(d, id, f);
    var item, dest := d.trash[id], Restore(d, id, f).1.value;
    PutBackKeeps(d, id, dest, f.noteStays);
    OwnedRefsDistinct(d, id);
    var mid := PutBack(d, id, dest, f.noteStays);
    if dest != item.orig {
      if MovesSome(OwnedRefs(d, item), item.orig, dest, f.how) {
        OwnershipSplit(mid, OwnedRefs(d, item), item.orig, dest, f.how);
      } else {
        NothingMoves(mid, OwnedRefs(d, item), item.orig, dest, f.how);
      }
    }
  }

  lemma NothingMoves(d: Drive, refs: seq<Ref>, oldRoot: Path, newRoot: Path, how: SpecificMove)
    requires !MovesSome(refs, oldRoot, newRoot, how)
    ensures MoveSpecific(d, refs, oldRoot, newRoot, how) == d
  {
  }

  /** The name a restore finds is accepted, so it is not empty. */
  lemma {:induction false} FoundIsAccepted(files: map<Path, File>, orig: Path, n: nat)
    requires n >= 1 && FreeRestoreName(files, orig, n).Ok?
    ensures var r := FreeRestoreName(files, orig, n).value; ValidateRel(r) == Ok(r) && r !in Occupied(files) && r != ""
    decreases Untried(files, orig, n)
  {
    hide ValidateRel, Directories, RestoreName;
    var dest := RestoreName(orig, n);
    if ValidateRel(dest) == Ok(dest) {
      AcceptedIsNormal(dest);
      NormalStartsWithSlash(dest);
      if dest in Occupied(files) {
        assert dest in Untried(files, orig, n);
        assert dest !in Untried(files, orig, n + 1) by {
          forall j: nat | j >= n + 1 ensures dest != RestoreName(orig, j) { RestoreNamesDiffer(orig, n, j); }
        }
        FoundIsAccepted(files, orig, n + 1);
      }
    }
  }

  lemma PutBackKeeps(d: Drive, id: Id, dest: Path, noteStays: bool)
    requires Valid(d) && id in d.trash && dest !in Occupied(d.files) && dest != ""
    ensures var mid := PutBack(d, id, dest, noteStays);
      Valid(mid) && Keeps(d, mid) && (RowsResolve(d) ==> RowsResolve(mid))
  {
    var payload := d.trash[id].payload;
    var mid := PutBack(d, id, dest, noteStays);
    AttachAdds(d.files, dest, payload);
    AttachOverwritesNothing(d.files, dest, payload);
    hide Attach, Occupied;
    forall b | InFiles(d.files, b) ensures InFiles(mid.files, b) {
      var q :| q in d.files && d.files[q].bytes == b;
      assert q in mid.files && mid.files[q].bytes == b;
    }
    forall b | InTrash(d.trash, b) ensures Archived(mid, b) {
      var i, s :| i in d.trash && s in d.trash[i].payload && d.trash[i].payload[s].bytes == b;
      if i == id {
        assert mid.files[dest + s].bytes == b;
      } else {
        assert i in mid.trash && mid.trash[i] == d.trash[i];
      }
    }
  }

  /** No file is also a directory. */
  predicate TreeShaped(files: map<Path, File>) {
    forall p, q :: p in files && q in files ==> !HasPrefix(q, p + "/")
  }

  lemma TrashThenRestore(d: Drive, path: Path, id: Id, owned: seq<Ref>, now: int, how: SpecificMove)
    requires TreeShaped(d.files) && Subtree(d.files, path) != {} && id !in d.trash
    requires path != "" && path != "/" && ValidateRel(path) == Ok(path)
    ensures Restore(TrashPath(d, path, id, owned, now), id, RestoreFault(false, false, how)) == (d, Ok(path))
  {
    hide Attach, Detach, Subtree, Directories, Blocked, ValidateRel, TreeShaped, MoveSpecific, OwnedRefs;
    var d1 := TrashPath(d, path, id, owned, now);
    FreedByDelete(d.files, path);
    assert RestoreName(path, 1) == path;
    assert FreeRestoreName(d1.files, path, 1) == Ok(path);
    AttachBack(d.files, path);
    DetachedSome(d.files, path);
    assert d1.trash - {id} == d.trash;
  }

  lemma DetachedSome(files: map<Path, File>, path: Path)
    requires Subtree(files, path) != {}
    ensures Detach(files, path) != map[]
  {
    hide Subtree, Detach;
    DetachTakes(files, path);
    var q :| q in Subtree(files, path);
    assert TrimPrefix(q, path) in Detach(files, path);
  }

  /** Delete then restore, with nothing in between, is the identity on the whole drive. */
  lemma DeleteThenRestore(d: Drive, raw: string, id: Id, now: int, queryOk: bool, how: SpecificMove)
    requires Valid(d) && TreeShaped(d.files) && Delete(d, raw, id, now, queryOk, Deletes).1.Ok?
    ensures Restore(Delete(d, raw, id, now, queryOk, Deletes).0, id, RestoreFault(false, false, how)) ==
            (d, Ok(ValidateRel(raw).value))
  {
    hide ValidateRel, Restore, VersionsUnder, TreeShaped, Valid, TrashPath, Directories, Subtree;
    var path := ValidateRel(raw).value;
    ValidateFixesAccepted(raw);
    AcceptedIsNormal(raw);
    NormalStartsWithSlash(path);
    TrashThenRestore(d, path, id, if queryOk then VersionsUnder(d, path) else [], now, how);
  }

  lemma FreedByDelete(files: map<Path, File>, path: Path)
    requires TreeShaped(files) && Subtree(files, path) != {} && path != "" && path != "/"
    ensures var rest := files - Subtree(files, path);
      path !in Occupied(rest) && !Blocked(rest, path)
  {
    var rest := files - Subtree(files, path);
    assert path !in rest by { if path in files { assert path in Subtree(files, path); } }
    forall p, k | p in rest && 0 < k < |p| && p[k] == '/' ensures p[..k] != path {
      if p[..k] == path { BelowFile(files, path, p, k); }
    }
    forall p | p in rest ensures !HasPrefix(path, p + "/") {
      if HasPrefix(path, p + "/") { AncestorFile(files, path, p); }
    }
  }

  lemma AncestorFile(files: map<Path, File>, path: Path, p: Path)
    requires p in files && HasPrefix(path, p + "/") && Subtree(files, path) != {}
    ensures !TreeShaped(files)
  {
    var q :| q in Subtree(files, path);
    SubtreeSuffix(files, path, q);
    assert q[..|p| + 1] == path[..|p| + 1] == p + "/";
    assert HasPrefix(q, p + "/");
  }

  lemma BelowFile(files: map<Path, File>, path: Path, p: Path, k: nat)
    requires p in files && 0 < k < |p| && p[k] == '/' && p[..k] == path
    ensures p in Subtree(files, path) || !TreeShaped(files)
  {
    assert p[..k + 1] == path + "/";
    assert HasPrefix(p, path + "/");
  }

  // ---- permanent removal ----

  /**
   Purging listed versions, once the index commits, removes exactly the listed
   rows, and of their blobs all whose removal works; nothing else goes and
   nothing is added. If the index does not commit, nothing goes at all.
   */
  lemma PurgeRefsExact(d: Drive, refs: seq<Ref>, how: Purging)
    requires Valid(d)
    ensures var d' := PurgeRefs(d, refs, how);
      && Valid(d') && (RowsResolve(d) ==> RowsResolve(d')) && d' == d.(rows := d'.rows, blobs := d'.blobs)
      && (forall i :: i in d.rows ==> (i in d'.rows <==> !(how.indexOk && RefOf(d.rows[i]) in refs)))
      && (forall i :: i in d'.rows ==> i in d.rows && d'.rows[i] == d.rows[i])
      && (forall k :: k in d'.blobs ==> k in d.blobs && d'.blobs[k] == d.blobs[k])
      && (forall k :: k in d.blobs && !(how.indexOk && Ref(k.path, k.vid) in refs) ==> k in d'.blobs)
      && (forall i :: i in d.rows && i !in d'.rows && KeyOf(d.rows[i]) !in how.kept ==> KeyOf(d.rows[i]) !in d'.blobs)
  {
    var gone := set i | i in d.rows && RefOf(d.rows[i]) in refs;
    forall i | i in d.rows && RefOf(d.rows[i]) in refs ensures d.rows[i].path in RowPaths(d.rows, gone) {
      assert i in gone;
    }
    hide RowPaths;
  }

  function BlobPaths(blobs: map<BlobKey, Bytes>, except: set<BlobKey>): set<Path> {
    set k | k in blobs && k !in except :: k.path
  }

  /**
   The whole-path purge: the rows selected for the root go, with all blobs of
   their paths that can be removed; other rows and other paths keep theirs.
   */
  lemma PurgeHistoryExact(d: Drive, root: Path, how: Purging)
    requires Valid(d)
    ensures var d' := PurgeHistory(d, root, how);
      var purges := root !in {"", "/"} && how.indexOk;
      && Valid(d') && (RowsResolve(d) ==> RowsResolve(d')) && d' == d.(rows := d'.rows, blobs := d'.blobs)
      && (forall i :: i in d.rows ==> (i in d'.rows <==> !(purges && Selected(root, d.rows[i].path))))
      && (forall i :: i in d'.rows ==> i in d.rows && d'.rows[i] == d.rows[i])
      && (forall k :: k in d'.blobs ==> k in d.blobs && d'.blobs[k] == d.blobs[k])
      && (forall k :: k in d.blobs && !(purges && Selected(root, k.path)) ==> k in d'.blobs)
      && (forall i :: i in d.rows && i !in d'.rows ==> d.rows[i].path !in BlobPaths(d'.blobs, how.kept))
  {
    hide Selected, SoundTrash;
    var gone := SelectedRows(d.rows, root);
    forall p | p in RowPaths(d.rows, gone) ensures Selected(root, p) {
      var i :| i in gone && i in d.rows && d.rows[i].path == p;
    }
    forall i | i in gone ensures d.rows[i].path in RowPaths(d.rows, gone) {}
    hide RowPaths;
  }

  lemma PurgeItemKeeps(d: Drive, item: TrashItem, how: Purging)
    requires Valid(d)
    ensures var d' := PurgeItemHistory(d, item, how);
      Valid(d') && (RowsResolve(d) ==> RowsResolve(d')) && d' == d.(rows := d'.rows, blobs := d'.blobs)
  {
    hide PurgeRefs, PurgeHistory, Selected;
    if item.versions != [] { PurgeRefsExact(d, item.versions, how); } else { PurgeHistoryExact(d, item.orig, how); }
  }

  lemma {:induction false} PurgeItemsKeep(d: Drive, items: seq<ItemPurge>)
    requires Valid(d)
    ensures var d' := PurgeItems(d, items);
      Valid(d') && (RowsResolve(d) ==> RowsResolve(d')) && d' == d.(rows := d'.rows, blobs := d'.blobs)
    decreases |items|
  {
    hide PurgeItemHistory, Valid, RowsResolve;
    if items != [] {
      PurgeItemKeeps(d, items[0].item, items[0].how);
      PurgeItemsKeep(PurgeItemHistory(d, items[0].item, items[0].how), items[1..]);
    }
  }

  lemma {:induction false} PurgeHistoriesKeep(d: Drive, roots: seq<RootPurge>)
    requires Valid(d)
    ensures var d' := PurgeHistories(d, roots);
      Valid(d') && (RowsResolve(d) ==> RowsResolve(d')) && d' == d.(rows := d'.rows, blobs := d'.blobs)
    decreases |roots|
  {
    hide PurgeHistory, Valid, RowsResolve, Selected;
    if roots != [] {
      PurgeHistoryExact(d, roots[0].root, roots[0].how);
      PurgeHistoriesKeep(PurgeHistory(d, roots[0].root, roots[0].how), roots[1..]);
    }
  }

  lemma RemnantSound(trash: map<Id, TrashItem>, left: map<Id, set<string>>)
    requires SoundTrash(trash)
    ensures SoundTrash(Remnant(trash, left)) && SoundTrash(trash + Remnant(trash, left))
  {
  }

  // ---- what the purging handlers take ----

  /** The purge of `x` takes the row `ref` names: one it recorded or, without a record, any of its path. */
  predicate Claims(x: ItemPurge, ref: Ref) {
    x.how.indexOk &&
    if x.item.versions != [] then ref in x.item.versions
    else x.item.orig !in {"", "/"} && Selected(x.item.orig, ref.path)
  }

  predicate Claimed(items: seq<ItemPurge>, ref: Ref) {
    exists x :: x in items && Claims(x, ref)
  }

  /** Removing `k` fails in some item's purge. */
  predicate Clings(items: seq<ItemPurge>, k: BlobKey) {
    exists x :: x in items && k in x.how.kept
  }

  /** What the purges take away from one drive to another, and no more. */
  ghost predicate TakesExactly(d: Drive, d': Drive, items: seq<ItemPurge>) {
    && (forall i :: i in d.rows ==> (i in d'.rows <==> !Claimed(items, RefOf(d.rows[i]))))
    && (forall i :: i in d'.rows ==> i in d.rows && d'.rows[i] == d.rows[i])
    && (forall k :: k in d'.blobs ==> k in d.blobs && d'.blobs[k] == d.blobs[k])
    && (forall k :: k in d.blobs && !Claimed(items, Ref(k.path, k.vid)) ==> k in d'.blobs)
    && (forall i :: i in d.rows && i !in d'.rows && !Clings(items, KeyOf(d.rows[i])) ==> KeyOf(d.rows[i]) !in d'.blobs)
  }

  /** The same for the purge of one item. */
  ghost predicate TakesOne(d: Drive, d': Drive, x: ItemPurge) {
    && (forall i :: i in d.rows ==> (i in d'.rows <==> !Claims(x, RefOf(d.rows[i]))))
    && (forall i :: i in d'.rows ==> i in d.rows && d'.rows[i] == d.rows[i])
    && (forall k :: k in d'.blobs ==> k in d.blobs && d'.blobs[k] == d.blobs[k])
    && (forall k :: k in d.blobs && !Claims(x, Ref(k.path, k.vid)) ==> k in d'.blobs)
    && (forall i :: i in d.rows && i !in d'.rows && KeyOf(d.rows[i]) !in x.how.kept ==> KeyOf(d.rows[i]) !in d'.blobs)
  }

  lemma PurgeItemExact(d: Drive, x: ItemPurge)
    requires Valid(d)
    ensures TakesOne(d, PurgeItemHistory(d, x.item, x.how), x)
  {
    hide PurgeRefs, PurgeHistory, Selected, Valid, RowsResolve;
    if x.item.versions != [] {
      PurgeRefsExact(d, x.item.versions, x.how);
    } else {
      PurgeHistoryExact(d, x.item.orig, x.how);
    }
  }

  lemma {:induction false} PurgeItemsExact(d: Drive, items: seq<ItemPurge>)
    requires Valid(d)
    ensures TakesExactly(d, PurgeItems(d, items), items)
    decreases |items|
  {
    hide Valid, PurgeItemHistory, RowsResolve;
    if items != [] {
      var x, rest := items[0], items[1..];
      assert items == [x] + rest;
      var mid := PurgeItemHistory(d, x.item, x.how);
      PurgeItemKeeps(d, x.item, x.how);
      PurgeItemExact(d, x);
      PurgeItemsExact(mid, rest);
      TakesFirst(d, mid, PurgeItems(mid, rest), x, rest);
    }
  }

  lemma TakesFirst(d: Drive, mid: Drive, d': Drive, x: ItemPurge, rest: seq<ItemPurge>)
    requires TakesOne(d, mid, x) && TakesExactly(mid, d', rest)
    ensures TakesExactly(d, d', [x] + rest)
  {
    hide Claims, Claimed, Clings;
    forall ref ensures Claimed([x] + rest, ref) <==> Claims(x, ref) || Claimed(rest, ref) {
      ClaimedFirst(x, rest, ref);
    }
    forall k ensures Clings([x] + rest, k) <==> k in x.how.kept || Clings(rest, k) { ClingsFirst(x, rest, k); }
  }

  lemma ClaimedFirst(x: ItemPurge, rest: seq<ItemPurge>, ref: Ref)
    ensures Claimed([x] + rest, ref) <==> Claims(x, ref) || Claimed(rest, ref)
  {
    hide Claims;
    assert x in [x] + rest;
    assert forall y :: y in rest ==> y in [x] + rest;
  }

  lemma ClingsFirst(x: ItemPurge, rest: seq<ItemPurge>, k: BlobKey)
    ensures Clings([x] + rest, k) <==> k in x.how.kept || Clings(rest, k)
  {
    assert x in [x] + rest;
    assert forall y :: y in rest ==> y in [x] + rest;
  }

  /** Neither files nor trash matter to what purges take. */
  lemma TakesWithout(d: Drive, mid: Drive, items: seq<ItemPurge>)
    requires Valid(d) && SoundTrash(mid.trash) && mid == d.(trash := mid.trash, stranded := mid.stranded)
    ensures Valid(mid) && forall d' :: TakesExactly(mid, d', items) == TakesExactly(d, d', items)
  {
    hide Claimed, Clings;
  }

  /** Deleting one item of the trash for good takes exactly what it recorded or, without a record, its whole path. */
  lemma TrashDeleteIsExact(d: Drive, id: Id, how: Purging)
    requires Valid(d) && id in d.trash
    ensures var d' := TrashDelete(d, id, None, how);
      && d'.files == d.files && d'.trash == d.trash - {id} && d'.stranded == d.stranded
      && TakesExactly(d, d', [ItemPurge(d.trash[id], how)])
  {
    hide Valid, PurgeItemHistory, TakesExactly, RowsResolve;
    var mid := d.(trash := d.trash - {id});
    var items := [ItemPurge(d.trash[id], how)];
    FewerItems(d, {id});
    TakesWithout(d, mid, items);
    PurgeItemKeeps(mid, d.trash[id], how);
    PurgeItemsExact(mid, items);
    assert PurgeItems(mid, items) == PurgeItems(PurgeItemHistory(mid, items[0].item, items[0].how), []);
  }

  lemma FewerItems(d: Drive, gone: set<Id>)
    requires Valid(d)
    ensures SoundTrash(d.trash - gone) && SoundTrash(map[])
  {
  }

  /** Emptying the trash takes exactly what its listed items recorded, or the whole path of one without a record. */
  lemma TrashEmptyIsExact(d: Drive, order: seq<Id>, how: Id -> Purging)
    requires Valid(d)
    ensures var d' := TrashEmpty(d, order, None, how);
      && d'.files == d.files && d'.trash == map[] && d'.stranded == map[]
      && TakesExactly(d, d', Listed(d.trash, order, how))
      && (forall ref :: Claimed(Listed(d.trash, order, how), ref) <==>
            exists id :: id in order && id in d.trash && Claims(ItemPurge(d.trash[id], how(id)), ref))
  {
    hide PurgeItems, Listed, Valid, RowsResolve, Claims, Claimed, TakesExactly;
    var mid, items := d.(trash := map[], stranded := map[]), Listed(d.trash, order, how);
    FewerItems(d, {});
    TakesWithout(d, mid, items);
    PurgeItemsKeep(mid, items);
    PurgeItemsExact(mid, items);
    forall ref ensures Claimed(items, ref) <==>
        exists id :: id in order && id in d.trash && Claims(ItemPurge(d.trash[id], how(id)), ref) {
      ClaimedListed(d, order, how, ref);
    }
  }

  lemma {:induction false} ListedIs(trash: map<Id, TrashItem>, order: seq<Id>, how: Id -> Purging)
    ensures forall x :: x in Listed(trash, order, how) <==>
              exists id :: id in order && id in trash && x == ItemPurge(trash[id], how(id))
  {
    if order != [] {
      ListedIs(trash, order[1..], how);
      assert order == [order[0]] + order[1..];
    }
  }

  lemma ClaimedListed(d: Drive, order: seq<Id>, how: Id -> Purging, ref: Ref)
    ensures Claimed(Listed(d.trash, order, how), ref) <==>
            exists id :: id in order && id in d.trash && Claims(ItemPurge(d.trash[id], how(id)), ref)
  {
    hide Listed, Claims;
    ListedIs(d.trash, order, how);
    var items := Listed(d.trash, order, how);
    if id :| id in order && id in d.trash && Claims(ItemPurge(d.trash[id], how(id)), ref) {
      assert ItemPurge(d.trash[id], how(id)) in items;
    }
  }

  /** The janitor purges by path only, as if no item had a record. */
  function Unrecorded(roots: seq<RootPurge>): seq<ItemPurge> {
    if roots == [] then []
    else [ItemPurge(TrashItem(roots[0].root, map[], [], 0), roots[0].how)] + Unrecorded(roots[1..])
  }

  lemma {:induction false} SweptAsItems(d: Drive, roots: seq<RootPurge>)
    ensures PurgeHistories(d, roots) == PurgeItems(d, Unrecorded(roots))
    decreases |roots|
  {
    hide PurgeHistory;
    if roots != [] {
      SweptAsItems(PurgeHistory(d, roots[0].root, roots[0].how), roots[1..]);
      assert Unrecorded(roots)[1..] == Unrecorded(roots[1..]);
    }
  }

  function RootPaths(roots: seq<RootPurge>): set<Path> {
    set x | x in roots :: x.root
  }

  /** The items a sweep leaves in the trash: stuck ones, and notes that outlive their payload. */
  function Outlasting(stuck: map<Id, set<string>>, notes: set<Id>): map<Id, set<string>> {
    (map id | id in notes :: {}) + stuck
  }

  /** The original paths of the items that went. */
  function SweptOrigs(d: Drive, cutoff: int, stuck: map<Id, set<string>>): set<Path> {
    set id | id in Expired(d, cutoff) && id !in stuck :: d.trash[id].orig
  }

  /** The purge of a whole path takes the row `ref` names. */
  predicate RootClaims(root: Path, how: Path -> Purging, ref: Ref) {
    how(root).indexOk && root !in {"", "/"} && Selected(root, ref.path)
  }

  lemma {:induction false} ClaimedUnrecorded(roots: seq<RootPurge>, how: Path -> Purging, ref: Ref)
    requires forall x :: x in roots ==> x.how == how(x.root)
    ensures Claimed(Unrecorded(roots), ref) <==> exists p :: p in RootPaths(roots) && RootClaims(p, how, ref)
  {
    hide Selected;
    if roots != [] {
      ClaimedUnrecorded(roots[1..], how, ref);
      assert roots == [roots[0]] + roots[1..];
      assert RootPaths(roots) == {roots[0].root} + RootPaths(roots[1..]);
      ClaimedFirst(ItemPurge(TrashItem(roots[0].root, map[], [], 0), roots[0].how), Unrecorded(roots[1..]), ref);
    }
  }

  /** Some item that went claims the row `ref` names, by its original path. */
  ghost predicate ExpiryClaims(d: Drive, cutoff: int, stuck: map<Id, set<string>>, how: Path -> Purging, ref: Ref) {
    exists id :: id in Expired(d, cutoff) && id !in stuck && RootClaims(d.trash[id].orig, how, ref)
  }

  lemma ExpiredClaims(d: Drive, cutoff: int, stuck: map<Id, set<string>>, how: Path -> Purging, ref: Ref)
    ensures (exists p :: p in SweptOrigs(d, cutoff, stuck) && RootClaims(p, how, ref)) <==>
            ExpiryClaims(d, cutoff, stuck, how, ref)
  {
    hide RootClaims;
    if ExpiryClaims(d, cutoff, stuck, how, ref) {
      var id :| id in Expired(d, cutoff) && id !in stuck && RootClaims(d.trash[id].orig, how, ref);
      assert d.trash[id].orig in SweptOrigs(d, cutoff, stuck);
    }
  }

  /**
   A sweep that purges the original path of each expired item that went takes
   exactly the rows and blobs selected for one of those paths, whoever owns them:
   not only what the items recorded. The item itself goes unless it is stuck or
   its note stays.
   */
  lemma SweepIsExact(d: Drive, cutoff: int, stuck: map<Id, set<string>>, notes: set<Id>, roots: seq<RootPurge>,
                     how: Path -> Purging)
    requires Valid(d) && forall x :: x in roots ==> x.how == how(x.root)
    requires RootPaths(roots) == SweptOrigs(d, cutoff, stuck)
    ensures var d' := SweepTrash(d, cutoff, Outlasting(stuck, notes), roots);
      && d'.files == d.files && d'.stranded == d.stranded && TakesExactly(d, d', Unrecorded(roots))
      && (forall ref :: Claimed(Unrecorded(roots), ref) <==> ExpiryClaims(d, cutoff, stuck, how, ref))
      && (forall id :: id in d.trash ==>
            (id in d'.trash <==> id !in Expired(d, cutoff) || id in stuck || id in notes))
  {
    hide PurgeHistories, PurgeItems, Valid, RowsResolve, Claimed, TakesExactly, Expired, Remnant, RootClaims,
         ExpiryClaims, SweptOrigs, RootPaths;
    var gone, left := Expired(d, cutoff), Outlasting(stuck, notes);
    var some := map id | id in gone && id in left :: left[id];
    var mid := d.(trash := (d.trash - gone) + Remnant(d.trash, some));
    SweptTrashIsSound(d, gone, some);
    TakesWithout(d, mid, Unrecorded(roots));
    PurgeHistoriesKeep(mid, roots);
    SweptAsItems(mid, roots);
    PurgeItemsExact(mid, Unrecorded(roots));
    forall ref ensures Claimed(Unrecorded(roots), ref) <==> ExpiryClaims(d, cutoff, stuck, how, ref) {
      ClaimedUnrecorded(roots, how, ref);
      ExpiredClaims(d, cutoff, stuck, how, ref);
    }
    RemnantIds(d.trash, some);
  }

  lemma RemnantIds(trash: map<Id, TrashItem>, left: map<Id, set<string>>)
    ensures Remnant(trash, left).Keys == trash.Keys * left.Keys
  {
  }

  lemma SweptTrashIsSound(d: Drive, gone: set<Id>, some: map<Id, set<string>>)
    requires Valid(d)
    ensures SoundTrash((d.trash - gone) + Remnant(d.trash, some))
  {
    RemnantSound(d.trash, some);
    hide Remnant;
  }

  /** "/a" was deleted, with version "v0" on record, and created anew; the new file has version "v1". */
  const RECREATED: Drive :=
    Drive(map["/a" := File([2], 0)], map["t" := OLDER], map[],
          map[0 := Row("/a", "v0", 0, 0), 1 := Row("/a", "v1", 1, 0)], 2,
          map[BlobKey("/a", "v0") := [], BlobKey("/a", "v1") := [1]], map["v0" := [], "v1" := [1]])

  const OLDER: TrashItem := TrashItem("/a", map["" := File([0], 0)], [Ref("/a", "v0")], 1_000_000_000)

  const CLEAN_PURGE := Purging(true, {})

  /**
   Deleting the trashed item for good leaves the new file its history; the
   janitor, when the item expires, takes that history too.
   */
  lemma SweepTakesNewerHistory()
    ensures Valid(RECREATED) && RowsResolve(RECREATED) && "t" in Expired(RECREATED, 1_000_000_001)
    ensures var d' := TrashDelete(RECREATED, "t", None, CLEAN_PURGE);
      1 in d'.rows && d'.blobs == map[BlobKey("/a", "v1") := [1]]
    ensures var roots := [RootPurge("/a", CLEAN_PURGE)];
      var d' := SweepTrash(RECREATED, 1_000_000_001, Outlasting(map[], {}), roots);
      RootPaths(roots) == SweptOrigs(RECREATED, 1_000_000_001, map[]) && d'.rows == map[] && d'.blobs == map[]
  {
    var roots := [RootPurge("/a", CLEAN_PURGE)];
    var how: Path -> Purging := _ => CLEAN_PURGE;
    RecreatedExpires(roots);
    RecreatedIsValid();
    hide Valid, RowsResolve, TrashDelete, SweepTrash, TakesExactly;
    TrashDeleteIsExact(RECREATED, "t", CLEAN_PURGE);
    SweepIsExact(RECREATED, 1_000_000_001, map[], {}, roots, how);
    RecreatedDeleted(TrashDelete(RECREATED, "t", None, CLEAN_PURGE));
    RecreatedSwept(SweepTrash(RECREATED, 1_000_000_001, Outlasting(map[], {}), roots), roots);
  }

  lemma RecreatedExpires(roots: seq<RootPurge>)
    requires roots == [RootPurge("/a", CLEAN_PURGE)]
    ensures RootPaths(roots) == SweptOrigs(RECREATED, 1_000_000_001, map[])
    ensures forall x :: x in roots ==> x.how == CLEAN_PURGE
  {
    assert Expired(RECREATED, 1_000_000_001) == {"t"};
    assert RECREATED.trash["t"].orig == "/a" && roots[0] in roots && roots[0].root == "/a";
  }

  lemma RecreatedIsValid()
    ensures Valid(RECREATED) && RowsResolve(RECREATED)
  {
    RecreatedIndex(RECREATED.blobs, RECREATED.rows, RECREATED.issued);
    RecreatedTrash(RECREATED.trash);
    hide SoundBlobs, SoundRows, SoundTrash;
  }

  lemma RecreatedIndex(blobs: map<BlobKey, Bytes>, rows: map<nat, Row>, issued: map<Id, Bytes>)
    requires blobs == map[BlobKey("/a", "v0") := [], BlobKey("/a", "v1") := [1]]
    requires rows == map[0 := Row("/a", "v0", 0, 0), 1 := Row("/a", "v1", 1, 0)]
    requires issued == map["v0" := [], "v1" := [1]]
    ensures SoundBlobs(blobs, issued) && SoundRows(rows, 2, issued)
    ensures forall i :: i in rows ==> KeyOf(rows[i]) in blobs && blobs[KeyOf(rows[i])] == issued[rows[i].vid]
  {
    assert "v0"[1] != "v1"[1];
  }

  lemma RecreatedTrash(trash: map<Id, TrashItem>)
    requires trash == map["t" := OLDER]
    ensures SoundTrash(trash)
  {
  }

  lemma RecreatedDeleted(d': Drive)
    requires TakesExactly(RECREATED, d', [ItemPurge(RECREATED.trash["t"], CLEAN_PURGE)])
    ensures 1 in d'.rows && d'.blobs == map[BlobKey("/a", "v1") := [1]]
  {
    var x := ItemPurge(RECREATED.trash["t"], CLEAN_PURGE);
    assert Claims(x, Ref("/a", "v0")) && !Claims(x, Ref("/a", "v1")) && x in [x];
    hide Claims;
    assert RefOf(RECREATED.rows[0]) == Ref("/a", "v0") && RefOf(RECREATED.rows[1]) == Ref("/a", "v1");
    assert KeyOf(RECREATED.rows[0]) == BlobKey("/a", "v0");
  }

  lemma RecreatedSwept(d': Drive, roots: seq<RootPurge>)
    requires roots == [RootPurge("/a", CLEAN_PURGE)] && TakesExactly(RECREATED, d', Unrecorded(roots))
    ensures d'.rows == map[] && d'.blobs == map[]
  {
    assert Selected("/a", "/a");
    assert roots[0] in roots;
    forall v ensures Claimed(Unrecorded(roots), Ref("/a", v)) {
      assert "/a" in RootPaths(roots) && RootClaims("/a", _ => CLEAN_PURGE, Ref("/a", v));
      ClaimedUnrecorded(roots, _ => CLEAN_PURGE, Ref("/a", v));
    }
    hide Selected, Claimed;
    assert Unrecorded(roots)[1..] == [];
    assert KeyOf(RECREATED.rows[0]) == BlobKey("/a", "v0") && KeyOf(RECREATED.rows[1]) == BlobKey("/a", "v1");
  }

  // ---- pruning ----

  /** Pruning leaves live files and trash alone and every remaining row resolving, wherever it stops. */
  lemma PruneKeeps(d: Drive, keep: nat, how: Pruning)
    requires Valid(d)
    ensures var d' := Prune(d, keep, how);
      Valid(d') && (RowsResolve(d) ==> RowsResolve(d')) && d' == d.(rows := d'.rows, blobs := d'.blobs)
  {
    hide Overflow;
    var d' := Prune(d, keep, how);
    forall i | i in d'.rows && RowsResolve(d) ensures BlobKey(d'.rows[i].path, d'.rows[i].vid) in d'.blobs {
      assert RefOf(d.rows[i]) == Ref(d.rows[i].path, d.rows[i].vid);
    }
  }

  /**
   If it does not stop, each row that goes takes its blob along unless that cannot
   be removed, and no other blob goes; if it does, none goes at all.
   */
  lemma PruneTakes(d: Drive, keep: nat, how: Pruning)
    ensures var d' := Prune(d, keep, how);
      && (forall i :: i in d'.rows ==> i in d.rows && d'.rows[i] == d.rows[i])
      && (forall k :: k in d'.blobs ==> k in d.blobs && d'.blobs[k] == d.blobs[k])
      && (how.Stopped? ==> d'.blobs == d.blobs)
      && (how.Pruned? ==> forall i :: i in d.rows && i !in d'.rows && KeyOf(d.rows[i]) !in how.kept ==>
                            KeyOf(d.rows[i]) !in d'.blobs)
      && (forall k :: k in d.blobs && k !in d'.blobs ==>
            exists i :: i in d.rows && i !in d'.rows && KeyOf(d.rows[i]) == k)
  {
    hide Overflow;
    var d', refs := Prune(d, keep, how), RefsOf(d.rows, Overflow(d.rows, keep));
    forall k | k in d.blobs && k !in d'.blobs
      ensures exists i :: i in d.rows && i !in d'.rows && KeyOf(d.rows[i]) == k
    {
      assert how.Pruned? && Ref(k.path, k.vid) in refs;
      var i :| i in Overflow(d.rows, keep) && i in d.rows && RefOf(d.rows[i]) == Ref(k.path, k.vid);
      assert i !in d'.rows && KeyOf(d.rows[i]) == k;
    }
  }

  // ---- version restore ----

  /** The content replaced at `path` is indexed there under version `v1`. */
  predicate Replaced(d: Drive, d': Drive, path: Path, v1: Id) {
    path in d.files && v1 in d'.issued && d'.issued[v1] == d.files[path].bytes && HasRow(d', Ref(path, v1))
  }

  /** Snapshotting what is live archives nothing new, and loses nothing. */
  lemma SnapshotSame(d: Drive, path: Path, vid: Id)
    requires Valid(d) && path in d.files && vid !in d.issued
    ensures forall b :: Archived(Snapshot(d, path, vid), b) <==> Archived(d, b)
  {
    hide InTrash, InStranded;
    var d' := Snapshot(d, path, vid);
    assert BlobKey(path, vid) !in d.blobs;
    forall b | InBlobs(d.blobs, b) ensures InBlobs(d'.blobs, b) {
      var k :| k in d.blobs && d.blobs[k] == b;
      assert k in d'.blobs && d'.blobs[k] == b;
    }
  }

  lemma IndexCurrentKeeps(d: Drive, raw: string, v1: Id, now: int, snap: Snapping)
    requires Valid(d)
    ensures var d1 := IndexCurrent(d, raw, v1, now, snap);
      && Valid(d1) && (forall b :: Archived(d1, b) <==> Archived(d, b)) && (RowsResolve(d) ==> RowsResolve(d1))
      && d1.files == d.files && (forall v :: v in d.issued ==> v in d1.issued && d1.issued[v] == d.issued[v])
      && (ValidateRel(raw).Ok? && MustValidate(raw) in d.files && snap.Indexed? && v1 !in d.issued ==>
            Replaced(d, d1, MustValidate(raw), v1))
  {
    hide ValidateRel, InFiles, InTrash, InStranded, InBlobs;
    var path := MustValidate(raw);
    if path in d.files && v1 !in d.issued && !snap.NoSnapshot? {
      SnapshotKeeps(d, path, v1);
      SnapshotSame(d, path, v1);
      SnapshotResolves(d, path, v1);
      AddRowKeeps(Snapshot(d, path, v1), path, v1, |d.files[path].bytes|, now);
      var d1 := AddRow(Snapshot(d, path, v1), path, v1, |d.files[path].bytes|, now);
      assert d.nextRow in d1.rows && RefOf(d1.rows[d.nextRow]) == Ref(path, v1);
      assert forall b :: Archived(d1, b) == Archived(Snapshot(d, path, v1), b);
    }
  }

  lemma SnapshotResolves(d: Drive, path: Path, vid: Id)
    requires Valid(d) && path in d.files && vid !in d.issued
    ensures RowsResolve(d) ==> RowsResolve(Snapshot(d, path, vid))
    ensures vid in Snapshot(d, path, vid).issued && BlobKey(path, vid) in Snapshot(d, path, vid).blobs
  {
  }

  /** The restored version goes over a live file unseen, whose bytes are nowhere else. */
  predicate StoreLoses(d: Drive, raw: string, vid: Id, fault: UploadFault) {
    var key := BlobKey(MustValidate(raw), vid);
    ValidateRel(raw).Ok? && key in d.blobs &&
    UploadLoses(d, UploadRequest(raw, d.blobs[key], "", false, "", ""), fault)
  }

  predicate VersionRestoreLoses(
    d: Drive, raw: string, vid: Id, v1: Id, now: int, snap: Snapping, fault: UploadFault)
  {
    HasRow(d, Ref(MustValidate(raw), vid)) && StoreLoses(IndexCurrent(d, raw, v1, now, snap), raw, vid, fault)
  }

  /** A snapshot of what is replaced, indexed or not, is enough. */
  lemma SnapshotSaves(d: Drive, raw: string, vid: Id, v1: Id, now: int, snap: Snapping, fault: UploadFault)
    requires !snap.NoSnapshot? && v1 !in d.issued
    ensures !VersionRestoreLoses(d, raw, vid, v1, now, snap, fault)
  {
    hide ValidateRel, Blocked, Directories;
    var path, d1 := MustValidate(raw), IndexCurrent(d, raw, v1, now, snap);
    if path in d.files && ValidateRel(raw).Ok? {
      assert BlobKey(path, v1) in d1.blobs && d1.blobs[BlobKey(path, v1)] == d1.files[path].bytes;
    }
  }

  lemma StoreVersionKeeps(d: Drive, raw: string, vid: Id, v2: Id, now: int, fault: UploadFault)
    requires Valid(d)
    ensures var (d', r) := StoreVersion(d, raw, vid, v2, now, fault);
      && Valid(d') && (Keeps(d, d') <==> !StoreLoses(d, raw, vid, fault)) && (RowsResolve(d) ==> RowsResolve(d'))
      && d'.rows == d.rows
      && (forall v :: v in d.issued ==> v in d'.issued && d'.issued[v] == d.issued[v])
      && (r.Ok? ==> vid in d.issued && MustValidate(raw) in d'.files &&
                    d'.files[MustValidate(raw)].bytes == d.issued[vid])
  {
    hide ValidateRel, DriverUpload, UploadLoses, Overwrites, Archived;
    var key := BlobKey(MustValidate(raw), vid);
    if ValidateRel(raw).Ok? && key in d.blobs {
      var req := UploadRequest(raw, d.blobs[key], "", false, "", "");
      DriverUploadKeeps(d, req, v2, now, fault);
      StoredBytes(d, req, v2, now, fault);
    } else {
      KeepsSelf(d);
    }
  }

  lemma StoredBytes(d: Drive, req: UploadRequest, vid: Id, now: int, fault: UploadFault)
    requires !req.conflictRename
    ensures var (d', r) := DriverUpload(d, req, vid, now, fault); var path := MustValidate(req.path);
      r.Ok? ==> path in d'.files && d'.files[path].bytes == req.bytes
  {
    hide ValidateRel, DriverUpload, Directories, Blocked;
    var target := UploadHasShape(d, req, vid, now, fault);
  }

  lemma SameArchiveKeeps(d: Drive, d1: Drive, d': Drive)
    requires forall b :: Archived(d1, b) <==> Archived(d, b)
    ensures Keeps(d, d') <==> Keeps(d1, d')
  {
    hide Archived;
  }

  /**
   Restoring a version puts back the bytes snapshotted under its id, and is
   reversible: what it replaced is itself indexed under a fresh version. It loses
   content exactly if it could neither snapshot nor see what it replaced, and that
   is nowhere else.
   */
  lemma VersionRestoreReversible(
    d: Drive, raw: string, vid: Id, v1: Id, v2: Id, now: int, snap: Snapping, fault: UploadFault)
    requires Valid(d)
    ensures var (d', r) := VersionRestore(d, raw, vid, v1, v2, now, snap, fault);
      var path := MustValidate(raw);
      && Valid(d') && (Keeps(d, d') <==> !VersionRestoreLoses(d, raw, vid, v1, now, snap, fault))
      && (RowsResolve(d) ==> RowsResolve(d'))
      && (r.Ok? ==> vid in d.issued && path in d'.files && d'.files[path].bytes == d.issued[vid])
      && (r.Ok? && path in d.files && snap.Indexed? && v1 !in d.issued ==> Replaced(d, d', path, v1))
  {
    hide ValidateRel, StoreVersion, IndexCurrent, Archived, StoreLoses, Valid, RowsResolve;
    KeepsSelf(d);
    if HasRow(d, Ref(MustValidate(raw), vid)) {
      IndexCurrentKeeps(d, raw, v1, now, snap);
      var d1 := IndexCurrent(d, raw, v1, now, snap);
      StoreVersionKeeps(d1, raw, vid, v2, now, fault);
      SameArchiveKeeps(d, d1, StoreVersion(d1, raw, vid, v2, now, fault).0);
      RestoredFrom(d, raw, vid, v1, now, snap);
      StoreNeedsPath(d1, raw, vid, v2, now, fault);
    }
  }

  lemma StoreNeedsPath(d: Drive, raw: string, vid: Id, v2: Id, now: int, fault: UploadFault)
    ensures StoreVersion(d, raw, vid, v2, now, fault).1.Ok? ==>
              ValidateRel(raw).Ok? && BlobKey(MustValidate(raw), vid) in d.blobs
  {
    hide ValidateRel, DriverUpload;
  }

  /** The bytes of the version asked for are those from before the snapshot. */
  lemma RestoredFrom(d: Drive, raw: string, vid: Id, v1: Id, now: int, snap: Snapping)
    requires Valid(d) && HasRow(d, Ref(MustValidate(raw), vid))
    ensures vid in d.issued
  {
    hide ValidateRel;
  }
}
