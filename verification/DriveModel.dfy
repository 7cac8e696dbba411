/**
 One user's drive as the server keeps it: live files, trash items, the version
 index (rows) and the version blobs, with every handler as a function from the
 state before to the state after. The per-user lock makes a handler one step.

 A blob directory is named by a hash of its path; the hash is taken to be
 injective, so blobs are keyed by the path itself. Ids are taken to be fresh:
 a handler that draws an id already in use answers an error and does nothing.
 */
module DriveModel {
  import opened LikePattern
  import opened LogicalPath
  import opened Strings
  import opened Wrappers

  type Path = string
  type Id = string
  type Bytes = seq<bv8>

  datatype File = File(bytes: Bytes, mtime: int)
  datatype Row = Row(path: Path, vid: Id, size: nat, at: int)
  datatype Ref = Ref(path: Path, vid: Id)
  datatype BlobKey = BlobKey(path: Path, vid: Id)

  /** `payload` maps a suffix of the original path ("" for a file) to a file. */
  datatype TrashItem = TrashItem(orig: Path, payload: map<string, File>, versions: seq<Ref>, deletedAt: int)

  /**
   `stranded` has the payloads in the trash directory that no note names, and
   `issued` remembers which bytes were snapshotted under each version id.
   */
  datatype Drive = Drive(
    files: map<Path, File>,
    trash: map<Id, TrashItem>,
    stranded: map<Id, map<string, File>>,
    rows: map<nat, Row>,
    nextRow: nat,
    blobs: map<BlobKey, Bytes>,
    issued: map<Id, Bytes>)

  // ---- the file tree ----

  /** Proper ancestors of live files: the directories that hold something. */
  function Directories(files: map<Path, File>): set<Path> {
    {"/"} + set p, k | p in files && 0 < k < |p| && p[k] == '/' :: p[..k]
  }

  function Occupied(files: map<Path, File>): set<Path> {
    files.Keys + Directories(files)
  }

  /** Some ancestor of `p` is a file, so the parents of `p` cannot be made. */
  predicate Blocked(files: map<Path, File>, p: Path) {
    exists q :: q in files && HasPrefix(p, q + "/")
  }

  /** What moves when `p` moves: the file itself, or everything below the directory. */
  function Subtree(files: map<Path, File>, p: Path): set<Path> {
    if p in files then {p} else set q | q in files && HasPrefix(q, p + "/")
  }

  function Detach(files: map<Path, File>, p: Path): map<string, File> {
    map s | s in (set q | q in Subtree(files, p) :: TrimPrefix(q, p)) && p + s in files :: files[p + s]
  }

  function Attach(files: map<Path, File>, p: Path, payload: map<string, File>): map<Path, File> {
    files + map q | q in (set s | s in payload :: p + s) && TrimPrefix(q, p) in payload :: payload[TrimPrefix(q, p)]
  }

  // ---- the version index ----

  function SelectedRows(rows: map<nat, Row>, root: Path): set<nat> {
    set i | i in rows && Selected(root, rows[i].path)
  }

  function RowPaths(rows: map<nat, Row>, ids: set<nat>): set<Path> {
    set i | i in ids && i in rows :: rows[i].path
  }

  function AddRow(d: Drive, path: Path, vid: Id, size: nat, at: int): Drive {
    d.(rows := d.rows[d.nextRow := Row(path, vid, size, at)], nextRow := d.nextRow + 1)
  }

  /** The rows for `root` and everything below it, in row order, up to row `n`. */
  function RefsUnder(rows: map<nat, Row>, root: Path, n: nat): seq<Ref> {
    if n == 0 then []
    else RefsUnder(rows, root, n - 1) +
         if n - 1 in rows && Selected(root, rows[n - 1].path) then [Ref(rows[n - 1].path, rows[n - 1].vid)] else []
  }

  function VersionsUnder(d: Drive, root: Path): seq<Ref> {
    RefsUnder(d.rows, root, d.nextRow)
  }

  function RelocateRows(rows: map<nat, Row>, oldRoot: Path, newRoot: Path): map<nat, Row> {
    map i | i in rows ::
      if Selected(oldRoot, rows[i].path) then rows[i].(path := SqlRewrite(oldRoot, newRoot, rows[i].path))
      else rows[i]
  }

  function RefOf(row: Row): Ref {
    Ref(row.path, row.vid)
  }

  // ---- version blobs ----

  /**
   Moves one blob directory, merging into the destination if that exists; the
   versions in `left` stay: none when the move works, all when it fails, some
   when a merge stops half way.
   */
  function MoveBlobDir(blobs: map<BlobKey, Bytes>, from: Path, to: Path, left: set<Id>): map<BlobKey, Bytes> {
    (map k | k in blobs && (k.path != from || k.vid in left) :: blobs[k]) +
    (map k | k in (set j | j in blobs && j.path == from && j.vid !in left :: BlobKey(to, j.vid)) &&
             BlobKey(from, k.vid) in blobs :: blobs[BlobKey(from, k.vid)])
  }

  function MoveBlob(blobs: map<BlobKey, Bytes>, from: Path, to: Path, vid: Id): map<BlobKey, Bytes> {
    if BlobKey(from, vid) in blobs
    then (blobs - {BlobKey(from, vid)})[BlobKey(to, vid) := blobs[BlobKey(from, vid)]]
    else blobs
  }

  /** One attempt to move the blob directory of `path`, and the versions it left behind. */
  datatype DirMove = DirMove(path: Path, left: set<Id>)

  /** Whether the index transaction committed, and the directory moves that followed, in the order listed. */
  datatype Relocation = Relocation(indexOk: bool, moves: seq<DirMove>)

  function MoveBlobDirs(blobs: map<BlobKey, Bytes>, moves: seq<DirMove>, oldRoot: Path, newRoot: Path)
    : map<BlobKey, Bytes>
    decreases |moves|
  {
    if moves == [] then blobs
    else
      var m := moves[0];
      MoveBlobDirs(MoveBlobDir(blobs, m.path, GoRewrite(oldRoot, newRoot, m.path), m.left), moves[1..],
                   oldRoot, newRoot)
  }

  function PathsOf(moves: seq<DirMove>): (paths: seq<Path>)
    ensures |paths| == |moves|
  {
    seq(|moves|, i requires 0 <= i < |moves| => moves[i].path)
  }

  /** `order` lists the members of `all`, each once. */
  ghost predicate Lists(order: seq<string>, all: set<string>) {
    (forall p :: p in all <==> p in order) && forall i, j :: 0 <= i < j < |order| ==> order[i] != order[j]
  }

  function OldPaths(d: Drive, oldRoot: Path): set<Path> {
    RowPaths(d.rows, SelectedRows(d.rows, oldRoot))
  }

  /** Rows first, then blob directories; roots are never relocated, and an index error ends it. */
  function RelocateHistory(d: Drive, oldRoot: Path, newRoot: Path, how: Relocation): Drive {
    if oldRoot in {"", "/"} || newRoot in {"", "/"} || oldRoot == newRoot || !how.indexOk then d
    else d.(rows := RelocateRows(d.rows, oldRoot, newRoot),
            blobs := MoveBlobDirs(d.blobs, how.moves, oldRoot, newRoot))
  }

  // ---- upload ----

  /**
   The filesystem or database call of an upload that fails, if any. `Unseen` is the
   first stat of the target, whose error is discarded; `again` says whether the
   stat after the commit fails as well.
   */
  datatype UploadFault =
    | NoFault
    | Staging
    | Unseen(again: bool)
    | Snapshotting
    | Committing
    | StatAfterCommit
    | Indexing

  datatype UploadRequest = UploadRequest(
    path: string, bytes: Bytes, ifMatch: string, conflictRename: bool, deviceTag: string, stamp: string)

  datatype Entry = Entry(path: Path, size: nat, mtime: int)
  datatype Stored = Stored(entry: Entry, conflicted: bool, prev: Option<Id>, prevSize: nat)

  function SanitizeTag(t: string): string {
    var mapped := seq(|t|, i requires 0 <= i < |t| => if t[i] in "/\\:*?\"<>|\0" then '-' else t[i]);
    if |mapped| > 60 then mapped[..60] else mapped
  }

  function ConflictCopyName(path: Path, deviceTag: string, stamp: string): Result<Path, FsError> {
    var name := NameOf(path);
    var ext := Ext(name);
    var tag := if deviceTag == "" then "another device" else deviceTag;
    JoinPath(ParentOf(path),
             TrimSuffix(name, ext) + " (conflict from " + SanitizeTag(tag) + " " + stamp + ")" + ext)
  }

  function Numbered(path: Path, n: nat): Path {
    TrimSuffix(path, Ext(path)) + " (" + Numeral(n, Ten) + ")" + Ext(path)
  }

  /** The probe loop: number the name until it is free or no longer acceptable. */
  function FreeCopyName(files: map<Path, File>, path: Path, n: nat): (r: Result<Path, FsError>)
    ensures r.Ok? ==> r.value !in Occupied(files) && ValidateRel(r.value) == Ok(r.value)
    decreases 4097 - |path|
  {
    if ValidateRel(path) != Ok(path) then Err(Invalid)
    else if path !in Occupied(files) then Ok(path)
    else
      assert |path| <= 4096;
      assert |Numbered(path, n)| > |path| by {
        assert |TrimSuffix(path, Ext(path))| + |Ext(path)| == |path|;
      }
      FreeCopyName(files, Numbered(path, n), n + 1)
  }

  function Snapshot(d: Drive, path: Path, vid: Id): Drive
    requires path in d.files
  {
    d.(blobs := d.blobs[BlobKey(path, vid) := d.files[path].bytes],
       issued := d.issued[vid := d.files[path].bytes])
  }

  /** Makes the parents and renames the staged upload into place. */
  function Commit(d: Drive, target: Path, bytes: Bytes, now: int, fault: UploadFault): (Drive, Result<Entry, FsError>) {
    if fault.Committing? || Blocked(d.files, target) then (d, Err(Io))
    else
      var d' := d.(files := d.files[target := File(bytes, now)]);
      (d', if fault.StatAfterCommit? then Err(Io) else Ok(Entry(target, |bytes|, now)))
  }

  function Finish(r: (Drive, Result<Entry, FsError>), conflicted: bool, prev: Option<Id>, size: nat)
    : (Drive, Result<Stored, FsError>)
  {
    (r.0, match r.1 case Ok(e) => Ok(Stored(e, conflicted, prev, size)) case Err(e) => Err(e))
  }

  /** The conflict-rename branch: keep the live file and store a copy beside it. */
  function StoreCopy(d: Drive, path: Path, req: UploadRequest, now: int, fault: UploadFault)
    : (Drive, Result<Stored, FsError>)
  {
    match ConflictCopyName(path, req.deviceTag, req.stamp)
    case Err(e) => (d, Err(e))
    case Ok(name) =>
      match FreeCopyName(d.files, name, 2)
      case Err(e) => (d, Err(e))
      case Ok(target) => Finish(Commit(d, target, req.bytes, now, fault), true, None, 0)
  }

  /** The overwrite branch: check If-Match, snapshot the live content, then replace it. */
  function Overwrite(d: Drive, path: Path, req: UploadRequest, vid: Id, now: int, fault: UploadFault)
    : (Drive, Result<Stored, FsError>)
    requires path in d.files
  {
    if req.ifMatch != "" && req.ifMatch != EtagOf(d.files[path].mtime, |d.files[path].bytes|) then
      (d, Err(Conflict))
    else if fault.Snapshotting? || vid in d.issued then (d, Err(Io))
    else
      Finish(Commit(Snapshot(d, path, vid), path, req.bytes, now, fault),
             false, Some(vid), |d.files[path].bytes|)
  }

  /** A target that could not be looked at is taken to be absent, and a file there is replaced as it is. */
  function PutUnseen(d: Drive, path: Path, bytes: Bytes, now: int, again: bool): (Drive, Result<Stored, FsError>) {
    if path in Directories(d.files) then (d, Err(Io))
    else Finish(Commit(d, path, bytes, now, if again then StatAfterCommit else NoFault), false, None, 0)
  }

  /** The storage driver's upload; it writes a blob but never a row. */
  function DriverUpload(d: Drive, req: UploadRequest, vid: Id, now: int, fault: UploadFault)
    : (Drive, Result<Stored, FsError>)
  {
    match ValidateRel(req.path)
    case Err(e) => (d, Err(e))
    case Ok(path) =>
      if path == "/" then (d, Err(Invalid))
      else if fault.Staging? then (d, Err(Io))
      else if fault.Unseen? then PutUnseen(d, path, req.bytes, now, fault.again)
      else if path in d.files then
        if req.conflictRename then StoreCopy(d, path, req, now, fault)
        else Overwrite(d, path, req, vid, now, fault)
      else if path in Directories(d.files) then (d, Err(Exists))
      else Finish(Commit(d, path, req.bytes, now, fault), false, None, 0)
  }

  /** Indexes the snapshot of a stored upload under the requested path. */
  function IndexSnapshot(d: Drive, path: Path, r: Result<Stored, FsError>, now: int, fault: UploadFault): Drive {
    if r.Ok? && r.value.prev.Some? && !fault.Indexing?
    then AddRow(d, path, r.value.prev.value, r.value.prevSize, now) else d
  }

  /** The upload handler: store, then index. */
  function Upload(d: Drive, req: UploadRequest, vid: Id, now: int, fault: UploadFault)
    : (Drive, Result<Stored, FsError>)
  {
    var stored := DriverUpload(d, req, vid, now, fault);
    (IndexSnapshot(stored.0, MustValidate(req.path), stored.1, now, fault), stored.1)
  }

  function MustValidate(path: string): Path {
    match ValidateRel(path) case Ok(p) => p case Err(_) => "/"
  }

  // ---- rename and move ----

  function MoveTree(d: Drive, from: Path, to: Path): Drive {
    var payload := Detach(d.files, from);
    d.(files := Attach(d.files - Subtree(d.files, from), to, payload))
  }

  /** Whether the rename fails, or the look at the destination before it, which is then taken to be free. */
  datatype RenameFault = NoneFails | CallFails | CheckFails

  /** What `os.Rename` can put in place of something: a path in place of itself, or a file in place of a file. */
  predicate Replaceable(files: map<Path, File>, from: Path, dst: Path) {
    dst == from || (from in files && dst in files && dst !in Directories(files))
  }

  /** The checks both operations share once the destination path is known. */
  function Relocate(d: Drive, from: Path, dst: Path, how: Relocation, f: RenameFault): (Drive, Result<Path, FsError>) {
    var taken := dst in Occupied(d.files);
    if ValidateRel(dst) != Ok(dst) then (d, Err(Invalid))
    else if taken && !f.CheckFails? then (d, Err(Exists))
    else if Subtree(d.files, from) == {} then (d, Err(NotFound))
    else if f.CallFails? || Blocked(d.files, dst) || (taken && !Replaceable(d.files, from, dst)) then (d, Err(Io))
    else (RelocateHistory(MoveTree(d, from, dst), from, dst, how), Ok(dst))
  }

  function Rename(d: Drive, from: string, toName: string, how: Relocation, f: RenameFault)
    : (Drive, Result<Path, FsError>)
  {
    if !ValidName(toName) then (d, Err(Invalid))
    else
      match ValidateRel(from)
      case Err(e) => (d, Err(e))
      case Ok(src) =>
        if src == "/" then (d, Err(Invalid))
        else
          match JoinPath(ParentOf(src), toName)
          case Err(e) => (d, Err(e))
          case Ok(dst) => Relocate(d, src, dst, how, f)
  }

  function Move(d: Drive, from: string, destDir: string, how: Relocation, f: RenameFault)
    : (Drive, Result<Path, FsError>)
  {
    match ValidateRel(from)
    case Err(e) => (d, Err(e))
    case Ok(src) =>
      match ValidateRel(destDir)
      case Err(e) => (d, Err(e))
      case Ok(dir) =>
        if src == "/" then (d, Err(Invalid))
        else if src == dir || HasPrefix(dir, src + "/") then (d, Err(Invalid))
        else
          match JoinPath(dir, NameOf(src))
          case Err(e) => (d, Err(e))
          case Ok(dst) => Relocate(d, src, dst, how, f)
  }

  // ---- trash ----

  /**
   How a delete ends. It strands its payload if the note is not published and the
   payload cannot be brought home, or if the server dies in between.
   */
  datatype DeleteFault = Deletes | DeleteFails | Strands

  /** The delete handler. A failed index query leaves the record of owned versions empty. */
  function Delete(d: Drive, raw: string, id: Id, now: int, queryOk: bool, f: DeleteFault)
    : (Drive, Result<Id, FsError>)
  {
    match ValidateRel(raw)
    case Err(e) => (d, Err(e))
    case Ok(path) =>
      if path == "/" then (d, Err(Invalid))
      else if Subtree(d.files, path) == {} then (d, Err(NotFound))
      else if f.DeleteFails? || id in d.trash || id in d.stranded then (d, Err(Io))
      else if f.Strands? then (StrandPath(d, path, id), Err(Io))
      else
        (TrashPath(d, path, id, if queryOk then VersionsUnder(d, path) else [], now), Ok(id))
  }

  function TrashPath(d: Drive, path: Path, id: Id, owned: seq<Ref>, now: int): Drive {
    d.(files := d.files - Subtree(d.files, path),
       trash := d.trash[id := TrashItem(path, Detach(d.files, path), owned, now)])
  }

  function StrandPath(d: Drive, path: Path, id: Id): Drive {
    d.(files := d.files - Subtree(d.files, path), stranded := d.stranded[id := Detach(d.files, path)])
  }

  function RestoreName(orig: Path, n: nat): Path {
    if n < 2 then orig
    else TrimSuffix(orig, Ext(orig)) + " (restored " + Numeral(n, Ten) + ")" + Ext(orig)
  }

  lemma RestoreNamesDiffer(orig: Path, n: nat, m: nat)
    requires 1 <= n < m
    ensures RestoreName(orig, n) != RestoreName(orig, m)
  {
    hide Ext, Numeral;
    var stem, ext := TrimSuffix(orig, Ext(orig)), Ext(orig);
    assert orig == stem + ext;
    if n >= 2 && RestoreName(orig, n) == RestoreName(orig, m) {
      var a, b := Numeral(n, Ten), Numeral(m, Ten);
      assert |a| == |b|;
      var at := |stem| + |" (restored "|;
      assert RestoreName(orig, n)[at..at + |a|] == a;
      assert RestoreName(orig, m)[at..at + |a|] == b;
      NumeralInjective(n, m, Ten);
    }
  }

  /** Occupied names the search has not tried yet. */
  ghost function Untried(files: map<Path, File>, orig: Path, n: nat): set<Path> {
    set p | p in Occupied(files) && exists j: nat :: j >= n && p == RestoreName(orig, j)
  }

  /** The restore search: the original path, then numbered siblings, until one is free. */
  function FreeRestoreName(files: map<Path, File>, orig: Path, n: nat): (r: Result<Path, FsError>)
    requires n >= 1
    ensures r.Ok? ==> r.value !in Occupied(files)
    decreases Untried(files, orig, n)
  {
    var dest := RestoreName(orig, n);
    if ValidateRel(dest) != Ok(dest) then Err(Invalid)
    else if dest !in Occupied(files) then Ok(dest)
    else
      assert dest in Untried(files, orig, n);
      assert dest !in Untried(files, orig, n + 1) by {
        forall j: nat | j >= n + 1 ensures dest != RestoreName(orig, j) {
          RestoreNamesDiffer(orig, n, j);
        }
      }
      FreeRestoreName(files, orig, n + 1)
  }

  /** The row a reference names, if it is still there; the highest id below `n`. */
  function FindRow(rows: map<nat, Row>, ref: Ref, n: nat): (r: Option<nat>)
    ensures r.Some? ==> r.value < n && r.value in rows && RefOf(rows[r.value]) == ref
    ensures r.None? ==> forall i :: 0 <= i < n && i in rows ==> RefOf(rows[i]) != ref
  {
    if n == 0 then None
    else if n - 1 in rows && RefOf(rows[n - 1]) == ref then Some(n - 1)
    else FindRow(rows, ref, n - 1)
  }

  /** Inserts a copy of the row at `to`, under a new id, and deletes the original. */
  function MoveRefRow(d: Drive, ref: Ref, to: Path): Drive {
    match FindRow(d.rows, ref, d.nextRow)
    case None => d
    case Some(i) => d.(rows := (d.rows - {i})[d.nextRow := d.rows[i].(path := to)], nextRow := d.nextRow + 1)
  }

  /** `MoveSpecificVersions` on the index: the listed rows below `oldRoot` that still exist, in the order listed. */
  function MoveRefRows(d: Drive, refs: seq<Ref>, oldRoot: Path, newRoot: Path): Drive
    decreases |refs|
  {
    if refs == [] then d
    else if !HasPrefix(refs[0].path, oldRoot) then MoveRefRows(d, refs[1..], oldRoot, newRoot)
    else
      MoveRefRows(MoveRefRow(d, refs[0], GoRewrite(oldRoot, newRoot, refs[0].path)), refs[1..], oldRoot, newRoot)
  }

  datatype BlobMove = BlobMove(from: Path, to: Path, vid: Id)

  /** The renames asked for, without those of versions in `stuck`, which fail. */
  function BlobMoves(refs: seq<Ref>, oldRoot: Path, newRoot: Path, stuck: set<Id>): seq<BlobMove> {
    if refs == [] then []
    else
      (if HasPrefix(refs[0].path, oldRoot) && refs[0].vid !in stuck
       then [BlobMove(refs[0].path, GoRewrite(oldRoot, newRoot, refs[0].path), refs[0].vid)] else [])
      + BlobMoves(refs[1..], oldRoot, newRoot, stuck)
  }

  /** `RelocateVersionBlobs`: one rename after another; a missing source is skipped. */
  function MoveBlobs(blobs: map<BlobKey, Bytes>, moves: seq<BlobMove>): map<BlobKey, Bytes>
    decreases |moves|
  {
    if moves == [] then blobs
    else MoveBlobs(MoveBlob(blobs, moves[0].from, moves[0].to, moves[0].vid), moves[1..])
  }

  /** Whether the index transaction commits, and the versions whose blob rename fails. */
  datatype SpecificMove = SpecificMove(indexOk: bool, stuck: set<Id>)

  function MoveSpecific(d: Drive, refs: seq<Ref>, oldRoot: Path, newRoot: Path, how: SpecificMove): Drive {
    if refs == [] || oldRoot in {"", "/"} || newRoot in {"", "/"} || !how.indexOk then d
    else
      var moves := BlobMoves(refs, oldRoot, newRoot, how.stuck);
      MoveRefRows(d, refs, oldRoot, newRoot).(blobs := MoveBlobs(d.blobs, moves))
  }

  /** The versions a restore or purge of `item` may touch. */
  function OwnedRefs(d: Drive, item: TrashItem): seq<Ref> {
    if item.versions != [] then item.versions else VersionsUnder(d, item.orig)
  }

  /** The filesystem calls of a restore that fail, and what becomes of the version moves. */
  datatype RestoreFault = RestoreFault(moveFails: bool, noteStays: bool, how: SpecificMove)

  /** Puts item `id` back at `dest`, which the driver's search found free; a note that stays names no payload. */
  function RestoreAt(d: Drive, id: Id, dest: Path, f: RestoreFault): Drive
    requires id in d.trash
  {
    var item := d.trash[id];
    var d' := d.(files := Attach(d.files, dest, item.payload),
                 trash := if f.noteStays then d.trash[id := item.(payload := map[])] else d.trash - {id});
    if dest == item.orig then d' else MoveSpecific(d', OwnedRefs(d, item), item.orig, dest, f.how)
  }

  function Restore(d: Drive, id: Id, f: RestoreFault): (Drive, Result<Path, FsError>) {
    if id !in d.trash then (d, Err(NotFound))
    else
      match FreeRestoreName(d.files, d.trash[id].orig, 1)
      case Err(e) => (d, Err(e))
      case Ok(dest) =>
        if f.moveFails || d.trash[id].payload == map[] || Blocked(d.files, dest) then (d, Err(Io))
        else (RestoreAt(d, id, dest, f), Ok(dest))
  }

  // ---- permanent removal ----

  /** Whether the index transaction commits, and the blobs whose removal fails. */
  datatype Purging = Purging(indexOk: bool, kept: set<BlobKey>)

  function PurgeRefs(d: Drive, refs: seq<Ref>, how: Purging): Drive {
    if !how.indexOk then d
    else
      var gone := set i | i in d.rows && RefOf(d.rows[i]) in refs;
      var paths := RowPaths(d.rows, gone);
      d.(rows := d.rows - gone,
         blobs := d.blobs - set k | k in d.blobs && k.path in paths && Ref(k.path, k.vid) in refs && k !in how.kept)
  }

  function PurgeHistory(d: Drive, root: Path, how: Purging): Drive {
    if root in {"", "/"} || !how.indexOk then d
    else
      var gone := SelectedRows(d.rows, root);
      var paths := RowPaths(d.rows, gone);
      d.(rows := d.rows - gone, blobs := d.blobs - set k | k in d.blobs && k.path in paths && k !in how.kept)
  }

  function PurgeItemHistory(d: Drive, item: TrashItem, how: Purging): Drive {
    if item.versions != [] then PurgeRefs(d, item.versions, how) else PurgeHistory(d, item.orig, how)
  }

  /** What a removal that failed part way leaves of the trash: these items, with these files of their payloads. */
  function Remnant(trash: map<Id, TrashItem>, left: map<Id, set<string>>): map<Id, TrashItem> {
    map id | id in trash && id in left ::
      trash[id].(payload := map s | s in trash[id].payload && s in left[id] :: trash[id].payload[s])
  }

  /** Removes the payload and its note, then the history; a failed removal stops it. */
  function TrashDelete(d: Drive, id: Id, left: Option<set<string>>, how: Purging): Drive {
    if id !in d.trash then d
    else if left.Some? then d.(trash := d.trash + Remnant(d.trash, map[id := left.value]))
    else PurgeItemHistory(d.(trash := d.trash - {id}), d.trash[id], how)
  }

  /** The items a listing named, as they were then, each with what becomes of its purge. */
  datatype ItemPurge = ItemPurge(item: TrashItem, how: Purging)

  function Listed(trash: map<Id, TrashItem>, order: seq<Id>, how: Id -> Purging): seq<ItemPurge> {
    if order == [] then []
    else
      (if order[0] in trash then [ItemPurge(trash[order[0]], how(order[0]))] else [])
      + Listed(trash, order[1..], how)
  }

  function PurgeItems(d: Drive, items: seq<ItemPurge>): Drive
    decreases |items|
  {
    if items == [] then d else PurgeItems(PurgeItemHistory(d, items[0].item, items[0].how), items[1..])
  }

  /** What a removal of the whole trash directory that failed part way leaves: these notes, and these files. */
  datatype Leavings = Leavings(notes: set<Id>, files: map<Id, set<string>>)

  function Spared(payload: map<string, File>, left: Leavings, id: Id): map<string, File> {
    map s | s in payload && id in left.files && s in left.files[id] :: payload[s]
  }

  /** An item that loses its note but not its payload is stranded. */
  function HalfEmptied(d: Drive, left: Leavings): Drive {
    d.(trash := map id | id in d.trash && id in left.notes ::
                  d.trash[id].(payload := Spared(d.trash[id].payload, left, id)),
       stranded := (map id | id in d.stranded && id in left.files :: Spared(d.stranded[id], left, id)) +
                   (map id | id in d.trash && id !in left.notes && id in left.files ::
                      Spared(d.trash[id].payload, left, id)))
  }

  /**
   Empties the trash directory, stranded payloads included, then purges the history
   of each item that was listed; a failed removal stops it.
   */
  function TrashEmpty(d: Drive, order: seq<Id>, left: Option<Leavings>, how: Id -> Purging): Drive {
    if left.Some? then HalfEmptied(d, left.value)
    else PurgeItems(d.(trash := map[], stranded := map[]), Listed(d.trash, order, how))
  }

  const MIN_PLAUSIBLE_UNIX := 1_000_000_000

  function Expired(d: Drive, cutoff: int): set<Id> {
    set id | id in d.trash && MIN_PLAUSIBLE_UNIX <= d.trash[id].deletedAt < cutoff
  }

  /** One original path whose history the janitor purges. */
  datatype RootPurge = RootPurge(root: Path, how: Purging)

  function PurgeHistories(d: Drive, roots: seq<RootPurge>): Drive
    decreases |roots|
  {
    if roots == [] then d else PurgeHistories(PurgeHistory(d, roots[0].root, roots[0].how), roots[1..])
  }

  /**
   The janitor's sweep of expired trash: payloads first, skipping what cannot be
   removed, then the whole-path history of each item that went.
   */
  function SweepTrash(d: Drive, cutoff: int, left: map<Id, set<string>>, roots: seq<RootPurge>): Drive {
    var gone := Expired(d, cutoff);
    var remnant := Remnant(d.trash, map id | id in gone && id in left :: left[id]);
    PurgeHistories(d.(trash := (d.trash - gone) + remnant), roots)
  }

  /** Rows of the same path that come before row `i`: later, or as late with a higher id. */
  function Newer(rows: map<nat, Row>, i: nat): set<nat>
    requires i in rows
  {
    set j | j in rows && rows[j].path == rows[i].path &&
            (rows[j].at > rows[i].at || (rows[j].at == rows[i].at && j > i))
  }

  function Overflow(rows: map<nat, Row>, keep: nat): set<nat> {
    set i | i in rows && |Newer(rows, i)| >= keep
  }

  /** All overflow rows are deleted and then their blobs; or the deletes stop after `done`, and no blob goes. */
  datatype Pruning = Pruned(kept: set<BlobKey>) | Stopped(done: set<Ref>)

  function Prune(d: Drive, keep: nat, how: Pruning): Drive {
    var refs := RefsOf(d.rows, Overflow(d.rows, keep));
    match how
    case Pruned(kept) =>
      d.(rows := WithoutRefs(d.rows, refs),
         blobs := d.blobs - set k | k in d.blobs && Ref(k.path, k.vid) in refs && k !in kept)
    case Stopped(done) => d.(rows := WithoutRefs(d.rows, refs * done))
  }

  function RefsOf(rows: map<nat, Row>, ids: set<nat>): set<Ref> {
    set i | i in ids && i in rows :: RefOf(rows[i])
  }

  function WithoutRefs(rows: map<nat, Row>, refs: set<Ref>): map<nat, Row> {
    map i | i in rows && RefOf(rows[i]) !in refs :: rows[i]
  }

  // ---- version restore ----

  /** Whether the snapshot of the current content is made, and indexed; errors of either are discarded. */
  datatype Snapping = NoSnapshot | Unindexed | Indexed

  /** Snapshot the current content under a row of its own, if there is any. */
  function IndexCurrent(d: Drive, raw: string, v1: Id, now: int, snap: Snapping): Drive {
    var path := MustValidate(raw);
    if ValidateRel(raw).Err? || path !in d.files || snap.NoSnapshot? || v1 in d.issued then d
    else if snap.Unindexed? then Snapshot(d, path, v1)
    else AddRow(Snapshot(d, path, v1), path, v1, |d.files[path].bytes|, now)
  }

  /** Store the bytes of a blob at its path, as an upload would. */
  function StoreVersion(d: Drive, raw: string, vid: Id, v2: Id, now: int, fault: UploadFault)
    : (Drive, Result<Stored, FsError>)
  {
    var key := BlobKey(MustValidate(raw), vid);
    if ValidateRel(raw).Err? || key !in d.blobs then (d, Err(NotFound))
    else DriverUpload(d, UploadRequest(raw, d.blobs[key], "", false, "", ""), v2, now, fault)
  }

  predicate HasRow(d: Drive, ref: Ref) {
    exists i :: i in d.rows && RefOf(d.rows[i]) == ref
  }

  function VersionRestore(d: Drive, raw: string, vid: Id, v1: Id, v2: Id, now: int, snap: Snapping, fault: UploadFault)
    : (Drive, Result<Stored, FsError>)
  {
    if !HasRow(d, Ref(MustValidate(raw), vid)) then (d, Err(NotFound))
    else StoreVersion(IndexCurrent(d, raw, v1, now, snap), raw, vid, v2, now, fault)
  }
}
