/** What each handler answers, and what the files, the trash and the index are afterwards. */
module DriveOutcomes {
  import opened DriveArchive
  import opened DriveHistory
  import opened DriveInvariant
  import opened DriveModel
  import opened DriveRuns
  import opened DriveSteps
  import opened DriveTrash
  import opened LikePattern
  import opened LogicalPath
  import opened Strings
  import opened Wrappers

  // ---- upload ----

  /** The index has one more row: `vid`, of `bytes`, for `path`, made at `at`; its blob holds them. */
  predicate Indexes(d: Drive, d': Drive, path: Path, vid: Id, bytes: Bytes, at: int) {
    && d.nextRow !in d.rows && d'.rows == d.rows[d.nextRow := Row(path, vid, |bytes|, at)]
    && BlobKey(path, vid) in d'.blobs && d'.blobs[BlobKey(path, vid)] == bytes
  }

  /**
   A stored upload over a live file indexes what it replaced, unless it makes a
   conflict copy, did not see the file, or the index fails; no other adds a row.
   */
  lemma UploadIndexes(d: Drive, req: UploadRequest, vid: Id, now: int, fault: UploadFault)
    requires Valid(d)
    ensures var (d', r) := Upload(d, req, vid, now, fault); var path := MustValidate(req.path);
      if r.Ok? && path in d.files && !req.conflictRename && !fault.Unseen? && !fault.Indexing?
      then Indexes(d, d', path, vid, d.files[path].bytes, now)
      else d'.rows == d.rows
  {
    hide ValidateRel, DriverUpload, SoundBlobs, SoundTrash;
    DriverReports(d, req, vid, now, fault);
  }

  /** The driver reports a snapshot exactly if it made one, and leaves the index to the handler. */
  lemma DriverReports(d: Drive, req: UploadRequest, vid: Id, now: int, fault: UploadFault)
    ensures var (d', r) := DriverUpload(d, req, vid, now, fault); var path := MustValidate(req.path);
      && d'.rows == d.rows && d'.nextRow == d.nextRow
      && (r.Ok? ==>
            if path in d.files && !req.conflictRename && !fault.Unseen?
            then r.value.prev == Some(vid) && r.value.prevSize == |d.files[path].bytes| &&
                 BlobKey(path, vid) in d'.blobs && d'.blobs[BlobKey(path, vid)] == d.files[path].bytes
            else r.value.prev == None)
  {
    hide ValidateRel, Directories, StoreCopy, Overwrite, Commit;
    var path := MustValidate(req.path);
    CommitFrame(d, path, req.bytes, now, fault);
    if fault.Unseen? { CommitFrame(d, path, req.bytes, now, if fault.again then StatAfterCommit else NoFault); }
    CopyReports(d, path, req, now, fault);
    if path in d.files { OverwriteReports(d, path, req, vid, now, fault); }
  }

  lemma CommitFrame(d: Drive, target: Path, bytes: Bytes, now: int, fault: UploadFault)
    ensures var d' := Commit(d, target, bytes, now, fault).0; d' == d.(files := d'.files)
  {
    hide Blocked;
  }

  lemma CopyReports(d: Drive, path: Path, req: UploadRequest, now: int, fault: UploadFault)
    ensures var (d', r) := StoreCopy(d, path, req, now, fault);
      d' == d.(files := d'.files) && (r.Ok? ==> r.value.prev == None)
  {
    hide Commit, FreeCopyName, ConflictCopyName;
    var name := ConflictCopyName(path, req.deviceTag, req.stamp);
    var free := if name.Ok? then FreeCopyName(d.files, name.value, 2) else name;
    if free.Ok? { CommitFrame(d, free.value, req.bytes, now, fault); }
  }

  lemma OverwriteReports(d: Drive, path: Path, req: UploadRequest, vid: Id, now: int, fault: UploadFault)
    requires path in d.files
    ensures var (d', r) := Overwrite(d, path, req, vid, now, fault);
      && d'.rows == d.rows && d'.nextRow == d.nextRow
      && (r.Ok? ==>
            r.value.prev == Some(vid) && r.value.prevSize == |d.files[path].bytes| &&
            BlobKey(path, vid) in d'.blobs && d'.blobs[BlobKey(path, vid)] == d.files[path].bytes)
  {
    hide Commit, EtagOf;
    CommitFrame(Snapshot(d, path, vid), path, req.bytes, now, fault);
  }

  /** The answer of an upload in which nothing fails. */
  lemma UploadAnswers(d: Drive, req: UploadRequest, vid: Id, now: int)
    requires vid !in d.issued
    ensures var r, v := Upload(d, req, vid, now, NoFault).1, ValidateRel(req.path);
      if v.Err? then r == Err(v.error)
      else if v.value == "/" then r == Err(Invalid)
      else if v.value !in d.files && v.value in Directories(d.files) then r == Err(Exists)
      else if v.value in d.files && req.conflictRename then
        r.Ok? <==>
          var name := ConflictCopyName(v.value, req.deviceTag, req.stamp);
          var free := if name.Ok? then FreeCopyName(d.files, name.value, 2) else name;
          free.Ok? && !Blocked(d.files, free.value)
      else if v.value in d.files && req.ifMatch !in {"", EtagOf(d.files[v.value].mtime, |d.files[v.value].bytes|)}
      then r == Err(Conflict)
      else if Blocked(d.files, v.value) then r == Err(Io)
      else r.Ok? && r.value.entry.path == v.value
  {
    hide ValidateRel, Directories, Blocked, EtagOf, FreeCopyName, ConflictCopyName;
  }

  /** A stored upload puts one file, with the bytes sent and the time of the commit, where the answer says. */
  lemma UploadPutsOne(d: Drive, req: UploadRequest, vid: Id, now: int, fault: UploadFault)
    requires Upload(d, req, vid, now, fault).1.Ok?
    ensures var (d', r) := Upload(d, req, vid, now, fault); var e := r.value.entry;
      && d'.files == d.files[e.path := File(req.bytes, now)] && e.size == |req.bytes| && e.mtime == now
      && d'.trash == d.trash && d'.stranded == d.stranded
  {
    hide ValidateRel, Directories, Blocked, EtagOf, DriverUpload;
    var target := UploadHasShape(d, req, vid, now, fault);
  }

  // ---- the name of a conflict copy ----

  /** The names the probe loop tries, one after another. */
  function CopyTry(path: Path, n: nat, k: nat): Path
    decreases k
  {
    if k == 0 then path else CopyTry(Numbered(path, n), n + 1, k - 1)
  }

  /** It ends at the first of them that is free, or is no longer accepted. */
  lemma {:induction false} FirstFreeCopy(files: map<Path, File>, path: Path, n: nat) returns (k: nat)
    ensures forall j :: 0 <= j < k ==> CopyTry(path, n, j) in Occupied(files)
    ensures var r, p := FreeCopyName(files, path, n), CopyTry(path, n, k);
      if ValidateRel(p) == Ok(p) then r == Ok(p) && p !in Occupied(files) else r == Err(Invalid)
    decreases 4097 - |path|
  {
    hide ValidateRel, Occupied, Numbered;
    k := 0;
    if ValidateRel(path) == Ok(path) && path in Occupied(files) {
      var next := Numbered(path, n);
      NumberedIsLonger(path, n);
      k := FirstFreeCopy(files, next, n + 1);
      forall j | 0 <= j < k + 1 ensures CopyTry(path, n, j) in Occupied(files) {
        if j > 0 { assert CopyTry(path, n, j) == CopyTry(next, n + 1, j - 1); }
      }
      k := k + 1;
    }
  }

  lemma NumberedIsLonger(path: Path, n: nat)
    ensures |Numbered(path, n)| > |path|
    ensures ValidateRel(path) == Ok(path) ==> |path| <= 4096
  {
    assert |TrimSuffix(path, Ext(path))| + |Ext(path)| == |path|;
  }

  lemma Fronted(front: string, name: string)
    requires front != "" && front[|front| - 1] == '/' && NoneOf(name, '/') && name != ""
    ensures ParentOf(front + name) == Clean(front) && NameOf(front + name) == name
  {
    hide Clean;
    LastIndexUnique(front + name, '/', |front| - 1);
    assert (front + name)[..|front|] == front;
  }

  /** The directory of a path, with its slash, and its name. */
  lemma FrontOf(path: Path)
    requires Normal(path) && path != "/"
    ensures var name := NameOf(path); var front := path[..|path| - |name|];
      && path == front + name && front != "" && front[|front| - 1] == '/' && NoneOf(name, '/') && name != ""
      && front == Child(ParentOf(path), "") && Clean(front) == ParentOf(path)
  {
    var segs :| GoodSegments(segs) && path == Rooted(segs);
    var init, last := segs[..|segs| - 1], segs[|segs| - 1];
    PartsOf(segs);
    RenderLast(segs);
    CleanTrailing(init);
    hide Clean, Render, LastIndex;
    assert GoodSegment(last);
    assert path == Child(Rooted(init), last);
    assert Child(Rooted(init), last) == Child(Rooted(init), "") + last;
    RootedFront(init);
  }

  lemma RootedFront(init: seq<string>)
    requires GoodSegments(init)
    ensures Child(Rooted(init), "") == Render(init) + "/"
  {
    if init != [] { GoodIsNotRoot(init); }
  }

  /** `name` begins with `head` and ends with `ext`, one after the other. */
  predicate Framed(name: string, head: string, ext: string) {
    |head| + |ext| <= |name| && HasPrefix(name, head) && HasSuffix(name, ext)
  }

  /** What an extension looks like, and a head before one. */
  predicate Shaped(head: string, ext: string) {
    if ext == "" then NoneOf(head, '.') else ext[0] == '.' && NoneOf(ext[1..], '.') && NoneOf(ext[1..], '/')
  }

  function Middle(name: string): string {
    TrimSuffix(name, Ext(name))
  }

  /** Numbering a name keeps what frames it. */
  lemma NumberedFrames(name: string, n: nat, head: string, ext: string)
    requires Framed(name, head, ext) && Shaped(head, ext) && NoneOf(name, '/')
    ensures Framed(Numbered(name, n), head, ext) && NoneOf(Numbered(name, n), '/')
  {
    hide LastIndex, Numeral, NoneOf, Ext;
    FramedMiddle(name, head, ext);
    InsertedFrames(name, Middle(name), " (" + Numeral(n, Ten) + ")", Ext(name), head, ext);
    assert Numbered(name, n) == Middle(name) + " (" + Numeral(n, Ten) + ")" + Ext(name);
    assert Middle(name) + " (" + Numeral(n, Ten) + ")" + Ext(name) ==
           Middle(name) + (" (" + Numeral(n, Ten) + ")") + Ext(name);
    NumeralIsPlain(n);
    NoneOfParts(Middle(name), Ext(name), '/');
    NoneOfJoin(Middle(name), " (" + Numeral(n, Ten) + ")", '/');
    NoneOfJoin(Middle(name) + (" (" + Numeral(n, Ten) + ")"), Ext(name), '/');
  }

  lemma NoneOfJoin(a: string, b: string, c: char)
    requires NoneOf(a, c) && NoneOf(b, c)
    ensures NoneOf(a + b, c)
  {
  }

  lemma NumeralIsPlain(n: nat)
    ensures NoneOf(" (" + Numeral(n, Ten) + ")", '/')
  {
    hide Numeral;
    var s := Numeral(n, Ten);
    forall i | 0 <= i < |s| ensures s[i] != '/' { assert s[i] in "0123456789abcdef"; }
  }

  /** The head lies before the extension of the whole name, and that ends with the framing one. */
  lemma FramedMiddle(name: string, head: string, ext: string)
    requires Framed(name, head, ext) && Shaped(head, ext) && NoneOf(name, '/')
    ensures name == Middle(name) + Ext(name) && HasPrefix(Middle(name), head) && HasSuffix(Ext(name), ext)
  {
    hide LastIndex;
    ExtShape(name);
    if ext != "" {
      ExtOfJoin(name[..|name| - |ext|], ext);
      assert name == name[..|name| - |ext|] + ext;
    } else {
      assert |Middle(name)| >= |head|;
    }
    assert Middle(name)[..|head|] == name[..|head|];
  }

  lemma InsertedFrames(name: string, middle: string, more: string, tail: string, head: string, ext: string)
    requires HasPrefix(middle, head) && HasSuffix(tail, ext)
    ensures Framed(middle + more + tail, head, ext)
  {
    var out := middle + more + tail;
    assert out[..|head|] == middle[..|head|];
    assert out[|out| - |ext|..] == tail[|tail| - |ext|..];
  }

  lemma NumberedInPlace(front: string, name: string, n: nat)
    requires front != "" && front[|front| - 1] == '/' && NoneOf(name, '/')
    ensures Numbered(front + name, n) == front + Numbered(name, n)
  {
    hide Numeral, Ext, NoneOf, Middle, Numbered;
    ExtInPlace(front, name);
    MiddleInPlace(front, name);
    NumberedIs(name, n);
    NumberedIs(front + name, n);
    Regroup(front, Middle(name), " (", Numeral(n, Ten), ")", Ext(name));
  }

  lemma NumberedIs(path: string, n: nat)
    ensures Numbered(path, n) == Middle(path) + " (" + Numeral(n, Ten) + ")" + Ext(path)
  {
    hide Numeral, Ext;
  }

  lemma Regroup(front: string, a: string, b: string, c: string, d: string, e: string)
    ensures front + a + b + c + d + e == front + (a + b + c + d + e)
  {
    assert front + (a + b + c + d + e) == front + (a + b + c + d) + e;
    assert front + (a + b + c + d) == front + (a + b + c) + d;
    assert front + (a + b + c) == front + (a + b) + c;
    assert front + (a + b) == front + a + b;
  }

  lemma MiddleInPlace(front: string, name: string)
    requires Ext(front + name) == Ext(name)
    ensures Middle(front + name) == front + Middle(name)
  {
    hide Ext;
    ExtShape(name);
    TrimInPlace(front, Middle(name), Ext(name));
  }

  lemma TrimInPlace(front: string, stem: string, ext: string)
    ensures TrimSuffix(front + (stem + ext), ext) == front + stem
  {
    assert front + (stem + ext) == front + stem + ext;
    assert (front + stem + ext)[|front + stem|..] == ext;
  }

  lemma ExtInPlace(front: string, name: string)
    requires front != "" && front[|front| - 1] == '/' && NoneOf(name, '/')
    ensures Ext(front + name) == Ext(name) && HasSuffix(front + name, Ext(name))
  {
    hide LastIndex, NoneOf;
    ExtShape(name);
    SlashInPlace(front, name);
    DotInPlace(front, name);
    var dot := LastIndex(name, '.');
    if dot >= 0 { assert (front + name)[|front| + dot..] == name[dot..]; }
  }

  lemma SlashInPlace(front: string, name: string)
    requires front != "" && front[|front| - 1] == '/' && NoneOf(name, '/')
    ensures LastIndex(front + name, '/') == |front| - 1 && LastIndex(name, '/') == -1
  {
    hide LastIndex;
    LastIndexUnique(front + name, '/', |front| - 1);
    LastIndexUnique(name, '/', -1);
  }

  lemma DotInPlace(front: string, name: string)
    ensures var dot := LastIndex(name, '.');
      if dot >= 0 then LastIndex(front + name, '.') == |front| + dot else LastIndex(front + name, '.') < |front|
  {
    hide LastIndex;
    var s, dot := front + name, LastIndex(name, '.');
    assert forall k :: |front| <= k < |s| ==> s[k] == name[k - |front|];
    if dot >= 0 { LastIndexUnique(s, '.', |front| + dot); }
  }

  /** All names tried lie in one directory and are framed alike. */
  lemma {:induction false} TriesAreFramed(front: string, name: string, n: nat, k: nat, head: string, ext: string)
    returns (out: string)
    requires front != "" && front[|front| - 1] == '/' && NoneOf(name, '/')
    requires Framed(name, head, ext) && Shaped(head, ext)
    ensures CopyTry(front + name, n, k) == front + out && NoneOf(out, '/') && Framed(out, head, ext)
    decreases k
  {
    hide Numbered, Framed, Shaped;
    out := name;
    if k > 0 {
      NumberedInPlace(front, name, n);
      NumberedFrames(name, n, head, ext);
      out := TriesAreFramed(front, Numbered(name, n), n + 1, k - 1, head, ext);
    }
  }

  predicate Plain(s: string) {
    NoneOf(s, '/') && NoneOf(s, '\\') && NoneOf(s, '\0')
  }

  lemma PlainJoin(a: string, b: string)
    requires Plain(a) && Plain(b)
    ensures Plain(a + b)
  {
  }

  lemma SanitizedIsPlain(tag: string)
    ensures Plain(SanitizeTag(tag))
  {
  }

  function CopyHead(path: Path): string {
    Middle(NameOf(path)) + CONFLICT_FROM
  }

  const CONFLICT_FROM := " (conflict from "

  lemma LiteralsArePlain()
    ensures Plain(CONFLICT_FROM) && Plain(" ") && Plain(")") && |CONFLICT_FROM| > 2
  {
  }

  /** The name, put together of parts. */
  function Assembled(stem: string, head: string, tag: string, stamp: string, ext: string): string {
    stem + head + tag + " " + stamp + ")" + ext
  }

  lemma AssembledIs(stem: string, head: string, tag: string, stamp: string, ext: string)
    requires Plain(stem) && Plain(head) && Plain(tag) && Plain(stamp) && Plain(ext)
    ensures var copy := Assembled(stem, head, tag, stamp, ext);
      Plain(copy) && |copy| > |head| && Framed(copy, stem + head, ext)
  {
    LiteralsArePlain();
    var copy := Assembled(stem, head, tag, stamp, ext);
    assert copy == stem + head + (tag + " " + stamp + ")" + ext);
    assert copy == (stem + head + tag + " " + stamp + ")") + ext;
    hide Plain;
    PlainJoin(stem, head);
    PlainJoin(stem + head, tag);
    PlainJoin(stem + head + tag, " ");
    PlainJoin(stem + head + tag + " ", stamp);
    PlainJoin(stem + head + tag + " " + stamp, ")");
    PlainJoin(stem + head + tag + " " + stamp + ")", ext);
  }

  lemma NoneOfParts(a: string, b: string, c: char)
    requires NoneOf(a + b, c)
    ensures NoneOf(a, c) && NoneOf(b, c)
  {
    assert forall i :: 0 <= i < |a| ==> (a + b)[i] == a[i];
    assert forall i :: 0 <= i < |b| ==> (a + b)[|a| + i] == b[i];
  }

  lemma PartsArePlain(path: Path)
    requires Normal(path) && path != "/"
    ensures Plain(NameOf(path)) && Plain(Middle(NameOf(path))) && Plain(Ext(NameOf(path)))
  {
    hide LastIndex, Ext, Clean, NameOf, NoneOf, ParentOf, CleanPath;
    var name := NameOf(path);
    FrontOf(path);
    ExtShape(name);
    var front := path[..|path| - |name|];
    NoneOfParts(front, name, '\\');
    NoneOfParts(front, name, '\0');
    NoneOfParts(Middle(name), Ext(name), '/');
    NoneOfParts(Middle(name), Ext(name), '\\');
    NoneOfParts(Middle(name), Ext(name), '\0');
  }

  /** A conflict copy can always be named: after the file, with its extension, in its directory. */
  lemma CopyNameIs(path: Path, deviceTag: string, stamp: string)
    requires Normal(path) && path != "/" && Plain(stamp)
    ensures var r := ConflictCopyName(path, deviceTag, stamp); var name := NameOf(path);
      && r.Ok? && ParentOf(r.value) == ParentOf(path) && Framed(NameOf(r.value), CopyHead(path), Ext(name))
      && r.value == Child(ParentOf(path), "") + NameOf(r.value) && NoneOf(NameOf(r.value), '/')
  {
    hide LastIndex, Clean, SanitizeTag, Ext, ParentOf, NameOf, CleanPath, Framed, TrimSuffix;
    var name, t := NameOf(path), if deviceTag == "" then "another device" else deviceTag;
    SanitizedIsPlain(t);
    FrontOf(path);
    PartsArePlain(path);
    LiteralsArePlain();
    var copy := Assembled(Middle(name), CONFLICT_FROM, SanitizeTag(t), stamp, Ext(name));
    AssembledIs(Middle(name), CONFLICT_FROM, SanitizeTag(t), stamp, Ext(name));
    hide Assembled;
    Fronted(Child(ParentOf(path), ""), copy);
    assert Child(ParentOf(path), copy) == Child(ParentOf(path), "") + copy;
    CopyIsAssembled(path, deviceTag, stamp);
  }

  lemma CopyIsAssembled(path: Path, deviceTag: string, stamp: string)
    ensures var name, t := NameOf(path), if deviceTag == "" then "another device" else deviceTag;
      ConflictCopyName(path, deviceTag, stamp) ==
      JoinPath(ParentOf(path), Assembled(Middle(name), CONFLICT_FROM, SanitizeTag(t), stamp, Ext(name)))
  {
    hide JoinPath, SanitizeTag, Ext, ParentOf, NameOf;
  }

  /**
   A stored conflict copy lies in the directory of the file it leaves alone, and is
   named after it: the name, the remark, and the extension at the end.
   */
  lemma ConflictCopyBeside(d: Drive, req: UploadRequest, vid: Id, now: int, fault: UploadFault)
    requires req.conflictRename && Plain(req.stamp) && !fault.Unseen? && Upload(d, req, vid, now, fault).1.Ok?
    requires MustValidate(req.path) in d.files
    ensures var path, copy := MustValidate(req.path), Upload(d, req, vid, now, fault).1.value.entry.path;
      && ParentOf(copy) == ParentOf(path) && Framed(NameOf(copy), CopyHead(path), Ext(NameOf(path)))
  {
    hide ValidateRel, DriveModel.Upload, Clean, Framed, CopyHead, Ext, FreeCopyName, ParentOf, NameOf, CopyTry, Normal;
    var path := MustValidate(req.path);
    CopyIsTheFirst(d, req, vid, now, fault);
    AcceptedIsNormal(req.path);
    CopyNameIs(path, req.deviceTag, req.stamp);
    var first := ConflictCopyName(path, req.deviceTag, req.stamp).value;
    var k := FirstFreeCopy(d.files, first, 2);
    var front := Child(ParentOf(path), "");
    assert front != "" && front[|front| - 1] == '/';
    HeadIsShaped(path);
    var out := TriesAreFramed(front, NameOf(first), 2, k, CopyHead(path), Ext(NameOf(path)));
    FrontOf(path);
    FramedIsSome(out, path);
    Fronted(front, out);
  }

  lemma FramedIsSome(out: string, path: Path)
    requires Framed(out, CopyHead(path), Ext(NameOf(path)))
    ensures out != ""
  {
    LiteralsArePlain();
  }

  lemma HeadIsShaped(path: Path)
    ensures Shaped(CopyHead(path), Ext(NameOf(path)))
  {
    hide LastIndex, NameOf;
    var name := NameOf(path);
    ExtShape(name);
    NameHasNoSlash(path);
    if Ext(name) == "" { StemHasNoDot(name); }
  }

  lemma NameHasNoSlash(path: Path)
    ensures NoneOf(NameOf(path), '/')
  {
  }

  lemma StemHasNoDot(name: string)
    requires Ext(name) == "" && NoneOf(name, '/')
    ensures NoneOf(Middle(name) + CONFLICT_FROM, '.')
  {
  }

  lemma CopyIsTheFirst(d: Drive, req: UploadRequest, vid: Id, now: int, fault: UploadFault)
    requires req.conflictRename && !fault.Unseen? && Upload(d, req, vid, now, fault).1.Ok?
    requires MustValidate(req.path) in d.files
    ensures var path := MustValidate(req.path); var name := ConflictCopyName(path, req.deviceTag, req.stamp);
      && ValidateRel(req.path).Ok? && path != "/" && name.Ok?
      && FreeCopyName(d.files, name.value, 2) == Ok(Upload(d, req, vid, now, fault).1.value.entry.path)
  {
    hide ValidateRel, FreeCopyName, ConflictCopyName, Blocked, Directories;
  }

  // ---- rename and move ----

  /**
   All that was at or below `src` is at the same place at or below `dst`, contents
   and times; nothing is left there, nothing else is here, and no other path has
   changed.
   */
  ghost predicate Transplanted(files: map<Path, File>, files': map<Path, File>, src: Path, dst: Path) {
    && (forall s :: (s == "" || s[0] == '/') && src + s in files ==>
          dst + s in files' && files'[dst + s] == files[src + s])
    && (forall q :: q in files' ==> !Under(src, q))
    && (forall q :: q in files' && Under(dst, q) ==> q == dst + TrimPrefix(q, dst) && src + TrimPrefix(q, dst) in files)
    && (forall q :: !Under(src, q) && !Under(dst, q) ==>
          (q in files' <==> q in files) && (q in files ==> files'[q] == files[q]))
  }

  lemma SuffixIsUnder(p: Path, s: string)
    requires s == "" || s[0] == '/'
    ensures Under(p, p + s) && TrimPrefix(p + s, p) == s
  {
    if s == "" { assert p + s == p; } else { assert (p + s)[..|p| + 1] == p + "/"; }
  }

  lemma UnderIsSuffix(p: Path, q: Path)
    requires Under(p, q)
    ensures q == p + TrimPrefix(q, p) && (TrimPrefix(q, p) == "" || TrimPrefix(q, p)[0] == '/')
  {
    if q != p { assert q[..|p|] == (p + "/")[..|p|] == p && q[|p|] == (p + "/")[|p|]; }
  }

  lemma AboveIsDirectory(files: map<Path, File>, dst: Path, q: Path)
    requires dst != "" && q in files && HasPrefix(q, dst + "/")
    ensures dst in Directories(files)
  {
    assert q[..|dst| + 1] == dst + "/";
    assert q[..|dst|] == dst && q[|dst|] == '/';
  }

  /** On a tree the subtree of a path is what is at or below it. */
  lemma SubtreeIsUnder(files: map<Path, File>, p: Path)
    requires TreeShaped(files)
    ensures forall q :: q in files ==> (q in Subtree(files, p) <==> Under(p, q))
  {
    forall q | q in files ensures q in Subtree(files, p) <==> Under(p, q) {
      if p in files && q != p { assert !HasPrefix(q, p + "/"); }
    }
  }

  /** Where a relocation may go: a free place, or the place of one file for one file. */
  predicate Takes(files: map<Path, File>, src: Path, dst: Path) {
    dst !in Occupied(files) || (src in files && dst in files && dst !in Directories(files))
  }

  lemma MoveTreeTransplants(d: Drive, src: Path, dst: Path)
    requires TreeShaped(d.files) && Relocatable(src, dst) && Takes(d.files, src, dst)
    ensures Transplanted(d.files, MoveTree(d, src, dst).files, src, dst)
  {
    hide MoveTree, TreeShaped, Directories, Relocatable, Under;
    var out := MoveTree(d, src, dst).files;
    forall s | (s == "" || s[0] == '/') && src + s in d.files
      ensures dst + s in out && out[dst + s] == d.files[src + s]
    {
      MovedAt(d, src, dst, s);
    }
    forall q | q in out ensures !Under(src, q) { NotAtSource(d, src, dst, q); }
    forall q | q in out && Under(dst, q)
      ensures q == dst + TrimPrefix(q, dst) && src + TrimPrefix(q, dst) in d.files
    {
      AtDestination(d, src, dst, q);
    }
    forall q | !Under(src, q) && !Under(dst, q)
      ensures (q in out <==> q in d.files) && (q in d.files ==> out[q] == d.files[q])
    {
      StaysAt(d, src, dst, q);
    }
  }

  lemma MovedAt(d: Drive, src: Path, dst: Path, s: string)
    requires TreeShaped(d.files) && (s == "" || s[0] == '/') && src + s in d.files
    ensures var out := MoveTree(d, src, dst).files; dst + s in out && out[dst + s] == d.files[src + s]
  {
    hide Subtree, Detach, Attach, TreeShaped;
    DetachTakes(d.files, src);
    AttachAdds(d.files - Subtree(d.files, src), dst, Detach(d.files, src));
    SubtreeIsUnder(d.files, src);
    SuffixIsUnder(src, s);
    assert TrimPrefix(src + s, src) == s;
  }

  lemma StaysAt(d: Drive, src: Path, dst: Path, q: Path)
    requires TreeShaped(d.files) && !Under(src, q) && !Under(dst, q)
    ensures var out := MoveTree(d, src, dst).files;
      (q in out <==> q in d.files) && (q in d.files ==> out[q] == d.files[q])
  {
    hide Subtree, Detach, Attach, TreeShaped, Under;
    var payload, rest := Detach(d.files, src), d.files - Subtree(d.files, src);
    DetachTakes(d.files, src);
    AttachAdds(rest, dst, payload);
    SubtreeIsUnder(d.files, src);
    forall s | s in payload ensures q != dst + s { SuffixIsUnder(dst, s); }
    if q in d.files { AttachLeaves(rest, dst, payload, q); }
  }

  lemma NotAtSource(d: Drive, src: Path, dst: Path, q: Path)
    requires TreeShaped(d.files) && Relocatable(src, dst) && q in MoveTree(d, src, dst).files
    ensures !Under(src, q)
  {
    hide Subtree, Detach, Attach, TreeShaped, Under;
    DetachTakes(d.files, src);
    AttachAdds(d.files - Subtree(d.files, src), dst, Detach(d.files, src));
    SubtreeIsUnder(d.files, src);
    if q !in d.files - Subtree(d.files, src) {
      var s :| s in Detach(d.files, src) && q == dst + s;
      SuffixIsUnder(dst, s);
      if Under(src, q) { UnderLinear(src, dst, q); }
    }
  }

  lemma AtDestination(d: Drive, src: Path, dst: Path, q: Path)
    requires Relocatable(src, dst) && Takes(d.files, src, dst) && q in MoveTree(d, src, dst).files && Under(dst, q)
    ensures q == dst + TrimPrefix(q, dst) && src + TrimPrefix(q, dst) in d.files
  {
    hide Subtree, Detach, Attach, Directories;
    DetachTakes(d.files, src);
    AttachAdds(d.files - Subtree(d.files, src), dst, Detach(d.files, src));
    UnderIsSuffix(dst, q);
    if q in d.files - Subtree(d.files, src) {
      if q != dst { AboveIsDirectory(d.files, dst, q); }
      assert q == dst && TrimPrefix(q, dst) == "" && src + "" == src;
    } else {
      var s :| s in Detach(d.files, src) && q == dst + s;
      assert TrimPrefix(q, dst) == s;
      SubtreeIsLive(d.files, src, src + s);
    }
  }

  /** What the server asks of the arguments. */
  predicate Sensible(op: Op)
    requires Relocates(op)
  {
    && ValidateRel(op.from).Ok? && ValidateRel(op.from).value != "/"
    && if op.RenameOp? then ValidName(op.toName)
       else ValidateRel(op.destDir).Ok? && !Under(ValidateRel(op.from).value, ValidateRel(op.destDir).value)
  }

  /** Where the path is to go: beside itself under a new name, or into another directory under its own. */
  predicate GoesTo(op: Op, dst: Path)
    requires Relocates(op)
  {
    var src := MustValidate(op.from);
    if op.RenameOp? then ParentOf(dst) == ParentOf(src) && NameOf(dst) == op.toName
    else ParentOf(dst) == MustValidate(op.destDir) && NameOf(dst) == NameOf(src)
  }

  lemma FrontIsClean(dir: Path)
    requires Normal(dir)
    ensures var front := Child(dir, ""); front != "" && front[|front| - 1] == '/' && Clean(front) == dir
  {
    var segs :| GoodSegments(segs) && dir == Rooted(segs);
    RootedFront(segs);
    CleanTrailing(segs);
  }

  lemma ParentIsNormal(path: Path)
    requires Normal(path) && path != "/"
    ensures Normal(ParentOf(path))
  {
    hide Clean, LastIndex;
    var segs :| GoodSegments(segs) && path == Rooted(segs);
    PartsOf(segs);
    FrontOf(path);
    var dir, name := ParentOf(path), NameOf(path);
    assert path == Child(dir, "") + name;
    NoneOfParts(Child(dir, ""), name, '\\');
    NoneOfParts(Child(dir, ""), name, '\0');
    assert Child(dir, "")[..|dir|] == dir;
    assert GoodSegments(segs[..|segs| - 1]);
  }

  lemma ChildParts(dir: Path, name: string)
    requires Normal(dir) && NoneOf(name, '/') && name != ""
    ensures ParentOf(Child(dir, name)) == dir && NameOf(Child(dir, name)) == name
  {
    hide Clean, Normal;
    FrontIsClean(dir);
    Fronted(Child(dir, ""), name);
    assert Child(dir, name) == Child(dir, "") + name;
  }

  lemma DestinationIs(op: Op)
    requires Relocates(op)
    ensures Destination(op).Ok? <==> Sensible(op)
    ensures Destination(op).Ok? ==> GoesTo(op, Destination(op).value)
  {
    hide ValidateRel, Clean, LastIndex, ParentOf, NameOf, CleanPath;
    if ValidateRel(op.from).Ok? && ValidateRel(op.from).value != "/" {
      var src := ValidateRel(op.from).value;
      AcceptedIsNormal(op.from);
      JoinOfParts(src);
      ParentIsNormal(src);
      if op.RenameOp? && ValidName(op.toName) { ChildParts(ParentOf(src), op.toName); }
      if op.MoveOp? && ValidateRel(op.destDir).Ok? {
        AcceptedIsNormal(op.destDir);
        ChildParts(ValidateRel(op.destDir).value, NameOf(src));
      }
    }
  }

  predicate Live(files: map<Path, File>, p: Path) {
    exists q :: q in files && Under(p, q)
  }

  lemma LiveUnder(files: map<Path, File>, p: Path)
    ensures Subtree(files, p) != {} <==> Live(files, p)
  {
    if q :| q in files && Under(p, q) {
      if p in files { assert p in Subtree(files, p); } else { assert q in Subtree(files, p); }
    }
    if q :| q in Subtree(files, p) { assert q in files && Under(p, q); }
  }

  /** The server accepts the path, nothing is there, and no file is above. */
  predicate Vacant(files: map<Path, File>, p: Path) {
    ValidateRel(p) == Ok(p) && p !in Occupied(files) && !Blocked(files, p)
  }

  /**
   A rename or move in which nothing fails succeeds if and only if its arguments
   make sense, something is at or below the source, and the server accepts the
   destination, where nothing is, nor a file above; one that does not succeed
   changes nothing, whatever failed.
   */
  lemma RelocationSucceedsIff(d: Drive, op: Op)
    requires Relocates(op)
    ensures Destination(op).Ok? <==> Sensible(op)
    ensures op.call.NoneFails? ==>
      (Succeeds(d, op) <==>
        && Destination(op).Ok? && GoesTo(op, Destination(op).value)
        && Live(d.files, MustValidate(op.from)) && Vacant(d.files, Destination(op).value))
    ensures !Succeeds(d, op) ==> Apply(d, op) == d
  {
    hide Destination, Sensible, GoesTo, Vacant, Live, Subtree, Apply, Outcome, Relocate, ValidateRel;
    DestinationIs(op);
    if !Succeeds(d, op) { RelocationFailed(d, op); }
    if Destination(op).Ok? {
      RelocatesTo(d, op);
      LiveUnder(d.files, MustValidate(op.from));
      RelocateSucceedsIff(d, MustValidate(op.from), Destination(op).value, op.how);
    } else {
      NoDestinationFails(d, op);
    }
  }

  lemma RelocateSucceedsIff(d: Drive, src: Path, dst: Path, how: Relocation)
    ensures Relocate(d, src, dst, how, NoneFails).1.Ok? <==>
      Vacant(d.files, dst) && Subtree(d.files, src) != {}
  {
    hide ValidateRel, Occupied, Blocked, Subtree, RelocateHistory, MoveTree;
  }

  lemma NoDestinationFails(d: Drive, op: Op)
    requires Relocates(op) && Destination(op).Err?
    ensures !Succeeds(d, op)
  {
    hide Relocate, ValidName, JoinPath, ParentOf, NameOf, ValidateRel;
  }

  /**
   A rename or move that succeeds takes all that was at or below the source to the
   destination, and touches nothing else; neither does it touch the trash.
   */
  lemma RelocationMovesFiles(d: Drive, op: Op)
    requires Relocates(op) && Succeeds(d, op) && TreeShaped(d.files)
    ensures var src, dst, d' := MustValidate(op.from), Outcome(d, op).value, Apply(d, op);
      && GoesTo(op, dst) && d'.trash == d.trash && d'.stranded == d.stranded
      && if dst == src then d' == d else Transplanted(d.files, d'.files, src, dst)
  {
    hide ValidateRel, Destination, Sensible, GoesTo, Occupied, Directories, Blocked, Subtree, RelocateHistory, MoveTree,
         Apply, Outcome, Transplanted, TreeShaped, Relocatable, Relocate;
    DestinationIs(op);
    if Destination(op).Err? { NoDestinationFails(d, op); }
    RelocatesTo(d, op);
    SuccessIsRelocation(d, op);
    SucceededIs(d, MustValidate(op.from), Destination(op).value, op.how, op.call);
    var src, dst := MustValidate(op.from), Outcome(d, op).value;
    SucceededIs(d, src, dst, op.how, op.call);
    HistoryOnly(MoveTree(d, src, dst), src, dst, op.how);
    TreeMoveIndex(d, src, dst);
    if dst == src { OntoItself(d, op); } else { MoveTreeTransplants(d, src, dst); }
  }

  lemma HistoryOnly(d: Drive, src: Path, dst: Path, how: Relocation)
    ensures var d' := RelocateHistory(d, src, dst, how); d' == d.(rows := d'.rows, blobs := d'.blobs)
  {
    hide RelocateRows, MoveBlobDirs;
  }

  // ---- delete and restore ----

  /** `payload` has what was at or below `path`, and no more. */
  ghost predicate Packs(files: map<Path, File>, path: Path, payload: map<string, File>) {
    && (forall s :: s in payload ==> (s == "" || s[0] == '/') && path + s in files && payload[s] == files[path + s])
    && (forall s :: (s == "" || s[0] == '/') && path + s in files ==> s in payload)
  }

  ghost predicate Cleared(files: map<Path, File>, files': map<Path, File>, path: Path) {
    forall q :: (q in files' <==> q in files && !Under(path, q)) && (q in files' ==> files'[q] == files[q])
  }

  lemma DetachPacks(files: map<Path, File>, path: Path)
    requires TreeShaped(files)
    ensures Packs(files, path, Detach(files, path)) && Cleared(files, files - Subtree(files, path), path)
  {
    hide Subtree, Detach, TreeShaped;
    DetachTakes(files, path);
    SubtreeIsUnder(files, path);
    forall s | (s == "" || s[0] == '/') && path + s in files ensures s in Detach(files, path) {
      SuffixIsUnder(path, s);
      assert TrimPrefix(path + s, path) == s;
    }
    forall s | s in Detach(files, path) ensures path + s in files { SubtreeIsLive(files, path, path + s); }
  }

  /**
   A delete succeeds if and only if the path is one of the server's, something is
   there and nothing fails. Then all of that is in a new trash item that names the
   path and the time, and nothing else has changed; a stranded one leaves it without
   an item.
   */
  lemma DeleteIs(d: Drive, raw: string, id: Id, now: int, queryOk: bool, f: DeleteFault)
    requires TreeShaped(d.files) && id !in d.trash && id !in d.stranded
    ensures var (d', r) := Delete(d, raw, id, now, queryOk, f); var path := MustValidate(raw);
      var sound := ValidateRel(raw).Ok? && path != "/" && Live(d.files, path);
      && (r == Ok(id) <==> sound && f.Deletes?) && (r.Ok? ==> r.value == id)
      && (r.Ok? ==>
            && id in d'.trash && d'.trash == d.trash[id := d'.trash[id]]
            && d' == d.(files := d'.files, trash := d'.trash)
            && d'.trash[id].orig == path && d'.trash[id].deletedAt == now
            && Packs(d.files, path, d'.trash[id].payload) && Cleared(d.files, d'.files, path))
      && (sound && f.Strands? ==>
            && id in d'.stranded && d' == d.(files := d'.files, stranded := d.stranded[id := d'.stranded[id]])
            && Packs(d.files, path, d'.stranded[id]) && Cleared(d.files, d'.files, path))
      && (r.Err? && !(sound && f.Strands?) ==> d' == d)
  {
    hide ValidateRel, Subtree, Detach, TreeShaped, VersionsUnder, Packs, Cleared, Live;
    LiveUnder(d.files, MustValidate(raw));
    DetachPacks(d.files, MustValidate(raw));
  }

  /** A deleted item goes with a sweep exactly if its time is plausible and before the cutoff, and it is not stuck. */
  lemma DeletedGoesByDate(d: Drive, raw: string, id: Id, now: int, queryOk: bool, cutoff: int,
                          left: map<Id, set<string>>, roots: seq<RootPurge>)
    requires Valid(d) && TreeShaped(d.files) && id !in d.trash && id !in d.stranded
    requires Delete(d, raw, id, now, queryOk, Deletes).1.Ok?
    ensures var d' := SweepTrash(Delete(d, raw, id, now, queryOk, Deletes).0, cutoff, left, roots);
      id in d'.trash <==> now < 1_000_000_000 || cutoff <= now || id in left
  {
    hide Delete, ValidateRel, PurgeHistories, Valid, RowsResolve;
    DeleteIs(d, raw, id, now, queryOk, Deletes);
    DeleteKeeps(d, raw, id, now, queryOk, Deletes);
    SweepGoesByDate(Delete(d, raw, id, now, queryOk, Deletes).0, cutoff, left, roots, id);
  }

  lemma SweepGoesByDate(d: Drive, cutoff: int, left: map<Id, set<string>>, roots: seq<RootPurge>, id: Id)
    requires Valid(d) && id in d.trash
    ensures id in SweepTrash(d, cutoff, left, roots).trash <==>
            d.trash[id].deletedAt < 1_000_000_000 || cutoff <= d.trash[id].deletedAt || id in left
  {
    hide PurgeHistories, SoundBlobs, SoundRows, SoundTrash, RowsResolve;
    var gone := Expired(d, cutoff);
    var some := map i | i in gone && i in left :: left[i];
    SweptTrashIsSound(d, gone, some);
    PurgeHistoriesKeep(d.(trash := (d.trash - gone) + Remnant(d.trash, some)), roots);
  }

  /** The restore search ends at the first of its names that is free, or is not accepted. */
  lemma {:induction false} FirstFreeName(files: map<Path, File>, orig: Path, n: nat) returns (k: nat)
    requires n >= 1
    ensures k >= n && forall j :: n <= j < k ==> RestoreName(orig, j) in Occupied(files)
    ensures var r, p := FreeRestoreName(files, orig, n), RestoreName(orig, k);
      if ValidateRel(p) == Ok(p) then r == Ok(p) && p !in Occupied(files) else r == Err(Invalid)
    decreases Untried(files, orig, n)
  {
    hide ValidateRel, RestoreName, Occupied;
    k := n;
    var dest := RestoreName(orig, n);
    if ValidateRel(dest) == Ok(dest) && dest in Occupied(files) {
      assert dest in Untried(files, orig, n);
      forall j: nat | j >= n + 1 ensures dest != RestoreName(orig, j) { RestoreNamesDiffer(orig, n, j); }
      assert dest !in Untried(files, orig, n + 1);
      k := FirstFreeName(files, orig, n + 1);
    }
  }

  /**
   A restore succeeds if and only if the item is there with its payload, the search
   finds a name and nothing fails or is in the way. Then the payload is there, as it
   was, besides what was live, and the item is gone, or its note left without a
   payload; nothing else in the trash has changed.
   */
  lemma RestoreOutcome(d: Drive, id: Id, f: RestoreFault)
    requires Valid(d)
    ensures var (d', r) := Restore(d, id, f);
      && (r.Ok? <==>
            id in d.trash && d.trash[id].payload != map[] && !f.moveFails &&
            var found := FreeRestoreName(d.files, d.trash[id].orig, 1);
            found.Ok? && !Blocked(d.files, found.value))
      && (r.Ok? ==>
            && id in d.trash && r == FreeRestoreName(d.files, d.trash[id].orig, 1) && d'.stranded == d.stranded
            && (forall q :: q in d'.files <==> q in d.files || PackedAt(d.trash[id].payload, r.value, q))
            && (forall q :: q in d.files ==> q in d'.files && d'.files[q] == d.files[q])
            && (forall s :: s in d.trash[id].payload ==>
                  r.value + s in d'.files && d'.files[r.value + s] == d.trash[id].payload[s])
            && d'.trash == if f.noteStays then d.trash[id := d.trash[id].(payload := map[])] else d.trash - {id})
  {
    hide FreeRestoreName, Blocked, Attach, MoveSpecific, OwnedRefs, ValidateRel, Occupied, Valid, PackedAt;
    RestoreKeeps(d, id, f);
    if Restore(d, id, f).1.Ok? {
      RestoreIs(d, id, f);
      var dest, item := Restore(d, id, f).1.value, d.trash[id];
      MovesHistoryOnly(PutBack(d, id, dest, f.noteStays), OwnedRefs(d, item), item.orig, dest, f.how);
      PutBackAt(d, id, dest);
    }
  }

  predicate PackedAt(payload: map<string, File>, dest: Path, q: Path) {
    exists s :: s in payload && q == dest + s
  }

  lemma PutBackAt(d: Drive, id: Id, dest: Path)
    requires Valid(d) && id in d.trash
    ensures forall q :: q in Attach(d.files, dest, d.trash[id].payload) <==>
              q in d.files || PackedAt(d.trash[id].payload, dest, q)
  {
    AttachAdds(d.files, dest, d.trash[id].payload);
    hide Attach;
    forall q | q in d.files ensures q in Attach(d.files, dest, d.trash[id].payload) { AttachKeepsKeys(d, id, dest, q); }
  }

  lemma AttachKeepsKeys(d: Drive, id: Id, dest: Path, q: Path)
    requires id in d.trash && q in d.files
    ensures q in Attach(d.files, dest, d.trash[id].payload)
  {
  }

  lemma MovesHistoryOnly(d: Drive, refs: seq<Ref>, oldRoot: Path, newRoot: Path, how: SpecificMove)
    ensures var d' := MoveSpecific(d, refs, oldRoot, newRoot, how);
      d'.files == d.files && d'.trash == d.trash && d'.stranded == d.stranded
  {
    hide BlobMoves, MoveBlobs;
    RefRowsOnly(d, refs, oldRoot, newRoot);
  }

  lemma {:induction false} RefRowsOnly(d: Drive, refs: seq<Ref>, oldRoot: Path, newRoot: Path)
    ensures var d' := MoveRefRows(d, refs, oldRoot, newRoot); d' == d.(rows := d'.rows, nextRow := d'.nextRow)
    decreases |refs|
  {
    if refs != [] {
      RefRowsOnly(d, refs[1..], oldRoot, newRoot);
      RefRowsOnly(MoveRefRow(d, refs[0], GoRewrite(oldRoot, newRoot, refs[0].path)), refs[1..], oldRoot, newRoot);
    }
  }

  // ---- version restore ----

  /**
   A version restore indexes what it replaced, if that was live and its snapshot
   made and indexed; else it adds no row.
   */
  lemma VersionRestoreIndexes(
    d: Drive, raw: string, vid: Id, v1: Id, v2: Id, now: int, snap: Snapping, fault: UploadFault)
    requires Valid(d) && v1 !in d.issued
    ensures var (d', r) := VersionRestore(d, raw, vid, v1, v2, now, snap, fault); var path := MustValidate(raw);
      if HasRow(d, Ref(path, vid)) && ValidateRel(raw).Ok? && path in d.files && snap.Indexed?
      then Indexes(d, d', path, v1, d.files[path].bytes, now)
      else d'.rows == d.rows
  {
    hide ValidateRel, StoreVersion, DriverUpload, Archived, Keeps, UploadLoses, RowsResolve, Replaced;
    if HasRow(d, Ref(MustValidate(raw), vid)) {
      IndexCurrentKeeps(d, raw, v1, now, snap);
      StoreKeepsBlobs(IndexCurrent(d, raw, v1, now, snap), raw, vid, v2, now, fault);
    }
  }

  /** One in which nothing fails succeeds if and only if row and blob are there and the path can be written. */
  lemma VersionRestoreSucceedsIff(d: Drive, raw: string, vid: Id, v1: Id, v2: Id, now: int, snap: Snapping)
    requires Valid(d) && v1 !in d.issued && v2 !in d.issued && v1 != v2
    ensures var path := MustValidate(raw);
      VersionRestore(d, raw, vid, v1, v2, now, snap, NoFault).1.Ok? <==>
        && ValidateRel(raw).Ok? && path != "/" && HasRow(d, Ref(path, vid)) && BlobKey(path, vid) in d.blobs
        && (path in d.files || path !in Directories(d.files)) && !Blocked(d.files, path)
  {
    hide ValidateRel, Blocked, Directories, SoundTrash, EtagOf;
    var path := MustValidate(raw);
    if HasRow(d, Ref(path, vid)) {
      assert vid in d.issued;
      assert BlobKey(path, vid) in IndexCurrent(d, raw, v1, now, snap).blobs <==> BlobKey(path, vid) in d.blobs;
    }
  }

  lemma StoreKeepsBlobs(d: Drive, raw: string, vid: Id, v2: Id, now: int, fault: UploadFault)
    requires Valid(d)
    ensures var d' := StoreVersion(d, raw, vid, v2, now, fault).0;
      && d'.rows == d.rows && (forall k :: k in d.blobs ==> k in d'.blobs && d'.blobs[k] == d.blobs[k])
  {
    hide ValidateRel, DriverUpload, Archived, Keeps, UploadLoses, Overwrites, Valid;
    var key := BlobKey(MustValidate(raw), vid);
    if ValidateRel(raw).Ok? && key in d.blobs {
      DriverUploadKeeps(d, UploadRequest(raw, d.blobs[key], "", false, "", ""), v2, now, fault);
    }
  }
}
