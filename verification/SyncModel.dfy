/**
 One pass of the two-way sync engine, as a function of the world it starts in
 and of a plan that fixes every outcome it can meet: which requests are lost or
 answered, which file operations fail, what the clocks read, and what other
 clients do to the drive before each request. A process that dies in mid-pass is
 the plan in which everything from that point on fails without effect.
 */
module SyncModel {
  import opened ConflictName
  import opened DriveModel
  import opened DriveRuns
  import opened LogicalPath
  import opened Strings
  import opened Wrappers

  datatype Meta = Meta(size: int, mtime: int, etag: string) {
    /** The etag is left out: local walks never produce one. */
    predicate Same(o: Meta) { size == o.size && mtime == o.mtime }

    function WithEtag(): Meta { this.(etag := EtagOf(mtime, size)) }
  }

  function MetaOf(f: File): Meta {
    Meta(|f.bytes|, f.mtime, "")
  }

  /** `local` holds every file below the synced directory, its trash and staging files included. */
  datatype World = World(
    local: map<Path, File>,
    drive: Drive,
    base: map<Path, Meta>,
    errors: nat,
    aborted: bool)

  function Report(w: World): World {
    w.(errors := w.errors + 1)
  }

  // ---- the two walks ----

  function JoinRemote(dir: Path, rel: Path): Path {
    if dir == "/" then rel else dir + rel
  }

  function Walk(local: map<Path, File>): map<Path, Meta> {
    map p | p in local && LocalVisible(p) :: MetaOf(local[p])
  }

  function RemotePaths(d: Drive, dir: Path): set<Path> {
    set p | p in d.files && (dir == "/" || HasPrefix(p, dir + "/")) :: if dir == "/" then p else TrimPrefix(p, dir)
  }

  function Listing(d: Drive, dir: Path): map<Path, Meta> {
    map rel | rel in RemotePaths(d, dir) && RemoteVisible(rel) && JoinRemote(dir, rel) in d.files ::
      MetaOf(d.files[JoinRemote(dir, rel)])
  }

  // ---- outcomes ----

  /** What becomes of an upload or delete request and its answer. */
  datatype Reply = Dropped | Unanswered | NoEntry | Answered

  datatype Push = Push(gap: seq<Op>, reply: Reply, fault: UploadFault, vid: Id, now: int)
  /** What a failed download leaves of its staging file. */
  datatype Litter = Untouched | Cleared | Left(file: File)
  datatype Fetch = Fetch(gap: seq<Op>, ok: bool, litter: Litter, now: int, touched: bool)
  datatype Remove = Remove(gap: seq<Op>, reply: Reply, id: Id, now: int, queryOk: bool, ending: DeleteFault)
  datatype Stat = Stat(gap: seq<Op>, ok: bool)

  /**
   Every outcome one path can meet in a pass, and the time its conflict copy would
   carry. A place in `binUnseen` counts as free, as the look at it fails.
   */
  datatype Fate = Fate(
    push: Push, touched: bool,
    remove: Remove,
    mkdirOk: bool, fetch: Fetch,
    binOk: bool, binStamp: string, binUnseen: set<Path>,
    park: Push, stamp: string, canonical: Fetch, stat: Stat, mkdirCopyOk: bool, copy: Fetch)

  type Plan = Path -> Fate

  function Serve(w: World, gap: seq<Op>): World {
    w.(drive := Run(w.drive, gap))
  }

  // ---- single actions ----

  datatype Pushed = Failed | Mismatch | Recorded(meta: Meta)

  /** `uploadFile` followed by `metaFromUploadResp`. */
  function UploadFile(w: World, dir: Path, from: Path, to: Path, ifMatch: string, p: Push): (World, Pushed) {
    if from !in w.local then (w, Failed)
    else
      var w1 := Serve(w, p.gap);
      if p.reply.Dropped? then (w1, Failed)
      else
        var req := UploadRequest(JoinRemote(dir, to), w1.local[from].bytes, ifMatch, false, "", "");
        var (d2, r) := Upload(w1.drive, req, p.vid, p.now, p.fault);
        (w1.(drive := d2),
         if p.reply.Unanswered? then Failed
         else
           match r
           case Err(e) => if e.Conflict? then Mismatch else Failed
           case Ok(s) => if p.reply.NoEntry? then Failed
                         else Recorded(Meta(s.entry.size, s.entry.mtime, "").WithEtag()))
  }

  /** A local write can fail because a directory is in the way, or a file above. */
  predicate LocalBlocked(local: map<Path, File>, p: Path) {
    p in Directories(local) || Blocked(local, p)
  }

  function StagingOf(p: Path): Path {
    p + ".xxpart"
  }

  function Strew(local: map<Path, File>, p: Path, litter: Litter): map<Path, File> {
    match litter
    case Untouched => local
    case Cleared => local - {StagingOf(p)}
    case Left(file) => local[StagingOf(p) := file]
  }

  /** `pullTo`: download to a staging file, then rename into place. */
  function PullTo(w: World, dir: Path, rel: Path, to: Path, f: Fetch): (World, bool) {
    var w1 := Serve(w, f.gap);
    var source := MustValidate(JoinRemote(dir, rel));
    if source !in w1.drive.files then (w1, false)
    else if !f.ok || LocalBlocked(w1.local, to) then (w1.(local := Strew(w1.local, to, f.litter)), false)
    else
      (w1.(local := (w1.local - {StagingOf(to)})[to := File(w1.drive.files[source].bytes, f.now)]), true)
  }

  /** `os.Chtimes`, whose failure nothing reports. */
  function Touch(w: World, p: Path, mtime: int, ok: bool): World {
    if ok && p in w.local then w.(local := w.local[p := w.local[p].(mtime := mtime)]) else w
  }

  /** A numbered stamp directory of the local trash, and the relative path below it. */
  function BinPath(stamp: string, n: nat, p: Path): Path {
    "/.xxdrive-trash" + ("/" + (stamp + (if n == 0 then "" else "-" + Numeral(n, Ten)) + p))
  }

  /** Something is seen at each of these places. */
  predicate AllTaken(local: map<Path, File>, stamp: string, p: Path, from: nat, to: nat, unseen: set<Path>) {
    forall j: nat :: from <= j < to ==> BinPath(stamp, j, p) in Occupied(local) && BinPath(stamp, j, p) !in unseen
  }

  /** The first of a thousand numbered places where nothing is seen. */
  function FreeBin(local: map<Path, File>, stamp: string, p: Path, n: nat, unseen: set<Path>): (r: Option<Path>)
    ensures r.Some? ==> (r.value !in Occupied(local) || r.value in unseen) &&
                        exists m: nat :: r.value == BinPath(stamp, m, p) && m < 1000 &&
                                         AllTaken(local, stamp, p, n, m, unseen)
    ensures r.None? ==> AllTaken(local, stamp, p, n, 1000, unseen)
    decreases 1000 - n
  {
    if n >= 1000 then None
    else if BinPath(stamp, n, p) in Occupied(local) && BinPath(stamp, n, p) !in unseen
    then FreeBin(local, stamp, p, n + 1, unseen)
    else Some(BinPath(stamp, n, p))
  }

  /** Moves a file to its place in the local trash, over a file that was not seen there. */
  function TrashLocal(w: World, p: Path, stamp: string, ok: bool, unseen: set<Path>): (World, bool) {
    var dst := FreeBin(w.local, stamp, p, 0, unseen);
    if p !in w.local || dst.None? || !ok || LocalBlocked(w.local, dst.value) then (w, false)
    else (w.(local := (w.local - {p})[dst.value := w.local[p]]), true)
  }

  function RemoveRemote(w: World, dir: Path, rel: Path, f: Remove): (World, bool) {
    var w1 := Serve(w, f.gap);
    if f.reply.Dropped? then (w1, false)
    else
      var (d2, r) := Delete(w1.drive, JoinRemote(dir, rel), f.id, f.now, f.queryOk, f.ending);
      (w1.(drive := d2), r.Ok? && f.reply.Answered?)
  }

  /** The baseline entry for the canonical path after a conflict. */
  function FreshMeta(w: World, dir: Path, rel: Path, stat: Stat, listed: Meta): Meta {
    var d := Run(w.drive, stat.gap);
    var target := MustValidate(JoinRemote(dir, rel));
    if stat.ok && target in d.files && !ConflictName.Staging(NamePart(target)) then MetaOf(d.files[target]).WithEtag()
    else listed
  }

  // ---- one path ----

  /** Park the local version on the server, converge on the canonical one, mirror the copy. */
  function ResolveConflict(w: World, dir: Path, tag: string, rp: Path, listed: Meta, fate: Fate): World {
    var conf := ConflictPath(rp, tag, fate.stamp);
    var (w1, parked) := UploadFile(w, dir, rp, conf, "", fate.park);
    if !parked.Recorded? then Report(w1)
    else
      var (w2, pulled) := PullTo(w1, dir, rp, rp, fate.canonical);
      if !pulled then Report(w2)
      else
        var meta := FreshMeta(w2, dir, rp, fate.stat, listed);
        var w3 := Touch(Serve(w2, fate.stat.gap), rp, meta.mtime, fate.canonical.touched);
        if !fate.mkdirCopyOk then Report(w3)
        else
          var (w4, mirrored) := PullTo(w3, dir, conf, conf, fate.copy);
          if !mirrored then Report(w4)
          else
            var w5 := Touch(w4, conf, parked.meta.mtime, fate.copy.touched);
            w5.(base := w5.base[rp := meta][conf := parked.meta])
  }

  function PushLocal(w: World, dir: Path, tag: string, rp: Path, b: Option<Meta>, listed: Meta, fate: Fate): World {
    var ifMatch := if b.Some? then b.value.etag else "";
    var (w1, pushed) := UploadFile(w, dir, rp, rp, ifMatch, fate.push);
    match pushed
    case Mismatch => ResolveConflict(w1, dir, tag, rp, listed, fate)
    case Failed => Report(w1)
    case Recorded(meta) => var w2 := Touch(w1, rp, meta.mtime, fate.touched); w2.(base := w2.base[rp := meta])
  }

  function DeleteRemote(w: World, dir: Path, rp: Path, fate: Fate): World {
    var (w1, ok) := RemoveRemote(w, dir, rp, fate.remove);
    if ok then w1.(base := w1.base - {rp}) else Report(w1)
  }

  function PullRemote(w: World, dir: Path, rp: Path, r: Meta, fate: Fate): World {
    if !fate.mkdirOk || Blocked(w.local, rp) then Report(w).(aborted := true)
    else
      var (w1, ok) := PullTo(w, dir, rp, rp, fate.fetch);
      if !ok then Report(w1)
      else
        var w2 := Touch(w1, rp, r.mtime, fate.fetch.touched);
        w2.(base := w2.base[rp := r.WithEtag()])
  }

  function BinLocal(w: World, rp: Path, fate: Fate): World {
    var (w1, ok) := TrashLocal(w, rp, fate.binStamp, fate.binOk, fate.binUnseen);
    if ok then w1.(base := w1.base - {rp}) else Report(w1)
  }

  function Lookup(m: map<Path, Meta>, p: Path): Option<Meta> {
    if p in m then Some(m[p]) else None
  }

  predicate Changed(now: Option<Meta>, was: Option<Meta>) {
    now.Some? && (was.None? || !now.value.Same(was.value))
  }

  predicate Gone(now: Option<Meta>, was: Option<Meta>) {
    now.None? && was.Some?
  }

  /** The reconcile switch for one path, on what the walks saw and the baseline as it is now. */
  function StepPath(w: World, dir: Path, tag: string, l: Option<Meta>, r: Option<Meta>, rp: Path, fate: Fate): World {
    var b := Lookup(w.base, rp);
    if Changed(l, b) && Changed(r, b) then
      if l.value.Same(r.value) then w.(base := w.base[rp := l.value.WithEtag()])
      else ResolveConflict(w, dir, tag, rp, r.value, fate)
    else if Changed(l, b) then
      PushLocal(w, dir, tag, rp, b, if r.Some? then r.value else Meta(0, 0, ""), fate)
    else if Gone(l, b) && !Changed(r, b) && !Gone(r, b) then DeleteRemote(w, dir, rp, fate)
    else if Changed(r, b) then PullRemote(w, dir, rp, r.value, fate)
    else if Gone(r, b) && !Changed(l, b) && !Gone(l, b) then BinLocal(w, rp, fate)
    else if Gone(l, b) && Gone(r, b) then w.(base := w.base - {rp})
    else w
  }

  // ---- what a step asks of the drive ----

  /** Each function gives the operations on the drive, others' and its own, in the order they are served. */
  function UploadOps(w: World, dir: Path, from: Path, to: Path, ifMatch: string, p: Push): seq<Op> {
    if from !in w.local then []
    else if p.reply.Dropped? then p.gap
    else
      var req := UploadRequest(JoinRemote(dir, to), w.local[from].bytes, ifMatch, false, "", "");
      p.gap + [UploadOp(req, p.vid, p.now, p.fault)]
  }

  function RemoveOps(dir: Path, rel: Path, f: Remove): seq<Op> {
    if f.reply.Dropped? then f.gap
    else f.gap + [DeleteOp(JoinRemote(dir, rel), f.id, f.now, f.queryOk, f.ending)]
  }

  function ConflictOps(w: World, dir: Path, tag: string, rp: Path, fate: Fate): seq<Op> {
    var conf := ConflictPath(rp, tag, fate.stamp);
    var (w1, parked) := UploadFile(w, dir, rp, conf, "", fate.park);
    UploadOps(w, dir, rp, conf, "", fate.park) +
    if !parked.Recorded? then []
    else
      fate.canonical.gap +
      if !PullTo(w1, dir, rp, rp, fate.canonical).1 then []
      else fate.stat.gap + if fate.mkdirCopyOk then fate.copy.gap else []
  }

  function PushOps(w: World, dir: Path, tag: string, rp: Path, b: Option<Meta>, fate: Fate): seq<Op> {
    var ifMatch := if b.Some? then b.value.etag else "";
    var (w1, pushed) := UploadFile(w, dir, rp, rp, ifMatch, fate.push);
    UploadOps(w, dir, rp, rp, ifMatch, fate.push) + if pushed.Mismatch? then ConflictOps(w1, dir, tag, rp, fate) else []
  }

  function StepOps(w: World, dir: Path, tag: string, l: Option<Meta>, r: Option<Meta>, rp: Path, fate: Fate): seq<Op> {
    var b := Lookup(w.base, rp);
    if Changed(l, b) && Changed(r, b) then
      if l.value.Same(r.value) then [] else ConflictOps(w, dir, tag, rp, fate)
    else if Changed(l, b) then PushOps(w, dir, tag, rp, b, fate)
    else if Gone(l, b) && !Changed(r, b) && !Gone(r, b) then RemoveOps(dir, rp, fate.remove)
    else if Changed(r, b) && fate.mkdirOk && !Blocked(w.local, rp) then fate.fetch.gap
    else []
  }

  /** The loop over the union of paths; a failed mkdir abandons the pass. */
  function Steps(w: World, dir: Path, tag: string, local: map<Path, Meta>, remote: map<Path, Meta>,
                 order: seq<Path>, plan: Plan): World
    decreases |order|
  {
    if order == [] || w.aborted then w
    else
      var w1 := StepPath(w, dir, tag, Lookup(local, order[0]), Lookup(remote, order[0]), order[0], plan(order[0]));
      Steps(w1, dir, tag, local, remote, order[1..], plan)
  }

  // ---- one pass ----

  /** A client between passes; the baseline file may be missing or torn, which reads as empty. */
  datatype Client = Client(local: map<Path, File>, saved: map<Path, Meta>)

  datatype Save = SaveOk | SaveFailed | SaveTorn

  function Begin(c: Client, d: Drive): World {
    World(c.local, d, c.saved, 0, false)
  }

  function PassPaths(c: Client, d: Drive, dir: Path): set<Path> {
    Walk(c.local).Keys + Listing(d, dir).Keys + c.saved.Keys
  }

  /** A pass on what the two walks reported. */
  function PassOn(c: Client, d: Drive, dir: Path, tag: string, here: map<Path, Meta>, there: map<Path, Meta>,
                  order: seq<Path>, plan: Plan): World {
    Steps(Begin(c, d), dir, tag, here, there, order, plan)
  }

  /** A pass whose walks were complete. */
  function Pass(c: Client, d: Drive, dir: Path, tag: string, order: seq<Path>, plan: Plan): World {
    PassOn(c, d, dir, tag, Walk(c.local), Listing(d, dir), order, plan)
  }

  function AfterPass(c: Client, w: World, save: Save): Client {
    Client(w.local, if w.aborted || save.SaveFailed? then c.saved else if save.SaveTorn? then map[] else w.base)
  }
}
