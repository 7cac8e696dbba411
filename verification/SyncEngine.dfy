/**
 The sync client as an object: its local tree, its baseline and the drive it
 talks to, updated step by step, each method proved to be the matching step of
 the pass model.
 */
module SyncEngine {
  import opened ConflictName
  import opened DriveModel
  import opened DriveRuns
  import opened LogicalPath
  import opened Strings
  import opened SyncModel
  import opened SyncPass
  import opened SyncStep
  import opened Wrappers

  class Engine {
    const dir: Path
    const tag: string
    var local: map<Path, File>
    var saved: map<Path, Meta>
    var drive: Drive
    var base: map<Path, Meta>
    var errors: nat

    ghost function State(): World
      reads this
    {
      World(local, drive, base, errors, false)
    }

    constructor (dir: Path, tag: string, local: map<Path, File>, drive: Drive)
      ensures this.dir == dir && this.tag == tag && this.local == local && this.drive == drive && saved == map[]
    {
      this.dir, this.tag, this.local, this.drive := dir, tag, local, drive;
      saved, base, errors := map[], map[], 0;
    }

    method SendFile(from: Path, to: Path, ifMatch: string, p: Push) returns (r: Pushed)
      modifies this`drive
      ensures (State(), r) == UploadFile(old(State()), dir, from, to, ifMatch, p)
    {
      hide DriveModel.Upload, Run, EtagOf;
      if from !in local { return Failed; }
      drive := Run(drive, p.gap);
      if p.reply.Dropped? { return Failed; }
      var req := UploadRequest(JoinRemote(dir, to), local[from].bytes, ifMatch, false, "", "");
      var answer := DriveModel.Upload(drive, req, p.vid, p.now, p.fault);
      drive := answer.0;
      if p.reply.Unanswered? { return Failed; }
      match answer.1
      case Err(e) => return if e.Conflict? then Mismatch else Failed;
      case Ok(s) =>
        if p.reply.NoEntry? { return Failed; }
        return Recorded(Meta(s.entry.size, s.entry.mtime, "").WithEtag());
    }

    /** Downloads beside the target, then renames over it. */
    method Fetch(rel: Path, f: Fetch) returns (ok: bool)
      modifies this`drive, this`local
      ensures (State(), ok) == PullTo(old(State()), dir, rel, rel, f)
    {
      hide MustValidate, Run, LocalBlocked;
      drive := Run(drive, f.gap);
      var source := MustValidate(JoinRemote(dir, rel));
      if source !in drive.files { return false; }
      if !f.ok || LocalBlocked(local, rel) {
        local := Strew(local, rel, f.litter);
        return false;
      }
      local := local - {StagingOf(rel)};
      local := local[rel := File(drive.files[source].bytes, f.now)];
      return true;
    }

    method SetTime(p: Path, mtime: int, ok: bool)
      modifies this`local
      ensures State() == Touch(old(State()), p, mtime, ok)
    {
      if ok && p in local { local := local[p := local[p].(mtime := mtime)]; }
    }

    /** Moves a file into the first stamp directory of the local trash that seems to have room for it. */
    method TrashFile(p: Path, stamp: string, ok: bool, unseen: set<Path>) returns (done: bool)
      modifies this`local
      ensures (State(), done) == TrashLocal(old(State()), p, stamp, ok, unseen)
    {
      hide Occupied, BinPath, LocalBlocked;
      if p !in local { return false; }
      var n := 0;
      while n < 1000 && BinPath(stamp, n, p) in Occupied(local) && BinPath(stamp, n, p) !in unseen
        invariant 0 <= n <= 1000
        invariant FreeBin(local, stamp, p, 0, unseen) == FreeBin(local, stamp, p, n, unseen)
      {
        n := n + 1;
      }
      if n == 1000 { return false; }
      var dst := BinPath(stamp, n, p);
      if !ok || LocalBlocked(local, dst) { return false; }
      var file := local[p];
      local := local - {p};
      local := local[dst := file];
      return true;
    }

    method DeleteOnServer(rel: Path, f: Remove) returns (ok: bool)
      modifies this`drive
      ensures (State(), ok) == RemoveRemote(old(State()), dir, rel, f)
    {
      hide Delete, Run;
      drive := Run(drive, f.gap);
      if f.reply.Dropped? { return false; }
      var answer := Delete(drive, JoinRemote(dir, rel), f.id, f.now, f.queryOk, f.ending);
      drive := answer.0;
      return answer.1.Ok? && f.reply.Answered?;
    }

    /** Parks the local version, converges on the canonical one, mirrors the copy, records both. */
    method KeepBothVersions(rp: Path, listed: Meta, fate: Fate)
      modifies this`drive, this`local, this`base, this`errors
      ensures State() == ResolveConflict(old(State()), dir, tag, rp, listed, fate)
    {
      hide UploadFile, PullTo, Touch, Run, ConflictPath, FreshMeta;
      var conf := ConflictPath(rp, tag, fate.stamp);
      var parked := SendFile(rp, conf, "", fate.park);
      if !parked.Recorded? { errors := errors + 1; return; }
      var ok := Fetch(rp, fate.canonical);
      if !ok { errors := errors + 1; return; }
      var meta := FreshMeta(World(local, drive, base, errors, false), dir, rp, fate.stat, listed);
      drive := Run(drive, fate.stat.gap);
      SetTime(rp, meta.mtime, fate.canonical.touched);
      if !fate.mkdirCopyOk { errors := errors + 1; return; }
      ok := Fetch(conf, fate.copy);
      if !ok { errors := errors + 1; return; }
      SetTime(conf, parked.meta.mtime, fate.copy.touched);
      base := base[rp := meta];
      base := base[conf := parked.meta];
    }

    /** One turn of the reconcile switch; false when the pass must be abandoned. */
    method Reconcile(l: Option<Meta>, r: Option<Meta>, rp: Path, fate: Fate) returns (goOn: bool)
      modifies this`drive, this`local, this`base, this`errors
      ensures State().(aborted := !goOn) == StepPath(old(State()), dir, tag, l, r, rp, fate)
    {
      hide ResolveConflict, UploadFile, PullTo, RemoveRemote, TrashLocal, Touch, Blocked;
      goOn := true;
      var b := Lookup(base, rp);
      if Changed(l, b) && Changed(r, b) {
        if l.value.Same(r.value) { base := base[rp := l.value.WithEtag()]; return; }
        KeepBothVersions(rp, r.value, fate);
      } else if Changed(l, b) {
        var ifMatch := if b.Some? then b.value.etag else "";
        var pushed := SendFile(rp, rp, ifMatch, fate.push);
        match pushed {
          case Mismatch => KeepBothVersions(rp, if r.Some? then r.value else Meta(0, 0, ""), fate);
          case Failed => errors := errors + 1;
          case Recorded(meta) => SetTime(rp, meta.mtime, fate.touched); base := base[rp := meta];
        }
      } else if Gone(l, b) && !Changed(r, b) && !Gone(r, b) {
        var ok := DeleteOnServer(rp, fate.remove);
        if ok { base := base - {rp}; } else { errors := errors + 1; }
      } else if Changed(r, b) {
        if !fate.mkdirOk || Blocked(local, rp) { errors := errors + 1; return false; }
        var ok := Fetch(rp, fate.fetch);
        if !ok { errors := errors + 1; return; }
        SetTime(rp, r.value.mtime, fate.fetch.touched);
        base := base[rp := r.value.WithEtag()];
      } else if Gone(r, b) && !Changed(l, b) && !Gone(l, b) {
        var ok := TrashFile(rp, fate.binStamp, fate.binOk, fate.binUnseen);
        if ok { base := base - {rp}; } else { errors := errors + 1; }
      } else if Gone(l, b) && Gone(r, b) {
        base := base - {rp};
      }
    }

    /**
     `syncOnce`: load the baseline, reconcile every path one of the walks reported
     or the baseline names, save the baseline.
     */
    method SyncOnce(here: map<Path, Meta>, there: map<Path, Meta>, order: seq<Path>, plan: Plan, save: Save)
      requires Lists(order, here.Keys + there.Keys + saved.Keys)
      modifies this
      ensures var c := Client(old(local), old(saved));
        var w := PassOn(c, old(drive), dir, tag, here, there, order, plan);
        drive == w.drive && errors == w.errors && Client(local, saved) == AfterPass(c, w, save)
    {
      hide StepPath, Steps, Lists;
      base, errors := saved, 0;
      ghost var end := PassOn(Client(local, saved), drive, dir, tag, here, there, order, plan);
      assert order[0..] == order;
      for i := 0 to |order|
        modifies this`drive, this`local, this`base, this`errors
        invariant Steps(State(), dir, tag, here, there, order[i..], plan) == end
      {
        StepsFrom(State(), dir, tag, here, there, order, plan, i);
        var goOn := Reconcile(Lookup(here, order[i]), Lookup(there, order[i]), order[i], plan(order[i]));
        if !goOn {
          StepsEnd(State().(aborted := true), dir, tag, here, there, order[i + 1..], plan);
          return;
        }
      }
      StepsEnd(State(), dir, tag, here, there, order[|order|..], plan);
      saved := if save.SaveFailed? then saved else if save.SaveTorn? then map[] else base;
    }
  }

  lemma StepsFrom(w: World, dir: Path, tag: string, here: map<Path, Meta>, there: map<Path, Meta>,
                  order: seq<Path>, plan: Plan, i: nat)
    requires i < |order| && !w.aborted
    ensures Steps(w, dir, tag, here, there, order[i..], plan) ==
      Steps(StepPath(w, dir, tag, Lookup(here, order[i]), Lookup(there, order[i]), order[i], plan(order[i])),
            dir, tag, here, there, order[i + 1..], plan)
  {
    hide StepPath;
    assert order[i..][1..] == order[i + 1..];
  }

  lemma StepsEnd(w: World, dir: Path, tag: string, here: map<Path, Meta>, there: map<Path, Meta>,
                 order: seq<Path>, plan: Plan)
    requires order == [] || w.aborted
    ensures Steps(w, dir, tag, here, there, order, plan) == w
  {
  }
}
