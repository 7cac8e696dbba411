/** The no-loss property of a whole pass, at every point it can stop, and of whole runs of several clients. */
module SyncRuns {
  import opened ConflictName
  import opened DriveArchive
  import opened DriveInvariant
  import opened DriveModel
  import opened DriveRuns
  import opened LogicalPath
  import opened Strings
  import opened SyncModel
  import opened SyncNoLoss
  import opened Wrappers

  /** Between passes: what the saved baseline calls unchanged is in the archive. */
  ghost predicate BaseBacked(c: Client, d: Drive) {
    forall q :: LocalVisible(q) ==> Backed(Begin(c, d), q)
  }

  /** The local walk reports files as they are; it may miss some. */
  ghost predicate Reports(c: Client, here: map<Path, Meta>) {
    forall p :: p in here ==> p in Walk(c.local) && here[p] == Walk(c.local)[p]
  }

  /** The remote walk, of many requests, reports anything it can list, whenever it was there. */
  ghost predicate Listable(there: map<Path, Meta>) {
    forall p :: p in there ==> RemoteVisible(p) && p != "" && p[0] == '/'
  }

  /** New files reported with one size and time on both sides are in the archive. */
  ghost predicate SameMeansSame(c: Client, d: Drive, here: map<Path, Meta>, there: map<Path, Meta>) {
    forall p :: p in here && p in there && here[p].Same(there[p]) && Changed(Some(here[p]), Lookup(c.saved, p)) ==>
      p in c.local ==> Archived(d, c.local[p].bytes)
  }

  predicate Slashed(paths: set<Path>) {
    forall p :: p in paths ==> p != "" && p[0] == '/'
  }

  ghost predicate PlanFits(c: Client, tag: string, order: seq<Path>, plan: Plan) {
    && Distinct(order) && NoneOf(tag, '/')
    && forall p :: p in order ==> NoneOf(plan(p).stamp, '/') && ConflictPath(p, tag, plan(p).stamp) !in c.local
  }

  /** Care is taken at each step, on the world it meets. */
  ghost predicate CarefulSteps(w: World, dir: Path, tag: string, here: map<Path, Meta>, there: map<Path, Meta>,
                               order: seq<Path>, plan: Plan)
    decreases |order|
  {
    order == [] || w.aborted ||
    var p := order[0];
    && CarefulStep(w, dir, tag, Lookup(here, p), Lookup(there, p), p, plan(p))
    && CarefulSteps(StepPath(w, dir, tag, Lookup(here, p), Lookup(there, p), p, plan(p)), dir, tag, here, there,
                    order[1..], plan)
  }

  ghost predicate MayPass(c: Client, d: Drive, dir: Path, tag: string, here: map<Path, Meta>, there: map<Path, Meta>,
                          order: seq<Path>, plan: Plan)
  {
    && Valid(d) && BaseBacked(c, d) && Reports(c, here) && Listable(there) && SameMeansSame(c, d, here, there)
    && Slashed(c.local.Keys) && PlanFits(c, tag, order, plan)
  }

  lemma SeenAt(c: Client, d: Drive, dir: Path, tag: string, here: map<Path, Meta>, there: map<Path, Meta>,
               order: seq<Path>, plan: Plan, p: Path)
    requires MayPass(c, d, dir, tag, here, there, order, plan) && p in order
    ensures Seen(Begin(c, d), dir, tag, Lookup(here, p), Lookup(there, p), p, plan(p))
  {
    hide LocalVisible, RemoteVisible, Valid, ConflictPath, NamePart, ConflictName.Staging, Archived;
    if p in there { RemoteVisibleName(p); }
    if p in here { assert p in c.local.Keys; }
  }

  lemma {:induction false} StepsKeep(c: Client, d: Drive, w: World, dir: Path, tag: string, here: map<Path, Meta>,
                                     there: map<Path, Meta>, all: seq<Path>, order: seq<Path>, plan: Plan)
    returns (todo: seq<Path>)
    requires MayPass(c, d, dir, tag, here, there, all, plan)
    requires Inv(Begin(c, d), w, order) && Distinct(order) && forall p :: p in order ==> p in all
    requires CarefulSteps(w, dir, tag, here, there, order, plan)
    ensures Inv(Begin(c, d), Steps(w, dir, tag, here, there, order, plan), todo)
    decreases |order|
  {
    hide Inv, MayPass, StepPath, Seen, CarefulStep;
    todo := order;
    if order != [] && !w.aborted {
      var p, rest := order[0], order[1..];
      assert order == [p] + rest;
      var l, r := Lookup(here, p), Lookup(there, p);
      SeenAt(c, d, dir, tag, here, there, all, plan, p);
      StepKeeps(Begin(c, d), w, dir, tag, l, r, p, rest, plan(p));
      todo := StepsKeep(c, d, StepPath(w, dir, tag, l, r, p, plan(p)), dir, tag, here, there, all, rest, plan);
    }
  }

  lemma InvAtStart(c: Client, d: Drive, order: seq<Path>)
    requires Valid(d) && BaseBacked(c, d)
    ensures Inv(Begin(c, d), Begin(c, d), order)
  {
    hide LocalVisible, Valid, Archived;
  }

  lemma InvAtEnd(c: Client, d: Drive, w: World, rest: seq<Path>, save: Save)
    requires BaseBacked(c, d) && Inv(Begin(c, d), w, rest)
    ensures Valid(w.drive) && Keeps(d, w.drive) && Holds(Begin(c, d), w)
    ensures BaseBacked(AfterPass(c, w, save), w.drive)
  {
    hide LocalVisible, Valid, Archived;
    forall q | LocalVisible(q) ensures Backed(Begin(AfterPass(c, w, save), w.drive), q) {
      assert Backed(w, q) && Known(Begin(c, d), w, q) && Backed(Begin(c, d), q);
    }
  }

  /**
   However a pass goes and wherever it stops, whatever the walks missed or found
   out of date, all content held at its start is still live locally, in the local
   trash, or in the drive's archive, unless something is overwritten or purged
   against care; and whatever becomes of the baseline file, the next pass starts
   as safely.
   */
  lemma PassLosesNothing(c: Client, d: Drive, dir: Path, tag: string, here: map<Path, Meta>, there: map<Path, Meta>,
                         order: seq<Path>, plan: Plan, save: Save)
    requires MayPass(c, d, dir, tag, here, there, order, plan)
    requires CarefulSteps(Begin(c, d), dir, tag, here, there, order, plan)
    ensures var w := PassOn(c, d, dir, tag, here, there, order, plan);
      && Valid(w.drive) && Keeps(d, w.drive) && Holds(Begin(c, d), w)
      && BaseBacked(AfterPass(c, w, save), w.drive)
  {
    hide Inv, Steps, CarefulSteps;
    InvAtStart(c, d, order);
    var rest := StepsKeep(c, d, Begin(c, d), dir, tag, here, there, order, order, plan);
    InvAtEnd(c, d, PassOn(c, d, dir, tag, here, there, order, plan), rest, save);
  }

  // ---- a process that dies in mid-pass ----

  /** The loop over a sequence is the loop over its first part, then over the rest. */
  lemma {:induction false} StepsSplit(w: World, dir: Path, tag: string, local: map<Path, Meta>,
                                      remote: map<Path, Meta>, a: seq<Path>, b: seq<Path>, plan: Plan)
    ensures Steps(w, dir, tag, local, remote, a + b, plan) ==
            Steps(Steps(w, dir, tag, local, remote, a, plan), dir, tag, local, remote, b, plan)
    decreases |a|
  {
    if a == [] {
      assert a + b == b;
    } else if !w.aborted {
      assert (a + b)[1..] == a[1..] + b;
      StepsSplit(StepPath(w, dir, tag, Lookup(local, a[0]), Lookup(remote, a[0]), a[0], plan(a[0])),
                 dir, tag, local, remote, a[1..], b, plan);
    }
  }

  /** From here on nothing is sent and nothing is written. */
  predicate Dead(f: Fate) {
    && f.push.gap == [] && f.push.reply.Dropped? && f.park.gap == [] && f.park.reply.Dropped?
    && f.remove.gap == [] && f.remove.reply.Dropped? && !f.mkdirOk && !f.binOk
  }

  lemma {:induction false} DeadChangesNothing(w: World, dir: Path, tag: string, local: map<Path, Meta>,
                                              remote: map<Path, Meta>, order: seq<Path>, plan: Plan)
    requires forall p :: p in order ==> Dead(plan(p))
    ensures var w' := Steps(w, dir, tag, local, remote, order, plan); w'.local == w.local && w'.drive == w.drive
    decreases |order|
  {
    hide ConflictPath, DriveModel.Upload, Delete, PullTo, FreeBin, LocalBlocked;
    if order != [] && !w.aborted {
      var w1 := StepPath(w, dir, tag, Lookup(local, order[0]), Lookup(remote, order[0]), order[0], plan(order[0]));
      assert Run(w.drive, []) == w.drive;
      assert w1.local == w.local && w1.drive == w.drive;
      DeadChangesNothing(w1, dir, tag, local, remote, order[1..], plan);
    }
  }

  // ---- several clients over time ----

  datatype System = System(drive: Drive, clients: map<nat, Client>)

  /** The pair each client keeps in step, and its host name. */
  datatype Setup = Setup(dir: Path, tag: string)

  datatype Event =
    | PassBy(id: nat, here: map<Path, Meta>, there: map<Path, Meta>, order: seq<Path>, plan: Plan, save: Save)
    | Served(op: Op)
    | Edited(id: nat, local: map<Path, File>)

  function Happen(s: System, setup: nat -> Setup, e: Event): System {
    match e
    case PassBy(id, here, there, order, plan, save) =>
      if id !in s.clients then s
      else
        var w := PassOn(s.clients[id], s.drive, setup(id).dir, setup(id).tag, here, there, order, plan);
        System(w.drive, s.clients[id := AfterPass(s.clients[id], w, save)])
    case Served(op) => s.(drive := Apply(s.drive, op))
    case Edited(id, local) =>
      if id in s.clients then s.(clients := s.clients[id := s.clients[id].(local := local)]) else s
  }

  function Play(s: System, setup: nat -> Setup, events: seq<Event>): System
    decreases |events|
  {
    if events == [] then s else Play(Happen(s, setup, events[0]), setup, events[1..])
  }

  /** An edit leaves a recorded size and time only on content that had them before, or is archived. */
  ghost predicate HonestEdit(c: Client, d: Drive, local: map<Path, File>) {
    forall q :: q in local && q in c.saved && MetaOf(local[q]).Same(c.saved[q]) && LocalVisible(q) ==>
      (q in c.local && c.local[q] == local[q]) || Archived(d, local[q].bytes)
  }

  ghost predicate Allowed(s: System, setup: nat -> Setup, e: Event) {
    match e
    case PassBy(id, here, there, order, plan, save) =>
      id in s.clients ==>
        && Reports(s.clients[id], here) && Listable(there) && SameMeansSame(s.clients[id], s.drive, here, there)
        && Slashed(s.clients[id].local.Keys) && PlanFits(s.clients[id], setup(id).tag, order, plan)
        && CarefulSteps(Begin(s.clients[id], s.drive), setup(id).dir, setup(id).tag, here, there, order, plan)
    case Served(op) => !Purges(op) && !Clobbers(s.drive, op)
    case Edited(id, local) => id in s.clients ==> HonestEdit(s.clients[id], s.drive, local)
  }

  ghost predicate AllowedRun(s: System, setup: nat -> Setup, events: seq<Event>)
    decreases |events|
  {
    events == [] || (Allowed(s, setup, events[0]) && AllowedRun(Happen(s, setup, events[0]), setup, events[1..]))
  }

  ghost predicate Sound(s: System) {
    Valid(s.drive) && forall id :: id in s.clients ==> BaseBacked(s.clients[id], s.drive)
  }

  /** `b` is on some client, trashed or not, or in the drive's archive. */
  predicate Survives(s: System, b: Bytes) {
    Archived(s.drive, b) || exists id :: id in s.clients && Kept(s.clients[id].local, b)
  }

  /** The user took `b` off a client himself. */
  predicate Erases(s: System, e: Event, b: Bytes) {
    e.Edited? && e.id in s.clients && Kept(s.clients[e.id].local, b) && !Kept(e.local, b)
  }

  predicate ErasedIn(s: System, setup: nat -> Setup, events: seq<Event>, b: Bytes)
    decreases |events|
  {
    events != [] && (Erases(s, events[0], b) || ErasedIn(Happen(s, setup, events[0]), setup, events[1..], b))
  }

  lemma DriveMoves(c: Client, d: Drive, d': Drive)
    requires BaseBacked(c, d) && Keeps(d, d')
    ensures BaseBacked(c, d')
  {
    hide LocalVisible, Archived;
    forall q | LocalVisible(q) ensures Backed(Begin(c, d'), q) { assert Backed(Begin(c, d), q); }
  }

  lemma EditBacked(c: Client, d: Drive, local: map<Path, File>)
    requires BaseBacked(c, d) && HonestEdit(c, d, local)
    ensures BaseBacked(c.(local := local), d)
  {
    hide LocalVisible, Archived;
    forall q | LocalVisible(q) ensures Backed(Begin(c.(local := local), d), q) { assert Backed(Begin(c, d), q); }
  }

  lemma EventSound(s: System, setup: nat -> Setup, e: Event)
    requires Sound(s) && Allowed(s, setup, e)
    ensures Sound(Happen(s, setup, e))
    ensures forall b :: Survives(s, b) && !Erases(s, e, b) ==> Survives(Happen(s, setup, e), b)
  {
    hide PassOn, Valid, BaseBacked, SameMeansSame, Reports, Listable, PlanFits, HonestEdit, Slashed, Kept, Archived,
         Apply, CarefulSteps, Clobbers;
    var s' := Happen(s, setup, e);
    match e
    case PassBy(id, here, there, order, plan, save) =>
      if id in s.clients {
        var c, dir, tag := s.clients[id], setup(id).dir, setup(id).tag;
        var w := PassOn(c, s.drive, dir, tag, here, there, order, plan);
        PassLosesNothing(c, s.drive, dir, tag, here, there, order, plan, save);
        forall j | j in s'.clients ensures BaseBacked(s'.clients[j], s'.drive) {
          if j != id { DriveMoves(s.clients[j], s.drive, s'.drive); }
        }
        forall b | Survives(s, b) ensures Survives(s', b) {
          if !Archived(s.drive, b) {
            var j :| j in s.clients && Kept(s.clients[j].local, b);
            if j == id {
              assert Held(Begin(c, s.drive), b);
              assert Held(w, b);
            }
            assert j in s'.clients;
          }
        }
      }
    case Served(op) =>
      ApplyKeeps(s.drive, op);
      forall j | j in s'.clients ensures BaseBacked(s'.clients[j], s'.drive) {
        DriveMoves(s.clients[j], s.drive, s'.drive);
      }
    case Edited(id, local) =>
      if id in s.clients { EditBacked(s.clients[id], s.drive, local); }
      forall b | Survives(s, b) && !Erases(s, e, b) ensures Survives(s', b) {
        if !Archived(s.drive, b) {
          var j :| j in s.clients && Kept(s.clients[j].local, b);
          assert j in s'.clients;
        }
      }
  }

  /**
   Over any run of any number of clients, with any failures, only the user's own
   edits can take content away that was on a client or on the drive, as long as
   nothing is purged and nothing overwritten unseen that is nowhere else.
   */
  lemma {:induction false} RunsLoseNothing(s: System, setup: nat -> Setup, events: seq<Event>, b: Bytes)
    requires Sound(s) && AllowedRun(s, setup, events)
    requires Survives(s, b) && !ErasedIn(s, setup, events, b)
    ensures Sound(Play(s, setup, events)) && Survives(Play(s, setup, events), b)
    decreases |events|
  {
    hide Sound, Allowed, Survives, Happen, Erases;
    if events != [] {
      EventSound(s, setup, events[0]);
      RunsLoseNothing(Happen(s, setup, events[0]), setup, events[1..], b);
    }
  }
}
