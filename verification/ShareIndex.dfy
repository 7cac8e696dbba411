/**
 The short-URL index over live shares: a cache rebuilt lazily under its own
 lock, one user's shares at a time, while store writes go on beside it. A
 mutation writes the store first and marks the index stale later; in between it
 is pending. Distinct shares are taken to have distinct hash prefixes.
 */
module ShareIndex {
  import opened Wrappers

  type Prefix = string
  type UserId = nat

  datatype Share = Share(owner: UserId, path: string, expiresAt: int, revoked: bool)

  datatype Change =
    | Create(prefix: Prefix, share: Share)
    | Revoke(prefix: Prefix)
    | DropUser(user: UserId)
    | AddUser(user: UserId)

  /** A rebuild in progress: users still to list, what was found so far, and the users whose listing failed. */
  datatype Scan = Scan(rest: seq<UserId>, found: map<Prefix, Share>, missed: set<UserId>)

  /** `missed` are the users whose listing failed when the index was built. */

  datatype State = State(
    users: set<UserId>,
    shares: map<Prefix, Share>,
    idx: map<Prefix, Share>,
    stale: bool,
    missed: set<UserId>,
    scan: Option<Scan>,
    pending: map<nat, set<Prefix>>)

  datatype Step =
    | Write(op: nat, change: Change)
    | Invalidate(op: nat)
    | Begin(order: seq<UserId>)
    | ListUser(ok: bool)
    | Finish

  // ---- the store ----

  function Live(shares: map<Prefix, Share>): map<Prefix, Share> {
    map p | p in shares && !shares[p].revoked :: shares[p]
  }

  function SharesOf(shares: map<Prefix, Share>, u: UserId): map<Prefix, Share> {
    map p | p in shares && !shares[p].revoked && shares[p].owner == u :: shares[p]
  }

  function Lookup(m: map<Prefix, Share>, p: Prefix): Option<Share> {
    if p in m then Some(m[p]) else None
  }

  predicate Possible(s: State, c: Change) {
    match c
    case Create(p, share) => p !in s.shares && share.owner in s.users && !share.revoked
    case Revoke(p) => true
    case DropUser(u) => true
    case AddUser(u) => true
  }

  function Changed(s: State, c: Change): State {
    match c
    case Create(p, share) => s.(shares := s.shares[p := share])
    case Revoke(p) => if p in s.shares then s.(shares := s.shares[p := s.shares[p].(revoked := true)]) else s
    case DropUser(u) =>
      s.(users := s.users - {u}, shares := map p | p in s.shares && s.shares[p].owner != u :: s.shares[p])
    case AddUser(u) => s.(users := s.users + {u})
  }

  /** The shares a change makes or unmakes. */
  function Touched(s: State, c: Change): set<Prefix> {
    var after := Changed(s, c);
    set p | p in s.shares.Keys + after.shares.Keys && Lookup(Live(s.shares), p) != Lookup(Live(after.shares), p)
  }

  // ---- the machine ----

  predicate NoneTwice(order: seq<UserId>) {
    forall i, j :: 0 <= i < j < |order| ==> order[i] != order[j]
  }

  /** Each user once. */
  predicate ListsUsers(order: seq<UserId>, users: set<UserId>) {
    (forall u :: u in users ==> u in order) && (forall u :: u in order ==> u in users) && NoneTwice(order)
  }

  /** The index lock is held while a scan runs; store writes do not take it. */
  predicate Enabled(s: State, e: Step) {
    match e
    case Write(op, c) => op !in s.pending && Possible(s, c)
    case Invalidate(op) => op in s.pending && s.scan.None?
    case Begin(order) => s.scan.None? && s.stale && ListsUsers(order, s.users)
    case ListUser(ok) => s.scan.Some? && s.scan.value.rest != []
    case Finish => s.scan.Some? && s.scan.value.rest == []
  }

  function Next(s: State, e: Step): State
    requires Enabled(s, e)
  {
    match e
    case Write(op, c) => Changed(s, c).(pending := s.pending[op := Touched(s, c)])
    case Invalidate(op) => s.(stale := true, pending := s.pending - {op})
    case Begin(order) => s.(scan := Some(Scan(order, map[], {})))
    case ListUser(ok) =>
      var scan := s.scan.value;
      s.(scan := Some(if ok then Scan(scan.rest[1..], scan.found + SharesOf(s.shares, scan.rest[0]), scan.missed)
                      else Scan(scan.rest[1..], scan.found, scan.missed + {scan.rest[0]})))
    case Finish => s.(idx := s.scan.value.found, stale := false, missed := s.scan.value.missed, scan := None)
  }

  ghost predicate Runs(s: State, steps: seq<Step>)
    decreases |steps|
  {
    steps == [] || (Enabled(s, steps[0]) && Runs(Next(s, steps[0]), steps[1..]))
  }

  function Play(s: State, steps: seq<Step>): State
    requires Runs(s, steps)
    decreases |steps|
  {
    if steps == [] then s else Play(Next(s, steps[0]), steps[1..])
  }

  /** What a lookup answers from the index as it stands; expiry is checked on every hit. */
  function Resolve(s: State, p: Prefix, now: int): (r: Option<Share>)
    ensures r.Some? ==> r.value.expiresAt == 0 || now < r.value.expiresAt
  {
    Unexpired(Lookup(s.idx, p), now)
  }

  /** What a scan of every user's shares would answer. */
  function ScanAll(s: State, p: Prefix, now: int): Option<Share> {
    Unexpired(Lookup(Live(s.shares), p), now)
  }

  function Unexpired(found: Option<Share>, now: int): Option<Share> {
    if found.Some? && found.value.expiresAt != 0 && now >= found.value.expiresAt then None else found
  }

  // ---- the invariant ----

  predicate Pending(s: State, p: Prefix) {
    exists op :: op in s.pending && p in s.pending[op]
  }

  /** `view` shows `p` as the store has it; it may miss a live share only where `excused`. */
  predicate Shows(view: map<Prefix, Share>, shares: map<Prefix, Share>, p: Prefix, excused: bool) {
    Lookup(view, p) == Lookup(Live(shares), p) || (Lookup(view, p).None? && excused)
  }

  /** The owner of `p` is one of `users`. */
  predicate OwnedBy(shares: map<Prefix, Share>, p: Prefix, users: set<UserId>) {
    p in shares && shares[p].owner in users
  }

  /** `view` has no share of any of `users`. */
  predicate Lacks(view: map<Prefix, Share>, users: set<UserId>) {
    forall p :: p in view ==> view[p].owner !in users
  }

  function Rest(scan: Scan): set<UserId> {
    set u | u in scan.rest
  }

  /**
   A fresh index, and a scan as far as it has got, are right about every share with
   no mutation pending, but for the users missed or still to come, of whom they
   have nothing.
   */
  ghost predicate Inv(s: State) {
    && (forall p :: p in s.shares ==> s.shares[p].owner in s.users)
    && (s.scan.None? && !s.stale ==>
          forall p :: !Pending(s, p) ==> Shows(s.idx, s.shares, p, OwnedBy(s.shares, p, s.missed)))
    && (s.scan.Some? ==>
          forall p :: !Pending(s, p) ==>
            Shows(s.scan.value.found, s.shares, p, OwnedBy(s.shares, p, s.scan.value.missed + Rest(s.scan.value))))
    && Lacks(s.idx, s.missed)
    && (s.scan.Some? ==>
          var scan := s.scan.value;
          NoneTwice(scan.rest) && scan.missed !! Rest(scan) && Lacks(scan.found, scan.missed + Rest(scan)))
  }

  lemma UntouchedIsSame(s: State, c: Change, p: Prefix)
    requires p !in Touched(s, c)
    ensures Lookup(Live(Changed(s, c).shares), p) == Lookup(Live(s.shares), p)
    ensures p in Live(s.shares) ==> p in Changed(s, c).shares && Changed(s, c).shares[p] == s.shares[p]
  {
    var after := Changed(s, c);
    hide Changed;
    if p in Live(s.shares) || p in Live(after.shares) {
      assert p in s.shares.Keys + after.shares.Keys;
    }
    if p in Live(s.shares) { assert p in Live(after.shares); }
  }

  lemma WritePending(s: State, op: nat, c: Change, p: Prefix)
    requires op !in s.pending && !Pending(Changed(s, c).(pending := s.pending[op := Touched(s, c)]), p)
    ensures !Pending(s, p) && p !in Touched(s, c)
  {
    hide Changed, Touched;
    var s' := Changed(s, c).(pending := s.pending[op := Touched(s, c)]);
    assert op in s'.pending;
    forall o | o in s.pending ensures p !in s.pending[o] {
      assert o in s'.pending && s'.pending[o] == s.pending[o];
    }
  }

  lemma ShowsStill(view: map<Prefix, Share>, s: State, c: Change, p: Prefix, excused: bool, excused': bool)
    requires Shows(view, s.shares, p, excused) && p !in Touched(s, c)
    requires excused && p in Live(s.shares) ==> excused'
    ensures Shows(view, Changed(s, c).shares, p, excused')
  {
    UntouchedIsSame(s, c, p);
    hide Changed, Touched;
  }

  lemma OwnersStay(s: State, c: Change)
    requires Possible(s, c) && forall p :: p in s.shares ==> s.shares[p].owner in s.users
    ensures var s' := Changed(s, c); forall p :: p in s'.shares ==> s'.shares[p].owner in s'.users
  {
  }

  lemma WriteKeeps(s: State, op: nat, c: Change)
    requires Inv(s) && Enabled(s, Write(op, c))
    ensures Inv(Next(s, Write(op, c)))
  {
    var s' := Next(s, Write(op, c));
    OwnersStay(s, c);
    ChangeFrame(s, c);
    hide Changed, Touched, Possible, Shows, Lacks;
    forall p | !Pending(s', p) && s'.scan.None? && !s'.stale
      ensures Shows(s'.idx, s'.shares, p, OwnedBy(s'.shares, p, s'.missed))
    {
      WritePending(s, op, c, p);
      UntouchedIsSame(s, c, p);
      ShowsStill(s.idx, s, c, p, OwnedBy(s.shares, p, s.missed), OwnedBy(s'.shares, p, s'.missed));
    }
    forall p | !Pending(s', p) && s'.scan.Some?
      ensures Shows(s'.scan.value.found, s'.shares, p,
                    OwnedBy(s'.shares, p, s'.scan.value.missed + Rest(s'.scan.value)))
    {
      WritePending(s, op, c, p);
      UntouchedIsSame(s, c, p);
      var users := s.scan.value.missed + Rest(s.scan.value);
      ShowsStill(s.scan.value.found, s, c, p, OwnedBy(s.shares, p, users), OwnedBy(s'.shares, p, users));
    }
  }

  lemma ChangeFrame(s: State, c: Change)
    ensures var s' := Changed(s, c); s' == s.(users := s'.users, shares := s'.shares)
  {
  }

  lemma ListKeeps(s: State, ok: bool)
    requires Inv(s) && Enabled(s, ListUser(ok))
    ensures Inv(Next(s, ListUser(ok)))
  {
    var s', scan := Next(s, ListUser(ok)), s.scan.value;
    var scan' := s'.scan.value;
    assert s'.shares == s.shares && s'.users == s.users && s'.pending == s.pending;
    FirstUser(scan);
    forall p | !Pending(s', p)
      ensures Shows(scan'.found, s'.shares, p, OwnedBy(s'.shares, p, scan'.missed + Rest(scan')))
    {
      assert !Pending(s, p);
    }
  }

  lemma FirstUser(scan: Scan)
    requires scan.rest != [] && NoneTwice(scan.rest)
    ensures var rest := set u | u in scan.rest[1..];
      Rest(scan) == {scan.rest[0]} + rest && scan.rest[0] !in rest && NoneTwice(scan.rest[1..])
  {
    assert scan.rest == [scan.rest[0]] + scan.rest[1..];
  }

  lemma NextKeeps(s: State, e: Step)
    requires Inv(s) && Enabled(s, e)
    ensures Inv(Next(s, e))
  {
    match e
    case Write(op, c) => WriteKeeps(s, op, c);
    case Invalidate(op) =>
    case Begin(order) =>
    case ListUser(ok) => ListKeeps(s, ok);
    case Finish =>
      var s' := Next(s, e);
      assert forall p :: Pending(s', p) == Pending(s, p);
  }

  lemma {:induction false} PlayKeeps(s: State, steps: seq<Step>)
    requires Inv(s) && Runs(s, steps)
    ensures Inv(Play(s, steps))
    decreases |steps|
  {
    if steps != [] {
      NextKeeps(s, steps[0]);
      PlayKeeps(Next(s, steps[0]), steps[1..]);
    }
  }

  /**
   After any interleaving of lookups, creates, revokes and user deletions, a
   fresh index answers for every share with no mutation pending: nothing if its
   owner's listing failed, and as a scan of the store would if not.
   */
  lemma LookupAgrees(s: State, steps: seq<Step>, p: Prefix, now: int)
    requires Inv(s) && Runs(s, steps)
    ensures var s' := Play(s, steps);
      s'.scan.None? && !s'.stale && !Pending(s', p) ==>
        Resolve(s', p, now) == if OwnedBy(s'.shares, p, s'.missed) then None else ScanAll(s', p, now)
  {
    PlayKeeps(s, steps);
  }

  /**
   And that is, if its owner was listed: the share itself, if the store has it
   neither revoked nor expired, and otherwise nothing.
   */
  lemma LookupAnswersIff(s: State, steps: seq<Step>, p: Prefix, now: int, share: Share)
    requires Inv(s) && Runs(s, steps)
    ensures var s' := Play(s, steps);
      s'.scan.None? && !s'.stale && !Pending(s', p) && !OwnedBy(s'.shares, p, s'.missed) ==>
        (Resolve(s', p, now) == Some(share) <==> Answerable(s'.shares, p, now, share))
  {
    PlayKeeps(s, steps);
  }

  /** The store has `share` under `p`, not revoked and not yet expired. */
  predicate Answerable(shares: map<Prefix, Share>, p: Prefix, now: int, share: Share) {
    p in shares && shares[p] == share && !share.revoked && (share.expiresAt == 0 || now < share.expiresAt)
  }

  /** So a live share is missing from a fresh index if and only if its owner's listing failed. */
  lemma LookupMissesIff(s: State, steps: seq<Step>, p: Prefix)
    requires Inv(s) && Runs(s, steps)
    ensures var s' := Play(s, steps);
      s'.scan.None? && !s'.stale && !Pending(s', p) && p in Live(s'.shares) ==>
        (p !in s'.idx <==> s'.shares[p].owner in s'.missed)
  {
    PlayKeeps(s, steps);
  }

  // ---- a user whose listing failed ----

  lemma FreshStays(s: State, e: Step)
    requires s.scan.None? && !s.stale && Enabled(s, e) && !e.Invalidate?
    ensures var s' := Next(s, e); s'.scan.None? && !s'.stale && s'.idx == s.idx && s'.missed == s.missed
  {
    if e.Write? {
      ChangeFrame(s, e.change);
      hide Changed, Touched;
    }
  }

  /** A fresh index answers as it does until some mutation marks it stale. */
  lemma {:induction false} FreshUntilInvalidated(s: State, steps: seq<Step>, p: Prefix, now: int)
    requires s.scan.None? && !s.stale && Runs(s, steps) && forall e :: e in steps ==> !e.Invalidate?
    ensures Resolve(Play(s, steps), p, now) == Resolve(s, p, now)
    ensures Play(s, steps).scan.None? && !Play(s, steps).stale
    decreases |steps|
  {
    hide Next;
    if steps != [] {
      assert steps[0] in steps;
      FreshStays(s, steps[0]);
      FreshUntilInvalidated(Next(s, steps[0]), steps[1..], p, now);
    }
  }

  // ---- a revoked share ----

  predicate Creates(e: Step, p: Prefix) {
    e.Write? && e.change.Create? && e.change.prefix == p
  }

  /** Not live, and no rebuild in progress has found it. */
  predicate Gone(s: State, p: Prefix) {
    p !in Live(s.shares) && (s.scan.Some? ==> p !in s.scan.value.found)
  }

  /** Moreover, an index that holds it is marked stale. */
  predicate Dead(s: State, p: Prefix) {
    Gone(s, p) && (s.stale || p !in s.idx)
  }

  predicate NeverCreated(steps: seq<Step>, p: Prefix) {
    forall e :: e in steps ==> !Creates(e, p)
  }

  lemma NotLiveStays(s: State, c: Change, p: Prefix)
    requires p !in Live(s.shares) && !(c.Create? && c.prefix == p)
    ensures p !in Live(Changed(s, c).shares)
  {
  }

  lemma GoneStays(s: State, e: Step, p: Prefix)
    requires Gone(s, p) && Enabled(s, e) && !Creates(e, p)
    ensures Gone(Next(s, e), p) && (Dead(s, p) ==> Dead(Next(s, e), p))
    ensures Lookup(Next(s, e).idx, p) == if e.Finish? then None else Lookup(s.idx, p)
  {
    if e.Write? {
      NotLiveStays(s, e.change, p);
      ChangeFrame(s, e.change);
      hide Changed, Touched;
    }
  }

  lemma {:induction false} DeadRuns(s: State, steps: seq<Step>, p: Prefix)
    requires Dead(s, p) && Runs(s, steps) && NeverCreated(steps, p)
    ensures Dead(Play(s, steps), p)
    decreases |steps|
  {
    hide Next, Dead, Gone;
    if steps != [] {
      assert Gone(s, p) by { DeadIsGone(s, p); }
      GoneStays(s, steps[0], p);
      DeadRuns(Next(s, steps[0]), steps[1..], p);
    }
  }

  lemma DeadIsGone(s: State, p: Prefix)
    requires Dead(s, p)
    ensures Gone(s, p)
  {
  }

  lemma {:induction false} NotLiveRuns(s: State, steps: seq<Step>, p: Prefix)
    requires p !in Live(s.shares) && Runs(s, steps) && NeverCreated(steps, p)
    ensures p !in Live(Play(s, steps).shares)
    decreases |steps|
  {
    hide Live, Changed, Touched;
    if steps != [] {
      assert !Creates(steps[0], p);
      if steps[0].Write? { NotLiveStays(s, steps[0].change, p); }
      NotLiveRuns(Next(s, steps[0]), steps[1..], p);
    }
  }

  lemma {:induction false} RunsParts(s: State, a: seq<Step>, b: seq<Step>)
    requires Runs(s, a + b)
    ensures Runs(s, a) && Runs(Play(s, a), b) && Play(s, a + b) == Play(Play(s, a), b)
    decreases |a|
  {
    if a == [] {
      assert a + b == b;
    } else {
      assert (a + b)[1..] == a[1..] + b;
      RunsParts(Next(s, a[0]), a[1..], b);
    }
  }

  /** A revoke from its store write until it has marked the index stale, with anything in between. */
  function RevokeRun(op: nat, p: Prefix, mid: seq<Step>): seq<Step> {
    [Write(op, Revoke(p))] + mid + [Invalidate(op)]
  }

  /** Whatever runs beside it, a revoke that returns leaves its share dead. */
  lemma RevokeKills(s: State, op: nat, p: Prefix, mid: seq<Step>)
    requires Runs(s, RevokeRun(op, p, mid)) && NeverCreated(mid, p)
    ensures Dead(Play(s, RevokeRun(op, p, mid)), p) && Play(s, RevokeRun(op, p, mid)).scan.None?
  {
    var first := [Write(op, Revoke(p))];
    RunsParts(s, first + mid, [Invalidate(op)]);
    RunsParts(s, first, mid);
    var s1 := Next(s, first[0]);
    assert first[1..] == [] && Play(s, first) == s1;
    NotLiveRuns(s1, mid, p);
    var s2 := Play(s1, mid);
    assert [Invalidate(op)][1..] == [] && Play(s2, [Invalidate(op)]) == Next(s2, Invalidate(op));
  }

  /**
   Once a revoke has returned, no lookup in a fresh index resolves the share,
   whatever was going on when it began, and whatever else ran in between and
   after - rebuilds, other changes of the same share, anything but its creation.
   */
  lemma RevokedNeverResolves(s: State, op: nat, p: Prefix, mid: seq<Step>, post: seq<Step>, now: int)
    requires Runs(s, RevokeRun(op, p, mid) + post) && NeverCreated(mid, p) && NeverCreated(post, p)
    ensures var s' := Play(s, RevokeRun(op, p, mid) + post); s'.scan.None? && !s'.stale ==> Resolve(s', p, now).None?
  {
    hide RevokeRun;
    RunsParts(s, RevokeRun(op, p, mid), post);
    RevokeKills(s, op, p, mid);
    DeadRuns(Play(s, RevokeRun(op, p, mid)), post, p);
  }

  // ---- a created share ----

  /** Takes the share `p` of user `u` away. */
  predicate Unmakes(e: Step, p: Prefix, u: UserId) {
    e.Write? && (e.change == Revoke(p) || e.change == DropUser(u))
  }

  predicate NeverUnmade(steps: seq<Step>, p: Prefix, u: UserId) {
    forall e :: e in steps ==> !Unmakes(e, p, u)
  }

  predicate Stored(s: State, p: Prefix, share: Share) {
    p in s.shares && s.shares[p] == share && !share.revoked && share.owner in s.users
  }

  /** Wherever its owner has been listed since, the share has been found. */
  predicate Alive(s: State, p: Prefix, share: Share) {
    && Stored(s, p, share)
    && (s.stale || share.owner in s.missed || Lookup(s.idx, p) == Some(share))
    && (s.scan.Some? ==>
          share.owner in s.scan.value.rest || share.owner in s.scan.value.missed ||
          Lookup(s.scan.value.found, p) == Some(share))
  }

  lemma StoredStays(s: State, e: Step, p: Prefix, share: Share)
    requires Stored(s, p, share) && Enabled(s, e) && !Unmakes(e, p, share.owner)
    ensures Stored(Next(s, e), p, share)
  {
  }

  lemma AliveStays(s: State, e: Step, p: Prefix, share: Share)
    requires Alive(s, p, share) && Enabled(s, e) && !Unmakes(e, p, share.owner)
    ensures Alive(Next(s, e), p, share)
  {
    StoredStays(s, e, p, share);
    if e.Write? {
      ChangeFrame(s, e.change);
      hide Changed, Touched;
    } else if e.ListUser? {
      assert s.scan.value.rest == [s.scan.value.rest[0]] + s.scan.value.rest[1..];
    }
  }

  lemma {:induction false} StoredRuns(s: State, steps: seq<Step>, p: Prefix, share: Share)
    requires Stored(s, p, share) && Runs(s, steps) && NeverUnmade(steps, p, share.owner)
    ensures Stored(Play(s, steps), p, share)
    decreases |steps|
  {
    hide Next, Stored;
    if steps != [] {
      StoredStays(s, steps[0], p, share);
      StoredRuns(Next(s, steps[0]), steps[1..], p, share);
    }
  }

  lemma {:induction false} AliveRuns(s: State, steps: seq<Step>, p: Prefix, share: Share)
    requires Alive(s, p, share) && Runs(s, steps) && NeverUnmade(steps, p, share.owner)
    ensures Alive(Play(s, steps), p, share)
    decreases |steps|
  {
    hide Next, Alive;
    if steps != [] {
      AliveStays(s, steps[0], p, share);
      AliveRuns(Next(s, steps[0]), steps[1..], p, share);
    }
  }

  /** A create from its store write until it has marked the index stale, with anything in between. */
  function CreateRun(op: nat, p: Prefix, share: Share, mid: seq<Step>): seq<Step> {
    [Write(op, Create(p, share))] + mid + [Invalidate(op)]
  }

  lemma CreateMakes(s: State, op: nat, p: Prefix, share: Share, mid: seq<Step>)
    requires Runs(s, CreateRun(op, p, share, mid)) && NeverUnmade(mid, p, share.owner)
    ensures Alive(Play(s, CreateRun(op, p, share, mid)), p, share)
  {
    var first := [Write(op, Create(p, share))];
    RunsParts(s, first + mid, [Invalidate(op)]);
    RunsParts(s, first, mid);
    var s1 := Next(s, first[0]);
    assert first[1..] == [] && Play(s, first) == s1;
    StoredRuns(s1, mid, p, share);
    var s2 := Play(s1, mid);
    assert [Invalidate(op)][1..] == [] && Play(s2, [Invalidate(op)]) == Next(s2, Invalidate(op));
  }

  /**
   Once a create has returned, a lookup in a fresh index answers the share exactly
   until it expires, whatever else runs beside and after, unless the share is
   revoked, its owner removed, or the listing of its owner failed.
   */
  lemma CreatedResolvesIff(s: State, op: nat, p: Prefix, share: Share, mid: seq<Step>, post: seq<Step>, now: int)
    requires Runs(s, CreateRun(op, p, share, mid) + post)
    requires NeverUnmade(mid, p, share.owner) && NeverUnmade(post, p, share.owner)
    ensures var s' := Play(s, CreateRun(op, p, share, mid) + post);
      s'.scan.None? && !s'.stale && share.owner !in s'.missed ==>
        (Resolve(s', p, now) == Some(share) <==> share.expiresAt == 0 || now < share.expiresAt)
  {
    hide CreateRun;
    RunsParts(s, CreateRun(op, p, share, mid), post);
    CreateMakes(s, op, p, share, mid);
    AliveRuns(Play(s, CreateRun(op, p, share, mid)), post, p, share);
  }

  // ---- a failed user listing ----

  /** Not live, with no mutation of it pending. */
  predicate Settled(s: State, p: Prefix) {
    p !in Live(s.shares) && !Pending(s, p)
  }

  lemma SettledIsGone(s: State, p: Prefix)
    requires Inv(s) && Settled(s, p)
    ensures Gone(s, p)
  {
  }

  lemma {:induction false} GoneUntilRebuilt(s: State, steps: seq<Step>, p: Prefix)
    requires Gone(s, p) && Runs(s, steps) && NeverCreated(steps, p)
    ensures Lookup(Play(s, steps).idx, p) == if Finish in steps then None else Lookup(s.idx, p)
    decreases |steps|
  {
    hide Next, Gone;
    if steps != [] {
      GoneStays(s, steps[0], p);
      assert steps == [steps[0]] + steps[1..];
      GoneUntilRebuilt(Next(s, steps[0]), steps[1..], p);
    }
  }

  /**
   When the user listing fails, a lookup answers from the index it already has.
   A settled share is answered from there exactly until some rebuild finishes.
   */
  lemma SettledUntilRebuilt(s: State, steps: seq<Step>, p: Prefix)
    requires Inv(s) && Settled(s, p) && Runs(s, steps) && NeverCreated(steps, p)
    ensures Lookup(Play(s, steps).idx, p) == if Finish in steps then None else Lookup(s.idx, p)
  {
    SettledIsGone(s, p);
    GoneUntilRebuilt(s, steps, p);
  }

  /**
   So a revoked share still resolves if and only if it did when the revoke
   returned and no rebuild has finished since.
   */
  lemma RevokedResolvesIff(s: State, op: nat, p: Prefix, mid: seq<Step>, post: seq<Step>, now: int)
    requires Runs(s, RevokeRun(op, p, mid) + post) && NeverCreated(mid, p) && NeverCreated(post, p)
    ensures Runs(s, RevokeRun(op, p, mid))
    ensures Resolve(Play(s, RevokeRun(op, p, mid) + post), p, now).Some? <==>
            Finish !in post && Resolve(Play(s, RevokeRun(op, p, mid)), p, now).Some?
  {
    hide RevokeRun;
    RunsParts(s, RevokeRun(op, p, mid), post);
    RevokeKills(s, op, p, mid);
    GoneUntilRebuilt(Play(s, RevokeRun(op, p, mid)), post, p);
  }

  /** The state a server starts from. */
  const NEW_INDEX: State := State({}, map[], map[], true, {}, None, map[])

  const SHARED: Share := Share(1, "/a", 0, false)

  const STORE: map<Prefix, Share> := map["p" := SHARED]

  /** One user, and one share of hers. */
  const SETUP: seq<Step> := [Write(0, AddUser(1)), Invalidate(0), Write(1, Create("p", SHARED)), Invalidate(1)]

  /** One lookup that rebuilds the index. */
  const REBUILD: seq<Step> := [Begin([1]), ListUser(true), Finish]

  lemma SetupRuns()
    ensures Runs(NEW_INDEX, SETUP) && Play(NEW_INDEX, SETUP) == State({1}, STORE, map[], true, {}, None, map[])
  {
    var s1 := NEW_INDEX.(users := {1}, pending := map[0 := {}]);
    var s2 := NEW_INDEX.(users := {1});
    var s3 := s2.(shares := STORE, pending := map[1 := {"p"}]);
    assert Next(NEW_INDEX, Write(0, AddUser(1))) == s1 by { assert Touched(NEW_INDEX, AddUser(1)) == {}; }
    assert Next(s1, Invalidate(0)) == s2 by { assert s1.pending - {0} == map[]; }
    assert Next(s2, Write(1, Create("p", SHARED))) == s3 by { CreateTouches(s2); }
    assert s3.pending - {1} == map[];
    hide Next, Touched;
    PlayOne(s3, Invalidate(1), []);
    PlayOne(s2, Write(1, Create("p", SHARED)), [Invalidate(1)]);
    PlayOne(s1, Invalidate(0), [Write(1, Create("p", SHARED)), Invalidate(1)]);
    PlayOne(NEW_INDEX, Write(0, AddUser(1)), [Invalidate(0), Write(1, Create("p", SHARED)), Invalidate(1)]);
  }

  lemma RebuildRuns(s: State)
    requires s == State({1}, STORE, map[], true, {}, None, map[])
    ensures Runs(s, REBUILD) && Play(s, REBUILD) == s.(idx := STORE, stale := false)
  {
    var s1 := s.(scan := Some(Scan([1], map[], {})));
    var s2 := s.(scan := Some(Scan([], STORE, {})));
    assert Next(s1, ListUser(true)) == s2 by {
      assert s1.scan.value.rest[1..] == [] && map[] + SharesOf(STORE, 1) == STORE;
    }
    assert Next(s2, Finish) == s.(idx := STORE, stale := false);
    PlayOne(s2, Finish, []);
    PlayOne(s1, ListUser(true), [Finish]);
    PlayOne(s, Begin([1]), [ListUser(true), Finish]);
  }

  lemma CreateTouches(s: State)
    requires s == NEW_INDEX.(users := {1})
    ensures Touched(s, Create("p", SHARED)) == {"p"}
  {
    assert Live(map["p" := SHARED]) == map["p" := SHARED];
  }

  lemma RevokeRuns(s: State)
    requires s == State({1}, STORE, STORE, false, {}, None, map[])
    ensures var s' := s.(shares := map["p" := SHARED.(revoked := true)], stale := true);
      Runs(s, RevokeRun(2, "p", [])) && Play(s, RevokeRun(2, "p", [])) == s'
  {
    var s1 := Next(s, Write(2, Revoke("p")));
    assert s1.pending - {2} == map[];
    PlayOne(s1, Invalidate(2), []);
    PlayOne(s, Write(2, Revoke("p")), [Invalidate(2)]);
    assert RevokeRun(2, "p", []) == [Write(2, Revoke("p")), Invalidate(2)];
  }

  /**
   From the server's first state: a share is created, indexed by a lookup and
   revoked. The revoke has returned, and a lookup whose listing fails resolves it.
   */
  lemma RevokedStillResolves(now: int)
    ensures var steps := SETUP + REBUILD + RevokeRun(2, "p", []);
      && Runs(NEW_INDEX, steps) && Settled(Play(NEW_INDEX, steps), "p")
      && Resolve(Play(NEW_INDEX, steps), "p", now) == Some(SHARED)
  {
    hide SETUP, REBUILD, RevokeRun, Next;
    SetupRuns();
    RebuildRuns(Play(NEW_INDEX, SETUP));
    RunsSplit(NEW_INDEX, SETUP, REBUILD);
    RevokeRuns(Play(NEW_INDEX, SETUP + REBUILD));
    RunsSplit(NEW_INDEX, SETUP + REBUILD, RevokeRun(2, "p", []));
  }

  /** A rebuild in which the user's listing fails. */
  const MISSING: seq<Step> := [Begin([1]), ListUser(false), Finish]

  lemma MissingRuns(s: State)
    requires s == State({1}, STORE, map[], true, {}, None, map[])
    ensures Runs(s, MISSING) && Play(s, MISSING) == s.(stale := false, missed := {1})
  {
    var s1 := s.(scan := Some(Scan([1], map[], {})));
    var s2 := s.(scan := Some(Scan([], map[], {1})));
    assert s1.scan.value.rest[1..] == [] && s1.scan.value.missed + {1} == {1};
    assert Next(s1, ListUser(false)) == s2;
    assert Next(s2, Finish) == s.(stale := false, missed := {1});
    PlayOne(s2, Finish, []);
    PlayOne(s1, ListUser(false), [Finish]);
    PlayOne(s, Begin([1]), [ListUser(false), Finish]);
  }

  /**
   From the server's first state: a share is created, and the next lookup fails to
   list its owner's shares. The index is fresh, the share live, and neither that
   lookup nor any later one resolves it, until the next mutation of any share.
   */
  lemma MissedStaysDead(later: seq<Step>, now: int)
    requires Runs(NEW_INDEX, SETUP + MISSING + later) && forall e :: e in later ==> !e.Invalidate?
    ensures Runs(NEW_INDEX, SETUP + MISSING)
    ensures var s, s' := Play(NEW_INDEX, SETUP + MISSING), Play(NEW_INDEX, SETUP + MISSING + later);
      && ScanAll(s, "p", now) == Some(SHARED) && !s.stale && s.scan.None?
      && Resolve(s, "p", now).None? && Resolve(s', "p", now).None? && !s'.stale
  {
    hide SETUP, MISSING, Next;
    SetupRuns();
    MissingRuns(Play(NEW_INDEX, SETUP));
    RunsParts(NEW_INDEX, SETUP + MISSING, later);
    RunsParts(NEW_INDEX, SETUP, MISSING);
    FreshUntilInvalidated(Play(NEW_INDEX, SETUP + MISSING), later, "p", now);
  }

  lemma PlayOne(s: State, e: Step, rest: seq<Step>)
    requires Enabled(s, e) && Runs(Next(s, e), rest)
    ensures Runs(s, [e] + rest) && Play(s, [e] + rest) == Play(Next(s, e), rest)
  {
    assert ([e] + rest)[1..] == rest;
  }

  lemma {:induction false} RunsSplit(s: State, a: seq<Step>, b: seq<Step>)
    requires Runs(s, a) && Runs(Play(s, a), b)
    ensures Runs(s, a + b) && Play(s, a + b) == Play(Play(s, a), b)
    decreases |a|
  {
    if a == [] {
      assert a + b == b;
    } else {
      assert (a + b)[1..] == a[1..] + b;
      RunsSplit(Next(s, a[0]), a[1..], b);
    }
  }

  // ---- the server's side ----

  /**
   The index and its flag, beside the store they cache; the lock is held for the
   whole of each lookup. `pending` and `missed` are the model's own bookkeeping.
   */
  class Index {
    var users: set<UserId>
    var shares: map<Prefix, Share>
    var shareIdx: map<Prefix, Share>
    var shareIdxStale: bool
    var missed: set<UserId>
    var pending: map<nat, set<Prefix>>

    function Now(scan: Option<Scan>): State
      reads this
    {
      State(users, shares, shareIdx, shareIdxStale, missed, scan, pending)
    }

    constructor (users: set<UserId>)
      ensures Now(None) == State(users, map[], map[], true, {}, None, map[])
    {
      this.users, shares, shareIdx, shareIdxStale, missed, pending := users, map[], map[], true, {}, map[];
    }

    /** One mutation's store write, which needs no lock. */
    method WriteStore(op: nat, c: Change, scan: Option<Scan>)
      requires Enabled(Now(scan), Write(op, c))
      modifies this`users, this`shares, this`pending
      ensures Now(scan) == Next(old(Now(scan)), Write(op, c))
    {
      pending := pending[op := Touched(Now(scan), c)];
      match c
      case Create(p, share) => shares := shares[p := share];
      case Revoke(p) => if p in shares { shares := shares[p := shares[p].(revoked := true)]; }
      case DropUser(u) =>
        users := users - {u};
        shares := map p | p in shares && shares[p].owner != u :: shares[p];
      case AddUser(u) => users := users + {u};
    }

    method InvalidateShareIndex(op: nat)
      requires op in pending
      modifies this`shareIdxStale, this`pending
      ensures Now(None) == Next(old(Now(None)), Invalidate(op))
    {
      shareIdxStale := true;
      pending := pending - {op};
    }

    /** A store write of another request, if it is one that can happen now. */
    method Interleave(write: Option<(nat, Change)>, scan: Option<Scan>) returns (ghost steps: seq<Step>)
      modifies this`users, this`shares, this`pending
      ensures Runs(old(Now(scan)), steps) && Now(scan) == Play(old(Now(scan)), steps)
    {
      hide Possible, Changed, Touched;
      steps := [];
      if write.Some? && write.value.0 !in pending && Possible(Now(scan), write.value.1) {
        ghost var before := Now(scan);
        WriteStore(write.value.0, write.value.1, scan);
        steps := [Write(write.value.0, write.value.1)];
        PlayOne(before, steps[0], []);
      }
    }

    /**
     Rebuilds the index from a listing of every user's shares, with the store
     writes `writes[i]` slipping in before the i-th user is listed.
     */
    method RebuildShareIndex(order: seq<UserId>, listOk: seq<bool>, writes: seq<Option<(nat, Change)>>)
      returns (ghost steps: seq<Step>)
      requires shareIdxStale && ListsUsers(order, users) && |listOk| == |writes| == |order|
      modifies this
      ensures Runs(old(Now(None)), steps) && Now(None) == Play(old(Now(None)), steps) && !shareIdxStale
    {
      hide Possible, Changed, Touched, ListsUsers;
      ghost var start := Now(None);
      var found: map<Prefix, Share>, bad: set<UserId> := map[], {};
      steps := [Begin(order)];
      PlayOne(start, Begin(order), []);
      assert order[0..] == order;
      for i := 0 to |order|
        invariant Runs(start, steps) && Play(start, steps) == Now(Some(Scan(order[i..], found, bad)))
      {
        ghost var more := Interleave(writes[i], Some(Scan(order[i..], found, bad)));
        RunsSplit(start, steps, more);
        steps := steps + more;
        ghost var before := Now(Some(Scan(order[i..], found, bad)));
        assert order[i..][1..] == order[i + 1..];
        if listOk[i] { found := found + SharesOf(shares, order[i]); } else { bad := bad + {order[i]}; }
        PlayOne(before, ListUser(listOk[i]), []);
        RunsSplit(start, steps, [ListUser(listOk[i])]);
        steps := steps + [ListUser(listOk[i])];
      }
      ghost var last := Now(Some(Scan([], found, bad)));
      assert order[|order|..] == [];
      shareIdx, shareIdxStale, missed := found, false, bad;
      PlayOne(last, Finish, []);
      RunsSplit(start, steps, [Finish]);
      steps := steps + [Finish];
    }

    /** A failed user listing keeps the index there is. */
    method ShareByPrefix(p: Prefix, now: int, order: seq<UserId>, usersOk: bool, listOk: seq<bool>,
                         writes: seq<Option<(nat, Change)>>)
      returns (r: Option<Share>, ghost steps: seq<Step>)
      requires Inv(Now(None)) && ListsUsers(order, users) && |listOk| == |writes| == |order|
      modifies this
      ensures Runs(old(Now(None)), steps) && Now(None) == Play(old(Now(None)), steps)
      ensures Inv(Now(None)) && r == Resolve(Now(None), p, now)
      ensures usersOk ==> !shareIdxStale
      ensures !shareIdxStale && !Pending(Now(None), p) ==>
                r == if OwnedBy(shares, p, missed) then None else ScanAll(Now(None), p, now)
      ensures !shareIdxStale && !Pending(Now(None), p) && !OwnedBy(shares, p, missed) ==>
                forall share :: r == Some(share) <==> Answerable(shares, p, now, share)
    {
      hide Inv, ListsUsers;
      steps := [];
      ghost var start := Now(None);
      if shareIdxStale && usersOk { steps := RebuildShareIndex(order, listOk, writes); }
      PlayKeeps(start, steps);
      LookupAgrees(start, steps, p, now);
      r := Unexpired(Lookup(shareIdx, p), now);
    }
  }
}
