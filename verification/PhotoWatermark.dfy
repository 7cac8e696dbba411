/**
 The camera backup: which photos a run queries, in which order it uploads them,
 how far the watermark moves when some fail, and what it remembers of those.
 Times are 64-bit, and seconds are turned into milliseconds with wrap-around.
 */
module PhotoWatermark {
  import opened FailureJson
  import opened FailureList
  import opened FailureReader
  import opened Wrappers

  const TWO_63 := 0x8000_0000_0000_0000
  const DAY_MS := 24 * 3600_000

  function Wrap(n: int): int {
    (n + TWO_63) % (2 * TWO_63) - TWO_63
  }

  /** Kotlin's division truncates toward zero. */
  function Seconds(ms: int): int {
    if ms >= 0 then ms / 1000 else -((-ms) / 1000)
  }

  /** Added and modified in seconds, taken in milliseconds. */
  datatype Row = Row(added: int, modified: int, taken: int, name: Text)

  predicate IsNewerThan(since: int, r: Row) {
    r.added > Seconds(since) || r.modified > Seconds(since) || r.taken > since
  }

  function Max(a: int, b: int): int {
    if a >= b then a else b
  }

  function TimestampMs(r: Row): int {
    var taken := if r.taken > 0 then r.taken else 0;
    var added := if r.added > 0 then Wrap(r.added * 1000) else 0;
    var modified := if r.modified > 0 then Wrap(r.modified * 1000) else 0;
    Max(taken, Max(added, modified))
  }

  predicate Int64(n: int) {
    -TWO_63 <= n < TWO_63
  }

  /** 64-bit fields whose seconds fit as milliseconds. */
  predicate Fits(r: Row) {
    Int64(r.added) && Int64(r.modified) && Int64(r.taken) && r.added * 1000 < TWO_63 && r.modified * 1000 < TWO_63
  }

  lemma SecondsAbove(s: int, since: int)
    requires since >= 0
    ensures s > Seconds(since) <==> s * 1000 > since
  {
  }

  /** The query's mixed-unit test is the test on the timestamp, for a non-negative watermark. */
  lemma NewerIsLater(since: int, r: Row)
    requires since >= 0 && Fits(r)
    ensures IsNewerThan(since, r) <==> TimestampMs(r) > since
  {
    hide Wrap, Seconds;
    SecondsAbove(r.added, since);
    SecondsAbove(r.modified, since);
    if r.added > 0 { WrapFits(r.added * 1000); }
    if r.modified > 0 { WrapFits(r.modified * 1000); }
  }

  lemma WrapFits(n: int)
    requires Int64(n)
    ensures Wrap(n) == n
  {
  }

  /** For a negative one some row is later and yet not newer. */
  lemma NewerIsLaterIff(since: int)
    requires Int64(since)
    ensures (forall r :: Fits(r) ==> (IsNewerThan(since, r) <==> TimestampMs(r) > since)) <==> since >= 0
  {
    if since >= 0 {
      forall r | Fits(r) ensures IsNewerThan(since, r) <==> TimestampMs(r) > since { NewerIsLater(since, r); }
    } else {
      var r := Row(-TWO_63, -TWO_63, -TWO_63, []);
      assert Fits(r) && TimestampMs(r) == 0 && !IsNewerThan(since, r);
    }
  }

  // ---- attempts in order of time ----

  function Insert(x: Attempt, xs: seq<Attempt>): seq<Attempt> {
    if xs == [] || x.time <= xs[0].time then [x] + xs else [xs[0]] + Insert(x, xs[1..])
  }

  /** `sortedBy { it.dateTaken }`, which is stable. */
  function SortedBy(xs: seq<Attempt>): seq<Attempt> {
    if xs == [] then [] else Insert(xs[0], SortedBy(xs[1..]))
  }

  predicate Ordered(xs: seq<Attempt>) {
    forall i, j :: 0 <= i < j < |xs| ==> xs[i].time <= xs[j].time
  }

  lemma {:induction false} InsertIs(x: Attempt, xs: seq<Attempt>)
    requires Ordered(xs)
    ensures Ordered(Insert(x, xs)) && multiset(Insert(x, xs)) == multiset(xs) + multiset{x}
    ensures forall y :: y in Insert(x, xs) <==> y == x || y in xs
  {
    if xs != [] && x.time > xs[0].time {
      InsertIs(x, xs[1..]);
      assert xs == [xs[0]] + xs[1..];
      var out := Insert(x, xs[1..]);
      forall i | 0 <= i < |out| ensures xs[0].time <= out[i].time {
        assert out[i] in out;
        if out[i] != x { assert out[i] in xs[1..]; }
      }
    } else {
      assert Insert(x, xs) == [x] + xs;
    }
  }

  lemma {:induction false} SortedByIs(xs: seq<Attempt>)
    ensures Ordered(SortedBy(xs)) && multiset(SortedBy(xs)) == multiset(xs)
    ensures forall y :: y in SortedBy(xs) <==> y in xs
  {
    if xs != [] {
      SortedByIs(xs[1..]);
      InsertIs(xs[0], SortedBy(xs[1..]));
      assert xs == [xs[0]] + xs[1..];
    }
  }

  // ---- the watermark ----

  /** Length of the longest prefix without a failure. */
  function Prefix(xs: seq<Attempt>): (k: nat)
    ensures k <= |xs| && (forall i :: 0 <= i < k ==> xs[i].uploaded) && (k < |xs| ==> !xs[k].uploaded)
  {
    if xs == [] || !xs[0].uploaded then 0 else 1 + Prefix(xs[1..])
  }

  /** The time at the end of that prefix, if that is later. */
  function NextMark(current: int, attempts: seq<Attempt>): int {
    var xs := SortedBy(attempts);
    if Prefix(xs) == 0 then current else Max(current, xs[Prefix(xs) - 1].time)
  }

  method NextWatermark(current: int, attempts: seq<Attempt>) returns (next: int)
    ensures next == NextMark(current, attempts)
  {
    hide SortedBy;
    next := current;
    var xs := SortedBy(attempts);
    SortedByIs(attempts);
    var i := 0;
    while i < |xs| && xs[i].uploaded
      invariant 0 <= i <= Prefix(xs)
      invariant next == if i == 0 then current else Max(current, xs[i - 1].time)
    {
      if xs[i].time > next { next := xs[i].time; }
      i := i + 1;
    }
  }

  // ---- one run ----

  /**
   The media store, and the three stored settings: the watermark, the failures as
   text, and the time of the last success. `sent` are the photos that reached the
   drive as they are now, and `last` says how the last attempt on each ended.
   */
  datatype Phone = Phone(
    rows: map<PhotoId, Row>,
    mark: Option<int>,
    failures: Option<Text>,
    lastSuccess: Option<int>,
    sent: set<PhotoId>,
    last: map<PhotoId, bool>)

  predicate NoneTwice(cursor: seq<PhotoId>) {
    forall i, j :: 0 <= i < j < |cursor| ==> cursor[i] != cursor[j]
  }

  /** A cursor goes over every row once. */
  predicate Covers(cursor: seq<PhotoId>, rows: map<PhotoId, Row>) {
    (forall id :: id in cursor ==> id in rows) && (forall id :: id in rows ==> id in cursor) && NoneTwice(cursor)
  }

  /** Without a stored watermark a run looks one day back. */
  function Since(p: Phone, now: int): int {
    if p.mark.Some? then p.mark.value else now - DAY_MS
  }

  /** What becomes of one upload; `failed` has the errors of those that do not get through. */
  function AttemptAt(id: PhotoId, time: int, name: Text, failed: map<PhotoId, Text>): Attempt {
    Attempt(id, time, id !in failed, name, if id in failed then failed[id] else [])
  }

  function AttemptOf(rows: map<PhotoId, Row>, id: PhotoId, failed: map<PhotoId, Text>): Attempt
    requires id in rows
  {
    AttemptAt(id, TimestampMs(rows[id]), rows[id].name, failed)
  }

  /** The queried rows in cursor order, with what becomes of each upload. */
  function Batch(rows: map<PhotoId, Row>, cursor: seq<PhotoId>, since: int, failed: map<PhotoId, Text>): seq<Attempt> {
    if cursor == [] then []
    else
      var id := cursor[0];
      (if id in rows && IsNewerThan(since, rows[id]) then [AttemptOf(rows, id, failed)] else [])
      + Batch(rows, cursor[1..], since, failed)
  }

  function Sent(xs: seq<Attempt>): set<PhotoId> {
    set a | a in xs && a.uploaded :: a.id
  }

  function Outcomes(xs: seq<Attempt>): map<PhotoId, bool> {
    if xs == [] then map[] else Outcomes(xs[1..])[xs[0].id := xs[0].uploaded]
  }

  predicate AnySent(xs: seq<Attempt>) {
    exists a :: a in xs && a.uploaded
  }

  /** One run; `now` and `end` are what the clock reads at its start and at its end. */
  function Backup(p: Phone, cursor: seq<PhotoId>, failed: map<PhotoId, Text>, now: int, end: int): Phone {
    var since := Since(p, now);
    var attempts := SortedBy(Batch(p.rows, cursor, since, failed));
    var next := NextMark(since, attempts);
    p.(sent := p.sent + Sent(attempts),
       last := p.last + Outcomes(attempts),
       mark := if next != since then Some(next) else p.mark,
       failures := if attempts == [] then p.failures
                   else Some(Print(Remember(Decode(p.failures), attempts, MAX_FAILURES))),
       lastSuccess := if attempts == [] || AnySent(attempts) then Some(end) else p.lastSuccess)
  }

  lemma {:induction false} BatchIs(
    rows: map<PhotoId, Row>, cursor: seq<PhotoId>, since: int, failed: map<PhotoId, Text>)
    ensures forall a :: a in Batch(rows, cursor, since, failed) <==>
              a.id in cursor && a.id in rows && IsNewerThan(since, rows[a.id]) && a == AttemptOf(rows, a.id, failed)
  {
    if cursor != [] {
      BatchIs(rows, cursor[1..], since, failed);
      assert cursor == [cursor[0]] + cursor[1..];
    }
  }

  lemma {:induction false} SortedIsFixed(xs: seq<Attempt>)
    requires Ordered(xs)
    ensures SortedBy(xs) == xs
  {
    if xs != [] {
      assert Ordered(xs[1..]);
      SortedIsFixed(xs[1..]);
      assert xs == [xs[0]] + xs[1..];
    }
  }

  /** A photo not yet on the drive that the next run will still query. */
  predicate Reachable(p: Phone, id: PhotoId) {
    id in p.rows && (id in p.sent || (p.mark.Some? && TimestampMs(p.rows[id]) > p.mark.value))
  }

  /** A photo that failed, was never sent, and shares its time with the last of the successful prefix. */
  predicate TiedFailure(p: Phone, xs: seq<Attempt>) {
    0 < Prefix(xs) &&
    exists j :: 0 <= j < |xs| && !xs[j].uploaded && xs[j].id !in p.sent && xs[j].time == xs[Prefix(xs) - 1].time
  }

  predicate Sane(p: Phone) {
    p.mark.Some? && p.mark.value >= 0 && forall id :: id in p.rows ==> Fits(p.rows[id])
  }

  /** Each attempt of a run, in the order it is made. */
  function Run(p: Phone, cursor: seq<PhotoId>, failed: map<PhotoId, Text>): seq<Attempt>
    requires p.mark.Some?
  {
    SortedBy(Batch(p.rows, cursor, p.mark.value, failed))
  }

  lemma RunIs(p: Phone, cursor: seq<PhotoId>, failed: map<PhotoId, Text>, now: int, end: int)
    requires Sane(p) && Covers(cursor, p.rows)
    ensures var xs := Run(p, cursor, failed); var p' := Backup(p, cursor, failed, now, end);
      && Ordered(xs) && p'.rows == p.rows && p'.sent == p.sent + Sent(xs)
      && p'.mark == Some(if Prefix(xs) == 0 then p.mark.value else xs[Prefix(xs) - 1].time)
      && (forall i :: 0 <= i < |xs| ==> xs[i].time > p.mark.value)
      && (forall a :: a in xs <==> a.id in p.rows && a.time > p.mark.value && a == AttemptOf(p.rows, a.id, failed))
  {
    hide TimestampMs, IsNewerThan, SortedBy, Batch, Fits, NextMark, Remember, Decode, Print, Outcomes, AnySent, Ordered;
    var since := p.mark.value;
    var batch := Batch(p.rows, cursor, since, failed);
    BatchIs(p.rows, cursor, since, failed);
    SortedByIs(batch);
    var xs := SortedBy(batch);
    forall id | id in p.rows ensures IsNewerThan(since, p.rows[id]) <==> TimestampMs(p.rows[id]) > since {
      NewerIsLater(since, p.rows[id]);
    }
    forall i | 0 <= i < |xs| ensures xs[i].time > since {
      assert xs[i] in xs;
    }
    MarkIs(since, xs);
  }

  /** The photos a run must try: those past the watermark or, without one, of the last day. */
  function Due(p: Phone, now: int): set<PhotoId> {
    set id | id in p.rows && TimestampMs(p.rows[id]) > if p.mark.Some? then p.mark.value else now - 24 * 3600_000
  }

  /**
   A run sends every photo due whose upload does not fail, and no other. It counts
   as a success if it had nothing to do or sent something; with nothing to do that
   is all it records.
   */
  lemma RunRecords(p: Phone, cursor: seq<PhotoId>, failed: map<PhotoId, Text>, now: int, end: int)
    requires Covers(cursor, p.rows) && (forall id :: id in p.rows ==> Fits(p.rows[id])) && Since(p, now) >= 0
    ensures var p' := Backup(p, cursor, failed, now, end); var due := Due(p, now);
      && p'.rows == p.rows && p'.sent == p.sent + (due - failed.Keys)
      && p'.lastSuccess == (if due == {} || due - failed.Keys != {} then Some(end) else p.lastSuccess)
      && (due == {} ==> p' == p.(lastSuccess := Some(end)))
  {
    hide TimestampMs, IsNewerThan, SortedBy, Batch, Fits, Remember, Decode, Print, Ordered;
    var since, due := Since(p, now), Due(p, now);
    var batch := Batch(p.rows, cursor, since, failed);
    var xs := SortedBy(batch);
    BatchIs(p.rows, cursor, since, failed);
    SortedByIs(batch);
    forall id | id in p.rows ensures IsNewerThan(since, p.rows[id]) <==> TimestampMs(p.rows[id]) > since {
      NewerIsLater(since, p.rows[id]);
    }
    forall a ensures a in xs <==> a.id in due && a == AttemptOf(p.rows, a.id, failed) {}
    DueSent(p, xs, due, failed);
    if due == {} {
      assert SortedBy([]) == [] by { SortedIsFixed([]); }
      assert p.last + Outcomes(xs) == p.last && p.sent + Sent(xs) == p.sent;
    }
  }

  lemma DueSent(p: Phone, xs: seq<Attempt>, due: set<PhotoId>, failed: map<PhotoId, Text>)
    requires due <= p.rows.Keys && forall a :: a in xs <==> a.id in due && a == AttemptOf(p.rows, a.id, failed)
    ensures Sent(xs) == due - failed.Keys && (AnySent(xs) <==> due - failed.Keys != {}) && (xs == [] <==> due == {})
  {
    hide TimestampMs;
    forall id | id in due - failed.Keys ensures id in Sent(xs) && AnySent(xs) {
      assert AttemptOf(p.rows, id, failed) in xs;
    }
    if AnySent(xs) {
      var a :| a in xs && a.uploaded;
      assert a.id in due - failed.Keys;
    }
    if id :| id in due { assert AttemptOf(p.rows, id, failed) in xs; }
    if xs != [] { assert xs[0] in xs; }
  }

  lemma MarkIs(current: int, xs: seq<Attempt>)
    requires Ordered(xs) && forall i :: 0 <= i < |xs| ==> xs[i].time > current
    ensures NextMark(current, xs) == if Prefix(xs) == 0 then current else xs[Prefix(xs) - 1].time
  {
    SortedIsFixed(xs);
    hide SortedBy, Ordered;
  }

  /** A run forgets a photo if and only if one failed, unsent, at the very time the watermark moved to. */
  lemma RunForgetsIff(p: Phone, cursor: seq<PhotoId>, failed: map<PhotoId, Text>, now: int, end: int)
    requires Sane(p) && Covers(cursor, p.rows)
    ensures var p' := Backup(p, cursor, failed, now, end);
      Sane(p') && ((forall id :: Reachable(p, id) ==> Reachable(p', id)) <==> !TiedFailure(p, Run(p, cursor, failed)))
  {
    var xs, p' := Run(p, cursor, failed), Backup(p, cursor, failed, now, end);
    RunIs(p, cursor, failed, now, end);
    hide TimestampMs, Run, Backup, Fits;
    if TiedFailure(p, xs) {
      var j :| 0 <= j < |xs| && !xs[j].uploaded && xs[j].id !in p.sent && xs[j].time == xs[Prefix(xs) - 1].time;
      assert xs[j] in xs;
      var id := xs[j].id;
      assert id !in Sent(xs) by { SameAttempt(p, xs, failed, id); }
      assert Reachable(p, id) && !Reachable(p', id);
    } else {
      forall id | Reachable(p, id) ensures Reachable(p', id) { StaysReachable(p, p', xs, failed, id); }
    }
  }

  /** What `RunIs` says of an attempt list, for the lemmas below. */
  predicate Attempts(p: Phone, xs: seq<Attempt>, failed: map<PhotoId, Text>)
    requires p.mark.Some?
  {
    forall a :: a in xs ==> a.id in p.rows && a == AttemptOf(p.rows, a.id, failed)
  }

  lemma SameAttempt(p: Phone, xs: seq<Attempt>, failed: map<PhotoId, Text>, id: PhotoId)
    requires p.mark.Some? && Attempts(p, xs, failed) && exists a :: a in xs && a.id == id && !a.uploaded
    ensures id !in Sent(xs)
  {
  }

  lemma StaysReachable(p: Phone, p': Phone, xs: seq<Attempt>, failed: map<PhotoId, Text>, id: PhotoId)
    requires p.mark.Some? && Ordered(xs) && Reachable(p, id) && !TiedFailure(p, xs)
    requires p'.rows == p.rows && p'.sent == p.sent + Sent(xs)
    requires p'.mark == Some(if Prefix(xs) == 0 then p.mark.value else xs[Prefix(xs) - 1].time)
    requires forall a :: a in xs <==> a.id in p.rows && a.time > p.mark.value && a == AttemptOf(p.rows, a.id, failed)
    ensures Reachable(p', id)
  {
    hide TimestampMs;
    if id !in p.sent {
      var a := AttemptOf(p.rows, id, failed);
      assert a in xs;
      var j :| 0 <= j < |xs| && xs[j] == a;
      if !a.uploaded && Prefix(xs) > 0 {
        assert j >= Prefix(xs);
        assert xs[Prefix(xs) - 1].time <= xs[j].time;
      }
    }
  }

  /** Two photos of one second. */
  const TIED := Phone(map[1 := Row(5, 0, 0, []), 2 := Row(5, 0, 0, [])], Some(0), None, None, {}, map[])

  const SECOND_FAILS: map<PhotoId, Text> := map[2 := []]

  lemma TiedRows()
    ensures Sane(TIED) && Covers([1, 2], TIED.rows) && Reachable(TIED, 2)
    ensures forall id :: id in TIED.rows ==>
              IsNewerThan(0, TIED.rows[id]) &&
              AttemptOf(TIED.rows, id, SECOND_FAILS) == Attempt(id, 5000, id == 1, [], [])
  {
  }

  lemma TiedRun()
    ensures Run(TIED, [1, 2], SECOND_FAILS) == [Attempt(1, 5000, true, [], []), Attempt(2, 5000, false, [], [])]
  {
    TiedRows();
    hide AttemptOf, IsNewerThan;
    var a, b := Attempt(1, 5000, true, [], []), Attempt(2, 5000, false, [], []);
    assert [1, 2][1..] == [2] && [2][1..] == [];
    assert Batch(TIED.rows, [2], 0, SECOND_FAILS) == [b];
    assert Batch(TIED.rows, [1, 2], 0, SECOND_FAILS) == [a] + [b] == [a, b];
    assert [b][1..] == [] && [a, b][1..] == [b];
    assert SortedBy([b]) == [b];
  }

  /** One of two photos of one second fails: the watermark moves to that second, and the failed one is forgotten. */
  lemma TieIsForgotten(now: int, end: int)
    ensures var p' := Backup(TIED, [1, 2], SECOND_FAILS, now, end);
      && Sane(TIED) && Covers([1, 2], TIED.rows) && TiedFailure(TIED, Run(TIED, [1, 2], SECOND_FAILS))
      && Reachable(TIED, 2) && !Reachable(p', 2) && p'.mark == Some(5000)
  {
    TiedRows();
    TiedRun();
    RunIs(TIED, [1, 2], SECOND_FAILS, now, end);
    hide Backup, Run, AttemptOf, Sane, Covers;
    var xs := Run(TIED, [1, 2], SECOND_FAILS);
    assert !xs[1].uploaded && xs[1..][0] == xs[1] && Prefix(xs[1..]) == 0 && Prefix(xs) == 1;
    assert xs[1].time == xs[0].time;
  }

  // ---- many runs ----

  datatype Event =
    | Taken(id: PhotoId, row: Row)
    | Edited(id: PhotoId, row: Row)
    | Removed(id: PhotoId)
    | RunNow(cursor: seq<PhotoId>, failed: map<PhotoId, Text>, now: int, end: int)

  /** An edited photo is on the drive no longer as it is now. */
  function Happen(p: Phone, e: Event): Phone {
    match e
    case Taken(id, row) => if id in p.rows then p else p.(rows := p.rows[id := row])
    case Edited(id, row) => if id in p.rows then p.(rows := p.rows[id := row], sent := p.sent - {id}) else p
    case Removed(id) => p.(rows := p.rows - {id})
    case RunNow(cursor, failed, now, end) => Backup(p, cursor, failed, now, end)
  }

  function Live(p: Phone, events: seq<Event>): Phone
    decreases |events|
  {
    if events == [] then p else Live(Happen(p, events[0]), events[1..])
  }

  predicate DistinctTimes(rows: map<PhotoId, Row>) {
    forall i, j :: i in rows && j in rows && i != j ==> TimestampMs(rows[i]) != TimestampMs(rows[j])
  }

  /** An edited row's time does not fall back, nor to where the watermark has passed. */
  predicate Advances(p: Phone, id: PhotoId, row: Row) {
    id in p.rows && p.mark.Some? ==>
      TimestampMs(row) >= TimestampMs(p.rows[id]) && (id in p.sent ==> TimestampMs(row) > p.mark.value)
  }

  /** Cursors see every row, fields fit, and no two photos share a timestamp. */
  ghost predicate Orderly(p: Phone, events: seq<Event>)
    decreases |events|
  {
    events == [] ||
    ((match events[0]
      case Taken(id, row) => Fits(row)
      case Edited(id, row) => Fits(row) && Advances(p, id, row)
      case Removed(id) => true
      case RunNow(cursor, _, _, _) => Covers(cursor, p.rows) && DistinctTimes(p.rows)) &&
     Orderly(Happen(p, events[0]), events[1..]))
  }

  lemma DistinctNeverTies(p: Phone, cursor: seq<PhotoId>, failed: map<PhotoId, Text>, now: int, end: int)
    requires Sane(p) && Covers(cursor, p.rows) && DistinctTimes(p.rows)
    ensures !TiedFailure(p, Run(p, cursor, failed))
  {
    RunIs(p, cursor, failed, now, end);
    var xs := Run(p, cursor, failed);
    hide TimestampMs, Run, Backup, Fits;
    forall j | 0 <= j < |xs| && !xs[j].uploaded && 0 < Prefix(xs) ensures xs[j].time != xs[Prefix(xs) - 1].time {
      var a, b := xs[j], xs[Prefix(xs) - 1];
      assert a in xs && b in xs;
      assert b.uploaded;
    }
  }

  /** A stored or edited photo will be queried if and only if its time is past the watermark. */
  lemma ChangeIsQueriedIff(p: Phone, id: PhotoId, row: Row)
    requires Sane(p) && Fits(row)
    ensures id in p.rows ==>
              (Reachable(Happen(p, Edited(id, row)), id) <==> IsNewerThan(p.mark.value, row))
    ensures id !in p.rows && id !in p.sent ==>
              (Reachable(Happen(p, Taken(id, row)), id) <==> IsNewerThan(p.mark.value, row))
  {
    hide TimestampMs, IsNewerThan;
    NewerIsLater(p.mark.value, row);
  }

  lemma EventKeeps(p: Phone, e: Event, id: PhotoId)
    requires Sane(p) && Orderly(p, [e]) && Reachable(p, id) && e != Removed(id)
    ensures Sane(Happen(p, e)) && Reachable(Happen(p, e), id)
  {
    hide TimestampMs, Backup, Run, Fits, Covers, DistinctTimes;
    match e
    case Taken(i, row) =>
    case Edited(i, row) =>
    case Removed(i) =>
    case RunNow(cursor, failed, now, end) =>
      DistinctNeverTies(p, cursor, failed, now, end);
      RunForgetsIff(p, cursor, failed, now, end);
  }

  /**
   Whatever uploads fail, and however often, and however photos are added, edited
   and removed meanwhile: every photo newer than the first stored watermark that
   stays in the store is on the drive or still above the current one.
   */
  lemma {:induction false} NoPhotoIsSkipped(p: Phone, events: seq<Event>, id: PhotoId)
    requires Sane(p) && Orderly(p, events) && Reachable(p, id) && Removed(id) !in events
    ensures Sane(Live(p, events)) && Reachable(Live(p, events), id)
    decreases |events|
  {
    hide Happen, Sane, Reachable;
    if events != [] {
      FirstIsOrderly(p, events);
      assert events[0] in events && events[0] != Removed(id);
      EventKeeps(p, events[0], id);
      assert forall e :: e in events[1..] ==> e in events;
      NoPhotoIsSkipped(Happen(p, events[0]), events[1..], id);
    }
  }

  lemma FirstIsOrderly(p: Phone, events: seq<Event>)
    requires events != [] && Orderly(p, events)
    ensures Orderly(p, [events[0]]) && Orderly(Happen(p, events[0]), events[1..])
  {
    hide Happen, Covers, DistinctTimes, Fits, Advances;
    assert [events[0]][1..] == [];
  }

  /**
   Before any watermark is stored the window slides: while the oldest photo keeps
   failing nothing is stored, and a photo is queried only for a day.
   */
  lemma UnstoredWindowSlides(
    p: Phone, cursor: seq<PhotoId>, failed: map<PhotoId, Text>, now: int, end: int, later: int, id: PhotoId)
    requires p.mark.None? && Prefix(SortedBy(Batch(p.rows, cursor, now - DAY_MS, failed))) == 0
    requires id in p.rows && Fits(p.rows[id]) && later >= DAY_MS
    ensures var p' := Backup(p, cursor, failed, now, end);
      p'.mark.None? && (IsNewerThan(Since(p', later), p'.rows[id]) <==> TimestampMs(p.rows[id]) > later - DAY_MS)
  {
    var batch := Batch(p.rows, cursor, now - DAY_MS, failed);
    SortedByIs(batch);
    SortedIsFixed(SortedBy(batch));
    hide TimestampMs, IsNewerThan, SortedBy, Batch;
    NewerIsLater(later - DAY_MS, p.rows[id]);
  }

  /** One photo, taken in second 100000, fails; a run a day later looks no further back than half a minute after it. */
  lemma WindowSlidesPast(end: int)
    ensures var p := Phone(map[1 := Row(100_000, 0, 0, [])], None, None, None, {}, map[]);
      var now := 100_030_000;
      var p' := Backup(p, [1], FIRST_FAILS, now, end);
      && Covers([1], p.rows) && IsNewerThan(Since(p, now), p.rows[1]) && 1 !in p'.sent
      && !IsNewerThan(Since(p', now + DAY_MS), p'.rows[1])
  {
    var p := Phone(map[1 := Row(100_000, 0, 0, [])], None, None, None, {}, map[]);
    var now, f := 100_030_000, FIRST_FAILS;
    assert TimestampMs(p.rows[1]) == 100_000_000 && IsNewerThan(now - DAY_MS, p.rows[1]) && Fits(p.rows[1]);
    hide TimestampMs, IsNewerThan, Fits, Batch, SortedBy, NextMark, Remember, Decode, Print;
    OneFails(p, now - DAY_MS);
    UnstoredWindowSlides(p, [1], f, now, end, now + DAY_MS, 1);
  }

  const FIRST_FAILS: map<PhotoId, Text> := map[1 := []]

  lemma OneFails(p: Phone, since: int)
    requires 1 in p.rows && IsNewerThan(since, p.rows[1])
    ensures var xs := SortedBy(Batch(p.rows, [1], since, FIRST_FAILS)); Prefix(xs) == 0 && Sent(xs) == {}
  {
    hide TimestampMs, IsNewerThan;
    var a := AttemptOf(p.rows, 1, FIRST_FAILS);
    assert [1][1..] == [] && [a][1..] == [];
    assert Batch(p.rows, [1], since, FIRST_FAILS) == [a];
    assert SortedBy([a]) == [a];
  }

  // ---- what is remembered ----

  /** Each entry names a photo whose last attempt failed. */
  ghost predicate Blames(fs: seq<Failure>, last: map<PhotoId, bool>) {
    forall f :: f in fs ==> exists id :: id in last && !last[id] && f.uri == Uri(id)
  }

  /** Each remembered failure is of a photo whose last attempt failed; there are at most ten, one per photo. */
  ghost predicate Current(p: Phone) {
    var fs := Decode(p.failures);
    |fs| <= MAX_FAILURES && DistinctUris(fs) && Blames(fs, p.last)
  }

  lemma RestDiffers(xs: seq<Attempt>)
    requires DistinctIds(xs) && xs != []
    ensures DistinctIds(xs[1..]) && forall a :: a in xs[1..] ==> a.id != xs[0].id
  {
    forall a | a in xs[1..] ensures a.id != xs[0].id {
      var i :| 0 <= i < |xs[1..]| && xs[1..][i] == a;
      assert xs[i + 1] == a;
    }
  }

  lemma {:induction false} OutcomesAre(xs: seq<Attempt>)
    requires DistinctIds(xs)
    ensures forall id :: id in Outcomes(xs) <==> exists a :: a in xs && a.id == id
    ensures forall a :: a in xs ==> a.id in Outcomes(xs) && Outcomes(xs)[a.id] == a.uploaded
  {
    if xs != [] {
      var rest := xs[1..];
      OutcomesAre(rest);
      assert xs == [xs[0]] + rest;
      RestDiffers(xs);
      hide DistinctIds;
    }
  }

  lemma {:induction false} InsertDistinct(x: Attempt, xs: seq<Attempt>)
    requires DistinctIds(xs) && forall y :: y in xs ==> y.id != x.id
    ensures DistinctIds(Insert(x, xs)) && forall y :: y in Insert(x, xs) <==> y == x || y in xs
  {
    if xs != [] && x.time > xs[0].time {
      var rest := xs[1..];
      assert xs == [xs[0]] + rest;
      InsertDistinct(x, rest);
      RestDiffers(xs);
      var out := Insert(x, rest);
      forall i | 0 <= i < |out| ensures out[i].id != xs[0].id { assert out[i] in out; }
    }
  }

  lemma {:induction false} SortedDistinct(xs: seq<Attempt>)
    requires DistinctIds(xs)
    ensures DistinctIds(SortedBy(xs)) && forall y :: y in SortedBy(xs) <==> y in xs
  {
    if xs != [] {
      var rest := xs[1..];
      SortedDistinct(rest);
      assert xs == [xs[0]] + rest;
      RestDiffers(xs);
      InsertDistinct(xs[0], SortedBy(rest));
    }
  }

  lemma {:induction false} BatchDistinct(
    rows: map<PhotoId, Row>, cursor: seq<PhotoId>, since: int, failed: map<PhotoId, Text>)
    requires NoneTwice(cursor)
    ensures DistinctIds(Batch(rows, cursor, since, failed))
  {
    hide IsNewerThan, TimestampMs;
    if cursor != [] {
      var rest := Batch(rows, cursor[1..], since, failed);
      BatchDistinct(rows, cursor[1..], since, failed);
      BatchIs(rows, cursor[1..], since, failed);
      forall i | 0 <= i < |rest| ensures rest[i].id != cursor[0] {
        assert rest[i] in rest;
        var j :| 0 <= j < |cursor[1..]| && cursor[1..][j] == rest[i].id;
        assert cursor[j + 1] == rest[i].id;
      }
    }
  }

  lemma BackupRemembers(p: Phone, cursor: seq<PhotoId>, failed: map<PhotoId, Text>, now: int, end: int)
    ensures var p', xs := Backup(p, cursor, failed, now, end), SortedBy(Batch(p.rows, cursor, Since(p, now), failed));
      && p'.last == p.last + Outcomes(xs)
      && p'.failures == if xs == [] then p.failures
                        else Some(Print(Remember(Decode(p.failures), xs, MAX_FAILURES)))
  {
    hide Batch, SortedBy, NextMark, Remember, Decode, Print, Outcomes;
  }

  lemma OutcomeIsTried(xs: seq<Attempt>, id: PhotoId)
    requires DistinctIds(xs)
    ensures id in Outcomes(xs) ==> Tried(xs, Uri(id))
  {
    OutcomesAre(xs);
    hide Outcomes, Uri;
  }

  lemma StillBlames(fs: seq<Failure>, last: map<PhotoId, bool>, xs: seq<Attempt>)
    requires DistinctIds(xs) && DistinctUris(fs) && Blames(fs, last)
    ensures Blames(Remember(fs, xs, MAX_FAILURES), last + Outcomes(xs))
  {
    OutcomesAre(xs);
    RememberIs(fs, xs, MAX_FAILURES);
    hide Remember, Uri, Outcomes, DistinctIds, DistinctUris;
    var last' := last + Outcomes(xs);
    forall f | f in Remember(fs, xs, MAX_FAILURES) ensures exists id :: id in last' && !last'[id] && f.uri == Uri(id) {
      if Reports(xs, f) {
        ReportsOne(xs, f);
        var a :| a in xs && !a.uploaded && f == FailureOf(a);
        assert a.id in last' && !last'[a.id];
      } else {
        var id :| id in last && !last[id] && f.uri == Uri(id);
        OutcomeIsTried(xs, id);
        assert id !in Outcomes(xs);
      }
    }
  }

  /** A run leaves the list current: new failures on top, photos tried again off it or reported anew. */
  lemma RunKeepsCurrent(p: Phone, cursor: seq<PhotoId>, failed: map<PhotoId, Text>, now: int, end: int)
    requires Current(p) && NoneTwice(cursor)
    ensures Current(Backup(p, cursor, failed, now, end))
  {
    hide Batch, SortedBy, NextMark, Remember, Decode, Backup, Outcomes, DistinctIds, DistinctUris, Blames, Print;
    var batch := Batch(p.rows, cursor, Since(p, now), failed);
    BatchDistinct(p.rows, cursor, Since(p, now), failed);
    SortedDistinct(batch);
    var xs, fs := SortedBy(batch), Decode(p.failures);
    BackupRemembers(p, cursor, failed, now, end);
    RememberIs(fs, xs, MAX_FAILURES);
    FailuresRoundTrip(Remember(fs, xs, MAX_FAILURES));
    StillBlames(fs, p.last, xs);
    assert xs == [] ==> p.last + Outcomes(xs) == p.last by { NoOutcomes(); }
  }

  lemma NoOutcomes()
    ensures Outcomes([]) == map[]
  {
  }

  /** Every cursor goes over a row at most once. */
  predicate PlainCursors(events: seq<Event>) {
    forall e :: e in events && e.RunNow? ==> NoneTwice(e.cursor)
  }

  /** The list is current after any events and runs, whatever fails in them. */
  lemma {:induction false} FailuresStayCurrent(p: Phone, events: seq<Event>)
    requires Current(p) && PlainCursors(events)
    ensures Current(Live(p, events))
    decreases |events|
  {
    hide Backup, NoneTwice;
    if events != [] {
      var e := events[0];
      assert e in events && forall x :: x in events[1..] ==> x in events;
      if e.RunNow? { RunKeepsCurrent(p, e.cursor, e.failed, e.now, e.end); }
      FailuresStayCurrent(Happen(p, e), events[1..]);
    }
  }

  // ---- the worker ----

  class Worker {
    var rows: map<PhotoId, Row>
    var mark: Option<int>
    var failures: Option<Text>
    var lastSuccess: Option<int>
    ghost var sent: set<PhotoId>
    ghost var last: map<PhotoId, bool>

    ghost function State(): Phone
      reads this
    {
      Phone(rows, mark, failures, lastSuccess, sent, last)
    }

    constructor (rows: map<PhotoId, Row>)
      ensures State() == Phone(rows, None, None, None, {}, map[])
    {
      this.rows, mark, failures, lastSuccess, sent, last := rows, None, None, None, {}, map[];
    }

    /** Filters the cursor's rows; `failed` only serves to say what the attempts will be. */
    method QueryNewImages(since: int, cursor: seq<PhotoId>, ghost failed: map<PhotoId, Text>)
      returns (out: seq<ImageItem>)
      requires Covers(cursor, rows)
      ensures Attempted(out, failed) == Batch(rows, cursor, since, failed)
    {
      hide TimestampMs, IsNewerThan, Batch, Attempted;
      AttemptedNothing(failed);
      out := [];
      assert cursor[0..] == cursor;
      for i := 0 to |cursor|
        invariant Attempted(out, failed) + Batch(rows, cursor[i..], since, failed) == Batch(rows, cursor, since, failed)
      {
        var id := cursor[i];
        QueryStep(rows, cursor, i, since, failed, out);
        if IsNewerThan(since, rows[id]) { out := out + [ImageItem(id, rows[id].name, TimestampMs(rows[id]))]; }
      }
      assert cursor[|cursor|..] == [];
    }

    /** `failed` are the uploads that do not get through, each with its error. */
    method DoWork(cursor: seq<PhotoId>, failed: map<PhotoId, Text>, now: int, end: int)
      requires Covers(cursor, rows)
      modifies this`mark, this`failures, this`lastSuccess, this`sent, this`last
      ensures State() == Backup(old(State()), cursor, failed, now, end)
    {
      hide Batch, SortedBy, Remember, Print, Decode;
      var since := if mark.Some? then mark.value else now - DAY_MS;
      var found := QueryNewImages(since, cursor, failed);
      var attempts: seq<Attempt> := SortedBy(Attempted(found, failed));
      ghost var before := sent;
      for i := 0 to |attempts|
        modifies this`sent
        invariant sent == before + Sent(attempts[..i])
      {
        assert attempts[..i + 1] == attempts[..i] + [attempts[i]];
        if attempts[i].uploaded { sent := sent + {attempts[i].id}; }
      }
      assert attempts[..|attempts|] == attempts;
      last := last + Outcomes(attempts);
      var next := NextWatermark(since, attempts);
      if attempts == [] {
        lastSuccess := Some(end);
        NothingNext(since);
        return;
      }
      var previous := DecodeFailures(failures);
      var remembered := Remember(previous, attempts, MAX_FAILURES);
      if next != since { mark := Some(next); }
      if AnySent(attempts) { lastSuccess := Some(end); }
      var text := EncodeFailures(remembered);
      failures := Some(text);
    }
  }

  datatype ImageItem = ImageItem(id: PhotoId, name: Text, time: int)

  lemma NothingNext(since: int)
    ensures NextMark(since, []) == since
  {
  }

  function Attempted(found: seq<ImageItem>, failed: map<PhotoId, Text>): seq<Attempt> {
    if found == [] then []
    else [AttemptAt(found[0].id, found[0].time, found[0].name, failed)] + Attempted(found[1..], failed)
  }

  lemma AttemptedNothing(failed: map<PhotoId, Text>)
    ensures Attempted([], failed) == [] && forall rows, since :: Batch(rows, [], since, failed) == []
  {
  }

  lemma QueryStep(rows: map<PhotoId, Row>, cursor: seq<PhotoId>, i: nat, since: int, failed: map<PhotoId, Text>,
                  out: seq<ImageItem>)
    requires i < |cursor| && cursor[i] in rows
    ensures var id := cursor[i];
      var item := ImageItem(id, rows[id].name, TimestampMs(rows[id]));
      var next := if IsNewerThan(since, rows[id]) then out + [item] else out;
      Attempted(next, failed) + Batch(rows, cursor[i + 1..], since, failed) ==
      Attempted(out, failed) + Batch(rows, cursor[i..], since, failed)
  {
    hide TimestampMs, IsNewerThan, Attempted;
    var id := cursor[i];
    assert cursor[i..][0] == id && cursor[i..][1..] == cursor[i + 1..];
    AttemptedAppend(out, ImageItem(id, rows[id].name, TimestampMs(rows[id])), failed);
  }

  lemma {:induction false} AttemptedAppend(found: seq<ImageItem>, item: ImageItem, failed: map<PhotoId, Text>)
    ensures Attempted(found + [item], failed) ==
            Attempted(found, failed) + [AttemptAt(item.id, item.time, item.name, failed)]
  {
    if found == [] {
      assert found + [item] == [item];
    } else {
      AttemptedAppend(found[1..], item, failed);
      assert (found + [item])[1..] == found[1..] + [item];
    }
  }
}
