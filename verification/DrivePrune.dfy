/** Count-pruning keeps, of every path, exactly the newest rows up to the limit. */
module DrivePrune {
  import opened DriveInvariant
  import opened DriveModel

  /** Row `j` comes before row `i` in the order of one path: later, or as late with the higher id. */
  predicate Beats(rows: map<nat, Row>, j: nat, i: nat)
    requires i in rows && j in rows
  {
    rows[j].at > rows[i].at || (rows[j].at == rows[i].at && j > i)
  }

  lemma {:induction false} Oldest(rows: map<nat, Row>, s: set<nat>) returns (i: nat)
    requires s != {} && s <= rows.Keys
    ensures i in s && forall j :: j in s && j != i ==> Beats(rows, j, i)
  {
    var x :| x in s;
    i := x;
    if s != {x} {
      var k := Oldest(rows, s - {x});
      if Beats(rows, x, k) { i := k; }
      forall j | j in s && j != i ensures Beats(rows, j, i) {
        if j != x && j != k { assert j in s - {x} && Beats(rows, j, k); }
      }
    }
  }

  lemma {:induction false} Newest(rows: map<nat, Row>, s: set<nat>) returns (i: nat)
    requires s != {} && s <= rows.Keys
    ensures i in s && forall j :: j in s && j != i ==> Beats(rows, i, j)
  {
    var x :| x in s;
    i := x;
    if s != {x} {
      var k := Newest(rows, s - {x});
      if Beats(rows, k, x) { i := k; }
      forall j | j in s && j != i ensures Beats(rows, i, j) {
        if j != x && j != k { assert j in s - {x} && Beats(rows, k, j); }
      }
    }
  }

  lemma SubsetSize<T>(a: set<T>, b: set<T>)
    requires a <= b
    ensures |a| <= |b|
  {
    if a != b { assert b == a + (b - a); }
  }

  /** With one row per version id, pruning drops exactly the overflow. */
  lemma PruneDropsOverflow(d: Drive, keep: nat, kept: set<BlobKey>)
    requires Valid(d)
    ensures Prune(d, keep, Pruned(kept)).rows == d.rows - Overflow(d.rows, keep)
  {
    var gone := Overflow(d.rows, keep);
    hide Overflow;
    var refs := set i | i in gone && i in d.rows :: RefOf(d.rows[i]);
    forall i | i in d.rows ensures RefOf(d.rows[i]) in refs <==> i in gone {
      if RefOf(d.rows[i]) in refs {
        var j :| j in gone && j in d.rows && RefOf(d.rows[j]) == RefOf(d.rows[i]);
      }
    }
  }

  /** A row that stays beats every row of its path that goes. */
  lemma KeptBeatsDropped(rows: map<nat, Row>, keep: nat, kept: nat, gone: nat)
    requires kept in rows && gone in rows && rows[kept].path == rows[gone].path
    requires kept !in Overflow(rows, keep) && gone in Overflow(rows, keep)
    ensures Beats(rows, kept, gone)
  {
    if Beats(rows, gone, kept) {
      assert Newer(rows, gone) <= Newer(rows, kept);
      SubsetSize(Newer(rows, gone), Newer(rows, kept));
    }
  }

  function AtPath(rows: map<nat, Row>, p: Path): set<nat> {
    set i | i in rows && rows[i].path == p
  }

  lemma AtMostKeep(rows: map<nat, Row>, keep: nat, p: Path)
    ensures |AtPath(rows, p) - Overflow(rows, keep)| <= keep
  {
    var s := AtPath(rows, p) - Overflow(rows, keep);
    if s != {} {
      var i := Oldest(rows, s);
      assert s - {i} <= Newer(rows, i);
      SubsetSize(s - {i}, Newer(rows, i));
    }
  }

  lemma AtLeastKeep(rows: map<nat, Row>, keep: nat, p: Path)
    requires AtPath(rows, p) * Overflow(rows, keep) != {}
    ensures |AtPath(rows, p) - Overflow(rows, keep)| >= keep
  {
    var dropped := AtPath(rows, p) * Overflow(rows, keep);
    var i := Newest(rows, dropped);
    assert forall j :: j in dropped ==> j !in Newer(rows, i);
    assert Newer(rows, i) <= AtPath(rows, p) - Overflow(rows, keep);
    SubsetSize(Newer(rows, i), AtPath(rows, p) - Overflow(rows, keep));
  }

  /** Of `p`, all rows stay, or exactly `keep`; and what stays beats what goes. */
  ghost predicate KeepsNewest(rows: map<nat, Row>, rows': map<nat, Row>, keep: nat, p: Path) {
    var was, now := AtPath(rows, p), AtPath(rows', p);
    && now <= was && (forall i :: i in now ==> rows'[i] == rows[i])
    && |now| == (if |was| <= keep then |was| else keep)
    && (forall kept, gone :: kept in now && gone in was - now ==> Beats(rows, kept, gone))
  }

  lemma RowsKeepNewest(rows: map<nat, Row>, keep: nat, p: Path)
    ensures KeepsNewest(rows, rows - Overflow(rows, keep), keep, p)
  {
    hide Overflow, AtPath, Beats;
    var over := Overflow(rows, keep);
    DroppedAt(rows, over, p);
    AtMostKeep(rows, keep, p);
    SplitSize(AtPath(rows, p), over);
    if AtPath(rows, p) * over != {} { AtLeastKeep(rows, keep, p); }
    AllKeptBeat(rows, keep, p);
  }

  /** Each path keeps all its rows, or exactly the newest `keep`. */
  lemma PruneKeepsNewest(d: Drive, keep: nat, kept: set<BlobKey>, p: Path)
    requires Valid(d)
    ensures KeepsNewest(d.rows, Prune(d, keep, Pruned(kept)).rows, keep, p)
  {
    hide KeepsNewest, Overflow, Prune;
    PruneDropsOverflow(d, keep, kept);
    RowsKeepNewest(d.rows, keep, p);
  }

  lemma AllKeptBeat(rows: map<nat, Row>, keep: nat, p: Path)
    ensures var was := AtPath(rows, p); var now := was - Overflow(rows, keep);
      forall kept, gone :: kept in now && gone in was - now ==> Beats(rows, kept, gone)
  {
    hide Overflow, Beats;
    var was := AtPath(rows, p);
    var now := was - Overflow(rows, keep);
    forall kept, gone | kept in now && gone in was - now ensures Beats(rows, kept, gone) {
      KeptBeatsDropped(rows, keep, kept, gone);
    }
  }

  lemma SplitSize(s: set<nat>, over: set<nat>)
    ensures if s * over == {} then s - over == s else |s - over| < |s|
  {
    assert s == (s - over) + s * over;
    assert s * over == {} ==> s - over == s;
  }

  lemma DroppedAt(rows: map<nat, Row>, over: set<nat>, p: Path)
    ensures AtPath(rows - over, p) == AtPath(rows, p) - over
    ensures forall i :: i in AtPath(rows - over, p) ==> i in rows && i in rows - over && (rows - over)[i] == rows[i]
  {
    assert forall i :: i in rows - over <==> i in rows && i !in over;
  }
}
