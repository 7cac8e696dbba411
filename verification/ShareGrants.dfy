/** The table of share grants: issue, sweep by expiry, and a cap that evicts the soonest to expire. */
module ShareGrants {
  type Token = string
  type Grant = string
  type Table = map<Token, map<Grant, int>>

  const MAX_GRANTS := 1024
  const GRANT_TTL := 24 * 60 * 60
  const MAX_INT64 := 0x7fff_ffff_ffff_ffff

  // ---- the table as a set of grants ----

  function PairsOf(t: Token, grants: map<Grant, int>): set<(Token, Grant)> {
    set g | g in grants :: (t, g)
  }

  function Pairs(m: Table): set<(Token, Grant)> {
    set t, g | t in m && g in m[t] :: (t, g)
  }

  function Expiry(m: Table, e: (Token, Grant)): int
    requires e in Pairs(m)
  {
    m[e.0][e.1]
  }

  predicate NoneEmpty(m: Table) {
    forall t :: t in m ==> m[t] != map[]
  }

  /** Grants are random hex, never the empty string. */
  predicate Named(m: Table) {
    forall t, g :: t in m && g in m[t] ==> g != ""
  }

  /** `m'` keeps some of the grants of `m` as they were. */
  predicate Subtable(m': Table, m: Table) {
    forall e :: e in Pairs(m') ==> e in Pairs(m) && Expiry(m', e) == Expiry(m, e)
  }

  function Without(m: Table, t: Token, g: Grant): Table
    requires t in m
  {
    if m[t] - {g} == map[] then m - {t} else m[t := m[t] - {g}]
  }

  // ---- counting ----

  lemma {:induction false} SameSize(t: Token, grants: map<Grant, int>)
    ensures |PairsOf(t, grants)| == |grants|
    decreases |grants|
  {
    if grants == map[] {
      assert PairsOf(t, grants) == {};
    } else {
      var g :| g in grants;
      var rest := grants - {g};
      SameSize(t, rest);
      assert PairsOf(t, grants) == PairsOf(t, rest) + {(t, g)};
      assert grants.Keys == rest.Keys + {g};
    }
  }

  function Some(m: Table, tokens: set<Token>): Table {
    map t | t in m && t in tokens :: m[t]
  }

  lemma CountOne(m: Table, tokens: set<Token>, t: Token)
    requires t in m && t !in tokens
    ensures |Pairs(Some(m, tokens + {t}))| == |Pairs(Some(m, tokens))| + |m[t]|
  {
    SameSize(t, m[t]);
    assert Pairs(Some(m, tokens + {t})) == Pairs(Some(m, tokens)) + PairsOf(t, m[t]);
    assert Pairs(Some(m, tokens)) !! PairsOf(t, m[t]);
  }

  lemma WithoutIs(m: Table, t: Token, g: Grant)
    requires t in m && g in m[t]
    ensures Pairs(Without(m, t, g)) == Pairs(m) - {(t, g)} && Subtable(Without(m, t, g), m)
    ensures |Pairs(Without(m, t, g))| == |Pairs(m)| - 1
    ensures NoneEmpty(m) ==> NoneEmpty(Without(m, t, g))
  {
    var m' := Without(m, t, g);
    forall e | e in Pairs(m) && e != (t, g) ensures e in Pairs(m') && Expiry(m', e) == Expiry(m, e) {
      if e.0 == t {
        assert e.1 in m[t] - {g};
      }
    }
    assert (t, g) in Pairs(m);
    assert Pairs(m') == Pairs(m) - {(t, g)};
  }

  // ---- expiry ----

  function Alive(grants: map<Grant, int>, cutoff: int): map<Grant, int> {
    map g | g in grants && grants[g] > cutoff :: grants[g]
  }

  /** The grants that outlive `cutoff`, and no share without one. */
  function Swept(m: Table, cutoff: int): Table {
    map t | t in m && Alive(m[t], cutoff) != map[] :: Alive(m[t], cutoff)
  }

  function Put(m: Table, t: Token, g: Grant, expiry: int): Table {
    if t in m then m[t := m[t][g := expiry]] else m[t := map[g := expiry]]
  }

  lemma SweptIs(m: Table, cutoff: int)
    ensures NoneEmpty(Swept(m, cutoff)) && Subtable(Swept(m, cutoff), m)
    ensures forall e :: e in Pairs(Swept(m, cutoff)) <==> e in Pairs(m) && Expiry(m, e) > cutoff
    ensures Named(m) ==> Named(Swept(m, cutoff))
  {
    forall e | e in Pairs(m) && Expiry(m, e) > cutoff ensures e in Pairs(Swept(m, cutoff)) {
      assert e.1 in Alive(m[e.0], cutoff);
    }
  }

  lemma PutIs(m: Table, t: Token, g: Grant, expiry: int)
    ensures Pairs(Put(m, t, g, expiry)) == Pairs(m) + {(t, g)} && Expiry(Put(m, t, g, expiry), (t, g)) == expiry
    ensures forall e :: e in Pairs(m) && e != (t, g) ==> Expiry(Put(m, t, g, expiry), e) == Expiry(m, e)
    ensures Named(m) && g != "" ==> Named(Put(m, t, g, expiry))
  {
    forall e | e in Pairs(m) ensures e in Pairs(Put(m, t, g, expiry)) {
      if e.0 == t { assert e.1 in m[t][g := expiry]; }
    }
    assert (t, g) in Pairs(Put(m, t, g, expiry));
  }

  /** Goes over one share's grants and deletes the expired ones. */
  method DropExpired(all: map<Grant, int>, cutoff: int) returns (grants: map<Grant, int>)
    ensures grants == Alive(all, cutoff)
  {
    grants := all;
    var rest := all.Keys;
    while rest != {}
      invariant rest <= all.Keys
      invariant forall g :: g in grants <==> g in all && (g in rest || all[g] > cutoff)
      invariant forall g :: g in grants ==> grants[g] == all[g]
      decreases |rest|
    {
      var g :| g in rest;
      if grants[g] <= cutoff { grants := grants - {g}; }
      rest := rest - {g};
    }
  }

  class Grants {
    var pubGr: Table

    /** How many grants there are, one share after another. */
    method Count() returns (total: nat)
      ensures total == |Pairs(pubGr)|
    {
      total := 0;
      var rest, done: set<Token> := pubGr.Keys, {};
      assert Pairs(Some(pubGr, {})) == {};
      while rest != {}
        invariant rest + done == pubGr.Keys && rest !! done
        invariant total == |Pairs(Some(pubGr, done))|
        decreases |rest|
      {
        var t :| t in rest;
        CountOne(pubGr, done, t);
        total := total + |pubGr[t]|;
        rest, done := rest - {t}, done + {t};
      }
      assert Some(pubGr, done) == pubGr;
    }

    /** The grant that expires soonest; no victim when none expires before the largest int64. */
    method Soonest() returns (tok: Token, victim: Grant)
      requires Named(pubGr)
      ensures victim != "" ==>
                && tok in pubGr && victim in pubGr[tok]
                && (forall e :: e in Pairs(pubGr) ==> pubGr[tok][victim] <= Expiry(pubGr, e))
      ensures victim == "" ==> forall e :: e in Pairs(pubGr) ==> Expiry(pubGr, e) >= MAX_INT64
    {
      tok, victim := "", "";
      var oldest := MAX_INT64;
      var tokens, seen: set<(Token, Grant)> := pubGr.Keys, {};
      while tokens != {}
        invariant tokens <= pubGr.Keys
        invariant forall e :: e in Pairs(pubGr) && e.0 !in tokens ==> oldest <= Expiry(pubGr, e)
        invariant if victim == "" then oldest == MAX_INT64
                  else tok in pubGr && victim in pubGr[tok] && oldest == pubGr[tok][victim]
        decreases |tokens|
      {
        var t :| t in tokens;
        var grants := pubGr[t].Keys;
        while grants != {}
          invariant grants <= pubGr[t].Keys
          invariant forall e :: e in Pairs(pubGr) && e.0 !in tokens ==> oldest <= Expiry(pubGr, e)
          invariant forall g :: g in pubGr[t] && g !in grants ==> oldest <= pubGr[t][g]
          invariant if victim == "" then oldest == MAX_INT64
                    else tok in pubGr && victim in pubGr[tok] && oldest == pubGr[tok][victim]
          decreases |grants|
        {
          var g :| g in grants;
          if pubGr[t][g] < oldest { tok, victim, oldest := t, g, pubGr[t][g]; }
          grants := grants - {g};
        }
        tokens := tokens - {t};
      }
    }

    /** Evicts the soonest to expire until no more than the cap remain. */
    method CapGrants()
      requires Named(pubGr)
      modifies this
      ensures Named(pubGr) && Subtable(pubGr, old(pubGr)) && (NoneEmpty(old(pubGr)) ==> NoneEmpty(pubGr))
      ensures |Pairs(old(pubGr))| <= MAX_GRANTS ==> pubGr == old(pubGr)
      ensures |Pairs(old(pubGr))| > MAX_GRANTS ==>
                |Pairs(pubGr)| == MAX_GRANTS ||
                (|Pairs(pubGr)| > MAX_GRANTS && forall e :: e in Pairs(pubGr) ==> Expiry(pubGr, e) >= MAX_INT64)
      ensures forall kept, gone :: kept in Pairs(pubGr) && gone in Pairs(old(pubGr)) - Pairs(pubGr) ==>
                Expiry(old(pubGr), gone) <= Expiry(pubGr, kept)
    {
      hide Without;
      var total := Count();
      while total > MAX_GRANTS
        invariant Named(pubGr) && Subtable(pubGr, old(pubGr)) && (NoneEmpty(old(pubGr)) ==> NoneEmpty(pubGr))
        invariant total == |Pairs(pubGr)|
        invariant |Pairs(old(pubGr))| <= MAX_GRANTS ==> pubGr == old(pubGr)
        invariant |Pairs(old(pubGr))| > MAX_GRANTS ==> total >= MAX_GRANTS
        invariant forall kept, gone :: kept in Pairs(pubGr) && gone in Pairs(old(pubGr)) - Pairs(pubGr) ==>
                    Expiry(old(pubGr), gone) <= Expiry(pubGr, kept)
        decreases total
      {
        var tok, victim := Soonest();
        if victim == "" { return; }
        assert (tok, victim) in Pairs(pubGr);
        WithoutIs(pubGr, tok, victim);
        ghost var before := pubGr;
        pubGr := Without(pubGr, tok, victim);
        NamedWithout(before, pubGr);
        total := total - 1;
      }
    }

    /** Drops expired grants share by share, and shares left with none. */
    method SweepGrants(cutoff: int)
      modifies this
      ensures pubGr == Swept(old(pubGr), cutoff)
    {
      hide Alive;
      ghost var was := pubGr;
      var tokens := pubGr.Keys;
      while tokens != {}
        invariant tokens <= was.Keys
        invariant forall t :: t in tokens ==> t in pubGr && pubGr[t] == was[t]
        invariant forall t :: t in was && t !in tokens ==>
                    (t in pubGr <==> Alive(was[t], cutoff) != map[]) &&
                    (t in pubGr ==> pubGr[t] == Alive(was[t], cutoff))
        invariant pubGr.Keys <= was.Keys
        decreases |tokens|
      {
        var t :| t in tokens;
        var grants := DropExpired(pubGr[t], cutoff);
        pubGr := if grants == map[] then pubGr - {t} else pubGr[t := grants];
        tokens := tokens - {t};
      }
      assert pubGr == Swept(was, cutoff);
    }

    /**
     Issue, sweep, cap. Afterwards every grant is alive, no share is without one,
     at most the cap remain, and whatever the cap evicted - the new grant
     included - expires no later than anything it kept.
     */
    method IssueGrant(tok: Token, grant: Grant, now: int)
      requires Named(pubGr) && grant != ""
      modifies this
      ensures var full := Swept(Put(old(pubGr), tok, grant, now + GRANT_TTL), now);
        && Named(pubGr) && NoneEmpty(pubGr) && Subtable(pubGr, full)
        && (|Pairs(full)| <= MAX_GRANTS ==> pubGr == full)
        && (|Pairs(full)| > MAX_GRANTS && (exists e :: e in Pairs(pubGr) && Expiry(pubGr, e) < MAX_INT64) ==>
              |Pairs(pubGr)| == MAX_GRANTS)
        && (forall kept, gone :: kept in Pairs(pubGr) && gone in Pairs(full) - Pairs(pubGr) ==>
              Expiry(full, gone) <= Expiry(pubGr, kept))
      ensures forall e :: e in Pairs(pubGr) ==> Expiry(pubGr, e) > now
      ensures (tok, grant) in Pairs(pubGr) || forall e :: e in Pairs(pubGr) ==> Expiry(pubGr, e) >= now + GRANT_TTL
    {
      hide Swept, Put, Pairs, NoneEmpty, Named;
      PutIs(pubGr, tok, grant, now + GRANT_TTL);
      pubGr := Put(pubGr, tok, grant, now + GRANT_TTL);
      SweptIs(pubGr, now);
      SweepGrants(now);
      CapGrants();
    }

    /** A grant works until it expires; asking for a dead one removes it. */
    method HasGrant(tok: Token, grant: Grant, now: int) returns (ok: bool)
      modifies this
      ensures ok == (tok in old(pubGr) && grant in old(pubGr)[tok] && now <= old(pubGr)[tok][grant])
      ensures ok ==> pubGr == old(pubGr)
      ensures !ok ==> Pairs(pubGr) == Pairs(old(pubGr)) - {(tok, grant)} && Subtable(pubGr, old(pubGr))
    {
      if tok !in pubGr { return false; }
      if grant in pubGr[tok] && now <= pubGr[tok][grant] { return true; }
      ghost var was := pubGr;
      pubGr := pubGr[tok := pubGr[tok] - {grant}];
      forall e | e in Pairs(was) && e != (tok, grant) ensures e in Pairs(pubGr) {
        if e.0 == tok { assert e.1 in was[tok] - {grant}; }
      }
      return false;
    }
  }

  lemma NamedWithout(m: Table, m': Table)
    requires Named(m) && Subtable(m', m)
    ensures Named(m')
  {
    forall t, g | t in m' && g in m'[t] ensures g != "" { assert (t, g) in Pairs(m'); }
  }
}
