/** What cleaning does to "." and "..", and exactly which clean paths the server accepts. */
module PathRules {
  import opened ConflictName
  import opened LogicalPath
  import opened Strings
  import opened Wrappers

  // ---- cleaning ----

  lemma {:induction false} ResolveJoin(a: seq<string>, b: seq<string>, done: seq<string>)
    ensures Resolve(a + b, done) == Resolve(b, Resolve(a, done))
    decreases |a|
  {
    if a == [] {
      assert a + b == b;
    } else {
      assert (a + b)[1..] == a[1..] + b;
      var next := if a[0] == "" || a[0] == "." then done
                  else if a[0] == ".." then if done == [] then [] else done[..|done| - 1]
                  else done + [a[0]];
      ResolveJoin(a[1..], b, next);
    }
  }

  /** Segments in the middle that resolve to nothing make no difference. */
  lemma Dropped(a: seq<string>, mid: seq<string>, b: seq<string>)
    requires forall done :: Resolve(mid, done) == done
    ensures Resolve(a + mid + b, []) == Resolve(a + b, [])
  {
    ResolveJoin(a + mid, b, []);
    ResolveJoin(a, mid, []);
    ResolveJoin(a, b, []);
  }

  lemma UpResolves(seg: string, done: seq<string>)
    requires GoodSegment(seg)
    ensures Resolve([seg, ".."], done) == done
  {
    assert [seg, ".."][1..] == [".."] && [".."][1..] == [];
    assert (done + [seg])[..|done|] == done;
  }

  lemma NothingResolves(seg: string, done: seq<string>)
    requires seg == "" || seg == "."
    ensures Resolve([seg], done) == done
  {
  }

  /** ".." takes the segment before it away, wherever they stand. */
  lemma UpDrops(x: string, seg: string, y: string)
    requires GoodSegment(seg)
    ensures Clean(x + ("/" + (seg + ("/" + (".." + ("/" + y)))))) == Clean(x + ("/" + y))
  {
    hide Split, Resolve;
    SplitAt(x, seg + ("/" + (".." + ("/" + y))));
    SplitAt(seg, ".." + ("/" + y));
    SplitAt("..", y);
    SplitAt(x, y);
    SplitPlain(seg);
    SplitPlain("..");
    forall done ensures Resolve([seg, ".."], done) == done { UpResolves(seg, done); }
    Dropped(Split(x), [seg, ".."], Split(y));
    assert Split(x) + ([seg] + ([".."] + Split(y))) == Split(x) + [seg, ".."] + Split(y);
  }

  /** Empty segments and "." are dropped. */
  lemma DotDrops(x: string, seg: string, y: string)
    requires seg == "" || seg == "."
    ensures Clean(x + ("/" + (seg + ("/" + y)))) == Clean(x + ("/" + y))
  {
    hide Split, Resolve;
    SplitAt(x, seg + ("/" + y));
    SplitAt(seg, y);
    SplitAt(x, y);
    SplitPlain(seg);
    forall done ensures Resolve([seg], done) == done { NothingResolves(seg, done); }
    Dropped(Split(x), [seg], Split(y));
    assert Split(x) + ([seg] + Split(y)) == Split(x) + [seg] + Split(y);
  }

  /** The root has no parent. */
  lemma UpFromRoot(y: string)
    ensures Clean("/.." + ("/" + y)) == Clean("/" + y)
  {
    SplitAt("/..", y);
    SplitSlash("..");
    SplitPlain("..");
    SplitSlash(y);
    hide Split;
    assert "/" + ".." == "/..";
    assert ["", ".."][1..] == [".."] && [".."][1..] == [] && [""][1..] == [];
    ResolveJoin(["", ".."], Split(y), []);
    ResolveJoin([""], Split(y), []);
    assert [""] + [".."] == ["", ".."];
  }

  /** So the server resolves ".." in what it is given, */
  lemma ValidateUp(x: string, seg: string, y: string)
    requires GoodSegment(seg) && NoneOf(seg, '\0') && NoneOf(seg, '\\')
    ensures ValidateRel(x + ("/" + (seg + ("/" + (".." + ("/" + y)))))) == ValidateRel(x + ("/" + y))
  {
    hide Clean, Lower, Contains, Split;
    var up := x + ("/" + (seg + ("/" + (".." + ("/" + y)))));
    UpDrops("/" + x, seg, y);
    assert "/" + up == ("/" + x) + ("/" + (seg + ("/" + (".." + ("/" + y)))));
    assert "/" + (x + ("/" + y)) == ("/" + x) + ("/" + y);
    SameCharacters(x, seg, y, '\0');
    SameCharacters(x, seg, y, '\\');
  }

  /** and never above the root. */
  lemma ValidateUpFromRoot(y: string)
    ensures ValidateRel("/.." + ("/" + y)) == ValidateRel("/" + y)
  {
    hide Clean, Lower, Contains, Split;
    var up := "/.." + ("/" + y);
    DotDrops("", "", ".." + ("/" + y));
    DotDrops("", "", y);
    UpFromRoot(y);
    assert "" + ("/" + ("" + ("/" + (".." + ("/" + y))))) == "/" + up;
    assert "" + ("/" + (".." + ("/" + y))) == up;
    assert "" + ("/" + ("" + ("/" + y))) == "/" + ("/" + y);
    assert "" + ("/" + y) == "/" + y;
    RootCharacters(y, '\0');
    RootCharacters(y, '\\');
  }

  lemma SameCharacters(x: string, seg: string, y: string, c: char)
    requires NoneOf(seg, c) && c != '/' && c != '.'
    ensures NoneOf(x + ("/" + (seg + ("/" + (".." + ("/" + y))))), c) <==> NoneOf(x + ("/" + y), c)
  {
    JoinedCharacters(x, seg + ("/" + (".." + ("/" + y))), c);
    JoinedCharacters(seg, ".." + ("/" + y), c);
    JoinedCharacters("..", y, c);
    JoinedCharacters(x, y, c);
  }

  lemma RootCharacters(y: string, c: char)
    requires c != '/' && c != '.'
    ensures NoneOf("/.." + ("/" + y), c) <==> NoneOf("/" + y, c)
  {
    JoinedCharacters("/..", y, c);
    JoinedCharacters("", y, c);
    assert "" + ("/" + y) == "/" + y;
  }

  lemma JoinedCharacters(a: string, b: string, c: char)
    requires c != '/'
    ensures NoneOf(a + ("/" + b), c) <==> NoneOf(a, c) && NoneOf(b, c)
  {
    var s := a + ("/" + b);
    assert forall i :: 0 <= i < |a| ==> s[i] == a[i];
    assert forall i :: 0 <= i < |b| ==> b[i] == s[|a| + 1 + i];
  }

  // ---- what is accepted ----

  /** A percent sign at `i` begins an encoded slash, backslash or dot. */
  predicate EncodedAt(p: string, i: nat) {
    i + 2 < |p| && p[i] == '%' &&
    ((p[i + 1] == '2' && p[i + 2] in "fFeE") || (p[i + 1] == '5' && p[i + 2] in "cC"))
  }

  lemma {:induction false} ContainsIff(s: string, part: string)
    requires part != ""
    ensures Contains(s, part) <==> exists i :: 0 <= i <= |s| - |part| && part <= s[i..]
  {
    if part <= s {
      assert s[0..] == s;
    } else if s != "" {
      ContainsIff(s[1..], part);
      forall i | 0 <= i <= |s[1..]| - |part| ensures s[1..][i..] == s[i + 1..] {}
      if i :| 0 <= i <= |s| - |part| && part <= s[i..] {
        assert s[0..] == s;
        assert s[1..][i - 1..] == s[i..];
      }
    }
  }

  lemma {:induction false} LowerIs(s: string)
    ensures |Lower(s)| == |s|
    ensures forall i :: 0 <= i < |s| ==>
      Lower(s)[i] == if 'A' <= s[i] <= 'Z' then (s[i] as int + 32) as char else s[i]
  {
    if s != "" { LowerIs(s[1..]); }
  }

  lemma ThreeAt(s: string, i: nat, a: char, b: char, c: char)
    requires i + 2 < |s|
    ensures [a, b, c] <= s[i..] <==> s[i] == a && s[i + 1] == b && s[i + 2] == c
  {
    assert s[i..][0] == s[i] && s[i..][1] == s[i + 1] && s[i..][2] == s[i + 2];
  }

  lemma EncodedBelow(p: string, i: nat)
    requires i + 2 < |p|
    ensures var low := Lower(p);
      |low| == |p| && (EncodedAt(p, i) <==>
        ['%', '2', 'f'] <= low[i..] || ['%', '5', 'c'] <= low[i..] || ['%', '2', 'e'] <= low[i..])
  {
    hide Lower;
    LowerIs(p);
    ThreeAt(Lower(p), i, '%', '2', 'f');
    ThreeAt(Lower(p), i, '%', '5', 'c');
    ThreeAt(Lower(p), i, '%', '2', 'e');
  }

  lemma EncodedIff(p: string)
    ensures Contains(Lower(p), "%2f") || Contains(Lower(p), "%5c") || Contains(Lower(p), "%2e") <==>
            exists i :: 0 <= i < |p| && EncodedAt(p, i)
  {
    hide Lower, Contains, EncodedAt;
    var low := Lower(p);
    var f, c, e := ['%', '2', 'f'], ['%', '5', 'c'], ['%', '2', 'e'];
    assert f == "%2f" && c == "%5c" && e == "%2e";
    LowerIs(p);
    ContainsIff(low, f);
    ContainsIff(low, c);
    ContainsIff(low, e);
    forall i | 0 <= i < |p| - 2 ensures EncodedAt(p, i) <==> f <= low[i..] || c <= low[i..] || e <= low[i..] {
      EncodedBelow(p, i);
    }
    forall i: nat ensures EncodedAt(p, i) ==> i < |p| - 2 { EncodedFits(p, i); }
  }

  lemma EncodedFits(p: string, i: nat)
    ensures EncodedAt(p, i) ==> i + 2 < |p|
  {
  }

  /**
   A clean path is accepted if and only if it has no NUL, backslash or encoded
   separator or dot, and neither it nor one of its segments is too long.
   */
  lemma AcceptedIff(p: string)
    requires CleanPath(p)
    ensures ValidateRel(p) == Ok(p) <==>
      && NoneOf(p, '\0') && NoneOf(p, '\\') && |p| <= 4096 && (forall seg :: seg in Split(p) ==> |seg| <= 255)
      && !exists i :: 0 <= i < |p| && EncodedAt(p, i)
  {
    var segs :| GoodSegments(segs) && p == Rooted(segs);
    CleanRooted(segs);
    EncodedIff(p);
    hide Clean, Lower, Contains, Split, EncodedAt;
    assert p != "";
  }
}
