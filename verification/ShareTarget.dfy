/** What a visitor of a share asks for, and whether the links a share page emits come back to the same entry. */
module ShareTarget {
  import opened LikePattern
  import opened LogicalPath
  import opened Strings
  import opened Wrappers

  datatype Target = Refused | At(full: string, sub: string)

  predicate HasDotDot(p: string) {
    ".." in Split(p)
  }

  predicate Contained(root: string, full: string) {
    full == root || HasPrefix(full, root + "/")
  }

  function Guarded(root: string, full: string, sub: string): Target {
    if Contained(root, full) then At(full, sub) else Refused
  }

  /** `rawPath` is a whole logical path, `rawSub` one relative to the share. */
  function Resolved(root: string, rawPath: string, rawSub: string): Target {
    if rawPath != "" then
      if HasDotDot(rawPath) then Refused
      else
        match ValidateRel(rawPath)
        case Err(_) => Refused
        case Ok(v) => Guarded(root, v, TrimPrefix(v, root))
    else if rawSub != "" then
      if HasDotDot(rawSub) then Refused
      else
        match ValidateRel(rawSub)
        case Err(_) => Refused
        case Ok(v) =>
          if v == "/" then Guarded(root, root, "")
          else if Contained(root, v) then Guarded(root, v, TrimPrefix(v, root))
          else Guarded(root, root + v, v)
    else At(root, "")
  }

  /** A share is created at an accepted path below the root. */
  predicate ShareRoot(root: string) {
    ValidateRel(root) == Ok(root) && root != "/"
  }

  /** Whatever is asked for, the answer is at or under the share, clean, and the share's path plus `sub`. */
  lemma TargetIsContained(root: string, rawPath: string, rawSub: string)
    requires ShareRoot(root)
    ensures var t := Resolved(root, rawPath, rawSub);
      t.At? ==>
        && t.full == root + t.sub && Contained(root, t.full) && CleanPath(t.full)
        && (t.sub == "" || t.sub[0] == '/')
  {
    hide ValidateRel, CleanPath, HasPrefix, TrimPrefix, HasDotDot;
    AcceptedIsNormal(root);
    assert root + "" == root;
    if rawPath != "" {
      if ValidateRel(rawPath).Ok? { AcceptedBelow(root, rawPath); }
    } else if rawSub != "" {
      if ValidateRel(rawSub).Ok? { AcceptedBelow(root, rawSub); }
    }
  }

  /**
   A visitor who asks for nothing gets the share. One who gives a whole path gets
   what that names, at or under the share; one who gives a path within the share
   gets the share for "/", a path already at or under it as it is, and otherwise
   what lies there below it. All else is refused, and ".." always.
   */
  lemma AnsweredIff(root: string, rawPath: string, rawSub: string)
    requires ShareRoot(root)
    ensures rawPath == "" && rawSub == "" ==> Resolved(root, rawPath, rawSub) == At(root, "")
    ensures rawPath != "" ==>
      var t, v := Resolved(root, rawPath, rawSub), ValidateRel(rawPath);
      && (t.At? <==> ".." !in Split(rawPath) && v.Ok? && Under(root, v.value))
      && (t.At? ==> t.full == v.value)
    ensures rawPath == "" && rawSub != "" ==>
      var t, v := Resolved(root, rawPath, rawSub), ValidateRel(rawSub);
      && (t.At? <==> ".." !in Split(rawSub) && v.Ok?)
      && (t.At? ==> t.full == if v.value == "/" then root else if Under(root, v.value) then v.value else root + v.value)
  {
    hide ValidateRel, CleanPath, TrimPrefix;
    AcceptedIsNormal(root);
    if rawPath == "" && rawSub != "" && ValidateRel(rawSub).Ok? {
      AcceptedBelow(root, rawSub);
      BelowRoot(root, ValidateRel(rawSub).value);
    }
  }

  lemma BelowRoot(root: string, v: string)
    ensures v != "" && v[0] == '/' ==> Contained(root, root + v)
  {
    if v != "" && v[0] == '/' { assert (root + v)[..|root| + 1] == root + "/"; }
  }

  lemma AcceptedBelow(root: string, raw: string)
    requires ShareRoot(root) && ValidateRel(raw).Ok?
    ensures var v := ValidateRel(raw).value;
      && CleanPath(v) && CleanPath(root)
      && (Contained(root, v) ==>
            v == root + TrimPrefix(v, root) && (TrimPrefix(v, root) == "" || TrimPrefix(v, root)[0] == '/'))
      && (v != "/" ==> CleanPath(root + v) && v != "" && v[0] == '/')
  {
    hide ValidateRel, CleanPath, TrimPrefix;
    var v := ValidateRel(raw).value;
    AcceptedIsNormal(root);
    AcceptedIsNormal(raw);
    AtOrBelow(root, v);
    if v != "/" { ConcatClean(root, v); RelShape(v); }
  }

  lemma AtOrBelow(root: string, v: string)
    ensures Contained(root, v) ==> v == root + TrimPrefix(v, root) && (v != root ==> TrimPrefix(v, root)[0] == '/')
    ensures v == root ==> TrimPrefix(v, root) == ""
  {
    if HasPrefix(v, root + "/") {
      assert v[..|root|] == (root + "/")[..|root|] == root;
      assert v[|root|] == (root + "/")[|root|] == '/';
    }
  }

  // ---- the links of a share page ----

  lemma {:induction false} LowerConcat(a: string, b: string)
    ensures Lower(a + b) == Lower(a) + Lower(b)
  {
    if a == "" {
      assert a + b == b;
    } else {
      assert (a + b)[0] == a[0] && (a + b)[1..] == a[1..] + b;
      LowerConcat(a[1..], b);
      assert Lower(a + b) == Lower([a[0]]) + Lower(a[1..] + b) by { LowerHead(a + b); }
      LowerHead(a);
    }
  }

  lemma LowerHead(s: string)
    requires s != ""
    ensures Lower(s) == Lower([s[0]]) + Lower(s[1..])
  {
    assert [s[0]][1..] == "";
    assert Lower([s[0]]) == [Lower(s)[0]];
  }

  lemma {:induction false} ContainsLater(a: string, b: string, part: string)
    requires Contains(b, part)
    ensures Contains(a + b, part)
  {
    if a == "" {
      assert a + b == b;
    } else {
      ContainsLater(a[1..], b, part);
      assert (a + b)[1..] == a[1..] + b;
    }
  }

  lemma TailContains(a: string, b: string, part: string)
    requires !Contains(Lower(a + b), part)
    ensures !Contains(Lower(b), part)
  {
    LowerConcat(a, b);
    if Contains(Lower(b), part) { ContainsLater(Lower(a), Lower(b), part); }
  }

  lemma AcceptedIs(p: string)
    requires CleanPath(p) && p != ""
    ensures ValidateRel(p) == Ok(p) <==>
      && NoneOf(p, '\0') && NoneOf(p, '\\') && |p| <= 4096
      && !Contains(Lower(p), "%2f") && !Contains(Lower(p), "%5c") && !Contains(Lower(p), "%2e")
      && forall seg :: seg in Split(p) ==> |seg| <= 255
  {
    var segs :| GoodSegments(segs) && p == Rooted(segs);
    CleanRooted(segs);
    hide Clean, Rooted, Contains, Lower, Split;
  }

  /** The tail of an accepted path below `root` is itself accepted. */
  lemma TailAccepted(root: string, e: string)
    requires ShareRoot(root) && ValidateRel(e) == Ok(e) && HasPrefix(e, root + "/")
    ensures ValidateRel(TrimPrefix(e, root)) == Ok(TrimPrefix(e, root)) && Rel(TrimPrefix(e, root))
  {
    hide ValidateRel, Contains, Lower, Split, CleanPath, TrimPrefix;
    AcceptedIsNormal(root);
    AcceptedIsNormal(e);
    TailIsRel(root, e);
    var sub := TrimPrefix(e, root);
    AtOrBelow(root, e);
    RelShape(sub);
    AcceptedIs(e);
    TailContains(root, sub, "%2f");
    TailContains(root, sub, "%5c");
    TailContains(root, sub, "%2e");
    TailSegments(root, sub);
    assert e == root + sub;
    assert NoneOf(sub, '\0') && NoneOf(sub, '\\') by { assert forall i :: 0 <= i < |sub| ==> sub[i] == e[|root| + i]; }
    forall seg | seg in Split(sub) ensures |seg| <= 255 {
      assert seg == "" || seg in Split(e);
    }
    AcceptedIs(sub);
  }

  lemma TailSegments(root: string, sub: string)
    requires ShareRoot(root) && sub != "" && sub[0] == '/'
    ensures forall seg :: seg in Split(sub) ==> seg == "" || seg in Split(root + sub)
  {
    AcceptedIsNormal(root);
    var a :| GoodSegments(a) && root == Rooted(a);
    var t := sub[1..];
    assert sub == "/" + t && root + sub == Render(a) + ("/" + t);
    SplitRenderThen(a, t);
    SplitSlash(t);
  }

  lemma GoodHasNoDotDot(p: string)
    requires Rel(p)
    ensures !HasDotDot(p)
  {
    var segs :| GoodSegments(segs) && p == Rooted(segs);
    SplitRender(segs);
    hide Split, Render;
    forall i | 0 <= i < |Split(p)| ensures Split(p)[i] != ".." {
      if i > 0 { assert Split(p)[i] == segs[i - 1]; }
    }
  }

  /**
   Feeding back the link of an entry returns that entry if and only if the link
   is not itself at or under the share's path.
   */
  lemma LinkRoundTrip(root: string, e: string)
    requires ShareRoot(root) && ValidateRel(e) == Ok(e) && HasPrefix(e, root + "/")
    ensures var sub := TrimPrefix(e, root);
      && (Resolved(root, "", sub) == At(e, sub) <==> !Contained(root, sub))
      && (Contained(root, sub) ==> Resolved(root, "", sub) == At(sub, TrimPrefix(sub, root)) && sub != e)
  {
    var sub := TrimPrefix(e, root);
    TailAccepted(root, e);
    GoodHasNoDotDot(sub);
    RelShape(sub);
    AtOrBelow(root, e);
    hide ValidateRel, HasDotDot;
    assert |sub| < |e|;
  }

  /** A whole path at or under the share always resolves to itself. */
  lemma PathRoundTrip(root: string, e: string)
    requires ShareRoot(root) && ValidateRel(e) == Ok(e) && Contained(root, e)
    ensures Resolved(root, e, "") == At(e, TrimPrefix(e, root))
  {
    AcceptedIsNormal(e);
    AcceptedIsNormal(root);
    AtOrBelow(root, e);
    if e != root { TailIsRel(root, e); TailAccepted(root, e); }
    assert Rel(e) by { BelowIsNotRoot(root, e); }
    GoodHasNoDotDot(e);
    hide ValidateRel, HasDotDot;
  }

  lemma BelowIsNotRoot(root: string, e: string)
    requires ShareRoot(root) && Contained(root, e)
    ensures e != "/"
  {
    AcceptedIsNormal(root);
    RelShape(root);
    hide ValidateRel;
    assert |root + "/"| > 1;
  }

  /** The exception: in a share "/a" that holds "/a/a", the entry's link leads back to the share itself. */
  lemma NestedNamesake()
    ensures ShareRoot("/a") && ValidateRel("/a/a") == Ok("/a/a") && HasPrefix("/a/a", "/a" + "/")
    ensures TrimPrefix("/a/a", "/a") == "/a" && Resolved("/a", "", "/a") == At("/a", "")
  {
    hide ValidateRel, Resolved, HasDotDot, Contains;
    assert ["a", "a"][1..] == ["a"] && ["a"][1..] == [];
    assert Render(["a"]) == "/" + "a" + Render(["a"][1..]);
    assert Render(["a", "a"]) == "/" + "a" + Render(["a", "a"][1..]);
    NamesakeAccepted(["a"], "/a");
    NamesakeAccepted(["a", "a"], "/a/a");
    LinkRoundTrip("/a", "/a/a");
    assert TrimPrefix("/a", "/a") == "";
  }

  lemma NamesakeAccepted(segs: seq<string>, p: string)
    requires GoodSegments(segs) && p == Rooted(segs) && |p| <= 255 && forall i :: 0 <= i < |p| ==> p[i] in "/a"
    ensures ValidateRel(p) == Ok(p)
  {
    hide ValidateRel, Rooted;
    ValidatePlain(p);
  }
}
