/** Validation and arithmetic of drive-relative paths. */
module LogicalPath {
  import opened Strings
  import opened Wrappers

  datatype FsError = Invalid | NotFound | Exists | Conflict | Io

  // ---- splitting and cleaning ----

  /** `strings.Split(s, "/")`. */
  function Split(s: string): (segs: seq<string>)
    ensures segs != []
    ensures forall i :: 0 <= i < |segs| ==> NoneOf(segs[i], '/')
  {
    if s == "" then [""]
    else
      var rest := Split(s[1..]);
      if s[0] == '/' then [""] + rest else [[s[0]] + rest[0]] + rest[1..]
  }

  /** The absolute path of a list of segments, "" for none. */
  function Render(segs: seq<string>): string {
    if segs == [] then "" else "/" + segs[0] + Render(segs[1..])
  }

  function Rooted(segs: seq<string>): string {
    if segs == [] then "/" else Render(segs)
  }

  /** Drops "" and ".", and lets ".." remove the segment before it. */
  function Resolve(segs: seq<string>, done: seq<string>): seq<string>
    decreases |segs|
  {
    if segs == [] then done
    else if segs[0] == "" || segs[0] == "." then Resolve(segs[1..], done)
    else if segs[0] == ".." then Resolve(segs[1..], if done == [] then [] else done[..|done| - 1])
    else Resolve(segs[1..], done + [segs[0]])
  }

  /** `filepath.Clean` on a path that starts with "/". */
  function Clean(path: string): string {
    Rooted(Resolve(Split(path), []))
  }

  function Lower(s: string): string {
    if s == "" then ""
    else [if 'A' <= s[0] <= 'Z' then (s[0] as int + 32) as char else s[0]] + Lower(s[1..])
  }

  function ValidateRel(rel: string): Result<string, FsError> {
    if !NoneOf(rel, '\0') then Err(Invalid)
    else if rel == "" then Ok("/")
    else if !NoneOf(rel, '\\') then Err(Invalid)
    else
      var clean := Clean("/" + rel);
      var lower := Lower(clean);
      if Contains(lower, "%2f") || Contains(lower, "%5c") || Contains(lower, "%2e") then Err(Invalid)
      else if exists seg :: seg in Split(clean) && |seg| > 255 then Err(Invalid)
      else if |clean| > 4096 then Err(Invalid)
      else Ok(clean)
  }

  predicate GoodSegment(seg: string) {
    seg != "" && seg != "." && seg != ".." && NoneOf(seg, '/')
  }

  predicate GoodSegments(segs: seq<string>) {
    forall i :: 0 <= i < |segs| ==> GoodSegment(segs[i])
  }

  /** The path of a list of good segments: what cleaning would leave alone. */
  ghost predicate CleanPath(path: string) {
    exists segs :: GoodSegments(segs) && path == Rooted(segs)
  }

  /** In normal form: clean, without NUL or backslash. */
  ghost predicate Normal(path: string) {
    CleanPath(path) && NoneOf(path, '\0') && NoneOf(path, '\\')
  }

  // ---- lemmas about cleaning ----

  lemma {:induction false} SplitPrefix(seg: string, tail: string)
    requires NoneOf(seg, '/')
    ensures Split(seg + "/" + tail) == [seg] + Split(tail)
  {
    if seg == "" {
      assert ("/" + tail)[1..] == tail;
      assert seg + "/" + tail == "/" + tail;
    } else {
      SplitPrefix(seg[1..], tail);
      assert NoneOf(seg[1..], '/');
      assert (seg + "/" + tail)[1..] == seg[1..] + "/" + tail;
      assert [seg[0]] + seg[1..] == seg;
      assert ([seg[1..]] + Split(tail))[1..] == Split(tail);
    }
  }

  lemma {:induction false} SplitPlain(seg: string)
    requires NoneOf(seg, '/')
    ensures Split(seg) == [seg]
  {
    if seg != "" {
      assert NoneOf(seg[1..], '/');
      SplitPlain(seg[1..]);
      assert [seg[0]] + seg[1..] == seg;
    }
  }

  lemma SplitSegment(seg: string, x: string)
    requires NoneOf(seg, '/')
    ensures Split("/" + seg + ("/" + x)) == ["", seg] + Split(x)
  {
    SplitSlash(seg + "/" + x);
    assert "/" + seg + ("/" + x) == "/" + (seg + "/" + x);
    SplitPrefix(seg, x);
  }

  lemma {:induction false} SplitRenderThen(segs: seq<string>, tail: string)
    requires GoodSegments(segs)
    ensures Split(Render(segs) + ("/" + tail)) == [""] + segs + Split(tail)
  {
    if segs == [] {
      SplitSlash(tail);
      assert Render(segs) + ("/" + tail) == "/" + tail;
      assert [""] + segs == [""];
    } else {
      var more := Render(segs[1..]) + ("/" + tail);
      var x := more[1..];
      assert more == "/" + x;
      assert Split(x) == segs[1..] + Split(tail) by {
        SplitRenderThen(segs[1..], tail);
        SplitSlash(x);
        assert ([""] + segs[1..] + Split(tail))[1..] == segs[1..] + Split(tail);
      }
      assert Render(segs) + ("/" + tail) == "/" + segs[0] + ("/" + x) by {
        RenderHead(segs, "/" + tail);
      }
      SplitSegment(segs[0], x);
      ConsAppend(segs, Split(tail));
    }
  }

  lemma RenderHead(segs: seq<string>, rest: string)
    requires segs != []
    ensures Render(segs) + rest == "/" + segs[0] + (Render(segs[1..]) + rest)
  {
  }

  lemma ConsAppend(segs: seq<string>, more: seq<string>)
    requires segs != []
    ensures ["", segs[0]] + (segs[1..] + more) == [""] + segs + more
  {
  }

  lemma SplitSlash(tail: string)
    ensures Split("/" + tail) == [""] + Split(tail)
  {
    assert ("/" + tail)[1..] == tail;
  }

  lemma SplitRender(segs: seq<string>)
    requires segs != [] && GoodSegments(segs)
    ensures Split(Render(segs)) == [""] + segs
  {
    var init, last := segs[..|segs| - 1], segs[|segs| - 1];
    assert segs == init + [last];
    RenderAppend(init, [last]);
    assert Render(segs) == Render(init) + ("/" + last);
    SplitRenderThen(init, last);
    SplitPlain(last);
  }

  lemma {:induction false} SplitChars(s: string, c: char)
    requires c !in s
    ensures forall i :: 0 <= i < |Split(s)| ==> c !in Split(s)[i]
  {
    if s != "" {
      SplitChars(s[1..], c);
    }
  }

  lemma {:induction false} ResolveGood(segs: seq<string>, done: seq<string>)
    requires GoodSegments(segs)
    ensures Resolve(segs, done) == done + segs
    decreases |segs|
  {
    if segs != [] {
      ResolveGood(segs[1..], done + [segs[0]]);
    }
  }

  lemma {:induction false} ResolveIsGood(segs: seq<string>, done: seq<string>)
    requires GoodSegments(done)
    requires forall i :: 0 <= i < |segs| ==> NoneOf(segs[i], '/')
    ensures GoodSegments(Resolve(segs, done))
    ensures forall i :: 0 <= i < |Resolve(segs, done)| ==> Resolve(segs, done)[i] in segs + done
    decreases |segs|
  {
    if segs != [] {
      var next := if segs[0] == "" || segs[0] == "." then done
                  else if segs[0] == ".." then if done == [] then [] else done[..|done| - 1]
                  else done + [segs[0]];
      ResolveIsGood(segs[1..], next);
      assert forall x :: x in segs[1..] + next ==> x in segs + done;
    }
  }

  /** Cleaning leaves the path of good segments as it is, with or without a second slash. */
  lemma CleanRooted(segs: seq<string>)
    requires GoodSegments(segs)
    ensures Clean(Rooted(segs)) == Rooted(segs)
    ensures Clean("/" + Rooted(segs)) == Rooted(segs)
  {
    if segs == [] {
      assert Split("/") == ["", ""] by { assert "/"[1..] == ""; }
      assert Split("//") == ["", "", ""] by { assert "//"[1..] == "/"; }
      assert Resolve(["", ""], []) == Resolve([""], []) == Resolve([], []);
      assert Resolve(["", "", ""], []) == Resolve(["", ""], []);
    } else {
      SplitRender(segs);
      assert ([""] + segs)[1..] == segs;
      ResolveGood(segs, []);
      assert ("/" + Render(segs))[1..] == Render(segs);
      assert ([""] + ([""] + segs))[1..] == [""] + segs;
      assert Resolve([""] + ([""] + segs), []) == Resolve([""] + segs, []) == Resolve(segs, []);
      assert [] + segs == segs;
    }
  }

  lemma {:induction false} RenderChars(segs: seq<string>, c: char)
    requires c != '/' && forall i :: 0 <= i < |segs| ==> NoneOf(segs[i], c)
    ensures NoneOf(Render(segs), c)
  {
    if segs != [] {
      RenderChars(segs[1..], c);
    }
  }

  lemma CleanChars(path: string, c: char)
    requires c != '/' && NoneOf(path, c)
    ensures NoneOf(Clean(path), c)
  {
    var segs := Split(path);
    ResolveIsGood(segs, []);
    var out := Resolve(segs, []);
    forall i | 0 <= i < |out| ensures NoneOf(out[i], c) {
      SplitChars(path, c);
      assert out[i] in segs + [];
    }
    RenderChars(out, c);
  }

  /** Every accepted path is in normal form. */
  lemma AcceptedIsNormal(rel: string)
    requires ValidateRel(rel).Ok?
    ensures Normal(ValidateRel(rel).value)
  {
    if rel == "" {
      assert GoodSegments([]) && "/" == Rooted([]);
    } else {
      var segs := Resolve(Split("/" + rel), []);
      ResolveIsGood(Split("/" + rel), []);
      assert GoodSegments(segs) && Clean("/" + rel) == Rooted(segs);
      CleanChars("/" + rel, '\0');
      CleanChars("/" + rel, '\\');
    }
  }

  /** Validation is the identity on its own results. */
  lemma ValidateFixesAccepted(rel: string)
    requires ValidateRel(rel).Ok?
    ensures ValidateRel(ValidateRel(rel).value) == ValidateRel(rel)
  {
    var v := ValidateRel(rel).value;
    AcceptedIsNormal(rel);
    var segs :| GoodSegments(segs) && v == Rooted(segs);
    CleanRooted(segs);
    if rel == "" {
      assert Clean("//") == "/";
      assert Lower("/") == "/" by { assert "/"[1..] == ""; }
      assert Split("/") == ["", ""] by { assert "/"[1..] == ""; }
      assert !Contains("/", "%2f") && !Contains("/", "%5c") && !Contains("/", "%2e") by {
        assert "/"[1..] == "";
      }
    }
  }

  /** A clean path is either accepted unchanged or rejected, never rewritten. */
  lemma ValidateClean(path: string)
    requires CleanPath(path)
    ensures ValidateRel(path) in {Ok(path), Err(Invalid)}
  {
    var segs :| GoodSegments(segs) && path == Rooted(segs);
    CleanRooted(segs);
  }

  lemma {:induction false} ContainsNeedsHead(s: string, part: string)
    requires part != "" && part[0] !in s
    ensures !Contains(s, part)
  {
    if s != "" {
      ContainsNeedsHead(s[1..], part);
    }
  }

  lemma {:induction false} LowerKeepsOut(s: string)
    requires '%' !in s
    ensures '%' !in Lower(s)
  {
    if s != "" {
      LowerKeepsOut(s[1..]);
    }
  }

  lemma {:induction false} SplitShortens(s: string)
    ensures forall seg :: seg in Split(s) ==> |seg| <= |s|
  {
    if s != "" {
      SplitShortens(s[1..]);
      var rest := Split(s[1..]);
      assert rest[0] in rest;
    }
  }

  /** Short normal paths without a percent sign are accepted as they are. */
  lemma ValidatePlain(path: string)
    requires Normal(path) && '%' !in path && |path| <= 255
    ensures ValidateRel(path) == Ok(path)
  {
    ValidateClean(path);
    LowerKeepsOut(path);
    ContainsNeedsHead(Lower(path), "%2f");
    ContainsNeedsHead(Lower(path), "%5c");
    ContainsNeedsHead(Lower(path), "%2e");
    SplitShortens(path);
    var segs :| GoodSegments(segs) && path == Rooted(segs);
    CleanRooted(segs);
  }

  // ---- parents, names, joining ----

  /** `filepath.Base` of a path without trailing slashes. */
  function NameOf(logical: string): string {
    if logical == "/" then "" else logical[LastIndex(logical, '/') + 1..]
  }

  /** `filepath.Dir`, with "." read as the root. */
  function ParentOf(logical: string): string {
    if logical == "/" then "/"
    else
      var slash := LastIndex(logical, '/');
      if slash < 0 then "/" else Clean(logical[..slash + 1])
  }

  function Child(dir: string, name: string): string {
    if dir == "/" then "/" + name else dir + "/" + name
  }

  function JoinPath(dir: string, name: string): Result<string, FsError> {
    if !NoneOf(name, '/') || !NoneOf(name, '\\') || name == "." || name == ".." || !NoneOf(name, '\0') || name == ""
    then Err(Invalid)
    else Ok(Child(dir, name))
  }

  predicate ValidName(name: string) {
    && name != "" && name != "." && name != ".." && |name| <= 255
    && NoneOf(name, '/') && NoneOf(name, '\\') && NoneOf(name, '\0')
    && !HasSuffix(name, " ") && !HasSuffix(name, ".")
  }

  lemma {:induction false} RenderAppend(a: seq<string>, b: seq<string>)
    ensures Render(a + b) == Render(a) + Render(b)
  {
    if a == [] {
      assert a + b == b;
    } else {
      RenderAppend(a[1..], b);
      assert (a + b)[1..] == a[1..] + b;
    }
  }

  lemma RenderLast(segs: seq<string>)
    requires segs != [] && GoodSegments(segs)
    ensures Rooted(segs) == Child(Rooted(segs[..|segs| - 1]), segs[|segs| - 1])
    ensures LastIndex(Rooted(segs), '/') == |Rooted(segs)| - |segs[|segs| - 1]| - 1
  {
    var init, last := segs[..|segs| - 1], segs[|segs| - 1];
    RenderAppend(init, [last]);
    assert segs == init + [last];
    assert Render([last]) == "/" + last;
    var p := Rooted(segs);
    assert p == Render(init) + "/" + last;
    if init != [] {
      assert Render(init)[0] == '/';
      assert Rooted(init) == Render(init) && GoodSegments(init);
      assert Rooted(init) != "/" by {
        assert |Render(init)| >= 1 + |init[0]|;
      }
    }
    LastIndexUnique(p, '/', |p| - |last| - 1);
  }

  lemma PartsOf(segs: seq<string>)
    requires segs != [] && GoodSegments(segs)
    ensures NameOf(Rooted(segs)) == segs[|segs| - 1]
    ensures ParentOf(Rooted(segs)) == Rooted(segs[..|segs| - 1])
  {
    var init, last := segs[..|segs| - 1], segs[|segs| - 1];
    var path := Rooted(segs);
    RenderLast(segs);
    assert last != "" by { assert GoodSegment(last); }
    assert |path| >= 1 + |last|;
    RenderAppend(init, [last]);
    assert segs == init + [last] && Render([last]) == "/" + last;
    assert path == Render(init) + "/" + last;
    assert path[..LastIndex(path, '/') + 1] == Render(init) + "/";
    CleanTrailing(init);
  }

  /** A normal path other than the root is its parent joined with its name. */
  lemma JoinOfParts(path: string)
    requires Normal(path) && path != "/"
    ensures JoinPath(ParentOf(path), NameOf(path)) == Ok(path)
    ensures path == Child(ParentOf(path), NameOf(path)) && GoodSegment(NameOf(path))
  {
    var segs :| GoodSegments(segs) && path == Rooted(segs);
    RenderLast(segs);
    PartsOf(segs);
    assert GoodSegment(segs[|segs| - 1]);
  }

  lemma CleanTrailing(segs: seq<string>)
    requires GoodSegments(segs)
    ensures Clean(Render(segs) + "/") == Rooted(segs)
  {
    SplitRenderThen(segs, "");
    assert "/" + "" == "/";
    ResolveTrailing(segs);
  }

  lemma ResolveTrailing(segs: seq<string>)
    requires GoodSegments(segs)
    ensures Resolve([""] + segs + [""], []) == segs
  {
    assert ([""] + segs + [""])[1..] == segs + [""];
    ResolveThenEmpty(segs, []);
  }

  lemma {:induction false} ResolveThenEmpty(segs: seq<string>, done: seq<string>)
    requires GoodSegments(segs)
    ensures Resolve(segs + [""], done) == done + segs
    decreases |segs|
  {
    if segs == [] {
      assert (segs + [""])[1..] == [];
    } else {
      ResolveThenEmpty(segs[1..], done + [segs[0]]);
      assert (segs + [""])[1..] == segs[1..] + [""];
    }
  }

  // ---- clean paths below the root ----

  /** A clean path other than the root. */
  ghost predicate Rel(p: string) {
    CleanPath(p) && p != "/"
  }

  lemma RenderFront(segs: seq<string>)
    requires segs != []
    ensures Render(segs) != "" && Render(segs)[0] == '/'
  {
  }

  lemma RelShape(p: string)
    requires Rel(p)
    ensures p != "" && p[0] == '/'
  {
    var segs :| GoodSegments(segs) && p == Rooted(segs);
    RenderFront(segs);
  }

  /** One clean path hung below another is clean. */
  lemma ConcatClean(a: string, b: string)
    requires Rel(a) && Rel(b)
    ensures Rel(a + b)
  {
    var x :| GoodSegments(x) && a == Rooted(x);
    var y :| GoodSegments(y) && b == Rooted(y);
    RenderAppend(x, y);
    RenderFront(x);
    RenderFront(y);
    hide Render;
    assert Rooted(x + y) == a + b;
    assert GoodSegments(x + y);
  }

  /** The segments after those of a prefix are the segments of the tail. */
  lemma TailSplits(a: seq<string>, c: seq<string>, t: string)
    requires GoodSegments(a) && GoodSegments(c) && c != [] && Render(c) == Render(a) + ("/" + t)
    ensures c == a + Split(t) && GoodSegments(Split(t)) && Render(Split(t)) == "/" + t
  {
    hide Render, Split, GoodSegment;
    SplitRenderThen(a, t);
    SplitRender(c);
    var b := Split(t);
    assert c == ([""] + c)[1..] == ([""] + a + b)[1..] == a + b;
    forall i | 0 <= i < |b| ensures GoodSegment(b[i]) { assert b[i] == c[|a| + i]; }
    RenderAppend(a, b);
    assert Render(b) == (Render(a) + Render(b))[|Render(a)|..] == (Render(a) + ("/" + t))[|Render(a)|..];
  }

  lemma GoodIsNotRoot(segs: seq<string>)
    requires segs != [] && GoodSegments(segs)
    ensures Rooted(segs) != "/"
  {
    RenderLast(segs);
    hide Render;
    assert segs[|segs| - 1] != "";
  }

  /** What is left of a clean path below a prefix of it is clean. */
  lemma TailIsRel(dir: string, p: string)
    requires Rel(dir) && CleanPath(p) && HasPrefix(p, dir + "/")
    ensures Rel(TrimPrefix(p, dir)) && dir + TrimPrefix(p, dir) == p
  {
    hide Render, Split, GoodSegments;
    var a :| GoodSegments(a) && dir == Rooted(a);
    var c :| GoodSegments(c) && p == Rooted(c);
    var t := p[|dir| + 1..];
    assert p == dir + ("/" + t);
    RenderFront(a);
    assert c != [] && p == Render(c) && dir == Render(a);
    TailSplits(a, c, t);
    var b := Split(t);
    assert Rooted(b) == "/" + t == TrimPrefix(p, dir);
    GoodIsNotRoot(b);
  }
}
