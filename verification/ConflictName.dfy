/** Names of conflict copies, and which names the two tree walks hide. */
module ConflictName {
  import opened LogicalPath
  import opened Strings

  function Suffix(tag: string, stamp: string): string {
    " (conflict from " + tag + " " + stamp + ")"
  }

  function CopyName(name: string, tag: string, stamp: string): string {
    TrimSuffix(name, Ext(name)) + Suffix(tag, stamp) + Ext(name)
  }

  /** The copy lives beside `path`, its name extended by host and second. */
  function ConflictPath(path: string, tag: string, stamp: string): string {
    DirPart(path) + CopyName(NamePart(path), tag, stamp)
  }

  /** Up to and including the last slash. */
  function DirPart(path: string): string {
    path[..LastIndex(path, '/') + 1]
  }

  function NamePart(path: string): string {
    path[LastIndex(path, '/') + 1..]
  }

  lemma PartsRejoin(path: string)
    ensures path == DirPart(path) + NamePart(path) && NoneOf(NamePart(path), '/')
    ensures DirPart(path) != "" ==> DirPart(path)[|DirPart(path)| - 1] == '/'
  {
  }

  lemma PartsUnique(dir: string, name: string)
    requires NoneOf(name, '/') && (dir != "" ==> dir[|dir| - 1] == '/')
    ensures DirPart(dir + name) == dir && NamePart(dir + name) == name
  {
    LastIndexUnique(dir + name, '/', |dir| - 1);
  }

  // ---- the copies of different paths differ ----

  function Dots(s: string): nat {
    if s == "" then 0 else (if s[0] == '.' then 1 else 0) + Dots(s[1..])
  }

  lemma {:induction false} DotsConcat(a: string, b: string)
    ensures Dots(a + b) == Dots(a) + Dots(b)
  {
    if a == "" {
      assert a + b == b;
    } else {
      DotsConcat(a[1..], b);
      assert (a + b)[1..] == a[1..] + b;
    }
  }

  lemma {:induction false} NoDots(s: string)
    requires NoneOf(s, '.')
    ensures Dots(s) == 0
  {
    if s != "" { NoDots(s[1..]); }
  }

  lemma PlainName(name: string)
    requires NoneOf(name, '/')
    ensures name == TrimSuffix(name, Ext(name)) + Ext(name)
    ensures Ext(name) == "" ==> NoneOf(name, '.') && Dots(name) == 0
    ensures Ext(name) != "" ==> Ext(name)[0] == '.' && NoneOf(Ext(name)[1..], '.') && Dots(Ext(name)) == 1
  {
    hide LastIndex;
    var slash, dot := LastIndex(name, '/'), LastIndex(name, '.');
    assert slash == -1;
    if Ext(name) == "" {
      NoDots(name);
    } else {
      NoDots(Ext(name)[1..]);
    }
  }

  /** The last dot of a copy name with an extension is where the extension starts. */
  lemma LastDotOfCopy(stem: string, suffix: string, ext: string)
    requires ext != "" && ext[0] == '.' && NoneOf(ext[1..], '.')
    ensures LastIndex(stem + suffix + ext, '.') == |stem| + |suffix|
  {
    var s := stem + suffix + ext;
    assert forall k :: |stem| + |suffix| < k < |s| ==> s[k] == ext[1..][k - |stem| - |suffix| - 1];
    LastIndexUnique(s, '.', |stem| + |suffix|);
  }

  /** Injective in the name for one host, at any two times: dots in the host name do no harm. */
  lemma CopyNameInjective(a: string, b: string, tag: string, s: string, t: string)
    requires NoneOf(a, '/') && NoneOf(b, '/') && |s| == |t| && NoneOf(s, '.') && NoneOf(t, '.')
    requires CopyName(a, tag, s) == CopyName(b, tag, t)
    ensures a == b
  {
    hide LastIndex, Ext, Dots, Suffix, NoneOf, TrimSuffix;
    EmptyHasNoDots();
    PlainName(a);
    PlainName(b);
    var ea, eb := Ext(a), Ext(b);
    var sa, sb := TrimSuffix(a, ea), TrimSuffix(b, eb);
    var x, y := Suffix(tag, s), Suffix(tag, t);
    var out := sa + x + ea;
    assert out == sb + y + eb;
    SuffixDots(tag, s, t);
    DotsOfCopy(sa, x, ea);
    DotsOfCopy(sb, y, eb);
    if ea == "" { assert sa == a; }
    if eb == "" { assert sb == b; }
    assert (ea == "") == (eb == "");
    if ea != "" {
      LastDotOfCopy(sa, x, ea);
      LastDotOfCopy(sb, y, eb);
    }
    assert |sa| == |sb|;
    assert sa == out[..|sa|] == sb;
    assert ea == out[|sa| + |x|..] == eb;
  }

  lemma EmptyHasNoDots()
    ensures Dots("") == 0
  {
  }

  lemma DotsOfCopy(a: string, b: string, c: string)
    ensures Dots(a + b + c) == Dots(a) + Dots(b) + Dots(c)
  {
    DotsConcat(a + b, c);
    DotsConcat(a, b);
  }

  lemma SuffixDots(tag: string, s: string, t: string)
    requires |s| == |t| && NoneOf(s, '.') && NoneOf(t, '.')
    ensures |Suffix(tag, s)| == |Suffix(tag, t)| && Dots(Suffix(tag, s)) == Dots(Suffix(tag, t))
  {
    var head := " (conflict from " + tag + " ";
    NoDots(s);
    NoDots(t);
    NoDots(")");
    DotsOfCopy(head, s, ")");
    DotsOfCopy(head, t, ")");
  }

  /** Copies of different paths never collide, whenever in the pass they are made. */
  lemma ConflictPathInjective(p: string, q: string, tag: string, s: string, t: string)
    requires |s| == |t| && NoneOf(s, '.') && NoneOf(t, '.') && NoneOf(s, '/') && NoneOf(t, '/') && NoneOf(tag, '/')
    requires ConflictPath(p, tag, s) == ConflictPath(q, tag, t)
    ensures p == q
  {
    ConflictParts(p, tag, s);
    ConflictParts(q, tag, t);
    PartsRejoin(p);
    PartsRejoin(q);
    CopyNameInjective(NamePart(p), NamePart(q), tag, s, t);
  }

  lemma CopyHasNoSlash(name: string, tag: string, stamp: string)
    requires NoneOf(name, '/') && NoneOf(tag, '/') && NoneOf(stamp, '/')
    ensures NoneOf(CopyName(name, tag, stamp), '/')
  {
    PlainName(name);
    var stem, x := TrimSuffix(name, Ext(name)), Suffix(tag, stamp);
    assert NoneOf(x, '/');
    assert NoneOf(stem, '/') && NoneOf(Ext(name), '/');
  }

  lemma ConflictParts(path: string, tag: string, stamp: string)
    requires NoneOf(tag, '/') && NoneOf(stamp, '/')
    ensures DirPart(ConflictPath(path, tag, stamp)) == DirPart(path)
    ensures NamePart(ConflictPath(path, tag, stamp)) == CopyName(NamePart(path), tag, stamp)
  {
    hide CopyName;
    PartsRejoin(path);
    CopyHasNoSlash(NamePart(path), tag, stamp);
    PartsUnique(DirPart(path), CopyName(NamePart(path), tag, stamp));
  }

  // ---- names the walks hide ----

  predicate Staging(name: string) {
    HasPrefix(name, ".xxpartial") || HasSuffix(name, ".xxpart")
  }

  predicate HiddenDir(name: string) {
    name == ".xxpart" || HasPrefix(name, ".xxdrive-")
  }

  /** The local walk skips hidden directories and staging files. */
  predicate LocalVisible(rel: string) {
    var segs := Split(rel);
    && (forall i :: 0 <= i < |segs| - 1 ==> !HiddenDir(segs[i]))
    && !Staging(segs[|segs| - 1])
  }

  /** The server's listing skips every entry with a staging name, directories included. */
  predicate RemoteVisible(rel: string) {
    forall i :: 0 <= i < |Split(rel)| ==> !Staging(Split(rel)[i])
  }

  lemma {:induction false} SplitAt(a: string, b: string)
    ensures Split(a + ("/" + b)) == Split(a) + Split(b)
  {
    if a == "" {
      assert a + ("/" + b) == "/" + b;
      SplitSlash(b);
    } else {
      var rest := a[1..] + ("/" + b);
      assert (a + ("/" + b))[1..] == rest;
      SplitAt(a[1..], b);
      SplitCons(a, rest, Split(b));
    }
  }

  lemma SplitCons(a: string, rest: string, more: seq<string>)
    requires a != "" && Split(rest) == Split(a[1..]) + more
    ensures Split([a[0]] + rest) == Split(a) + more
  {
    SplitStep(a[0], rest);
    SplitStep(a[0], a[1..]);
    assert a == [a[0]] + a[1..];
    hide Split;
    ConsHead(a[0], Split(a[1..]), more);
  }

  function Cons(c: char, segs: seq<string>): seq<string>
    requires segs != []
  {
    if c == '/' then [""] + segs else [[c] + segs[0]] + segs[1..]
  }

  lemma ConsHead(c: char, heads: seq<string>, more: seq<string>)
    requires heads != []
    ensures Cons(c, heads + more) == Cons(c, heads) + more
  {
    if c == '/' {
      assert [""] + (heads + more) == [""] + heads + more;
    } else {
      HeadGrows([c], heads, more);
    }
  }

  lemma SplitStep(c: char, t: string)
    ensures Split([c] + t) == Cons(c, Split(t))
  {
    assert ([c] + t)[1..] == t;
  }

  lemma HeadGrows(c: string, heads: seq<string>, more: seq<string>)
    requires heads != []
    ensures [c + (heads + more)[0]] + (heads + more)[1..] == [c + heads[0]] + heads[1..] + more
  {
  }

  lemma SplitParts(dir: string, name: string)
    requires NoneOf(name, '/') && (dir != "" ==> dir[|dir| - 1] == '/')
    ensures Split(dir + name) == (if dir == "" then [] else Split(dir[..|dir| - 1])) + [name]
  {
    SplitPlain(name);
    if dir == "" {
      assert dir + name == name;
    } else {
      SplitAt(dir[..|dir| - 1], name);
      assert dir + name == dir[..|dir| - 1] + ("/" + name);
    }
  }

  lemma CopyIsNotStaging(name: string, tag: string, stamp: string)
    requires NoneOf(name, '/') && !Staging(name)
    ensures !Staging(CopyName(name, tag, stamp))
  {
    PlainName(name);
    var ext := Ext(name);
    var stem := TrimSuffix(name, ext);
    var copy := CopyName(name, tag, stamp);
    assert copy[|stem|] == ' ';
    if HasPrefix(copy, ".xxpartial") { CopyPrefix(name, tag, stamp); }
    if HasSuffix(copy, ".xxpart") { CopySuffix(name, tag, stamp); }
  }

  lemma CopyPrefix(name: string, tag: string, stamp: string)
    requires NoneOf(name, '/') && HasPrefix(CopyName(name, tag, stamp), ".xxpartial")
    ensures HasPrefix(name, ".xxpartial")
  {
    hide LastIndex, Ext, NoneOf;
    PlainName(name);
    CopyBegins(name, tag, stamp);
    hide CopyName, TrimSuffix;
    var stem, front := TrimSuffix(name, Ext(name)), ".xxpartial";
    var copy := CopyName(name, tag, stamp);
    assert copy[..|front|] == front && forall i :: 0 <= i < |front| ==> front[i] != ' ';
    assert |stem| >= |front|;
    assert name[..|front|] == stem[..|front|] == copy[..|front|];
  }

  lemma CopyBegins(name: string, tag: string, stamp: string)
    ensures var copy, stem := CopyName(name, tag, stamp), TrimSuffix(name, Ext(name));
      |copy| > |stem| && copy[..|stem|] == stem && copy[|stem|] == ' '
  {
    hide Ext;
    assert Suffix(tag, stamp)[0] == ' ';
  }

  lemma CopySuffix(name: string, tag: string, stamp: string)
    requires NoneOf(name, '/') && HasSuffix(CopyName(name, tag, stamp), ".xxpart")
    ensures HasSuffix(name, ".xxpart")
  {
    hide LastIndex, Ext, NoneOf;
    PlainName(name);
    var ext := Ext(name);
    var stem := TrimSuffix(name, ext);
    var copy := CopyName(name, tag, stamp);
    var x := Suffix(tag, stamp);
    assert copy[|copy| - 1] == ".xxpart"[6];
    assert x[|x| - 1] == ')';
    assert ext != "";
    LastDotOfPart(copy);
    LastDotOfCopy(stem, x, ext);
    assert ext == copy[|copy| - 7..];
  }

  lemma LastDotOfPart(s: string)
    requires HasSuffix(s, ".xxpart")
    ensures LastIndex(s, '.') == |s| - 7
  {
    var at := |s| - 7;
    assert s[at..] == ".xxpart";
    assert forall k :: at <= k < |s| ==> s[k] == ".xxpart"[k - at];
    LastIndexUnique(s, '.', at);
  }

  /** The copy of a path both walks see is seen by both walks. */
  lemma ConflictPathVisible(path: string, tag: string, stamp: string)
    requires NoneOf(tag, '/') && NoneOf(stamp, '/')
    ensures LocalVisible(path) ==> LocalVisible(ConflictPath(path, tag, stamp))
    ensures RemoteVisible(path) ==> RemoteVisible(ConflictPath(path, tag, stamp))
  {
    hide CopyName, Staging, HiddenDir;
    var dir, name := DirPart(path), NamePart(path);
    var copy := CopyName(name, tag, stamp);
    PartsRejoin(path);
    CopyHasNoSlash(name, tag, stamp);
    SplitParts(dir, name);
    SplitParts(dir, copy);
    if !Staging(name) { CopyIsNotStaging(name, tag, stamp); }
    SameVisibility(if dir == "" then [] else Split(dir[..|dir| - 1]), name, copy);
  }

  lemma SameVisibility(dirs: seq<string>, name: string, copy: string)
    requires !Staging(name) ==> !Staging(copy)
    ensures (forall i :: 0 <= i < |dirs + [name]| ==> !Staging((dirs + [name])[i])) ==>
            (forall i :: 0 <= i < |dirs + [copy]| ==> !Staging((dirs + [copy])[i]))
    ensures (forall i :: 0 <= i < |dirs + [name]| - 1 ==> !HiddenDir((dirs + [name])[i])) ==>
            (forall i :: 0 <= i < |dirs + [copy]| - 1 ==> !HiddenDir((dirs + [copy])[i]))
  {
    hide Staging, HiddenDir;
    assert (dirs + [name])[|dirs|] == name;
    assert forall i :: 0 <= i < |dirs| ==> (dirs + [name])[i] == (dirs + [copy])[i];
  }

  /** The copy of a clean path is a clean path. */
  lemma ConflictPathClean(path: string, tag: string, stamp: string)
    requires CleanPath(path) && path != "/" && NoneOf(tag, '/') && NoneOf(stamp, '/')
    ensures CleanPath(ConflictPath(path, tag, stamp)) && ConflictPath(path, tag, stamp) != "/"
  {
    var segs :| GoodSegments(segs) && path == Rooted(segs);
    hide CopyName, Render, LastIndex, DirPart, NamePart, GoodSegment;
    var init, last := segs[..|segs| - 1], segs[|segs| - 1];
    assert segs == init + [last];
    var copy := CopyName(last, tag, stamp);
    CopyIsGood(last, tag, stamp);
    RootedParts(init, last);
    RootedParts(init, copy);
    assert GoodSegments(init + [copy]);
    assert ConflictPath(path, tag, stamp) == Rooted(init + [copy]);
  }

  lemma RootedParts(init: seq<string>, name: string)
    requires GoodSegments(init) && GoodSegment(name)
    ensures DirPart(Rooted(init + [name])) == Render(init) + "/" && NamePart(Rooted(init + [name])) == name
    ensures Rooted(init + [name]) == Render(init) + "/" + name && Rooted(init + [name]) != "/"
  {
    RenderAppend(init, [name]);
    RenderOne(name);
    hide Render;
    assert Rooted(init + [name]) == Render(init) + "/" + name;
    PartsUnique(Render(init) + "/", name);
  }

  lemma RenderOne(name: string)
    ensures Render([name]) == "/" + name
  {
    assert [name][1..] == [];
    assert "/" + name + "" == "/" + name;
  }

  lemma CopyIsGood(name: string, tag: string, stamp: string)
    requires GoodSegment(name) && NoneOf(tag, '/') && NoneOf(stamp, '/')
    ensures GoodSegment(CopyName(name, tag, stamp)) && |CopyName(name, tag, stamp)| > 2
  {
    CopyHasNoSlash(name, tag, stamp);
    assert |Suffix(tag, stamp)| > 2;
  }
}
