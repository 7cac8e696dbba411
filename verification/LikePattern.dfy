/**
 SQLite's `LIKE … ESCAPE '\'` and the subtree test the version index builds
 from it. LIKE folds ASCII case by default and the store never turns that off,
 so the pattern for a path also selects paths that differ from it in case only.
 */
module LikePattern {
  import opened Strings

  function Fold(c: char): char {
    if 'A' <= c <= 'Z' then (c as int + 32) as char else c
  }

  predicate EqFold(a: string, b: string) {
    |a| == |b| && forall i :: 0 <= i < |a| ==> Fold(a[i]) == Fold(b[i])
  }

  predicate Like(pattern: string, text: string)
    decreases |pattern|, |text|
  {
    if pattern == "" then text == ""
    else if pattern[0] == '\\' then
      |pattern| > 1 && text != "" && Fold(pattern[1]) == Fold(text[0]) && Like(pattern[2..], text[1..])
    else if pattern[0] == '%' then
      Like(pattern[1..], text) || (text != "" && Like(pattern, text[1..]))
    else if pattern[0] == '_' then
      text != "" && Like(pattern[1..], text[1..])
    else
      text != "" && Fold(pattern[0]) == Fold(text[0]) && Like(pattern[1..], text[1..])
  }

  function EscapeLike(s: string): string {
    if s == "" then ""
    else (if s[0] == '\\' || s[0] == '%' || s[0] == '_' then ['\\', s[0]] else [s[0]]) + EscapeLike(s[1..])
  }

  /** The pattern for everything below `root`. */
  function BelowPattern(root: string): string {
    EscapeLike(root) + "/%"
  }

  /** `path = ? OR path LIKE ? ESCAPE '\'`, as every subtree query writes it. */
  predicate Selected(root: string, path: string) {
    path == root || Like(BelowPattern(root), path)
  }

  /** Exact membership of the subtree at `root`. */
  predicate Under(root: string, path: string) {
    path == root || HasPrefix(path, root + "/")
  }

  lemma {:induction false} LikeEscaped(p: string, rest: string, text: string)
    ensures Like(EscapeLike(p) + rest, text) <==>
            |text| >= |p| && EqFold(text[..|p|], p) && Like(rest, text[|p|..])
  {
    if p == "" {
      assert EscapeLike(p) + rest == rest;
      assert text[0..] == text;
    } else if text == "" {
      assert (EscapeLike(p) + rest)[0] != '%';
    } else {
      LikeEscaped(p[1..], rest, text[1..]);
      var head := if p[0] == '\\' || p[0] == '%' || p[0] == '_' then ['\\', p[0]] else [p[0]];
      assert EscapeLike(p) + rest == head + (EscapeLike(p[1..]) + rest);
      assert (head + (EscapeLike(p[1..]) + rest))[|head|..] == EscapeLike(p[1..]) + rest;
      if |text| >= |p| {
        assert text[1..][..|p| - 1] == text[..|p|][1..];
        assert text[1..][|p| - 1..] == text[|p|..];
        assert EqFold(text[..|p|], p) <==> Fold(text[0]) == Fold(p[0]) && EqFold(text[1..][..|p| - 1], p[1..]) by {
          FoldHead(text[..|p|], p);
        }
      }
    }
  }

  lemma FoldHead(a: string, b: string)
    requires |a| == |b| > 0
    ensures EqFold(a, b) <==> Fold(a[0]) == Fold(b[0]) && EqFold(a[1..], b[1..])
  {
    if Fold(a[0]) == Fold(b[0]) && EqFold(a[1..], b[1..]) {
      forall i | 0 <= i < |a| ensures Fold(a[i]) == Fold(b[i]) {
        if i > 0 { assert Fold(a[1..][i - 1]) == Fold(b[1..][i - 1]); }
      }
    }
  }

  lemma {:induction false} PercentMatchesAll(text: string)
    ensures Like("%", text)
  {
    if text != "" {
      PercentMatchesAll(text[1..]);
    } else {
      assert Like("%"[1..], text);
    }
  }

  /** The LIKE test is the subtree test up to ASCII case, for every root and text. */
  lemma SubtreeTest(root: string, text: string)
    ensures Like(BelowPattern(root), text) <==>
            |text| > |root| && EqFold(text[..|root|], root) && text[|root|] == '/'
  {
    LikeEscaped(root, "/%", text);
    if |text| > |root| {
      var tail := text[|root|..];
      assert "/%"[1..] == "%";
      PercentMatchesAll(tail[1..]);
      assert Like("/%", tail) <==> Fold('/') == Fold(tail[0]);
    }
  }

  lemma UnderIsSelected(root: string, text: string)
    requires Under(root, text)
    ensures Selected(root, text)
  {
    SubtreeTest(root, text);
    if text != root {
      assert text[..|root|] == (root + "/")[..|root|];
      assert text[|root|] == (root + "/")[|root|];
    }
  }

  /** SQL's `? || substr(path, length(?)+1)`. */
  function SqlRewrite(oldRoot: string, newRoot: string, path: string): string {
    newRoot + if |oldRoot| <= |path| then path[|oldRoot|..] else ""
  }

  /** Go's `newPath + strings.TrimPrefix(old, oldPath)`. */
  function GoRewrite(oldRoot: string, newRoot: string, path: string): string {
    newRoot + TrimPrefix(path, oldRoot)
  }

  /**
   On a selected path the row rewrite and the blob-directory rewrite name the
   same new path exactly when the path is in the subtree case and all.
   */
  lemma RewritesAgree(oldRoot: string, newRoot: string, path: string)
    requires oldRoot != "" && Selected(oldRoot, path)
    ensures SqlRewrite(oldRoot, newRoot, path) == GoRewrite(oldRoot, newRoot, path) <==> Under(oldRoot, path)
  {
    SubtreeTest(oldRoot, path);
    assert |oldRoot| <= |path|;
    var sql, go := SqlRewrite(oldRoot, newRoot, path), GoRewrite(oldRoot, newRoot, path);
    if oldRoot <= path {
      assert path == oldRoot + path[|oldRoot|..];
    } else {
      assert |go| == |newRoot| + |path|;
      assert |sql| == |newRoot| + |path| - |oldRoot|;
      assert oldRoot <= oldRoot + "/";
    }
  }
}
