/**
 The string helpers of the Go standard library that the server and the sync
 client rely on, and the facts the rest of the project needs about them.
 A `string` here is a sequence of characters each standing for one byte.
 */
module Strings {
  predicate HasPrefix(s: string, prefix: string) {
    prefix <= s
  }

  predicate HasSuffix(s: string, suffix: string) {
    |suffix| <= |s| && s[|s| - |suffix|..] == suffix
  }

  function TrimPrefix(s: string, prefix: string): string {
    if prefix <= s then s[|prefix|..] else s
  }

  function TrimSuffix(s: string, suffix: string): string {
    if HasSuffix(s, suffix) then s[..|s| - |suffix|] else s
  }

  predicate Contains(s: string, part: string) {
    part <= s || (s != "" && Contains(s[1..], part))
  }

  /** Index of the last `c` in `s`, or -1. */
  function LastIndex(s: string, c: char): (i: int)
    ensures -1 <= i < |s|
    ensures i >= 0 ==> s[i] == c
    ensures forall k :: i < k < |s| ==> s[k] != c
  {
    if s == "" then -1
    else if s[|s| - 1] == c then |s| - 1
    else LastIndex(s[..|s| - 1], c)
  }

  lemma {:induction false} LastIndexUnique(s: string, c: char, i: int)
    requires -1 <= i < |s|
    requires i >= 0 ==> s[i] == c
    requires forall k :: i < k < |s| ==> s[k] != c
    ensures LastIndex(s, c) == i
  {
    if s != "" && s[|s| - 1] != c {
      LastIndexUnique(s[..|s| - 1], c, i);
    }
  }

  /** `filepath.Ext`: the suffix from the last dot of the last path element. */
  function Ext(path: string): (ext: string)
    ensures HasSuffix(path, ext)
  {
    var dot := LastIndex(path, '.');
    if dot < 0 || LastIndex(path, '/') > dot then "" else path[dot..]
  }

  predicate NoneOf(s: string, c: char) {
    forall i :: 0 <= i < |s| ==> s[i] != c
  }

  lemma ExtShape(path: string)
    ensures path == TrimSuffix(path, Ext(path)) + Ext(path)
    ensures Ext(path) != "" ==> Ext(path)[0] == '.' && NoneOf(Ext(path)[1..], '.') && NoneOf(Ext(path)[1..], '/')
  {
    hide LastIndex;
  }

  lemma ExtOfJoin(stem: string, ext: string)
    requires ext != "" && ext[0] == '.' && NoneOf(ext[1..], '.') && NoneOf(ext[1..], '/')
    ensures Ext(stem + ext) == ext
  {
    hide LastIndex;
    var s := stem + ext;
    assert forall k :: |stem| < k < |s| ==> s[k] == ext[1..][k - |stem| - 1];
    LastIndexUnique(s, '.', |stem|);
    assert LastIndex(s, '/') <= |stem|;
  }

  lemma ExtOfPlainTail(path: string, middle: string)
    requires Ext(path) == "" && NoneOf(middle, '.') && NoneOf(middle, '/')
    ensures Ext(path + middle) == ""
  {
    hide LastIndex;
    var s := path + middle;
    assert forall k :: |path| <= k < |s| ==> s[k] == middle[k - |path|];
    LastIndexUnique(s, '.', LastIndex(path, '.'));
    LastIndexUnique(s, '/', LastIndex(path, '/'));
  }

  /** Text put in front of a path's extension leaves the extension alone. */
  lemma ExtAfterInsert(path: string, middle: string)
    requires NoneOf(middle, '.') && NoneOf(middle, '/')
    ensures Ext(TrimSuffix(path, Ext(path)) + middle + Ext(path)) == Ext(path)
  {
    hide Ext, TrimSuffix, NoneOf;
    var ext := Ext(path);
    var stem := TrimSuffix(path, ext);
    ExtShape(path);
    if ext == "" {
      assert stem == path && stem + middle + ext == path + middle;
      ExtOfPlainTail(path, middle);
    } else {
      ExtOfJoin(stem + middle, ext);
    }
  }

  // ---- numerals ----

  function Digit(d: nat): char
    requires d < 16
  {
    "0123456789abcdef"[d]
  }

  datatype Base = Ten | Sixteen {
    function Div(n: nat): nat { if Ten? then n / 10 else n / 16 }

    function Mod(n: nat): (r: nat)
      ensures r < 16
      ensures Div(n) <= n && (Div(n) == n ==> n == 0)
    {
      if Ten? then n % 10 else n % 16
    }
  }

  function Numeral(n: nat, base: Base): (s: string)
    ensures s != ""
    ensures forall i :: 0 <= i < |s| ==> s[i] in "0123456789abcdef"
    decreases n
  {
    var last := [Digit(base.Mod(n))];
    if base.Div(n) == 0 then last else Numeral(base.Div(n), base) + last
  }

  lemma DigitInjective(a: nat, b: nat)
    requires a < 16 && b < 16 && Digit(a) == Digit(b)
    ensures a == b
  {
  }

  lemma {:induction false} NumeralInjective(a: nat, b: nat, base: Base)
    requires Numeral(a, base) == Numeral(b, base)
    ensures a == b
    decreases a
  {
    var s := Numeral(a, base);
    var high, low := base.Div(a), base.Div(b);
    assert s[|s| - 1] == Digit(base.Mod(a)) == Digit(base.Mod(b));
    DigitInjective(base.Mod(a), base.Mod(b));
    if high != 0 && low != 0 {
      assert s[..|s| - 1] == Numeral(high, base) == Numeral(low, base);
      NumeralInjective(high, low, base);
    }
    assert high == low by {
      if high == 0 || low == 0 { assert high == 0 <==> |s| == 1; }
    }
  }

  function Worth(c: char): nat {
    if '0' <= c <= '9' then c as int - '0' as int else if 'a' <= c <= 'f' then c as int - 'a' as int + 10 else 0
  }

  /** The number a string of digits denotes. */
  function Denoted(s: string, base: nat): nat {
    if s == "" then 0 else Denoted(s[..|s| - 1], base) * base + Worth(s[|s| - 1])
  }

  /** A numeral denotes its number, without leading zeros. */
  lemma {:induction false} NumeralDenotes(n: nat, base: Base)
    ensures var s := Numeral(n, base);
      Denoted(s, if base.Ten? then 10 else 16) == n && (n > 0 ==> s[0] != '0') && (n == 0 ==> s == "0")
    decreases n
  {
    var s := Numeral(n, base);
    assert Worth(s[|s| - 1]) == base.Mod(n);
    if base.Div(n) != 0 {
      NumeralDenotes(base.Div(n), base);
      assert s[..|s| - 1] == Numeral(base.Div(n), base);
    } else {
      assert s[..|s| - 1] == "";
    }
  }

  /** `%x` of a signed integer. */
  function HexInt(n: int): (s: string)
    ensures s != "" && NoneOf(s[1..], '-')
  {
    if n < 0 then "-" + Numeral(-n, Sixteen) else Numeral(n, Sixteen)
  }

  lemma HexIntInjective(a: int, b: int)
    requires HexInt(a) == HexInt(b)
    ensures a == b
  {
    hide Numeral;
    assert a < 0 <==> HexInt(a)[0] == '-';
    assert b < 0 <==> HexInt(b)[0] == '-';
    if a < 0 {
      assert HexInt(a)[1..] == Numeral(-a, Sixteen);
      assert HexInt(b)[1..] == Numeral(-b, Sixteen);
      NumeralInjective(-a, -b, Sixteen);
    } else {
      NumeralInjective(a, b, Sixteen);
    }
  }

  function Quote(body: string): string {
    ['"'] + body + ['"']
  }

  lemma QuoteInjective(x: string, y: string)
    requires Quote(x) == Quote(y)
    ensures x == y
  {
    assert Quote(x)[1..|x| + 1] == x;
    assert |Quote(x)| == |Quote(y)| ==> Quote(y)[1..|x| + 1] == y;
  }

  function Dashed(a: string, b: string): string {
    a + ['-'] + b
  }

  lemma DashedInjective(a: string, x: string, b: string, y: string)
    requires a != "" && NoneOf(a[1..], '-')
    requires b != "" && NoneOf(b[1..], '-')
    requires Dashed(a, x) == Dashed(b, y)
    ensures a == b && x == y
  {
    var s := Dashed(a, x);
    assert s[|a|] == '-' && s[|b|] == '-';
    assert forall i :: 1 <= i < |a| ==> s[i] == a[1..][i - 1];
    assert forall i :: 1 <= i < |b| ==> s[i] == b[1..][i - 1];
    assert |a| == |b|;
    assert s[..|a|] == a && s[..|b|] == b;
    assert s[|a| + 1..] == x && s[|b| + 1..] == y;
  }

  /** The weak etag the upload endpoint compares If-Match against. */
  function EtagOf(mtime: int, size: int): string {
    Quote(Dashed(HexInt(mtime), HexInt(size)))
  }

  /** Two etags are equal only for the same modification time and size. */
  lemma EtagInjective(m1: int, s1: int, m2: int, s2: int)
    ensures EtagOf(m1, s1) == EtagOf(m2, s2) <==> m1 == m2 && s1 == s2
    ensures EtagOf(m1, s1) != ""
  {
    if EtagOf(m1, s1) == EtagOf(m2, s2) {
      QuoteInjective(Dashed(HexInt(m1), HexInt(s1)), Dashed(HexInt(m2), HexInt(s2)));
      DashedInjective(HexInt(m1), HexInt(s1), HexInt(m2), HexInt(s2));
      HexIntInjective(m1, m2);
      HexIntInjective(s1, s2);
    }
  }
}
