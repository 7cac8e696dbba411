/** The short list of failed photos a backup run leaves behind: who stays on it, who goes, and in which order. */
module FailureList {
  import opened FailureJson
  import opened Strings

  type PhotoId = nat

  /** One upload tried in a run; `time` is the photo's timestamp. */
  datatype Attempt = Attempt(id: PhotoId, time: int, uploaded: bool, name: Text, error: Text)

  const MAX_FAILURES: nat := 10

  const IMAGES: Text := Ascii("content://media/external/images/media/")

  /** Row ids as the content address Android gives them. */
  function Uri(id: PhotoId): (t: Text)
    ensures t != []
  {
    IMAGES + AsciiNumber(id)
  }

  function AsciiNumber(n: nat): Text {
    NumeralIsAscii(n);
    Ascii(Numeral(n, Ten))
  }

  lemma NumeralIsAscii(n: nat)
    ensures var s := Numeral(n, Ten); forall i :: 0 <= i < |s| ==> s[i] as int < 0x80
  {
    hide Numeral;
    var s := Numeral(n, Ten);
    forall i | 0 <= i < |s| ensures s[i] as int < 0x80 { assert s[i] in "0123456789abcdef"; }
  }

  lemma UriInjective(a: PhotoId, b: PhotoId)
    requires Uri(a) == Uri(b)
    ensures a == b
  {
    assert AsciiNumber(a) == Uri(a)[|IMAGES|..] == Uri(b)[|IMAGES|..] == AsciiNumber(b);
    NumbersDiffer(a, b);
  }

  lemma NumbersDiffer(a: nat, b: nat)
    requires AsciiNumber(a) == AsciiNumber(b)
    ensures a == b
  {
    hide Numeral, Ascii;
    NumeralIsAscii(a);
    NumeralIsAscii(b);
    AsciiInjective(Numeral(a, Ten), Numeral(b, Ten));
    NumeralInjective(a, b, Ten);
  }

  predicate IsAscii(s: string) {
    forall i :: 0 <= i < |s| ==> s[i] as int < 0x80
  }

  lemma AsciiInjective(s: string, t: string)
    requires IsAscii(s) && IsAscii(t) && Ascii(s) == Ascii(t)
    ensures s == t
  {
    hide Ascii;
    assert |s| == |Ascii(s)| == |t|;
    forall i | 0 <= i < |s| ensures s[i] == t[i] { assert s[i] as int == Ascii(s)[i] == t[i] as int; }
  }

  // ---- the list ----

  const UPLOAD_FAILED: Text := Ascii("upload failed")

  function FailureOf(a: Attempt): Failure {
    Failure(Uri(a.id), a.name, if SkipWs(a.error) == [] then UPLOAD_FAILED else a.error)
  }

  predicate Blank(t: Text) {
    forall i :: 0 <= i < |t| ==> IsWhitespace(t[i])
  }

  lemma {:induction false} BlankIff(t: Text)
    ensures Blank(t) <==> SkipWs(t) == []
  {
    if t != [] {
      BlankIff(t[1..]);
      assert forall i :: 0 < i < |t| ==> t[i] == t[1..][i - 1];
      assert forall i :: 0 <= i < |t[1..]| ==> t[1..][i] == t[i + 1];
    }
  }

  /** `f` has the photo's address and name, and why it failed, as far as that is known. */
  predicate Tells(a: Attempt, f: Failure) {
    f.uri == Uri(a.id) && f.name == a.name && f.message == if Blank(a.error) then UPLOAD_FAILED else a.error
  }

  lemma TellsOne(a: Attempt, f: Failure)
    ensures Tells(a, f) <==> f == FailureOf(a)
  {
    hide Uri, SkipWs, Blank;
    BlankIff(a.error);
  }

  /** This run's failures, the last one first. */
  function Incoming(xs: seq<Attempt>): seq<Failure> {
    if xs == [] then [] else Incoming(xs[1..]) + (if xs[0].uploaded then [] else [FailureOf(xs[0])])
  }

  function Succeeded(xs: seq<Attempt>): set<Text> {
    set a | a in xs && a.uploaded :: Uri(a.id)
  }

  function Uris(fs: seq<Failure>): set<Text> {
    set f | f in fs :: f.uri
  }

  function Without(fs: seq<Failure>, uris: set<Text>): seq<Failure> {
    if fs == [] then [] else (if fs[0].uri in uris then [] else [fs[0]]) + Without(fs[1..], uris)
  }

  function Remember(previous: seq<Failure>, xs: seq<Attempt>, limit: nat): seq<Failure> {
    var incoming := Incoming(xs);
    var all := incoming + Without(previous, Succeeded(xs) + Uris(incoming));
    if |all| <= limit then all else all[..limit]
  }

  // ---- what is on it ----

  predicate DistinctIds(xs: seq<Attempt>) {
    forall i, j :: 0 <= i < j < |xs| ==> xs[i].id != xs[j].id
  }

  predicate DistinctUris(fs: seq<Failure>) {
    forall i, j :: 0 <= i < j < |fs| ==> fs[i].uri != fs[j].uri
  }

  /** `f` reports a failed attempt of this run. */
  predicate Reports(xs: seq<Attempt>, f: Failure) {
    exists a :: a in xs && !a.uploaded && Tells(a, f)
  }

  lemma ReportsOne(xs: seq<Attempt>, f: Failure)
    ensures Reports(xs, f) <==> exists a :: a in xs && !a.uploaded && f == FailureOf(a)
  {
    hide FailureOf, Tells;
    forall a ensures Tells(a, f) <==> f == FailureOf(a) { TellsOne(a, f); }
  }

  predicate Tried(xs: seq<Attempt>, uri: Text) {
    exists a :: a in xs && Uri(a.id) == uri
  }

  lemma {:induction false} IncomingIs(xs: seq<Attempt>)
    ensures forall f :: f in Incoming(xs) <==> Reports(xs, f)
  {
    hide FailureOf, Tells;
    if xs != [] {
      IncomingIs(xs[1..]);
      assert xs == [xs[0]] + xs[1..];
      forall f ensures Reports(xs, f) <==> Reports(xs[1..], f) || (!xs[0].uploaded && f == FailureOf(xs[0])) {
        TellsOne(xs[0], f);
        assert xs[0] in xs && forall a :: a in xs[1..] ==> a in xs;
      }
    }
  }

  lemma {:induction false} IncomingDistinct(xs: seq<Attempt>)
    requires DistinctIds(xs)
    ensures DistinctUris(Incoming(xs))
  {
    hide Uri;
    if xs != [] {
      var rest := xs[1..];
      IncomingDistinct(rest);
      IncomingIs(rest);
      forall f | f in Incoming(rest) ensures f.uri != Uri(xs[0].id) {
        ReportsOne(rest, f);
        var a :| a in rest && !a.uploaded && f == FailureOf(a);
        var i :| 0 <= i < |rest| && rest[i] == a;
        assert xs[i + 1] == a;
        if Uri(a.id) == Uri(xs[0].id) { UriInjective(a.id, xs[0].id); }
      }
      var more := Incoming(rest);
      forall i | 0 <= i < |more| ensures more[i].uri != Uri(xs[0].id) { assert more[i] in more; }
    }
  }

  lemma {:induction false} WithoutIs(fs: seq<Failure>, uris: set<Text>)
    ensures forall f :: f in Without(fs, uris) <==> f in fs && f.uri !in uris
    ensures DistinctUris(fs) ==> DistinctUris(Without(fs, uris))
  {
    if fs != [] {
      WithoutIs(fs[1..], uris);
      assert fs == [fs[0]] + fs[1..];
      var out := Without(fs[1..], uris);
      if DistinctUris(fs) {
        forall i | 0 <= i < |out| ensures out[i].uri != fs[0].uri {
          assert out[i] in fs[1..];
          var j :| 0 <= j < |fs[1..]| && fs[1..][j] == out[i];
          assert fs[j + 1] == out[i];
        }
      }
    }
  }

  /** The photos tried in a run leave the list or are reported anew. */
  lemma TriedUris(xs: seq<Attempt>, uri: Text)
    ensures uri in Succeeded(xs) + Uris(Incoming(xs)) <==> Tried(xs, uri)
  {
    hide Uri;
    IncomingIs(xs);
    if Tried(xs, uri) {
      var a :| a in xs && Uri(a.id) == uri;
      if !a.uploaded {
        TellsOne(a, FailureOf(a));
        assert Reports(xs, FailureOf(a)) && FailureOf(a) in Incoming(xs);
      }
    }
  }

  /** An earlier failure of a photo this run did not try. */
  predicate Kept(previous: seq<Failure>, xs: seq<Attempt>, f: Failure) {
    f in previous && !Tried(xs, f.uri)
  }

  /**
   The list has at most `limit` entries, one per photo. All of it are failures of
   this run, or earlier ones of photos not tried since; those of this run come
   first; and unless the list is full, none is missing.
   */
  lemma RememberIs(previous: seq<Failure>, xs: seq<Attempt>, limit: nat)
    requires DistinctIds(xs) && DistinctUris(previous)
    ensures var fs, top := Remember(previous, xs, limit), Incoming(xs);
      && |fs| <= limit && DistinctUris(fs)
      && (forall f :: f in fs ==> Reports(xs, f) || Kept(previous, xs, f))
      && (forall i :: 0 <= i < |fs| ==> if i < |top| then fs[i] == top[i] else Kept(previous, xs, fs[i]))
      && (|fs| < limit ==> forall f :: Reports(xs, f) || Kept(previous, xs, f) ==> f in fs)
  {
    hide Reports, Tried, Incoming, Without, Succeeded;
    var top := Incoming(xs);
    var uris := Succeeded(xs) + Uris(top);
    var kept := Without(previous, uris);
    IncomingIs(xs);
    IncomingDistinct(xs);
    WithoutIs(previous, uris);
    forall uri ensures uri in uris <==> Tried(xs, uri) { TriedUris(xs, uri); }
    forall f ensures f in kept <==> Kept(previous, xs, f) {}
    forall i, j | 0 <= i < |top| && 0 <= j < |kept| ensures top[i].uri != kept[j].uri {
      assert kept[j] in kept && top[i] in top;
    }
    var all := top + kept;
    assert DistinctUris(all);
    forall i | |top| <= i < |all| ensures all[i] in kept { assert all[i] == kept[i - |top|]; }
    forall i | 0 <= i < |top| ensures all[i] == top[i] && all[i] in top {}
  }

  /** Of this run's failures the last comes first. */
  lemma {:induction false} IncomingNewestFirst(xs: seq<Attempt>, a: Attempt)
    ensures var was, out := Incoming(xs), Incoming(xs + [a]);
      if a.uploaded then out == was else |out| == |was| + 1 && Tells(a, out[0]) && out[1..] == was
  {
    hide FailureOf, Tells;
    TellsOne(a, FailureOf(a));
    if xs == [] {
      assert xs + [a] == [a];
    } else {
      assert (xs + [a])[1..] == xs[1..] + [a];
      IncomingNewestFirst(xs[1..], a);
    }
  }
}
