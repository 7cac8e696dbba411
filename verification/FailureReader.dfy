/** The reader object behind the parser, with its cursor, and the printer's loop. */
module FailureReader {
  import opened FailureJson
  import opened Wrappers

  class JsonReader {
    const s: Text
    var i: nat

    constructor (s: Text)
      ensures this.s == s && i == 0
    {
      this.s, i := s, 0;
    }

    ghost predicate Valid()
      reads this
    {
      i <= |s|
    }

    /** What the cursor has not passed yet. */
    ghost function Rest(): Text
      reads this
      requires Valid()
    {
      s[i..]
    }

    method SkipSpace()
      requires Valid()
      modifies this`i
      ensures Valid() && Rest() == SkipWs(old(Rest())) && i >= old(i)
    {
      while i < |s| && IsWhitespace(s[i])
        invariant Valid() && SkipWs(Rest()) == SkipWs(old(Rest())) && i >= old(i)
      {
        assert s[i..][1..] == s[i + 1..];
        i := i + 1;
      }
    }

    method PeekUnit() returns (r: Option<Unit>)
      requires Valid()
      modifies this`i
      ensures Valid() && r == Peek(old(Rest())) && Rest() == SkipWs(old(Rest()))
    {
      SkipSpace();
      return if i < |s| then Some(s[i]) else None;
    }

    method ExpectUnit(c: Unit) returns (ok: bool)
      requires Valid()
      modifies this`i
      ensures Valid() && ok == Expect(old(Rest()), c).Some?
      ensures ok ==> Expect(old(Rest()), c) == Some(Rest()) && i > old(i)
    {
      SkipSpace();
      ok := i < |s| && s[i] == c;
      if ok {
        assert s[i..][1..] == s[i + 1..];
        i := i + 1;
      }
    }

    /** The unit after a backslash. */
    method ReadEscaped() returns (r: Option<Unit>)
      requires Valid()
      modifies this`i
      ensures Valid() && i >= old(i) && (r.Some? <==> ReadEscape(old(Rest())).Some?)
      ensures r.Some? ==> ReadEscape(old(Rest())) == Some((r.value, Rest()))
    {
      hide ReadHex, SimpleEscape;
      if i == |s| { return None; }
      var e := s[i];
      assert s[i..][1..] == s[i + 1..];
      if e != LOWER_U {
        i := i + 1;
        return SimpleEscape(e);
      }
      if i + 5 > |s| { return None; }
      assert s[i..][1..5] == s[i + 1..i + 5] && s[i..][5..] == s[i + 5..];
      r := ReadHex(s[i + 1..i + 5]);
      i := i + 5;
    }

    method ReadText() returns (r: Option<Text>)
      requires Valid()
      modifies this`i
      ensures Valid() && (r.Some? <==> ReadString(old(Rest())).Some?)
      ensures r.Some? ==> ReadString(old(Rest())) == Some((r.value, Rest())) && i > old(i)
    {
      hide ReadEscape, Expect;
      ghost var start := Rest();
      var ok := ExpectUnit(QUOTE);
      if !ok { return None; }
      var sb: Text := [];
      while i < |s|
        invariant Valid() && i > old(i) && ReadBody(Rest(), sb) == ReadString(start)
        decreases |s| - i
      {
        var c := s[i];
        assert s[i..][1..] == s[i + 1..];
        i := i + 1;
        if c == QUOTE { return Some(sb); }
        if c == BACKSLASH {
          var u := ReadEscaped();
          if u.None? { return None; }
          sb := sb + [u.value];
        } else {
          sb := sb + [c];
        }
      }
      return None;
    }

    method ReadPair(f: Failure) returns (r: Option<Failure>)
      requires Valid()
      modifies this`i
      ensures Valid() && (r.Some? <==> ReadMember(old(Rest()), f).Some?)
      ensures r.Some? ==> ReadMember(old(Rest()), f) == Some((r.value, Rest())) && i > old(i)
    {
      hide FailureJson.ReadString, Expect, SetField;
      var key := ReadText();
      if key.None? { return None; }
      var ok := ExpectUnit(COLON);
      if !ok { return None; }
      var value := ReadText();
      if value.None? { return None; }
      return Some(SetField(f, key.value, value.value));
    }

    method ParseFailureObject() returns (r: Option<Failure>)
      requires Valid()
      modifies this`i
      ensures Valid() && (r.Some? <==> ReadObject(old(Rest())).Some?)
      ensures r.Some? ==> ReadObject(old(Rest())) == Some((r.value, Rest())) && i > old(i)
    {
      hide ReadMember, SkipWs;
      ghost var start := Rest();
      var ok := ExpectUnit(OPEN_OBJECT);
      if !ok { return None; }
      ghost var inner := Rest();
      var next := PeekUnit();
      SkipTwice(inner);
      if next == Some(CLOSE_OBJECT) {
        ok := ExpectUnit(CLOSE_OBJECT);
        return Some(EMPTY);
      }
      var f := EMPTY;
      ReadMembersSkip(inner, f);
      while true
        invariant Valid() && i > old(i) && ReadMembers(Rest(), f) == ReadObject(start)
        decreases |s| - i
      {
        var more := ReadPair(f);
        if more.None? { return None; }
        f := more.value;
        ghost var rest := Rest();
        next := PeekUnit();
        SkipTwice(rest);
        if next == Some(COMMA) {
          ok := ExpectUnit(COMMA);
        } else if next == Some(CLOSE_OBJECT) {
          ok := ExpectUnit(CLOSE_OBJECT);
          return Some(f);
        } else {
          return None;
        }
      }
    }

    method ParseFailureArray() returns (r: Option<seq<Failure>>)
      requires Valid() && i == 0
      modifies this`i
      ensures Valid() && (r.Some? <==> ReadList(s).Some?)
      ensures r.Some? ==> ReadList(s) == Some((r.value, Rest()))
    {
      hide ReadObject, SkipWs;
      assert Rest() == s;
      var ok := ExpectUnit(OPEN_LIST);
      if !ok { return None; }
      ghost var inner := Rest();
      var next := PeekUnit();
      SkipTwice(inner);
      if next == Some(CLOSE_LIST) {
        ok := ExpectUnit(CLOSE_LIST);
        return Some([]);
      }
      var out: seq<Failure> := [];
      ReadItemsSkip(inner, out);
      while true
        invariant Valid() && ReadItems(Rest(), out) == ReadList(s)
        decreases |s| - i
      {
        var item := ParseFailureObject();
        if item.None? { return None; }
        out := out + [item.value];
        ghost var rest := Rest();
        next := PeekUnit();
        SkipTwice(rest);
        if next == Some(COMMA) {
          ok := ExpectUnit(COMMA);
        } else if next == Some(CLOSE_LIST) {
          ok := ExpectUnit(CLOSE_LIST);
          return Some(out);
        } else {
          return None;
        }
      }
    }
  }

  lemma SkipTwice(t: Text)
    ensures SkipWs(SkipWs(t)) == SkipWs(t)
    ensures forall c: Unit :: Expect(SkipWs(t), c) == Expect(t, c) && (Expect(t, c).Some? <==> Peek(t) == Some(c))
  {
  }

  lemma ReadMembersSkip(t: Text, f: Failure)
    ensures ReadMembers(SkipWs(t), f) == ReadMembers(t, f)
  {
    hide SetField, ReadBody;
    SkipTwice(t);
  }

  lemma ReadItemsSkip(t: Text, done: seq<Failure>)
    ensures ReadItems(SkipWs(t), done) == ReadItems(t, done)
  {
    hide ReadMembers;
    SkipTwice(t);
  }

  method EncodeFailures(failures: seq<Failure>) returns (sb: Text)
    ensures sb == Print(failures) && Decode(Some(sb)) == failures
  {
    hide PrintObject, Decode;
    sb := [OPEN_LIST];
    assert failures[0..] == failures;
    for i := 0 to |failures|
      invariant sb + (if 0 < i < |failures| then [COMMA] else []) + PrintItems(failures[i..]) ==
                [OPEN_LIST] + PrintItems(failures)
    {
      var rest := failures[i..];
      assert rest[1..] == failures[i + 1..] && rest[0] == failures[i];
      if i > 0 { sb := sb + [COMMA]; }
      ghost var sofar := sb;
      sb := sb + PrintObject(failures[i]);
      assert sofar + PrintItems(rest) == sb + (if |rest| == 1 then [] else [COMMA] + PrintItems(rest[1..]));
    }
    assert failures[|failures|..] == [];
    sb := sb + [CLOSE_LIST];
    FailuresRoundTrip(failures);
  }

  /** Missing, blank and malformed text all read as no failures. */
  method DecodeFailures(raw: Option<Text>) returns (failures: seq<Failure>)
    ensures failures == Decode(raw)
    ensures forall fs :: raw == Some(Print(fs)) ==> failures == fs
  {
    hide ReadList, SkipWs, Print;
    forall fs ensures Decode(Some(Print(fs))) == fs { FailuresRoundTrip(fs); }
    if raw.None? || SkipWs(raw.value) == [] { return []; }
    var reader := new JsonReader(raw.value);
    var parsed := reader.ParseFailureArray();
    return if parsed.Some? then parsed.value else [];
  }
}
