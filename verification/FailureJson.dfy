/**
 The hand-written JSON printer and parser for the list of failed photos, over
 16-bit code units; strings as in section 7 of RFC 8259. A parser takes the rest
 of the text and returns a value and what is left, or nothing where the reader
 throws.
 */
module FailureJson {
  import opened Wrappers

  type Unit = u: int | 0 <= u < 0x1_0000
  type Text = seq<Unit>

  datatype Failure = Failure(uri: Text, name: Text, message: Text)

  const QUOTE: Unit := 0x22
  const BACKSLASH: Unit := 0x5C
  const COMMA: Unit := 0x2C
  const COLON: Unit := 0x3A
  const OPEN_LIST: Unit := 0x5B
  const CLOSE_LIST: Unit := 0x5D
  const OPEN_OBJECT: Unit := 0x7B
  const CLOSE_OBJECT: Unit := 0x7D
  const LOWER_U: Unit := 0x75

  function Ascii(s: string): (t: Text)
    requires forall i :: 0 <= i < |s| ==> s[i] as int < 0x80
    ensures |t| == |s| && forall i :: 0 <= i < |s| ==> t[i] == s[i] as int
  {
    seq(|s|, i requires 0 <= i < |s| => s[i] as int)
  }

  const URI: Text := Ascii("uri")
  const NAME: Text := Ascii("name")
  const MESSAGE: Text := Ascii("message")

  // ---- printing ----

  function HexDigit(d: nat): Unit
    requires d < 16
  {
    if d < 10 then 0x30 + d else 0x61 + d - 10
  }

  /** `toString(16)`. */
  function Hex(n: nat): (t: Text)
    ensures t != []
  {
    if n < 16 then [HexDigit(n)] else Hex(n / 16) + [HexDigit(n % 16)]
  }

  function PadStart(t: Text, width: nat): Text
    decreases width - |t|
  {
    if |t| >= width then t else PadStart([0x30] + t, width)
  }

  function EscapeUnit(c: Unit): (t: Text)
    ensures t != []
  {
    if c == BACKSLASH then [BACKSLASH, BACKSLASH]
    else if c == QUOTE then [BACKSLASH, QUOTE]
    else if c == 0x0A then [BACKSLASH, 0x6E]
    else if c == 0x0D then [BACKSLASH, 0x72]
    else if c == 0x09 then [BACKSLASH, 0x74]
    else if c < 0x20 then [BACKSLASH, LOWER_U] + PadStart(Hex(c), 4)
    else [c]
  }

  function Escape(v: Text): Text {
    if v == [] then [] else EscapeUnit(v[0]) + Escape(v[1..])
  }

  function JsonString(v: Text): Text {
    [QUOTE] + (Escape(v) + [QUOTE])
  }

  function Member(key: Text, v: Text): Text {
    [QUOTE] + key + [QUOTE, COLON] + JsonString(v)
  }

  function PrintObject(f: Failure): Text {
    [OPEN_OBJECT] + Member(URI, f.uri) + [COMMA] + Member(NAME, f.name) + [COMMA] + Member(MESSAGE, f.message) +
    [CLOSE_OBJECT]
  }

  function PrintItems(fs: seq<Failure>): Text {
    if fs == [] then [] else PrintObject(fs[0]) + (if |fs| == 1 then [] else [COMMA] + PrintItems(fs[1..]))
  }

  function Print(fs: seq<Failure>): Text {
    [OPEN_LIST] + PrintItems(fs) + [CLOSE_LIST]
  }

  /** No unit that is escaped. */
  predicate Unescaped(v: Text) {
    forall i :: 0 <= i < |v| ==> v[i] >= 0x20 && v[i] != QUOTE && v[i] != BACKSLASH
  }

  lemma {:induction false} PrintedPlain(v: Text)
    requires Unescaped(v)
    ensures Escape(v) == v
  {
    if v != [] {
      assert Unescaped(v[1..]);
      PrintedPlain(v[1..]);
      assert v == [v[0]] + v[1..];
    }
  }

  /** A key and a value, as JSON writes them. */
  function Pair(key: Text, v: Text): Text {
    Ascii("\"") + key + Ascii("\":\"") + v + Ascii("\"")
  }

  lemma MemberPlain(key: Text, v: Text)
    requires Unescaped(v)
    ensures Member(key, v) == Pair(key, v)
  {
    PrintedPlain(v);
    assert Ascii("\"") == [QUOTE] && Ascii("\":\"") == [QUOTE, COLON, QUOTE];
    assert [QUOTE, COLON, QUOTE] == [QUOTE, COLON] + [QUOTE];
  }

  lemma Prepend(a: Text, b: Text, c: Text)
    ensures a + (b + c) == a + b + c
  {
  }

  /** How one failure looks. */
  lemma OneFailurePrinted(f: Failure)
    requires Unescaped(f.uri) && Unescaped(f.name) && Unescaped(f.message)
    ensures Print([f]) ==
      Ascii("[{") + Pair(Ascii("uri"), f.uri) + Ascii(",") + Pair(Ascii("name"), f.name) + Ascii(",") +
      Pair(Ascii("message"), f.message) + Ascii("}]")
  {
    MemberPlain(URI, f.uri);
    MemberPlain(NAME, f.name);
    MemberPlain(MESSAGE, f.message);
    assert Ascii("[{") == [OPEN_LIST] + [OPEN_OBJECT] && Ascii(",") == [COMMA];
    assert Ascii("}]") == [CLOSE_OBJECT] + [CLOSE_LIST];
    hide Member, Pair, Unescaped, Ascii;
    var m1, m2, m3 := Member(URI, f.uri), Member(NAME, f.name), Member(MESSAGE, f.message);
    var a := [OPEN_OBJECT] + m1;
    var b := a + [COMMA] + m2;
    var c := b + [COMMA] + m3;
    assert PrintItems([f]) == c + [CLOSE_OBJECT];
    Prepend([OPEN_LIST], c, [CLOSE_OBJECT]);
    Prepend([OPEN_LIST], b + [COMMA], m3);
    Prepend([OPEN_LIST], b, [COMMA]);
    Prepend([OPEN_LIST], a + [COMMA], m2);
    Prepend([OPEN_LIST], a, [COMMA]);
    Prepend([OPEN_LIST], [OPEN_OBJECT], m1);
    Prepend([OPEN_LIST] + c, [CLOSE_OBJECT], [CLOSE_LIST]);
  }

  // ---- parsing ----

  /** `Char.isWhitespace`. */
  predicate IsWhitespace(u: Unit) {
    u in {0x20, 0xA0, 0x1680, 0x2028, 0x2029, 0x202F, 0x205F, 0x3000} ||
    0x09 <= u <= 0x0D || 0x1C <= u <= 0x1F || 0x2000 <= u <= 0x200A
  }

  function SkipWs(t: Text): (r: Text)
    ensures |r| <= |t| && (r != [] ==> !IsWhitespace(r[0]))
  {
    if t != [] && IsWhitespace(t[0]) then SkipWs(t[1..]) else t
  }

  /** What is left, or nothing where the reader throws. */
  type Parsed<T> = Option<(T, Text)>

  function Peek(t: Text): Option<Unit> {
    if SkipWs(t) == [] then None else Some(SkipWs(t)[0])
  }

  function Expect(t: Text, c: Unit): Option<Text> {
    if SkipWs(t) != [] && SkipWs(t)[0] == c then Some(SkipWs(t)[1..]) else None
  }

  /** The zeros of the other decimal digits with one code unit; the nine that follow each count on. */
  const ZEROS: seq<Unit> :=
    [0x0660, 0x06F0, 0x07C0, 0x0966, 0x09E6, 0x0A66, 0x0AE6, 0x0B66, 0x0BE6, 0x0C66, 0x0CE6, 0x0D66, 0x0DE6, 0x0E50,
     0x0ED0, 0x0F20, 0x1040, 0x1090, 0x17E0, 0x1810, 0x1946, 0x19D0, 0x1A80, 0x1A90, 0x1B50, 0x1BB0, 0x1C40, 0x1C50,
     0xA620, 0xA8D0, 0xA900, 0xA9D0, 0xA9F0, 0xAA50, 0xABF0, 0xFF10]

  function DigitAfter(u: Unit, zeros: seq<Unit>): Option<nat> {
    if zeros == [] then None
    else
      var d: int := u - zeros[0];
      if 0 <= d < 10 then Some(d) else DigitAfter(u, zeros[1..])
  }

  /** `Character.digit` in base sixteen: letters also in full width, decimal digits of any script. */
  function DigitValue(u: Unit): Option<nat> {
    if 0x30 <= u <= 0x39 then Some(u - 0x30)
    else if 0x61 <= u <= 0x66 then Some(u - 0x61 + 10)
    else if 0x41 <= u <= 0x46 then Some(u - 0x41 + 10)
    else if 0xFF21 <= u <= 0xFF26 then Some(u - 0xFF21 + 10)
    else if 0xFF41 <= u <= 0xFF46 then Some(u - 0xFF41 + 10)
    else DigitAfter(u, ZEROS)
  }

  function HexValue(t: Text, acc: nat): Option<nat> {
    if t == [] then Some(acc)
    else
      match DigitValue(t[0])
      case None => None
      case Some(d) => HexValue(t[1..], acc * 16 + d)
  }

  /** `toInt(16).toChar()`: a sign is accepted, and the value is cut to 16 bits. */
  function ReadHex(t: Text): Option<Unit> {
    var signed := t != [] && t[0] in {0x2B, 0x2D};
    var digits := if signed then t[1..] else t;
    if digits == [] then None
    else
      match HexValue(digits, 0)
      case None => None
      case Some(n) =>
        var value: int := if signed && t[0] == 0x2D then 0 - n else n;
        Some(value % 0x1_0000)
  }

  function SimpleEscape(e: Unit): Option<Unit> {
    if e in {QUOTE, BACKSLASH, 0x2F} then Some(e)
    else if e == 0x62 then Some(0x08)
    else if e == 0x66 then Some(0x0C)
    else if e == 0x6E then Some(0x0A)
    else if e == 0x72 then Some(0x0D)
    else if e == 0x74 then Some(0x09)
    else None
  }

  /** After a backslash: the unit it stands for. */
  function ReadEscape(t: Text): (r: Parsed<Unit>)
    ensures r.Some? ==> |r.value.1| < |t|
  {
    if t == [] then None
    else if t[0] == LOWER_U then
      if |t| < 5 then None
      else
        match ReadHex(t[1..5])
        case None => None
        case Some(u) => Some((u, t[5..]))
    else
      match SimpleEscape(t[0])
      case None => None
      case Some(u) => Some((u, t[1..]))
  }

  /** One unit of a string body, escaped or not. */
  function ReadUnit(t: Text): (r: Parsed<Unit>)
    ensures r.Some? ==> |r.value.1| < |t|
  {
    if t == [] then None else if t[0] == BACKSLASH then ReadEscape(t[1..]) else Some((t[0], t[1..]))
  }

  /** Up to the closing quote; `done` is what the builder holds. */
  function ReadBody(t: Text, done: Text): (r: Parsed<Text>)
    ensures r.Some? ==> |r.value.1| < |t|
    decreases |t|
  {
    if t == [] then None
    else if t[0] == QUOTE then Some((done, t[1..]))
    else
      match ReadUnit(t)
      case None => None
      case Some((u, rest)) => ReadBody(rest, done + [u])
  }

  function ReadString(t: Text): (r: Parsed<Text>)
    ensures r.Some? ==> |r.value.1| < |t|
  {
    match Expect(t, QUOTE)
    case None => None
    case Some(rest) => ReadBody(rest, [])
  }

  function SetField(f: Failure, key: Text, value: Text): Failure {
    if key == URI then f.(uri := value)
    else if key == NAME then f.(name := value)
    else if key == MESSAGE then f.(message := value)
    else f
  }

  /** One key, a colon, one string. */
  function ReadMember(t: Text, f: Failure): (r: Parsed<Failure>)
    ensures r.Some? ==> |r.value.1| < |t|
  {
    match ReadString(t)
    case None => None
    case Some((key, t1)) =>
      match Expect(t1, COLON)
      case None => None
      case Some(t2) =>
        match ReadString(t2)
        case None => None
        case Some((value, t3)) => Some((SetField(f, key, value), t3))
  }

  function ReadMembers(t: Text, f: Failure): (r: Parsed<Failure>)
    ensures r.Some? ==> |r.value.1| < |t|
    decreases |t|
  {
    match ReadMember(t, f)
    case None => None
    case Some((f1, rest)) =>
      if Expect(rest, COMMA).Some? then ReadMembers(Expect(rest, COMMA).value, f1)
      else if Expect(rest, CLOSE_OBJECT).Some? then Some((f1, Expect(rest, CLOSE_OBJECT).value))
      else None
  }

  const EMPTY: Failure := Failure([], [], [])

  function ReadObject(t: Text): (r: Parsed<Failure>)
    ensures r.Some? ==> |r.value.1| < |t|
  {
    match Expect(t, OPEN_OBJECT)
    case None => None
    case Some(rest) =>
      if Expect(rest, CLOSE_OBJECT).Some? then Some((EMPTY, Expect(rest, CLOSE_OBJECT).value))
      else ReadMembers(rest, EMPTY)
  }

  function ReadItems(t: Text, done: seq<Failure>): (r: Parsed<seq<Failure>>)
    decreases |t|
  {
    match ReadObject(t)
    case None => None
    case Some((f, rest)) =>
      if Expect(rest, COMMA).Some? then ReadItems(Expect(rest, COMMA).value, done + [f])
      else if Expect(rest, CLOSE_LIST).Some? then Some((done + [f], Expect(rest, CLOSE_LIST).value))
      else None
  }

  function ReadList(t: Text): Parsed<seq<Failure>> {
    match Expect(t, OPEN_LIST)
    case None => None
    case Some(rest) =>
      if Expect(rest, CLOSE_LIST).Some? then Some(([], Expect(rest, CLOSE_LIST).value)) else ReadItems(rest, [])
  }

  /** Missing, blank and malformed text all read as no failures. */
  function Decode(raw: Option<Text>): seq<Failure> {
    if raw.None? || SkipWs(raw.value) == [] then []
    else match ReadList(raw.value) case None => [] case Some((fs, _)) => fs
  }

  // ---- the parser undoes the printer ----

  lemma ExpectStart(c: Unit, rest: Text, t: Text)
    requires !IsWhitespace(c) && t == [c] + rest
    ensures Expect(t, c) == Some(rest)
    ensures forall d :: d != c ==> Expect(t, d) == None
  {
    assert t[1..] == rest;
  }

  lemma HexOfControl(c: Unit)
    requires c < 0x20
    ensures |PadStart(Hex(c), 4)| == 4 && ReadHex(PadStart(Hex(c), 4)) == Some(c)
  {
    hide ReadHex, PadStart, Hex;
    if c < 16 { HexLow(c); } else { HexHigh(c, c - 16); }
  }

  lemma HexLow(c: Unit)
    requires c < 16
    ensures |PadStart(Hex(c), 4)| == 4 && ReadHex(PadStart(Hex(c), 4)) == Some(c)
  {
    hide ReadHex, PadStart, HexDigit;
    assert Hex(c) == [HexDigit(c)];
    PadOne(HexDigit(c));
    FourDigits(0, c);
    assert HexDigit(0) == 0x30 by { ZeroDigit(); }
  }

  lemma ZeroDigit()
    ensures HexDigit(0) == 0x30
  {
  }

  lemma HexHigh(c: Unit, d: nat)
    requires d < 16 && c == 16 + d
    ensures |PadStart(Hex(c), 4)| == 4 && ReadHex(PadStart(Hex(c), 4)) == Some(c)
  {
    hide ReadHex, PadStart, HexDigit;
    assert c / 16 == 1 && c % 16 == d;
    assert Hex(1) == [HexDigit(1)];
    assert Hex(c) == [HexDigit(1), HexDigit(d)];
    PadTwo(HexDigit(1), HexDigit(d));
    FourDigits(1, d);
  }

  lemma PadTwo(a: Unit, b: Unit)
    ensures PadStart([a, b], 4) == [0x30, 0x30, a, b]
  {
    var three: Text := [0x30, a, b];
    var four: Text := [0x30, 0x30, a, b];
    assert PadStart(four, 4) == four;
    assert [0x30] + three == four;
    assert PadStart(three, 4) == PadStart([0x30] + three, 4);
    assert [0x30] + [a, b] == three;
    assert PadStart([a, b], 4) == PadStart([0x30] + [a, b], 4);
  }

  lemma PadOne(a: Unit)
    ensures PadStart([a], 4) == [0x30, 0x30, 0x30, a]
  {
    assert [0x30] + [a] == [0x30, a];
    assert PadStart([a], 4) == PadStart([0x30] + [a], 4);
    PadTwo(0x30, a);
  }

  lemma DigitRoundTrip(d: nat)
    requires d < 16
    ensures DigitValue(HexDigit(d)) == Some(d) && HexDigit(d) !in {0x2B, 0x2D}
  {
  }

  lemma HexStep(d: nat, rest: Text, acc: nat)
    requires d < 16
    ensures HexValue([HexDigit(d)] + rest, acc) == HexValue(rest, acc * 16 + d)
  {
    DigitRoundTrip(d);
    assert ([HexDigit(d)] + rest)[1..] == rest;
  }

  lemma FourDigits(high: nat, low: nat)
    requires high < 2 && low < 16
    ensures ReadHex([0x30, 0x30, HexDigit(high), HexDigit(low)]) == Some(16 * high + low)
  {
    ZeroDigit();
    DigitRoundTrip(0);
    hide HexValue, HexDigit, DigitValue;
    var z, h, l := HexDigit(0), HexDigit(high), HexDigit(low);
    HexStep(0, [z, h, l], 0);
    HexStep(0, [h, l], 0);
    HexStep(high, [l], 0);
    HexStep(low, [], high);
    HexEmpty(16 * high + low);
    assert [z] + [z, h, l] == [z, z, h, l] && [z] + [h, l] == [z, h, l] && [h] + [l] == [h, l] && [l] + [] == [l];
  }

  lemma HexEmpty(acc: nat)
    ensures HexValue([], acc) == Some(acc)
  {
  }

  lemma UnitRoundTrip(c: Unit, rest: Text)
    ensures EscapeUnit(c)[0] != QUOTE && ReadUnit(EscapeUnit(c) + rest) == Some((c, rest))
  {
    var e := EscapeUnit(c);
    var t := e + rest;
    assert t[0] == e[0];
    if c in {BACKSLASH, QUOTE, 0x0A, 0x0D, 0x09} {
      assert t[1..] == [e[1]] + rest && t[1..][1..] == rest;
      assert SimpleEscape(e[1]) == Some(c) && e[1] != LOWER_U;
    } else if c >= 0x20 {
      assert t[1..] == rest;
    } else {
      HexOfControl(c);
      var h := PadStart(Hex(c), 4);
      assert t[1..] == [LOWER_U] + h + rest;
      assert t[1..][1..5] == h && t[1..][5..] == rest;
    }
  }

  lemma {:induction false} BodyRoundTrip(v: Text, done: Text, rest: Text)
    ensures ReadBody(Escape(v) + [QUOTE] + rest, done) == Some((done + v, rest))
    decreases |v|
  {
    var t := Escape(v) + [QUOTE] + rest;
    if v == [] {
      assert t == [QUOTE] + rest && t[1..] == rest;
      assert done + v == done;
    } else {
      var tail := Escape(v[1..]) + [QUOTE] + rest;
      assert t == EscapeUnit(v[0]) + tail;
      UnitRoundTrip(v[0], tail);
      BodyRoundTrip(v[1..], done + [v[0]], rest);
      assert done + [v[0]] + v[1..] == done + v;
    }
  }

  lemma StringRoundTrip(v: Text, rest: Text)
    ensures ReadString(JsonString(v) + rest) == Some((v, rest))
  {
    var t := JsonString(v) + rest;
    var body := Escape(v) + [QUOTE] + rest;
    assert t == [QUOTE] + body;
    ExpectStart(QUOTE, body, t);
    BodyRoundTrip(v, [], rest);
    assert [] + v == v;
  }

  /** A key of plain letters is printed as itself. */
  predicate Plain(key: Text) {
    forall i :: 0 <= i < |key| ==> 0x61 <= key[i] <= 0x7A
  }

  lemma {:induction false} PlainEscape(key: Text)
    requires Plain(key)
    ensures Escape(key) == key
  {
    if key != [] {
      PlainEscape(key[1..]);
      assert key == [key[0]] + key[1..];
    }
  }

  lemma MemberRoundTrip(key: Text, v: Text, f: Failure, rest: Text)
    requires Plain(key)
    ensures ReadMember(Member(key, v) + rest, f) == Some((SetField(f, key, v), rest))
  {
    PlainEscape(key);
    var t := Member(key, v) + rest;
    var afterKey := [COLON] + (JsonString(v) + rest);
    assert t == JsonString(key) + afterKey;
    StringRoundTrip(key, afterKey);
    ExpectStart(COLON, JsonString(v) + rest, afterKey);
    StringRoundTrip(v, rest);
    hide ReadString, JsonString, SetField;
  }

  lemma MemberStarts(key: Text, v: Text, rest: Text)
    ensures Member(key, v) + rest == [QUOTE] + (key + [QUOTE, COLON] + JsonString(v) + rest)
  {
    hide JsonString;
  }

  lemma FieldsAre(f: Failure)
    ensures SetField(SetField(SetField(EMPTY, URI, f.uri), NAME, f.name), MESSAGE, f.message) == f
    ensures Plain(URI) && Plain(NAME) && Plain(MESSAGE)
  {
    assert |URI| == 3 && |NAME| == 4 && |MESSAGE| == 7;
  }

  /** A member followed by a comma, or by the end of the object. */
  lemma MembersStep(key: Text, v: Text, f: Failure, rest: Text)
    requires Plain(key)
    ensures ReadMembers(Member(key, v) + ([COMMA] + rest), f) == ReadMembers(rest, SetField(f, key, v))
    ensures ReadMembers(Member(key, v) + ([CLOSE_OBJECT] + rest), f) == Some((SetField(f, key, v), rest))
  {
    MemberRoundTrip(key, v, f, [COMMA] + rest);
    MemberRoundTrip(key, v, f, [CLOSE_OBJECT] + rest);
    ExpectStart(COMMA, rest, [COMMA] + rest);
    ExpectStart(CLOSE_OBJECT, rest, [CLOSE_OBJECT] + rest);
    hide ReadMember, Member, SetField, Expect;
  }

  lemma ObjectRoundTrip(f: Failure, rest: Text)
    ensures ReadObject(PrintObject(f) + rest) == Some((f, rest))
  {
    FieldsAre(f);
    hide Member, SetField, ReadMembers, Plain;
    var m1, m2, m3 := Member(URI, f.uri), Member(NAME, f.name), Member(MESSAGE, f.message);
    var t3 := m3 + ([CLOSE_OBJECT] + rest);
    var t2 := m2 + ([COMMA] + t3);
    var t1 := m1 + ([COMMA] + t2);
    assert PrintObject(f) + rest == [OPEN_OBJECT] + t1;
    ExpectStart(OPEN_OBJECT, t1, PrintObject(f) + rest);
    MemberStarts(URI, f.uri, [COMMA] + t2);
    ExpectStart(QUOTE, URI + [QUOTE, COLON] + JsonString(f.uri) + ([COMMA] + t2), t1);
    var f1 := SetField(EMPTY, URI, f.uri);
    MembersStep(URI, f.uri, EMPTY, t2);
    MembersStep(NAME, f.name, f1, t3);
    MembersStep(MESSAGE, f.message, SetField(f1, NAME, f.name), rest);
  }

  lemma {:induction false} ItemsRoundTrip(fs: seq<Failure>, done: seq<Failure>, rest: Text)
    requires fs != []
    ensures ReadItems(PrintItems(fs) + [CLOSE_LIST] + rest, done) == Some((done + fs, rest))
    decreases |fs|
  {
    hide PrintObject, ReadObject;
    var t := PrintItems(fs) + [CLOSE_LIST] + rest;
    if |fs| == 1 {
      var tail := [CLOSE_LIST] + rest;
      assert t == PrintObject(fs[0]) + tail;
      ObjectRoundTrip(fs[0], tail);
      ExpectStart(CLOSE_LIST, rest, tail);
      assert fs == [fs[0]];
    } else {
      var more := PrintItems(fs[1..]) + [CLOSE_LIST] + rest;
      var tail := [COMMA] + more;
      assert t == PrintObject(fs[0]) + tail;
      ObjectRoundTrip(fs[0], tail);
      ExpectStart(COMMA, more, tail);
      ItemsRoundTrip(fs[1..], done + [fs[0]], rest);
      assert done + [fs[0]] + fs[1..] == done + fs;
    }
  }

  lemma PrintedItemsStart(fs: seq<Failure>, rest: Text)
    requires fs != []
    ensures PrintItems(fs) + rest != [] && (PrintItems(fs) + rest)[0] == OPEN_OBJECT
  {
    hide Member;
    assert PrintObject(fs[0])[0] == OPEN_OBJECT;
  }

  /** Parsing what was printed gives the list back and stops at the end of the text. */
  lemma PrintedListReads(fs: seq<Failure>)
    ensures ReadList(Print(fs)) == Some((fs, []))
  {
    hide PrintItems, ReadItems;
    var t := Print(fs);
    var inner := PrintItems(fs) + [CLOSE_LIST];
    assert t == [OPEN_LIST] + inner;
    ExpectStart(OPEN_LIST, inner, t);
    if fs == [] {
      PrintsNothing();
      assert inner == [CLOSE_LIST] + [];
      ExpectStart(CLOSE_LIST, [], inner);
    } else {
      PrintedItemsStart(fs, [CLOSE_LIST]);
      ExpectStart(OPEN_OBJECT, inner[1..], inner);
      ItemsRoundTrip(fs, [], []);
      assert PrintItems(fs) + [CLOSE_LIST] + [] == inner && [] + fs == fs;
    }
  }

  lemma PrintsNothing()
    ensures PrintItems([]) == []
  {
  }

  /** For every list of failures over all strings, quotes, backslashes and control characters included. */
  lemma FailuresRoundTrip(fs: seq<Failure>)
    ensures Decode(Some(Print(fs))) == fs
  {
    PrintedListReads(fs);
    assert Print(fs)[0] == OPEN_LIST;
    hide Print, ReadList;
  }
}
