/** The durable sync error: one bounded JSON text holding each owner's last failure
    (`_encode_error_state`, `_decode_error_state` in `attendance_mirror.py`). */
module SyncErrors {
  import opened Prelude

  const ERROR_LIMIT: nat := 500

  datatype Owner = Incremental | Sweep | Baseline | Legacy

  function Name(o: Owner): string {
    match o case Incremental => "incremental" case Sweep => "sweep" case Baseline => "baseline" case Legacy => "legacy"
  }

  type Errors = map<Owner, string>

  /** The owners in the order of their names. */
  const BY_NAME: seq<Owner> := [Baseline, Incremental, Legacy, Sweep]

  // ---- JSON strings, escaped to ASCII ---------------------------------------------------

  function Hex(n: nat): char
    requires n < 16
  {
    if n < 10 then '0' + n as char else 'a' + (n - 10) as char
  }

  function HexValue(c: char): Option<nat> {
    if '0' <= c <= '9' then Some(c as int - '0' as int)
    else if 'a' <= c <= 'f' then Some(c as int - 'a' as int + 10)
    else if 'A' <= c <= 'F' then Some(c as int - 'A' as int + 10)
    else None
  }

  function Unit(n: nat): string
    requires n < 0x10000
  {
    ['\\', 'u', Hex(n / 16 / 16 / 16), Hex(n / 16 / 16 % 16), Hex(n / 16 % 16), Hex(n % 16)]
  }

  /** The surrogate pair of a character above the basic plane, counted from there. */
  function Pair(n: nat): (r: string)
    requires n < 0x100000
    ensures |r| == 12 && r[0] == '\\'
  {
    Unit(0xD800 + n / 0x400) + Unit(0xDC00 + n % 0x400)
  }

  /** The letter of a two-character escape. */
  function ShortLetter(c: char): Option<char> {
    if c == '"' then Some('"') else if c == '\\' then Some('\\')
    else if c == '\n' then Some('n') else if c == '\r' then Some('r') else if c == '\t' then Some('t')
    else if c == 8 as char then Some('b') else if c == 12 as char then Some('f')
    else None
  }

  function EscapeChar(c: char): string {
    var n := c as int;
    if ShortLetter(c).Some? then ['\\', ShortLetter(c).value]
    else if 32 <= n <= 126 then [c]
    else if n < 0x10000 then Unit(n)
    else Pair(n - 0x10000)
  }

  function Escape(s: string): string {
    if s == [] then [] else EscapeChar(s[0]) + Escape(s[1..])
  }

  /** The code unit of a `\uXXXX` escape at the front. */
  function ReadUnit(t: string): Option<nat> {
    if |t| < 6 || t[0] != '\\' || t[1] != 'u' then None
    else
      var a, b, c, d := HexValue(t[2]), HexValue(t[3]), HexValue(t[4]), HexValue(t[5]);
      if a.None? || b.None? || c.None? || d.None? then None
      else Some(((a.value * 16 + b.value) * 16 + c.value) * 16 + d.value)
  }

  function ShortEscape(c: char): Option<char> {
    if c == '"' then Some('"') else if c == '\\' then Some('\\') else if c == '/' then Some('/')
    else if c == 'n' then Some('\n') else if c == 'r' then Some('\r') else if c == 't' then Some('\t')
    else if c == 'b' then Some(8 as char) else if c == 'f' then Some(12 as char)
    else None
  }

  /** One character of a string's contents, and how long its notation is. */
  function ReadChar(t: string): Option<(char, nat)>
    requires t != []
  {
    if t[0] != '\\' then
      if t[0] as int < 32 || t[0] == '"' then None else Some((t[0], 1))
    else if |t| >= 2 && ShortEscape(t[1]).Some? then Some((ShortEscape(t[1]).value, 2))
    else
      var unit := ReadUnit(t);
      if unit.None? then None
      else if unit.value < 0xD800 || 0xDFFF < unit.value <= 0xFFFF then Some((unit.value as char, 6))
      else
        var low := ReadUnit(t[6..]);
        if low.None? || unit.value >= 0xDC00 || !(0xDC00 <= low.value <= 0xDFFF) then None
        else Some(((0x10000 + (unit.value - 0xD800) * 0x400 + (low.value - 0xDC00)) as char, 12))
  }

  /** The contents up to the closing quote, and what follows it. */
  function ReadString(t: string): (r: Option<(string, string)>)
    ensures r.Some? ==> |r.value.1| < |t|
    decreases |t|
  {
    if t == [] then None
    else if t[0] == '"' then Some(([], t[1..]))
    else
      var c := ReadChar(t);
      if c.None? || c.value.1 == 0 || c.value.1 > |t| then None
      else
        var rest := ReadString(t[c.value.1..]);
        if rest.None? then None else Some(([c.value.0] + rest.value.0, rest.value.1))
  }

  lemma HexRoundTrip(n: nat)
    requires n < 16
    ensures HexValue(Hex(n)) == Some(n)
  {
  }

  lemma Digits(n: nat)
    requires n < 0x10000
    ensures n / 16 / 16 / 16 < 16
    ensures n == ((n / 16 / 16 / 16 * 16 + n / 16 / 16 % 16) * 16 + n / 16 % 16) * 16 + n % 16
  {
  }

  lemma ReadsUnit(t: string, a: nat, b: nat, c: nat, d: nat)
    requires a < 16 && b < 16 && c < 16 && d < 16
    requires |t| >= 6 && t[0] == '\\' && t[1] == 'u' && t[2] == Hex(a) && t[3] == Hex(b) && t[4] == Hex(c) && t[5] == Hex(d)
    ensures ReadUnit(t) == Some(((a * 16 + b) * 16 + c) * 16 + d)
  {
    HexRoundTrip(a);
    HexRoundTrip(b);
    HexRoundTrip(c);
    HexRoundTrip(d);
  }

  lemma UnitRoundTrip(n: nat, rest: string)
    requires n < 0x10000
    ensures ReadUnit(Unit(n) + rest) == Some(n)
  {
    Digits(n);
    ReadsUnit(Unit(n) + rest, n / 16 / 16 / 16, n / 16 / 16 % 16, n / 16 % 16, n % 16);
  }

  /** A single code unit outside the surrogates. */
  lemma ReadsPlainUnit(n: nat, rest: string)
    requires n < 0xD800 || 0xE000 <= n < 0x10000
    ensures ReadChar(Unit(n) + rest) == Some((n as char, 6))
  {
    UnitRoundTrip(n, rest);
    var t := Unit(n) + rest;
    assert t[0] == '\\' && t[1] == 'u' && ShortEscape('u').None?;
  }

  lemma ReadsSurrogates(t: string, high: nat, low: nat)
    requires |t| >= 12 && t[0] == '\\' && t[1] == 'u'
    requires ReadUnit(t) == Some(high) && 0xD800 <= high < 0xDC00
    requires ReadUnit(t[6..]) == Some(low) && 0xDC00 <= low <= 0xDFFF
    ensures ReadChar(t) == Some(((0x10000 + (high - 0xD800) * 0x400 + (low - 0xDC00)) as char, 12))
  {
    assert ShortEscape('u').None?;
  }

  /** A character above the basic plane, as a surrogate pair. */
  lemma ReadsPair(n: nat, rest: string)
    requires n < 0x100000
    ensures ReadChar(Pair(n) + rest) == Some(((0x10000 + n) as char, 12))
  {
    var high, low := 0xD800 + n / 0x400, 0xDC00 + n % 0x400;
    var t := Pair(n) + rest;
    UnitRoundTrip(high, Unit(low) + rest);
    UnitRoundTrip(low, rest);
    Regroup(Unit(high), Unit(low), rest);
    assert t[6..] == Unit(low) + rest;
    assert t[1] == Unit(high)[1];
    ReadsSurrogates(t, high, low);
  }

  lemma ReadsShort(c: char, rest: string)
    requires ShortLetter(c).Some?
    ensures ReadChar(['\\', ShortLetter(c).value] + rest) == Some((c, 2))
  {
    var t := ['\\', ShortLetter(c).value] + rest;
    assert t[0] == '\\' && t[1] == ShortLetter(c).value;
    assert ShortEscape(ShortLetter(c).value) == Some(c);
  }

  predicate ReadsBack(c: char, notation: string, rest: string) {
    1 <= |notation| <= 12 && notation[0] != '"' && ReadChar(notation + rest) == Some((c, |notation|))
  }

  lemma UnitReadsBack(c: char, rest: string)
    requires ShortLetter(c).None? && !(32 <= c as int <= 126) && (c as int) < 0x10000
    ensures ReadsBack(c, EscapeChar(c), rest)
  {
    ReadsPlainUnit(c as int, rest);
  }

  lemma PairReadsBack(c: char, rest: string)
    requires c as int >= 0x10000
    ensures ReadsBack(c, Pair(c as int - 0x10000), rest)
  {
    ReadsPair(c as int - 0x10000, rest);
  }

  lemma CharRoundTrip(c: char, rest: string)
    ensures ReadsBack(c, EscapeChar(c), rest)
  {
    if c as int >= 0x10000 {
      PairReadsBack(c, rest);
    } else if ShortLetter(c).Some? {
      ReadsShort(c, rest);
    } else if 32 <= c as int <= 126 {
      assert ([c] + rest)[0] == c;
    } else {
      UnitReadsBack(c, rest);
    }
  }

  lemma ReadsOneMore(c: char, s: string, tail: string, rest: string)
    requires ReadString(tail) == Some((s, rest))
    ensures ReadString(EscapeChar(c) + tail) == Some(([c] + s, rest))
  {
    CharRoundTrip(c, tail);
    assert (EscapeChar(c) + tail)[|EscapeChar(c)|..] == tail;
    assert (EscapeChar(c) + tail)[0] == EscapeChar(c)[0];
  }

  /** Reading back what was escaped gives the string, whatever follows the closing quote. */
  lemma {:induction false} StringRoundTrip(s: string, rest: string)
    ensures ReadString(Escape(s) + "\"" + rest) == Some((s, rest))
    ensures |Escape(s)| <= 12 * |s|
  {
    if s == [] {
      assert Escape(s) + "\"" + rest == "\"" + rest;
    } else {
      var tail := Escape(s[1..]) + "\"" + rest;
      StringRoundTrip(s[1..], rest);
      ReadsOneMore(s[0], s[1..], tail, rest);
      Regroup(EscapeChar(s[0]), Escape(s[1..]), "\"");
      Regroup(EscapeChar(s[0]), Escape(s[1..]) + "\"", rest);
      CharRoundTrip(s[0], tail);
      assert [s[0]] + s[1..] == s;
    }
  }

  // ---- the text -------------------------------------------------------------------------

  function Cut(s: string, limit: nat): string { if |s| <= limit then s else s[..limit] }

  function Member(o: Owner, s: string): string {
    "\"" + (Escape(Name(o)) + "\"" + (":\"" + (Escape(s) + "\"")))
  }

  /** The owners present, by name. */
  function Present(errors: Errors, owners: seq<Owner>): seq<Owner> {
    if owners == [] then []
    else if owners[0] in errors then [owners[0]] + Present(errors, owners[1..])
    else Present(errors, owners[1..])
  }

  function Render(errors: Errors, owners: seq<Owner>, limit: nat): string
    requires forall o | o in owners :: o in errors
  {
    if owners == [] then []
    else if |owners| == 1 then Member(owners[0], Cut(errors[owners[0]], limit))
    else Member(owners[0], Cut(errors[owners[0]], limit)) + ("," + Render(errors, owners[1..], limit))
  }

  lemma {:induction false} PresentOwners(errors: Errors, owners: seq<Owner>)
    ensures forall o :: o in Present(errors, owners) <==> o in owners && o in errors
    ensures (forall i, j | 0 <= i < j < |owners| :: owners[i] != owners[j]) ==>
      forall i, j | 0 <= i < j < |Present(errors, owners)| :: Present(errors, owners)[i] != Present(errors, owners)[j]
    ensures |Present(errors, owners)| <= |owners|
  {
    if owners != [] {
      PresentOwners(errors, owners[1..]);
      var rest := Present(errors, owners[1..]);
      forall i | 0 <= i < |rest| && forall j | 0 < j < |owners| :: owners[j] != owners[0] ensures rest[i] != owners[0] {
        assert rest[i] in rest;
      }
    }
  }

  function Text(errors: Errors, limit: nat): string {
    PresentOwners(errors, BY_NAME);
    "{" + (Render(errors, Present(errors, BY_NAME), limit) + "}")
  }

  function NonEmpty(errors: Errors): Errors { map o | o in errors && errors[o] != "" :: errors[o] }

  /** What the text holds: each owner's message cut at the limit. */
  function CutAll(errors: Errors, limit: nat): Errors { map o | o in errors :: Cut(errors[o], limit) }

  // ---- reading a text -------------------------------------------------------------------

  function ReadMembers(t: string, found: map<string, string>): Option<map<string, string>>
    decreases |t|
  {
    if t == [] || t[0] != '"' then None
    else
      var key := ReadString(t[1..]);
      if key.None? || |key.value.1| < 2 || key.value.1[..2] != ":\"" then None
      else
        var value := ReadString(key.value.1[2..]);
        if value.None? || value.value.1 == [] then None
        else
          var more := found[key.value.0 := value.value.0];
          var rest := value.value.1;
          if rest == "}" then Some(more)
          else if rest[0] == ',' then ReadMembers(rest[1..], more)
          else None
  }

  function ReadObject(t: string): Option<map<string, string>> {
    if t == "{}" then Some(map[])
    else if t != [] && t[0] == '{' then ReadMembers(t[1..], map[])
    else None
  }

  function Owned(fields: map<string, string>): Errors {
    map o | o in {Incremental, Sweep, Baseline, Legacy} && Name(o) in fields && fields[Name(o)] != "" :: fields[Name(o)]
  }

  /** `_decode_error_state`: a text that is no such fields is a legacy message. */
  function Decode(raw: Option<string>): Errors {
    if raw.None? || raw.value == "" then map[]
    else
      var fields := ReadObject(raw.value);
      if fields.None? || Owned(fields.value) == map[] then map[Legacy := Cut(raw.value, ERROR_LIMIT)]
      else Owned(fields.value)
  }

  /** A text that is no such object is kept as a legacy message, in particular any text that does not
      begin like an object; no text is no error. */
  lemma LegacyTextIsKept(raw: string)
    ensures Decode(None) == map[] && Decode(Some("")) == map[]
    ensures raw != "" && (ReadObject(raw).None? || Owned(ReadObject(raw).value) == map[]) ==>
      Decode(Some(raw)) == map[Legacy := if |raw| <= 500 then raw else raw[..500]]
    ensures raw != "" && raw[0] != '{' ==> Decode(Some(raw)) == map[Legacy := if |raw| <= 500 then raw else raw[..500]]
  {
  }

  predicate Ascii(s: string) { forall i | 0 <= i < |s| :: 32 <= s[i] as int <= 126 }

  lemma UnitIsAscii(n: nat)
    requires n < 0x10000
    ensures Ascii(Unit(n))
  {
    assert forall d: nat | d < 16 :: 32 <= Hex(d) as int <= 126;
  }

  lemma PairIsAscii(n: nat)
    requires n < 0x100000
    ensures Ascii(Pair(n))
  {
    UnitIsAscii(0xD800 + n / 0x400);
    UnitIsAscii(0xDC00 + n % 0x400);
  }

  lemma CharIsAscii(c: char)
    ensures Ascii(EscapeChar(c))
  {
    if c as int >= 0x10000 {
      PairIsAscii(c as int - 0x10000);
    } else {
      UnitIsAscii(c as int);
    }
  }

  /** Every message is written in printable ASCII. */
  lemma {:induction false} EscapeIsAscii(s: string)
    ensures Ascii(Escape(s))
  {
    if s != [] {
      EscapeIsAscii(s[1..]);
      CharIsAscii(s[0]);
    }
  }

  lemma MemberReads(o: Owner, s: string, rest: string, found: map<string, string>)
    requires rest != []
    ensures ReadMembers(Member(o, s) + rest, found) ==
      var more := found[Name(o) := s];
      if rest == "}" then Some(more) else if rest[0] == ',' then ReadMembers(rest[1..], more) else None
  {
    var t := Member(o, s) + rest;
    var afterKey := ":\"" + (Escape(s) + "\"" + rest);
    MemberSplits(o, s, rest);
    StringRoundTrip(Name(o), afterKey);
    StringRoundTrip(s, rest);
    assert afterKey[..2] == ":\"" && afterKey[2..] == Escape(s) + "\"" + rest;
  }

  lemma MemberSplits(o: Owner, s: string, rest: string)
    ensures Member(o, s) + rest == "\"" + (Escape(Name(o)) + "\"" + (":\"" + (Escape(s) + "\"" + rest)))
    ensures (Member(o, s) + rest)[0] == '"'
    ensures (Member(o, s) + rest)[1..] == Escape(Name(o)) + "\"" + (":\"" + (Escape(s) + "\"" + rest))
  {
    var key, value := Escape(Name(o)), Escape(s);
    Regroup(value, "\"", rest);
    Regroup(":\"", value + "\"", rest);
    Regroup(key + "\"", ":\"" + (value + "\""), rest);
    Regroup("\"", key + "\"" + (":\"" + (value + "\"")), rest);
  }

  lemma Regroup(a: string, b: string, c: string)
    ensures a + b + c == a + (b + c)
  {
  }

  function Named(errors: Errors, owners: seq<Owner>, limit: nat, found: map<string, string>): map<string, string>
    requires forall o | o in owners :: o in errors
  {
    if owners == [] then found
    else Named(errors, owners[1..], limit, found[Name(owners[0]) := Cut(errors[owners[0]], limit)])
  }

  lemma {:induction false} RenderReads(errors: Errors, owners: seq<Owner>, limit: nat, found: map<string, string>)
    requires owners != [] && forall o | o in owners :: o in errors
    ensures ReadMembers(Render(errors, owners, limit) + "}", found) == Some(Named(errors, owners, limit, found))
  {
    var o := owners[0];
    var s := Cut(errors[o], limit);
    if |owners| == 1 {
      MemberReads(o, s, "}", found);
      assert owners[1..] == [];
    } else {
      var rest := "," + (Render(errors, owners[1..], limit) + "}");
      MemberReads(o, s, rest, found);
      assert Render(errors, owners, limit) + "}" == Member(o, s) + rest;
      assert rest[1..] == Render(errors, owners[1..], limit) + "}";
      assert rest != "}" by { assert rest[0] == ','; }
      RenderReads(errors, owners[1..], limit, found[Name(o) := s]);
    }
  }

  lemma NamesDiffer(a: Owner, b: Owner)
    ensures Name(a) == Name(b) <==> a == b
  {
    assert |Name(a)| == |Name(b)| <==> a == b;
  }

  lemma {:induction false} NamedHolds(errors: Errors, owners: seq<Owner>, limit: nat, found: map<string, string>, o: Owner)
    requires forall x | x in owners :: x in errors
    ensures var all := Named(errors, owners, limit, found);
      if o in owners then Name(o) in all && all[Name(o)] == Cut(errors[o], limit)
      else (Name(o) in all <==> Name(o) in found) && (Name(o) in all ==> all[Name(o)] == found[Name(o)])
  {
    if owners != [] {
      var more := found[Name(owners[0]) := Cut(errors[owners[0]], limit)];
      NamesDiffer(o, owners[0]);
      NamedHolds(errors, owners[1..], limit, more, o);
    }
  }

  lemma OwnedIsCut(errors: Errors, owners: seq<Owner>, limit: nat)
    requires owners == Present(errors, BY_NAME) && limit >= 1 && forall o | o in errors :: errors[o] != ""
    requires forall o | o in owners :: o in errors
    ensures Owned(Named(errors, owners, limit, map[])) == CutAll(errors, limit)
  {
    var fields := Named(errors, owners, limit, map[]);
    PresentOwners(errors, BY_NAME);
    AllOwners();
    forall o ensures o in Owned(fields) <==> o in errors
      ensures o in errors ==> Owned(fields)[o] == Cut(errors[o], limit)
    {
      NamedHolds(errors, owners, limit, map[], o);
    }
  }

  lemma SomethingPresent(errors: Errors)
    requires errors != map[]
    ensures Present(errors, BY_NAME) != []
  {
    PresentOwners(errors, BY_NAME);
    AllOwners();
    assert errors.Keys != {} by {
      assert errors.Keys == {} ==> errors == map[];
    }
    var some := AnyKey(errors.Keys);
    assert some in Present(errors, BY_NAME);
  }

  lemma TextReads(errors: Errors, owners: seq<Owner>, limit: nat)
    requires owners == Present(errors, BY_NAME) && owners != []
    requires forall o | o in owners :: o in errors
    ensures Text(errors, limit) != "{}" && ReadObject(Text(errors, limit)) == Some(Named(errors, owners, limit, map[]))
  {
    var inside := Render(errors, owners, limit) + "}";
    RenderReads(errors, owners, limit, map[]);
    assert Text(errors, limit) == "{" + inside;
    assert ("{" + inside)[1..] == inside;
    assert inside[0] == '"';
    assert ("{" + inside)[1] == '"';
  }

  lemma DecodeOwned(text: string, fields: map<string, string>, some: Owner)
    requires text != "" && ReadObject(text) == Some(fields) && some in Owned(fields)
    ensures Decode(Some(text)) == Owned(fields)
  {
  }

  /** Round trip: the text at any limit reads back as the same owners, each message cut there. */
  lemma TextRoundTrip(errors: Errors, limit: nat)
    requires errors != map[] && limit >= 1 && forall o | o in errors :: errors[o] != ""
    ensures Decode(Some(Text(errors, limit))) == CutAll(errors, limit)
  {
    var owners := Present(errors, BY_NAME);
    PresentOwners(errors, BY_NAME);
    SomethingPresent(errors);
    TextReads(errors, owners, limit);
    OwnedIsCut(errors, owners, limit);
    DecodeOwned(Text(errors, limit), Named(errors, owners, limit, map[]), owners[0]);
  }

  // ---- the bound ------------------------------------------------------------------------

  function NameLengths(owners: seq<Owner>): nat {
    if owners == [] then 0 else |Name(owners[0])| + NameLengths(owners[1..])
  }

  lemma {:induction false} RenderLength(errors: Errors, owners: seq<Owner>)
    requires forall o | o in owners :: o in errors
    ensures |Render(errors, owners, 1)| <= 12 * NameLengths(owners) + 18 * |owners|
  {
    if owners != [] {
      var s := Cut(errors[owners[0]], 1);
      MemberLength(owners[0], s);
      RenderLength(errors, owners[1..]);
    }
  }

  lemma MemberLength(o: Owner, s: string)
    ensures |Member(o, s)| <= 5 + 12 * |Name(o)| + 12 * |s|
  {
    StringRoundTrip(Name(o), []);
    StringRoundTrip(s, []);
  }

  lemma {:induction false} PresentLengths(errors: Errors, owners: seq<Owner>)
    ensures NameLengths(Present(errors, owners)) <= NameLengths(owners)
  {
    if owners != [] {
      PresentLengths(errors, owners[1..]);
      if owners[0] in errors {
        assert ([owners[0]] + Present(errors, owners[1..]))[1..] == Present(errors, owners[1..]);
      }
    }
  }

  /** One character per owner always fits. */
  lemma OneCharacterFits(errors: Errors)
    ensures |Text(errors, 1)| <= ERROR_LIMIT
  {
    PresentOwners(errors, BY_NAME);
    PresentLengths(errors, BY_NAME);
    RenderLength(errors, Present(errors, BY_NAME));
    assert NameLengths(BY_NAME) == 30 by {
      assert BY_NAME == [Baseline] + ([Incremental] + ([Legacy] + [Sweep]));
      assert BY_NAME[1..] == [Incremental, Legacy, Sweep] && [Incremental, Legacy, Sweep][1..] == [Legacy, Sweep];
      assert [Legacy, Sweep][1..] == [Sweep] && [Sweep][1..] == [];
    }
  }

  function NextLimit(limit: nat, length: nat, owners: nat): nat
    requires owners > 0 && length > ERROR_LIMIT
  {
    var smaller := limit - (length - ERROR_LIMIT + owners - 1) / owners;
    if smaller < 1 then 1 else smaller
  }

  /** The first limit the loop reaches at which the text fits. */
  function FittingLimit(errors: Errors, limit: nat): (fit: nat)
    requires limit >= 1 && errors != map[]
    ensures 1 <= fit <= limit && |Text(errors, fit)| <= ERROR_LIMIT
    ensures |Text(errors, limit)| <= ERROR_LIMIT ==> fit == limit
    decreases limit
  {
    var length := |Text(errors, limit)|;
    if length <= ERROR_LIMIT then limit
    else
      OneCharacterFits(errors);
      assert limit > 1;
      assert (length - ERROR_LIMIT + |errors| - 1) / |errors| >= 1;
      FittingLimit(errors, NextLimit(limit, length, |errors|))
  }

  function Encode(errors: Errors): Option<string> {
    var values := NonEmpty(errors);
    if values == map[] then None else Some(Text(values, FittingLimit(values, ERROR_LIMIT)))
  }

  /** Where the text does not fit, the next limit is smaller and leads to the same fitting one. */
  lemma LimitShrinks(errors: Errors, limit: nat)
    requires limit >= 1 && errors != map[] && |Text(errors, limit)| > ERROR_LIMIT
    ensures var next := NextLimit(limit, |Text(errors, limit)|, |errors|);
      1 <= next < limit && FittingLimit(errors, next) == FittingLimit(errors, limit)
  {
    OneCharacterFits(errors);
    assert (|Text(errors, limit)| - ERROR_LIMIT + |errors| - 1) / |errors| >= 1;
  }

  lemma CeilingDivides(excess: nat, n: nat)
    requires n > 0 && excess > 0
    ensures var cut := (excess + n - 1) / n; cut * n >= excess > (cut - 1) * n
  {
    var a := excess + n - 1;
    assert a == a / n * n + a % n;
  }

  /** The arithmetic of one lowering. */
  lemma LoweredJustEnough(limit: nat, length: nat, n: nat)
    requires limit >= 1 && n > 0 && length > ERROR_LIMIT
    ensures var excess, next := length - 500, NextLimit(limit, length, n);
      && (next > 1 ==> (limit - next) * n >= excess > (limit - next - 1) * n)
      && (next == 1 ==> excess > (limit - 2) * n)
  {
    var excess := length - 500;
    CeilingDivides(excess, n);
    var cut := (excess + n - 1) / n;
    if limit - cut <= 1 { Monotone(limit - 2, cut - 1, n); }
  }

  /** The limit is lowered no further than needed: just so far that one character less per owner and
      cut would make up for the excess, or to one. */
  lemma LimitIsLoweredJustEnough(errors: Errors, limit: nat)
    requires limit >= 1 && errors != map[] && |Text(errors, limit)| > ERROR_LIMIT
    ensures var n, length := |errors|, |Text(errors, limit)|;
      var excess, next := length - 500, NextLimit(limit, length, n);
      && FittingLimit(errors, limit) == FittingLimit(errors, next)
      && (next > 1 ==> (limit - next) * n >= excess > (limit - next - 1) * n)
      && (next == 1 ==> excess > (limit - 2) * n)
  {
    LimitShrinks(errors, limit);
    LoweredJustEnough(limit, |Text(errors, limit)|, |errors|);
  }

  lemma Monotone(a: int, b: int, n: nat)
    requires a <= b
    ensures a * n <= b * n
  {
  }

  /** `_encode_error_state`: the loop ends for every message. */
  method EncodeErrorState(errors: Errors) returns (text: Option<string>)
    ensures text == Encode(errors)
  {
    var values := NonEmpty(errors);
    if values == map[] { return None; }
    var limit := ERROR_LIMIT;
    while true
      invariant 1 <= limit && FittingLimit(values, limit) == FittingLimit(values, ERROR_LIMIT)
      decreases limit
    {
      var encoded := Text(values, limit);
      if |encoded| <= ERROR_LIMIT { return Some(encoded); }
      LimitShrinks(values, limit);
      limit := NextLimit(limit, |encoded|, |values|);
    }
  }

  /** What is kept of `errors`: the same owners, each with a non-empty prefix. */
  predicate Keeps(errors: Errors, kept: Errors) {
    && kept.Keys == errors.Keys
    && forall o | o in errors :: kept[o] != "" && kept[o] <= errors[o]
  }

  /** The text fits, and reads back as the same owners with non-empty prefixes; whole messages, if
      those fit. */
  lemma EncodeKeepsOwners(errors: Errors)
    ensures Encode(errors).None? <==> NonEmpty(errors) == map[]
    ensures Encode(errors).Some? ==> |Encode(errors).value| <= ERROR_LIMIT
    ensures Keeps(NonEmpty(errors), Decode(Encode(errors)))
    ensures |Text(NonEmpty(errors), ERROR_LIMIT)| <= ERROR_LIMIT && (forall o | o in errors :: |errors[o]| <= ERROR_LIMIT) ==>
      Decode(Encode(errors)) == NonEmpty(errors)
  {
    var values := NonEmpty(errors);
    if values != map[] {
      TextRoundTrip(values, FittingLimit(values, ERROR_LIMIT));
    }
  }

  // ---- one owner at a time --------------------------------------------------------------

  /** `_error_with_failure` */
  function WithFailure(raw: Option<string>, owner: Owner, message: string): Option<string> {
    Encode(Decode(raw)[owner := Shown(message)])
  }

  /** `_error_after_success` */
  function AfterSuccess(raw: Option<string>, owner: Owner): Option<string> {
    Encode(Decode(raw) - {owner})
  }

  lemma DecodedAreNonEmpty(raw: Option<string>)
    ensures NonEmpty(Decode(raw)) == Decode(raw)
  {
  }

  /** `after` holds the owner's new message, and what was there of the others. */
  predicate Records(after: Errors, before: Errors, owner: Owner, message: string) {
    && after.Keys == before.Keys + {owner}
    && (forall o | o in before && o != owner :: after[o] != "" && after[o] <= before[o])
    && after[owner] != "" && after[owner] <= message
  }

  lemma KeptIsRecorded(errors: Errors, kept: Errors, owner: Owner, message: string)
    requires Keeps(errors[owner := message], kept)
    ensures Records(kept, errors, owner, message)
  {
    var all := errors[owner := message];
    assert forall o | o in errors && o != owner :: o in all && all[o] == errors[o];
  }

  lemma NonEmptyUpdate(errors: Errors, owner: Owner, message: string)
    requires NonEmpty(errors) == errors && message != ""
    ensures NonEmpty(errors[owner := message]) == errors[owner := message] != map[]
  {
    var all := errors[owner := message];
    forall o | o in all ensures all[o] != "" {
      if o != owner { assert o in NonEmpty(errors); }
    }
    assert owner in all;
  }

  function Shown(message: string): string { if message == "" then "unknown error" else message }

  /** One owner's failure records that owner and erases no other. */
  lemma FailureKeepsOthers(raw: Option<string>, owner: Owner, message: string)
    ensures Records(Decode(WithFailure(raw, owner, message)), Decode(raw), owner, Shown(message))
    ensures WithFailure(raw, owner, message).Some? && |WithFailure(raw, owner, message).value| <= ERROR_LIMIT
  {
    var errors := Decode(raw);
    var all := errors[owner := Shown(message)];
    DecodedAreNonEmpty(raw);
    NonEmptyUpdate(errors, owner, Shown(message));
    EncodeKeepsOwners(all);
    KeptIsRecorded(errors, Decode(Encode(all)), owner, Shown(message));
  }

  /** One owner's success erases that owner's error and no other. */
  lemma SuccessKeepsOthers(raw: Option<string>, owner: Owner)
    ensures Keeps(Decode(raw) - {owner}, Decode(AfterSuccess(raw, owner)))
    ensures AfterSuccess(raw, owner).None? <==> Decode(raw).Keys <= {owner}
    ensures AfterSuccess(raw, owner).Some? ==> |AfterSuccess(raw, owner).value| <= ERROR_LIMIT
  {
    var errors := Decode(raw) - {owner};
    DecodedAreNonEmpty(raw);
    assert NonEmpty(errors) == errors;
    EncodeKeepsOwners(errors);
    assert Decode(raw).Keys <= {owner} <==> errors == map[] by {
      assert errors.Keys == Decode(raw).Keys - {owner};
      assert errors == map[] <==> errors.Keys == {};
    }
  }

  lemma AllOwners()
    ensures forall o: Owner :: o in BY_NAME
  {
    assert BY_NAME[0] == Baseline && BY_NAME[1] == Incremental && BY_NAME[2] == Legacy && BY_NAME[3] == Sweep;
    forall o: Owner ensures o in BY_NAME {
      match o case Incremental => case Sweep => case Baseline => case Legacy =>
    }
  }
}
