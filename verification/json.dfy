/** The JSON text stored in the `user_data` column. `json.dumps` writes a flat
    `dict[str, str]` with the default separators `", "` and `": "` and with
    `ensure_ascii` escaping; `json.loads` reads it back. The decoder accepts the
    JSON subset that covers every text the encoder writes: one object whose
    members are strings, with optional whitespace between tokens. */
module Json {
  import opened Wrappers
  import opened Dicts

  /** JSON whitespace: `[ \t\n\r]`. */
  predicate IsJsonSpace(c: char) {
    c == ' ' || c == '\t' || c == '\n' || c == '\r'
  }

  function SkipSpace(s: string): (r: string)
    ensures |r| <= |s| && r == s[|s| - |r|..]
    ensures r == [] || !IsJsonSpace(r[0])
  {
    if |s| > 0 && IsJsonSpace(s[0]) then SkipSpace(s[1..]) else s
  }

  /** A character `json.dumps` copies as is: printable ASCII other than `"` and `\`. */
  predicate IsPlain(c: char) {
    ' ' <= c <= '~' && c != '"' && c != '\\'
  }

  /** Lower-case hexadecimal digit for `0 <= n < 16`. */
  function HexDigit(n: nat): char
    requires n < 16
  {
    if n < 10 then ('0' as int + n) as char else ('a' as int + n - 10) as char
  }

  /** The value of one hexadecimal digit, either case. */
  function HexValue(c: char): (r: Option<nat>)
    ensures r.Some? ==> r.value < 16
  {
    if '0' <= c <= '9' then Some(c as int - '0' as int)
    else if 'a' <= c <= 'f' then Some(c as int - 'a' as int + 10)
    else if 'A' <= c <= 'F' then Some(c as int - 'A' as int + 10)
    else None
  }

  /** `int(esc, 16)` for a four-digit escape. */
  function Hex4Value(s: string): (r: Option<nat>)
    requires |s| == 4
    ensures r.Some? ==> r.value < 0x10000
  {
    var a :- HexValue(s[0]);
    var b :- HexValue(s[1]);
    var c :- HexValue(s[2]);
    var d :- HexValue(s[3]);
    Some(((a * 16 + b) * 16 + c) * 16 + d)
  }

  /** `'{0:04x}'.format(n)`: four lower-case hex digits. */
  function Hex4(n: nat): (r: string)
    requires n < 0x10000
    ensures |r| == 4
  {
    var n1 := n / 16;
    var n2 := n1 / 16;
    [HexDigit(n2 / 16), HexDigit(n2 % 16), HexDigit(n1 % 16), HexDigit(n % 16)]
  }

  lemma HexDigitValue(n: nat)
    requires n < 16
    ensures HexValue(HexDigit(n)) == Some(n)
  {
  }

  /** The four digits `Hex4` writes read back as the number written. */
  lemma Hex4RoundTrip(n: nat)
    requires n < 0x10000
    ensures Hex4Value(Hex4(n)) == Some(n)
  {
    var n1 := n / 16;
    var n2 := n1 / 16;
    var a, b, c, e := n2 / 16, n2 % 16, n1 % 16, n % 16;
    assert n == n1 * 16 + e && n1 == n2 * 16 + c && n2 == a * 16 + b;
    HexDigitValue(a);
    HexDigitValue(b);
    HexDigitValue(c);
    HexDigitValue(e);
    var h := Hex4(n);
    assert h[0] == HexDigit(a) && h[1] == HexDigit(b) && h[2] == HexDigit(c) && h[3] == HexDigit(e);
  }

  /** How `json.dumps` (with `ensure_ascii`) writes one character inside a string. */
  function EscapeChar(c: char): (r: string)
    ensures |r| > 0
  {
    if IsPlain(c) then [c]
    else if c == '\\' then "\\\\"
    else if c == '"' then "\\\""
    else if c == '\U{8}' then "\\b"
    else if c == '\U{C}' then "\\f"
    else if c == '\n' then "\\n"
    else if c == '\r' then "\\r"
    else if c == '\t' then "\\t"
    else if c as int < 0x10000 then "\\u" + Hex4(c as int)
    else
      var n := c as int - 0x10000;
      "\\u" + Hex4(0xD800 + n / 0x400) + "\\u" + Hex4(0xDC00 + n % 0x400)
  }

  function EscapeChars(s: string): string {
    if |s| == 0 then "" else EscapeChar(s[0]) + EscapeChars(s[1..])
  }

  /** A JSON string literal for `s`. */
  function EncodeString(s: string): string {
    "\"" + EscapeChars(s) + "\""
  }

  function EncodeField(f: Field): string {
    EncodeString(f.key) + ": " + EncodeString(f.value)
  }

  /** The members of a non-empty object, separated by `", "`, and the closing brace. */
  function EncodeMembers(fs: seq<Field>): (r: string)
    requires |fs| > 0
    ensures |r| > 0 && r[0] == '"' && r[|r| - 1] == '}'
  {
    if |fs| == 1 then EncodeField(fs[0]) + "}"
    else EncodeField(fs[0]) + (", " + EncodeMembers(fs[1..]))
  }

  /** `json.dumps(d)`. */
  function EncodeDict(d: Dict): (r: string)
    ensures |r| >= 2 && r[0] == '{' && r[|r| - 1] == '}'
  {
    if |d| == 0 then "{}" else "{" + EncodeMembers(d)
  }

  /** What a successful scan produced, and the input left after it. */
  datatype Scanned = Scanned(text: string, rest: string)

  /** The single-character escapes JSON defines after a backslash. */
  function ShortEscape(e: char): Option<char> {
    if e == '"' then Some('"')
    else if e == '\\' then Some('\\')
    else if e == '/' then Some('/')
    else if e == 'b' then Some('\U{8}')
    else if e == 'f' then Some('\U{C}')
    else if e == 'n' then Some('\n')
    else if e == 'r' then Some('\r')
    else if e == 't' then Some('\t')
    else None
  }

  function Prepend(c: char, p: Option<Scanned>): Option<Scanned> {
    match p
    case None => None
    case Some(q) => Some(Scanned([c] + q.text, q.rest))
  }

  /** One decoded character and the number of input characters it took. */
  datatype Unit = Unit(ch: char, len: nat)

  /** The escape sequence at the start of `s`. A `\u` escape that names a
      surrogate must be a high surrogate immediately followed by an escaped low
      surrogate, the pair standing for one character. */
  function DecodeEscape(s: string): (r: Option<Unit>)
    requires |s| > 0 && s[0] == '\\'
    ensures r.Some? ==> 2 <= r.value.len <= |s|
  {
    if |s| < 2 then None
    else if s[1] != 'u' then
      var c :- ShortEscape(s[1]);
      Some(Unit(c, 2))
    else if |s| < 6 then None
    else
      var hi :- Hex4Value(s[2..6]);
      if hi < 0xD800 || 0xE000 <= hi then Some(Unit(hi as char, 6))
      else if 0xDC00 <= hi then None
      else if |s| < 12 || s[6] != '\\' || s[7] != 'u' then None
      else
        var lo :- Hex4Value(s[8..12]);
        if lo < 0xDC00 || 0xE000 <= lo then None
        else Some(Unit((0x10000 + (hi - 0xD800) * 0x400 + (lo - 0xDC00)) as char, 12))
  }

  /** The next character of a string body other than its closing quote. Raw
      control characters are rejected, as in strict mode. */
  function ScanUnit(s: string): (r: Option<Unit>)
    requires |s| > 0
    ensures r.Some? ==> 1 <= r.value.len <= |s|
  {
    if s[0] == '\\' then DecodeEscape(s)
    else if s[0] < ' ' then None
    else Some(Unit(s[0], 1))
  }

  /** The body of a JSON string literal, starting just after its opening quote:
      decodes up to the closing quote and returns what follows it. */
  function ScanString(s: string): (r: Option<Scanned>)
    ensures r.Some? ==> |r.value.rest| < |s|
    decreases |s|
  {
    if |s| == 0 then None
    else if s[0] == '"' then Some(Scanned("", s[1..]))
    else
      var u :- ScanUnit(s);
      Prepend(u.ch, ScanString(s[u.len..]))
  }

  /** One member read: the field and the input after it, whitespace skipped. */
  datatype Member = Member(field: Field, rest: string)

  /** A `"key": "value"` member, starting at the key's opening quote. */
  function ParseMember(s: string): (r: Option<Member>)
    ensures r.Some? ==> |r.value.rest| < |s|
  {
    if |s| == 0 || s[0] != '"' then None
    else
      var key :- ScanString(s[1..]);
      var a := SkipSpace(key.rest);
      if |a| == 0 || a[0] != ':' then None
      else
        var b := SkipSpace(a[1..]);
        if |b| == 0 || b[0] != '"' then None
        else
          var value :- ScanString(b[1..]);
          Some(Member(Field(key.text, value.text), SkipSpace(value.rest)))
  }

  /** The members of an object in source order, and the input left after its
      closing brace. */
  datatype Members = Members(pairs: seq<Field>, rest: string)

  /** The members of an object, starting at a member's opening quote and ending
      after the closing brace: Python's `pairs` list, keys possibly repeated. */
  function ParseMembers(s: string): Option<Members>
    decreases |s|
  {
    var m :- ParseMember(s);
    var c := m.rest;
    if |c| == 0 then None
    else if c[0] == '}' then Some(Members([m.field], c[1..]))
    else if c[0] == ',' then PrependField(m.field, ParseMembers(SkipSpace(c[1..])))
    else None
  }

  function PrependField(f: Field, m: Option<Members>): Option<Members> {
    match m
    case None => None
    case Some(ms) => Some(Members([f] + ms.pairs, ms.rest))
  }

  /** `dict(pairs)` continued from `acc`: a repeated key keeps its first position
      and its last value. */
  function FromPairs(acc: Dict, pairs: seq<Field>): Dict
    decreases |pairs|
  {
    if |pairs| == 0 then acc
    else FromPairs(Put(acc, pairs[0].key, pairs[0].value), pairs[1..])
  }

  /** `json.loads(text)` where the result must be a `dict[str, str]`; `None`
      stands for the `JSONDecodeError` Python raises. */
  function DecodeDict(text: string): Option<Dict> {
    var t := SkipSpace(text);
    if |t| == 0 || t[0] != '{' then None else DecodeBody(SkipSpace(t[1..]))
  }

  /** What follows an object's opening brace and the whitespace after it. */
  function DecodeBody(u: string): Option<Dict> {
    if |u| > 0 && u[0] == '}' then
      if |SkipSpace(u[1..])| == 0 then Some([]) else None
    else DecodeMembers(u)
  }

  /** A non-empty member list, its closing brace, then only whitespace. */
  function DecodeMembers(u: string): Option<Dict> {
    var p :- ParseMembers(u);
    if |SkipSpace(p.rest)| == 0 then Some(FromPairs([], p.pairs)) else None
  }

  lemma ScanShortEscape(c: char, e: char, t: string)
    requires ShortEscape(e) == Some(c) && e != 'u'
    ensures ScanUnit(['\\', e] + t) == Some(Unit(c, 2))
  {
  }

  lemma ScanBmpEscape(c: char, t: string)
    requires c as int < 0x10000
    ensures ScanUnit("\\u" + Hex4(c as int) + t) == Some(Unit(c, 6))
  {
    var s := "\\u" + Hex4(c as int) + t;
    assert s[2..6] == Hex4(c as int);
    Hex4RoundTrip(c as int);
  }

  lemma ScanAstralEscape(c: char, t: string)
    requires 0x10000 <= c as int
    ensures var n := c as int - 0x10000;
      ScanUnit("\\u" + Hex4(0xD800 + n / 0x400) + "\\u" + Hex4(0xDC00 + n % 0x400) + t)
      == Some(Unit(c, 12))
  {
    var n := c as int - 0x10000;
    var hi := 0xD800 + n / 0x400;
    var lo := 0xDC00 + n % 0x400;
    var s := "\\u" + Hex4(hi) + "\\u" + Hex4(lo) + t;
    assert s[2..6] == Hex4(hi);
    assert s[6] == '\\' && s[7] == 'u';
    assert s[8..12] == Hex4(lo);
    Hex4RoundTrip(hi);
    Hex4RoundTrip(lo);
    assert 0x10000 + (hi - 0xD800) * 0x400 + (lo - 0xDC00) == c as int;
  }

  /** The escape of one character scans back as that character, all of it consumed. */
  lemma ScanEscapedUnit(c: char, t: string)
    ensures ScanUnit(EscapeChar(c) + t) == Some(Unit(c, |EscapeChar(c)|))
  {
    if IsPlain(c) {
    } else if c == '\\' {
      ScanShortEscape(c, '\\', t);
    } else if c == '"' {
      ScanShortEscape(c, '"', t);
    } else if c == '\U{8}' {
      ScanShortEscape(c, 'b', t);
    } else if c == '\U{C}' {
      ScanShortEscape(c, 'f', t);
    } else if c == '\n' {
      ScanShortEscape(c, 'n', t);
    } else if c == '\r' {
      ScanShortEscape(c, 'r', t);
    } else if c == '\t' {
      ScanShortEscape(c, 't', t);
    } else if c as int < 0x10000 {
      ScanBmpEscape(c, t);
    } else {
      ScanAstralEscape(c, t);
    }
  }

  /** Scanning the escape of one character yields that character. */
  lemma ScanEscapedChar(c: char, t: string)
    ensures ScanString(EscapeChar(c) + t) == Prepend(c, ScanString(t))
  {
    var e := EscapeChar(c);
    ScanEscapedUnit(c, t);
    assert (e + t)[|e|..] == t;
    if c == '"' {
      assert e[0] == '\\';
    }
    assert (e + t)[0] != '"';
  }

  /** Scanning an escaped string followed by a closing quote gives the string back. */
  lemma {:induction false} ScanEscaped(s: string, rest: string)
    ensures ScanString(EscapeChars(s) + "\"" + rest) == Some(Scanned(s, rest))
    decreases |s|
  {
    if |s| == 0 {
      assert EscapeChars(s) + "\"" + rest == "\"" + rest;
    } else {
      var t := EscapeChars(s[1..]) + "\"" + rest;
      assert EscapeChars(s) + "\"" + rest == EscapeChar(s[0]) + t;
      ScanEscapedChar(s[0], t);
      ScanEscaped(s[1..], rest);
      assert [s[0]] + s[1..] == s;
    }
  }

  lemma SkipOneSpace(x: string)
    requires x == [] || !IsJsonSpace(x[0])
    ensures SkipSpace(" " + x) == x
  {
    assert (" " + x)[1..] == x;
  }

  /** A string literal followed by anything scans back to the string and the rest. */
  lemma ScanEncodedString(k: string, t: string)
    ensures var s := EncodeString(k) + t;
      |s| > 0 && s[0] == '"' && ScanString(s[1..]) == Some(Scanned(k, t))
  {
    var body := EscapeChars(k) + "\"" + t;
    assert EncodeString(k) + t == "\"" + body by {
      assert "\"" + EscapeChars(k) + "\"" + t == "\"" + (EscapeChars(k) + "\"" + t);
    }
    assert ("\"" + body)[1..] == body;
    ScanEscaped(k, t);
  }

  /** An encoded member, and whatever follows it, starts with the encoded key. */
  lemma KeyLeadsMember(f: Field, tail: string)
    ensures EncodeField(f) + tail == EncodeString(f.key) + (": " + EncodeString(f.value) + tail)
  {
    var K, V := EncodeString(f.key), EncodeString(f.value);
    assert K + ": " + V + tail == K + (": " + V + tail);
  }

  /** Scanning an encoded key leaves the rest of the member and what follows it. */
  lemma ScanEncodedKey(f: Field, tail: string)
    ensures var s := EncodeField(f) + tail;
      |s| > 0 && s[0] == '"' && ScanString(s[1..]) == Some(Scanned(f.key, ": " + EncodeString(f.value) + tail))
  {
    var R1 := ": " + EncodeString(f.value) + tail;
    KeyLeadsMember(f, tail);
    ScanEncodedString(f.key, R1);
  }

  /** After the key: the colon, one space, then the encoded value. */
  lemma ScanEncodedValue(f: Field, tail: string)
    ensures var R1 := ": " + EncodeString(f.value) + tail;
      var b := SkipSpace(R1[1..]);
      && SkipSpace(R1) == R1
      && |b| > 0 && b[0] == '"'
      && ScanString(b[1..]) == Some(Scanned(f.value, tail))
  {
    var V := EncodeString(f.value);
    var R1 := ": " + V + tail;
    assert R1[1..] == " " + (V + tail);
    ScanEncodedString(f.value, tail);
    SkipOneSpace(V + tail);
  }

  /** An encoded member reads back as the field it encodes. */
  lemma ParseEncodedMember(f: Field, tail: string)
    requires tail == [] || !IsJsonSpace(tail[0])
    ensures ParseMember(EncodeField(f) + tail) == Some(Member(f, tail))
  {
    var s := EncodeField(f) + tail;
    var R1 := ": " + EncodeString(f.value) + tail;
    ScanEncodedKey(f, tail);
    ScanEncodedValue(f, tail);
    var key := Scanned(f.key, R1);
    assert ScanString(s[1..]) == Some(key);
    var a := SkipSpace(key.rest);
    assert a == R1;
    var b := SkipSpace(a[1..]);
    var value := Scanned(f.value, tail);
    assert ScanString(b[1..]) == Some(value);
    assert SkipSpace(value.rest) == tail;
  }

  /** A member followed by the closing brace ends the object. */
  lemma ParseLastField(f: Field, rest: string)
    ensures ParseMembers(EncodeField(f) + ("}" + rest)) == Some(Members([f], rest))
  {
    var tail := "}" + rest;
    ParseEncodedMember(f, tail);
    assert tail[1..] == rest;
  }

  lemma CommaSpace(more: string)
    requires more == [] || !IsJsonSpace(more[0])
    ensures var c := ", " + more; |c| > 0 && c[0] == ',' && SkipSpace(c[1..]) == more
  {
    var c := ", " + more;
    assert c[1..] == " " + more;
    SkipOneSpace(more);
  }

  lemma ParseMembersAfterComma(s: string, f: Field, more: string)
    requires ParseMember(s) == Some(Member(f, ", " + more))
    requires SkipSpace((", " + more)[1..]) == more
    ensures ParseMembers(s) == PrependField(f, ParseMembers(more))
  {
  }

  /** A member followed by a comma hands the rest to the next round. */
  lemma ParseFieldThenMore(f: Field, more: string)
    requires more == [] || !IsJsonSpace(more[0])
    ensures ParseMembers(EncodeField(f) + (", " + more)) == PrependField(f, ParseMembers(more))
  {
    CommaSpace(more);
    ParseEncodedMember(f, ", " + more);
    ParseMembersAfterComma(EncodeField(f) + (", " + more), f, more);
  }

  lemma ParseOneMember(d: seq<Field>)
    requires |d| == 1
    ensures ParseMembers(EncodeMembers(d)) == Some(Members(d, ""))
  {
    EncodeMembersOne(d);
    assert "}" + "" == "}";
    ParseLastField(d[0], "");
    assert [d[0]] == d;
  }

  lemma ParseConsMembers(f: Field, fs: seq<Field>, m: string)
    requires |m| > 0 && m[0] == '"'
    requires ParseMembers(m) == Some(Members(fs, ""))
    ensures ParseMembers(EncodeField(f) + (", " + m)) == Some(Members([f] + fs, ""))
  {
    ParseFieldThenMore(f, m);
  }

  lemma EncodeMembersOne(d: seq<Field>)
    requires |d| == 1
    ensures EncodeMembers(d) == EncodeField(d[0]) + "}"
  {
  }

  lemma EncodeMembersCons(d: seq<Field>)
    requires |d| > 1
    ensures EncodeMembers(d) == EncodeField(d[0]) + (", " + EncodeMembers(d[1..]))
  {
  }

  /** Kept apart: stated inside ParseMembersStep, this sequence fact drags the parser's definitions into the proof. */
  lemma HeadTail(d: seq<Field>)
    requires |d| > 0
    ensures [d[0]] + d[1..] == d
  {
  }

  lemma ParseMembersStep(d: seq<Field>)
    requires |d| > 1
    requires ParseMembers(EncodeMembers(d[1..])) == Some(Members(d[1..], ""))
    ensures ParseMembers(EncodeMembers(d)) == Some(Members(d, ""))
  {
    EncodeMembersCons(d);
    ParseConsMembers(d[0], d[1..], EncodeMembers(d[1..]));
    HeadTail(d);
  }

  /** Parsing the encoded members of `d` gives back exactly the fields of `d`. */
  lemma {:induction false} ParseEncodedMembers(d: seq<Field>)
    requires |d| > 0
    ensures ParseMembers(EncodeMembers(d)) == Some(Members(d, ""))
    decreases |d|
  {
    if |d| == 1 {
      ParseOneMember(d);
    } else {
      ParseEncodedMembers(d[1..]);
      ParseMembersStep(d);
    }
  }

  /** Rebuilding a dict from its own fields, in order, changes nothing. */
  lemma {:induction false} FromDistinctPairs(acc: Dict, pairs: seq<Field>)
    requires DistinctKeys(acc + pairs)
    ensures FromPairs(acc, pairs) == acc + pairs
    decreases |pairs|
  {
    if |pairs| > 0 {
      var f := pairs[0];
      assert f.key !in Keys(acc) by {
        forall i | 0 <= i < |acc| ensures acc[i].key != f.key {
          assert (acc + pairs)[i] == acc[i];
          assert (acc + pairs)[|acc|] == f;
        }
      }
      assert (acc + [f]) + pairs[1..] == acc + pairs by {
        assert pairs == [f] + pairs[1..];
      }
      FromDistinctPairs(acc + [f], pairs[1..]);
    }
  }

  lemma DecodeBrace(text: string)
    requires |text| > 0 && text[0] == '{'
    ensures DecodeDict(text) == DecodeBody(SkipSpace(text[1..]))
  {
    assert SkipSpace(text) == text;
  }

  lemma BodyMembers(u: string)
    requires |u| > 0 && u[0] != '}'
    ensures DecodeBody(u) == DecodeMembers(u)
  {
  }

  /** The text after `{` when it starts with neither whitespace nor `}`. */
  lemma DecodeOpening(body: string)
    requires |body| > 0 && !IsJsonSpace(body[0]) && body[0] != '}'
    ensures DecodeDict("{" + body) == DecodeMembers(body)
  {
    var text := "{" + body;
    DecodeBrace(text);
    assert text[1..] == body;
    assert SkipSpace(body) == body;
    BodyMembers(body);
  }

  lemma MembersThenEnd(u: string, pairs: seq<Field>)
    requires ParseMembers(u) == Some(Members(pairs, ""))
    ensures DecodeMembers(u) == Some(FromPairs([], pairs))
  {
    assert SkipSpace("") == "";
  }

  /** An object whose members parse to `pairs` with nothing after the brace. */
  lemma DecodeObject(body: string, pairs: seq<Field>)
    requires |body| > 0 && !IsJsonSpace(body[0]) && body[0] != '}'
    requires ParseMembers(body) == Some(Members(pairs, ""))
    ensures DecodeDict("{" + body) == Some(FromPairs([], pairs))
  {
    MembersThenEnd(body, pairs);
    DecodeOpening(body);
  }

  lemma DecodeEncodedMembers(d: seq<Field>)
    requires |d| > 0
    ensures DecodeDict("{" + EncodeMembers(d)) == Some(FromPairs([], d))
  {
    ParseEncodedMembers(d);
    DecodeObject(EncodeMembers(d), d);
  }

  lemma BodyEmpty(u: string)
    requires |u| == 1 && u[0] == '}'
    ensures DecodeBody(u) == Some([])
  {
    assert |u[1..]| == 0;
  }

  lemma DecodeEmpty(text: string)
    requires |text| == 2 && text[0] == '{' && text[1] == '}'
    ensures DecodeDict(text) == Some([])
  {
    var u := text[1..];
    assert DecodeDict(text) == DecodeBody(u) by {
      DecodeBrace(text);
      assert SkipSpace(u) == u;
    }
    BodyEmpty(u);
  }

  lemma DecodeEncodeEmpty(d: Dict)
    requires |d| == 0
    ensures DecodeDict(EncodeDict(d)) == Some(d)
  {
    DecodeEmpty(EncodeDict(d));
  }

  lemma FromOwnFields(d: Dict)
    ensures FromPairs([], d) == d
  {
    assert [] + d == d;
    FromDistinctPairs([], d);
  }

  lemma DecodeEncodeMembers(d: Dict)
    requires |d| > 0
    ensures DecodeDict(EncodeDict(d)) == Some(d)
  {
    DecodeEncodedMembers(d);
    FromOwnFields(d);
  }

  /** `json.loads(json.dumps(d)) == d` for every string-to-string dict. */
  lemma DecodeEncode(d: Dict)
    ensures DecodeDict(EncodeDict(d)) == Some(d)
  {
    if |d| == 0 {
      DecodeEncodeEmpty(d);
    } else {
      DecodeEncodeMembers(d);
    }
  }
}
