/** What the chatbot reads out of a user's message: the intent behind it, an
    Indian mobile number, and a person's name. All three are plain string
    processing with no model call behind them. */
module Extract {
  import opened Wrappers
  import opened Text

  // ---------------------------------------------------------------------------
  // Intent
  // ---------------------------------------------------------------------------

  datatype Intent = RegisterComplaint | CheckStatus | General

  const ComplaintKeywords: seq<string> :=
    ["complaint", "issue", "problem", "register", "file", "submit", "grievance"]

  const StatusKeywords: seq<string> :=
    ["status", "check", "update", "progress", "resolved"]

  /** Some keyword of `keys` occurs in `text`. */
  predicate Mentions(text: string, keys: seq<string>) {
    exists k :: 0 <= k < |keys| && Contains(text, keys[k])
  }

  /** `any(keyword in text for keyword in keys)`, trying the keywords in order. */
  function AnyIn(text: string, keys: seq<string>): (b: bool)
    ensures b <==> Mentions(text, keys)
  {
    if |keys| == 0 then false
    else if Occurs(text, keys[0]) then true
    else
      assert forall k :: 1 <= k < |keys| ==> keys[k] == keys[1..][k - 1];
      AnyIn(text, keys[1..])
  }

  /** `analyze_intent`: a complaint keyword wins over a status keyword, and a
      message with neither is a general query. */
  function AnalyzeIntent(message: string): (r: Intent)
    ensures r == RegisterComplaint <==> Mentions(Lower(message), ComplaintKeywords)
    ensures r == CheckStatus <==>
      !Mentions(Lower(message), ComplaintKeywords) && Mentions(Lower(message), StatusKeywords)
    ensures r == General <==>
      !Mentions(Lower(message), ComplaintKeywords) && !Mentions(Lower(message), StatusKeywords)
  {
    var text := Lower(message);
    if AnyIn(text, ComplaintKeywords) then RegisterComplaint
    else if AnyIn(text, StatusKeywords) then CheckStatus
    else General
  }

  /** The classification does not depend on letter case. */
  lemma IntentIgnoresCase(message: string)
    ensures AnalyzeIntent(Lower(message)) == AnalyzeIntent(message)
  {
    LowerIdempotent(message);
  }

  // ---------------------------------------------------------------------------
  // Mobile number: an optional country code, an optional separator, then ten
  // digits starting 6 to 9, found leftmost in the message
  // ---------------------------------------------------------------------------

  /** The separator class `[\s-]`. */
  predicate IsSep(c: char) {
    IsSpace(c) || c == '-'
  }

  /** `[6-9]\d{9}` matches at `j`: ten digits, the first of them 6 to 9. */
  predicate CoreAt(s: string, j: nat) {
    && j + 10 <= |s|
    && '6' <= s[j] <= '9'
    && forall k :: j < k < j + 10 ==> IsDigit(s[k])
  }

  /** A valid mobile number as the chatbot stores it. */
  predicate IsMobile(m: string) {
    CoreAt(m, 0) && |m| == 10
  }

  /** A match of the whole pattern: it starts at `start`, the group took
      `group` characters, the ten-digit core starts at `core`, and the match
      ends at `core + 10`. */
  datatype Match = Match(start: nat, group: nat, core: nat)

  /** The group text `(\+91|91)?` can take, by its length. */
  function GroupText(g: nat): string {
    if g == 3 then "+91" else if g == 2 then "91" else ""
  }

  /** The pieces of `m` fit together in `s`: the group text at `start`, then
      the optional separator and the core. */
  predicate Matched(s: string, m: Match) {
    && (m.group == 0 || m.group == 2 || m.group == 3)
    && OccursAt(s, GroupText(m.group), m.start)
    && SepThenCore(s, m.start + m.group) == Some(m.core)
  }

  /** `[\s-]?[6-9]\d{9}` from position `p`: the optional separator is tried
      taken first, then skipped, as the greedy `?` does. */
  function SepThenCore(s: string, p: nat): (r: Option<nat>)
    ensures r.Some? ==> CoreAt(s, r.value) && p <= r.value <= p + 1
    ensures r.Some? && r.value == p + 1 ==> IsSep(s[p])
    ensures r.None? ==> !CoreAt(s, p)
    ensures r.None? ==> !(p < |s| && IsSep(s[p]) && CoreAt(s, p + 1))
  {
    if p < |s| && IsSep(s[p]) && CoreAt(s, p + 1) then Some(p + 1)
    else if CoreAt(s, p) then Some(p)
    else None
  }

  /** The pattern anchored at `i`. The group `(\+91|91)?` is tried with `+91`,
      then with `91`, then empty; the first alternative that completes wins. */
  function MatchAt(s: string, i: nat): (r: Option<Match>)
    ensures r.Some? ==> r.value.start == i && CoreAt(s, r.value.core)
    ensures r.Some? ==> Matched(s, r.value)
    ensures CoreAt(s, i) ==> r.Some?
  {
    var plus := if OccursAt(s, "+91", i) then SepThenCore(s, i + 3) else None;
    var bare := if OccursAt(s, "91", i) then SepThenCore(s, i + 2) else None;
    if plus.Some? then Some(Match(i, 3, plus.value))
    else if bare.Some? then Some(Match(i, 2, bare.value))
    else
      var p :- SepThenCore(s, i);
      assert OccursAt(s, GroupText(0), i);
      Some(Match(i, 0, p))
  }

  /** The alternatives are tried in order: any way of matching at `i` means
      `MatchAt` finds a match there, with a group at least as long. So no
      match at `i` means no way of matching there at all. */
  lemma MatchAtPrefers(s: string, i: nat)
    ensures forall m: Match :: m.start == i && Matched(s, m) ==>
      MatchAt(s, i).Some? && m.group <= MatchAt(s, i).value.group
  {
    forall m: Match | m.start == i && Matched(s, m)
      ensures MatchAt(s, i).Some? && m.group <= MatchAt(s, i).value.group
    {
      if m.group == 3 {
        assert OccursAt(s, "+91", i) && SepThenCore(s, i + 3).Some?;
      } else if m.group == 2 {
        assert OccursAt(s, "91", i) && SepThenCore(s, i + 2).Some?;
      } else {
        assert SepThenCore(s, i).Some?;
      }
    }
  }

  /** `re.search`: the match that starts leftmost, from position `i` on. */
  function Search(s: string, i: nat): (r: Option<Match>)
    ensures r.Some? ==> i <= r.value.start && MatchAt(s, r.value.start) == r
    ensures r.Some? ==> forall k :: i <= k < r.value.start ==> MatchAt(s, k).None?
    ensures r.None? ==> forall k :: i <= k <= |s| ==> MatchAt(s, k).None?
    decreases |s| - i
  {
    if i > |s| then None
    else if MatchAt(s, i).Some? then MatchAt(s, i)
    else Search(s, i + 1)
  }

  /** `re.sub(r'[^\d]', '', text)`. */
  function DigitsOnly(text: string): (r: string)
    ensures forall k :: 0 <= k < |r| ==> IsDigit(r[k])
    ensures forall c :: c in r <==> c in text && IsDigit(c)
  {
    if |text| == 0 then []
    else if IsDigit(text[0]) then [text[0]] + DigitsOnly(text[1..])
    else DigitsOnly(text[1..])
  }

  lemma {:induction false} DigitsOnlyAppend(a: string, b: string)
    ensures DigitsOnly(a + b) == DigitsOnly(a) + DigitsOnly(b)
    decreases |a|
  {
    if |a| == 0 {
      assert a + b == b;
    } else {
      assert (a + b)[0] == a[0];
      assert (a + b)[1..] == a[1..] + b;
      DigitsOnlyAppend(a[1..], b);
    }
  }

  lemma {:induction false} DigitsOnlyOfDigits(t: string)
    requires forall k :: 0 <= k < |t| ==> IsDigit(t[k])
    ensures DigitsOnly(t) == t
    decreases |t|
  {
    if |t| > 0 {
      DigitsOnlyOfDigits(t[1..]);
      assert t == [t[0]] + t[1..];
    }
  }

  /** The separator is not a digit, so the digits from `p` on are the core's. */
  lemma DigitsAfterGroup(s: string, p: nat, c: nat)
    requires SepThenCore(s, p) == Some(c)
    ensures p <= c && DigitsOnly(s[p..c + 10]) == s[c..c + 10]
  {
    var core := s[c..c + 10];
    assert forall k :: 0 <= k < 10 ==> IsDigit(core[k]) by {
      forall k | 0 <= k < 10 ensures IsDigit(core[k]) {
        assert core[k] == s[c + k];
      }
    }
    if c == p + 1 {
      assert !IsDigit(s[p]);
      SkipNonDigit(s[p..c + 10], core);
    } else {
      assert s[p..c + 10] == core;
      DigitsOnlyOfDigits(core);
    }
  }

  lemma SkipNonDigit(t: string, core: string)
    requires |t| > 0 && !IsDigit(t[0]) && t[1..] == core
    requires forall k :: 0 <= k < |core| ==> IsDigit(core[k])
    ensures DigitsOnly(t) == core
  {
    DigitsOnlyOfDigits(core);
  }

  lemma DigitsOfGroup(g: nat)
    requires g == 2 || g == 3
    ensures DigitsOnly(GroupText(g)) == "91"
  {
    var nine := "91";
    DigitsOnlyOfDigits(nine);
    if g == 3 {
      assert GroupText(g) == "+" + nine;
      DigitsOnlyAppend("+", nine);
    }
  }

  /** The digits of a matched text: `91` when the group matched, then the core. */
  lemma MatchDigits(s: string, m: Match)
    requires Matched(s, m)
    ensures m.start <= m.core
    ensures var digits := DigitsOnly(s[m.start..m.core + 10]);
      digits == s[m.core..m.core + 10] || digits == "91" + s[m.core..m.core + 10]
  {
    var i, g, c := m.start, m.group, m.core;
    DigitsAfterGroup(s, i + g, c);
    if g == 0 {
      assert s[i..c + 10] == s[i + g..c + 10];
    } else {
      GroupThenCore(s, i, g, c);
    }
  }

  lemma GroupThenCore(s: string, i: nat, g: nat, c: nat)
    requires g == 2 || g == 3
    requires OccursAt(s, GroupText(g), i)
    requires i + g <= c && c + 10 <= |s|
    requires DigitsOnly(s[i + g..c + 10]) == s[c..c + 10]
    ensures DigitsOnly(s[i..c + 10]) == "91" + s[c..c + 10]
  {
    var group, rest := GroupText(g), s[i + g..c + 10];
    DigitsOfGroup(g);
    assert s[i..c + 10] == group + rest;
    DigitsOnlyAppend(group, rest);
  }

  /** The length test on the digits of a match: ten digits are the number,
      twelve that start with `91` lose the country code, anything else is
      refused. */
  function Normalize(digits: string): (r: Option<string>)
  {
    if |digits| == 10 then Some(digits)
    else if |digits| == 12 && digits[..2] == "91" then Some(digits[2..])
    else None
  }

  /** Both shapes a match's digits can take come out as the core. */
  lemma NormalizeCore(core: string)
    requires |core| == 10
    ensures Normalize(core) == Some(core)
    ensures Normalize("91" + core) == Some(core)
  {
    var d := "91" + core;
    assert d[..2] == "91" && d[2..] == core;
  }

  /** `extract_info_from_message(message, 'mobile')`. */
  function ExtractMobile(message: string): (r: Option<string>)
    ensures r.Some? ==> IsMobile(r.value)
    ensures r.Some? ==> exists j :: 0 <= j && CoreAt(message, j) && r.value == message[j..j + 10]
    ensures r.Some? <==> exists j :: 0 <= j <= |message| && CoreAt(message, j)
  {
    match Search(message, 0)
    case None =>
      forall j | 0 <= j <= |message| ensures !CoreAt(message, j) {
        assert MatchAt(message, j).None?;
      }
      None
    case Some(m) =>
      MatchDigits(message, m);
      NormalizeCore(message[m.core..m.core + 10]);
      Normalize(DigitsOnly(message[m.start..m.core + 10]))
  }

  /** What `ExtractMobile` returns once the search has found `m`. */
  lemma ExtractFound(s: string, m: Match)
    requires Search(s, 0) == Some(m)
    ensures Matched(s, m) && m.start <= m.core
    ensures ExtractMobile(s) == Some(s[m.core..m.core + 10])
  {
    MatchDigits(s, m);
    NormalizeCore(s[m.core..m.core + 10]);
  }

  /** A stored mobile number is extracted as itself: the `91` alternative
      cannot complete inside ten characters, and the empty group does. */
  lemma MobileIdempotent(m: string)
    requires IsMobile(m)
    ensures ExtractMobile(m) == Some(m)
  {
    assert !OccursAt(m, "+91", 0);
    assert SepThenCore(m, 2).None?;
    assert SepThenCore(m, 0) == Some(0);
    assert MatchAt(m, 0) == Some(Match(0, 0, 0));
    ExtractFound(m, Match(0, 0, 0));
    assert m[0..10] == m;
  }

  /** A message shorter than ten characters holds no mobile number. */
  lemma ShortMessageNoMobile(message: string)
    requires |message| < 10
    ensures ExtractMobile(message) == None
  {
  }

  /** A number typed with the country code: `+91` or `91`, at most one
      separator, then the number. The country code is stripped, also where
      `91` followed by the number's first eight digits would itself be a
      valid number. */
  lemma CountryCodeStripped(code: string, sep: string, c: string)
    requires code == "+91" || code == "91"
    requires |sep| <= 1 && forall k :: 0 <= k < |sep| ==> IsSep(sep[k])
    requires IsMobile(c)
    ensures ExtractMobile(code + sep + c) == Some(c)
  {
    var s := code + sep + c;
    var q := |code| + |sep|;
    CodedSearch(code, sep, c);
    ExtractFound(s, Match(0, |code|, q));
    assert s[q..] == c;
    assert s[q..q + 10] == c;
  }

  /** The search for such a message stops at its first character, with the
      country code as the group. */
  lemma CodedSearch(code: string, sep: string, c: string)
    requires code == "+91" || code == "91"
    requires |sep| <= 1 && forall k :: 0 <= k < |sep| ==> IsSep(sep[k])
    requires IsMobile(c)
    ensures Search(code + sep + c, 0) == Some(Match(0, |code|, |code| + |sep|))
  {
    var s := code + sep + c;
    var g, q := |code|, |code| + |sep|;
    CodedPieces(code, sep, c);
    if g == 2 {
      assert !OccursAt(s, "+91", 0);
    }
    assert MatchAt(s, 0) == Some(Match(0, g, q));
  }

  /** Its pieces: the country code at the start, then the separator and the number. */
  lemma CodedPieces(code: string, sep: string, c: string)
    requires code == "+91" || code == "91"
    requires |sep| <= 1 && forall k :: 0 <= k < |sep| ==> IsSep(sep[k])
    requires IsMobile(c)
    ensures OccursAt(code + sep + c, GroupText(|code|), 0)
    ensures SepThenCore(code + sep + c, |code|) == Some(|code| + |sep|)
  {
    var s := code + sep + c;
    var g, q := |code|, |code| + |sep|;
    assert s[..g] == code && s[g..q] == sep && s[q..] == c;
    assert CoreAt(s, q) by {
      forall k | q < k < q + 10 ensures IsDigit(s[k]) {
        assert s[k] == c[k - q];
      }
    }
    if |sep| == 1 {
      assert s[g] == sep[0];
    } else {
      assert s[g] == c[0];
    }
  }

  // ---------------------------------------------------------------------------
  // Name: the trimmed message, short and made of letters, title-cased
  // ---------------------------------------------------------------------------

  /** `name` is `t` with its letter case changed: same length, letters and
      spaces, an upper-case letter first. */
  predicate Recased(t: string, name: string) {
    && |name| == |t| > 0
    && LettersAndSpaces(name)
    && IsUpper(name[0])
    && forall i :: 0 <= i < |t| ==> ToLower(name[i]) == ToLower(t[i])
  }

  lemma TitledName(t: string)
    requires LettersAndSpaces(t) && HasLetter(t) && !IsSpace(t[0])
    ensures Recased(t, Title(t))
  {
    TitleKeepsClasses(t);
    TitleAt(t, 0);
    forall i | 0 <= i < |t| ensures ToLower(Title(t)[i]) == ToLower(t[i]) {
      TitleAt(t, i);
    }
  }

  /** `extract_info_from_message(message, 'name')`: the stripped message,
      title-cased, when it has at most four words and is made of letters and
      spaces with at least one letter. */
  function ExtractName(message: string): (r: Option<string>)
    ensures var t := Strip(message);
      r.Some? <==> |Words(t)| <= 4 && LettersAndSpaces(t) && HasLetter(t)
    ensures r.Some? ==> Recased(Strip(message), r.value)
    ensures r.Some? ==> r.value == Title(Strip(message))
  {
    var t := Strip(message);
    AlphaApartFromSpaces(t);
    if |Words(t)| <= 4 && IsAlpha(Without(t, ' ')) then
      TitledName(t);
      Some(Title(t))
    else None
  }

  /** A message with a digit in it, once stripped, is not a name. */
  lemma NameWithDigitRefused(message: string, i: nat)
    requires i < |Strip(message)| && IsDigit(Strip(message)[i])
    ensures ExtractName(message) == None
  {
    assert !IsLetter(Strip(message)[i]) && Strip(message)[i] != ' ';
  }

  /** A name the chatbot accepted is accepted again unchanged. */
  lemma NameIdempotent(message: string)
    requires ExtractName(message).Some?
    ensures ExtractName(ExtractName(message).value) == ExtractName(message)
  {
    var t := Strip(message);
    var name := Title(t);
    AlphaApartFromSpaces(t);
    assert ExtractName(message) == Some(name);
    TitledName(t);
    TitleIdempotent(t);
    NameAgain(t, name);
  }

  lemma NameAgain(t: string, name: string)
    requires name == Title(t) && Recased(t, name)
    requires |Words(t)| <= 4 && LettersAndSpaces(t) && !IsSpace(t[|t| - 1])
    ensures ExtractName(name) == Some(Title(name))
  {
    TitleKeepsClasses(t);
    assert SameSpaces(name, t);
    StripStripped(name);
    WordsSameSpaces(name, t);
    AlphaApartFromSpaces(name);
    assert IsLetter(name[0]);
  }
}
