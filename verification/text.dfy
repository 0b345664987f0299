/** Character classes and the handful of Python `str` methods the chatbot uses:
    `lower`, `strip`, `split`, `title`, `replace(' ', '')`, `isalpha` and the
    `in` substring test. Letter case is ASCII-only; whitespace is Python's full
    `str.isspace` set, which is also what `\s`, `split()` and `strip()` use. */
module Text {

  /** Python's `str.isspace`: bidi classes WS, B, S and category Zs. */
  predicate IsSpace(c: char) {
    || ('\t' <= c <= '\r')
    || ('\U{1C}' <= c <= ' ')
    || c == '\U{85}' || c == '\U{A0}' || c == '\U{1680}'
    || ('\U{2000}' <= c <= '\U{200A}')
    || c == '\U{2028}' || c == '\U{2029}' || c == '\U{202F}' || c == '\U{205F}'
    || c == '\U{3000}'
  }

  predicate IsUpper(c: char) { 'A' <= c <= 'Z' }

  predicate IsLower(c: char) { 'a' <= c <= 'z' }

  predicate IsLetter(c: char) { IsUpper(c) || IsLower(c) }

  predicate IsDigit(c: char) { '0' <= c <= '9' }

  function ToLower(c: char): char {
    if IsUpper(c) then (c as int + 32) as char else c
  }

  function ToUpper(c: char): char {
    if IsLower(c) then (c as int - 32) as char else c
  }

  /** `str.lower()` restricted to ASCII. */
  function Lower(s: string): (r: string)
    ensures |r| == |s|
    ensures forall i :: 0 <= i < |r| ==> !IsUpper(r[i])
    ensures forall i :: 0 <= i < |s| && !IsUpper(s[i]) ==> r[i] == s[i]
    ensures forall i :: 0 <= i < |s| && IsUpper(s[i]) ==> r[i] as int == s[i] as int + 32
  {
    seq(|s|, i requires 0 <= i < |s| => ToLower(s[i]))
  }

  lemma LowerIdempotent(s: string)
    ensures Lower(Lower(s)) == Lower(s)
  {
  }

  /** `needle` occurs in `hay` starting at index `i`. */
  predicate OccursAt(hay: string, needle: string, i: nat) {
    i + |needle| <= |hay| && hay[i..i + |needle|] == needle
  }

  /** Python's `needle in hay` on strings. */
  predicate Contains(hay: string, needle: string) {
    exists i: nat | i <= |hay| :: OccursAt(hay, needle, i)
  }

  /** A left-to-right scan for `needle`, the way `in` is computed. */
  function Occurs(hay: string, needle: string): (b: bool)
    ensures b <==> Contains(hay, needle)
    decreases |hay|
  {
    if |needle| <= |hay| && hay[..|needle|] == needle then
      assert OccursAt(hay, needle, 0);
      true
    else if |hay| == 0 then false
    else
      ContainsTail(hay, needle);
      Occurs(hay[1..], needle)
  }

  /** When `needle` is not at the front of `hay`, it occurs in `hay` exactly when
      it occurs in `hay[1..]`. */
  lemma ContainsTail(hay: string, needle: string)
    requires |hay| > 0 && !OccursAt(hay, needle, 0)
    ensures Contains(hay, needle) <==> Contains(hay[1..], needle)
  {
    if Contains(hay, needle) {
      var i: nat :| i <= |hay| && OccursAt(hay, needle, i);
      assert i > 0;
      assert hay[1..][i - 1..i - 1 + |needle|] == hay[i..i + |needle|];
      assert OccursAt(hay[1..], needle, i - 1);
    }
    if Contains(hay[1..], needle) {
      var i: nat :| i <= |hay[1..]| && OccursAt(hay[1..], needle, i);
      assert hay[i + 1..i + 1 + |needle|] == hay[1..][i..i + |needle|];
      assert OccursAt(hay, needle, i + 1);
    }
  }

  /** Removes leading whitespace, as `str.lstrip()` does. */
  function TrimLeft(s: string): (r: string)
    ensures |r| <= |s| && r == s[|s| - |r|..]
    ensures r == [] || !IsSpace(r[0])
    ensures forall i :: 0 <= i < |s| - |r| ==> IsSpace(s[i])
  {
    if |s| > 0 && IsSpace(s[0]) then TrimLeft(s[1..]) else s
  }

  /** Removes trailing whitespace, as `str.rstrip()` does. */
  function TrimRight(s: string): (r: string)
    ensures |r| <= |s| && r == s[..|r|]
    ensures r == [] || !IsSpace(r[|r| - 1])
    ensures forall i :: |r| <= i < |s| ==> IsSpace(s[i])
  {
    if |s| > 0 && IsSpace(s[|s| - 1]) then TrimRight(s[..|s| - 1]) else s
  }

  /** `r` is the part of `s` that starts at `a`, everything around it being whitespace. */
  predicate StrippedAt(s: string, r: string, a: nat) {
    && a + |r| <= |s|
    && s[a..a + |r|] == r
    && (forall i :: 0 <= i < a ==> IsSpace(s[i]))
    && (forall i :: a + |r| <= i < |s| ==> IsSpace(s[i]))
  }

  /** `str.strip()`: the longest inner slice that neither starts nor ends with whitespace. */
  function Strip(s: string): (r: string)
    ensures |r| <= |s|
    ensures r == [] || (!IsSpace(r[0]) && !IsSpace(r[|r| - 1]))
  {
    TrimRight(TrimLeft(s))
  }

  /** What `strip()` removes is whitespace on both sides of the result. */
  lemma StripIsInnerSlice(s: string)
    ensures StrippedAt(s, Strip(s), |s| - |TrimLeft(s)|)
  {
    var l := TrimLeft(s);
    var r := TrimRight(l);
    var a := |s| - |l|;
    SuffixPrefix(s, a, |r|);
    SpacesAfter(s, l, r, a);
  }

  lemma SuffixPrefix(s: string, a: nat, n: nat)
    requires a + n <= |s|
    ensures s[a..][..n] == s[a..a + n]
  {
  }

  lemma SpacesAfter(s: string, l: string, r: string, a: nat)
    requires a + |l| == |s| && l == s[a..]
    requires |r| <= |l| && forall i :: |r| <= i < |l| ==> IsSpace(l[i])
    ensures forall i :: a + |r| <= i < |s| ==> IsSpace(s[i])
  {
    forall i | a + |r| <= i < |s| ensures IsSpace(s[i]) {
      assert s[i] == l[i - a];
    }
  }

  /** Length of the run of non-whitespace characters that `s` starts with. */
  function WordLength(s: string): (n: nat)
    ensures n <= |s|
    ensures forall i :: 0 <= i < n ==> !IsSpace(s[i])
    ensures n == |s| || IsSpace(s[n])
  {
    if |s| == 0 || IsSpace(s[0]) then 0 else 1 + WordLength(s[1..])
  }

  /** No character of `w` is whitespace. */
  predicate NoSpace(w: string) {
    forall i :: 0 <= i < |w| ==> !IsSpace(w[i])
  }

  /** `str.split()` with no separator: the maximal runs of non-whitespace. */
  function Words(s: string): seq<string>
    decreases |s|
  {
    var t := TrimLeft(s);
    if |t| == 0 then []
    else
      var n := WordLength(t);
      assert n > 0;
      [t[..n]] + Words(t[n..])
  }

  /** A word `split()` returns: non-empty and without whitespace. */
  predicate IsWord(w: string) {
    |w| > 0 && NoSpace(w)
  }

  lemma {:induction false} WordsAreWords(s: string)
    ensures forall k :: 0 <= k < |Words(s)| ==> IsWord(Words(s)[k])
    decreases |s|
  {
    var t := TrimLeft(s);
    if |t| > 0 {
      var n := WordLength(t);
      var rest := Words(t[n..]);
      WordsAreWords(t[n..]);
      assert IsWord(t[..n]);
      assert Words(s) == [t[..n]] + rest;
      forall k | 0 < k < |Words(s)| ensures IsWord(Words(s)[k]) {
        assert Words(s)[k] == rest[k - 1];
      }
    }
  }

  /** Position `i` starts a run of non-whitespace in `s[j..]`: it is not
      whitespace, and it is `j` or follows whitespace. */
  predicate RunStart(s: string, j: nat, i: int) {
    j <= i < |s| && !IsSpace(s[i]) && (i == j || IsSpace(s[i - 1]))
  }

  /** The positions where the runs of non-whitespace of `s[j..]` begin. */
  function RunStarts(s: string, j: nat): set<int> {
    set i | j <= i < |s| && RunStart(s, j, i)
  }

  /** `split()` returns one word per run of non-whitespace: as many words as
      there are positions where such a run begins. */
  lemma WordsCount(s: string)
    ensures |Words(s)| == |RunStarts(s, 0)|
  {
    WordsCountFrom(s, 0);
    assert s[0..] == s;
  }

  lemma {:induction false} WordsCountFrom(s: string, j: nat)
    requires j <= |s|
    ensures |Words(s[j..])| == |RunStarts(s, j)|
    decreases |s| - j
  {
    var p := LeadingSpaces(s, j);
    if p == |s| {
      assert RunStarts(s, j) == {};
    } else {
      var k := LeadingWord(s, p);
      assert |Words(s[j..])| == 1 + |Words(s[k..])|;
      WordsCountFrom(s, k);
      RunStartsStep(s, j, p, k);
    }
  }

  /** `s[j..]` trimmed on the left is `s[p..]`, after whitespace `[j, p)`. */
  lemma LeadingSpaces(s: string, j: nat) returns (p: nat)
    requires j <= |s|
    ensures j <= p <= |s| && TrimLeft(s[j..]) == s[p..]
    ensures forall i :: j <= i < p ==> IsSpace(s[i])
    ensures p < |s| ==> !IsSpace(s[p])
  {
    var u := s[j..];
    var t := TrimLeft(u);
    p := j + |u| - |t|;
    forall i | j <= i < p ensures IsSpace(s[i]) {
      assert s[i] == u[i - j];
    }
  }

  /** The word `split()` takes from `s[p..]`, which starts with a
      non-whitespace character, is the run `[p, k)`; the rest is `s[k..]`. */
  lemma LeadingWord(s: string, p: nat) returns (k: nat)
    requires p < |s| && !IsSpace(s[p])
    ensures p < k <= |s| && Words(s[p..]) == [s[p..k]] + Words(s[k..])
    ensures forall i :: p <= i < k ==> !IsSpace(s[i])
    ensures k < |s| ==> IsSpace(s[k])
  {
    var t := s[p..];
    var n := WordLength(t);
    k := p + n;
    assert TrimLeft(t) == t;
    assert t[..n] == s[p..k] && t[n..] == s[k..];
    forall i | p <= i < k ensures !IsSpace(s[i]) {
      assert s[i] == t[i - p];
    }
    if k < |s| {
      assert s[k] == t[n];
    }
  }

  /** Cutting off a leading run `[p, k)`, after the whitespace `[j, p)`,
      removes exactly one run start. */
  lemma RunStartsStep(s: string, j: nat, p: nat, k: nat)
    requires j <= p < k <= |s|
    requires forall i :: j <= i < p ==> IsSpace(s[i])
    requires forall i :: p <= i < k ==> !IsSpace(s[i])
    requires k < |s| ==> IsSpace(s[k])
    ensures |RunStarts(s, j)| == 1 + |RunStarts(s, k)|
  {
    assert RunStarts(s, j) == {p} + RunStarts(s, k) by {
      forall i | i in RunStarts(s, j) ensures i == p || i in RunStarts(s, k) {
        if i != p {
          assert i > k || i == k;
        }
      }
    }
    assert p !in RunStarts(s, k);
  }

  /** `s.replace(c, '')`. */
  function Without(s: string, c: char): (r: string)
    ensures |r| <= |s|
    ensures forall x :: x in r <==> x in s && x != c
  {
    if |s| == 0 then []
    else if s[0] == c then Without(s[1..], c)
    else [s[0]] + Without(s[1..], c)
  }

  /** `str.isalpha()` restricted to ASCII: non-empty and letters only. */
  predicate IsAlpha(s: string) {
    |s| > 0 && forall i :: 0 <= i < |s| ==> IsLetter(s[i])
  }

  /** Every character is an ASCII letter or the space character. */
  predicate LettersAndSpaces(s: string) {
    forall i :: 0 <= i < |s| ==> IsLetter(s[i]) || s[i] == ' '
  }

  /** `str.title()` restricted to ASCII: a letter is upper-cased when it follows a
      non-letter (or starts the string) and lower-cased otherwise. */
  function Title(s: string): (r: string)
    ensures |r| == |s|
  {
    seq(|s|, i requires 0 <= i < |s| =>
      if i > 0 && IsLetter(s[i - 1]) then ToLower(s[i]) else ToUpper(s[i]))
  }

  /** One position of `Title(s)`: the same character up to case; a letter is
      upper case at the start of a run of letters and lower case inside one. */
  lemma TitleAt(s: string, i: nat)
    requires i < |s|
    ensures ToLower(Title(s)[i]) == ToLower(s[i])
    ensures !IsLetter(s[i]) ==> Title(s)[i] == s[i]
    ensures IsLetter(s[i]) && (i == 0 || !IsLetter(s[i - 1])) ==> IsUpper(Title(s)[i])
    ensures i > 0 && IsLetter(s[i]) && IsLetter(s[i - 1]) ==> IsLower(Title(s)[i])
  {
  }

  /** Some character of `s` is a letter. */
  predicate HasLetter(s: string) {
    exists i :: 0 <= i < |s| && IsLetter(s[i])
  }

  /** `s.replace(' ', '').isalpha()` holds exactly when `s` is letters and
      spaces with at least one letter. */
  lemma AlphaApartFromSpaces(s: string)
    ensures IsAlpha(Without(s, ' ')) <==> LettersAndSpaces(s) && HasLetter(s)
  {
    var w := Without(s, ' ');
    if IsAlpha(w) {
      forall i | 0 <= i < |s| && s[i] != ' ' ensures IsLetter(s[i]) {
        assert s[i] in w;
      }
      assert w[0] in s;
    }
    if LettersAndSpaces(s) && HasLetter(s) {
      var j :| 0 <= j < |s| && IsLetter(s[j]);
      assert s[j] in w;
      forall k | 0 <= k < |w| ensures IsLetter(w[k]) {
        assert w[k] in s;
      }
    }
  }

  /** `a` and `b` have whitespace at the same positions. */
  predicate SameSpaces(a: string, b: string) {
    |a| == |b| && forall i :: 0 <= i < |a| ==> (IsSpace(a[i]) <==> IsSpace(b[i]))
  }

  lemma {:induction false} TrimLeftSameSpaces(a: string, b: string)
    requires SameSpaces(a, b)
    ensures SameSpaces(TrimLeft(a), TrimLeft(b))
    decreases |a|
  {
    if |a| > 0 && IsSpace(a[0]) {
      TrimLeftSameSpaces(a[1..], b[1..]);
    }
  }

  lemma {:induction false} WordLengthSameSpaces(a: string, b: string)
    requires SameSpaces(a, b)
    ensures WordLength(a) == WordLength(b)
    decreases |a|
  {
    if |a| > 0 && !IsSpace(a[0]) {
      WordLengthSameSpaces(a[1..], b[1..]);
    }
  }

  /** How many words `split()` finds depends only on where the whitespace is. */
  lemma {:induction false} WordsSameSpaces(a: string, b: string)
    requires SameSpaces(a, b)
    ensures |Words(a)| == |Words(b)|
    decreases |a|
  {
    var ta, tb := TrimLeft(a), TrimLeft(b);
    TrimLeftSameSpaces(a, b);
    if |ta| > 0 {
      WordLengthSameSpaces(ta, tb);
      var n := WordLength(ta);
      WordsSameSpaces(ta[n..], tb[n..]);
    }
  }

  /** Title-casing changes letters into letters and leaves everything else. */
  lemma TitleKeepsClasses(s: string)
    ensures SameSpaces(Title(s), s)
    ensures forall i :: 0 <= i < |s| ==> (IsLetter(Title(s)[i]) <==> IsLetter(s[i]))
  {
    forall i | 0 <= i < |s|
      ensures (IsSpace(Title(s)[i]) <==> IsSpace(s[i])) && (IsLetter(Title(s)[i]) <==> IsLetter(s[i]))
    {
      TitleAt(s, i);
    }
  }

  lemma TitleIdempotent(s: string)
    ensures Title(Title(s)) == Title(s)
  {
    var t := Title(s);
    forall i | 0 <= i < |s| ensures Title(t)[i] == t[i] {
      TitleAt(s, i);
      if i > 0 {
        TitleAt(s, i - 1);
      }
    }
  }

  /** A string that neither starts nor ends with whitespace is its own strip. */
  lemma StripStripped(s: string)
    requires s == [] || (!IsSpace(s[0]) && !IsSpace(s[|s| - 1]))
    ensures Strip(s) == s
  {
    assert TrimLeft(s) == s;
  }
}
