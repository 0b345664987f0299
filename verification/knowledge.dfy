/** The knowledge base the chatbot answers general questions from: its five
    seed rows, the seed-once population, and the ranked `LIKE` search. */
module Knowledge {
  import opened Text

  datatype KbRow = KbRow(question: string, answer: string, category: string)

  /** The rows `populate_knowledge_base` inserts, in insertion order. */
  const SeedRows: seq<KbRow> := [
    KbRow("How to register a complaint?",
          "You can register a complaint by providing your name, mobile number, and complaint details. I'll help you through the process.",
          "general"),
    KbRow("How to check complaint status?",
          "You can check your complaint status by asking 'What's the status of my complaint?' I'll identify you and provide the current status.",
          "status"),
    KbRow("What information is needed for complaint?",
          "For registering a complaint, I need your full name, mobile number, and detailed description of your issue.",
          "registration"),
    KbRow("How long does it take to resolve?",
          "Resolution time varies based on the complexity of the issue. You'll receive updates on the status.",
          "general"),
    KbRow("Can I update my complaint?",
          "Once submitted, complaints are processed by our team. For updates, please provide your complaint ID.",
          "general")
  ]

  /** `populate_knowledge_base`: the seed rows go in only when the table is empty. */
  function Populate(kb: seq<KbRow>): (r: seq<KbRow>)
    ensures |r| > 0
    ensures |kb| > 0 ==> r == kb
    ensures |kb| == 0 ==> |r| == 5 && r[0].question == "How to register a complaint?"
  {
    if |kb| == 0 then SeedRows else kb
  }

  /** Populating twice adds nothing the first call did not. */
  lemma PopulateIdempotent(kb: seq<KbRow>)
    ensures Populate(Populate(kb)) == Populate(kb)
  {
  }

  // ---------------------------------------------------------------------------
  // SQL LIKE
  // ---------------------------------------------------------------------------

  /** SQLite's `text LIKE pattern` with no ESCAPE clause: `%` matches any run
      of characters, `_` any one character, and other characters match
      themselves up to ASCII letter case. */
  function Like(t: string, p: string): bool
    decreases |t| + |p|
  {
    if |p| == 0 then |t| == 0
    else if p[0] == '%' then Like(t, p[1..]) || (|t| > 0 && Like(t[1..], p))
    else |t| > 0 && (p[0] == '_' || ToLower(t[0]) == ToLower(p[0])) && Like(t[1..], p[1..])
  }

  /** The pattern `f'%{query}%'` the search binds. */
  function Around(query: string): string {
    "%" + query + "%"
  }

  predicate IsWildcard(c: char) {
    c == '%' || c == '_'
  }

  /** A query with no wildcard in it. */
  predicate Literal(q: string) {
    forall i :: 0 <= i < |q| ==> !IsWildcard(q[i])
  }

  /** `q` occurs in `t` at `i`, ignoring ASCII letter case. */
  predicate FoldedAt(t: string, q: string, i: nat) {
    i + |q| <= |t| && forall k :: 0 <= k < |q| ==> ToLower(t[i + k]) == ToLower(q[k])
  }

  /** `q` occurs somewhere in `t`, ignoring ASCII letter case. */
  predicate ContainsFolded(t: string, q: string) {
    exists i: nat | i <= |t| :: FoldedAt(t, q, i)
  }

  lemma {:induction false} LikeAnything(t: string)
    ensures Like(t, "%")
    decreases |t|
  {
    var p := "%";
    assert p[1..] == "";
    if |t| > 0 {
      LikeAnything(t[1..]);
    }
  }

  /** A literal followed by `%` matches exactly the texts that start with it. */
  lemma {:induction false} LikePrefix(t: string, q: string)
    requires Literal(q)
    ensures Like(t, q + "%") <==> FoldedAt(t, q, 0)
    decreases |q|
  {
    var p := q + "%";
    if |q| == 0 {
      assert p == "%";
      LikeAnything(t);
    } else {
      assert p[0] == q[0] && p[1..] == q[1..] + "%";
      if |t| > 0 {
        LikePrefix(t[1..], q[1..]);
        assert FoldedAt(t, q, 0) <==>
          ToLower(t[0]) == ToLower(q[0]) && FoldedAt(t[1..], q[1..], 0) by {
          if FoldedAt(t[1..], q[1..], 0) && ToLower(t[0]) == ToLower(q[0]) {
            forall k | 0 <= k < |q| ensures ToLower(t[k]) == ToLower(q[k]) {
              if k > 0 {
                assert t[k] == t[1..][k - 1] && q[k] == q[1..][k - 1];
              }
            }
          }
          if FoldedAt(t, q, 0) {
            forall k | 0 <= k < |q| - 1 ensures ToLower(t[1..][k]) == ToLower(q[1..][k]) {
              assert t[1..][k] == t[k + 1] && q[1..][k] == q[k + 1];
            }
          }
        }
      }
    }
  }

  /** A leading `%` lets the rest of the pattern match any suffix. */
  lemma {:induction false} LikeSuffix(t: string, r: string)
    ensures Like(t, "%" + r) <==> exists i: nat | i <= |t| :: Like(t[i..], r)
    decreases |t|
  {
    var p := "%" + r;
    assert p[0] == '%' && p[1..] == r;
    assert t[0..] == t;
    if |t| > 0 {
      LikeSuffix(t[1..], r);
      if exists i: nat | i <= |t[1..]| :: Like(t[1..][i..], r) {
        var i: nat :| i <= |t[1..]| && Like(t[1..][i..], r);
        assert t[1..][i..] == t[i + 1..];
      }
      if exists i: nat | i <= |t| :: Like(t[i..], r) {
        var i: nat :| i <= |t| && Like(t[i..], r);
        if i > 0 {
          assert t[1..][i - 1..] == t[i..];
        }
      }
    }
  }

  lemma FoldedShift(t: string, q: string, i: nat)
    requires i <= |t|
    ensures FoldedAt(t[i..], q, 0) <==> FoldedAt(t, q, i)
  {
    if FoldedAt(t, q, i) {
      forall k | 0 <= k < |q| ensures ToLower(t[i..][k]) == ToLower(q[k]) {
        assert t[i..][k] == t[i + k];
      }
    }
  }

  /** For a query without wildcards, the search pattern is a case-insensitive
      substring test. */
  lemma LikeContains(t: string, q: string)
    requires Literal(q)
    ensures Like(t, Around(q)) <==> ContainsFolded(t, q)
  {
    assert Around(q) == "%" + (q + "%");
    LikeSuffix(t, q + "%");
    forall i: nat | i <= |t| ensures Like(t[i..], q + "%") <==> FoldedAt(t, q, i) {
      LikePrefix(t[i..], q);
      FoldedShift(t, q, i);
    }
  }

  // ---------------------------------------------------------------------------
  // search_knowledge_base
  // ---------------------------------------------------------------------------

  predicate QuestionHit(row: KbRow, query: string) {
    Like(row.question, Around(query))
  }

  /** The WHERE clause: the question or the answer matches. */
  predicate Hit(row: KbRow, query: string) {
    QuestionHit(row, query) || Like(row.answer, Around(query))
  }

  /** The ORDER BY key: 1 for a question match, 2 for an answer-only match. */
  function Rank(row: KbRow, query: string): nat {
    if QuestionHit(row, query) then 1
    else if Like(row.answer, Around(query)) then 2
    else 3
  }

  /** The rows of `kb`, in table order, whose rank is `rank`. */
  function RankedRows(kb: seq<KbRow>, query: string, rank: nat): (r: seq<KbRow>)
    ensures |r| <= |kb|
    ensures forall row :: row in r <==> row in kb && Rank(row, query) == rank
  {
    if |kb| == 0 then []
    else if Rank(kb[0], query) == rank then [kb[0]] + RankedRows(kb[1..], query, rank)
    else RankedRows(kb[1..], query, rank)
  }

  /** Counting copies: the rows of rank `rank` keep every copy the table
      holds of a row with that rank, and no copy of any other row. */
  lemma {:induction false} RankedCount(kb: seq<KbRow>, query: string, rank: nat)
    ensures forall row ::
      multiset(RankedRows(kb, query, rank))[row] == if Rank(row, query) == rank then multiset(kb)[row] else 0
    decreases |kb|
  {
    if |kb| > 0 {
      RankedCount(kb[1..], query, rank);
      assert kb == [kb[0]] + kb[1..];
    }
  }

  /** The question matches and the answer-only matches together take each
      row of the table at most once. */
  lemma {:induction false} RanksApart(kb: seq<KbRow>, query: string)
    ensures multiset(RankedRows(kb, query, 1) + RankedRows(kb, query, 2)) <= multiset(kb)
    decreases |kb|
  {
    if |kb| > 0 {
      RanksApart(kb[1..], query);
      assert kb == [kb[0]] + kb[1..];
    }
  }

  function Min(a: nat, b: nat): nat {
    if a <= b then a else b
  }

  /** The matching rows in ORDER BY order: question matches, then answer-only
      matches, each group in table order. */
  function Grouped(kb: seq<KbRow>, query: string): seq<KbRow> {
    RankedRows(kb, query, 1) + RankedRows(kb, query, 2)
  }

  /** Position `k` of the grouped rows has rank 1 inside the first group and
      rank 2 after it. */
  lemma GroupedRanks(kb: seq<KbRow>, query: string)
    ensures var all := Grouped(kb, query);
      forall k :: 0 <= k < |all| ==>
        Rank(all[k], query) == if k < |RankedRows(kb, query, 1)| then 1 else 2
  {
    var first, second := RankedRows(kb, query, 1), RankedRows(kb, query, 2);
    var all := first + second;
    forall k | 0 <= k < |all| ensures Rank(all[k], query) == if k < |first| then 1 else 2 {
      if k < |first| {
        assert all[k] in first;
      } else {
        assert all[k] == second[k - |first|];
        assert all[k] in second;
      }
    }
  }

  /** `search_knowledge_base(query)`: question matches, then answer-only
      matches, each group in table order, at most three rows. */
  function Search(kb: seq<KbRow>, query: string): (r: seq<KbRow>)
    ensures |r| <= 3
    ensures forall row :: row in r ==> row in kb && Hit(row, query)
    ensures forall i, j :: 0 <= i < j < |r| ==> Rank(r[i], query) <= Rank(r[j], query)
    ensures forall row :: row in kb && Hit(row, query) && row !in r ==>
      |r| == 3 && forall k :: 0 <= k < 3 ==> Rank(r[k], query) <= Rank(row, query)
    ensures forall row :: Hit(row, query) && multiset(r)[row] < multiset(kb)[row] ==>
      |r| == 3 && forall k :: 0 <= k < 3 ==> Rank(r[k], query) <= Rank(row, query)
    ensures multiset(r) <= multiset(kb)
  {
    var all := Grouped(kb, query);
    var n := Min(3, |all|);
    TopInOrder(kb, query, n);
    TopIsComplete(kb, query, n);
    TopIsCompleteCounted(kb, query, n);
    TopOnce(kb, query, n);
    all[..n]
  }

  /** The first `n` grouped rows are matching rows of the table, by rank. */
  lemma TopInOrder(kb: seq<KbRow>, query: string, n: nat)
    requires n <= |Grouped(kb, query)|
    ensures var r := Grouped(kb, query)[..n];
      && (forall row :: row in r ==> row in kb && Hit(row, query))
      && (forall i, j :: 0 <= i < j < |r| ==> Rank(r[i], query) <= Rank(r[j], query))
  {
    var all := Grouped(kb, query);
    GroupedRanks(kb, query);
    forall row | row in all[..n] ensures row in kb && Hit(row, query) {
      assert row in all;
    }
  }

  /** A matching row is left out of the first `Min(3, ..)` grouped rows only
      when three rows of no worse rank come first. */
  lemma TopIsComplete(kb: seq<KbRow>, query: string, n: nat)
    requires n == Min(3, |Grouped(kb, query)|)
    ensures var r := Grouped(kb, query)[..n];
      forall row :: row in kb && Hit(row, query) && row !in r ==>
        |r| == 3 && forall k :: 0 <= k < 3 ==> Rank(r[k], query) <= Rank(row, query)
  {
    var all := Grouped(kb, query);
    var first := RankedRows(kb, query, 1);
    var r := all[..n];
    GroupedRanks(kb, query);
    forall row | row in kb && Hit(row, query) && row !in r
      ensures |r| == 3 && forall k :: 0 <= k < 3 ==> Rank(r[k], query) <= Rank(row, query)
    {
      assert row in all;
      assert |all| > 3;
      if Rank(row, query) == 1 {
        assert row in first;
        var j :| 0 <= j < |first| && first[j] == row;
        assert all[j] == row;
        assert j >= 3;
      }
    }
  }

  /** The same, counting copies: fewer copies of a matching row are kept
      than the table holds only when three rows of no worse rank come first. */
  lemma TopIsCompleteCounted(kb: seq<KbRow>, query: string, n: nat)
    requires n == Min(3, |Grouped(kb, query)|)
    ensures var r := Grouped(kb, query)[..n];
      forall row :: Hit(row, query) && multiset(r)[row] < multiset(kb)[row] ==>
        |r| == 3 && forall k :: 0 <= k < 3 ==> Rank(r[k], query) <= Rank(row, query)
  {
    var r := Grouped(kb, query)[..n];
    forall row | Hit(row, query) && multiset(r)[row] < multiset(kb)[row]
      ensures |r| == 3 && forall k :: 0 <= k < 3 ==> Rank(r[k], query) <= Rank(row, query)
    {
      CopyLeftOut(kb, query, n, row);
    }
  }

  /** One matching row with a copy left out of the first `n` grouped rows. */
  lemma CopyLeftOut(kb: seq<KbRow>, query: string, n: nat, row: KbRow)
    requires n == Min(3, |Grouped(kb, query)|)
    requires Hit(row, query) && multiset(Grouped(kb, query)[..n])[row] < multiset(kb)[row]
    ensures n == 3
    ensures forall k :: 0 <= k < 3 ==> Rank(Grouped(kb, query)[k], query) <= Rank(row, query)
  {
    var all := Grouped(kb, query);
    var first, second := RankedRows(kb, query, 1), RankedRows(kb, query, 2);
    RankedCount(kb, query, 1);
    RankedCount(kb, query, 2);
    assert multiset(all)[row] == multiset(first)[row] + multiset(second)[row];
    assert all[..|all|] == all;
    assert n == 3;
    GroupedRanks(kb, query);
    assert |first| <= n ==> all[..n] == first + all[|first|..n];
  }

  /** The first `n` grouped rows take each table row at most once. */
  lemma TopOnce(kb: seq<KbRow>, query: string, n: nat)
    requires n <= |Grouped(kb, query)|
    ensures multiset(Grouped(kb, query)[..n]) <= multiset(kb)
  {
    var all := Grouped(kb, query);
    RanksApart(kb, query);
    assert all == all[..n] + all[n..];
  }

  /** For a query without wildcards, every row the search returns contains the
      query in its question or its answer, ignoring ASCII letter case. */
  lemma SearchContains(kb: seq<KbRow>, query: string)
    requires Literal(query)
    ensures forall row :: row in Search(kb, query) ==>
      ContainsFolded(row.question, query) || ContainsFolded(row.answer, query)
  {
    forall row | row in Search(kb, query)
      ensures ContainsFolded(row.question, query) || ContainsFolded(row.answer, query)
    {
      LikeContains(row.question, query);
      LikeContains(row.answer, query);
    }
  }
}
