/**
 * Query cleaning: clean_queries in test_groq.py. Each raw string loses its
 * leading and trailing non-letters, is lower-cased and split on whitespace;
 * tokens that are stop-words or not purely [a-z]+ are dropped and the rest are
 * joined with single spaces. Empty results and later duplicates are then
 * removed, keeping first-seen order.
 */
module QueryCleaning {
  import opened Text

  /** The fixed stop-word set. */
  const StopWords: set<string> := {
    "a", "an", "and", "are", "as", "at", "be", "by", "for",
    "from", "has", "he", "in", "is", "it", "its", "of", "on",
    "that", "the", "to", "was", "were", "will", "with",
    "more", "also", "such", "then", "than", "this"
  }

  /** A token the filter keeps: it matches ^[a-z]+$ and is not a stop-word. */
  predicate IsSearchToken(w: string) {
    w != [] && (forall i :: 0 <= i < |w| ==> IsLowerLetter(w[i])) && w !in StopWords
  }

  /** A cleaned query: search tokens separated by single spaces. */
  predicate IsCleanQuery(q: string) {
    q == Join(Words(q), " ") && forall w :: w in Words(q) ==> IsSearchToken(w)
  }

  /** The filtering comprehension: the tokens that are search tokens, in their order. */
  function KeptTokens(ws: seq<string>): (kept: seq<string>)
    ensures |kept| <= |ws|
    ensures forall w :: w in kept <==> w in ws && IsSearchToken(w)
  {
    if ws == [] then []
    else if IsSearchToken(ws[0]) then [ws[0]] + KeptTokens(ws[1..])
    else KeptTokens(ws[1..])
  }

  /** clean_single_query: lower-case, split, filter the tokens, join them with single spaces. */
  function CleanSingleQuery(query: string): string {
    Join(KeptTokens(Words(Lower(query))), " ")
  }

  /** One element of the cleaning comprehension: clean_single_query of the string with its non-letter ends removed. */
  function Normalize(query: string): string {
    CleanSingleQuery(TrimEnds(query, NotLetter))
  }

  /** The cleaning comprehension: one cleaned string per raw string, in order. */
  function NormalizeAll(queries: seq<string>): seq<string> {
    seq(|queries|, i requires 0 <= i < |queries| => Normalize(queries[i]))
  }

  /**
   * The deduplication loop as a function: the non-empty strings of xs, each
   * at its first occurrence. It is defined from the back, as the loop builds it.
   */
  function FirstSeen(xs: seq<string>): (r: seq<string>)
    ensures |r| <= |xs|
    ensures forall x :: x in r <==> x in xs && x != ""
    ensures forall i, j :: 0 <= i < j < |r| ==> r[i] != r[j]
  {
    if xs == [] then []
    else
      var prior := FirstSeen(xs[..|xs| - 1]);
      var x := xs[|xs| - 1];
      assert forall y :: y in xs <==> y in xs[..|xs| - 1] || y == x;
      if x != "" && x !in prior then prior + [x] else prior
  }

  /** What clean_queries returns. */
  function Cleaned(queries: seq<string>): seq<string> {
    FirstSeen(NormalizeAll(queries))
  }

  /** clean_queries: the comprehension, then the loop over a `seen` set that appends first occurrences. */
  method CleanQueries(queries: seq<string>) returns (finalQueries: seq<string>)
    ensures finalQueries == Cleaned(queries)
  {
    var cleanedQueries := NormalizeAll(queries);
    var seen: set<string> := {};
    finalQueries := [];
    for i := 0 to |cleanedQueries|
      invariant finalQueries == FirstSeen(cleanedQueries[..i])
      invariant forall q :: q in seen <==> q in finalQueries
    {
      var query := cleanedQueries[i];
      FirstSeenStep(cleanedQueries, i);
      if query != "" && query !in seen {
        finalQueries := finalQueries + [query];
        seen := seen + {query};
      }
    }
    assert cleanedQueries[..|cleanedQueries|] == cleanedQueries;
  }

  /** One more input string is appended when it is non-empty and new. */
  lemma FirstSeenStep(xs: seq<string>, i: nat)
    requires i < |xs|
    ensures FirstSeen(xs[..i + 1]) ==
      if xs[i] != "" && xs[i] !in FirstSeen(xs[..i]) then FirstSeen(xs[..i]) + [xs[i]] else FirstSeen(xs[..i])
  {
    assert xs[..i + 1][..i] == xs[..i];
  }

  /* ---- First-seen order ---- */

  /** Position of the first occurrence of x in xs. */
  function FirstIndex(xs: seq<string>, x: string): (k: nat)
    requires x in xs
    ensures k < |xs| && xs[k] == x
    ensures forall j :: 0 <= j < k ==> xs[j] != x
  {
    if xs[0] == x then 0 else 1 + FirstIndex(xs[1..], x)
  }

  lemma FirstIndexOfPrefix(ys: seq<string>, x: string, y: string)
    requires y in ys
    ensures FirstIndex(ys + [x], y) == FirstIndex(ys, y)
  {
    var k1, k2 := FirstIndex(ys + [x], y), FirstIndex(ys, y);
    assert (ys + [x])[k2] == y;
    assert k1 <= k2;
    assert ys[k1] == y;
  }

  /** The elements of r are elements of xs, listed in the order of their first occurrences in xs. */
  predicate InFirstOccurrenceOrder(xs: seq<string>, r: seq<string>) {
    (forall y :: y in r ==> y in xs)
    && forall i, j :: 0 <= i < j < |r| ==> FirstIndex(xs, r[i]) < FirstIndex(xs, r[j])
  }

  /** Appending to the input keeps an ordered selection ordered, and a new last element may join it. */
  lemma InFirstOccurrenceOrderAppend(ys: seq<string>, x: string, r: seq<string>)
    requires InFirstOccurrenceOrder(ys, r)
    ensures InFirstOccurrenceOrder(ys + [x], r)
    ensures x !in ys ==> InFirstOccurrenceOrder(ys + [x], r + [x])
  {
    var xs := ys + [x];
    forall y | y in ys
      ensures FirstIndex(xs, y) == FirstIndex(ys, y)
    {
      FirstIndexOfPrefix(ys, x, y);
    }
    forall i, j | 0 <= i < j < |r|
      ensures FirstIndex(xs, r[i]) < FirstIndex(xs, r[j])
    {
      assert r[i] in ys && r[j] in ys;
    }
    if x !in ys {
      var k := FirstIndex(xs, x);
      assert k == |ys| by {
        assert forall j :: 0 <= j < |ys| ==> xs[j] == ys[j] != x;
      }
      var r' := r + [x];
      forall i, j | 0 <= i < j < |r'|
        ensures FirstIndex(xs, r'[i]) < FirstIndex(xs, r'[j])
      {
        assert r'[i] == r[i] && r[i] in ys;
        if j < |r| {
          assert r'[j] == r[j];
        } else {
          assert r'[j] == x;
        }
      }
    }
  }

  /** The strings FirstSeen keeps stand in the order of their first occurrences in the input. */
  lemma {:induction false} FirstSeenOrder(xs: seq<string>)
    ensures InFirstOccurrenceOrder(xs, FirstSeen(xs))
  {
    if xs != [] {
      var ys, x := xs[..|xs| - 1], xs[|xs| - 1];
      FirstSeenOrder(ys);
      InFirstOccurrenceOrderAppend(ys, x, FirstSeen(ys));
      assert xs == ys + [x];
    }
  }

  /** A list of distinct non-empty strings passes the deduplication unchanged. */
  lemma {:induction false} FirstSeenOfDistinct(xs: seq<string>)
    requires forall i :: 0 <= i < |xs| ==> xs[i] != ""
    requires forall i, j :: 0 <= i < j < |xs| ==> xs[i] != xs[j]
    ensures FirstSeen(xs) == xs
  {
    if xs != [] {
      var ys, x := xs[..|xs| - 1], xs[|xs| - 1];
      FirstSeenOfDistinct(ys);
      assert x !in ys by {
        forall k | 0 <= k < |ys|
          ensures ys[k] != x
        {
          assert xs[k] != xs[|xs| - 1];
        }
      }
      assert xs == ys + [x];
    }
  }

  /* ---- The shape of a cleaned string ---- */

  /** Every search token consists of letters only, so it holds no whitespace. */
  lemma SearchTokensAreWords(ws: seq<string>)
    requires forall w :: w in ws ==> IsSearchToken(w)
    ensures forall w :: w in ws ==> w != [] && NoSpace(w)
  {
    forall w | w in ws
      ensures NoSpace(w)
    {
      forall i | 0 <= i < |w|
        ensures !IsSpace(w[i])
      {
        assert IsLowerLetter(w[i]);
      }
    }
  }

  /**
   * The tokens of a normalized string are exactly the tokens of the lowered,
   * end-trimmed input that pass the filter: a token is kept whole or dropped
   * whole, never partially cleaned.
   */
  lemma NormalizeTokens(query: string)
    ensures Words(Normalize(query)) == KeptTokens(Words(Lower(TrimEnds(query, NotLetter))))
    ensures IsCleanQuery(Normalize(query))
  {
    var kept := KeptTokens(Words(Lower(TrimEnds(query, NotLetter))));
    SearchTokensAreWords(kept);
    WordsOfJoin(kept);
  }

  /** Tokens that all fail the filter leave nothing. */
  lemma {:induction false} KeptTokensOfNone(ws: seq<string>)
    requires forall w :: w in ws ==> !IsSearchToken(w)
    ensures KeptTokens(ws) == []
  {
    if ws != [] {
      assert forall v :: v in ws[1..] ==> v in ws;
      KeptTokensOfNone(ws[1..]);
    }
  }

  /** A string whose tokens all fail the filter (stop-words, digits, hyphens, ...) normalizes to "". */
  lemma NormalizeDropsAll(query: string)
    requires forall w :: w in Words(Lower(TrimEnds(query, NotLetter))) ==> !IsSearchToken(w)
    ensures Normalize(query) == ""
  {
    KeptTokensOfNone(Words(Lower(TrimEnds(query, NotLetter))));
  }

  /** Joining non-empty tokens starts with the first token's first character and ends with the last token's last character. */
  lemma {:induction false} JoinEnds(ws: seq<string>)
    requires |ws| > 0 && forall i :: 0 <= i < |ws| ==> ws[i] != []
    ensures var s := Join(ws, " ");
      |s| > 0 && s[0] == ws[0][0] && s[|s| - 1] == ws[|ws| - 1][|ws[|ws| - 1]| - 1]
  {
    if |ws| > 1 {
      var rest := Join(ws[1..], " ");
      JoinEnds(ws[1..]);
      assert Join(ws, " ") == ws[0] + " " + rest;
      assert ws[1..][|ws| - 2] == ws[|ws| - 1];
    }
  }

  /** Lower-casing a single-space join of lower-case tokens changes nothing. */
  lemma {:induction false} LowerOfCleanJoin(ws: seq<string>)
    requires forall w :: w in ws ==> IsSearchToken(w)
    ensures Lower(Join(ws, " ")) == Join(ws, " ")
  {
    if |ws| > 0 {
      var w := ws[0];
      assert IsSearchToken(w);
      assert Lower(w) == w;
      if |ws| > 1 {
        assert forall v :: v in ws[1..] ==> v in ws;
        LowerOfCleanJoin(ws[1..]);
        LowerAppend(w + " ", Join(ws[1..], " "));
        LowerAppend(w, " ");
      }
    }
  }

  /** A list of search tokens passes the filter unchanged. */
  lemma {:induction false} KeptTokensOfSearchTokens(ws: seq<string>)
    requires forall w :: w in ws ==> IsSearchToken(w)
    ensures KeptTokens(ws) == ws
  {
    if ws != [] {
      assert forall v :: v in ws[1..] ==> v in ws;
      KeptTokensOfSearchTokens(ws[1..]);
    }
  }

  /** A non-empty cleaned query is its own normal form. */
  lemma NormalizeCleanQuery(q: string)
    requires q != "" && IsCleanQuery(q)
    ensures Normalize(q) == q
  {
    var ws := Words(q);
    assert ws != [];
    SearchTokensAreWords(ws);
    assert forall i :: 0 <= i < |ws| ==> ws[i] in ws;
    JoinEnds(ws);
    assert IsSearchToken(ws[0]) && IsSearchToken(ws[|ws| - 1]);
    TrimEndsUnchanged(q, NotLetter);
    LowerOfCleanJoin(ws);
    KeptTokensOfSearchTokens(ws);
  }

  /* ---- What clean_queries promises ---- */

  /**
   * Every returned string is a non-empty cleaned query, no two are equal, and
   * there are no more of them than inputs.
   */
  lemma CleanedShape(queries: seq<string>)
    ensures var r := Cleaned(queries);
      && |r| <= |queries|
      && (forall i :: 0 <= i < |r| ==> r[i] != "" && IsCleanQuery(r[i]))
      && (forall i, j :: 0 <= i < j < |r| ==> r[i] != r[j])
  {
    var cleaned := NormalizeAll(queries);
    var r := FirstSeen(cleaned);
    forall i | 0 <= i < |r|
      ensures r[i] != "" && IsCleanQuery(r[i])
    {
      assert r[i] in r;
      assert r[i] in cleaned;
      var k :| 0 <= k < |cleaned| && cleaned[k] == r[i];
      NormalizeTokens(queries[k]);
    }
  }

  /** A string is returned exactly when it is not empty and some input cleans to it. */
  lemma CleanedMembers(queries: seq<string>, x: string)
    ensures x in Cleaned(queries) <==> x != "" && exists q :: q in queries && Normalize(q) == x
  {
    var cleaned := NormalizeAll(queries);
    if x in cleaned {
      var k :| 0 <= k < |cleaned| && cleaned[k] == x;
      assert queries[k] in queries && Normalize(queries[k]) == x;
    }
    if exists q :: q in queries && Normalize(q) == x {
      var q :| q in queries && Normalize(q) == x;
      var k :| 0 <= k < |queries| && queries[k] == q;
      assert cleaned[k] == x;
    }
  }

  /** The returned strings follow the order in which their first cleaned occurrence appears. */
  lemma CleanedOrder(queries: seq<string>)
    ensures InFirstOccurrenceOrder(NormalizeAll(queries), Cleaned(queries))
  {
    FirstSeenOrder(NormalizeAll(queries));
  }

  /** Cleaning an already cleaned list changes nothing. */
  lemma CleanedIdempotent(queries: seq<string>)
    ensures Cleaned(Cleaned(queries)) == Cleaned(queries)
  {
    var r := Cleaned(queries);
    CleanedShape(queries);
    forall i | 0 <= i < |r|
      ensures Normalize(r[i]) == r[i]
    {
      NormalizeCleanQuery(r[i]);
    }
    assert NormalizeAll(r) == r;
    FirstSeenOfDistinct(r);
  }
}
