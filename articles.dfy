/**
 * The article records that parse_arxiv_response builds (main.py:45-57) and
 * their ordering by similarity (main.py:91): Python's sorted with
 * reverse=True, which is stable, so articles with equal keys keep the order
 * in which they were retrieved.
 */
module Articles {
  import opened Wrappers

  /**
   * One feed entry: its title, summary and id as read from the feed, and the
   * similarity score the (disabled) embedding step would attach.
   */
  datatype Article = Article(title: string, summary: string, link: string, similarity: Option<real>)

  /** The sort key x.get("similarity", 0): the score, or 0 when there is none. */
  function SimilarityKey(a: Article): real {
    match a.similarity
    case Some(s) => s
    case None => 0.0
  }

  /** Best first: no article is followed by one with a higher key. */
  predicate NonIncreasing(xs: seq<Article>) {
    forall i, j :: 0 <= i < j < |xs| ==> SimilarityKey(xs[i]) >= SimilarityKey(xs[j])
  }

  /** The articles of xs with key k, in their order in xs. */
  function WithKey(xs: seq<Article>, k: real): (r: seq<Article>)
    ensures |r| <= |xs|
  {
    if xs == [] then []
    else (if SimilarityKey(xs[0]) == k then [xs[0]] else []) + WithKey(xs[1..], k)
  }

  /** Places x before the first article whose key does not exceed its own. */
  function InsertBySimilarity(x: Article, xs: seq<Article>): (r: seq<Article>)
    ensures multiset(r) == multiset(xs) + multiset{x}
    ensures forall y :: y in r ==> y == x || y in xs
  {
    if xs == [] || SimilarityKey(x) >= SimilarityKey(xs[0]) then [x] + xs
    else
      assert xs == [xs[0]] + xs[1..];
      [xs[0]] + InsertBySimilarity(x, xs[1..])
  }

  /** Inserting into a best-first sequence keeps it best first. */
  lemma {:induction false} InsertKeepsOrder(x: Article, xs: seq<Article>)
    requires NonIncreasing(xs)
    ensures NonIncreasing(InsertBySimilarity(x, xs))
  {
    if xs == [] || SimilarityKey(x) >= SimilarityKey(xs[0]) {
      forall y | y in xs
        ensures SimilarityKey(y) <= SimilarityKey(x)
      {
        var j :| 0 <= j < |xs| && xs[j] == y;
        assert j == 0 || SimilarityKey(xs[0]) >= SimilarityKey(xs[j]);
      }
      ConsNonIncreasing(x, xs);
    } else {
      var rest := InsertBySimilarity(x, xs[1..]);
      InsertKeepsOrder(x, xs[1..]);
      forall y | y in rest
        ensures SimilarityKey(y) <= SimilarityKey(xs[0])
      {
        if y != x {
          var j :| 0 <= j < |xs[1..]| && xs[1..][j] == y;
          assert xs[j + 1] == y;
        }
      }
      ConsNonIncreasing(xs[0], rest);
    }
  }

  /** Putting in front an article whose key is at least every other key keeps the order. */
  lemma ConsNonIncreasing(h: Article, xs: seq<Article>)
    requires NonIncreasing(xs)
    requires forall y :: y in xs ==> SimilarityKey(y) <= SimilarityKey(h)
    ensures NonIncreasing([h] + xs)
  {
    var r := [h] + xs;
    forall i, j | 0 <= i < j < |r|
      ensures SimilarityKey(r[i]) >= SimilarityKey(r[j])
    {
      assert r[j] == xs[j - 1];
      if i > 0 {
        assert r[i] == xs[i - 1];
      } else {
        assert xs[j - 1] in xs;
      }
    }
  }

  /** sorted(articles, key=similarity, reverse=True): the same articles, best first, ties in their original order. */
  function SortBySimilarity(xs: seq<Article>): (r: seq<Article>)
    ensures multiset(r) == multiset(xs)
    ensures NonIncreasing(r)
  {
    if xs == [] then []
    else
      assert xs == [xs[0]] + xs[1..];
      InsertKeepsOrder(xs[0], SortBySimilarity(xs[1..]));
      InsertBySimilarity(xs[0], SortBySimilarity(xs[1..]))
  }

  /** Inserting x adds it at the front of the articles with its key and leaves the other keys' articles alone. */
  lemma {:induction false} InsertWithKey(x: Article, ys: seq<Article>, k: real)
    ensures WithKey(InsertBySimilarity(x, ys), k) ==
      if SimilarityKey(x) == k then [x] + WithKey(ys, k) else WithKey(ys, k)
  {
    if ys == [] || SimilarityKey(x) >= SimilarityKey(ys[0]) {
      assert ([x] + ys)[1..] == ys;
    } else {
      var r := [ys[0]] + InsertBySimilarity(x, ys[1..]);
      assert r[1..] == InsertBySimilarity(x, ys[1..]);
      InsertWithKey(x, ys[1..], k);
    }
  }

  /** The sort is stable: for every key, the articles with that key keep their relative order. */
  lemma {:induction false} SortStable(xs: seq<Article>, k: real)
    ensures WithKey(SortBySimilarity(xs), k) == WithKey(xs, k)
  {
    if xs != [] {
      SortStable(xs[1..], k);
      InsertWithKey(xs[0], SortBySimilarity(xs[1..]), k);
    }
  }

  /**
   * When no article carries a score, as parse_arxiv_response leaves them, all
   * keys are 0 and the sort keeps the retrieval order.
   */
  lemma SortUnscored(xs: seq<Article>)
    requires forall a :: a in xs ==> a.similarity.None?
    ensures SortBySimilarity(xs) == xs
  {
    var r := SortBySimilarity(xs);
    assert forall a :: a in r ==> a in multiset(xs);
    WithKeyOfOneKey(xs, 0.0);
    WithKeyOfOneKey(r, 0.0);
    SortStable(xs, 0.0);
  }

  /** When every article has key k, selecting key k keeps them all. */
  lemma {:induction false} WithKeyOfOneKey(xs: seq<Article>, k: real)
    requires forall a :: a in xs ==> SimilarityKey(a) == k
    ensures WithKey(xs, k) == xs
  {
    if xs != [] {
      assert xs[0] in xs;
      assert forall a :: a in xs[1..] ==> a in xs;
      WithKeyOfOneKey(xs[1..], k);
      assert [xs[0]] + xs[1..] == xs;
    }
  }
}
