/**
 * The analysis endpoint, analyze_argument (main.py:59-98): the argument is
 * expanded into search queries, each query is searched on arXiv and its feed
 * parsed, the articles of all queries are pooled, ordered by similarity and
 * handed to the argument writer. The text generator, the HTTP client and
 * the Atom parser are parameters.
 */
module Analysis {
  import opened Wrappers
  import opened Articles
  import opened ArxivSearch
  import opened QueryExpansion
  import opened ArgumentWriting

  /** The message returned when no query retrieved an article. */
  const NoResultsMessage: string := "No relevant articles found"

  /** Why the endpoint failed: a search raised its HTTP error, or a feed could not be parsed. */
  datatype Failure = FetchFailed(error: HttpError) | FeedUnreadable

  /** The endpoint's answer: the no-results message, the argument with the written analysis, or an error. */
  datatype Outcome =
    | NoArticles(message: string)
    | Argued(argument: string, results: string)
    | Failed(failure: Failure)

  /**
   * One query's articles: the feed query_arxiv fetches, read by the parser
   * (None when the parser raises).
   */
  function Fetch(query: string, send: Request -> Reply, parse: string -> Option<seq<Article>>): Result<seq<Article>, Failure>
  {
    match QueryArxiv(query, DefaultMaxResults, send)
    case Failure(e) => Failure(FetchFailed(e))
    case Success(text) =>
      match parse(text)
      case None => Failure(FeedUnreadable)
      case Some(articles) => Success(articles)
  }

  /** The fetch of every query, as one function from query to its articles or failure. */
  function FetchWith(send: Request -> Reply, parse: string -> Option<seq<Article>>): string -> Result<seq<Article>, Failure> {
    query => Fetch(query, send, parse)
  }

  /**
   * The pooling loop as a function, built from the back as the loop runs:
   * the articles of all queries in query order, or the failure of the first
   * query whose fetch fails.
   */
  function Gathered(queries: seq<string>, fetch: string -> Result<seq<Article>, Failure>): Result<seq<Article>, Failure> {
    if queries == [] then Success([])
    else
      match Gathered(queries[..|queries| - 1], fetch)
      case Failure(f) => Failure(f)
      case Success(pooled) =>
        match fetch(queries[|queries| - 1])
        case Failure(f) => Failure(f)
        case Success(articles) => Success(pooled + articles)
  }

  /**
   * The answer for given expanded queries: the first failure, the no-results
   * message when nothing was pooled, or the argument with the generator's
   * reply to the prompt built from the pooled articles ordered by similarity.
   */
  function Answer(argument: string, queries: seq<string>, fetch: string -> Result<seq<Article>, Failure>,
                  chat: string -> string): Outcome {
    match Gathered(queries, fetch)
    case Failure(f) => Failed(f)
    case Success(pooled) =>
      if pooled == [] then NoArticles(NoResultsMessage)
      else Argued(argument, WriteArgument(SortBySimilarity(pooled), argument, chat))
  }

  /** What analyze_argument answers. */
  function Analyze(argument: string, chat: string -> string, send: Request -> Reply,
                   parse: string -> Option<seq<Article>>): Outcome {
    Answer(argument, ExpandedQueries(argument, chat), FetchWith(send, parse), chat)
  }

  /** analyze_argument: expand the argument into queries, then answer for them. */
  method AnalyzeArgument(argument: string, chat: string -> string, send: Request -> Reply,
                         parse: string -> Option<seq<Article>>) returns (outcome: Outcome)
    ensures outcome == Analyze(argument, chat, send, parse)
  {
    var expandedQueries := ExpandQuery(argument, chat);
    outcome := Respond(argument, expandedQueries, chat, send, parse);
  }

  /**
   * The body of analyze_argument after the expansion: search and parse query
   * by query, skipping queries without articles and stopping at the first
   * failure; with no articles at all answer the message, otherwise write the
   * argument from the articles ordered by similarity.
   */
  method Respond(argument: string, expandedQueries: seq<string>, chat: string -> string,
                 send: Request -> Reply, parse: string -> Option<seq<Article>>) returns (outcome: Outcome)
    ensures outcome == Answer(argument, expandedQueries, FetchWith(send, parse), chat)
  {
    ghost var fetch := FetchWith(send, parse);
    var allAbstracts: seq<Article> := [];
    for i := 0 to |expandedQueries|
      invariant Gathered(expandedQueries[..i], fetch) == Success(allAbstracts)
    {
      var query := expandedQueries[i];
      GatheredStep(expandedQueries, i, fetch);
      var rawData := QueryArxiv(query, DefaultMaxResults, send);
      if rawData.Failure? {
        assert fetch(query) == Failure(FetchFailed(rawData.error));
        GatheredAbort(expandedQueries, i + 1, fetch);
        outcome := Failed(FetchFailed(rawData.error));
        return;
      }
      var parsed := parse(rawData.value);
      if parsed.None? {
        assert fetch(query) == Failure(FeedUnreadable);
        GatheredAbort(expandedQueries, i + 1, fetch);
        outcome := Failed(FeedUnreadable);
        return;
      }
      var abstracts := parsed.value;
      assert fetch(query) == Success(abstracts);
      if abstracts == [] {
        assert allAbstracts + abstracts == allAbstracts;
        continue;
      }
      allAbstracts := allAbstracts + abstracts;
    }
    assert expandedQueries[..|expandedQueries|] == expandedQueries;
    if allAbstracts == [] {
      outcome := NoArticles(NoResultsMessage);
      return;
    }
    var sortedAbstracts := SortBySimilarity(allAbstracts);
    var res := WriteArgument(sortedAbstracts, argument, chat);
    outcome := Argued(argument, res);
  }

  /** One more query adds its articles at the end, or ends the pooling with its failure. */
  lemma GatheredStep(queries: seq<string>, i: nat, fetch: string -> Result<seq<Article>, Failure>)
    requires i < |queries|
    ensures Gathered(queries[..i + 1], fetch) ==
      match Gathered(queries[..i], fetch)
      case Failure(f) => Failure(f)
      case Success(pooled) =>
        match fetch(queries[i])
        case Failure(f) => Failure(f)
        case Success(articles) => Success(pooled + articles)
  {
    assert queries[..i + 1][..i] == queries[..i];
  }

  /** Once the pooling of a prefix has failed, the queries after it change nothing. */
  lemma {:induction false} GatheredAbort(queries: seq<string>, n: nat, fetch: string -> Result<seq<Article>, Failure>)
    requires n <= |queries| && Gathered(queries[..n], fetch).Failure?
    ensures Gathered(queries, fetch) == Gathered(queries[..n], fetch)
  {
    if n < |queries| {
      var m := |queries| - 1;
      assert queries[..m][..n] == queries[..n];
      GatheredAbort(queries[..m], n, fetch);
    } else {
      assert queries[..n] == queries;
    }
  }

  /** The pooling succeeds exactly when every query's fetch succeeds. */
  lemma {:induction false} GatheredSucceeds(queries: seq<string>, fetch: string -> Result<seq<Article>, Failure>)
    ensures Gathered(queries, fetch).Success? <==> forall i :: 0 <= i < |queries| ==> fetch(queries[i]).Success?
  {
    if queries != [] {
      var m := |queries| - 1;
      var prefix := queries[..m];
      GatheredSucceeds(prefix, fetch);
      assert forall i :: 0 <= i < m ==> prefix[i] == queries[i];
    }
  }

  /** When the pooling succeeds, an article is pooled exactly when some query retrieved it. */
  lemma {:induction false} GatheredMembers(queries: seq<string>, fetch: string -> Result<seq<Article>, Failure>, a: Article)
    requires Gathered(queries, fetch).Success?
    ensures a in Gathered(queries, fetch).value <==>
      exists i :: 0 <= i < |queries| && fetch(queries[i]).Success? && a in fetch(queries[i]).value
  {
    if queries != [] {
      var m := |queries| - 1;
      var prefix := queries[..m];
      GatheredMembers(prefix, fetch, a);
      assert forall i :: 0 <= i < m ==> prefix[i] == queries[i];
    }
  }

  /** When the pooling succeeds, nothing is pooled exactly when every query retrieved nothing. */
  lemma {:induction false} GatheredNothing(queries: seq<string>, fetch: string -> Result<seq<Article>, Failure>)
    requires Gathered(queries, fetch).Success?
    ensures Gathered(queries, fetch).value == [] <==>
      forall i :: 0 <= i < |queries| ==> fetch(queries[i]) == Success([])
  {
    if queries != [] {
      var m := |queries| - 1;
      var prefix := queries[..m];
      GatheredNothing(prefix, fetch);
      assert forall i :: 0 <= i < m ==> prefix[i] == queries[i];
    }
  }

  /** Every query's articles, query after query: the pool when no fetch fails. */
  function Concatenated(queries: seq<string>, fetch: string -> Result<seq<Article>, Failure>): seq<Article>
    requires forall i :: 0 <= i < |queries| ==> fetch(queries[i]).Success?
  {
    if queries == [] then []
    else fetch(queries[0]).value + Concatenated(queries[1..], fetch)
  }

  /** Adding one query at the end adds its articles at the end. */
  lemma {:induction false} ConcatenatedSnoc(queries: seq<string>, fetch: string -> Result<seq<Article>, Failure>)
    requires queries != []
    requires forall i :: 0 <= i < |queries| ==> fetch(queries[i]).Success?
    ensures var m := |queries| - 1;
      Concatenated(queries, fetch) == Concatenated(queries[..m], fetch) + fetch(queries[m]).value
  {
    var m := |queries| - 1;
    if m > 0 {
      var rest := queries[1..];
      var front := queries[..m];
      var last := fetch(queries[m]).value;
      assert front[1..] == rest[..m - 1];
      assert rest[m - 1] == queries[m];
      assert forall i :: 0 <= i < |rest| ==> rest[i] == queries[i + 1];
      assert forall i :: 0 <= i < |front| ==> front[i] == queries[i];
      ConcatenatedSnoc(rest, fetch);
      calc {
        Concatenated(queries, fetch);
        fetch(queries[0]).value + Concatenated(rest, fetch);
        fetch(queries[0]).value + (Concatenated(rest[..m - 1], fetch) + last);
        (fetch(front[0]).value + Concatenated(front[1..], fetch)) + last;
        Concatenated(front, fetch) + last;
      }
    } else {
      assert queries[..m] == [];
    }
  }

  /**
   * When every fetch succeeds, the pool is the articles of every query, in
   * query order and each query's own order; a query that retrieved nothing
   * adds nothing, and an article two queries retrieved appears twice.
   */
  lemma {:induction false} GatheredIsConcatenation(queries: seq<string>, fetch: string -> Result<seq<Article>, Failure>)
    requires forall i :: 0 <= i < |queries| ==> fetch(queries[i]).Success?
    ensures Gathered(queries, fetch) == Success(Concatenated(queries, fetch))
  {
    if queries != [] {
      var m := |queries| - 1;
      var prefix := queries[..m];
      assert forall i :: 0 <= i < m ==> prefix[i] == queries[i];
      GatheredIsConcatenation(prefix, fetch);
      ConcatenatedSnoc(queries, fetch);
    }
  }

  /**
   * A failing query decides the answer: when every earlier query succeeded,
   * the pooling fails with that query's failure, whatever the later queries
   * would have returned.
   */
  lemma FirstFailureDecides(queries: seq<string>, i: nat, fetch: string -> Result<seq<Article>, Failure>)
    requires i < |queries| && fetch(queries[i]).Failure?
    requires forall j :: 0 <= j < i ==> fetch(queries[j]).Success?
    ensures Gathered(queries, fetch) == Failure(fetch(queries[i]).error)
  {
    var prefix := queries[..i];
    assert forall j :: 0 <= j < i ==> prefix[j] == queries[j];
    GatheredSucceeds(prefix, fetch);
    GatheredStep(queries, i, fetch);
    GatheredAbort(queries, i + 1, fetch);
  }

  /** The answer is an error exactly when some query's fetch fails. */
  lemma AnswerFails(argument: string, queries: seq<string>, fetch: string -> Result<seq<Article>, Failure>,
                    chat: string -> string)
    ensures Answer(argument, queries, fetch, chat).Failed? <==>
      exists i :: 0 <= i < |queries| && fetch(queries[i]).Failure?
  {
    GatheredSucceeds(queries, fetch);
  }

  /** The answer is the no-results message exactly when every query was fetched and retrieved nothing. */
  lemma AnswerNoArticles(argument: string, queries: seq<string>, fetch: string -> Result<seq<Article>, Failure>,
                         chat: string -> string)
    ensures Answer(argument, queries, fetch, chat) == NoArticles(NoResultsMessage) <==>
      forall i :: 0 <= i < |queries| ==> fetch(queries[i]) == Success([])
  {
    GatheredSucceeds(queries, fetch);
    if Gathered(queries, fetch).Success? {
      GatheredNothing(queries, fetch);
    }
  }

  /**
   * Otherwise the answer carries the argument, unchanged, and the generator's
   * reply to the prompt built from all pooled articles, ordered best first.
   */
  lemma AnswerArgued(argument: string, queries: seq<string>, fetch: string -> Result<seq<Article>, Failure>,
                     chat: string -> string)
    requires Answer(argument, queries, fetch, chat).Argued?
    ensures Gathered(queries, fetch).Success? && Gathered(queries, fetch).value != []
    ensures exists ordered ::
      && multiset(ordered) == multiset(Gathered(queries, fetch).value)
      && NonIncreasing(ordered)
      && Answer(argument, queries, fetch, chat) == Argued(argument, chat(ArgumentPrompt(ordered, argument)))
  {
    var ordered := SortBySimilarity(Gathered(queries, fetch).value);
    assert Answer(argument, queries, fetch, chat) == Argued(argument, chat(ArgumentPrompt(ordered, argument)));
  }

  /**
   * With the similarity step disabled no article carries a score, and the
   * prompt lists the pooled articles in retrieval order: query by query, each
   * query's articles in feed order.
   */
  lemma UnscoredKeepsRetrievalOrder(argument: string, queries: seq<string>, fetch: string -> Result<seq<Article>, Failure>,
                                    chat: string -> string)
    requires forall q, a :: fetch(q).Success? && a in fetch(q).value ==> a.similarity.None?
    ensures var outcome := Answer(argument, queries, fetch, chat);
      outcome.Argued? ==> outcome.results == chat(ArgumentPrompt(Gathered(queries, fetch).value, argument))
  {
    var gathered := Gathered(queries, fetch);
    if gathered.Success? {
      forall a | a in gathered.value
        ensures a.similarity.None?
      {
        GatheredMembers(queries, fetch, a);
      }
      SortUnscored(gathered.value);
    }
  }
}
