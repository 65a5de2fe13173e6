/**
 * The arXiv search of query_arxiv (main.py:21-43): a search query becomes a
 * conjunction of abstract-field terms, one per whitespace-separated word, and
 * one GET request to the arXiv API fetches the Atom feed. The HTTP client is
 * a parameter from request to reply.
 */
module ArxivSearch {
  import opened Wrappers
  import opened Text

  const ArxivApiUrl: string := "http://export.arxiv.org/api/query"

  /** The number of results asked for when the caller names none. */
  const DefaultMaxResults: int := 10

  /** Each word is searched for in the abstract field. */
  const FieldPrefix: string := "abs:"

  /** The operator between terms, as it stands between its spaces. */
  const Operator: string := "AND"

  /** The status and detail of the error a failed fetch turns into. */
  const FetchFailedStatus: int := 500
  const FetchFailedDetail: string := "Failed to fetch data from arXiv"

  /** The query parameters of the request. */
  datatype SearchParams = SearchParams(
    searchQuery: string, start: int, maxResults: int, sortBy: string, sortOrder: string)

  datatype Request = Request(url: string, params: SearchParams)

  /** What the HTTP client gives back: a response with its status and body, or a failure to get one. */
  datatype Reply = Response(status: int, text: string) | RequestFailed

  /** The HTTP error the endpoint raises. */
  datatype HttpError = HttpError(status: int, detail: string)

  /** The abstract-field term of each word, in order. */
  function AbstractTerms(words: seq<string>): (terms: seq<string>)
    ensures |terms| == |words|
    ensures forall i :: 0 <= i < |words| ==> terms[i] == FieldPrefix + words[i]
  {
    seq(|words|, i requires 0 <= i < |words| => FieldPrefix + words[i])
  }

  /** The search expression: the terms of the query's words joined by " AND ". */
  function SearchExpression(searchQuery: string): string {
    Join(AbstractTerms(Words(searchQuery)), " " + Operator + " ")
  }

  /**
   * The request for one search: the API address, the search expression, which
   * asks for exactly the query's words, and the first page of maxResults
   * results sorted by relevance, best first.
   */
  function ArxivRequest(searchQuery: string, maxResults: int): (r: Request)
    ensures r.url == ArxivApiUrl
    ensures SearchWords(r.params.searchQuery) == Some(Words(searchQuery))
    ensures r.params.start == 0 && r.params.maxResults == maxResults
    ensures r.params.sortBy == "relevance" && r.params.sortOrder == "descending"
  {
    SearchExpressionRoundTrip(searchQuery);
    Request(ArxivApiUrl, SearchParams(SearchExpression(searchQuery), 0, maxResults, "relevance", "descending"))
  }

  /** The statuses raise_for_status rejects: client and server errors. */
  predicate IsErrorStatus(status: int) {
    400 <= status < 600
  }

  /**
   * query_arxiv: the body of the feed, or the 500 error when the request
   * fails or the reply carries an error status.
   */
  function QueryArxiv(searchQuery: string, maxResults: int, send: Request -> Reply): (r: Result<string, HttpError>)
    ensures var reply := send(ArxivRequest(searchQuery, maxResults));
      && (r.Success? <==> reply.Response? && !IsErrorStatus(reply.status))
      && (r.Success? ==> r.value == reply.text)
      && (r.Failure? ==> r.error == HttpError(FetchFailedStatus, FetchFailedDetail))
  {
    match send(ArxivRequest(searchQuery, maxResults))
    case RequestFailed => Failure(HttpError(FetchFailedStatus, FetchFailedDetail))
    case Response(status, text) =>
      if IsErrorStatus(status) then Failure(HttpError(FetchFailedStatus, FetchFailedDetail))
      else Success(text)
  }

  /* ---- Reading the search expression back ---- */

  /** The terms with the operator between each pair: the tokens of the expression. */
  function Interleaved(terms: seq<string>): (tokens: seq<string>)
    ensures |terms| > 0 ==> |tokens| == 2 * |terms| - 1
  {
    if |terms| <= 1 then terms else [terms[0], Operator] + Interleaved(terms[1..])
  }

  /** A token that searches the abstract field for a non-empty word. */
  predicate IsAbstractTerm(token: string) {
    |token| > |FieldPrefix| && token[..|FieldPrefix|] == FieldPrefix
  }

  /**
   * The words of a token sequence of the form term AND term ... AND term,
   * or None when the tokens do not have that form.
   */
  function DecodeTerms(tokens: seq<string>): Option<seq<string>> {
    if tokens == [] then Some([])
    else if !IsAbstractTerm(tokens[0]) then None
    else if |tokens| == 1 then Some([tokens[0][|FieldPrefix|..]])
    else if |tokens| == 2 || tokens[1] != Operator then None
    else
      match DecodeTerms(tokens[2..])
      case Some(words) => Some([tokens[0][|FieldPrefix|..]] + words)
      case None => None
  }

  /** The words a search expression asks for, if it has the form query_arxiv builds. */
  function SearchWords(expression: string): Option<seq<string>> {
    DecodeTerms(Words(expression))
  }

  /** Joining terms with " AND " is joining the interleaved tokens with single spaces. */
  lemma {:induction false} JoinInterleaved(terms: seq<string>)
    ensures Join(terms, " " + Operator + " ") == Join(Interleaved(terms), " ")
  {
    if |terms| > 1 {
      var rest := terms[1..];
      var tail := Interleaved(rest);
      JoinInterleaved(rest);
      assert |tail| >= 1;
      var tokens := [terms[0], Operator] + tail;
      assert tokens[1..] == [Operator] + tail;
      assert ([Operator] + tail)[1..] == tail;
      calc {
        Join(tokens, " ");
        terms[0] + " " + Join([Operator] + tail, " ");
        terms[0] + " " + (Operator + " " + Join(tail, " "));
        terms[0] + (" " + Operator + " ") + Join(rest, " " + Operator + " ");
      }
    }
  }

  /** Every token is a term or the operator. */
  lemma {:induction false} InterleavedTokens(terms: seq<string>, t: string)
    requires t in Interleaved(terms)
    ensures t in terms || t == Operator
  {
    if |terms| > 1 {
      if t !in [terms[0], Operator] {
        InterleavedTokens(terms[1..], t);
      }
    }
  }

  /** Decoding the interleaved terms of non-empty words gives the words back. */
  lemma {:induction false} DecodeInterleaved(words: seq<string>)
    requires forall w :: w in words ==> w != []
    ensures DecodeTerms(Interleaved(AbstractTerms(words))) == Some(words)
  {
    var terms := AbstractTerms(words);
    if words != [] {
      assert (FieldPrefix + words[0])[..|FieldPrefix|] == FieldPrefix;
      assert (FieldPrefix + words[0])[|FieldPrefix|..] == words[0];
      assert words[0] in words;
      assert IsAbstractTerm(terms[0]);
      if |words| == 1 {
        assert [words[0]] == words;
      } else {
        var rest := words[1..];
        assert forall w :: w in rest ==> w in words;
        assert AbstractTerms(rest) == terms[1..];
        DecodeInterleaved(rest);
        var tokens := Interleaved(terms);
        assert tokens[2..] == Interleaved(terms[1..]);
        assert [words[0]] + rest == words;
      }
    }
  }

  /**
   * The search expression names exactly the words of the query, in order:
   * read back, it gives Words(searchQuery).
   */
  lemma SearchExpressionRoundTrip(searchQuery: string)
    ensures SearchWords(SearchExpression(searchQuery)) == Some(Words(searchQuery))
  {
    var words := Words(searchQuery);
    var terms := AbstractTerms(words);
    JoinInterleaved(terms);
    forall t | t in Interleaved(terms)
      ensures t != [] && NoSpace(t)
    {
      InterleavedTokens(terms, t);
      if t in terms {
        var i :| 0 <= i < |terms| && terms[i] == t;
        assert words[i] in words;
        assert t == FieldPrefix + words[i];
      }
    }
    WordsOfJoin(Interleaved(terms));
    DecodeInterleaved(words);
  }

  /**
   * A query of one word searches the abstract for that word alone, with no
   * operator; a query of whitespace only gives the empty expression.
   */
  lemma SearchExpressionSmall(searchQuery: string)
    ensures |Words(searchQuery)| == 1 ==> SearchExpression(searchQuery) == FieldPrefix + Words(searchQuery)[0]
    ensures (forall i :: 0 <= i < |searchQuery| ==> IsSpace(searchQuery[i])) ==> SearchExpression(searchQuery) == ""
  {
    if forall i :: 0 <= i < |searchQuery| ==> IsSpace(searchQuery[i]) {
      WordsOfBlank(searchQuery);
    }
  }
}
