# win-my-argument: query and corpus pipeline in Dafny

This project models the query-and-corpus pipeline of the argument-analysis
service. The service takes an argument and asks a text generator for
alternative search queries. It cleans those queries and searches arXiv's
abstracts for each one. It pools the retrieved articles, orders them by
similarity, and asks the generator to write an argument from them.

The two network services are parameters of the model:

- The text generator is a function `chat` from prompt to reply.
- The arXiv HTTP client is a function `send` from request to reply. A reply
  is a response with a status and a body, or a failure to get one.

The Atom feed parser is a parameter too: a function `parse` from feed text to
a list of articles, or `None` when the parser raises.

Modules, one per concern of the source:

- `Wrappers`: `Option` and `Result`.
- `Text`: the Python string operations the code relies on. It covers
  `str.split()`, `split("\n")`, `strip()`, ASCII `lower()` and `isdigit()`,
  `" ".join`, and trimming the ends of a string with a character class.
- `QueryCleaning`: `clean_queries` and its inner `clean_single_query`.
- `QueryExpansion`: `expand_query` and `parse_expanded_queries`.
- `ArgumentWriting`: the prompt `write_argument` builds, and its call to the generator.
- `Articles`: the article record and the stable, best-first sort by similarity.
- `ArxivSearch`: `query_arxiv`, meaning the search expression, the request and the error branch.
- `Analysis`: `analyze_argument`, meaning pooling, the no-results branch, abort on failure, sorting and the answer.

The loops of the source are methods with loop invariants:

- `CleanQueries`: the deduplication loop over a `seen` set.
- `ParseExpandedQueries`: the line loop.
- `Respond`: the per-query loop of `analyze_argument`, with its `continue` and its early exit.

Each loop method is proved equal to a specification function built from the
back, as the loop builds it. The properties are then proved as lemmas about
those functions.

Two behaviours of the code are worth stating outright:

- **Failed query.** No handler surrounds the per-query loop (main.py:68-71).
  The first search that fails, or the first feed that cannot be parsed, ends
  the whole request; with a failed search the answer is HTTP 500.
  `FirstFailureDecides` and `GatheredAbort` state this behaviour.
- **Candidate lines.** A line is tested on its first raw character, and it
  may hold `". "` anywhere (test_groq.py:51). So `" 1. x"` yields nothing,
  and `"12 x. y"` yields `"y"`. `CandidateCondition` states this behaviour.

## Model

| member | source | states |
|---|---|---|
| QueryCleaning.IsSearchToken | test_groq.py:15-20 | a token survives the filter exactly when it is non-empty, made of `a`–`z` only (`^[a-z]+$`) and not one of the 31 stop-words |
| QueryCleaning.CleanSingleQuery | test_groq.py:22-32 | clean_single_query: lower-case, split on whitespace, keep the search tokens, join with single spaces; `NormalizeTokens`, `NormalizeDropsAll` and `NormalizeCleanQuery` characterise it |
| QueryCleaning.Normalize | test_groq.py:34 | one element of the comprehension: the string with its non-letter ends removed, then cleaned; its tokens are given by `NormalizeTokens`, and it is the identity on clean queries by `NormalizeCleanQuery` |
| QueryCleaning.NormalizeAll | test_groq.py:34 | the comprehension: one cleaned string per input string, in order |
| QueryCleaning.Cleaned | test_groq.py:34-43 | what clean_queries returns: the deduplication of the cleaned strings; `CleanedShape`, `CleanedMembers`, `CleanedOrder` and `CleanedIdempotent` characterise it, and `CleanQueries` is proved equal to it |
| QueryCleaning.CleanQueries | test_groq.py:34-43 | the loop over the cleaned strings, with its `seen` set, returns exactly `Cleaned(queries)`: the non-empty cleaned strings, each at its first occurrence |
| QueryCleaning.KeptTokens | test_groq.py:27-30 | a token is kept exactly when it is in the input and is a search token (non-empty, `[a-z]` only, not a stop-word); no more tokens than given |
| QueryCleaning.FirstSeen | test_groq.py:36-41 | the deduplicated list holds exactly the non-empty input strings, no two equal, and is no longer than the input |
| QueryCleaning.FirstSeenStep | test_groq.py:38-41 | one more input string is appended exactly when it is non-empty and not yet seen |
| QueryCleaning.FirstSeenOrder | test_groq.py:36-41 | the kept strings appear in the order of their first occurrences in the input |
| QueryCleaning.FirstSeenOfDistinct | test_groq.py:36-41 | distinct non-empty strings pass the deduplication unchanged |
| QueryCleaning.NormalizeTokens | test_groq.py:22-34 | the tokens of a cleaned string are exactly the filtered tokens of the lowered, end-trimmed input (tokens kept or dropped whole), and the result is a single-space join of search tokens |
| QueryCleaning.NormalizeDropsAll | test_groq.py:27-32 | a string all of whose tokens fail the filter (stop-words, digits, hyphens, apostrophes) cleans to "" |
| QueryCleaning.NormalizeCleanQuery | test_groq.py:22-34 | a non-empty cleaned query cleans to itself: it starts and ends with a letter, is lower-case and passes the filter |
| QueryCleaning.CleanedShape | test_groq.py:34-43 | every returned string is non-empty and a single-space join of search tokens, no two are equal, and there are no more than inputs |
| QueryCleaning.CleanedMembers | test_groq.py:34-43 | a string is returned exactly when it is non-empty and some input cleans to it |
| QueryCleaning.CleanedOrder | test_groq.py:36-41 | the returned strings keep the order of their first cleaned occurrence |
| QueryCleaning.CleanedIdempotent | test_groq.py:13-43 | cleaning the output of clean_queries again changes nothing |
| Text.Words | test_groq.py:25 | `str.split()`: every piece is non-empty and free of whitespace |
| Text.WordsOfJoin | test_groq.py:32 | splitting a single-space join of non-empty whitespace-free tokens gives the tokens back |
| Text.WordsOfBlank | main.py:24 | a whitespace-only string has no words |
| Text.Lower | test_groq.py:23 | `lower()` keeps the length and maps each ASCII capital to its small letter, leaving other characters alone |
| Text.TrimEnds | test_groq.py:34 | removing the leading and trailing runs of a character class: the result is the input between the two runs, its ends are outside the class, and it is empty only when every character is in the class |
| Text.JoinSplit | test_groq.py:50 | joining the pieces of `split("\n")` with the separator gives the text back |
| Text.SplitPiecesLackSeparator | test_groq.py:50 | no piece of `split("\n")` contains the separator |
| Text.FindDotSpace | test_groq.py:51-53 | the position of the first `". "` in a line, or None exactly when there is none |
| QueryExpansion.ExpansionPrompt | test_groq.py:66-74 | the argument appears verbatim inside the fixed instruction, after its opening |
| QueryExpansion.Candidate | test_groq.py:51-53 | the candidate a single line yields, or none; `CandidateCondition` states when there is one and `CandidateText` what it is |
| QueryExpansion.Collect | test_groq.py:49-55 | the values the lines yield, in line order, never more than the lines; `CollectMembers` states membership both ways |
| QueryExpansion.Candidates | test_groq.py:49-55 | the candidates of the reply's lines, in order, as the loop appends them |
| QueryExpansion.ParsedQueries | test_groq.py:48-58 | what parse_expanded_queries returns: clean_queries of the candidates of the lines of `split("\n")`; `ParsedQueryOrigin` characterises it, and `ParseExpandedQueries` is proved equal to it |
| QueryExpansion.ExpandedQueries | test_groq.py:61-81 | what expand_query returns: the parse of the generator's reply to the expansion prompt; `ExpandQuery` is proved equal to it |
| QueryExpansion.ParseExpandedQueries | test_groq.py:48-58 | the loop over the reply's lines, then clean_queries, returns exactly `Cleaned(Candidates(lines))` |
| QueryExpansion.ExpandQuery | test_groq.py:61-81 | the result is the parse of the generator's reply to the expansion prompt |
| QueryExpansion.CandidateCondition | test_groq.py:51 | a line yields a candidate exactly when it is non-empty, its first raw character is a digit and `". "` occurs in it |
| QueryExpansion.CandidateText | test_groq.py:53 | the candidate is the stripped text after the first `". "` |
| QueryExpansion.CollectMembers | test_groq.py:49-55 | a value is collected exactly when some line yields it |
| QueryExpansion.ParsedQueryOrigin | test_groq.py:48-58 | a query is returned exactly when it is non-empty and some candidate cleans to it |
| ArxivSearch.SearchExpression | main.py:24-25 | the `abs:` terms of the query's whitespace-separated words joined by `" AND "`; `SearchExpressionRoundTrip` shows it asks for exactly those words and `SearchExpressionSmall` gives the one-word and blank cases |
| ArxivSearch.AbstractTerms | main.py:25 | one term per word, in order, each `abs:` followed by the word |
| ArxivSearch.ArxivRequest | main.py:27-36 | the request goes to the API address with start 0, the given max_results, relevance order descending, and a search expression that names exactly the query's words |
| ArxivSearch.IsErrorStatus | main.py:37 | the statuses `raise_for_status` rejects: 400 to 599 |
| ArxivSearch.QueryArxiv | main.py:35-43 | the feed body when the reply is a response whose status is not an error; otherwise the error with status 500 and detail "Failed to fetch data from arXiv" |
| ArxivSearch.JoinInterleaved | main.py:25 | joining terms with `" AND "` equals joining them, with `AND` tokens between, by single spaces |
| ArxivSearch.DecodeInterleaved | main.py:25 | reading the terms of non-empty words back gives the words |
| ArxivSearch.SearchExpressionRoundTrip | main.py:24-25 | the search expression, read back, gives exactly the words of the query in order, so the number of `abs:` terms equals the number of words |
| ArxivSearch.SearchExpressionSmall | main.py:24-25 | a one-word query gives `abs:` and the word alone; a whitespace-only query gives the empty expression |
| Articles.SimilarityKey | main.py:91 | the sort key `x.get("similarity", 0)`: the score when present, 0 otherwise; `SortBySimilarity`, `SortStable` and `SortUnscored` state the order it induces |
| Articles.InsertBySimilarity | main.py:91 | inserting keeps the multiset of articles plus the new one |
| Articles.InsertKeepsOrder | main.py:91 | inserting into a best-first list keeps it best first |
| Articles.SortBySimilarity | main.py:91 | the sorted list is a permutation of the input and is non-increasing in similarity, with a missing score counted as 0 |
| Articles.InsertWithKey | main.py:91 | an insert puts the article first among those with its key and changes no other key's articles |
| Articles.SortStable | main.py:91 | for every key, the articles with that key keep their input order |
| Articles.SortUnscored | main.py:76-91 | when no article has a score, the sort returns the input order |
| ArgumentWriting.ArticleBlock | test_groq.py:87 | one article's block; `BlockFields` states that title, summary and link stand verbatim after their labels, in order |
| ArgumentWriting.ArticleBlocks | test_groq.py:86-89 | one block per article, in the order given |
| ArgumentWriting.ArticleInfo | test_groq.py:86-89 | the blocks joined by `"\n"`; `PromptHoldsBlock` and `PromptBlocksInOrder` locate each block and the separator between neighbours |
| ArgumentWriting.PromptHead | test_groq.py:93 | the argument appears verbatim after the opening instruction |
| ArgumentWriting.ArgumentPrompt | test_groq.py:92-98 | the instruction with the argument, the article list and the closing cue; `PromptFrame`, `HeadEndsWithHeading`, `PromptHoldsBlock` and `PromptBlocksInOrder` characterise it |
| ArgumentWriting.WriteArgument | test_groq.py:84-110 | write_argument: the generator's reply to `ArgumentPrompt`, returned as it is |
| ArgumentWriting.PromptFrame | test_groq.py:92-98 | in the prompt the argument follows the opening instruction verbatim, the article list follows the `Articles:` heading, and the prompt ends with the `Argument:` cue |
| ArgumentWriting.HeadEndsWithHeading | test_groq.py:92-95 | the instruction before the article list ends with the `Articles:` heading |
| ArgumentWriting.PromptHoldsBlock | test_groq.py:86-96 | every article's block appears unchanged in the prompt, at the instruction's length plus the block's offset in the list |
| ArgumentWriting.BlockFields | test_groq.py:87 | a block is the title, summary and link, each verbatim after its label, in that order |
| ArgumentWriting.PromptBlocksInOrder | test_groq.py:86-89 | each block is followed by a newline and then by the next article's block |
| Analysis.Fetch | main.py:70-71 | one query's articles: the parse of query_arxiv's feed, its HTTP error, or the parser's failure |
| Analysis.Gathered | main.py:66-84 | the pooling loop built from the back: `GatheredSucceeds`, `GatheredMembers`, `GatheredNothing`, `GatheredAbort`, `FirstFailureDecides` and `GatheredIsConcatenation` characterise it |
| Analysis.Answer | main.py:66-98 | the answer for given queries; `AnswerFails`, `AnswerNoArticles` and `AnswerArgued` give its three cases, and `Respond` is proved equal to it |
| Analysis.Analyze | main.py:60-98 | what analyze_argument answers: `Answer` for the expanded queries with the search-and-parse fetch; `AnalyzeArgument` is proved equal to it |
| Analysis.AnalyzeArgument | main.py:60-98 | the endpoint's answer is `Analyze`: expansion, then the answer for the expanded queries |
| Analysis.Respond | main.py:66-98 | the loop pools each query's articles, skips empty lists, and stops at the first failure; then it answers with the no-results message or the written argument, exactly as `Answer` |
| Analysis.GatheredStep | main.py:68-84 | one more query appends its articles, or ends the pooling with its failure |
| Analysis.GatheredAbort | main.py:68-71 | once a prefix of the queries has failed, later queries change nothing |
| Analysis.GatheredSucceeds | main.py:68-84 | the pooling succeeds exactly when every query's search and parse succeed |
| Analysis.GatheredMembers | main.py:66-84 | an article is pooled exactly when some query retrieved it |
| Analysis.GatheredNothing | main.py:73-86 | nothing is pooled exactly when every query retrieved nothing |
| Analysis.ConcatenatedSnoc | main.py:84 | concatenating the query lists from the front equals appending the last query's list at the end |
| Analysis.GatheredIsConcatenation | main.py:66-84 | without failures the pool is the concatenation of the per-query lists in query order, duplicates included |
| Analysis.FirstFailureDecides | main.py:39-41 | the first failing query's failure is the answer, whatever later queries would return |
| Analysis.AnswerFails | main.py:68-71 | the answer is an error exactly when some query's search or parse fails |
| Analysis.AnswerNoArticles | main.py:86-88 | the answer is `{"message": "No relevant articles found"}` exactly when every query was fetched and retrieved nothing |
| Analysis.AnswerArgued | main.py:90-98 | otherwise the answer carries the argument unchanged and the generator's reply to the prompt built from all pooled articles, in a best-first permutation |
| Analysis.UnscoredKeepsRetrievalOrder | main.py:76-94 | with scoring disabled, the prompt lists the pooled articles in retrieval order |

## Left out

- HTTP transport (`requests.get`) is the `send` parameter. The model does not capture its timeouts, retries or encoding of the query string.
- The generator client (Groq, model `llama3-8b-8192`) is the `chat` parameter. A failure of the generator during expansion or synthesis is not modelled: `chat` is total.
- Atom parsing (`parse_arxiv_response`, main.py:45-57) is the `parse` parameter. `None` stands for any exception the parser raises. An entry whose element text is missing is not modelled.
- FastAPI routing, the request model and all logging are left out as service plumbing.
- The disabled sentence-embedding similarity (main.py:76-81) is left out. A score is an optional `real` without floating-point rounding, NaN or infinities.
- `Text.Lower` and `Text.IsDigit` treat only ASCII letters and digits. Python's `lower()` and `isdigit()` also act on other Unicode characters.
- The `IndexError` handler in `parse_expanded_queries` (test_groq.py:54-55) is not modelled. A line that contains `". "` always splits into two pieces, so the handler never runs.
- Analysis.AnswerNoArticles: "write_argument is never called" is stated as "the answer holds no generator reply". `chat` is a pure function, so whether it was called is not observable.
- Analysis.Respond: the part of `analyze_argument` after `expand_query` is a method of its own, called by `AnalyzeArgument`. The source has one function.
