/**
 * Query expansion: expand_query and parse_expanded_queries in test_groq.py.
 * The text generator is a parameter from prompt to reply; the reply is read
 * line by line, the text after the first ". " of every line that starts with
 * a digit is kept, and the result goes through clean_queries.
 */
module QueryExpansion {
  import opened Wrappers
  import opened Text
  import opened QueryCleaning

  /** The instruction that asks for three alternative search queries, up to the argument. */
  const ExpansionLead: string := "I have a search query: '"

  /** The rest of that instruction, after the argument. */
  const ExpansionTail: string :=
    "'. "
    + "Your task is to expand this query into three alternative search queries that are suitable for finding academic articles or research papers. "
    + "Each query should be brief, to the point, and use different phrasing or synonyms. "
    + "Please format your response in the following way:\n"
    + "1. [First query]\n"
    + "2. [Second query]\n"
    + "3. [Third query]"

  /** The message expand_query sends: the argument, quoted verbatim, inside the fixed instruction. */
  function ExpansionPrompt(argument: string): (p: string)
    ensures |p| == |ExpansionLead| + |argument| + |ExpansionTail|
    ensures p[|ExpansionLead|..|ExpansionLead| + |argument|] == argument
  {
    ExpansionLead + argument + ExpansionTail
  }

  /**
   * What one response line contributes: when the line is not blank, its first
   * character (before any stripping) is a digit and it contains ". ", the
   * text after the first ". ", stripped; otherwise nothing.
   */
  function Candidate(line: string): Option<string> {
    if Strip(line) != "" && IsDigit(line[0]) then
      match FindDotSpace(line)
      case Some(k) => Some(Strip(line[k + 2..]))
      case None => None
    else None
  }

  /** The values f gives for the elements of xs, in order, skipping None (built from the back, as a loop appends). */
  function Collect<T>(xs: seq<T>, f: T -> Option<string>): (ys: seq<string>)
    ensures |ys| <= |xs|
  {
    if xs == [] then []
    else
      var prior := Collect(xs[..|xs| - 1], f);
      match f(xs[|xs| - 1])
      case Some(y) => prior + [y]
      case None => prior
  }

  /** The candidates of all lines, in line order. */
  function Candidates(lines: seq<string>): seq<string> {
    Collect(lines, Candidate)
  }

  /** What parse_expanded_queries returns. */
  function ParsedQueries(response: string): seq<string> {
    Cleaned(Candidates(Split(response, '\n')))
  }

  /** parse_expanded_queries: a loop over the lines that appends candidates, then clean_queries. */
  method ParseExpandedQueries(response: string) returns (cleanedQueries: seq<string>)
    ensures cleanedQueries == ParsedQueries(response)
  {
    var queries: seq<string> := [];
    var lines := Split(response, '\n');
    for i := 0 to |lines|
      invariant queries == Candidates(lines[..i])
    {
      var line := lines[i];
      var candidate := Candidate(line);
      CollectStep(lines, Candidate, i);
      if candidate.Some? {
        queries := queries + [candidate.value];
      }
    }
    assert lines[..|lines|] == lines;
    cleanedQueries := CleanQueries(queries);
  }

  /** What expand_query returns when the generator answers prompts with chat. */
  function ExpandedQueries(argument: string, chat: string -> string): seq<string> {
    ParsedQueries(chat(ExpansionPrompt(argument)))
  }

  /** expand_query: one request to the generator, then the reply is parsed. */
  method ExpandQuery(argument: string, chat: string -> string) returns (queries: seq<string>)
    ensures queries == ExpandedQueries(argument, chat)
  {
    var reply := chat(ExpansionPrompt(argument));
    queries := ParseExpandedQueries(reply);
  }

  /** One more element adds its value, if any, at the end. */
  lemma CollectStep<T>(xs: seq<T>, f: T -> Option<string>, i: nat)
    requires i < |xs|
    ensures Collect(xs[..i + 1], f) ==
      if f(xs[i]).Some? then Collect(xs[..i], f) + [f(xs[i]).value] else Collect(xs[..i], f)
  {
    assert xs[..i + 1][..i] == xs[..i];
  }

  /* ---- The line filter ---- */

  /**
   * A line yields a candidate exactly when it is non-empty, its first raw
   * character is a digit and ". " occurs anywhere in it; blank lines and lines
   * with leading whitespace yield none.
   */
  lemma CandidateCondition(line: string)
    ensures Candidate(line).Some? <==> |line| > 0 && IsDigit(line[0]) && exists k :: DotSpaceAt(line, k)
  {
    if |line| > 0 && IsDigit(line[0]) {
      TrimEndsNonEmpty(line, IsSpace);
      if exists k :: DotSpaceAt(line, k) {
        var k :| DotSpaceAt(line, k);
        assert FindDotSpace(line).Some?;
      }
    }
  }

  /** The candidate is the stripped text after the FIRST occurrence of ". ". */
  lemma CandidateText(line: string, k: nat)
    requires |line| > 0 && IsDigit(line[0])
    requires DotSpaceAt(line, k) && forall j :: 0 <= j < k ==> !DotSpaceAt(line, j)
    ensures Candidate(line) == Some(Strip(line[k + 2..]))
  {
    TrimEndsNonEmpty(line, IsSpace);
    var found := FindDotSpace(line);
    assert found.Some?;
    assert !(found.value < k) && !(k < found.value);
  }

  /** A collected value comes from some element, and every element with a value contributes it. */
  lemma {:induction false} CollectMembers<T>(xs: seq<T>, f: T -> Option<string>, y: string)
    ensures y in Collect(xs, f) <==> exists i :: 0 <= i < |xs| && f(xs[i]) == Some(y)
  {
    if xs != [] {
      var n := |xs| - 1;
      var prior := Collect(xs[..n], f);
      CollectMembers(xs[..n], f, y);
      CollectStep(xs, f, n);
      assert xs[..n + 1] == xs;
      if y in prior {
        var i :| 0 <= i < n && f(xs[..n][i]) == Some(y);
        assert f(xs[i]) == Some(y);
      }
      if exists i :: 0 <= i < |xs| && f(xs[i]) == Some(y) {
        var i :| 0 <= i < |xs| && f(xs[i]) == Some(y);
        if i < n {
          assert f(xs[..n][i]) == Some(y);
        }
      }
    }
  }

  /**
   * Every query parse_expanded_queries returns is the cleaned form of some
   * candidate (the text after the first ". " of a line that starts with a
   * digit), and every candidate that does not clean to "" contributes its query.
   */
  lemma ParsedQueryOrigin(response: string, q: string)
    ensures q in ParsedQueries(response) <==>
      q != "" && exists c :: c in Candidates(Split(response, '\n')) && Normalize(c) == q
  {
    CleanedMembers(Candidates(Split(response, '\n')), q);
  }
}
