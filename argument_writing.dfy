/**
 * Argument writing: the prompt that write_argument (test_groq.py:84-110)
 * builds from the ordered articles and the argument, and the generator's
 * reply to it.
 */
module ArgumentWriting {
  import opened Text
  import opened Articles

  /** The instruction up to the argument. */
  const PromptLead: string := "Using the following academic papers, write a comprehensive argument on the topic of "

  /** The heading the article list follows. */
  const ArticlesHeading: string := "Articles:\n"

  /** The instruction between the argument and the article list, ending with the heading. */
  const PromptMiddle: string :=
    ". "
    + "The argument should draw from the papers provided below and reference them in a logical, coherent way.Dont use any other papers other than the ones i provided\n\n"
    + ArticlesHeading

  /** What follows the article list. */
  const PromptEnd: string := "\n\nArgument:"

  const TitleLabel: string := "Title: "
  const SummaryLabel: string := "\nSummary: "
  const LinkLabel: string := "\nLink: "

  /** One article's block of the article list. */
  function ArticleBlock(a: Article): string {
    TitleLabel + a.title + SummaryLabel + a.summary + LinkLabel + a.link
  }

  /** The blocks of all articles, in the order given. */
  function ArticleBlocks(articles: seq<Article>): (blocks: seq<string>)
    ensures |blocks| == |articles|
    ensures forall i :: 0 <= i < |articles| ==> blocks[i] == ArticleBlock(articles[i])
  {
    seq(|articles|, i requires 0 <= i < |articles| => ArticleBlock(articles[i]))
  }

  /** article_info: the blocks joined by newlines. */
  function ArticleInfo(articles: seq<Article>): string {
    Join(ArticleBlocks(articles), "\n")
  }

  /** The instruction with the argument embedded, up to the article list. */
  function PromptHead(argument: string): (h: string)
    ensures |h| == |PromptLead| + |argument| + |PromptMiddle|
    ensures h[|PromptLead|..|PromptLead| + |argument|] == argument
  {
    PromptLead + argument + PromptMiddle
  }

  /** The prompt: the instruction with the argument embedded, then the article list, then the closing cue. */
  function ArgumentPrompt(articles: seq<Article>, argument: string): string {
    PromptHead(argument) + ArticleInfo(articles) + PromptEnd
  }

  /** write_argument: the generator's reply to the prompt, returned as it is. */
  function WriteArgument(articles: seq<Article>, argument: string, chat: string -> string): string {
    chat(ArgumentPrompt(articles, argument))
  }

  /**
   * The argument appears verbatim after the opening instruction, and the
   * prompt ends with the closing cue.
   */
  lemma PromptFrame(articles: seq<Article>, argument: string)
    ensures var p := ArgumentPrompt(articles, argument); var n := |PromptHead(argument)|;
      && |PromptLead| + |argument| + |ArticlesHeading| <= n
      && n + |PromptEnd| <= |p|
      && p[|PromptLead|..|PromptLead| + |argument|] == argument
      && p[n - |ArticlesHeading|..n] == ArticlesHeading
      && p[|p| - |PromptEnd|..] == PromptEnd
  {
    var h := PromptHead(argument);
    var p := ArgumentPrompt(articles, argument);
    ThreeParts(h, ArticleInfo(articles), PromptEnd);
    ThreePartsPrefix(h, ArticleInfo(articles), PromptEnd, |PromptLead|, |PromptLead| + |argument|);
    HeadEndsWithHeading(argument);
    ThreePartsPrefix(h, ArticleInfo(articles), PromptEnd, |h| - |ArticlesHeading|, |h|);
  }

  /** The instruction ends with the heading of the article list. */
  lemma HeadEndsWithHeading(argument: string)
    ensures var h := PromptHead(argument);
      |ArticlesHeading| <= |h| && h[|h| - |ArticlesHeading|..|h|] == ArticlesHeading
  {
    var front := PromptLead + argument + PromptMiddle[..|PromptMiddle| - |ArticlesHeading|];
    assert PromptMiddle == PromptMiddle[..|PromptMiddle| - |ArticlesHeading|] + ArticlesHeading;
    assert PromptHead(argument) == front + ArticlesHeading;
  }

  /**
   * Every article's block appears, unchanged, in the prompt, at the
   * instruction's length plus the block's offset in the article list.
   */
  lemma PromptHoldsBlock(articles: seq<Article>, argument: string, i: nat)
    requires i < |articles|
    ensures var p := ArgumentPrompt(articles, argument);
      var k := |PromptHead(argument)| + PartStart(ArticleBlocks(articles), "\n", i);
      var b := ArticleBlock(articles[i]);
      k + |b| <= |p| && p[k..k + |b|] == b
  {
    JoinPartBetween(PromptHead(argument), ArticleBlocks(articles), "\n", PromptEnd, i);
  }

  /**
   * A block lists the article's title, summary and link, each verbatim after
   * its label, in that order.
   */
  lemma BlockFields(a: Article)
    ensures var b := ArticleBlock(a);
      var s := |TitleLabel| + |a.title|;
      var l := s + |SummaryLabel| + |a.summary|;
      && |b| == l + |LinkLabel| + |a.link|
      && b[..|TitleLabel|] == TitleLabel
      && b[|TitleLabel|..s] == a.title
      && b[s..s + |SummaryLabel|] == SummaryLabel
      && b[s + |SummaryLabel|..l] == a.summary
      && b[l..l + |LinkLabel|] == LinkLabel
      && b[l + |LinkLabel|..] == a.link
  {
    SixParts(TitleLabel, a.title, SummaryLabel, a.summary, LinkLabel, a.link);
  }

  /**
   * The blocks stand in the order of the articles: each one ends where a
   * newline stands, and the next begins right after it.
   */
  lemma PromptBlocksInOrder(articles: seq<Article>, argument: string, i: nat)
    requires i + 1 < |articles|
    ensures var p := ArgumentPrompt(articles, argument);
      var blocks := ArticleBlocks(articles);
      var k := |PromptHead(argument)| + PartStart(blocks, "\n", i) + |ArticleBlock(articles[i])|;
      && PartStart(blocks, "\n", i + 1) == PartStart(blocks, "\n", i) + |ArticleBlock(articles[i])| + 1
      && k + 1 <= |p| && p[k..k + 1] == "\n"
  {
    JoinGapBetween(PromptHead(argument), ArticleBlocks(articles), "\n", PromptEnd, i);
  }
}
