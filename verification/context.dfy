/** Retrieved grounding text: NewsAPI articles and Wikipedia open-search
    results, each rendered to a block, blocks joined with a separator line. */
module Context {
  import opened Base
  import Strings

  /** A NewsAPI article as the handlers read it; a field the provider left
      out is `None` (and is interpolated as "undefined"). */
  datatype NewsApiArticle = NewsApiArticle(
    title: Option<string>,
    sourceName: Option<string>,
    publishedAt: Option<string>,
    description: Option<string>,
    url: Option<string>)

  /** A Wikipedia open-search answer: its titles (`sj[1]`) and the parallel
      list of extracts (`sj[2]`), each `[]` when absent. */
  datatype WikiResult = WikiResult(titles: seq<string>, extracts: seq<string>)

  const Separator: string := "\n---\n"

  /** The fact-check handler's block for one article. */
  function FactBlock(a: NewsApiArticle): string {
    "Title: " + Show(a.title) + "\nSource: " + Show(a.sourceName) + "\nPublished: "
    + Show(a.publishedAt) + "\nDescription: " + Show(a.description) + "\nURL: " + Show(a.url)
  }

  /** The chat handler's block for one article. */
  function ChatBlock(a: NewsApiArticle): string {
    "Title: " + Show(a.title) + "\nSource: " + Show(a.sourceName) + "\nPublished: "
    + Show(a.publishedAt) + "\nDesc: " + Show(a.description)
  }

  /** `extracts?.[i] || ""`. */
  function ExtractAt(w: WikiResult, i: nat): string {
    if i < |w.extracts| then w.extracts[i] else ""
  }

  function WikiBlock(title: string, extract: string): string {
    "Title: " + title + "\nSummary: " + extract
  }

  /** `items.map(block).join("\n---\n")`. */
  function Render(items: seq<NewsApiArticle>, block: NewsApiArticle -> string): string {
    Strings.Join(seq(|items|, i requires 0 <= i < |items| => block(items[i])), Separator)
  }

  function FactContext(items: seq<NewsApiArticle>): string {
    Render(items, FactBlock)
  }

  function ChatContext(items: seq<NewsApiArticle>): string {
    Render(items, ChatBlock)
  }

  /** `titles.map((t, i) => ...).join("\n---\n")`. */
  function WikiContext(w: WikiResult): string {
    Strings.Join(seq(|w.titles|, i requires 0 <= i < |w.titles| => WikiBlock(w.titles[i], ExtractAt(w, i))), Separator)
  }

  /** Every block starts with "Title: ", so a context is empty exactly when
      nothing was retrieved. */
  lemma FactContextEmptyIff(items: seq<NewsApiArticle>)
    ensures FactContext(items) == "" <==> items == []
  {
    var blocks := seq(|items|, i requires 0 <= i < |items| => FactBlock(items[i]));
    Strings.JoinEmptyIff(blocks, Separator);
  }

  lemma ChatContextEmptyIff(items: seq<NewsApiArticle>)
    ensures ChatContext(items) == "" <==> items == []
  {
    var blocks := seq(|items|, i requires 0 <= i < |items| => ChatBlock(items[i]));
    Strings.JoinEmptyIff(blocks, Separator);
  }

  lemma WikiContextEmptyIff(w: WikiResult)
    ensures WikiContext(w) == "" <==> w.titles == []
  {
    var blocks := seq(|w.titles|, i requires 0 <= i < |w.titles| => WikiBlock(w.titles[i], ExtractAt(w, i)));
    Strings.JoinEmptyIff(blocks, Separator);
  }

  /** One block per article, in provider order: one more article appends a
      separator and that article's block. */
  lemma RenderSnoc(items: seq<NewsApiArticle>, a: NewsApiArticle, block: NewsApiArticle -> string)
    requires items != []
    ensures Render(items + [a], block) == Render(items, block) + Separator + block(a)
  {
    var bs := seq(|items|, i requires 0 <= i < |items| => block(items[i]));
    var bs' := seq(|items + [a]|, i requires 0 <= i < |items + [a]| => block((items + [a])[i]));
    assert bs' == bs + [block(a)];
    Strings.JoinSnoc(bs, block(a), Separator);
  }

  /** A single article's context is its block alone. */
  lemma RenderSingle(a: NewsApiArticle, block: NewsApiArticle -> string)
    ensures Render([a], block) == block(a)
  {
  }

  /** One block per title, in order; an absent or empty extract gives an
      empty summary line. */
  lemma WikiSnoc(w: WikiResult, t: string)
    requires w.titles != []
    ensures WikiContext(WikiResult(w.titles + [t], w.extracts))
         == WikiContext(w) + Separator + WikiBlock(t, ExtractAt(w, |w.titles|))
  {
    var w' := WikiResult(w.titles + [t], w.extracts);
    var bs := seq(|w.titles|, i requires 0 <= i < |w.titles| => WikiBlock(w.titles[i], ExtractAt(w, i)));
    var bs' := seq(|w'.titles|, i requires 0 <= i < |w'.titles| => WikiBlock(w'.titles[i], ExtractAt(w', i)));
    assert bs' == bs + [WikiBlock(t, ExtractAt(w, |w.titles|))];
    Strings.JoinSnoc(bs, WikiBlock(t, ExtractAt(w, |w.titles|)), Separator);
  }
}
