/** What `listArticles` and `viewArticle` show for a collection of articles.
    Console text is abstracted: a listing is the sequence of its numbered
    lines, and a detail view is the article whose fields are printed. */
module Presentation {
  import opened Wrappers
  import opened Text
  import opened News

  /** One line of a listing: its 1-based number, the title and the source. */
  datatype ListLine = ListLine(number: int, title: string, sourceName: string)

  /** Everything a command can show. */
  datatype Output =
    | Listing(lines: seq<ListLine>)
    | Details(article: Article)
    | InvalidId
    | Usage

  /** The line shows this article's title and source. */
  predicate Describes(line: ListLine, a: Article) {
    line.title == a.title && line.sourceName == a.sourceName
  }

  /** `xs` is `ys` with some elements left out and the rest kept in order. */
  predicate IsSubsequence<T(==)>(xs: seq<T>, ys: seq<T>)
    decreases |ys|
  {
    xs == []
    || (ys != []
        && ((xs[0] == ys[0] && IsSubsequence(xs[1..], ys[1..])) || IsSubsequence(xs, ys[1..])))
  }

  /** The article's title contains the filter, ignoring case. */
  predicate TitleMatches(a: Article, filter: string) {
    ContainsIgnoringCase(a.title, filter)
  }

  /** The articles whose title matches `filter`, in their original order. */
  function FilterByTitle(articles: seq<Article>, filter: string): (r: seq<Article>)
    ensures |r| <= |articles|
    ensures forall i :: 0 <= i < |r| ==> TitleMatches(r[i], filter) && r[i] in articles
    decreases |articles|
  {
    if articles == [] then []
    else
      var rest := FilterByTitle(articles[1..], filter);
      if TitleMatches(articles[0], filter) then [articles[0]] + rest else rest
  }

  /** The filter text in effect: an absent filter defaults to "". */
  function FilterText(filter: Option<string>): (text: string)
    ensures filter.None? ==> text == ""
    ensures filter.Some? ==> text == filter.value
  {
    filter.GetOr("")
  }

  /** The articles a listing shows: all of them for an absent or empty filter
      (`listArticles` tests the filter for truthiness), the matching ones
      otherwise. Skipping the filter for "" is only a shortcut: the result is
      always the title-filtered list for the filter text. */
  function Shown(articles: seq<Article>, filter: Option<string>): (r: seq<Article>)
    ensures r == FilterByTitle(articles, FilterText(filter))
    ensures FilterText(filter) == "" ==> r == articles
  {
    if FilterText(filter) == "" then
      EmptyFilterKeepsAll(articles);
      articles
    else
      FilterByTitle(articles, FilterText(filter))
  }

  /** The listing: one line per shown article, numbered from 1 in the order
      shown. */
  function ListArticles(articles: seq<Article>, filter: Option<string>): (lines: seq<ListLine>)
    ensures |lines| == |Shown(articles, filter)|
    ensures |lines| <= |articles|
    ensures forall k :: 0 <= k < |lines| ==> lines[k].number == k + 1
    ensures forall k :: 0 <= k < |lines| ==> Describes(lines[k], Shown(articles, filter)[k])
    ensures forall k :: 0 <= k < |lines| ==>
      Shown(articles, filter)[k] in articles && TitleMatches(Shown(articles, filter)[k], FilterText(filter))
    ensures FilterText(filter) == "" ==>
      |lines| == |articles| && forall k :: 0 <= k < |lines| ==> Describes(lines[k], articles[k])
  {
    var shown := Shown(articles, filter);
    var lines := seq(|shown|, k requires 0 <= k < |shown| => ListLine(k + 1, shown[k].title, shown[k].sourceName));
    assert forall k :: 0 <= k < |lines| ==> Describes(lines[k], shown[k]) && shown[k] in articles;
    lines
  }

  /** The detail view for a 1-based id; `None` stands for an id that did not
      parse (`NaN`). Only ids from 1 to the collection's length show an
      article, and they show the one at that position. */
  function ViewArticle(articles: seq<Article>, id: Option<int>): (out: Output)
    ensures out.Details? || out.InvalidId?
    ensures out.Details? <==> id.Some? && 1 <= id.value <= |articles|
    ensures out.Details? ==> out.article == articles[id.value - 1]
  {
    match id
    case None => InvalidId
    case Some(n) => if 0 <= n - 1 < |articles| then Details(articles[n - 1]) else InvalidId
  }

  /** Filtering distributes over concatenation. */
  lemma {:induction false} FilterAppend(xs: seq<Article>, ys: seq<Article>, filter: string)
    ensures FilterByTitle(xs + ys, filter) == FilterByTitle(xs, filter) + FilterByTitle(ys, filter)
    decreases |xs|
  {
    if xs == [] {
      assert xs + ys == ys;
    } else {
      assert (xs + ys)[1..] == xs[1..] + ys;
      FilterAppend(xs[1..], ys, filter);
    }
  }

  /** An article is kept exactly when it is in the input and its title
      matches. */
  lemma {:induction false} FilterMembership(articles: seq<Article>, filter: string, a: Article)
    ensures a in FilterByTitle(articles, filter) <==> a in articles && TitleMatches(a, filter)
    decreases |articles|
  {
    if articles != [] {
      FilterMembership(articles[1..], filter, a);
      assert articles == [articles[0]] + articles[1..];
    }
  }

  /** Every position of the input whose title matches is kept, and every
      position that is dropped has a title that does not match. */
  lemma FilterKeepsExactlyMatching(articles: seq<Article>, filter: string)
    ensures forall i :: 0 <= i < |articles| ==>
      (articles[i] in FilterByTitle(articles, filter) <==> TitleMatches(articles[i], filter))
  {
    forall i | 0 <= i < |articles|
      ensures articles[i] in FilterByTitle(articles, filter) <==> TitleMatches(articles[i], filter)
    {
      FilterMembership(articles, filter, articles[i]);
    }
  }

  /** The kept articles are an order-preserving subsequence of the input. */
  lemma {:induction false} FilterIsSubsequence(articles: seq<Article>, filter: string)
    ensures IsSubsequence(FilterByTitle(articles, filter), articles)
    decreases |articles|
  {
    if articles != [] {
      FilterIsSubsequence(articles[1..], filter);
      var rest := FilterByTitle(articles[1..], filter);
      if TitleMatches(articles[0], filter) {
        assert ([articles[0]] + rest)[1..] == rest;
      }
    }
  }

  /** When every title matches, filtering keeps the whole input. */
  lemma {:induction false} AllMatchingKeepsAll(articles: seq<Article>, filter: string)
    requires forall i :: 0 <= i < |articles| ==> TitleMatches(articles[i], filter)
    ensures FilterByTitle(articles, filter) == articles
    decreases |articles|
  {
    if articles != [] {
      assert TitleMatches(articles[0], filter);
      forall i | 0 <= i < |articles[1..]|
        ensures TitleMatches(articles[1..][i], filter)
      {
        assert articles[1..][i] == articles[i + 1];
      }
      AllMatchingKeepsAll(articles[1..], filter);
      assert articles == [articles[0]] + articles[1..];
    }
  }

  /** Filtering keeps the whole input exactly when every title matches. */
  lemma FilterKeepsAllIff(articles: seq<Article>, filter: string)
    ensures FilterByTitle(articles, filter) == articles
      <==> forall i :: 0 <= i < |articles| ==> TitleMatches(articles[i], filter)
  {
    if forall i :: 0 <= i < |articles| ==> TitleMatches(articles[i], filter) {
      AllMatchingKeepsAll(articles, filter);
    }
  }

  /** Filtering twice with the same filter is filtering once. */
  lemma FilterIdempotent(articles: seq<Article>, filter: string)
    ensures FilterByTitle(FilterByTitle(articles, filter), filter) == FilterByTitle(articles, filter)
  {
    FilterKeepsAllIff(FilterByTitle(articles, filter), filter);
  }

  /** The empty filter keeps every article, so treating an empty filter as
      "no filter" agrees with filtering by it. */
  lemma {:induction false} EmptyFilterKeepsAll(articles: seq<Article>)
    ensures FilterByTitle(articles, "") == articles
  {
    forall i | 0 <= i < |articles|
      ensures TitleMatches(articles[i], "")
    {
      ContainsEmpty(Lower(articles[i].title));
    }
    FilterKeepsAllIff(articles, "");
  }

  /** Two filters that differ only in the case of their letters select the
      same articles. */
  lemma {:induction false} FilterIgnoresCase(articles: seq<Article>, f1: string, f2: string)
    requires Lower(f1) == Lower(f2)
    ensures FilterByTitle(articles, f1) == FilterByTitle(articles, f2)
    decreases |articles|
  {
    if articles != [] {
      FilterIgnoresCase(articles[1..], f1, f2);
    }
  }

  /** Every article whose title matches the filter text gets a line of the
      listing. */
  lemma ListingListsEveryMatch(articles: seq<Article>, filter: Option<string>, a: Article)
    requires a in articles && TitleMatches(a, FilterText(filter))
    ensures exists k :: 0 <= k < |ListArticles(articles, filter)| && Describes(ListArticles(articles, filter)[k], a)
  {
    var shown := Shown(articles, filter);
    FilterMembership(articles, FilterText(filter), a);
    var k :| 0 <= k < |shown| && shown[k] == a;
    assert Describes(ListArticles(articles, filter)[k], a);
  }

  /** The numbers of a listing are positions in the list that was shown, not
      in the original collection: viewing number k of the shown articles
      gives the article on line k. */
  lemma ListedNumbersIndexShown(articles: seq<Article>, filter: Option<string>, k: int)
    requires 0 <= k < |ListArticles(articles, filter)|
    ensures var line := ListArticles(articles, filter)[k];
      var out := ViewArticle(Shown(articles, filter), Some(line.number));
      out.Details? && Describes(line, out.article)
  {
  }

  /** Without a filter, every number printed by the listing is a valid id for
      the detail view of the same collection, and shows the same article. */
  lemma UnfilteredListingAgreesWithView(articles: seq<Article>, k: int)
    requires 0 <= k < |articles|
    ensures var line := ListArticles(articles, None)[k];
      var out := ViewArticle(articles, Some(line.number));
      out.Details? && Describes(line, out.article)
  {
  }
}
