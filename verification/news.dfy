/** The news listing handler (`GET /api/news`): one Mediastack request whose
    articles are reshaped into the NewsAPI-like form the home page reads. */
module News {
  import opened Base
  import Decimal

  /** A Mediastack article; a field the provider left out is `None`. */
  datatype MediastackArticle = MediastackArticle(
    source: Option<string>,
    author: Option<string>,
    title: Option<string>,
    description: Option<string>,
    url: Option<string>,
    image: Option<string>,
    publishedAt: Option<string>)

  /** The decoded Mediastack body: `data` (absent or an array) and
      `pagination.total`. */
  datatype MediastackBody = MediastackBody(data: Option<seq<MediastackArticle>>, total: Option<int>)

  /** The upstream response: `ok`, `status` and the body. */
  datatype Upstream = Upstream(ok: bool, status: nat, body: MediastackBody)

  /** An article as the handler returns it; `author` is `null` (`None`)
      when the provider gave none. */
  datatype Article = Article(
    sourceName: string,
    author: Option<string>,
    title: Option<string>,
    description: Option<string>,
    url: Option<string>,
    urlToImage: Option<string>,
    publishedAt: Option<string>,
    content: Option<string>)

  /** Every successful response has status "ok". */
  datatype NewsResponse =
    | Failure(status: nat, error: string)
    | Listing(totalResults: int, articles: seq<Article>)

  const DefaultCategory: string := "general"
  const DefaultPageSize: string := "50"
  const FallbackSource: string := "Mediastack"

  /** `searchParams.get('category') || 'general'`. */
  function CategoryOf(param: Option<string>): (c: string)
    ensures c != ""
    ensures Has(param) ==> c == param.value
  {
    if Has(param) then param.value else DefaultCategory
  }

  /** `parseInt(searchParams.get('pageSize') || '50', 10)`; `None` is `NaN`. */
  function LimitOf(param: Option<string>): Option<int> {
    Decimal.ParseInt(if Has(param) then param.value else DefaultPageSize)
  }

  /** One Mediastack article in the NewsAPI-like shape. */
  function Reshape(a: MediastackArticle): (r: Article)
    ensures r.sourceName != ""
    ensures Has(a.source) ==> r.sourceName == a.source.value
    ensures !Has(a.source) ==> r.sourceName == FallbackSource
    ensures r.author.Some? <==> Has(a.author)
    ensures r.title == a.title && r.description == a.description && r.url == a.url
    ensures r.urlToImage == a.image && r.publishedAt == a.publishedAt && r.content == a.description
  {
    Article(
      if Has(a.source) then a.source.value else FallbackSource,
      if Has(a.author) then a.author else None,
      a.title, a.description, a.url, a.image, a.publishedAt, a.description)
  }

  /** The Mediastack article an output article came from, when that one had
      a source and an author. */
  function Restore(r: Article): MediastackArticle {
    MediastackArticle(Some(r.sourceName), r.author, r.title, r.description, r.url, r.urlToImage, r.publishedAt)
  }

  /** Reshaping loses nothing but the absence of a source or an author. */
  lemma RestoreReshape(a: MediastackArticle)
    requires Has(a.source) && Has(a.author)
    ensures Restore(Reshape(a)) == a
  {
  }

  /** The listing for the upstream's `data`: one reshaped article per
      Mediastack article, in order; `totalResults` is `pagination.total`
      unless that is absent or 0. */
  function Transform(body: MediastackBody): (r: NewsResponse)
    ensures r.Listing?
    ensures body.data.None? || body.data.value == [] ==> r == Listing(0, [])
    ensures body.data.Some? ==> |r.articles| == |body.data.value|
    ensures body.data.Some? ==> forall i :: 0 <= i < |r.articles| ==> r.articles[i] == Reshape(body.data.value[i])
    ensures body.data.Some? && body.data.value != [] ==>
      r.totalResults == (if body.total.Some? && body.total.value != 0 then body.total.value else |body.data.value|)
  {
    match body.data
    case None => Listing(0, [])
    case Some(items) =>
      if items == [] then Listing(0, [])
      else
        var total := if body.total.Some? && body.total.value != 0 then body.total.value else |items|;
        Listing(total, seq(|items|, i requires 0 <= i < |items| => Reshape(items[i])))
  }

  /** `GET /api/news`. `upstream` is the Mediastack fetch's outcome
      (`Threw` when it or decoding its body threw). */
  function List(category: Option<string>, pageSize: Option<string>, key: Option<string>,
                upstream: Fetched<Upstream>): (h: Handled<NewsResponse>)
    ensures !Has(key) ==> h == Handled(Failure(500, "MEDIASTACK_API_KEY not set"), [])
    ensures Has(key) ==> h.calls == [MediastackRequest(CategoryOf(category), LimitOf(pageSize))]
    ensures Has(key) && upstream.Threw? ==> h.response == Failure(500, "Server error while fetching Mediastack news")
    ensures Has(key) && upstream.Got? && !upstream.value.ok ==>
      h.response == Failure(upstream.value.status, "Failed to fetch from Mediastack")
    ensures h.response.Listing? <==> Has(key) && upstream.Got? && upstream.value.ok
    ensures Has(key) && upstream.Got? && upstream.value.ok ==> h.response == Transform(upstream.value.body)
  {
    if !Has(key) then Handled(Failure(500, "MEDIASTACK_API_KEY not set"), [])
    else
      var calls := [MediastackRequest(CategoryOf(category), LimitOf(pageSize))];
      match upstream
      case Threw => Handled(Failure(500, "Server error while fetching Mediastack news"), calls)
      case Got(u) =>
        if !u.ok then Handled(Failure(u.status, "Failed to fetch from Mediastack"), calls)
        else Handled(Transform(u.body), calls)
  }

  /** Without a page size the request asks for 50 articles. */
  lemma DefaultLimit()
    ensures LimitOf(None) == Some(50)
  {
    assert Decimal.NatToString(50) == DefaultPageSize by {
      assert Decimal.NatToString(5) == "5";
    }
    Decimal.ParseIntNatToString(50);
  }

  /** A page size written as a decimal number is the limit requested. */
  lemma PageSizeRead(n: nat)
    ensures LimitOf(Some(Decimal.NatToString(n))) == Some(n)
  {
    Decimal.ParseIntNatToString(n);
  }
}
