/**
 * The `/api/news` route: the shaping of upstream news articles into result
 * items with defaults for missing fields, the page information of a
 * successful reply, the demo items of the fallback reply, and the route
 * itself as written and as evidently intended.
 */
module News {

  import opened Wrappers
  import opened JsText
  import opened JsNumber
  import opened JsArray

  /** An upstream article; each field may be missing (`source` stands for `source.name`). */
  datatype Article = Article(
    title: Option<string>, description: Option<string>, content: Option<string>,
    url: Option<string>, urlToImage: Option<string>, sourceName: Option<string>,
    publishedAt: Option<string>, author: Option<string>)

  /** A publication time: a text passed through, or an instant in milliseconds written by `toISOString`. */
  datatype Stamp = Text(text: string) | Instant(ms: int)

  /** One news item of a reply. */
  datatype NewsItem = NewsItem(
    id: string, title: string, description: string, content: string, url: Option<string>,
    image: string, source: string, publishedAt: Stamp, author: string)

  const NoTitle := "Haber başlığı yok"
  const NoDescription := "Açıklama yok"
  const NoContent := "İçerik yok"
  const NoSource := "Kaynak belirtilmemiş"
  const NoAuthor := "Yazar belirtilmemiş"

  /** The placeholder picture of the item at `index`. */
  function PlaceholderImage(index: nat): string {
    "https://picsum.photos/400/200?random=" + NatToString(index)
  }

  /**
   * The item made of the article at `index`: `now` is the clock reading taken
   * for its id, `stampNow` the one taken for a missing publication time.
   */
  function ToItem(a: Article, index: nat, now: nat, stampNow: nat): NewsItem {
    NewsItem(
      ItemId(index, now),
      Or(a.title, NoTitle),
      Or(a.description, NoDescription),
      Or(a.content, NoContent),
      a.url,
      Or(a.urlToImage, PlaceholderImage(index)),
      Or(a.sourceName, NoSource),
      if a.publishedAt.Some? && a.publishedAt.value != "" then Text(a.publishedAt.value) else Instant(stampNow),
      Or(a.author, NoAuthor))
  }

  /**
   * The items of a successful reply: one per article, in order; `clock(i)`
   * is the clock reading taken for the id of the article at index `i`, and
   * `stampClock(i)` the one taken for its publication time.
   */
  function MapArticles(articles: seq<Article>, clock: nat -> nat, stampClock: nat -> nat): (news: seq<NewsItem>)
    ensures |news| == |articles|
    ensures forall i :: 0 <= i < |news| ==> news[i] == ToItem(articles[i], i, clock(i), stampClock(i))
  {
    seq(|articles|, i requires 0 <= i < |articles| => ToItem(articles[i], i, clock(i), stampClock(i)))
  }

  /** A field that is present and not empty is kept; a missing or empty one is replaced by its default. */
  lemma ItemDefaults(a: Article, index: nat, now: nat, stampNow: nat)
    ensures var item := ToItem(a, index, now, stampNow);
      && (a.title.Some? && a.title.value != "" ==> item.title == a.title.value)
      && (a.title.None? || a.title.value == "" ==> item.title == NoTitle)
      && (a.description.Some? && a.description.value != "" ==> item.description == a.description.value)
      && (a.description.None? || a.description.value == "" ==> item.description == NoDescription)
      && (a.content.Some? && a.content.value != "" ==> item.content == a.content.value)
      && (a.content.None? || a.content.value == "" ==> item.content == NoContent)
      && (a.publishedAt.Some? && a.publishedAt.value != "" ==> item.publishedAt == Text(a.publishedAt.value))
      && (a.publishedAt.None? || a.publishedAt.value == "" ==> item.publishedAt == Instant(stampNow))
      && (a.urlToImage.None? || a.urlToImage.value == "" ==> item.image == PlaceholderImage(index))
      && (a.sourceName.None? || a.sourceName.value == "" ==> item.source == NoSource)
      && (a.author.None? || a.author.value == "" ==> item.author == NoAuthor)
      && item.url == a.url
  {
  }

  /** The id of the item at `index`, mapped at clock reading `now`. */
  function ItemId(index: nat, now: nat): string {
    "news-" + NatToString(index) + "-" + NatToString(now)
  }

  /** Ids of items at different indices differ, whatever the clock readings. */
  lemma ItemIdsDistinct(i: nat, j: nat, a: nat, b: nat)
    requires i != j
    ensures ItemId(i, a) != ItemId(j, b)
  {
    var p := "news-";
    var ri := "-" + NatToString(a);
    var rj := "-" + NatToString(b);
    assert ItemId(i, a) == p + (NatToString(i) + ri);
    assert ItemId(j, b) == p + (NatToString(j) + rj);
    assert ItemId(i, a)[|p|..] == NatToString(i) + ri;
    assert ItemId(j, b)[|p|..] == NatToString(j) + rj;
    ParseIntOfNatToString(i, ri);
    ParseIntOfNatToString(j, rj);
  }

  /** The id of a mapped item starts with its index, so the ids of a reply are pairwise distinct. */
  lemma MappedIdsDistinct(articles: seq<Article>, clock: nat -> nat, stampClock: nat -> nat)
    ensures var news := MapArticles(articles, clock, stampClock);
      forall i, j :: 0 <= i < j < |news| ==> news[i].id != news[j].id
  {
    var news := MapArticles(articles, clock, stampClock);
    forall i, j | 0 <= i < j < |news| ensures news[i].id != news[j].id {
      ItemIdsDistinct(i, j, clock(i), clock(j));
    }
  }

  /** The page information of a successful reply. */
  datatype PageInfo = PageInfo(page: JsInt, totalPages: int)

  /** `page: parseInt(page)` (the parameter defaults to 1) and `totalPages: Math.ceil(totalResults / 10)`. */
  function Paging(page: Option<string>, totalResults: int): (p: PageInfo)
    ensures page.None? ==> p.page == Int(1)
    ensures page.Some? ==> p.page == ParseInt(page.value)
    ensures (p.totalPages - 1) * 10 < totalResults <= p.totalPages * 10
    ensures totalResults >= 0 ==> p.totalPages >= 0
  {
    if page.None? then
      ParseIntOfNatToString(1, []);
      assert NatToString(1) + [] == "1";
      PageInfo(ParseInt("1"), CeilDiv(totalResults, 10))
    else
      PageInfo(ParseInt(page.value), CeilDiv(totalResults, 10))
  }

  /** How many demo items the fallback reply holds. */
  const DemoCount := 8

  /** One hour in milliseconds: the spacing of the demo publication times. */
  const Hour := 3600000

  const DemoIdPrefix := "demo-news-"
  const DemoTitleMiddle := " ile ilgili önemli gelişme "
  const DemoDescriptionEnd := "\" hakkında son dakika gelişmeleri. Braver Explorer NewsAPI entegrasyonu ile gerçek haberleri sunuyor."
  const DemoContentStart := "Bu haber içeriği NewsAPI üzerinden sağlanmaktadır. \""
  const DemoContentEnd := "\" konusundaki en güncel bilgileri Braver Explorer ile takip edin."
  const DemoLinkBase := "https://braverexplorer.com/news/"
  const DemoSource := "Braver Explorer News"
  const DemoAuthor := "Braver Explorer Haber Ekibi"

  /** The demo item at index `i` for `query`; `encode` stands for `encodeURIComponent`, `now` for the clock reading. */
  function DemoItem(query: string, i: nat, now: int, encode: string -> string): NewsItem {
    NewsItem(
      DemoIdPrefix + NatToString(i + 1),
      query + DemoTitleMiddle + NatToString(i + 1),
      "\"" + query + DemoDescriptionEnd,
      DemoContentStart + query + DemoContentEnd,
      Some(DemoLinkBase + encode(query) + "-" + NatToString(i + 1)),
      PlaceholderImage(i + 100),
      DemoSource,
      Instant(now - i * Hour),
      DemoAuthor)
  }

  lemma IncludesMiddle(a: string, b: string, c: string)
    ensures Includes(a + b + c, b)
  {
    assert b <= (a + b + c)[|a|..];
  }

  /** Numbers written after the same prefix give the same text only when they are equal. */
  lemma PrefixedNumbersDistinct(p: string, a: nat, b: nat)
    requires a != b
    ensures p + NatToString(a) != p + NatToString(b)
  {
    NatToStringInjective(a, b);
    assert (p + NatToString(a))[|p|..] == NatToString(a);
    assert (p + NatToString(b))[|p|..] == NatToString(b);
  }

  /** A demo item's title mentions the query and the item's number; its link the encoded query and the number. */
  lemma DemoItemMentions(query: string, i: nat, now: int, encode: string -> string)
    ensures var item := DemoItem(query, i, now, encode);
      && query <= item.title
      && Includes(item.title, NatToString(i + 1))
      && item.url.Some?
      && Includes(item.url.value, encode(query))
      && Includes(item.url.value, "-" + NatToString(i + 1))
  {
    var item := DemoItem(query, i, now, encode);
    var n := NatToString(i + 1);
    var lead := query + DemoTitleMiddle;
    assert item.title == lead + n + [];
    IncludesMiddle(lead, n, []);
    var base := DemoLinkBase;
    assert item.url.value == base + encode(query) + ("-" + n);
    IncludesMiddle(base, encode(query), "-" + n);
    assert item.url.value == base + encode(query) + "-" + n + [];
    IncludesMiddle(base + encode(query), "-" + n, []);
  }

  /**
   * The demo items for `query`: eight of them, with ids `demo-news-1` to
   * `demo-news-8`, each title and link mentioning the query and the item's
   * number, and publication times an hour apart going back from the clock
   * reading taken for each item.
   */
  function GenerateDemoNews(query: string, clock: nat -> int, encode: string -> string): (news: seq<NewsItem>)
    ensures |news| == DemoCount
    ensures forall i :: 0 <= i < DemoCount ==> news[i].id == DemoIdPrefix + NatToString(i + 1)
    ensures forall i, j :: 0 <= i < j < DemoCount ==> news[i].id != news[j].id
    ensures forall i :: 0 <= i < DemoCount ==> query <= news[i].title && Includes(news[i].title, NatToString(i + 1))
    ensures forall i :: 0 <= i < DemoCount ==>
      news[i].url.Some? && Includes(news[i].url.value, encode(query)) && Includes(news[i].url.value, "-" + NatToString(i + 1))
    ensures forall i :: 0 <= i < DemoCount ==> news[i].publishedAt == Instant(clock(i) - i * Hour)
  {
    var news := seq(DemoCount, i requires 0 <= i < DemoCount => DemoItem(query, i, clock(i), encode));
    forall i | 0 <= i < DemoCount ensures news[i].id == DemoIdPrefix + NatToString(i + 1) {
      assert news[i] == DemoItem(query, i, clock(i), encode);
    }
    forall i, j | 0 <= i < j < DemoCount ensures news[i].id != news[j].id {
      PrefixedNumbersDistinct(DemoIdPrefix, i + 1, j + 1);
    }
    forall i | 0 <= i < DemoCount
      ensures query <= news[i].title && Includes(news[i].title, NatToString(i + 1))
      ensures news[i].url.Some? && Includes(news[i].url.value, encode(query))
      ensures Includes(news[i].url.value, "-" + NatToString(i + 1))
    {
      DemoItemMentions(query, i, clock(i), encode);
    }
    news
  }

  /**
   * With a steady clock, the demo publication times go back exactly one
   * hour per item, so they strictly decrease.
   */
  lemma DemoTimesDecrease(query: string, clock: nat -> int, encode: string -> string, i: nat)
    requires i + 1 < DemoCount
    requires clock(i) == clock(i + 1)
    ensures var news := GenerateDemoNews(query, clock, encode);
      news[i].publishedAt.ms - news[i + 1].publishedAt.ms == Hour
  {
  }

  /** What the route answers, or the error it fails with. */
  datatype Outcome = Replied(body: Reply) | Threw(error: string)

  /** The body of a reply: a successful one carries page information, the fallback an error text. */
  datatype Reply = Reply(
    query: Option<string>, news: seq<NewsItem>, total: int, source: string,
    paging: Option<PageInfo>, error: Option<string>)

  /** The result of the upstream request: failed, or the articles and total number of results. */
  datatype Upstream = Failed | Fetched(articles: seq<Article>, totalResults: int)

  /** The error a reference to the block-scoped `q` outside its block raises. */
  const QNotDefined := "ReferenceError: q is not defined"

  /** The successful reply for query `q`. */
  function Success(q: Option<string>, page: Option<string>, articles: seq<Article>, totalResults: int, clock: nat -> nat, stampClock: nat -> nat): Reply {
    Reply(q, MapArticles(articles, clock, stampClock), totalResults, "NewsAPI", Some(Paging(page, totalResults)), None)
  }

  /**
   * The route as written: the query is declared inside the `try` block, so
   * the fallback in the `catch` block refers to a name that is not in scope
   * and fails instead of replying.
   */
  function HandleAsWritten(q: Option<string>, page: Option<string>, upstream: Upstream, clock: nat -> nat, stampClock: nat -> nat): (o: Outcome)
    ensures upstream.Fetched? ==> o == Replied(Success(q, page, upstream.articles, upstream.totalResults, clock, stampClock))
    ensures upstream.Failed? ==> o == Threw(QNotDefined)
  {
    match upstream
    case Fetched(articles, totalResults) => Replied(Success(q, page, articles, totalResults, clock, stampClock))
    case Failed => Threw(QNotDefined)
  }

  /** The text the query takes in the demo items when it is missing (`${undefined}`). */
  function QueryText(q: Option<string>): string {
    if q.Some? then q.value else "undefined"
  }

  /**
   * The route as evidently intended, with the query in scope for the
   * fallback: a failed upstream request is answered with the eight demo
   * items.
   */
  function Handle(q: Option<string>, page: Option<string>, upstream: Upstream, clock: nat -> nat, stampClock: nat -> nat,
                  demoClock: nat -> int, encode: string -> string): (o: Outcome)
    ensures upstream.Fetched? ==> o == HandleAsWritten(q, page, upstream, clock, stampClock)
    ensures upstream.Failed? ==> o.Replied? && |o.body.news| == DemoCount && o.body.total == DemoCount
    ensures upstream.Failed? ==> o.body.source == "Braver Explorer (Demo)" && o.body.error == Some("NewsAPI geçici olarak kullanılamıyor")
    ensures upstream.Failed? ==> o.body.news == GenerateDemoNews(QueryText(q), demoClock, encode)
    ensures upstream.Failed? ==> o.body.query == q && o.body.paging.None?
    ensures upstream.Failed? ==> forall i :: 0 <= i < DemoCount ==> QueryText(q) <= o.body.news[i].title
  {
    match upstream
    case Fetched(articles, totalResults) => Replied(Success(q, page, articles, totalResults, clock, stampClock))
    case Failed =>
      var demo := GenerateDemoNews(QueryText(q), demoClock, encode);
      Replied(Reply(q, demo, |demo|, "Braver Explorer (Demo)", None, Some("NewsAPI geçici olarak kullanılamıyor")))
  }

  /** The route as written never delivers its fallback: every failed upstream request ends in the reference error. */
  lemma FallbackUnreachableAsWritten(q: Option<string>, page: Option<string>, clock: nat -> nat, stampClock: nat -> nat)
    ensures HandleAsWritten(q, page, Failed, clock, stampClock) == Threw(QNotDefined)
    ensures !HandleAsWritten(q, page, Failed, clock, stampClock).Replied?
  {
  }

  /** The two differ exactly on failed upstream requests, where only the intended route replies. */
  lemma IntendedDiffersOnlyOnFailure(q: Option<string>, page: Option<string>, upstream: Upstream, clock: nat -> nat, stampClock: nat -> nat,
                                     demoClock: nat -> int, encode: string -> string)
    ensures Handle(q, page, upstream, clock, stampClock, demoClock, encode) == HandleAsWritten(q, page, upstream, clock, stampClock)
      <==> upstream.Fetched?
  {
  }
}
