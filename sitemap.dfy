/** The sitemap: six static pages, then one entry per article, video and book, each
    under the site URL. Priorities are written in tenths (0.8 is 8). */
module Sitemap {
  import opened Common
  import opened Mdx
  import RssFeed

  datatype Frequency = Daily | Weekly | Monthly

  /** One sitemap entry; `lastModified` is a timestamp. */
  datatype Entry = Entry(url: string, lastModified: int, changeFrequency: Frequency, priority: int)

  /** `process.env.NEXT_PUBLIC_SITE_URL || "https://albertblibo.com"`. */
  function BaseUrl(env: Option<string>): (base: string)
    ensures Truthy(env) ==> base == env.value
    ensures !Truthy(env) ==> base == "https://albertblibo.com"
  {
    OrElse(env, "https://albertblibo.com")
  }

  /** The static pages, all modified `now`: the home page, the two sections, the
      books, the videos and the about page. */
  function StaticPages(base: string, now: int): (pages: seq<Entry>)
    ensures |pages| == 6
    ensures forall i :: 0 <= i < 6 ==> pages[i].lastModified == now && StartsWith(pages[i].url, base)
    ensures pages[0].url == base && pages[1].url == base + "/esoteriment" && pages[2].url == base + "/lifeward" &&
      pages[3].url == base + "/books" && pages[4].url == base + "/videos" && pages[5].url == base + "/about"
    ensures pages[0].changeFrequency == pages[1].changeFrequency == pages[2].changeFrequency == Daily &&
      pages[3].changeFrequency == pages[4].changeFrequency == Weekly && pages[5].changeFrequency == Monthly
    ensures pages[0].priority == 10 && pages[5].priority == 7
    ensures forall i, j :: 0 <= i < j < 6 ==> pages[i].priority >= pages[j].priority
  {
    assert base[..|base|] == base;
    StartsWithAppend(base, base, "/esoteriment");
    StartsWithAppend(base, base, "/lifeward");
    StartsWithAppend(base, base, "/books");
    StartsWithAppend(base, base, "/videos");
    StartsWithAppend(base, base, "/about");
    [Entry(base, now, Daily, 10),
     Entry(base + "/esoteriment", now, Daily, 9),
     Entry(base + "/lifeward", now, Daily, 9),
     Entry(base + "/books", now, Weekly, 8),
     Entry(base + "/videos", now, Weekly, 8),
     Entry(base + "/about", now, Monthly, 7)]
  }

  /** The address of a video's page. */
  function VideoUrl(base: string, v: Video): string { base + "/videos/" + v.slug }

  /** The address of a book's page. */
  function BookUrl(base: string, b: Book): string { base + "/books/" + b.slug }

  /** One monthly entry per article, at its section and slug, modified at its date. */
  function ArticlePages(base: string, articles: seq<Article>): (pages: seq<Entry>)
    ensures |pages| == |articles|
    ensures forall i :: 0 <= i < |articles| ==>
      pages[i] == Entry(RssFeed.ArticleUrl(base, articles[i]), articles[i].date, Monthly, 8)
  {
    if articles == [] then []
    else
      [Entry(RssFeed.ArticleUrl(base, articles[0]), articles[0].date, Monthly, 8)] +
      ArticlePages(base, articles[1..])
  }

  /** One monthly entry per video, under /videos and modified at its date. */
  function VideoPages(base: string, videos: seq<Video>): (pages: seq<Entry>)
    ensures |pages| == |videos|
    ensures forall i :: 0 <= i < |videos| ==>
      pages[i] == Entry(VideoUrl(base, videos[i]), videos[i].date, Monthly, 7)
  {
    if videos == [] then []
    else [Entry(VideoUrl(base, videos[0]), videos[0].date, Monthly, 7)] + VideoPages(base, videos[1..])
  }

  /** One monthly entry per book, under /books; a book's entry is modified `now`,
      not at its date. */
  function BookPages(base: string, books: seq<Book>, now: int): (pages: seq<Entry>)
    ensures |pages| == |books|
    ensures forall i :: 0 <= i < |books| ==>
      pages[i] == Entry(BookUrl(base, books[i]), now, Monthly, 7)
  {
    if books == [] then []
    else [Entry(BookUrl(base, books[0]), now, Monthly, 7)] + BookPages(base, books[1..], now)
  }

  /** The sitemap over `getAllArticles()`, `getAllVideos()` and `getAllBooks()`:
      static pages first, then articles, videos and books, each group in the order
      given. */
  function Sitemap(env: Option<string>, articles: seq<Article>, videos: seq<Video>, books: seq<Book>,
                   now: int): (r: seq<Entry>)
    ensures |r| == 6 + |articles| + |videos| + |books|
    ensures r[..6] == StaticPages(BaseUrl(env), now)
    ensures r[6..6 + |articles|] == ArticlePages(BaseUrl(env), articles)
    ensures r[6 + |articles|..6 + |articles| + |videos|] == VideoPages(BaseUrl(env), videos)
    ensures r[6 + |articles| + |videos|..] == BookPages(BaseUrl(env), books, now)
  {
    var s, a, v, b := StaticPages(BaseUrl(env), now), ArticlePages(BaseUrl(env), articles),
      VideoPages(BaseUrl(env), videos), BookPages(BaseUrl(env), books, now);
    assert (s + a + v + b)[..6] == s;
    assert (s + a + v + b)[6..6 + |a|] == a;
    assert (s + a + v + b)[6 + |a|..6 + |a| + |v|] == v;
    assert (s + a + v + b)[6 + |a| + |v|..] == b;
    s + a + v + b
  }

  /** Every article has an entry at the address its feed item links to, modified
      at the article's date. */
  lemma EveryArticleListed(env: Option<string>, articles: seq<Article>, videos: seq<Video>,
                           books: seq<Book>, now: int, a: Article)
    requires a in articles
    ensures exists e :: (e in Sitemap(env, articles, videos, books, now) &&
      e.url == RssFeed.ArticleUrl(RssFeed.SiteUrl(RssFeed.Rss, env), a) && e.lastModified == a.date)
  {
    var r := Sitemap(env, articles, videos, books, now);
    var i :| 0 <= i < |articles| && articles[i] == a;
    assert r[6..6 + |articles|][i] == r[6 + i];
    assert r[6 + i] in r;
  }

  /** Every address of `pages` starts with `base`. */
  predicate AllUnder(pages: seq<Entry>, base: string) {
    forall i :: 0 <= i < |pages| ==> StartsWith(pages[i].url, base)
  }

  lemma ArticlesUnder(base: string, articles: seq<Article>)
    ensures AllUnder(ArticlePages(base, articles), base)
  {
    assert base[..|base|] == base;
    forall i | 0 <= i < |articles|
      ensures StartsWith(RssFeed.ArticleUrl(base, articles[i]), base)
    {
      var a := articles[i];
      assert RssFeed.ArticleUrl(base, a) == base + ("/" + a.section + "/" + a.slug);
      StartsWithAppend(base, base, "/" + a.section + "/" + a.slug);
    }
  }

  lemma VideosUnder(base: string, videos: seq<Video>)
    ensures AllUnder(VideoPages(base, videos), base)
  {
    assert base[..|base|] == base;
    forall i | 0 <= i < |videos| ensures StartsWith(VideoUrl(base, videos[i]), base) {
      assert VideoUrl(base, videos[i]) == base + ("/videos/" + videos[i].slug);
      StartsWithAppend(base, base, "/videos/" + videos[i].slug);
    }
  }

  lemma BooksUnder(base: string, books: seq<Book>, now: int)
    ensures AllUnder(BookPages(base, books, now), base)
  {
    assert base[..|base|] == base;
    forall i | 0 <= i < |books| ensures StartsWith(BookUrl(base, books[i]), base) {
      assert BookUrl(base, books[i]) == base + ("/books/" + books[i].slug);
      StartsWithAppend(base, base, "/books/" + books[i].slug);
    }
  }

  lemma AllUnderConcat(p: seq<Entry>, q: seq<Entry>, base: string)
    requires AllUnder(p, base) && AllUnder(q, base)
    ensures AllUnder(p + q, base)
  {
    forall i | |p| <= i < |p + q| ensures StartsWith((p + q)[i].url, base) {
      assert (p + q)[i] == q[i - |p|];
    }
  }

  /** Every address in the sitemap starts with the site URL. */
  lemma AllUnderBase(env: Option<string>, articles: seq<Article>, videos: seq<Video>,
                     books: seq<Book>, now: int)
    ensures AllUnder(Sitemap(env, articles, videos, books, now), BaseUrl(env))
  {
    var base := BaseUrl(env);
    var s, a, v, b := StaticPages(base, now), ArticlePages(base, articles),
      VideoPages(base, videos), BookPages(base, books, now);
    ArticlesUnder(base, articles);
    VideosUnder(base, videos);
    BooksUnder(base, books, now);
    AllUnderConcat(s, a, base);
    AllUnderConcat(s + a, v, base);
    AllUnderConcat(s + a + v, b, base);
  }

  /** Over articles ordered newest first, the article entries are too. */
  lemma ArticleEntriesNewestFirst(base: string, articles: seq<Article>)
    requires Seqs.SortedBy(articles, ArticleKey)
    ensures var pages := ArticlePages(base, articles);
      forall i, j :: 0 <= i < j < |pages| ==> pages[i].lastModified >= pages[j].lastModified
  {
    NewestFirst(articles);
  }
}
