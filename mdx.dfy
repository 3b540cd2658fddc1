/** The content library: the `.mdx` files under `content/<dir>/` listed as slugs,
    read into article, video and book records with defaults for missing fields, and
    gathered into lists ordered newest first. A file's frontmatter arrives already
    parsed; dates are the timestamps `new Date(date).getTime()`. */
module Mdx {
  import opened Common
  import Seqs

  /** The record shapes of the site (`Article`, `Video`, `Book`). */
  datatype Article = Article(
    slug: string,
    title: string,
    description: string,
    date: int,
    category: Option<string>,
    tags: Option<seq<string>>,
    section: string,
    content: string)

  datatype Video = Video(
    slug: string,
    title: string,
    description: string,
    platform: string,
    embedUrl: string,
    section: string,
    relatedArticle: Option<string>,
    date: int,
    content: string)

  datatype Book = Book(
    slug: string,
    title: string,
    description: string,
    cover: Option<string>,
    themes: seq<string>,
    sampleChapter: Option<string>,
    downloadLink: Option<string>,
    purchaseLink: Option<string>,
    date: int)

  /** The frontmatter fields the readers look at; `None` is an absent field, and a
      date is `None` also when it is empty. */
  datatype Meta = Meta(
    title: Option<string>,
    description: Option<string>,
    date: Option<int>,
    category: Option<string>,
    tags: Option<seq<string>>,
    platform: Option<string>,
    embedUrl: Option<string>,
    section: Option<string>,
    relatedArticle: Option<string>,
    cover: Option<string>,
    themes: Option<seq<string>>,
    sampleChapter: Option<string>,
    downloadLink: Option<string>,
    purchaseLink: Option<string>)

  /** A parsed `.mdx` file: its frontmatter and its body. */
  datatype Source = Source(meta: Meta, content: string)

  /** A directory under `content/`: what `readdirSync` lists, and the files in it
      by name. */
  datatype Folder = Folder(entries: seq<string>, files: map<string, Source>)

  /** The `content/` directory: its sub-directories by name; a directory that does
      not exist is not a key. */
  type Tree = map<string, Folder>

  /** `date || new Date().toISOString()`, with `now` the current timestamp. */
  function DateOr(date: Option<int>, now: int): int {
    if date.Some? then date.value else now
  }

  // ---------------------------------------------------------------------------
  // Slugs

  predicate IsMdxName(file: string) {
    EndsWith(file, ".mdx")
  }

  /** `file.replace(/\.mdx$/, "")` on a name that ends in ".mdx". */
  function StripMdx(file: string): (slug: string)
    requires IsMdxName(file)
    ensures slug + ".mdx" == file
  {
    file[..|file| - 4]
  }

  /** The entries ending in ".mdx", without that ending, in listing order. */
  function SlugsOf(entries: seq<string>): (r: seq<string>)
    ensures |r| <= |entries|
    ensures forall s :: s in r ==> s + ".mdx" in entries
  {
    if entries == [] then []
    else (if IsMdxName(entries[0]) then [StripMdx(entries[0])] else []) + SlugsOf(entries[1..])
  }

  /** `getArticleSlugs`, `getVideoSlugs` and `getBookSlugs`: the slugs of one
      directory, none when the directory does not exist. */
  function Slugs(tree: Tree, dir: string): (r: seq<string>)
    ensures dir !in tree ==> r == []
  {
    if dir in tree then SlugsOf(tree[dir].entries) else []
  }

  /** The file names a list of slugs stands for. */
  function FileNames(slugs: seq<string>): (r: seq<string>)
    ensures |r| == |slugs|
    ensures forall i :: 0 <= i < |slugs| ==> r[i] == slugs[i] + ".mdx"
  {
    if slugs == [] then [] else [slugs[0] + ".mdx"] + FileNames(slugs[1..])
  }

  /** Adding ".mdx" back to the slugs gives exactly the ".mdx" entries of the
      listing, in their order. */
  lemma {:induction false} SlugsRoundTrip(entries: seq<string>)
    ensures FileNames(SlugsOf(entries)) == Seqs.Filter(entries, IsMdxName)
  {
    if entries != [] {
      var t := entries[1..];
      SlugsRoundTrip(t);
      if IsMdxName(entries[0]) {
        assert SlugsOf(entries) == [StripMdx(entries[0])] + SlugsOf(t);
        assert FileNames(SlugsOf(entries)) == [entries[0]] + FileNames(SlugsOf(t));
      } else {
        assert SlugsOf(entries) == SlugsOf(t);
      }
    }
  }

  // ---------------------------------------------------------------------------
  // Records

  /** The source of `content/<dir>/<slug>.mdx`, when that file exists. */
  function SourceOf(tree: Tree, dir: string, slug: string): (r: Option<Source>)
    ensures r.Some? <==> dir in tree && slug + ".mdx" in tree[dir].files
  {
    if dir in tree && slug + ".mdx" in tree[dir].files then Some(tree[dir].files[slug + ".mdx"]) else None
  }

  /** `getArticleBySlug`: `null` exactly when the file does not exist; title,
      description and tags default to "", "" and [], the date to `now`, and the
      section and slug are the arguments. */
  function ArticleBySlug(tree: Tree, section: string, slug: string, now: int): (r: Option<Article>)
    ensures r.None? <==> SourceOf(tree, section, slug).None?
    ensures r.Some? ==>
      var m := SourceOf(tree, section, slug).value.meta;
      r.value.slug == slug && r.value.section == section &&
      r.value.title == OrElse(m.title, "") && r.value.description == OrElse(m.description, "") &&
      r.value.tags.Some? && (m.tags.None? ==> r.value.tags == Some([])) && (m.tags.Some? ==> r.value.tags == m.tags) &&
      r.value.category == m.category && r.value.date == DateOr(m.date, now) &&
      r.value.content == SourceOf(tree, section, slug).value.content
  {
    match SourceOf(tree, section, slug)
    case None => None
    case Some(src) =>
      Some(Article(slug, OrElse(src.meta.title, ""), OrElse(src.meta.description, ""),
        DateOr(src.meta.date, now), src.meta.category,
        if src.meta.tags.Some? then src.meta.tags else Some([]), section, src.content))
  }

  /** `getVideoBySlug`: title and description default to "", platform, embed URL
      and section to "youtube", "" and "lifeward"; the related article and the body
      are copied. */
  function VideoBySlug(tree: Tree, slug: string, now: int): (r: Option<Video>)
    ensures r.None? <==> SourceOf(tree, "videos", slug).None?
    ensures r.Some? ==>
      var m := SourceOf(tree, "videos", slug).value.meta;
      r.value.slug == slug &&
      r.value.title == OrElse(m.title, "") && r.value.description == OrElse(m.description, "") &&
      r.value.platform == OrElse(m.platform, "youtube") && r.value.embedUrl == OrElse(m.embedUrl, "") &&
      r.value.section == OrElse(m.section, "lifeward") && r.value.relatedArticle == m.relatedArticle &&
      r.value.date == DateOr(m.date, now) && r.value.content == SourceOf(tree, "videos", slug).value.content
  {
    match SourceOf(tree, "videos", slug)
    case None => None
    case Some(src) =>
      Some(Video(slug, OrElse(src.meta.title, ""), OrElse(src.meta.description, ""),
        OrElse(src.meta.platform, "youtube"), OrElse(src.meta.embedUrl, ""),
        OrElse(src.meta.section, "lifeward"), src.meta.relatedArticle,
        DateOr(src.meta.date, now), src.content))
  }

  /** `getBookBySlug`: title and description default to "", the themes to [];
      cover, sample chapter and the two links are copied. */
  function BookBySlug(tree: Tree, slug: string, now: int): (r: Option<Book>)
    ensures r.None? <==> SourceOf(tree, "books", slug).None?
    ensures r.Some? ==>
      var m := SourceOf(tree, "books", slug).value.meta;
      r.value.slug == slug &&
      r.value.title == OrElse(m.title, "") && r.value.description == OrElse(m.description, "") &&
      r.value.cover == m.cover && (m.themes.None? ==> r.value.themes == []) &&
      (m.themes.Some? ==> r.value.themes == m.themes.value) &&
      r.value.sampleChapter == m.sampleChapter && r.value.downloadLink == m.downloadLink &&
      r.value.purchaseLink == m.purchaseLink && r.value.date == DateOr(m.date, now)
  {
    match SourceOf(tree, "books", slug)
    case None => None
    case Some(src) =>
      Some(Book(slug, OrElse(src.meta.title, ""), OrElse(src.meta.description, ""),
        src.meta.cover, if src.meta.themes.Some? then src.meta.themes.value else [],
        src.meta.sampleChapter, src.meta.downloadLink, src.meta.purchaseLink,
        DateOr(src.meta.date, now)))
  }

  // ---------------------------------------------------------------------------
  // Lists

  /** The key of `sort((a, b) => b.date - a.date)`: a larger date sorts first. */
  function ArticleKey(a: Article): int { -a.date }
  function VideoKey(v: Video): int { -v.date }
  function BookKey(b: Book): int { -b.date }

  /** The articles of one section that can be read, in slug order
      (`slugs.map(getArticleBySlug).filter(a => a !== null)`). */
  function Present(tree: Tree, section: string, slugs: seq<string>, now: int): (r: seq<Article>)
    ensures |r| <= |slugs|
    ensures forall a :: a in r ==> a.section == section && a.slug in slugs
  {
    if slugs == [] then []
    else
      var rest := Present(tree, section, slugs[1..], now);
      match ArticleBySlug(tree, section, slugs[0], now)
      case None => rest
      case Some(a) => [a] + rest
  }

  function SectionArticles(tree: Tree, section: string, now: int): seq<Article> {
    Present(tree, section, Slugs(tree, section), now)
  }

  /** The sections `getAllArticles` reads: the given one, or both. */
  function SectionsFor(section: Option<string>): (r: seq<string>)
    ensures Truthy(section) ==> r == [section.value]
    ensures !Truthy(section) ==> r == ["esoteriment", "lifeward"]
  {
    if Truthy(section) then [section.value] else ["esoteriment", "lifeward"]
  }

  /** The articles of the given sections, section after section, before sorting. */
  function Collected(tree: Tree, sections: seq<string>, now: int): (r: seq<Article>)
    ensures forall a :: a in r ==> a.section in sections
  {
    if sections == [] then []
    else Collected(tree, sections[..|sections| - 1], now) + SectionArticles(tree, sections[|sections| - 1], now)
  }

  /** What `getAllArticles(section)` returns: the gathered articles sorted newest
      first (a stable sort, as the JavaScript one is). */
  function AllArticles(tree: Tree, section: Option<string>, now: int): seq<Article> {
    Seqs.SortBy(Collected(tree, SectionsFor(section), now), ArticleKey)
  }

  /** `getAllArticles(section)`: the loop gathering each section's articles, then
      the sort newest first. */
  method GetAllArticles(tree: Tree, section: Option<string>, now: int) returns (articles: seq<Article>)
    ensures articles == AllArticles(tree, section, now)
  {
    var sections := SectionsFor(section);
    var collected: seq<Article> := [];
    for k := 0 to |sections|
      invariant collected == Collected(tree, sections[..k], now)
    {
      assert sections[..k + 1][..k] == sections[..k];
      collected := collected + SectionArticles(tree, sections[k], now);
    }
    assert sections[..|sections|] == sections;
    articles := Seqs.SortBy(collected, ArticleKey);
  }

  /** A list sorted by one of the keys above is ordered by non-increasing date. */
  lemma NewestFirst(articles: seq<Article>)
    requires Seqs.SortedBy(articles, ArticleKey)
    ensures forall i, j :: 0 <= i < j < |articles| ==> articles[i].date >= articles[j].date
  {
    forall i, j | 0 <= i < j < |articles| ensures articles[i].date >= articles[j].date {
      assert ArticleKey(articles[i]) <= ArticleKey(articles[j]);
    }
  }

  /** The sorted list holds the gathered articles, each as often as gathered. */
  lemma AllArticlesOfSections(tree: Tree, section: Option<string>, now: int)
    ensures forall a :: a in AllArticles(tree, section, now) <==> a in Collected(tree, SectionsFor(section), now)
    ensures multiset(AllArticles(tree, section, now)) == multiset(Collected(tree, SectionsFor(section), now))
    ensures var all := AllArticles(tree, section, now);
      forall i, j :: 0 <= i < j < |all| ==> all[i].date >= all[j].date
  {
    var gathered := Collected(tree, SectionsFor(section), now);
    var all := Seqs.SortBy(gathered, ArticleKey);
    Seqs.SameMembers(all, gathered);
    NewestFirst(all);
  }

  /** With a section, only that section's articles are listed. */
  lemma OneSection(tree: Tree, section: string, now: int)
    requires section != ""
    ensures forall a :: a in AllArticles(tree, Some(section), now) ==> a.section == section
  {
    var gathered := Collected(tree, [section], now);
    assert gathered == Collected(tree, [], now) + SectionArticles(tree, section, now) by {
      assert [section][..0] == [];
    }
    Seqs.SameMembers(Seqs.SortBy(gathered, ArticleKey), gathered);
  }

  /** Without a section, the articles of both sections are gathered, esoteriment's
      first. */
  lemma BothSections(tree: Tree, now: int)
    ensures Collected(tree, SectionsFor(None), now) ==
      SectionArticles(tree, "esoteriment", now) + SectionArticles(tree, "lifeward", now)
  {
    var both := ["esoteriment", "lifeward"];
    assert both[..1] == ["esoteriment"] && both[..1][..0] == [];
    assert Collected(tree, both[..1], now) == SectionArticles(tree, "esoteriment", now);
  }

  /** When every listed ".mdx" entry can be read, no article is dropped. */
  lemma {:induction false} NoneDropped(tree: Tree, section: string, slugs: seq<string>, now: int)
    requires forall s :: s in slugs ==> SourceOf(tree, section, s).Some?
    ensures |Present(tree, section, slugs, now)| == |slugs|
  {
    if slugs != [] {
      NoneDropped(tree, section, slugs[1..], now);
    }
  }

  /** In a consistent directory, where every listed ".mdx" name is a file, each
      listed slug gives an article. */
  lemma ListedFilesRead(tree: Tree, section: string, now: int)
    requires section in tree
    requires forall e :: e in tree[section].entries && IsMdxName(e) ==> e in tree[section].files
    ensures |SectionArticles(tree, section, now)| == |Slugs(tree, section)|
  {
    NoneDropped(tree, section, Slugs(tree, section), now);
  }

  /** `getAllVideos`: the readable videos, newest first. */
  function AllVideosOf(tree: Tree, slugs: seq<string>, now: int): (r: seq<Video>)
    ensures |r| <= |slugs|
    ensures forall v :: v in r ==> v.slug in slugs
  {
    if slugs == [] then []
    else
      var rest := AllVideosOf(tree, slugs[1..], now);
      match VideoBySlug(tree, slugs[0], now)
      case None => rest
      case Some(v) => [v] + rest
  }

  function GetAllVideos(tree: Tree, now: int): (r: seq<Video>)
    ensures multiset(r) == multiset(AllVideosOf(tree, Slugs(tree, "videos"), now))
    ensures forall i, j :: 0 <= i < j < |r| ==> r[i].date >= r[j].date
  {
    var r := Seqs.SortBy(AllVideosOf(tree, Slugs(tree, "videos"), now), VideoKey);
    forall i, j | 0 <= i < j < |r| ensures r[i].date >= r[j].date {
      assert VideoKey(r[i]) <= VideoKey(r[j]);
    }
    r
  }

  /** `getAllBooks`: the readable books, newest first. */
  function AllBooksOf(tree: Tree, slugs: seq<string>, now: int): (r: seq<Book>)
    ensures |r| <= |slugs|
    ensures forall b :: b in r ==> b.slug in slugs
  {
    if slugs == [] then []
    else
      var rest := AllBooksOf(tree, slugs[1..], now);
      match BookBySlug(tree, slugs[0], now)
      case None => rest
      case Some(b) => [b] + rest
  }

  function GetAllBooks(tree: Tree, now: int): (r: seq<Book>)
    ensures multiset(r) == multiset(AllBooksOf(tree, Slugs(tree, "books"), now))
    ensures forall i, j :: 0 <= i < j < |r| ==> r[i].date >= r[j].date
  {
    var r := Seqs.SortBy(AllBooksOf(tree, Slugs(tree, "books"), now), BookKey);
    forall i, j | 0 <= i < j < |r| ensures r[i].date >= r[j].date {
      assert BookKey(r[i]) <= BookKey(r[j]);
    }
    r
  }
}
