/** Page metadata: the title shown by the browser and the Open Graph record of an
    article, a video or a book page. */
module Metadata {
  import opened Common
  import opened Mdx

  /** The Open Graph part; `publishedTime` and `tags` are given only for articles. */
  datatype OpenGraph = OpenGraph(
    title: string,
    description: string,
    kind: string,
    publishedTime: Option<int>,
    tags: Option<seq<string>>)

  datatype PageMetadata = PageMetadata(title: string, description: string, openGraph: OpenGraph)

  /** `s.charAt(0).toUpperCase() + s.slice(1)`. */
  function Capitalize(s: string): (r: string)
    ensures |r| == |s|
    ensures s != [] ==> r[0] == UpperChar(s[0]) && r[1..] == s[1..]
  {
    if s == [] then [] else [UpperChar(s[0])] + s[1..]
  }

  /** `generateArticleMetadata`. */
  function ArticleMetadata(a: Article): (m: PageMetadata)
    ensures m.title == a.title + " | " + Capitalize(a.section)
    ensures m.description == a.description
    ensures m.openGraph == OpenGraph(a.title, a.description, "article", Some(a.date), a.tags)
  {
    PageMetadata(a.title + " | " + Capitalize(a.section), a.description,
      OpenGraph(a.title, a.description, "article", Some(a.date), a.tags))
  }

  /** `generateVideoMetadata`. */
  function VideoMetadata(v: Video): (m: PageMetadata)
    ensures m.title == v.title + " | Videos" && m.description == v.description
    ensures m.openGraph == OpenGraph(v.title, v.description, "video.other", None, None)
  {
    PageMetadata(v.title + " | Videos", v.description,
      OpenGraph(v.title, v.description, "video.other", None, None))
  }

  /** `generateBookMetadata`. */
  function BookMetadata(b: Book): (m: PageMetadata)
    ensures m.title == b.title + " | Books" && m.description == b.description
    ensures m.openGraph == OpenGraph(b.title, b.description, "book", None, None)
  {
    PageMetadata(b.title + " | Books", b.description,
      OpenGraph(b.title, b.description, "book", None, None))
  }

  /** The page title begins with the record's own title and ends with the section
      the page belongs to, capitalised or spelled out. */
  lemma {:induction false} TitlesLead(a: Article, v: Video, b: Book)
    ensures StartsWith(ArticleMetadata(a).title, a.title + " | ")
    ensures EndsWith(ArticleMetadata(a).title, Capitalize(a.section))
    ensures StartsWith(VideoMetadata(v).title, v.title) && EndsWith(VideoMetadata(v).title, " | Videos")
    ensures StartsWith(BookMetadata(b).title, b.title) && EndsWith(BookMetadata(b).title, " | Books")
  {
    assert (a.title + " | ")[..|a.title + " | "|] == a.title + " | ";
    StartsWithAppend(a.title + " | ", a.title + " | ", Capitalize(a.section));
    EndsWithAppend(a.title + " | ", Capitalize(a.section));
    assert v.title[..|v.title|] == v.title;
    StartsWithAppend(v.title, v.title, " | Videos");
    EndsWithAppend(v.title, " | Videos");
    assert b.title[..|b.title|] == b.title;
    StartsWithAppend(b.title, b.title, " | Books");
    EndsWithAppend(b.title, " | Books");
  }

  /** The two sections' article pages are titled "… | Esoteriment" and
      "… | Lifeward". */
  lemma SectionTitles(a: Article)
    ensures a.section == "esoteriment" ==> ArticleMetadata(a).title == a.title + " | Esoteriment"
    ensures a.section == "lifeward" ==> ArticleMetadata(a).title == a.title + " | Lifeward"
  {
    CapitalizedEsoteriment();
    CapitalizedLifeward();
  }

  lemma CapitalizedEsoteriment()
    ensures Capitalize("esoteriment") == "Esoteriment"
  {
    CapitalizeHead('e', "soteriment");
    assert "esoteriment" == ['e'] + "soteriment" && "Esoteriment" == ['E'] + "soteriment";
  }

  lemma CapitalizedLifeward()
    ensures Capitalize("lifeward") == "Lifeward"
  {
    CapitalizeHead('l', "ifeward");
    assert "lifeward" == ['l'] + "ifeward" && "Lifeward" == ['L'] + "ifeward";
  }

  lemma CapitalizeHead(c: char, rest: string)
    ensures Capitalize([c] + rest) == [UpperChar(c)] + rest
  {
    assert ([c] + rest)[1..] == rest;
  }

  /** Capitalising twice is capitalising once. */
  lemma CapitalizeIdempotent(s: string)
    ensures Capitalize(Capitalize(s)) == Capitalize(s)
  {
  }
}
