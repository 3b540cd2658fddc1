/** The two RSS 2.0 feeds of the site, `/rss` and `/rss.xml`: one item per article,
    with titles, descriptions and categories escaped by `escapeXml`, which writes the
    five predefined entities of section 4.6 of the XML 1.0 specification. The two
    routes differ only in their channel header, their default site URL and the path
    of their self link. */
module RssFeed {
  import opened Common
  import opened Mdx

  // ---------------------------------------------------------------------------
  // escapeXml

  /** `s.replace(/c/g, by)`. */
  function ReplaceAll(s: string, c: char, rep: string): string {
    if s == [] then [] else (if s[0] == c then rep else [s[0]]) + ReplaceAll(s[1..], c, rep)
  }

  lemma {:induction false} ReplaceAllConcat(a: string, b: string, c: char, rep: string)
    ensures ReplaceAll(a + b, c, rep) == ReplaceAll(a, c, rep) + ReplaceAll(b, c, rep)
  {
    if a != [] {
      assert (a + b)[1..] == a[1..] + b;
      ReplaceAllConcat(a[1..], b, c, rep);
    } else {
      assert a + b == b;
    }
  }

  lemma {:induction false} ReplaceAllAbsent(s: string, c: char, rep: string)
    requires c !in s
    ensures ReplaceAll(s, c, rep) == s
  {
    if s != [] {
      assert s == [s[0]] + s[1..];
      ReplaceAllAbsent(s[1..], c, rep);
    }
  }

  lemma ReplaceAllOne(x: char, c: char, rep: string)
    ensures ReplaceAll([x], c, rep) == if x == c then rep else [x]
  {
    assert [x][1..] == [];
  }

  /** `escapeXml`: the five replacements, '&' first. */
  function EscapeXml(s: string): string {
    ReplaceAll(ReplaceAll(ReplaceAll(ReplaceAll(ReplaceAll(s,
      '&', "&amp;"), '<', "&lt;"), '>', "&gt;"), '"', "&quot;"), '\'', "&apos;")
  }

  /** The predefined entity of a character, or the character itself. */
  function Entity(c: char): (e: string)
    ensures e != []
  {
    if c == '&' then "&amp;" else if c == '<' then "&lt;" else if c == '>' then "&gt;"
    else if c == '"' then "&quot;" else if c == '\'' then "&apos;" else [c]
  }

  /** The reference escape: every character replaced by its entity. */
  function EscapeChars(s: string): (r: string)
    ensures |r| >= |s|
  {
    if s == [] then [] else Entity(s[0]) + EscapeChars(s[1..])
  }

  predicate IsSpecial(c: char) {
    c == '&' || c == '<' || c == '>' || c == '"' || c == '\''
  }

  /** The inserted entities hold none of the characters replaced after them, so
      escaping distributes over concatenation. */
  lemma EscapeXmlConcat(a: string, b: string)
    ensures EscapeXml(a + b) == EscapeXml(a) + EscapeXml(b)
  {
    var a1, b1 := ReplaceAll(a, '&', "&amp;"), ReplaceAll(b, '&', "&amp;");
    ReplaceAllConcat(a, b, '&', "&amp;");
    var a2, b2 := ReplaceAll(a1, '<', "&lt;"), ReplaceAll(b1, '<', "&lt;");
    ReplaceAllConcat(a1, b1, '<', "&lt;");
    var a3, b3 := ReplaceAll(a2, '>', "&gt;"), ReplaceAll(b2, '>', "&gt;");
    ReplaceAllConcat(a2, b2, '>', "&gt;");
    var a4, b4 := ReplaceAll(a3, '"', "&quot;"), ReplaceAll(b3, '"', "&quot;");
    ReplaceAllConcat(a3, b3, '"', "&quot;");
    ReplaceAllConcat(a4, b4, '\'', "&apos;");
  }

  /** One character is escaped to its entity. */
  lemma EscapeXmlChar(x: char)
    ensures EscapeXml([x]) == Entity(x)
  {
    ReplaceAllOne(x, '&', "&amp;");
    var s1 := ReplaceAll([x], '&', "&amp;");
    if x == '&' {
      assert '<' !in s1 && '>' !in s1 && '"' !in s1 && '\'' !in s1;
      ReplaceAllAbsent(s1, '<', "&lt;");
      ReplaceAllAbsent(s1, '>', "&gt;");
      ReplaceAllAbsent(s1, '"', "&quot;");
      ReplaceAllAbsent(s1, '\'', "&apos;");
    } else {
      ReplaceAllOne(x, '<', "&lt;");
      var s2 := ReplaceAll([x], '<', "&lt;");
      if x == '<' {
        assert '>' !in s2 && '"' !in s2 && '\'' !in s2;
        ReplaceAllAbsent(s2, '>', "&gt;");
        ReplaceAllAbsent(s2, '"', "&quot;");
        ReplaceAllAbsent(s2, '\'', "&apos;");
      } else {
        EscapeXmlLast(x);
      }
    }
  }

  lemma EscapeXmlLast(x: char)
    requires x != '&' && x != '<'
    ensures ReplaceAll(ReplaceAll(ReplaceAll([x], '>', "&gt;"), '"', "&quot;"), '\'', "&apos;") == Entity(x)
  {
    ReplaceAllOne(x, '>', "&gt;");
    var s3 := ReplaceAll([x], '>', "&gt;");
    if x == '>' {
      assert '"' !in s3 && '\'' !in s3;
      ReplaceAllAbsent(s3, '"', "&quot;");
      ReplaceAllAbsent(s3, '\'', "&apos;");
    } else {
      ReplaceAllOne(x, '"', "&quot;");
      var s4 := ReplaceAll([x], '"', "&quot;");
      if x == '"' {
        assert '\'' !in s4;
        ReplaceAllAbsent(s4, '\'', "&apos;");
      } else {
        ReplaceAllOne(x, '\'', "&apos;");
      }
    }
  }

  /** The chain of replacements is the per-character escape. */
  lemma {:induction false} EscapeXmlIsPerCharacter(s: string)
    ensures EscapeXml(s) == EscapeChars(s)
  {
    if s == [] {
    } else {
      var t := s[1..];
      assert s == [s[0]] + t;
      EscapeXmlConcat([s[0]], t);
      EscapeXmlChar(s[0]);
      EscapeXmlIsPerCharacter(t);
    }
  }

  /** The output holds none of '<', '>', '"' and "'". */
  lemma {:induction false} EscapedHasNoMarkup(s: string)
    ensures forall i :: 0 <= i < |EscapeChars(s)| ==>
      EscapeChars(s)[i] != '<' && EscapeChars(s)[i] != '>' && EscapeChars(s)[i] != '"' && EscapeChars(s)[i] != '\''
  {
    if s != [] {
      EscapedHasNoMarkup(s[1..]);
      var e, r := Entity(s[0]), EscapeChars(s[1..]);
      assert EscapeChars(s) == e + r;
      forall i | 0 <= i < |e + r|
        ensures (e + r)[i] != '<' && (e + r)[i] != '>' && (e + r)[i] != '"' && (e + r)[i] != '\''
      {
        if i >= |e| {
          assert (e + r)[i] == r[i - |e|];
        }
      }
    }
  }

  lemma NoMarkup(s: string)
    ensures var r := EscapeXml(s);
      forall i :: 0 <= i < |r| ==> r[i] != '<' && r[i] != '>' && r[i] != '"' && r[i] != '\''
  {
    EscapeXmlIsPerCharacter(s);
    EscapedHasNoMarkup(s);
  }

  /** Strings without special characters are left as they are. */
  lemma {:induction false} PlainUnchanged(s: string)
    requires forall i :: 0 <= i < |s| ==> !IsSpecial(s[i])
    ensures EscapeXml(s) == s
  {
    EscapeXmlIsPerCharacter(s);
    PlainCharsUnchanged(s);
  }

  lemma {:induction false} PlainCharsUnchanged(s: string)
    requires forall i :: 0 <= i < |s| ==> !IsSpecial(s[i])
    ensures EscapeChars(s) == s
  {
    if s != [] {
      PlainCharsUnchanged(s[1..]);
      assert s == [s[0]] + s[1..];
    }
  }

  /** Escaping never shortens its input. */
  lemma NeverShorter(s: string)
    ensures |EscapeXml(s)| >= |s|
  {
    EscapeXmlIsPerCharacter(s);
  }

  /** The five entities. */
  predicate EntityAt(s: string, i: int) {
    InfixAt(s, "&amp;", i) || InfixAt(s, "&lt;", i) || InfixAt(s, "&gt;", i) ||
    InfixAt(s, "&quot;", i) || InfixAt(s, "&apos;", i)
  }

  /** Every '&' of the output begins one of the five entities. */
  lemma {:induction false} AmpersandsBeginEntities(s: string)
    ensures forall i :: 0 <= i < |EscapeChars(s)| && EscapeChars(s)[i] == '&' ==> EntityAt(EscapeChars(s), i)
  {
    if s != [] {
      AmpersandsBeginEntities(s[1..]);
      var e, r := Entity(s[0]), EscapeChars(s[1..]);
      assert EscapeChars(s) == e + r;
      forall i | 0 <= i < |e + r| && (e + r)[i] == '&' ensures EntityAt(e + r, i) {
        if i < |e| {
          assert i == 0;
          assert (e + r)[..|e|] == e;
          assert InfixAt(e + r, e, 0);
        } else {
          assert (e + r)[i] == r[i - |e|];
          assert EntityAt(r, i - |e|);
          ShiftEntity(e, r, i - |e|);
        }
      }
    }
  }

  lemma ShiftEntity(e: string, r: string, j: int)
    requires EntityAt(r, j)
    ensures EntityAt(e + r, |e| + j)
  {
    forall w | InfixAt(r, w, j) ensures InfixAt(e + r, w, |e| + j) {
      assert (e + r)[|e| + j..|e| + j + |w|] == r[j..j + |w|];
    }
  }

  lemma Ampersands(s: string)
    ensures var r := EscapeXml(s);
      forall i :: 0 <= i < |r| && r[i] == '&' ==> EntityAt(r, i)
  {
    EscapeXmlIsPerCharacter(s);
    AmpersandsBeginEntities(s);
  }

  /** Decoding the five entities, left to right. */
  function Decode(s: string): string
    decreases |s|
  {
    if s == [] then []
    else if StartsWith(s, "&amp;") then "&" + Decode(s[5..])
    else if StartsWith(s, "&lt;") then "<" + Decode(s[4..])
    else if StartsWith(s, "&gt;") then ">" + Decode(s[4..])
    else if StartsWith(s, "&quot;") then "\"" + Decode(s[6..])
    else if StartsWith(s, "&apos;") then "'" + Decode(s[6..])
    else [s[0]] + Decode(s[1..])
  }

  lemma DecodeEntity(c: char, rest: string)
    ensures Decode(Entity(c) + rest) == [c] + Decode(rest)
  {
    var s := Entity(c) + rest;
    assert s[..|Entity(c)|] == Entity(c);
    assert s[|Entity(c)|..] == rest;
    if c != '&' && c != '<' && c != '>' && c != '"' && c != '\'' {
      assert s[0] == c;
      assert !StartsWith(s, "&amp;") && !StartsWith(s, "&lt;") && !StartsWith(s, "&gt;");
      assert !StartsWith(s, "&quot;") && !StartsWith(s, "&apos;");
    } else if c == '<' || c == '>' {
      assert !StartsWith(s, "&amp;") by { assert s[1] != 'a'; }
      if c == '>' {
        assert !StartsWith(s, "&lt;") by { assert s[1] != 'l'; }
      }
    } else if c == '"' {
      assert !StartsWith(s, "&amp;") by { assert s[1] != 'a'; }
      assert !StartsWith(s, "&lt;") by { assert s[1] != 'l'; }
      assert !StartsWith(s, "&gt;") by { assert s[1] != 'g'; }
    } else if c == '\'' {
      assert !StartsWith(s, "&amp;") by { assert s[2] != 'm'; }
      assert !StartsWith(s, "&lt;") by { assert s[1] != 'l'; }
      assert !StartsWith(s, "&gt;") by { assert s[1] != 'g'; }
      assert !StartsWith(s, "&quot;") by { assert s[1] != 'q'; }
    }
  }

  /** Decoding the escaped text gives the text back. */
  lemma {:induction false} DecodeEscaped(s: string)
    ensures Decode(EscapeXml(s)) == s
  {
    EscapeXmlIsPerCharacter(s);
    DecodeEscapedChars(s);
  }

  lemma {:induction false} DecodeEscapedChars(s: string)
    ensures Decode(EscapeChars(s)) == s
  {
    if s != [] {
      DecodeEscapedChars(s[1..]);
      DecodeEntity(s[0], EscapeChars(s[1..]));
      assert s == [s[0]] + s[1..];
    }
  }

  // ---------------------------------------------------------------------------
  // The feed

  /** The two feed routes. */
  datatype Route = Rss | RssXml

  function DefaultSiteUrl(route: Route): string {
    match route
    case Rss => "https://albertblibo.com"
    case RssXml => "https://yourname.com"
  }

  /** `process.env.NEXT_PUBLIC_SITE_URL || default`. */
  function SiteUrl(route: Route, env: Option<string>): (url: string)
    ensures !Truthy(env) ==> url == DefaultSiteUrl(route)
    ensures Truthy(env) ==> url == env.value
  {
    OrElse(env, DefaultSiteUrl(route))
  }

  /** The path of the feed itself, used in its `atom:link`. */
  function SelfPath(route: Route): string {
    match route
    case Rss => "/rss"
    case RssXml => "/rss.xml"
  }

  /** The address of an article, the item's link and guid. */
  function ArticleUrl(siteUrl: string, a: Article): string {
    siteUrl + "/" + a.section + "/" + a.slug
  }

  /** The second category element, present only for a truthy category. */
  function CategoryElement(category: Option<string>): (e: string)
    ensures e == "" <==> !Truthy(category)
  {
    if Truthy(category) then "<category>" + EscapeXml(category.value) + "</category>" else ""
  }

  /** The lines of one item; `pubDate` is `new Date(article.date).toUTCString()`. */
  function ItemLines(siteUrl: string, a: Article, pubDate: string): (lines: seq<string>)
    ensures |lines| == 9
    ensures lines[3] == "      <link>" + ArticleUrl(siteUrl, a) + "</link>"
    ensures lines[4] == "      <guid>" + ArticleUrl(siteUrl, a) + "</guid>"
    ensures lines[6] == "      <category>" + EscapeXml(a.section) + "</category>"
    ensures lines[7] == "      " <==> !Truthy(a.category)
  {
    assert |"      "| == 6;
    ["    <item>",
     "      <title>" + EscapeXml(a.title) + "</title>",
     "      <description>" + EscapeXml(a.description) + "</description>",
     "      <link>" + ArticleUrl(siteUrl, a) + "</link>",
     "      <guid>" + ArticleUrl(siteUrl, a) + "</guid>",
     "      <pubDate>" + pubDate + "</pubDate>",
     "      <category>" + EscapeXml(a.section) + "</category>",
     "      " + CategoryElement(a.category),
     "    </item>"]
  }

  /** One item per article, in order; `utc` formats a timestamp as `toUTCString`. */
  function Items(siteUrl: string, articles: seq<Article>, utc: int -> string): (items: seq<string>)
    ensures |items| == |articles|
    ensures forall i :: 0 <= i < |articles| ==>
      items[i] == Join(ItemLines(siteUrl, articles[i], utc(articles[i].date)), "\n")
  {
    if articles == [] then []
    else [Join(ItemLines(siteUrl, articles[0], utc(articles[0].date)), "\n")] + Items(siteUrl, articles[1..], utc)
  }

  const XmlDeclaration := "<?xml version=\"1.0\" encoding=\"UTF-8\" ?>"
  const FeedEnd := "\n  </channel>\n</rss>"
  const RssOpening := "<rss version=\"2.0\" xmlns:atom=\"http://www.w3.org/2005/Atom\" xmlns:content=\"http://purl.org/rss/1.0/modules/content/\">"
  const RssXmlOpening := "<rss version=\"2.0\" xmlns:atom=\"http://www.w3.org/2005/Atom\">"
  const RssTitle := "    <title>Albert Blibo - Writer, Teacher, Guide</title>"
  const RssXmlTitle := "    <title>Your Name - Writer, Teacher, Guide</title>"
  const ChannelDescription := "    <description>I write to awaken clarity, discipline, and life. Explore Esoteriment and Lifeward.</description>"
  const ManagingEditor := "    <managingEditor>albert@example.com (Albert Blibo)</managingEditor>"
  const WebMaster := "    <webMaster>albert@example.com (Albert Blibo)</webMaster>"
  const Language := "    <language>en-us</language>"

  /** The channel's `atom:link` to the feed at `href`. */
  function AtomLine(href: string): string {
    "    <atom:link href=\"" + href + "\" rel=\"self\" type=\"application/rss+xml\" />"
  }

  /** The declaration, the `rss` and `channel` openings, the title and the
      description. */
  function Preamble(route: Route): (lines: seq<string>)
    ensures |lines| == 5 && lines[0] == XmlDeclaration
  {
    match route
    case Rss => [
      XmlDeclaration,
      RssOpening,
      "  <channel>",
      RssTitle,
      ChannelDescription]
    case RssXml => [
      XmlDeclaration,
      RssXmlOpening,
      "  <channel>",
      RssXmlTitle,
      ChannelDescription]
  }

  /** The language and build date; `/rss` adds its editor, webmaster and copyright
      lines. `buildDate` is the current time as `toUTCString`, `year` the current
      year. */
  function Trailer(route: Route, buildDate: string, year: int): (lines: seq<string>)
    ensures |lines| == (if route == Rss then 5 else 2)
    ensures lines[1] == "    <lastBuildDate>" + buildDate + "</lastBuildDate>"
  {
    var common := [Language, "    <lastBuildDate>" + buildDate + "</lastBuildDate>"];
    match route
    case Rss => common + [
      ManagingEditor,
      WebMaster,
      "    <copyright>Copyright " + IntToString(year) + " Albert Blibo</copyright>"]
    case RssXml => common
  }

  /** The channel lines before the items. The feed's own address is the site URL
      followed by the route's path. */
  function ChannelHead(route: Route, siteUrl: string, buildDate: string, year: int): (lines: seq<string>)
    ensures |lines| == (if route == Rss then 12 else 9)
    ensures lines[0] == XmlDeclaration
    ensures lines[5] == "    <link>" + siteUrl + "</link>"
    ensures lines[6] == AtomLine(siteUrl + SelfPath(route))
    ensures lines[8] == "    <lastBuildDate>" + buildDate + "</lastBuildDate>"
  {
    Preamble(route) + ["    <link>" + siteUrl + "</link>", AtomLine(siteUrl + SelfPath(route))] +
      Trailer(route, buildDate, year)
  }

  /** GET: the feed document of `route` over `getAllArticles()`: the channel head,
      the items and the closing tags. */
  function Feed(route: Route, env: Option<string>, articles: seq<Article>, buildDate: string, year: int,
                utc: int -> string): (doc: string)
    ensures StartsWith(doc, XmlDeclaration + "\n")
    ensures EndsWith(doc, FeedEnd)
    ensures forall a :: a in articles ==>
      Includes(doc, "      <link>" + ArticleUrl(SiteUrl(route, env), a) + "</link>")
  {
    FeedShape(ChannelHead(route, SiteUrl(route, env), buildDate, year),
      Items(SiteUrl(route, env), articles, utc));
    ItemsLinked(SiteUrl(route, env), articles, utc,
      Join(ChannelHead(route, SiteUrl(route, env), buildDate, year), "\n") + "\n    ", FeedEnd);
    Join(ChannelHead(route, SiteUrl(route, env), buildDate, year), "\n") + "\n    " +
      Join(Items(SiteUrl(route, env), articles, utc), "\n") + FeedEnd
  }

  lemma FeedShape(head: seq<string>, items: seq<string>)
    requires |head| >= 2
    ensures StartsWith(Join(head, "\n") + "\n    " + Join(items, "\n") + FeedEnd, head[0] + "\n")
    ensures EndsWith(Join(head, "\n") + "\n    " + Join(items, "\n") + FeedEnd, FeedEnd)
  {
    var prefix := Join(head, "\n") + "\n    " + Join(items, "\n");
    JoinFirst(head, "\n");
    StartsWithAppend(Join(head, "\n"), head[0] + "\n", "\n    " + Join(items, "\n"));
    assert Join(head, "\n") + "\n    " + Join(items, "\n") == Join(head, "\n") + ("\n    " + Join(items, "\n"));
    StartsWithAppend(prefix, head[0] + "\n", FeedEnd);
    EndsWithAppend(prefix, FeedEnd);
  }

  /** Every article's link line occurs in the joined items, whatever surrounds them. */
  lemma ItemsLinked(siteUrl: string, articles: seq<Article>, utc: int -> string, before: string, after: string)
    ensures forall a :: a in articles ==>
      Includes(before + Join(Items(siteUrl, articles, utc), "\n") + after,
        "      <link>" + ArticleUrl(siteUrl, a) + "</link>")
  {
    var items := Items(siteUrl, articles, utc);
    forall a | a in articles
      ensures Includes(before + Join(items, "\n") + after, "      <link>" + ArticleUrl(siteUrl, a) + "</link>")
    {
      var i :| 0 <= i < |articles| && articles[i] == a;
      var lines := ItemLines(siteUrl, a, utc(a.date));
      JoinIncludes(lines, "\n", 3);
      JoinIncludes(items, "\n", i);
      IncludesWithin("", Join(lines, "\n"), "", lines[3]);
      IncludesTransitive(Join(items, "\n"), items[i], lines[3]);
      IncludesWithin(before, Join(items, "\n"), after, lines[3]);
    }
  }

  /** Without `NEXT_PUBLIC_SITE_URL`, `/rss` links to https://albertblibo.com and
      `/rss.xml` to https://yourname.com, and each points its self link at itself. */
  lemma DefaultSelfLinks(buildDate: string, year: int)
    ensures ChannelHead(Rss, SiteUrl(Rss, None), buildDate, year)[6] ==
      AtomLine("https://albertblibo.com/rss")
    ensures ChannelHead(RssXml, SiteUrl(RssXml, None), buildDate, year)[6] ==
      AtomLine("https://yourname.com/rss.xml")
  {
    assert SiteUrl(Rss, None) + SelfPath(Rss) == "https://albertblibo.com/rss";
    assert SiteUrl(RssXml, None) + SelfPath(RssXml) == "https://yourname.com/rss.xml";
  }

  /** An item's text shows its title only escaped: no '<' of the title survives. */
  lemma TitleEscaped(siteUrl: string, a: Article, pubDate: string)
    ensures var line := ItemLines(siteUrl, a, pubDate)[1];
      line == "      <title>" + EscapeXml(a.title) + "</title>" &&
      forall i :: 13 <= i < |line| - 8 ==> line[i] != '<'
  {
    var e := EscapeXml(a.title);
    NoMarkup(a.title);
    var line := "      <title>" + e + "</title>";
    assert |"      <title>"| == 13 && |"</title>"| == 8;
    forall i | 13 <= i < |line| - 8 ensures line[i] != '<' {
      assert line[i] == e[i - 13];
    }
  }
}
