/** The content generator script: the template frontmatter of a new file, the path
    it is written to and its initial body. Unlike the content manager's writer, the
    template has a line for every optional field, left empty when the field is
    absent. */
module ContentGenerator {
  import opened Common
  import opened ContentText
  import ContentManager
  import ContentValidation

  /** `key: "value"` when the value is truthy, an empty line otherwise. */
  function OptionalLine(key: string, value: Option<string>): (line: string)
    ensures line == "" <==> !Truthy(value)
  {
    if Truthy(value) then key + ": \"" + value.value + "\"" else ""
  }

  /** The funnel block: its book and, when truthy, its call to action, indented
      under `funnel:` on lines of their own. */
  function FunnelLines(funnel: Option<Funnel>): (text: string)
    ensures text == "" <==> funnel.None?
  {
    if funnel.None? then ""
    else
      "funnel:\n  book: \"" + funnel.value.book + "\"" +
      (if Truthy(funnel.value.ctaType) then "\n  ctaType: \"" + funnel.value.ctaType.value + "\"" else "")
  }

  /** The lines of the template between its two fences, for each kind. */
  function TemplateLines(kind: Kind, data: Draft, today: string): seq<string> {
    match kind
    case Article => [
      "title: \"" + data.title + "\"",
      "description: \"" + OrElse(data.description, "") + "\"",
      "date: \"" + OrElse(data.date, today) + "\"",
      "section: \"" + OrElse(data.section, "esoteriment") + "\"",
      OptionalLine("category", data.category),
      if NonEmpty(data.tags) then "tags: " + QuotedList(data.tags.value) else "",
      OptionalLine("image", data.image),
      FunnelLines(data.funnel)]
    case Video => [
      "title: \"" + data.title + "\"",
      "description: \"" + OrElse(data.description, "") + "\"",
      "date: \"" + OrElse(data.date, today) + "\"",
      "platform: \"" + OrElse(data.platform, "youtube") + "\"",
      "embedUrl: \"" + OrElse(data.embedUrl, "") + "\"",
      "section: \"" + OrElse(data.section, "lifeward") + "\"",
      OptionalLine("relatedArticle", data.relatedArticle),
      OptionalLine("thumbnail", data.thumbnail)]
    case Book => [
      "title: \"" + data.title + "\"",
      OptionalLine("subtitle", data.subtitle),
      "description: \"" + OrElse(data.description, "") + "\"",
      "date: \"" + OrElse(data.date, today) + "\"",
      OptionalLine("cover", data.cover),
      if NonEmpty(data.themes) then "themes: " + QuotedList(data.themes.value) else "",
      if data.price.Some? && data.price.value != 0 then "price: " + IntToString(data.price.value) else "",
      OptionalLine("currency", data.currency),
      OptionalLine("status", data.status),
      OptionalLine("downloadLink", data.downloadLink),
      OptionalLine("purchaseLink", data.purchaseLink),
      OptionalLine("purchaseUrl", data.purchaseUrl),
      if data.excerpt.Some? then "excerpt: " + data.excerpt.value else ""]
    case Unknown => [
      "title: \"" + data.title + "\"",
      "date: \"" + OrElse(data.date, today) + "\""]
  }

  /** `generateFrontmatter`: the template, one line per slot between "---" lines,
      ended by a newline. `today` is the current date as `YYYY-MM-DD`. */
  function TemplateFrontmatter(kind: Kind, data: Draft, today: string): (r: string)
    ensures StartsWith(r, "---\n") && EndsWith(r, "\n---\n")
  {
    FencedJoin(["---"] + TemplateLines(kind, data, today) + ["---"]);
    Join(["---"] + TemplateLines(kind, data, today) + ["---"], "\n") + "\n"
  }

  /** An article's template has eight slots; its four optional fields leave their
      slot empty exactly when absent, and the section defaults to "esoteriment". */
  lemma ArticleTemplate(data: Draft, today: string)
    ensures var s := TemplateLines(Article, data, today);
      |s| == 8 &&
      (s[4] == "" <==> !Truthy(data.category)) && (s[5] == "" <==> !NonEmpty(data.tags)) &&
      (s[6] == "" <==> !Truthy(data.image)) && (s[7] == "" <==> data.funnel.None?) &&
      (!Truthy(data.section) ==> s[3] == "section: \"esoteriment\"")
  {
  }

  /** A video's template has eight slots; platform, embed URL and section default
      to "youtube", "" and "lifeward"; the two optional fields leave their slot
      empty exactly when absent. */
  lemma VideoTemplate(data: Draft, today: string)
    ensures var s := TemplateLines(Video, data, today);
      |s| == 8 &&
      (!Truthy(data.platform) ==> s[3] == "platform: \"youtube\"") &&
      (!Truthy(data.embedUrl) ==> s[4] == "embedUrl: \"\"") &&
      (!Truthy(data.section) ==> s[5] == "section: \"lifeward\"") &&
      (s[6] == "" <==> !Truthy(data.relatedArticle)) && (s[7] == "" <==> !Truthy(data.thumbnail))
  {
  }

  /** A book's template has thirteen slots. The price slot is empty when there is
      no price and also when the price is 0; the excerpt slot only when there is
      no excerpt. */
  lemma BookTemplate(data: Draft, today: string)
    ensures var s := TemplateLines(Book, data, today);
      |s| == 13 &&
      (s[1] == "" <==> !Truthy(data.subtitle)) && (s[4] == "" <==> !Truthy(data.cover)) &&
      (s[5] == "" <==> !NonEmpty(data.themes)) &&
      (s[6] == "" <==> data.price.None? || data.price.value == 0) &&
      (s[7] == "" <==> !Truthy(data.currency)) && (s[8] == "" <==> !Truthy(data.status)) &&
      (s[9] == "" <==> !Truthy(data.downloadLink)) && (s[10] == "" <==> !Truthy(data.purchaseLink)) &&
      (s[11] == "" <==> !Truthy(data.purchaseUrl)) && (s[12] == "" <==> data.excerpt.None?)
  {
  }

  /** Any other kind gets only its title and date. */
  lemma UnknownTemplate(data: Draft, today: string)
    ensures TemplateFrontmatter(Unknown, data, today) ==
      "---\ntitle: \"" + data.title + "\"\ndate: \"" + OrElse(data.date, today) + "\"\n---\n"
  {
    var t := "title: \"" + data.title + "\"";
    var d := "date: \"" + OrElse(data.date, today) + "\"";
    assert ["---"] + TemplateLines(Unknown, data, today) + ["---"] == ["---", t, d, "---"];
    FencedPair(t, d);
    assert "---\n" + t + "\n" + d + "\n---\n" ==
      "---\ntitle: \"" + data.title + "\"\ndate: \"" + OrElse(data.date, today) + "\"\n---\n";
  }

  /** Two lines between fences, joined. */
  lemma FencedPair(t: string, d: string)
    ensures Join(["---", t, d, "---"], "\n") + "\n" == "---\n" + t + "\n" + d + "\n---\n"
  {
    var texts := ["---", t, d, "---"];
    assert texts[1..] == [t, d, "---"] && texts[1..][1..] == [d, "---"];
    assert texts[1..][1..][1..] == ["---"];
    assert Join(texts[1..][1..], "\n") == d + "\n" + "---";
    assert Join(texts[1..], "\n") == t + "\n" + (d + "\n" + "---");
  }

  /** A price of 0 is left out by the template but written by the content
      manager's writer, which only asks whether a price was given. */
  lemma PriceZeroDiffers(data: Draft, today: string)
    requires data.price == Some(0)
    ensures TemplateLines(Book, data, today)[6] == ""
    ensures forall lines :: ContentManager.FrontmatterLayout(Book, data, today, lines) ==>
      ContentManager.Field(ContentManager.Price, "0") in lines
  {
    assert IntToString(0) == "0";
  }

  /** `path.join` of a directory and a name, an empty directory dropping out. */
  function Under(dir: string, name: string): string {
    if dir == "" then name else dir + "/" + name
  }

  /** The message `path.join` throws when the section question was not answered. */
  const NoSection := "The \"path\" argument must be of type string. Received undefined"

  /** The file a new entry is written to: content/<section>/<slug>.mdx for an
      article, content/videos/<slug>.mdx for a video and content/books/<slug>.mdx
      for anything else. */
  function TargetPath(kind: Kind, section: Option<string>, slug: string): (r: Result<string>)
    ensures r.Err? <==> kind == Article && section.None?
    ensures r.Ok? ==> StartsWith(r.value, "content/")
    ensures kind == Article && section.Some? && section.value != "" ==>
      r == Ok("content/" + section.value + "/" + slug + ".mdx")
    ensures kind == Video ==> r == Ok("content/videos/" + slug + ".mdx")
    ensures kind == Book || kind == Unknown ==> r == Ok("content/books/" + slug + ".mdx")
  {
    if kind == Article then
      if section.None? then Err(NoSection)
      else if section.value == "" then Ok(Under(Under("content", ""), slug + ".mdx"))
      else
        UnderContent(section.value, slug);
        Ok(Under(Under("content", section.value), slug + ".mdx"))
    else
      UnderContent(if kind == Video then "videos" else "books", slug);
      assert "content/" + "videos" + "/" == "content/videos/" && "content/" + "books" + "/" == "content/books/";
      Ok(Under(Under("content", if kind == Video then "videos" else "books"), slug + ".mdx"))
  }

  lemma UnderContent(dir: string, slug: string)
    requires dir != ""
    ensures Under(Under("content", dir), slug + ".mdx") == "content/" + dir + "/" + slug + ".mdx"
  {
    assert Under("content", dir) == "content/" + dir;
  }

  /** The body of a new file: the frontmatter, a blank line and a placeholder. */
  function InitialContent(frontmatter: string): (r: string)
    ensures StartsWith(r, frontmatter) && EndsWith(r, "\n\nStart writing here...\n")
  {
    assert frontmatter[..|frontmatter|] == frontmatter;
    StartsWithAppend(frontmatter, frontmatter, "\n\nStart writing here...\n");
    EndsWithAppend(frontmatter, "\n\nStart writing here...\n");
    frontmatter + "\n\nStart writing here...\n"
  }

  /** `createContent` once the questions are answered: the path and text written,
      `None` when the file exists and overwriting is declined, or the error that
      building the path throws. `present` says whether the file is already there. */
  function CreateContent(kind: Kind, data: Draft, today: string, present: bool, overwrite: bool)
    : (r: Result<Option<(string, string)>>)
    ensures r.Err? <==> kind == Article && data.section.None?
    ensures r.Ok? ==> (r.value.None? <==> present && !overwrite)
    ensures r.Ok? && r.value.Some? ==>
      Ok(r.value.value.0) == TargetPath(kind, data.section, Slugify(data.title)) &&
      r.value.value.1 == InitialContent(TemplateFrontmatter(kind, data, today))
  {
    if TargetPath(kind, data.section, Slugify(data.title)).Err? then
      Err(TargetPath(kind, data.section, Slugify(data.title)).message)
    else if present && !overwrite then Ok(None)
    else
      Ok(Some((TargetPath(kind, data.section, Slugify(data.title)).value,
               InitialContent(TemplateFrontmatter(kind, data, today)))))
  }

  /** The file name of a created entry is its title's slug plus ".mdx", so the
      content manager's check finds the name and the title slug equal. */
  lemma CreatedNameMatchesSlug(title: string)
    ensures ContentValidation.RemoveFirst(Slugify(title) + ".mdx", ".mdx") == Slugify(title)
  {
    SlugifyIsSlug(title);
    SlugFileName(Slugify(title));
  }

  /** A slug has no '.', so only the added extension is removed. */
  lemma SlugFileName(slug: string)
    requires IsSlug(slug)
    ensures ContentValidation.RemoveFirst(slug + ".mdx", ".mdx") == slug
  {
    forall i | 0 <= i < |slug| ensures slug[i] != '.' {
      assert IsSlugChar(slug[i]);
    }
    assert ".mdx"[0] == '.';
    ContentValidation.RemoveFirstSuffix(slug, ".mdx");
  }
}
