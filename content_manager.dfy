/** The content manager command line: its description extractor (which strips
    markdown emphasis and links), its line-based frontmatter writer, the per-file
    validation rules and the sync command. */
module ContentManager {
  import opened Common
  import opened ContentText
  import Seqs
  import ContentSync

  // ---------------------------------------------------------------------------
  // Descriptions with markdown stripped

  /** `replace(/\*\*\/g, "")`: every "**", scanned left to right, is removed. */
  function RemoveDoubleStars(s: string): string {
    if |s| >= 2 && s[0] == '*' && s[1] == '*' then RemoveDoubleStars(s[2..])
    else if s == [] then []
    else [s[0]] + RemoveDoubleStars(s[1..])
  }

  predicate NotStar(c: char) { c != '*' }

  /** `replace(/\*\/g, "")`. */
  function RemoveStars(s: string): (r: string)
    ensures '*' !in r
  {
    Seqs.Filter(s, NotStar)
  }

  /** Removing "**" first changes nothing: every star goes in the second pass anyway. */
  lemma {:induction false} DoubleStarsRedundant(s: string)
    ensures RemoveStars(RemoveDoubleStars(s)) == RemoveStars(s)
    decreases |s|
  {
    if |s| >= 2 && s[0] == '*' && s[1] == '*' {
      DoubleStarsRedundant(s[2..]);
      assert s == "**" + s[2..];
      Seqs.FilterConcat("**", s[2..], NotStar);
    } else if s != [] {
      var t := s[1..];
      assert s == [s[0]] + t;
      DoubleStarsRedundant(t);
      Seqs.FilterConcat([s[0]], t, NotStar);
      Seqs.FilterConcat([s[0]], RemoveDoubleStars(s[1..]), NotStar);
    }
  }

  /** A match of `/\[([^\]]+)\]\([^\)]+\)/` at the start of `s`: the link text and the
      length of the match. */
  function LinkAt(s: string): (m: Option<(string, nat)>)
    ensures m.Some? ==>
      4 <= m.value.1 <= |s| && s[0] == '[' && 1 <= |m.value.0| < m.value.1 &&
      m.value.0 == s[1..1 + |m.value.0|] && ']' !in m.value.0
  {
    if s == [] || s[0] != '[' || ']' !in s[1..] then None
    else
      var close := 1 + IndexOf(s[1..], ']');
      if close == 1 || close + 1 >= |s| || s[close + 1] != '(' || ')' !in s[close + 2..] then None
      else
        var end := close + 2 + IndexOf(s[close + 2..], ')');
        if end == close + 2 then None else Some((s[1..close], end + 1))
  }

  /** `replace(/\[([^\]]+)\]\([^\)]+\)/g, "$1")`: every link becomes its text. */
  function StripLinks(s: string): (r: string)
    ensures |r| <= |s|
    decreases |s|
  {
    if s == [] then []
    else
      var m := LinkAt(s);
      if m.Some? then m.value.0 + StripLinks(s[m.value.1..]) else [s[0]] + StripLinks(s[1..])
  }

  /** Text without '[' holds no link and is kept as it is. */
  lemma {:induction false} StripLinksWithoutBrackets(s: string)
    requires '[' !in s
    ensures StripLinks(s) == s
    decreases |s|
  {
    if s != [] {
      assert LinkAt(s).None?;
      StripLinksWithoutBrackets(s[1..]);
    }
  }

  /** Stripping links adds no character the text did not hold. */
  lemma {:induction false} StripLinksAddsNothing(s: string, c: char)
    requires c !in s
    ensures c !in StripLinks(s)
    decreases |s|
  {
    if s != [] {
      var m := LinkAt(s);
      if m.Some? {
        StripLinksAddsNothing(s[m.value.1..], c);
        assert forall i :: 0 <= i < |m.value.0| ==> m.value.0[i] == s[1 + i];
      } else {
        StripLinksAddsNothing(s[1..], c);
      }
    }
  }

  /** Markdown emphasis and links of the chosen line, removed. */
  function Unformatted(content: string): (r: string)
    ensures '*' !in r
  {
    var stars := RemoveStars(RemoveDoubleStars(Trim(ChosenLine(content))));
    StripLinksAddsNothing(stars, '*');
    StripLinks(stars)
  }

  /** This script's `extractDescription`: the chosen line trimmed, unformatted and
      bounded. */
  function Description(content: string, maxLength: int): (r: string)
    ensures maxLength >= 3 ==> |r| <= maxLength
    ensures '*' !in r
    ensures |Unformatted(content)| <= maxLength ==> r == Unformatted(content)
  {
    var desc := Unformatted(content);
    TruncateAddsOnlyDots(desc, maxLength, '*');
    Truncate(desc, maxLength)
  }

  function AutoDescription(content: string): (r: string)
    ensures |r| <= DefaultMaxLength && '*' !in r
  {
    Description(content, DefaultMaxLength)
  }

  // ---------------------------------------------------------------------------
  // Frontmatter writer

  /** The fields the writer emits, in the order of their first appearance. */
  datatype Key =
    | Title | DescriptionKey | Date | Section | Category | Tags | Image | Foundational
    | FunnelBlock | FunnelBook | CtaType
    | Platform | EmbedUrl | RelatedArticle | Thumbnail
    | Subtitle | Cover | Themes | Price | Currency | Status | DownloadLink | PurchaseLink | PurchaseUrl | Excerpt

  /** The name a field is written under; the two fields of the funnel block are
      indented under it. */
  function KeyName(k: Key): (name: string)
    ensures ':' !in name && name != "---"
  {
    match k
    case Title => "title"
    case DescriptionKey => "description"
    case Date => "date"
    case Section => "section"
    case Category => "category"
    case Tags => "tags"
    case Image => "image"
    case Foundational => "foundational"
    case FunnelBlock => "funnel"
    case FunnelBook => "  book"
    case CtaType => "  ctaType"
    case Platform => "platform"
    case EmbedUrl => "embedUrl"
    case RelatedArticle => "relatedArticle"
    case Thumbnail => "thumbnail"
    case Subtitle => "subtitle"
    case Cover => "cover"
    case Themes => "themes"
    case Price => "price"
    case Currency => "currency"
    case Status => "status"
    case DownloadLink => "downloadLink"
    case PurchaseLink => "purchaseLink"
    case PurchaseUrl => "purchaseUrl"
    case Excerpt => "excerpt"
  }

  /** The field a name stands for, if any; names are told apart by their first
      character before they are compared whole. */
  function KeyNamed(name: string): Option<Key> {
    if name == [] then None
    else match name[0]
      case 't' =>
        if name == "title" then Some(Title) else if name == "tags" then Some(Tags)
        else if name == "thumbnail" then Some(Thumbnail) else if name == "themes" then Some(Themes)
        else None
      case 'd' =>
        if name == "description" then Some(DescriptionKey) else if name == "date" then Some(Date)
        else if name == "downloadLink" then Some(DownloadLink)
        else None
      case 's' =>
        if name == "section" then Some(Section) else if name == "subtitle" then Some(Subtitle)
        else if name == "status" then Some(Status)
        else None
      case 'c' =>
        if name == "category" then Some(Category) else if name == "cover" then Some(Cover)
        else if name == "currency" then Some(Currency)
        else None
      case 'i' => if name == "image" then Some(Image) else None
      case 'f' =>
        if name == "foundational" then Some(Foundational) else if name == "funnel" then Some(FunnelBlock)
        else None
      case ' ' =>
        if name == "  book" then Some(FunnelBook) else if name == "  ctaType" then Some(CtaType)
        else None
      case 'p' =>
        if name == "platform" then Some(Platform) else if name == "price" then Some(Price)
        else if name == "purchaseLink" then Some(PurchaseLink) else if name == "purchaseUrl" then Some(PurchaseUrl)
        else None
      case 'e' =>
        if name == "embedUrl" then Some(EmbedUrl) else if name == "excerpt" then Some(Excerpt)
        else None
      case 'r' => if name == "relatedArticle" then Some(RelatedArticle) else None
      case _ => None
  }

  /** A name is read back as the field written under it, so no two fields share a name. */
  lemma KeyNameRoundTrip(k: Key)
    ensures KeyNamed(KeyName(k)) == Some(k)
  {
  }

  lemma KeyNameInjective(a: Key, b: Key)
    requires KeyName(a) == KeyName(b)
    ensures a == b
  {
    KeyNameRoundTrip(a);
    KeyNameRoundTrip(b);
  }

  /** The key of a YAML line: the text before its first ':' (the whole line when it
      has none). */
  function LineKey(line: string): (key: string)
    ensures |key| <= |line| && key == line[..|key|] && ':' !in key
    ensures ':' in line ==> |key| < |line| && line[|key|] == ':'
  {
    if line == [] || line[0] == ':' then [] else [line[0]] + LineKey(line[1..])
  }

  /** A line `k:…` whose key has no ':' has key `k`. */
  lemma {:induction false} KeyOfPrefixed(k: string, rest: string)
    requires ':' !in k
    ensures LineKey(k + ":" + rest) == k
  {
    if k != [] {
      assert (k + ":" + rest)[1..] == k[1..] + ":" + rest;
      KeyOfPrefixed(k[1..], rest);
    }
  }

  /** A line without ':' is its own key. */
  lemma {:induction false} KeyOfPlain(line: string)
    requires ':' !in line
    ensures LineKey(line) == line
  {
    if line != [] {
      KeyOfPlain(line[1..]);
      assert line == [line[0]] + line[1..];
    }
  }

  /** One line the writer emits: the "---" fence, a `key: text` field, or a `key:`
      line that opens a nested block. */
  datatype Line = Fence | Field(key: Key, text: string) | Parent(key: Key)

  /** The line is written under the field `k`. */
  predicate Keyed(l: Line, k: Key) {
    !l.Fence? && l.key == k
  }

  /** The text of a line, and what a reader finds before its first ':'. */
  function Render(l: Line): (s: string)
    ensures s != ""
    ensures l.Fence? ==> s == "---"
    ensures LineKey(s) == if l.Fence? then "---" else KeyName(l.key)
  {
    match l
    case Fence => KeyOfPlain("---"); "---"
    case Field(key, text) =>
      var s := KeyName(key) + ": " + text;
      assert s == KeyName(key) + ":" + (" " + text);
      KeyOfPrefixed(KeyName(key), " " + text);
      s
    case Parent(key) =>
      var s := KeyName(key) + ":";
      assert s == KeyName(key) + ":" + "";
      KeyOfPrefixed(KeyName(key), "");
      s
  }

  function Rendered(lines: seq<Line>): (r: seq<string>)
    ensures |r| == |lines| && forall i :: 0 <= i < |r| ==> r[i] == Render(lines[i])
  {
    seq(|lines|, i requires 0 <= i < |lines| => Render(lines[i]))
  }

  /** `lines.join("\n") + "\n"`. */
  function Text(lines: seq<Line>): string {
    Join(Rendered(lines), "\n") + "\n"
  }

  /** `key: "value"`. */
  function Quoted(key: Key, value: string): Line {
    Field(key, "\"" + value + "\"")
  }

  /** `key: ["a", "b"]`. */
  function ListField(key: Key, items: seq<string>): Line {
    Field(key, QuotedList(items))
  }

  /** Some line is written under the field. */
  predicate HasKey(lines: seq<Line>, k: Key) {
    exists i | 0 <= i < |lines| :: Keyed(lines[i], k)
  }

  /** The field a line is written under, if any. */
  function LineKeys(l: Line): set<Key> {
    if l.Fence? then {} else {l.key}
  }

  /** The fields the lines are written under. */
  function Keys(lines: seq<Line>): set<Key> {
    if lines == [] then {} else LineKeys(lines[0]) + Keys(lines[1..])
  }

  /** `Keys` collects exactly the fields some line is written under. */
  lemma {:induction false} KeysMeaning(lines: seq<Line>, k: Key)
    ensures k in Keys(lines) <==> HasKey(lines, k)
  {
    if lines != [] {
      KeysMeaning(lines[1..], k);
      if HasKey(lines[1..], k) {
        var i :| 0 <= i < |lines[1..]| && Keyed(lines[1..][i], k);
        assert Keyed(lines[i + 1], k);
      }
      if HasKey(lines, k) {
        var i :| 0 <= i < |lines| && Keyed(lines[i], k);
        if i > 0 {
          assert Keyed(lines[1..][i - 1], k);
        }
      }
    }
  }

  /** Writing one block of lines after another writes the fields of both. */
  lemma {:induction false} KeysConcat(a: seq<Line>, b: seq<Line>)
    ensures Keys(a + b) == Keys(a) + Keys(b)
  {
    if a == [] {
      assert a + b == b;
    } else {
      assert (a + b)[1..] == a[1..] + b;
      KeysConcat(a[1..], b);
    }
  }

  /** A field is present exactly when some rendered line shows its name before the
      first ':'. */
  lemma RenderedKeys(lines: seq<Line>, k: Key)
    ensures HasKey(lines, k) <==> exists i | 0 <= i < |Rendered(lines)| :: LineKey(Rendered(lines)[i]) == KeyName(k)
  {
    var texts := Rendered(lines);
    if HasKey(lines, k) {
      var i :| 0 <= i < |lines| && Keyed(lines[i], k);
      assert LineKey(texts[i]) == KeyName(k);
    }
    if i :| 0 <= i < |texts| && LineKey(texts[i]) == KeyName(k) {
      if !lines[i].Fence? {
        KeyNameInjective(lines[i].key, k);
      }
      assert Keyed(lines[i], k);
    }
  }

  /** `keys`, with `k` added when `present`. */
  function With(keys: set<Key>, present: bool, k: Key): set<Key> {
    if present then keys + {k} else keys
  }

  /** `if (present) lines.push(l)`: the field of `l` is added when it is pushed. */
  method PushIf(lines: seq<Line>, present: bool, l: Line) returns (after: seq<Line>)
    requires !l.Fence?
    ensures after == if present then lines + [l] else lines
    ensures Keys(after) == With(Keys(lines), present, l.key)
  {
    after := lines;
    if present {
      KeysConcat(lines, [l]);
      assert [l][1..] == [];
      after := lines + [l];
    }
  }

  /** The set of a list of fields. */
  function KeySet(keys: seq<Key>): set<Key> {
    if keys == [] then {} else {keys[0]} + KeySet(keys[1..])
  }

  /** The opening of a block: a fence, then one line for each of `keys`. */
  lemma {:induction false} OpeningKeys(lines: seq<Line>, keys: seq<Key>)
    requires |lines| == |keys| + 1 && lines[0] == Fence
    requires forall i :: 1 <= i < |lines| ==> Keyed(lines[i], keys[i - 1])
    ensures Keys(lines) == KeySet(keys)
    decreases |keys|
  {
    if keys == [] {
      assert lines == [Fence];
    } else {
      var rest := [Fence] + lines[2..];
      forall i | 1 <= i < |rest|
        ensures Keyed(rest[i], keys[1..][i - 1])
      {
        assert rest[i] == lines[i + 1];
      }
      OpeningKeys(rest, keys[1..]);
      assert lines == [Fence] + [lines[1]] + lines[2..];
      KeysConcat([Fence], [lines[1]] + lines[2..]);
      KeysConcat([Fence], lines[2..]);
      assert Keys([lines[1]] + lines[2..]) == {keys[0]} + Keys(lines[2..]);
    }
  }

  /** The optional fields of an article block before its funnel. */
  function ArticleFieldKeys(data: Draft): set<Key> {
    var keys := With({}, Truthy(data.category), Category);
    var keys := With(keys, NonEmpty(data.tags), Tags);
    var keys := With(keys, Truthy(data.image), Image);
    With(keys, data.foundational, Foundational)
  }

  /** The fields of the funnel block. */
  function FunnelKeys(funnel: Option<Funnel>): set<Key> {
    var keys := With({}, funnel.Some?, FunnelBlock);
    var keys := With(keys, funnel.Some?, FunnelBook);
    With(keys, funnel.Some? && Truthy(funnel.value.ctaType), CtaType)
  }

  /** The fields of an article block. */
  function ArticleKeys(data: Draft): set<Key> {
    KeySet([Title, DescriptionKey, Date, Section]) + (ArticleFieldKeys(data) + FunnelKeys(data.funnel))
  }

  /** The category, tags, image and foundational lines of an article, each when given. */
  method ArticleFields(data: Draft) returns (pushed: seq<Line>)
    ensures Keys(pushed) == ArticleFieldKeys(data)
    ensures NonEmpty(data.tags) ==> ListField(Tags, data.tags.value) in pushed
  {
    pushed := [];
    pushed := PushIf(pushed, Truthy(data.category), Quoted(Category, OrElse(data.category, "")));
    pushed := PushIf(pushed, NonEmpty(data.tags), ListField(Tags, if NonEmpty(data.tags) then data.tags.value else []));
    pushed := PushIf(pushed, Truthy(data.image), Quoted(Image, OrElse(data.image, "")));
    pushed := PushIf(pushed, data.foundational, Field(Foundational, "true"));
  }

  /** `if (data.funnel)`: the `funnel:` line, its book and its call to action when given. */
  method FunnelFields(funnel: Option<Funnel>) returns (pushed: seq<Line>)
    ensures Keys(pushed) == FunnelKeys(funnel)
    ensures funnel.Some? ==> |pushed| >= 2 && pushed[0] == Parent(FunnelBlock) && pushed[1] == Quoted(FunnelBook, funnel.value.book)
  {
    pushed := [];
    pushed := PushIf(pushed, funnel.Some?, Parent(FunnelBlock));
    pushed := PushIf(pushed, funnel.Some?, Quoted(FunnelBook, if funnel.Some? then funnel.value.book else ""));
    var cta := funnel.Some? && Truthy(funnel.value.ctaType);
    pushed := PushIf(pushed, cta, Quoted(CtaType, if funnel.Some? then OrElse(funnel.value.ctaType, "") else ""));
  }

  /** The article block: the opening lines, the optional fields pushed after them,
      and the closing fence. */
  method ArticleLines(data: Draft, description: string, date: string) returns (lines: seq<Line>)
    ensures |lines| >= 6 && lines[0] == Fence && lines[|lines| - 1] == Fence
    ensures lines[1] == Quoted(Title, data.title)
    ensures lines[2..5] == [Quoted(DescriptionKey, description), Quoted(Date, date),
                            Quoted(Section, OrElse(data.section, "esoteriment"))]
    ensures Keys(lines) == ArticleKeys(data)
    ensures NonEmpty(data.tags) ==> ListField(Tags, data.tags.value) in lines
  {
    var opening := [Fence, Quoted(Title, data.title), Quoted(DescriptionKey, description), Quoted(Date, date),
                    Quoted(Section, OrElse(data.section, "esoteriment"))];
    OpeningKeys(opening, [Title, DescriptionKey, Date, Section]);
    var fields := ArticleFields(data);
    var funnel := FunnelFields(data.funnel);
    KeysConcat(fields, funnel);
    Closed(opening, fields + funnel);
    lines := opening + (fields + funnel) + [Fence];
    assert lines[2..5] == opening[2..5];
    if NonEmpty(data.tags) {
      assert ListField(Tags, data.tags.value) in fields + funnel;
    }
  }

  /** The lines of a block: its opening, the lines pushed after it, and the closing fence. */
  lemma Closed(opening: seq<Line>, pushed: seq<Line>)
    ensures Keys(opening + pushed + [Fence]) == Keys(opening) + Keys(pushed)
    ensures forall i :: 0 <= i < |opening| ==> (opening + pushed + [Fence])[i] == opening[i]
    ensures forall l :: l in pushed ==> l in opening + pushed + [Fence]
  {
    KeysConcat(opening, pushed);
    KeysConcat(opening + pushed, [Fence]);
    assert [Fence][1..] == [];
  }

  /** The fields of a video block. */
  function VideoKeys(data: Draft): set<Key> {
    var keys := With({}, Truthy(data.relatedArticle), RelatedArticle);
    var keys := With(keys, Truthy(data.thumbnail), Thumbnail);
    KeySet([Title, DescriptionKey, Date, Platform, EmbedUrl, Section]) + keys
  }

  /** The video block. */
  method VideoLines(data: Draft, description: string, date: string) returns (lines: seq<Line>)
    ensures |lines| >= 8 && lines[0] == Fence && lines[|lines| - 1] == Fence
    ensures lines[1] == Quoted(Title, data.title)
    ensures lines[2..7] == [Quoted(DescriptionKey, description), Quoted(Date, date),
                            Quoted(Platform, OrElse(data.platform, "youtube")), Quoted(EmbedUrl, OrElse(data.embedUrl, "")),
                            Quoted(Section, OrElse(data.section, "lifeward"))]
    ensures Keys(lines) == VideoKeys(data)
  {
    var opening := [Fence, Quoted(Title, data.title), Quoted(DescriptionKey, description), Quoted(Date, date),
                    Quoted(Platform, OrElse(data.platform, "youtube")), Quoted(EmbedUrl, OrElse(data.embedUrl, "")),
                    Quoted(Section, OrElse(data.section, "lifeward"))];
    OpeningKeys(opening, [Title, DescriptionKey, Date, Platform, EmbedUrl, Section]);
    var pushed: seq<Line> := [];
    pushed := PushIf(pushed, Truthy(data.relatedArticle), Quoted(RelatedArticle, OrElse(data.relatedArticle, "")));
    pushed := PushIf(pushed, Truthy(data.thumbnail), Quoted(Thumbnail, OrElse(data.thumbnail, "")));
    Closed(opening, pushed);
    lines := opening + pushed + [Fence];
  }

  /** The fields of a book between its title and its shop details. */
  function BookFieldKeys(data: Draft): set<Key> {
    var keys := With({}, Truthy(data.subtitle), Subtitle);
    var keys := With(With(keys, true, DescriptionKey), true, Date);
    var keys := With(keys, Truthy(data.cover), Cover);
    var keys := With(keys, NonEmpty(data.themes), Themes);
    With(keys, data.price.Some?, Price)
  }

  /** The shop fields of a book. */
  function BookShopKeys(data: Draft): set<Key> {
    var keys := With({}, Truthy(data.currency), Currency);
    var keys := With(keys, Truthy(data.status), Status);
    var keys := With(keys, Truthy(data.downloadLink), DownloadLink);
    var keys := With(keys, Truthy(data.purchaseLink), PurchaseLink);
    var keys := With(keys, Truthy(data.purchaseUrl), PurchaseUrl);
    With(keys, data.excerpt.Some?, Excerpt)
  }

  /** The fields of a book block; price and excerpt are written whenever they are
      given, even when falsy. */
  function BookKeys(data: Draft): set<Key> {
    KeySet([Title]) + (BookFieldKeys(data) + BookShopKeys(data))
  }

  /** The subtitle, description, date, cover, themes and price lines of a book. */
  method BookFields(data: Draft, description: string, date: string) returns (pushed: seq<Line>)
    ensures Keys(pushed) == BookFieldKeys(data)
    ensures NonEmpty(data.themes) ==> ListField(Themes, data.themes.value) in pushed
    ensures data.price.Some? ==> Field(Price, IntToString(data.price.value)) in pushed
  {
    pushed := [];
    pushed := PushIf(pushed, Truthy(data.subtitle), Quoted(Subtitle, OrElse(data.subtitle, "")));
    pushed := PushIf(pushed, true, Quoted(DescriptionKey, description));
    pushed := PushIf(pushed, true, Quoted(Date, date));
    pushed := PushIf(pushed, Truthy(data.cover), Quoted(Cover, OrElse(data.cover, "")));
    pushed := PushIf(pushed, NonEmpty(data.themes), ListField(Themes, if NonEmpty(data.themes) then data.themes.value else []));
    pushed := PushIf(pushed, data.price.Some?, Field(Price, if data.price.Some? then IntToString(data.price.value) else ""));
  }

  /** The currency, status, link and excerpt lines of a book. */
  method BookShopFields(data: Draft) returns (pushed: seq<Line>)
    ensures Keys(pushed) == BookShopKeys(data)
    ensures data.excerpt.Some? ==> Field(Excerpt, data.excerpt.value) in pushed
  {
    pushed := [];
    pushed := PushIf(pushed, Truthy(data.currency), Quoted(Currency, OrElse(data.currency, "")));
    pushed := PushIf(pushed, Truthy(data.status), Quoted(Status, OrElse(data.status, "")));
    pushed := PushIf(pushed, Truthy(data.downloadLink), Quoted(DownloadLink, OrElse(data.downloadLink, "")));
    pushed := PushIf(pushed, Truthy(data.purchaseLink), Quoted(PurchaseLink, OrElse(data.purchaseLink, "")));
    pushed := PushIf(pushed, Truthy(data.purchaseUrl), Quoted(PurchaseUrl, OrElse(data.purchaseUrl, "")));
    pushed := PushIf(pushed, data.excerpt.Some?, Field(Excerpt, if data.excerpt.Some? then data.excerpt.value else ""));
  }

  /** The book block. */
  method BookLines(data: Draft, description: string, date: string) returns (lines: seq<Line>)
    ensures |lines| >= 5 && lines[0] == Fence && lines[|lines| - 1] == Fence
    ensures lines[1] == Quoted(Title, data.title)
    ensures Keys(lines) == BookKeys(data)
    ensures NonEmpty(data.themes) ==> ListField(Themes, data.themes.value) in lines
    ensures data.price.Some? ==> Field(Price, IntToString(data.price.value)) in lines
    ensures data.excerpt.Some? ==> Field(Excerpt, data.excerpt.value) in lines
  {
    var opening := [Fence, Quoted(Title, data.title)];
    OpeningKeys(opening, [Title]);
    var fields := BookFields(data, description, date);
    var shop := BookShopFields(data);
    KeysConcat(fields, shop);
    Closed(opening, fields + shop);
    lines := opening + (fields + shop) + [Fence];
  }

  /** The lines `generateFrontmatter` writes for a kind: a block between two fences
      that opens with the title, then the kind's defaults and fields. */
  predicate FrontmatterLayout(kind: Kind, data: Draft, today: string, lines: seq<Line>) {
    var description := OrElse(data.description, "");
    var date := OrElse(data.date, today);
    |lines| >= 4 && lines[0] == Fence && lines[|lines| - 1] == Fence &&
    lines[1] == Quoted(Title, data.title) &&
    match kind
    case Article =>
      |lines| >= 6 &&
      lines[2..5] == [Quoted(DescriptionKey, description), Quoted(Date, date),
                      Quoted(Section, OrElse(data.section, "esoteriment"))] &&
      Keys(lines) == ArticleKeys(data) &&
      (NonEmpty(data.tags) ==> ListField(Tags, data.tags.value) in lines)
    case Video =>
      |lines| >= 8 &&
      lines[2..7] == [Quoted(DescriptionKey, description), Quoted(Date, date),
                      Quoted(Platform, OrElse(data.platform, "youtube")), Quoted(EmbedUrl, OrElse(data.embedUrl, "")),
                      Quoted(Section, OrElse(data.section, "lifeward"))] &&
      Keys(lines) == VideoKeys(data)
    case Book =>
      Keys(lines) == BookKeys(data) &&
      (NonEmpty(data.themes) ==> ListField(Themes, data.themes.value) in lines) &&
      (data.price.Some? ==> Field(Price, IntToString(data.price.value)) in lines) &&
      (data.excerpt.Some? ==> Field(Excerpt, data.excerpt.value) in lines)
    case Unknown =>
      lines == [Fence, Quoted(Title, data.title), Quoted(Date, date), Fence]
  }

  /** The lines of `generateFrontmatter`, kind by kind. `today` is the current date
      as `YYYY-MM-DD`. */
  method FrontmatterLines(kind: Kind, data: Draft, today: string) returns (lines: seq<Line>)
    ensures FrontmatterLayout(kind, data, today, lines)
  {
    var description := OrElse(data.description, "");
    var date := OrElse(data.date, today);
    match kind {
      case Article =>
        lines := ArticleLines(data, description, date);
      case Video =>
        lines := VideoLines(data, description, date);
      case Book =>
        lines := BookLines(data, description, date);
      case Unknown =>
        lines := [Fence, Quoted(Title, data.title), Quoted(Date, date), Fence];
    }
  }

  /** `generateFrontmatter`: the YAML block of a new file, one non-empty line per
      field between two "---" lines, and those lines. */
  method GenerateFrontmatter(kind: Kind, data: Draft, today: string) returns (r: string, lines: seq<Line>)
    ensures FrontmatterLayout(kind, data, today, lines)
    ensures r == Text(lines)
    ensures StartsWith(r, "---\n") && EndsWith(r, "\n---\n")
    ensures forall i :: 0 <= i < |Rendered(lines)| ==> Rendered(lines)[i] != ""
  {
    lines := FrontmatterLines(kind, data, today);
    assert |lines| >= 2 && lines[0] == Fence && lines[|lines| - 1] == Fence;
    FencedText(lines);
    r := Text(lines);
  }

  /** Lines between two fences are written as a text that opens with "---\n" and
      closes with "\n---\n". */
  lemma FencedText(lines: seq<Line>)
    requires |lines| >= 2 && lines[0] == Fence && lines[|lines| - 1] == Fence
    ensures StartsWith(Text(lines), "---\n") && EndsWith(Text(lines), "\n---\n")
  {
    var texts := Rendered(lines);
    assert texts[0] == "---" && texts[|texts| - 1] == "---";
    FencedJoin(texts);
  }

  // ---------------------------------------------------------------------------
  // The sync command

  /** `syncContent`: the same loop as the sync script, with this script's
      description (markdown stripped). A cancelled choice ("") syncs nothing, and
      "specific" leaves the chosen file as it is. */
  method SyncContent(action: string, files: seq<ContentSync.MdxFile>)
    returns (after: seq<ContentSync.MdxFile>, synced: nat, failure: Option<string>)
    ensures action == "" ==> after == files && synced == 0 && failure == None
    ensures action != "" ==>
      var sync := ContentSync.Syncer(ContentSync.OptionsFor(action), AutoDescription);
      var n := ContentSync.FirstFailure(files, sync);
      |after| == |files| &&
      (failure.Some? <==> n < |files|) &&
      (failure.Some? ==> failure.value == sync(files[n]).message) &&
      (forall i :: 0 <= i < n ==> after[i] == ContentSync.Rewritten(files[i], sync(files[i]))) &&
      (forall i :: n <= i < |files| ==> after[i] == files[i]) &&
      synced == ContentSync.CountWritten(files[..n], sync)
    ensures action == "specific" ==> after == files && synced == 0 && failure == None
  {
    if action == "" {
      return files, 0, None;
    }
    after, synced, failure := ContentSync.SyncAll(files, ContentSync.OptionsFor(action), AutoDescription);
    if action == "specific" {
      ContentSync.SpecificCountsNothing(files, AutoDescription);
      assert files[..|files|] == files;
    }
  }
}
