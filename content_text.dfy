/** Text functions shared by the content-authoring scripts: turning a title into a
    URL slug, and choosing and bounding the automatic description of an article. */
module ContentText {
  import opened Common
  import Seqs

  // ---------------------------------------------------------------------------
  // Slugs

  /** Characters that survive `replace(/[^\w\s-]/g, "")`. */
  predicate Allowed(c: char) {
    IsWordChar(c) || IsSpace(c) || c == '-'
  }

  /** Characters that `replace(/[\s_-]+/g, "-")` folds into a hyphen. */
  predicate IsSeparator(c: char) {
    IsSpace(c) || c == '_' || c == '-'
  }

  predicate IsSlugChar(c: char) {
    IsLower(c) || IsDigit(c) || c == '-'
  }

  /** No two hyphens in a row. */
  predicate NoDoubleDash(s: string) {
    forall i :: 0 <= i < |s| - 1 ==> s[i] != '-' || s[i + 1] != '-'
  }

  /** A well-formed slug: lowercase letters, digits and single inner hyphens. */
  predicate IsSlug(s: string) {
    (forall i :: 0 <= i < |s| ==> IsSlugChar(s[i])) &&
    (s != [] ==> s[0] != '-' && s[|s| - 1] != '-') &&
    NoDoubleDash(s)
  }

  function KeepAllowed(s: string): (r: string)
    ensures forall i :: 0 <= i < |r| ==> Allowed(r[i])
    ensures forall c :: c in r ==> c in s
  {
    Seqs.Filter(s, Allowed)
  }

  /** Characters a lower-cased, filtered title can hold. */
  predicate SlugOrSeparator(c: char) {
    IsLower(c) || IsDigit(c) || IsSeparator(c)
  }

  /** Every run of separators becomes one hyphen: a separator is absorbed into the
      hyphen the folded rest starts with, and otherwise becomes a hyphen itself. */
  function Collapse(s: string): (r: string)
    ensures (r == []) == (s == [])
    ensures r != [] ==> (r[0] == '-' <==> IsSeparator(s[0]))
    ensures NoDoubleDash(r)
  {
    if s == [] then []
    else
      var rest := Collapse(s[1..]);
      if IsSeparator(s[0]) then
        if rest != [] && rest[0] == '-' then rest
        else
          assert forall i :: 1 <= i < |"-" + rest| ==> ("-" + rest)[i] == rest[i - 1];
          "-" + rest
      else
        assert forall i :: 1 <= i < |[s[0]] + rest| ==> ([s[0]] + rest)[i] == rest[i - 1];
        [s[0]] + rest
  }

  /** Folding keeps a lower-cased, filtered title inside the slug alphabet. */
  lemma {:induction false} CollapseAlphabet(s: string)
    requires forall i :: 0 <= i < |s| ==> SlugOrSeparator(s[i])
    ensures forall i :: 0 <= i < |Collapse(s)| ==> IsSlugChar(Collapse(s)[i])
  {
    if s != [] {
      var t := s[1..];
      assert forall i :: 0 <= i < |t| ==> t[i] == s[i + 1];
      CollapseAlphabet(t);
      var rest := Collapse(t);
      var r := Collapse(s);
      if IsSeparator(s[0]) && rest != [] && rest[0] == '-' {
        assert r == rest;
      } else {
        assert r[0] == '-' || r[0] == s[0];
        assert forall i :: 1 <= i < |r| ==> r[i] == rest[i - 1];
      }
    }
  }

  function TrimLeadingDashes(s: string): (r: string)
    ensures |r| <= |s| && r == s[|s| - |r|..]
    ensures r != [] ==> r[0] != '-'
    ensures s != [] && s[0] != '-' ==> r == s
  {
    if s != [] && s[0] == '-' then TrimLeadingDashes(s[1..]) else s
  }

  function TrimTrailingDashes(s: string): (r: string)
    ensures |r| <= |s| && r == s[..|r|]
    ensures r != [] ==> r[|r| - 1] != '-'
    ensures s != [] && s[|s| - 1] != '-' ==> r == s
  {
    if s != [] && s[|s| - 1] == '-' then TrimTrailingDashes(s[..|s| - 1]) else s
  }

  /** `replace(/^-+|-+$/g, "")`. */
  function TrimDashes(s: string): (r: string)
    ensures exists i, j :: 0 <= i <= j <= |s| && r == s[i..j]
    ensures r != [] ==> r[0] != '-' && r[|r| - 1] != '-'
  {
    var t := TrimLeadingDashes(s);
    var r := TrimTrailingDashes(t);
    var a := |s| - |t|;
    assert t == s[a..];
    assert r == t[..|r|];
    assert s[a..][..|r|] == s[a..a + |r|];
    r
  }

  /** `slugify`: lower-case, trim, drop characters other than word characters, white
      space and '-', fold separator runs into '-', and strip edge hyphens. */
  function Slugify(text: string): string {
    TrimDashes(Collapse(KeepAllowed(Trim(ToLower(text)))))
  }

  /** Lower-casing leaves no upper-case letter. */
  lemma NoUpperAfterLower(text: string)
    ensures forall c :: c in ToLower(text) ==> !IsUpper(c)
  {
    var lower := ToLower(text);
    forall c | c in lower
      ensures !IsUpper(c)
    {
      var j :| 0 <= j < |lower| && lower[j] == c;
      assert c == LowerChar(text[j]);
    }
  }

  /** Lower-casing and filtering leave only letters, digits and separators. */
  lemma FilteredAlphabet(text: string)
    ensures var kept := KeepAllowed(Trim(ToLower(text)));
      forall i :: 0 <= i < |kept| ==> SlugOrSeparator(kept[i])
  {
    var lower := ToLower(text);
    var trimmed := Trim(lower);
    var kept := KeepAllowed(trimmed);
    NoUpperAfterLower(text);
    forall i | 0 <= i < |kept|
      ensures SlugOrSeparator(kept[i])
    {
      var c := kept[i];
      assert c in kept;
      assert Allowed(c) && c in trimmed;
      assert c in lower;
    }
  }

  /** Stripping edge hyphens from a folded word gives a slug. */
  lemma TrimDashesSlug(s: string)
    requires forall i :: 0 <= i < |s| ==> IsSlugChar(s[i])
    requires NoDoubleDash(s)
    ensures IsSlug(TrimDashes(s))
  {
    var r := TrimDashes(s);
    var i, j :| 0 <= i <= j <= |s| && r == s[i..j];
    InfixSlug(s, i, j);
  }

  /** An infix of a folded word is a folded word, up to its edge hyphens. */
  lemma InfixSlug(s: string, i: nat, j: nat)
    requires i <= j <= |s|
    requires forall k :: 0 <= k < |s| ==> IsSlugChar(s[k])
    requires NoDoubleDash(s)
    ensures forall k :: 0 <= k < |s[i..j]| ==> IsSlugChar(s[i..j][k])
    ensures NoDoubleDash(s[i..j])
  {
    var r := s[i..j];
    forall k | 0 <= k < |r|
      ensures IsSlugChar(r[k])
    {
      assert r[k] == s[i + k];
    }
    forall k | 0 <= k < |r| - 1
      ensures r[k] != '-' || r[k + 1] != '-'
    {
      assert r[k] == s[i + k] && r[k + 1] == s[i + k + 1];
    }
  }

  /** Every slug is well formed. */
  lemma SlugifyIsSlug(text: string)
    ensures IsSlug(Slugify(text))
  {
    var kept := KeepAllowed(Trim(ToLower(text)));
    FilteredAlphabet(text);
    CollapseAlphabet(kept);
    TrimDashesSlug(Collapse(kept));
  }

  /** On a word without separators other than single inner hyphens, folding changes nothing. */
  lemma {:induction false} CollapseKeepsSlug(s: string)
    requires forall i :: 0 <= i < |s| ==> IsSlugChar(s[i])
    requires NoDoubleDash(s)
    ensures Collapse(s) == s
  {
    if s != [] {
      var t := s[1..];
      SlugTail(s);
      CollapseKeepsSlug(t);
      if IsSeparator(s[0]) {
        assert s[0] == '-';
        assert t != [] ==> t[0] == s[1] && t[0] != '-';
        assert Collapse(s) == "-" + t;
      } else {
        assert Collapse(s) == [s[0]] + t;
      }
      assert s == [s[0]] + t;
    }
  }

  /** The tail of a folded word is a folded word. */
  lemma SlugTail(s: string)
    requires s != []
    requires forall i :: 0 <= i < |s| ==> IsSlugChar(s[i])
    requires NoDoubleDash(s)
    ensures forall i :: 0 <= i < |s[1..]| ==> IsSlugChar(s[1..][i])
    ensures NoDoubleDash(s[1..])
  {
    var t := s[1..];
    forall i | 0 <= i < |t|
      ensures IsSlugChar(t[i])
    {
      assert t[i] == s[i + 1];
    }
    forall i | 0 <= i < |t| - 1
      ensures t[i] != '-' || t[i + 1] != '-'
    {
      assert t[i] == s[i + 1] && t[i + 1] == s[i + 2];
    }
  }

  /** A slug is its own slug. */
  lemma SlugIsFixedPoint(s: string)
    requires IsSlug(s)
    ensures Slugify(s) == s
  {
    LowerKeepsSlug(s);
    assert Trim(s) == s;
    assert forall i :: 0 <= i < |s| ==> Allowed(s[i]);
    Seqs.FilterAll(s, Allowed);
    CollapseKeepsSlug(s);
    TrimDashesKeepsSlug(s);
  }

  /** A slug has no upper-case letter to lower. */
  lemma LowerKeepsSlug(s: string)
    requires forall i :: 0 <= i < |s| ==> IsSlugChar(s[i])
    ensures ToLower(s) == s
  {
    var lower := ToLower(s);
    forall i | 0 <= i < |s|
      ensures lower[i] == s[i]
    {
      assert !IsUpper(s[i]);
    }
  }

  /** A slug has no edge hyphens to strip. */
  lemma TrimDashesKeepsSlug(s: string)
    requires IsSlug(s)
    ensures TrimDashes(s) == s
  {
    assert TrimLeadingDashes(s) == s;
    assert TrimTrailingDashes(s) == s;
  }

  /** Applying `slugify` twice equals applying it once. */
  lemma SlugifyIdempotent(text: string)
    ensures Slugify(Slugify(text)) == Slugify(text)
  {
    SlugifyIsSlug(text);
    SlugIsFixedPoint(Slugify(text));
  }

  // ---------------------------------------------------------------------------
  // Descriptions

  /** `line.trim()` is truthy. */
  predicate NonBlank(line: string) {
    !IsBlank(line)
  }

  /** `content.trim().split("\n").filter(line => line.trim())`. */
  function NonBlankLines(content: string): (r: seq<string>)
    ensures forall i :: 0 <= i < |r| ==> NonBlank(r[i])
  {
    Seqs.Filter(Split(Trim(content), '\n'), NonBlank)
  }

  /** `/^[-*+]\s/`: a list-item marker followed by white space. */
  predicate ListMarker(line: string) {
    |line| >= 2 && (line[0] == '-' || line[0] == '*' || line[0] == '+') && IsSpace(line[1])
  }

  /** A line that reads like prose: long enough, and not a heading, a quote or a list item. */
  predicate IsProse(line: string) {
    |Trim(line)| > 20 && !StartsWith(line, "#") && !StartsWith(line, ">") && !ListMarker(line)
  }

  /** The line a description is taken from: the first prose line, else the first
      non-blank line, else "". */
  function ChosenLine(content: string): string {
    var lines := NonBlankLines(content);
    var k := Seqs.FirstIndex(lines, IsProse);
    if k < |lines| then lines[k] else if lines != [] then lines[0] else ""
  }

  /** The chosen line is the first prose line when there is one; otherwise it is
      the first non-blank line, and "" for a blank text. */
  lemma ChosenLineCharacterised(content: string)
    ensures var lines := NonBlankLines(content);
      var line := ChosenLine(content);
      ((exists i | 0 <= i < |lines| :: IsProse(lines[i])) ==>
        exists k | 0 <= k < |lines| :: line == lines[k] && IsProse(lines[k]) &&
          forall j :: 0 <= j < k ==> !IsProse(lines[j])) &&
      ((forall i :: 0 <= i < |lines| ==> !IsProse(lines[i])) ==>
        line == if lines != [] then lines[0] else "")
  {
    var lines := NonBlankLines(content);
    var k := Seqs.FirstIndex(lines, IsProse);
    if k < |lines| {
      assert ChosenLine(content) == lines[k] && IsProse(lines[k]);
    } else {
      assert ChosenLine(content) == if lines != [] then lines[0] else "";
      assert forall i :: 0 <= i < |lines| ==> !IsProse(lines[i]);
    }
  }

  /** JavaScript `s.substring(0, end)`: `end` is clamped into `[0, |s|]`. */
  function Prefix(s: string, end: int): (r: string)
    ensures |r| == if end < 0 then 0 else if end > |s| then |s| else end
    ensures r == s[..|r|]
  {
    s[..if end < 0 then 0 else if end > |s| then |s| else end]
  }

  /** A description longer than `maxLength` is cut to `maxLength - 3` characters
      plus "...". */
  function Truncate(desc: string, maxLength: int): (r: string)
    ensures |desc| <= maxLength ==> r == desc
    ensures |desc| > maxLength ==> EndsWith(r, "...") && StartsWith(desc, r[..|r| - 3])
    ensures maxLength >= 3 ==> |r| <= maxLength
    ensures maxLength >= 3 && |desc| > maxLength ==> |r| == maxLength
    ensures maxLength < 3 && |desc| > maxLength ==> r == "..."
  {
    if |desc| > maxLength then
      var head := Prefix(desc, maxLength - 3);
      assert (head + "...")[..|head|] == head;
      head + "..."
    else desc
  }

  /** Truncation adds no character other than '.'. */
  lemma TruncateAddsOnlyDots(desc: string, maxLength: int, c: char)
    requires c != '.' && c !in desc
    ensures c !in Truncate(desc, maxLength)
  {
    if |desc| > maxLength {
      var head := Prefix(desc, maxLength - 3);
      assert forall i :: 0 <= i < |head| ==> head[i] == desc[i];
    }
  }

  /** `extractDescription` without markdown stripping, as the generator and the
      sync script define it: the chosen line, trimmed and bounded. */
  function PlainDescription(content: string, maxLength: int): (r: string)
    ensures maxLength >= 3 ==> |r| <= maxLength
    ensures |Trim(ChosenLine(content))| <= maxLength ==> r == Trim(ChosenLine(content))
  {
    Truncate(Trim(ChosenLine(content)), maxLength)
  }

  /** The default bound of `extractDescription`. */
  const DefaultMaxLength := 160

  // ---------------------------------------------------------------------------
  // Parsed frontmatter

  /** A value of the parsed YAML frontmatter. `Other` stands for the values YAML
      produces that are neither strings, numbers, booleans, null nor lists, such
      as dates and nested mappings, with the text `String(value)` gives for it. */
  datatype Value = Str(s: string) | Num(n: int) | Bool(b: bool) | Null | List(items: seq<Value>) | Other(shown: string)

  /** The frontmatter fields of a file; a field the file does not set is absent. */
  type Frontmatter = map<string, Value>

  /** JavaScript truthiness of a field value. */
  predicate IsTruthy(v: Value) {
    match v
    case Str(s) => s != ""
    case Num(n) => n != 0
    case Bool(b) => b
    case Null => false
    case List(_) => true
    case Other(_) => true
  }

  /** `String(v)`, as a template literal prints a value: list items are joined with
      ",", a null item printing as "". */
  function Show(v: Value): string
    decreases v
  {
    match v
    case Str(s) => s
    case Num(n) => IntToString(n)
    case Bool(b) => if b then "true" else "false"
    case Null => "null"
    case List(items) =>
      Join(seq(|items|, i requires 0 <= i < |items| => if items[i].Null? then "" else Show(items[i])), ",")
    case Other(shown) => shown
  }

  /** `${data.field}`: an absent field prints as "undefined". */
  function ShowField(data: Frontmatter, field: string): string {
    if field in data then Show(data[field]) else "undefined"
  }

  /** The field is set to a truthy value (`data.field` in a condition). */
  predicate HasTruthy(data: Frontmatter, field: string) {
    field in data && IsTruthy(data[field])
  }

  /** The field holds a string (`typeof data.field === "string"`). */
  predicate HasString(data: Frontmatter, field: string) {
    field in data && data[field].Str?
  }

  /** The field holds exactly the string `s` (`data.field === s`). */
  predicate HasValue(data: Frontmatter, field: string, s: string) {
    field in data && data[field] == Str(s)
  }

  // ---------------------------------------------------------------------------
  // The answers of the `new` command

  datatype Funnel = Funnel(book: string, ctaType: Option<string>)

  /** The answers the `new` command collects; a question not asked is `None`. */
  datatype Draft = Draft(
    title: string, section: Option<string>, description: Option<string>, date: Option<string>,
    category: Option<string>, tags: Option<seq<string>>, image: Option<string>, foundational: bool,
    funnel: Option<Funnel>,
    platform: Option<string>, embedUrl: Option<string>, relatedArticle: Option<string>, thumbnail: Option<string>,
    subtitle: Option<string>, cover: Option<string>, themes: Option<seq<string>>, price: Option<int>,
    currency: Option<string>, status: Option<string>, downloadLink: Option<string>,
    purchaseLink: Option<string>, purchaseUrl: Option<string>, excerpt: Option<string>)

  predicate NonEmpty(items: Option<seq<string>>) {
    items.Some? && |items.value| > 0
  }

  /** `["a", "b"]`: the items quoted and joined by ", " in brackets. */
  function QuotedList(items: seq<string>): (r: string)
    ensures StartsWith(r, "[") && EndsWith(r, "]")
  {
    var r := "[" + Join(seq(|items|, i requires 0 <= i < |items| => "\"" + items[i] + "\""), ", ") + "]";
    assert r[..1] == "[";
    assert r[|r| - 1..] == "]";
    r
  }

  /** The kind of content the `new` command creates; `Unknown` stands for any other
      value, which the writer still accepts. */
  datatype Kind = Article | Video | Book | Unknown
}
