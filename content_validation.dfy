/** The `validate` command of the content manager: every MDX file under content/ is
    checked against the frontmatter rules of its directory, errors and warnings are
    collected, and the process exits with 1 exactly when there is an error. */
module ContentValidation {
  import opened Common
  import opened ContentText

  /** A validation error: the file, the field at fault and the message. */
  datatype Issue = Issue(file: string, field: string, message: string)

  /** A validation warning. */
  datatype Notice = Notice(file: string, message: string)

  /** A file found under content/: its path relative to the working directory, the
      name of the directory holding it, its file name, and what reading and parsing
      it gave (the frontmatter and the body, or the message of what was thrown). */
  datatype ContentFile = ContentFile(path: string, dir: string, name: string, parsed: Result<(Frontmatter, string)>)

  /** The errors and warnings of one file, in the order they are pushed. */
  datatype Checked = Checked(errors: seq<Issue>, warnings: seq<Notice>)

  /** `!v || typeof v !== "string" || v.trim() === ""` fails: the field is a string
      that is not blank. */
  predicate FilledString(data: Frontmatter, field: string) {
    HasString(data, field) && !IsBlank(data[field].s)
  }

  /** `/^\d{4}-\d{2}-\d{2}$/`. */
  predicate IsoDateShape(s: string) {
    |s| == 10 && s[4] == '-' && s[7] == '-' &&
    forall i :: 0 <= i < 10 && i != 4 && i != 7 ==> IsDigit(s[i])
  }

  /** The date field is a non-empty string of that shape that `validDate` accepts. */
  predicate GoodDate(data: Frontmatter, validDate: string -> bool) {
    HasString(data, "date") && data["date"].s != "" && IsoDateShape(data["date"].s) && validDate(data["date"].s)
  }

  /** The section is one of the two sections (`data.section` equal to either name). */
  predicate KnownSection(data: Frontmatter) {
    HasValue(data, "section", "esoteriment") || HasValue(data, "section", "lifeward")
  }

  /** Articles live in a directory named after their section. */
  predicate IsArticleDir(dir: string) {
    dir == "esoteriment" || dir == "lifeward"
  }

  /** All issues concern `file` and the field `field`. */
  predicate About(issues: seq<Issue>, file: string, field: string) {
    forall i :: 0 <= i < |issues| ==> issues[i].file == file && issues[i].field == field
  }

  predicate NoticesAbout(notices: seq<Notice>, file: string) {
    forall i :: 0 <= i < |notices| ==> notices[i].file == file
  }

  /** The issues about `field`, in order. */
  function OfField(issues: seq<Issue>, field: string): (r: seq<Issue>)
    ensures forall e :: e in r <==> e in issues && e.field == field
  {
    if issues == [] then []
    else
      assert issues == [issues[0]] + issues[1..];
      (if issues[0].field == field then [issues[0]] else []) + OfField(issues[1..], field)
  }

  /** Some issue concerns `field`. */
  predicate Flags(issues: seq<Issue>, field: string) {
    OfField(issues, field) != []
  }

  // ---------------------------------------------------------------------------
  // The rules, one by one

  /** The title must be a string that is not blank. */
  function TitleIssues(file: string, data: Frontmatter): (r: seq<Issue>)
    ensures About(r, file, "title")
    ensures r == [] <==> FilledString(data, "title")
  {
    if !FilledString(data, "title") then [Issue(file, "title", "Title is required")] else []
  }

  /** The date must be a non-empty string, of the form YYYY-MM-DD, and a date
      `new Date` can read (`validDate`). */
  function DateIssues(file: string, data: Frontmatter, validDate: string -> bool): (r: seq<Issue>)
    ensures About(r, file, "date")
    ensures r == [] <==> GoodDate(data, validDate)
  {
    if !HasString(data, "date") || data["date"].s == "" then [Issue(file, "date", "Date is required")]
    else
      var date := data["date"].s;
      if !IsoDateShape(date) then
        [Issue(file, "date", "Invalid date format: \"" + date + "\". Expected YYYY-MM-DD")]
      else if !validDate(date) then [Issue(file, "date", "Invalid date: \"" + date + "\"")]
      else []
  }

  /** Articles and videos must name one of the two sections. */
  function SectionIssues(file: string, data: Frontmatter): (r: seq<Issue>)
    ensures About(r, file, "section")
    ensures r == [] <==> KnownSection(data)
  {
    if !HasTruthy(data, "section") || !KnownSection(data) then
      [Issue(file, "section", "Invalid section: \"" + ShowField(data, "section") + "\". Must be \"esoteriment\" or \"lifeward\"")]
    else []
  }

  /** A set section of an article must be the name of its directory. */
  function MismatchIssues(file: string, dir: string, data: Frontmatter): (r: seq<Issue>)
    ensures About(r, file, "section")
    ensures r == [] <==> !HasTruthy(data, "section") || HasValue(data, "section", dir)
  {
    if HasTruthy(data, "section") && !HasValue(data, "section", dir) then
      [Issue(file, "section", "Section \"" + ShowField(data, "section") + "\" doesn't match directory \"" + dir + "\"")]
    else []
  }

  /** A video must have an embed URL. */
  function EmbedUrlIssues(file: string, data: Frontmatter): (r: seq<Issue>)
    ensures About(r, file, "embedUrl")
    ensures r == [] <==> FilledString(data, "embedUrl")
  {
    if !FilledString(data, "embedUrl") then [Issue(file, "embedUrl", "Embed URL is required for videos")] else []
  }

  /** A book must have a description. */
  function BookDescriptionIssues(file: string, data: Frontmatter): (r: seq<Issue>)
    ensures About(r, file, "description")
    ensures r == [] <==> FilledString(data, "description")
  {
    if !FilledString(data, "description") then
      [Issue(file, "description", "Description is required for books")]
    else []
  }

  /** An article or video without a description is warned about. */
  function DescriptionNotices(file: string, data: Frontmatter): (r: seq<Notice>)
    ensures NoticesAbout(r, file)
    ensures r == [] <==> FilledString(data, "description")
  {
    if !FilledString(data, "description") then [Notice(file, "Missing description (recommended for SEO)")] else []
  }

  /** A book without a non-empty list of themes is warned about. */
  function ThemesNotices(file: string, data: Frontmatter): (r: seq<Notice>)
    ensures NoticesAbout(r, file)
    ensures r == [] <==> "themes" in data && data["themes"].List? && data["themes"].items != []
  {
    if !("themes" in data && data["themes"].List? && data["themes"].items != []) then
      [Notice(file, "Missing themes array (recommended)")]
    else []
  }

  /** A file whose body is blank is warned about. */
  function ContentNotices(file: string, content: string): (r: seq<Notice>)
    ensures NoticesAbout(r, file)
    ensures r == [] <==> !IsBlank(content)
  {
    if IsBlank(content) then [Notice(file, "File has no content (frontmatter only)")] else []
  }

  /** `s.replace(sub, "")`: the first occurrence of `sub` is removed. */
  function RemoveFirst(s: string, sub: string): (r: string)
    requires sub != []
    ensures |r| == |s| || |r| == |s| - |sub|
    decreases |s|
  {
    if |s| < |sub| then s
    else if s[..|sub|] == sub then s[|sub|..]
    else [s[0]] + RemoveFirst(s[1..], sub)
  }

  /** A name ending in `sub`, whose first character occurs nowhere before it,
      loses exactly that ending. */
  lemma {:induction false} RemoveFirstSuffix(s: string, sub: string)
    requires sub != [] && sub[0] !in s
    ensures RemoveFirst(s + sub, sub) == s
    decreases |s|
  {
    if s == [] {
      assert s + sub == sub;
    } else {
      assert (s + sub)[0] == s[0] != sub[0];
      assert (s + sub)[1..] == s[1..] + sub;
      RemoveFirstSuffix(s[1..], sub);
    }
  }

  /** The message of the `TypeError` that slugifying a title that is not a string raises. */
  const NotAString := "text.toLowerCase is not a function"

  /** An article whose title slug is not its file name is warned about; a truthy
      title that is not a string makes `slugify` throw. */
  function SlugNotices(file: string, name: string, data: Frontmatter): (r: Result<seq<Notice>>)
    ensures r.Err? <==> HasTruthy(data, "title") && !HasString(data, "title")
    ensures r.Ok? ==> NoticesAbout(r.value, file)
    ensures r.Ok? && r.value != [] ==> HasString(data, "title") && Slugify(data["title"].s) != RemoveFirst(name, ".mdx")
  {
    if !HasTruthy(data, "title") then Ok([])
    else if !data["title"].Str? then Err(NotAString)
    else Ok(TitleSlugNotices(file, name, data["title"].s))
  }

  /** The warning about a string title whose slug is not the file name. */
  function TitleSlugNotices(file: string, name: string, title: string): (r: seq<Notice>)
    ensures NoticesAbout(r, file)
    ensures r != [] <==> Slugify(title) != RemoveFirst(name, ".mdx")
  {
    if Slugify(title) != RemoveFirst(name, ".mdx") then
      [SlugMismatch(file, RemoveFirst(name, ".mdx"), Slugify(title))]
    else []
  }

  function SlugMismatch(file: string, expected: string, titleSlug: string): (n: Notice)
    ensures n.file == file
  {
    Notice(file, "Filename \"" + expected + "\" doesn't match title slug \"" + titleSlug + "\" (may be intentional)")
  }

  /** The error a failure inside the checks of a file is reported as. */
  function ParseIssue(file: string, message: string): (e: Issue)
    ensures e.file == file && e.field == "parse"
  {
    Issue(file, "parse", "Failed to parse file: " + message)
  }

  // ---------------------------------------------------------------------------
  // One file

  /** The checks of a parsed file that depend on its directory, then the check of
      its body; a throw ends them with a "parse" error, keeping what was pushed
      before it. */
  function DirectoryChecks(f: ContentFile, data: Frontmatter, content: string): (c: Checked)
    ensures NoticesAbout(c.warnings, f.path)
  {
    if IsArticleDir(f.dir) then
      if SlugNotices(f.path, f.name, data).Err? then
        Checked(SectionIssues(f.path, data) + MismatchIssues(f.path, f.dir, data) +
                [ParseIssue(f.path, SlugNotices(f.path, f.name, data).message)],
                DescriptionNotices(f.path, data))
      else
        Checked(SectionIssues(f.path, data) + MismatchIssues(f.path, f.dir, data),
                DescriptionNotices(f.path, data) + SlugNotices(f.path, f.name, data).value + ContentNotices(f.path, content))
    else if f.dir == "videos" then
      Checked(SectionIssues(f.path, data) + EmbedUrlIssues(f.path, data),
              DescriptionNotices(f.path, data) + ContentNotices(f.path, content))
    else if f.dir == "books" then
      Checked(BookDescriptionIssues(f.path, data), ThemesNotices(f.path, data) + ContentNotices(f.path, content))
    else
      Checked([], ContentNotices(f.path, content))
  }

  /** The checks of one file: a file that cannot be read or parsed has a single
      "parse" error; otherwise the title and date rules come first, then those of
      its directory. */
  function CheckFile(f: ContentFile, validDate: string -> bool): Checked {
    match f.parsed
    case Err(message) => Checked([ParseIssue(f.path, message)], [])
    case Ok((data, content)) =>
      Checked(TitleIssues(f.path, data) + DateIssues(f.path, data, validDate) + DirectoryChecks(f, data, content).errors,
              DirectoryChecks(f, data, content).warnings)
  }

  /** A list of issues about one field holds nothing about any other. */
  lemma {:induction false} OfFieldAbout(issues: seq<Issue>, file: string, other: string, field: string)
    requires About(issues, file, other)
    ensures OfField(issues, field) == if field == other then issues else []
    decreases |issues|
  {
    if issues != [] {
      assert issues == [issues[0]] + issues[1..];
      OfFieldAbout(issues[1..], file, other, field);
    }
  }

  /** The issues about a field in a concatenation are those of each part. */
  lemma {:induction false} OfFieldConcat(a: seq<Issue>, b: seq<Issue>, field: string)
    ensures OfField(a + b, field) == OfField(a, field) + OfField(b, field)
    decreases |a|
  {
    if a == [] {
      assert a + b == b;
    } else {
      assert (a + b)[1..] == a[1..] + b;
      OfFieldConcat(a[1..], b, field);
    }
  }

  /** The errors the directory rules give about a field: for an article, its
      section errors, then a "parse" error when slugifying the title throws. */
  lemma ArticleField(f: ContentFile, data: Frontmatter, content: string, field: string)
    requires IsArticleDir(f.dir)
    ensures OfField(DirectoryChecks(f, data, content).errors, field) ==
      (if field == "section" then SectionIssues(f.path, data) + MismatchIssues(f.path, f.dir, data) else []) +
      (if field == "parse" && SlugNotices(f.path, f.name, data).Err? then
         [ParseIssue(f.path, SlugNotices(f.path, f.name, data).message)] else [])
  {
    var s := SectionIssues(f.path, data);
    var m := MismatchIssues(f.path, f.dir, data);
    var p := ThrownIssues(f, data);
    assert DirectoryChecks(f, data, content).errors == s + m + p;
    OfFieldAbout(s, f.path, "section", field);
    OfFieldAbout(m, f.path, "section", field);
    OfFieldAbout(p, f.path, "parse", field);
    OfFieldConcat(s, m, field);
    OfFieldConcat(s + m, p, field);
  }

  /** The "parse" error of an article whose title slugifying throws. */
  function ThrownIssues(f: ContentFile, data: Frontmatter): (r: seq<Issue>)
    ensures About(r, f.path, "parse")
    ensures r == if SlugNotices(f.path, f.name, data).Err? then [ParseIssue(f.path, SlugNotices(f.path, f.name, data).message)] else []
  {
    if SlugNotices(f.path, f.name, data).Err? then [ParseIssue(f.path, SlugNotices(f.path, f.name, data).message)] else []
  }

  /** For a video: its section errors, then its embed URL error. */
  lemma VideoField(f: ContentFile, data: Frontmatter, content: string, field: string)
    requires f.dir == "videos"
    ensures OfField(DirectoryChecks(f, data, content).errors, field) ==
      (if field == "section" then SectionIssues(f.path, data) else []) +
      (if field == "embedUrl" then EmbedUrlIssues(f.path, data) else [])
  {
    var s := SectionIssues(f.path, data);
    var e := EmbedUrlIssues(f.path, data);
    assert DirectoryChecks(f, data, content).errors == s + e;
    OfFieldAbout(s, f.path, "section", field);
    OfFieldAbout(e, f.path, "embedUrl", field);
    OfFieldConcat(s, e, field);
  }

  /** For a book: its description error; other directories have no rules of their own. */
  lemma OtherField(f: ContentFile, data: Frontmatter, content: string, field: string)
    requires !IsArticleDir(f.dir) && f.dir != "videos"
    ensures OfField(DirectoryChecks(f, data, content).errors, field) ==
      if f.dir == "books" && field == "description" then BookDescriptionIssues(f.path, data) else []
  {
    if f.dir == "books" {
      OfFieldAbout(BookDescriptionIssues(f.path, data), f.path, "description", field);
    }
  }

  /** The errors the directory rules give about a field. */
  lemma DirectoryField(f: ContentFile, data: Frontmatter, content: string, field: string)
    ensures OfField(DirectoryChecks(f, data, content).errors, field) ==
        if IsArticleDir(f.dir) then
          (if field == "section" then SectionIssues(f.path, data) + MismatchIssues(f.path, f.dir, data) else []) +
          (if field == "parse" && SlugNotices(f.path, f.name, data).Err? then
             [ParseIssue(f.path, SlugNotices(f.path, f.name, data).message)] else [])
        else if f.dir == "videos" then
          (if field == "section" then SectionIssues(f.path, data) else []) +
          (if field == "embedUrl" then EmbedUrlIssues(f.path, data) else [])
        else if f.dir == "books" && field == "description" then BookDescriptionIssues(f.path, data)
        else []
  {
    if IsArticleDir(f.dir) {
      ArticleField(f, data, content, field);
    } else if f.dir == "videos" {
      VideoField(f, data, content, field);
    } else {
      OtherField(f, data, content, field);
    }
  }

  /** The errors of a parsed file about a field: those of the title and date rules,
      then those of its directory. */
  lemma ParsedField(f: ContentFile, validDate: string -> bool, field: string)
    requires f.parsed.Ok?
    ensures var data := f.parsed.value.0;
      OfField(CheckFile(f, validDate).errors, field) ==
        (if field == "title" then TitleIssues(f.path, data) else []) +
        (if field == "date" then DateIssues(f.path, data, validDate) else []) +
        OfField(DirectoryChecks(f, data, f.parsed.value.1).errors, field)
  {
    var data := f.parsed.value.0;
    var t := TitleIssues(f.path, data);
    var d := DateIssues(f.path, data, validDate);
    var rest := DirectoryChecks(f, data, f.parsed.value.1).errors;
    OfFieldAbout(t, f.path, "title", field);
    OfFieldAbout(d, f.path, "date", field);
    OfFieldConcat(t, d, field);
    OfFieldConcat(t + d, rest, field);
  }

  /** A parsed file's "title" errors come from the title rule alone: the title is
      flagged, once, exactly when it is not a string that is not blank. */
  lemma TitleRule(f: ContentFile, validDate: string -> bool)
    requires f.parsed.Ok?
    ensures var errors := OfField(CheckFile(f, validDate).errors, "title");
      |errors| <= 1 && (errors != [] <==> !FilledString(f.parsed.value.0, "title"))
  {
    ParsedField(f, validDate, "title");
    DirectoryField(f, f.parsed.value.0, f.parsed.value.1, "title");
  }

  /** A parsed file's date is flagged, once, exactly when it is not a non-empty
      string of the form YYYY-MM-DD that reads as a date. */
  lemma DateRule(f: ContentFile, validDate: string -> bool)
    requires f.parsed.Ok?
    ensures var errors := OfField(CheckFile(f, validDate).errors, "date");
      |errors| <= 1 && (errors != [] <==> !GoodDate(f.parsed.value.0, validDate))
  {
    ParsedField(f, validDate, "date");
    DirectoryField(f, f.parsed.value.0, f.parsed.value.1, "date");
  }

  /** An article's section is flagged exactly when it is not the name of the
      article's directory, a video's when it is not one of the two sections; no
      other file has a section error. */
  lemma SectionRule(f: ContentFile, validDate: string -> bool)
    requires f.parsed.Ok?
    ensures var data := f.parsed.value.0;
      var flagged := Flags(CheckFile(f, validDate).errors, "section");
      (IsArticleDir(f.dir) ==> (flagged <==> !HasValue(data, "section", f.dir))) &&
      (f.dir == "videos" ==> (flagged <==> !KnownSection(data))) &&
      (!IsArticleDir(f.dir) && f.dir != "videos" ==> !flagged)
  {
    ParsedField(f, validDate, "section");
    DirectoryField(f, f.parsed.value.0, f.parsed.value.1, "section");
  }

  /** Only a video is required to have an embed URL. */
  lemma EmbedUrlRule(f: ContentFile, validDate: string -> bool)
    requires f.parsed.Ok?
    ensures Flags(CheckFile(f, validDate).errors, "embedUrl") <==>
      f.dir == "videos" && !FilledString(f.parsed.value.0, "embedUrl")
  {
    ParsedField(f, validDate, "embedUrl");
    DirectoryField(f, f.parsed.value.0, f.parsed.value.1, "embedUrl");
  }

  /** Only a book is required to have a description; elsewhere a missing one is
      at most a warning. */
  lemma BookDescriptionRule(f: ContentFile, validDate: string -> bool)
    requires f.parsed.Ok?
    ensures Flags(CheckFile(f, validDate).errors, "description") <==>
      f.dir == "books" && !FilledString(f.parsed.value.0, "description")
  {
    ParsedField(f, validDate, "description");
    DirectoryField(f, f.parsed.value.0, f.parsed.value.1, "description");
  }

  /** A "parse" error is reported for a file that cannot be read or parsed, and for
      an article whose truthy title is not a string (slugifying it throws). */
  lemma ParseRule(f: ContentFile, validDate: string -> bool)
    ensures Flags(CheckFile(f, validDate).errors, "parse") <==>
      f.parsed.Err? ||
      (IsArticleDir(f.dir) && HasTruthy(f.parsed.value.0, "title") && !HasString(f.parsed.value.0, "title"))
  {
    if f.parsed.Ok? {
      ParsedField(f, validDate, "parse");
      DirectoryField(f, f.parsed.value.0, f.parsed.value.1, "parse");
    } else {
      OfFieldAbout([ParseIssue(f.path, f.parsed.message)], f.path, "parse", "parse");
    }
  }

  /** A file that passes every rule of its directory. */
  predicate Acceptable(f: ContentFile, validDate: string -> bool) {
    f.parsed.Ok? && PassesRules(f.dir, f.parsed.value.0, validDate)
  }

  /** The frontmatter passes the rules of the directory. */
  predicate PassesRules(dir: string, data: Frontmatter, validDate: string -> bool) {
    FilledString(data, "title") && GoodDate(data, validDate) &&
    (IsArticleDir(dir) ==> HasValue(data, "section", dir)) &&
    (dir == "videos" ==> KnownSection(data) && FilledString(data, "embedUrl")) &&
    (dir == "books" ==> FilledString(data, "description"))
  }

  /** A parsed file has no error from its directory's rules exactly when it passes
      them and slugifying its title does not throw. */
  lemma CleanDirectory(f: ContentFile, data: Frontmatter, content: string)
    ensures DirectoryChecks(f, data, content).errors == [] <==>
      (IsArticleDir(f.dir) ==> HasValue(data, "section", f.dir) && SlugNotices(f.path, f.name, data).Ok?) &&
      (f.dir == "videos" ==> KnownSection(data) && FilledString(data, "embedUrl")) &&
      (f.dir == "books" ==> FilledString(data, "description"))
  {
  }

  /** A file has no error exactly when it passes every rule; warnings never count. */
  lemma CleanFile(f: ContentFile, validDate: string -> bool)
    ensures CheckFile(f, validDate).errors == [] <==> Acceptable(f, validDate)
  {
    if f.parsed.Ok? {
      var data := f.parsed.value.0;
      var rest := DirectoryChecks(f, data, f.parsed.value.1).errors;
      CleanDirectory(f, data, f.parsed.value.1);
      var t := TitleIssues(f.path, data);
      var d := DateIssues(f.path, data, validDate);
      assert CheckFile(f, validDate).errors == t + d + rest;
      assert (t + d + rest == []) == (t == [] && d == [] && rest == []) by {
        assert |t + d + rest| == |t| + |d| + |rest|;
      }
    }
  }

  // ---------------------------------------------------------------------------
  // The run over all files

  /** The result of checking each file. */
  function Checks(files: seq<ContentFile>, validDate: string -> bool): (cs: seq<Checked>)
    ensures |cs| == |files|
    ensures forall i :: 0 <= i < |files| ==> cs[i] == CheckFile(files[i], validDate)
  {
    seq(|files|, i requires 0 <= i < |files| => CheckFile(files[i], validDate))
  }

  /** The errors of the checked files, file by file in order. */
  function Errors(cs: seq<Checked>): seq<Issue> {
    if cs == [] then [] else Errors(cs[..|cs| - 1]) + cs[|cs| - 1].errors
  }

  /** The warnings of the checked files, file by file in order. */
  function Warnings(cs: seq<Checked>): seq<Notice> {
    if cs == [] then [] else Warnings(cs[..|cs| - 1]) + cs[|cs| - 1].warnings
  }

  /** `validateContent`: checks every file, collecting errors and warnings, and
      gives the exit status, 1 exactly when there is an error. `validDate` says
      whether `new Date(s)` reads a date from `s`. */
  method ValidateContent(files: seq<ContentFile>, validDate: string -> bool)
    returns (errors: seq<Issue>, warnings: seq<Notice>, exitCode: int)
    ensures errors == Errors(Checks(files, validDate)) && warnings == Warnings(Checks(files, validDate))
    ensures exitCode == 1 <==> errors != []
    ensures exitCode == 0 || exitCode == 1
  {
    ghost var cs := Checks(files, validDate);
    errors := [];
    warnings := [];
    var i := 0;
    while i < |files|
      invariant 0 <= i <= |files|
      invariant errors == Errors(cs[..i]) && warnings == Warnings(cs[..i])
    {
      var checked := CheckFile(files[i], validDate);
      errors := errors + checked.errors;
      warnings := warnings + checked.warnings;
      assert cs[..i + 1][..i] == cs[..i];
      i := i + 1;
    }
    assert cs[..i] == cs;
    if errors == [] && warnings == [] {
      exitCode := 0;
    } else if errors == [] {
      exitCode := 0;
    } else {
      exitCode := 1;
    }
  }

  /** The run has no error exactly when no file has one. */
  lemma {:induction false} NoErrors(cs: seq<Checked>)
    ensures Errors(cs) == [] <==> forall i :: 0 <= i < |cs| ==> cs[i].errors == []
    decreases |cs|
  {
    if cs != [] {
      var init := cs[..|cs| - 1];
      NoErrors(init);
      assert forall i :: 0 <= i < |init| ==> init[i] == cs[i];
    }
  }

  /** The run has no error, and so exits with 0, exactly when every file passes
      every rule of its directory. */
  lemma NoErrorsIffAllAcceptable(files: seq<ContentFile>, validDate: string -> bool)
    ensures Errors(Checks(files, validDate)) == [] <==> forall i :: 0 <= i < |files| ==> Acceptable(files[i], validDate)
  {
    var cs := Checks(files, validDate);
    NoErrors(cs);
    forall i | 0 <= i < |files|
      ensures cs[i].errors == [] <==> Acceptable(files[i], validDate)
    {
      CleanFile(files[i], validDate);
    }
  }

  /** Every error of the run is an error of one of the files, and every error of a
      file is reported. */
  lemma {:induction false} ErrorsOfTheRun(cs: seq<Checked>, e: Issue)
    ensures e in Errors(cs) <==> exists i :: 0 <= i < |cs| && e in cs[i].errors
    decreases |cs|
  {
    if cs != [] {
      var init := cs[..|cs| - 1];
      ErrorsOfTheRun(init, e);
      assert forall i :: 0 <= i < |init| ==> init[i] == cs[i];
    }
  }
}
