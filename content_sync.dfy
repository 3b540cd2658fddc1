/** The frontmatter sync script: fills a missing description from the body and sets
    the date to the file's modification date, rewriting only the files it changed. */
module ContentSync {
  import opened Common
  import opened ContentText

  /** An MDX file: its parsed frontmatter, its body and its modification date as
      `YYYY-MM-DD`. */
  datatype MdxFile = MdxFile(data: Frontmatter, content: string, modified: string)

  datatype SyncOptions = SyncOptions(autoDescription: bool, updateDate: bool)

  /** The options each menu choice turns on. */
  function OptionsFor(action: string): (o: SyncOptions)
    ensures action == "all" ==> o == SyncOptions(true, true)
    ensures action == "description" ==> o == SyncOptions(true, false)
    ensures action == "date" ==> o == SyncOptions(false, true)
    ensures action == "specific" ==> o == SyncOptions(false, false)
  {
    SyncOptions(action == "all" || action == "description", action == "all" || action == "date")
  }

  /** This script's description: the chosen line trimmed and bounded to 160 characters. */
  function AutoDescription(content: string): (r: string)
    ensures |r| <= DefaultMaxLength
  {
    PlainDescription(content, DefaultMaxLength)
  }

  /** `!data.description || data.description.trim() === ""`: `Ok(true)` when the
      description is missing, falsy or blank, and the `TypeError` that `trim` raises
      on a truthy value that is not a string. */
  function DescriptionMissing(data: Frontmatter): (r: Result<bool>)
    ensures r.Err? <==> HasTruthy(data, "description") && !HasString(data, "description")
    ensures r == Ok(false) <==> HasString(data, "description") && !IsBlank(data["description"].s)
  {
    if !HasTruthy(data, "description") then Ok(true)
    else if data["description"].Str? then Ok(IsBlank(data["description"].s))
    else Err("data.description.trim is not a function")
  }

  /** The description rule applies: the option is on and the body is not blank. */
  predicate WantsDescription(f: MdxFile, opts: SyncOptions) {
    opts.autoDescription && !IsBlank(f.content)
  }

  /** The date rule applies: the option is on and the stored date is not the
      modification date (`data.date !== fileDate`). */
  predicate WantsDate(f: MdxFile, opts: SyncOptions) {
    opts.updateDate && !HasValue(f.data, "date", f.modified)
  }

  /** `syncFrontmatter`: the frontmatter to write back, `None` when no field changed
      (nothing is written), or the error the description check throws. */
  function SyncFrontmatter(f: MdxFile, opts: SyncOptions, autoDesc: string): Result<Option<Frontmatter>> {
    if WantsDescription(f, opts) && DescriptionMissing(f.data).Err? then
      Err(DescriptionMissing(f.data).message)
    else
      var describe := WantsDescription(f, opts) && DescriptionMissing(f.data) == Ok(true);
      var described := if describe then f.data["description" := Str(autoDesc)] else f.data;
      var redate := WantsDate(f, opts);
      var dated := if redate then described["date" := Str(f.modified)] else described;
      if describe || redate then Ok(Some(dated)) else Ok(None)
  }

  /** A non-blank description is never overwritten. */
  lemma KeepsDescription(f: MdxFile, opts: SyncOptions, autoDesc: string)
    requires HasString(f.data, "description") && !IsBlank(f.data["description"].s)
    ensures var r := SyncFrontmatter(f, opts, autoDesc);
      r.Ok? && (r.value.Some? ==> "description" in r.value.value && r.value.value["description"] == f.data["description"])
  {
  }

  /** The description changes only when the option is on, the body is not blank and
      the stored one is missing or blank; it then becomes the extracted one. */
  lemma FillsDescriptionOnlyWhenMissing(f: MdxFile, opts: SyncOptions, autoDesc: string)
    ensures var r := SyncFrontmatter(f, opts, autoDesc);
      r.Ok? && r.value.Some? && (("description" in f.data) != ("description" in r.value.value) ||
        ("description" in f.data && r.value.value["description"] != f.data["description"])) ==>
      WantsDescription(f, opts) && DescriptionMissing(f.data) == Ok(true) && r.value.value["description"] == Str(autoDesc)
  {
  }

  /** The date changes only when the option is on and it differs from the
      modification date; with the option on, the written date is that date. */
  lemma DateRule(f: MdxFile, opts: SyncOptions, autoDesc: string)
    ensures var r := SyncFrontmatter(f, opts, autoDesc);
      r.Ok? && r.value.Some? ==>
        (opts.updateDate ==> HasValue(r.value.value, "date", f.modified)) &&
        (!WantsDate(f, opts) ==>
          ("date" in r.value.value <==> "date" in f.data) &&
          ("date" in f.data ==> r.value.value["date"] == f.data["date"]))
  {
  }

  /** Every other field is written back as it was. */
  lemma OtherFieldsKept(f: MdxFile, opts: SyncOptions, autoDesc: string)
    ensures var r := SyncFrontmatter(f, opts, autoDesc);
      r.Ok? && r.value.Some? ==>
        forall k :: k != "description" && k != "date" ==>
          (k in r.value.value <==> k in f.data) && (k in f.data ==> r.value.value[k] == f.data[k])
  {
  }

  /** A file is written exactly when one of its fields changes, given a non-blank
      extracted description (which a non-blank body always yields). */
  lemma WrittenIffChanged(f: MdxFile, opts: SyncOptions, autoDesc: string)
    requires !IsBlank(autoDesc)
    ensures var r := SyncFrontmatter(f, opts, autoDesc);
      r.Ok? ==> (r.value.Some? <==> WantsDate(f, opts) || (WantsDescription(f, opts) && DescriptionMissing(f.data) == Ok(true)))
    ensures var r := SyncFrontmatter(f, opts, autoDesc);
      r.Ok? && r.value.Some? ==> r.value.value != f.data
  {
    var r := SyncFrontmatter(f, opts, autoDesc);
    if r.Ok? && r.value.Some? {
      var d := r.value.value;
      if WantsDate(f, opts) {
        assert HasValue(d, "date", f.modified);
      } else {
        assert d["description"] == Str(autoDesc);
      }
    }
  }

  /** "Sync specific file" turns neither option on, so the chosen file is never
      rewritten. */
  lemma SpecificNeverRewrites(f: MdxFile, autoDesc: string)
    ensures SyncFrontmatter(f, OptionsFor("specific"), autoDesc) == Ok(None)
  {
  }

  /** The options the "Sync specific file" choice evidently means: the chosen file is
      synced as "all" syncs every file. The other choices keep their options. */
  function IntendedOptionsFor(action: string): (o: SyncOptions)
    ensures action == "specific" ==> o == OptionsFor("all")
    ensures action != "specific" ==> o == OptionsFor(action)
  {
    if action == "specific" then SyncOptions(true, true) else OptionsFor(action)
  }

  /** With the intended options, a chosen file whose date is not its modification
      date is rewritten with that date. */
  lemma IntendedSpecificSyncsDate(f: MdxFile, autoDesc: string)
    requires !HasValue(f.data, "date", f.modified)
    requires !WantsDescription(f, OptionsFor("all")) || DescriptionMissing(f.data).Ok?
    ensures var r := SyncFrontmatter(f, IntendedOptionsFor("specific"), autoDesc);
      r.Ok? && r.value.Some? && HasValue(r.value.value, "date", f.modified)
  {
  }

  // ---------------------------------------------------------------------------
  // The loop over all files

  /** The result for one file, with the description as `describe` extracts it. */
  function Outcome(f: MdxFile, opts: SyncOptions, describe: string -> string): Result<Option<Frontmatter>> {
    SyncFrontmatter(f, opts, describe(f.content))
  }

  /** The file after its sync produced `r`: the new frontmatter when one was written. */
  function Rewritten(f: MdxFile, r: Result<Option<Frontmatter>>): (g: MdxFile)
    ensures g.content == f.content && g.modified == f.modified
    ensures r.Ok? && r.value.Some? ==> g.data == r.value.value
    ensures !(r.Ok? && r.value.Some?) ==> g == f
  {
    if r.Ok? && r.value.Some? then f.(data := r.value.value) else f
  }

  /** The index of the first file whose sync throws, `|files|` when none does; the
      loop stops there. */
  function FirstFailure(files: seq<MdxFile>, sync: MdxFile -> Result<Option<Frontmatter>>): (k: nat)
    ensures k <= |files|
    ensures k < |files| ==> sync(files[k]).Err?
    ensures forall j :: 0 <= j < k ==> sync(files[j]).Ok?
  {
    if files == [] then 0
    else if sync(files[0]).Err? then 0
    else
      var k := FirstFailure(files[1..], sync);
      assert forall j :: 1 <= j < k + 1 ==> files[j] == files[1..][j - 1];
      k + 1
  }

  /** The number of files among `files` whose sync writes them. */
  function CountWritten(files: seq<MdxFile>, sync: MdxFile -> Result<Option<Frontmatter>>): (n: nat)
    ensures n <= |files|
  {
    if files == [] then 0
    else
      var last := sync(files[|files| - 1]);
      CountWritten(files[..|files| - 1], sync) + if last.Ok? && last.value.Some? then 1 else 0
  }

  /** The loop of `syncAllContent`, given each file's sync: every file up to the first
      failure is synced and counted when written; a failure ends the run with its
      message, leaving the remaining files untouched. */
  method SyncEach(files: seq<MdxFile>, sync: MdxFile -> Result<Option<Frontmatter>>)
    returns (after: seq<MdxFile>, synced: nat, failure: Option<string>)
    ensures var n := FirstFailure(files, sync);
      |after| == |files| &&
      (failure.Some? <==> n < |files|) &&
      (failure.Some? ==> failure.value == sync(files[n]).message) &&
      (forall i :: 0 <= i < n ==> after[i] == Rewritten(files[i], sync(files[i]))) &&
      (forall i :: n <= i < |files| ==> after[i] == files[i]) &&
      synced == CountWritten(files[..n], sync)
  {
    after := [];
    synced := 0;
    var i := 0;
    while i < |files|
      invariant 0 <= i <= |files| && i <= FirstFailure(files, sync)
      invariant |after| == i
      invariant forall j :: 0 <= j < i ==> after[j] == Rewritten(files[j], sync(files[j]))
      invariant synced == CountWritten(files[..i], sync)
    {
      var r := sync(files[i]);
      if r.Err? {
        assert FirstFailure(files, sync) == i;
        failure := Some(r.message);
        var rest := files[i..];
        after := after + rest;
        forall j | i <= j < |files|
          ensures after[j] == files[j]
        {
          assert after[j] == rest[j - i];
        }
        return;
      }
      CountStep(files, i, sync);
      if r.value.Some? {
        synced := synced + 1;
      }
      after := after + [Rewritten(files[i], r)];
      i := i + 1;
    }
    assert files[..i] == files;
    failure := None;
  }

  lemma CountStep(files: seq<MdxFile>, i: nat, sync: MdxFile -> Result<Option<Frontmatter>>)
    requires i < |files|
    ensures var r := sync(files[i]);
      CountWritten(files[..i + 1], sync) == CountWritten(files[..i], sync) + if r.Ok? && r.value.Some? then 1 else 0
  {
    assert files[..i + 1][..i] == files[..i];
    assert files[..i + 1][i] == files[i];
  }

  /** The sync of one file with fixed options and description extractor. */
  function Syncer(opts: SyncOptions, describe: string -> string): MdxFile -> Result<Option<Frontmatter>> {
    f => Outcome(f, opts, describe)
  }

  /** The loop of `syncAllContent`: every file synced with the same options, its
      description extracted by `describe`. */
  method SyncAll(files: seq<MdxFile>, opts: SyncOptions, describe: string -> string)
    returns (after: seq<MdxFile>, synced: nat, failure: Option<string>)
    ensures var sync := Syncer(opts, describe);
      var n := FirstFailure(files, sync);
      |after| == |files| &&
      (failure.Some? <==> n < |files|) &&
      (failure.Some? ==> failure.value == Outcome(files[n], opts, describe).message) &&
      (forall i :: 0 <= i < n ==> after[i] == Rewritten(files[i], Outcome(files[i], opts, describe))) &&
      (forall i :: n <= i < |files| ==> after[i] == files[i]) &&
      synced == CountWritten(files[..n], sync)
  {
    after, synced, failure := SyncEach(files, Syncer(opts, describe));
  }

  /** `syncAllContent` after the menu: a cancelled choice ("") syncs nothing;
      otherwise the files are synced with the options of the choice and this
      script's description. With "specific" the chosen file is left as it is. */
  method SyncAllContent(action: string, files: seq<MdxFile>)
    returns (after: seq<MdxFile>, synced: nat, failure: Option<string>)
    ensures action == "" ==> after == files && synced == 0 && failure == None
    ensures action != "" ==>
      var sync := Syncer(OptionsFor(action), AutoDescription);
      var n := FirstFailure(files, sync);
      |after| == |files| &&
      (failure.Some? <==> n < |files|) &&
      (failure.Some? ==> failure.value == sync(files[n]).message) &&
      (forall i :: 0 <= i < n ==> after[i] == Rewritten(files[i], sync(files[i]))) &&
      (forall i :: n <= i < |files| ==> after[i] == files[i]) &&
      synced == CountWritten(files[..n], sync)
    ensures action == "specific" ==> after == files && synced == 0 && failure == None
  {
    if action == "" {
      return files, 0, None;
    }
    after, synced, failure := SyncAll(files, OptionsFor(action), AutoDescription);
    if action == "specific" {
      SpecificCountsNothing(files, AutoDescription);
      assert files[..|files|] == files;
    }
  }

  /** With "specific", no file is written and none is counted. */
  lemma {:induction false} SpecificCountsNothing(files: seq<MdxFile>, describe: string -> string)
    ensures var sync := Syncer(OptionsFor("specific"), describe);
      FirstFailure(files, sync) == |files| && CountWritten(files, sync) == 0 &&
      forall i :: 0 <= i < |files| ==> Rewritten(files[i], sync(files[i])) == files[i]
    decreases |files|
  {
    var sync := Syncer(OptionsFor("specific"), describe);
    if files != [] {
      SpecificCountsNothing(files[1..], describe);
      SpecificCountsNothing(files[..|files| - 1], describe);
      SpecificNeverRewrites(files[0], describe(files[0].content));
      SpecificNeverRewrites(files[|files| - 1], describe(files[|files| - 1].content));
      forall i | 0 <= i < |files|
        ensures Rewritten(files[i], sync(files[i])) == files[i]
      {
        SpecificNeverRewrites(files[i], describe(files[i].content));
      }
    }
  }
}
