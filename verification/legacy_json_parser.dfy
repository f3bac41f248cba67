/** The older JSON parser: one metadata entry per element of `versions`, all
    sharing the creation date of the first version, with the revision kept
    as its label, trimmed title and abstract, and one category. */
module LegacyJsonParser {
  import opened Outcomes
  import opened Text
  import opened Whitespace
  import opened ArxivIds
  import opened Models
  import opened JsonFields
  import JobJsonParser

  /** One pass of the loop body once `created` is known, in the order the
      code evaluates it: the version's date, the authors, the DOI and its
      diagnostic, then the first category token. */
  function VersionStep(entry: JsonEntry, v: JsonVersion, created: Instant, dates: DateParser): (r: Logged<LegacyMetadata>)
  {
    match ParseDate(dates, v.created)
    case Failure(e) => (Failure(e), [])
    case Success(updated) =>
      match ParseAuthors(entry.authorsParsed)
      case Failure(e) => (Failure(e), [])
      case Success(names) =>
        var (doi, log) := ExtractDoi(entry);
        match FirstCategory(entry.categories)
        case Failure(e) => (Failure(e), log)
        case Success(category) =>
          var m := LegacyMetadata(entry.id, RevLabel(ExtractRevLabel(v.version)), CollapseAndStrip(entry.title),
                                  CollapseAndStrip(entry.summary), category, doi, JobJsonParser.AuthorsOf(names), [],
                                  created, updated);
          (Success(m), log)
  }

  /** The loop's steps once the first version's date has parsed. */
  function VersionSteps(entry: JsonEntry, created: Instant, dates: DateParser): (steps: seq<Logged<LegacyMetadata>>)
    ensures |steps| == |entry.versions|
  {
    seq(|entry.versions|, i requires 0 <= i < |entry.versions| => VersionStep(entry, entry.versions[i], created, dates))
  }

  /** The loop's steps: none for no versions; a single raising step when the
      first version's date does not parse (the first thing the loop does);
      otherwise one step per version, all with that first date. */
  function Steps(entry: JsonEntry, dates: DateParser): seq<Logged<LegacyMetadata>>
  {
    if entry.versions == [] then []
    else
      match ParseDate(dates, entry.versions[0].created)
      case Failure(e) => [(Failure(e), [])]
      case Success(c0) => VersionSteps(entry, c0, dates)
  }

  /** `parse_body`: the local `created` is set from the first
      version only and reused, and the loop stops at the first raising step. */
  method ParseBody(entry: JsonEntry, dates: DateParser) returns (papers: Result<seq<LegacyMetadata>, ParseError>, log: seq<Diagnostic>)
    ensures (papers, log) == Collect(Steps(entry, dates))
  {
    var acc: seq<LegacyMetadata> := [];
    log := [];
    var created: Option<Instant> := None;
    for i := 0 to |entry.versions|
      invariant i == 0 <==> created.None?
      invariant created.None? ==> acc == [] && log == []
      invariant created.Some? ==> ParseDate(dates, entry.versions[0].created) == Success(created.value)
      invariant created.Some? ==> Collect(VersionSteps(entry, created.value, dates)[..i]) == (Success(acc), log)
    {
      var v := entry.versions[i];
      if created.None? {
        var c := ParseDate(dates, v.created);
        if c.Failure? {
          return Failure(c.error), log;
        }
        created := Some(c.value);
        assert VersionSteps(entry, created.value, dates)[..0] == [];
      }
      ghost var steps := VersionSteps(entry, created.value, dates);
      var step := VersionStep(entry, v, created.value, dates);
      assert step == steps[i];
      CollectStep(steps, i, acc, log);
      if step.0.Failure? {
        return Failure(step.0.error), log + step.1;
      }
      acc := acc + [step.0.value];
      log := log + step.1;
    }
    if created.Some? {
      assert VersionSteps(entry, created.value, dates)[..|entry.versions|] == VersionSteps(entry, created.value, dates);
    }
    papers := Success(acc);
  }

  /** Every version can be turned into an entry: there is none, or all
      version dates parse, every author entry has two parts, and
      `categories` has a token. */
  predicate Parses(entry: JsonEntry, dates: DateParser)
  {
    || entry.versions == []
    || (&& (forall i :: 0 <= i < |entry.versions| ==> dates(entry.versions[i].created).Some?)
        && ParseAuthors(entry.authorsParsed).Success?
        && FirstCategory(entry.categories).Success?)
  }

  /** What the entry for version i holds, field by field. */
  predicate Describes(m: LegacyMetadata, entry: JsonEntry, i: nat, dates: DateParser)
    requires i < |entry.versions| && Parses(entry, dates)
  {
    && m.paperId == entry.id
    && m.paperRev == RevLabel(ExtractRevLabel(entry.versions[i].version))
    && m.paperDoi == (if entry.doi.Some? then entry.doi.value else "")
    && m.paperTitle == CollapseAndStrip(entry.title)
    && m.paperDescription == CollapseAndStrip(entry.summary)
    && m.paperCategory == FirstCategory(entry.categories).value
    && |m.paperAuthors| == |entry.authorsParsed|
    && (forall k :: 0 <= k < |entry.authorsParsed| ==>
          m.paperAuthors[k].name == entry.authorsParsed[k][0] + " " + entry.authorsParsed[k][1])
    && m.paperLinks == []
    && m.paperCreatedAt == dates(entry.versions[0].created).value
    && m.paperUpdatedAt == dates(entry.versions[i].created).value
  }

  lemma VersionStepMeaning(entry: JsonEntry, i: nat, created: Instant, dates: DateParser)
    requires i < |entry.versions|
    requires dates(entry.versions[0].created) == Some(created)
    ensures var r := VersionStep(entry, entry.versions[i], created, dates).0;
      && (r.Success? <==>
            (dates(entry.versions[i].created).Some? && ParseAuthors(entry.authorsParsed).Success? && FirstCategory(entry.categories).Success?))
      && (r.Success? && Parses(entry, dates) ==> Describes(r.value, entry, i, dates))
  {
    VersionStepSucceeds(entry, i, created, dates);
    if Parses(entry, dates) {
      VersionStepDescribes(entry, i, created, dates);
    }
  }

  lemma VersionStepSucceeds(entry: JsonEntry, i: nat, created: Instant, dates: DateParser)
    requires i < |entry.versions|
    ensures VersionStep(entry, entry.versions[i], created, dates).0.Success? <==>
      (dates(entry.versions[i].created).Some? && ParseAuthors(entry.authorsParsed).Success? && FirstCategory(entry.categories).Success?)
  {
  }

  lemma VersionStepDescribes(entry: JsonEntry, i: nat, created: Instant, dates: DateParser)
    requires i < |entry.versions|
    requires dates(entry.versions[0].created) == Some(created)
    requires Parses(entry, dates)
    ensures var r := VersionStep(entry, entry.versions[i], created, dates).0;
      r.Success? ==> Describes(r.value, entry, i, dates)
  {
    var v := entry.versions[i];
    var r := VersionStep(entry, v, created, dates).0;
    if r.Success? {
      var names := ParseAuthors(entry.authorsParsed).value;
      var m := LegacyMetadata(entry.id, RevLabel(ExtractRevLabel(v.version)), CollapseAndStrip(entry.title),
                              CollapseAndStrip(entry.summary), FirstCategory(entry.categories).value,
                              ExtractDoi(entry).0, JobJsonParser.AuthorsOf(names), [], created, dates(v.created).value);
      assert r.value == m;
      JobJsonParser.AuthorsOfParsed(entry.authorsParsed);
    }
  }

  /** What `parse_body` yields: no entries for no versions; otherwise a result
      exactly when every version can be turned into an entry, and then one
      entry per version, in order, as `Describes` states. */
  lemma ParseBodyMeaning(entry: JsonEntry, dates: DateParser)
    ensures entry.versions == [] ==> Collect(Steps(entry, dates)) == (Success([]), [])
    ensures var r := Collect(Steps(entry, dates)).0;
      && (r.Success? <==> Parses(entry, dates))
      && (r.Success? ==> |r.value| == |entry.versions|)
      && (r.Success? ==> forall i :: 0 <= i < |entry.versions| ==> Describes(r.value[i], entry, i, dates))
  {
    if entry.versions != [] {
      match dates(entry.versions[0].created)
      case None =>
        assert Steps(entry, dates) == [(Failure(InvalidDate(entry.versions[0].created)), [])];
        assert !Parses(entry, dates) by {
          assert dates(entry.versions[0].created).None?;
        }
      case Some(c0) =>
        var steps := VersionSteps(entry, c0, dates);
        assert Steps(entry, dates) == steps;
        CollectMeaning(steps);
        forall i | 0 <= i < |entry.versions|
          ensures steps[i].0.Success? <==>
            (dates(entry.versions[i].created).Some? && ParseAuthors(entry.authorsParsed).Success? && FirstCategory(entry.categories).Success?)
          ensures steps[i].0.Success? && Parses(entry, dates) ==> Describes(steps[i].0.value, entry, i, dates)
        {
          VersionStepMeaning(entry, i, c0, dates);
        }
    }
  }

  /** Two entries are of the same paper: they agree on everything but
      revision and update date. */
  predicate SamePaper(a: LegacyMetadata, b: LegacyMetadata)
  {
    && a.paperCreatedAt == b.paperCreatedAt
    && a.paperId == b.paperId
    && a.paperDoi == b.paperDoi
    && a.paperTitle == b.paperTitle
    && a.paperDescription == b.paperDescription
    && a.paperAuthors == b.paperAuthors
    && a.paperCategory == b.paperCategory
  }

  lemma DescribedSamePaper(a: LegacyMetadata, b: LegacyMetadata, entry: JsonEntry, i: nat, j: nat, dates: DateParser)
    requires i < |entry.versions| && j < |entry.versions| && Parses(entry, dates)
    requires Describes(a, entry, i, dates) && Describes(b, entry, j, dates)
    ensures SamePaper(a, b)
  {
    forall k | 0 <= k < |a.paperAuthors|
      ensures a.paperAuthors[k] == b.paperAuthors[k]
    {
      assert a.paperAuthors[k].name == b.paperAuthors[k].name;
    }
  }

  /** The entries of one paper all describe the same paper, with one
      creation date (the first version's) for all, so the first entry's
      creation and update dates coincide. */
  lemma EntriesShareCreated(entry: JsonEntry, dates: DateParser)
    requires Collect(Steps(entry, dates)).0.Success?
    ensures var papers := Collect(Steps(entry, dates)).0.value;
      && (forall i, j :: 0 <= i < |papers| && 0 <= j < |papers| ==> SamePaper(papers[i], papers[j]))
      && (papers != [] ==> papers[0].paperCreatedAt == papers[0].paperUpdatedAt)
  {
    var papers := Collect(Steps(entry, dates)).0.value;
    forall i, j | 0 <= i < |papers| && 0 <= j < |papers|
      ensures SamePaper(papers[i], papers[j])
    {
      ParsedEntry(entry, dates, i);
      ParsedEntry(entry, dates, j);
      DescribedSamePaper(papers[i], papers[j], entry, i, j, dates);
    }
    if papers != [] {
      ParsedEntry(entry, dates, 0);
    }
  }

  /** Entry i of a completed run describes version i. */
  lemma ParsedEntry(entry: JsonEntry, dates: DateParser, i: nat)
    requires Collect(Steps(entry, dates)).0.Success?
    requires i < |Collect(Steps(entry, dates)).0.value|
    ensures i < |entry.versions| && Parses(entry, dates)
    ensures Describes(Collect(Steps(entry, dates)).0.value[i], entry, i, dates)
  {
    ParseBodyMeaning(entry, dates);
  }

  /** A completed run logs the missing DOI once per version, and nothing
      when the DOI is present. */
  lemma ParseBodyLog(entry: JsonEntry, dates: DateParser)
    requires Collect(Steps(entry, dates)).0.Success?
    ensures var log := Collect(Steps(entry, dates)).1;
      && (entry.doi.Some? ==> log == [])
      && (entry.doi.None? ==> |log| == |entry.versions| && forall k :: 0 <= k < |log| ==> log[k] == MissingDoi(entry.id))
  {
    var steps := Steps(entry, dates);
    CollectMeaning(steps);
    var logs := seq(|steps|, i requires 0 <= i < |steps| => steps[i].1);
    if entry.versions != [] {
      ParseBodyMeaning(entry, dates);
      var c0 := dates(entry.versions[0].created).value;
      assert steps == VersionSteps(entry, c0, dates);
      forall i | 0 <= i < |logs| ensures logs[i] == ExtractDoi(entry).1 {
        assert steps[i] == VersionStep(entry, entry.versions[i], c0, dates);
      }
    }
    FlattenUniform(logs, ExtractDoi(entry).1);
  }

  /** With a single version whose date parses, the run is that version's step. */
  lemma OneVersion(entry: JsonEntry, dates: DateParser)
    requires |entry.versions| == 1 && dates(entry.versions[0].created).Some?
    ensures var step := VersionStep(entry, entry.versions[0], dates(entry.versions[0].created).value, dates);
      Collect(Steps(entry, dates)).0 == (if step.0.Success? then Success([step.0.value]) else Failure(step.0.error))
  {
    var steps := Steps(entry, dates);
    assert steps == VersionSteps(entry, dates(entry.versions[0].created).value, dates);
    CollectSingle(steps);
  }

  /** A version label is kept as written. */
  lemma RevLabelOfV1()
    ensures ExtractRevLabel("v1") == "v1"
  {
    assert VDigitsAt("v1", 0);
    assert FindVDigits("v1") == Some(0);
    VersionSuffix("1");
    assert "v" + "1" == "v1";
  }

  /** The second sample of the JSON tests, with any title and abstract. */
  function SampleJson(title: string, summary: string): JsonEntry
  {
    JsonEntry("0704.0002", title, summary, "math.CO",
              [["Streinu", "Ileana", ""], ["Theran", "Louis", ""]], None,
              [JsonVersion("v1", "Sat, 31 Mar 2007 02:26:18 GMT")])
  }

  /** The entry a step builds once its date, authors and category are known. */
  lemma VersionStepBuilds(entry: JsonEntry, v: JsonVersion, created: Instant, dates: DateParser,
                          updated: Instant, names: seq<string>, category: string)
    requires dates(v.created) == Some(updated)
    requires ParseAuthors(entry.authorsParsed) == Success(names)
    requires FirstCategory(entry.categories) == Success(category)
    ensures VersionStep(entry, v, created, dates).0
      == Success(LegacyMetadata(entry.id, RevLabel(ExtractRevLabel(v.version)), CollapseAndStrip(entry.title),
                                CollapseAndStrip(entry.summary), category, ExtractDoi(entry).0,
                                JobJsonParser.AuthorsOf(names), [], created, updated))
  {
  }

  lemma SampleStep(title: string, summary: string, dates: DateParser)
    requires dates("Sat, 31 Mar 2007 02:26:18 GMT").Some?
    ensures var entry, c0 := SampleJson(title, summary), dates("Sat, 31 Mar 2007 02:26:18 GMT").value;
      VersionStep(entry, entry.versions[0], c0, dates).0
        == Success(LegacyMetadata("0704.0002", RevLabel("v1"), CollapseAndStrip(title), CollapseAndStrip(summary),
                                  "math.CO", "", [Author("Streinu Ileana"), Author("Theran Louis")], [], c0, c0))
  {
    var entry := SampleJson(title, summary);
    var c0 := dates("Sat, 31 Mar 2007 02:26:18 GMT").value;
    ParseAuthorsExample();
    FirstCategoryOfToken("", "math.CO", "");
    assert "" + "math.CO" + "" == "math.CO";
    RevLabelOfV1();
    JobJsonParser.AuthorsOfExample();
    VersionStepBuilds(entry, entry.versions[0], c0, dates, c0, ["Streinu Ileana", "Theran Louis"], "math.CO");
  }

  /** The sample, with one version: revision label "v1", DOI "" for the
      null one, category "math.CO", positional names. */
  lemma SampleEntry(title: string, summary: string, dates: DateParser)
    requires dates("Sat, 31 Mar 2007 02:26:18 GMT").Some?
    ensures var r := Collect(Steps(SampleJson(title, summary), dates)).0;
      && r.Success? && |r.value| == 1
      && r.value[0].paperId == "0704.0002"
      && r.value[0].paperRev == RevLabel("v1")
      && r.value[0].paperDoi == ""
      && r.value[0].paperCategory == "math.CO"
      && r.value[0].paperAuthors == [Author("Streinu Ileana"), Author("Theran Louis")]
  {
    SampleStep(title, summary, dates);
    OneVersion(SampleJson(title, summary), dates);
  }
}
