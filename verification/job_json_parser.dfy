/** The newer JSON parser: one metadata entry per element of `versions`, all
    sharing the creation date of the first version. As written, the entry
    constructor is called with a keyword the newer entry type does not
    declare; `ParseBodyAsWritten` models that call and the rest of the model
    uses the corrected `ParseBody`. */
module JobJsonParser {
  import opened Outcomes
  import opened Text
  import opened Whitespace
  import opened ArxivIds
  import opened Models
  import opened JsonFields

  function AuthorsOf(names: seq<string>): (au: seq<Author>)
    ensures |au| == |names| && forall k :: 0 <= k < |names| ==> au[k].name == names[k]
  {
    seq(|names|, k requires 0 <= k < |names| => Author(names[k]))
  }

  lemma AuthorsOfExample()
    ensures AuthorsOf(["Streinu Ileana", "Theran Louis"]) == [Author("Streinu Ileana"), Author("Theran Louis")]
  {
  }

  /** The authors built from parsed author entries carry the joined names. */
  lemma AuthorsOfParsed(entries: seq<seq<string>>)
    requires ParseAuthors(entries).Success?
    ensures var au := AuthorsOf(ParseAuthors(entries).value);
      && |au| == |entries|
      && forall k :: 0 <= k < |entries| ==> au[k].name == entries[k][0] + " " + entries[k][1]
  {
  }

  /** One pass of the loop body once `created` is known, in the order the
      code evaluates it: the version's date, the authors, the DOI and its
      diagnostic, then the first category token. The category goes into the
      entry as a one-element category list, the reading closest to the
      older parser's `paper_category=categories[0]`, which stores only the
      first token; keeping every token of the split would be another. */
  function VersionStep(entry: JsonEntry, v: JsonVersion, created: Instant, dates: DateParser): (r: Logged<Metadata>)
  {
    match ParseDate(dates, v.created)
    case Failure(e) => (Failure(e), [])
    case Success(updated) =>
      match ParseAuthors(entry.authorsParsed)
      case Failure(e) => (Failure(e), [])
      case Success(names) =>
        var (doi, log) := ExtractDoi(entry);
        match FirstCategory(entry.categories)
        case Failure(e) => (Failure(e), log)
        case Success(category) =>
          var m := Metadata(entry.id, ExtractRev(v.version), doi, Collapse(entry.title), Collapse(entry.summary),
                            [Category(category)], AuthorsOf(names), [], created, updated);
          (Success(m), log)
  }

  /** The loop's steps once the first version's date has parsed. */
  function VersionSteps(entry: JsonEntry, created: Instant, dates: DateParser): (steps: seq<Logged<Metadata>>)
    ensures |steps| == |entry.versions|
  {
    seq(|entry.versions|, i requires 0 <= i < |entry.versions| => VersionStep(entry, entry.versions[i], created, dates))
  }

  /** The loop's steps: none for no versions; a single raising step when the
      first version's date does not parse (the first thing the loop does);
      otherwise one step per version, all with that first date. */
  function Steps(entry: JsonEntry, dates: DateParser): seq<Logged<Metadata>>
  {
    if entry.versions == [] then []
    else
      match ParseDate(dates, entry.versions[0].created)
      case Failure(e) => [(Failure(e), [])]
      case Success(c0) => VersionSteps(entry, c0, dates)
  }

  /** `parse_body`, corrected: the local `created` is set from the first
      version only and reused, and the loop stops at the first raising step. */
  method ParseBody(entry: JsonEntry, dates: DateParser) returns (papers: Result<seq<Metadata>, ParseError>, log: seq<Diagnostic>)
    ensures (papers, log) == Collect(Steps(entry, dates))
  {
    var acc: seq<Metadata> := [];
    log := [];
    var created: Option<Instant> := None;
    for i := 0 to |entry.versions|
      invariant i == 0 <==> created.None?
      invariant created.None? ==> acc == [] && log == []
      invariant created.Some? ==> ParseDate(dates, entry.versions[0].created) == Success(created.value)
      invariant created.Some? ==> Collect(VersionSteps(entry, created.value, dates)[..i]) == (Success(acc), log)
    {
      var v := entry.versions[i];
      if created.None? {
        var c := ParseDate(dates, v.created);
        if c.Failure? {
          return Failure(c.error), log;
        }
        created := Some(c.value);
        assert VersionSteps(entry, created.value, dates)[..0] == [];
      }
      ghost var steps := VersionSteps(entry, created.value, dates);
      var step := VersionStep(entry, v, created.value, dates);
      assert step == steps[i];
      CollectStep(steps, i, acc, log);
      if step.0.Failure? {
        return Failure(step.0.error), log + step.1;
      }
      acc := acc + [step.0.value];
      log := log + step.1;
    }
    if created.Some? {
      assert VersionSteps(entry, created.value, dates)[..|entry.versions|] == VersionSteps(entry, created.value, dates);
    }
    papers := Success(acc);
  }

  /** Every version can be turned into an entry: there is none, or all
      version dates parse, every author entry has two parts, and
      `categories` has a token. */
  predicate Parses(entry: JsonEntry, dates: DateParser)
  {
    || entry.versions == []
    || (&& (forall i :: 0 <= i < |entry.versions| ==> dates(entry.versions[i].created).Some?)
        && ParseAuthors(entry.authorsParsed).Success?
        && FirstCategory(entry.categories).Success?)
  }

  /** What the entry for version i holds, field by field. */
  predicate Describes(m: Metadata, entry: JsonEntry, i: nat, dates: DateParser)
    requires i < |entry.versions| && Parses(entry, dates)
  {
    && m.paperId == entry.id
    && m.paperRev == ExtractRev(entry.versions[i].version)
    && m.paperDoi == (if entry.doi.Some? then entry.doi.value else "")
    && m.paperTitle == Collapse(entry.title)
    && m.paperDescription == Collapse(entry.summary)
    && m.paperCategories == [Category(FirstCategory(entry.categories).value)]
    && |m.paperAuthors| == |entry.authorsParsed|
    && (forall k :: 0 <= k < |entry.authorsParsed| ==>
          m.paperAuthors[k].name == entry.authorsParsed[k][0] + " " + entry.authorsParsed[k][1])
    && m.paperLinks == []
    && m.paperCreatedAt == dates(entry.versions[0].created).value
    && m.paperUpdatedAt == dates(entry.versions[i].created).value
  }

  lemma VersionStepMeaning(entry: JsonEntry, i: nat, created: Instant, dates: DateParser)
    requires i < |entry.versions|
    requires dates(entry.versions[0].created) == Some(created)
    ensures var r := VersionStep(entry, entry.versions[i], created, dates).0;
      && (r.Success? <==>
            (dates(entry.versions[i].created).Some? && ParseAuthors(entry.authorsParsed).Success? && FirstCategory(entry.categories).Success?))
      && (r.Success? && Parses(entry, dates) ==> Describes(r.value, entry, i, dates))
  {
    VersionStepSucceeds(entry, i, created, dates);
    if Parses(entry, dates) {
      VersionStepDescribes(entry, i, created, dates);
    }
  }

  lemma VersionStepSucceeds(entry: JsonEntry, i: nat, created: Instant, dates: DateParser)
    requires i < |entry.versions|
    ensures VersionStep(entry, entry.versions[i], created, dates).0.Success? <==>
      (dates(entry.versions[i].created).Some? && ParseAuthors(entry.authorsParsed).Success? && FirstCategory(entry.categories).Success?)
  {
  }

  lemma VersionStepDescribes(entry: JsonEntry, i: nat, created: Instant, dates: DateParser)
    requires i < |entry.versions|
    requires dates(entry.versions[0].created) == Some(created)
    requires Parses(entry, dates)
    ensures var r := VersionStep(entry, entry.versions[i], created, dates).0;
      r.Success? ==> Describes(r.value, entry, i, dates)
  {
  }

  /** What `parse_body` yields: no entries for no versions; otherwise a result
      exactly when every version can be turned into an entry, and then one
      entry per version, in order, as `Describes` states. */
  lemma ParseBodyMeaning(entry: JsonEntry, dates: DateParser)
    ensures entry.versions == [] ==> Collect(Steps(entry, dates)) == (Success([]), [])
    ensures var r := Collect(Steps(entry, dates)).0;
      && (r.Success? <==> Parses(entry, dates))
      && (r.Success? ==> |r.value| == |entry.versions|)
      && (r.Success? ==> forall i :: 0 <= i < |entry.versions| ==> Describes(r.value[i], entry, i, dates))
  {
    if entry.versions != [] {
      match dates(entry.versions[0].created)
      case None =>
        assert Steps(entry, dates) == [(Failure(InvalidDate(entry.versions[0].created)), [])];
        assert !Parses(entry, dates) by {
          assert dates(entry.versions[0].created).None?;
        }
      case Some(c0) =>
        var steps := VersionSteps(entry, c0, dates);
        assert Steps(entry, dates) == steps;
        CollectMeaning(steps);
        forall i | 0 <= i < |entry.versions|
          ensures steps[i].0.Success? <==>
            (dates(entry.versions[i].created).Some? && ParseAuthors(entry.authorsParsed).Success? && FirstCategory(entry.categories).Success?)
          ensures steps[i].0.Success? && Parses(entry, dates) ==> Describes(steps[i].0.value, entry, i, dates)
        {
          VersionStepMeaning(entry, i, c0, dates);
        }
    }
  }

  /** Two entries are of the same paper: they agree on everything but
      revision and update date. */
  predicate SamePaper(a: Metadata, b: Metadata)
  {
    && a.paperCreatedAt == b.paperCreatedAt
    && a.paperId == b.paperId
    && a.paperDoi == b.paperDoi
    && a.paperTitle == b.paperTitle
    && a.paperDescription == b.paperDescription
    && a.paperAuthors == b.paperAuthors
    && a.paperCategories == b.paperCategories
  }

  lemma DescribedSamePaper(a: Metadata, b: Metadata, entry: JsonEntry, i: nat, j: nat, dates: DateParser)
    requires i < |entry.versions| && j < |entry.versions| && Parses(entry, dates)
    requires Describes(a, entry, i, dates) && Describes(b, entry, j, dates)
    ensures SamePaper(a, b)
  {
    forall k | 0 <= k < |a.paperAuthors|
      ensures a.paperAuthors[k] == b.paperAuthors[k]
    {
      assert a.paperAuthors[k].name == b.paperAuthors[k].name;
    }
  }

  /** The entries of one paper all describe the same paper, with one
      creation date (the first version's) for all, so the first entry's
      creation and update dates coincide. */
  lemma EntriesShareCreated(entry: JsonEntry, dates: DateParser)
    requires Collect(Steps(entry, dates)).0.Success?
    ensures var papers := Collect(Steps(entry, dates)).0.value;
      && (forall i, j :: 0 <= i < |papers| && 0 <= j < |papers| ==> SamePaper(papers[i], papers[j]))
      && (papers != [] ==> papers[0].paperCreatedAt == papers[0].paperUpdatedAt)
  {
    var papers := Collect(Steps(entry, dates)).0.value;
    forall i, j | 0 <= i < |papers| && 0 <= j < |papers|
      ensures SamePaper(papers[i], papers[j])
    {
      ParsedEntry(entry, dates, i);
      ParsedEntry(entry, dates, j);
      DescribedSamePaper(papers[i], papers[j], entry, i, j, dates);
    }
    if papers != [] {
      ParsedEntry(entry, dates, 0);
    }
  }

  /** Entry i of a completed run describes version i. */
  lemma ParsedEntry(entry: JsonEntry, dates: DateParser, i: nat)
    requires Collect(Steps(entry, dates)).0.Success?
    requires i < |Collect(Steps(entry, dates)).0.value|
    ensures i < |entry.versions| && Parses(entry, dates)
    ensures Describes(Collect(Steps(entry, dates)).0.value[i], entry, i, dates)
  {
    ParseBodyMeaning(entry, dates);
  }

  /** A completed run logs the missing DOI once per version, and nothing
      when the DOI is present. */
  lemma ParseBodyLog(entry: JsonEntry, dates: DateParser)
    requires Collect(Steps(entry, dates)).0.Success?
    ensures var log := Collect(Steps(entry, dates)).1;
      && (entry.doi.Some? ==> log == [])
      && (entry.doi.None? ==> |log| == |entry.versions| && forall k :: 0 <= k < |log| ==> log[k] == MissingDoi(entry.id))
  {
    var steps := Steps(entry, dates);
    CollectMeaning(steps);
    var logs := seq(|steps|, i requires 0 <= i < |steps| => steps[i].1);
    if entry.versions != [] {
      ParseBodyMeaning(entry, dates);
      var c0 := dates(entry.versions[0].created).value;
      assert steps == VersionSteps(entry, c0, dates);
      forall i | 0 <= i < |logs| ensures logs[i] == ExtractDoi(entry).1 {
        assert steps[i] == VersionStep(entry, entry.versions[i], c0, dates);
      }
    }
    FlattenUniform(logs, ExtractDoi(entry).1);
  }

  /** The constructor call as written: every argument is evaluated (the same
      steps as above), then the call raises TypeError on the keyword
      `paper_category`. */
  function VersionStepAsWritten(entry: JsonEntry, v: JsonVersion, created: Instant, dates: DateParser): (r: Logged<Metadata>)
    ensures r.0.Failure?
  {
    var step := VersionStep(entry, v, created, dates);
    if step.0.Success? then (Failure(UnexpectedKeyword("paper_category")), step.1) else step
  }

  function ParseBodyAsWritten(entry: JsonEntry, dates: DateParser): Logged<seq<Metadata>>
  {
    var steps :=
      if entry.versions == [] then []
      else
        match ParseDate(dates, entry.versions[0].created)
        case Failure(e) => [(Failure(e), [])]
        case Success(c0) =>
          seq(|entry.versions|, i requires 0 <= i < |entry.versions| => VersionStepAsWritten(entry, entry.versions[i], c0, dates));
    Collect(steps)
  }

  /** As written, the parser yields nothing but an exception for any entry
      with a version, and only the empty result for an entry without one;
      where the corrected parser succeeds, the written one raises TypeError. */
  lemma AsWrittenNeverYields(entry: JsonEntry, dates: DateParser)
    ensures entry.versions == [] ==> ParseBodyAsWritten(entry, dates) == (Success([]), [])
    ensures entry.versions != [] ==> ParseBodyAsWritten(entry, dates).0.Failure?
    ensures entry.versions != [] && Parses(entry, dates) ==>
      ParseBodyAsWritten(entry, dates).0 == Failure(UnexpectedKeyword("paper_category"))
  {
    if entry.versions != [] {
      if dates(entry.versions[0].created).Some? {
        var c0 := dates(entry.versions[0].created).value;
        var first := VersionStepAsWritten(entry, entry.versions[0], c0, dates);
        var steps := seq(|entry.versions|, i requires 0 <= i < |entry.versions| => VersionStepAsWritten(entry, entry.versions[i], c0, dates));
        assert steps[0] == first;
        if Parses(entry, dates) {
          VersionStepMeaning(entry, 0, c0, dates);
        }
      }
    }
  }

  /** The paper of the second sample of the JSON tests, with one version: the
      written parser raises, the corrected one yields its entry. */
  lemma SampleEntry(dates: DateParser)
    requires dates("Sat, 31 Mar 2007 02:26:18 GMT").Some?
    ensures var entry := JsonEntry("0704.0002", "Sparsity-certifying Graph Decompositions", "",
                                   "math.CO", [["Streinu", "Ileana", ""], ["Theran", "Louis", ""]], None,
                                   [JsonVersion("v1", "Sat, 31 Mar 2007 02:26:18 GMT")]);
      && ParseBodyAsWritten(entry, dates).0 == Failure(UnexpectedKeyword("paper_category"))
      && Collect(Steps(entry, dates)).0.Success?
      && |Collect(Steps(entry, dates)).0.value| == 1
  {
    var entry := JsonEntry("0704.0002", "Sparsity-certifying Graph Decompositions", "",
                           "math.CO", [["Streinu", "Ileana", ""], ["Theran", "Louis", ""]], None,
                           [JsonVersion("v1", "Sat, 31 Mar 2007 02:26:18 GMT")]);
    ParseAuthorsExample();
    assert FirstCategory("math.CO").Success? by {
      assert !IsSpace("math.CO"[0]);
    }
    assert Parses(entry, dates);
    AsWrittenNeverYields(entry, dates);
    ParseBodyMeaning(entry, dates);
  }
}
