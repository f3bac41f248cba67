/** The older feed parser: every `<entry>` of an Atom result becomes one
    metadata entry that keeps only the entry's primary category, which the
    parser reads before anything else. */
module LegacyFeedParser {
  import opened Outcomes
  import opened Whitespace
  import opened ArxivIds
  import opened Models
  import opened FeedFields

  /** Both dates of an entry parse. */
  predicate DatesParse(entry: FeedEntry, dates: DateParser)
  {
    dates(entry.published).Some? && dates(entry.updated).Some?
  }

  /** The entry can be parsed: it has a primary category and both its dates
      parse. */
  predicate Parses(entry: FeedEntry, dates: DateParser)
  {
    entry.primaryCategory.Some? && DatesParse(entry, dates)
  }

  /** What the entry for a feed entry holds, field by field. */
  predicate Describes(m: LegacyMetadata, entry: FeedEntry, dates: DateParser)
    requires Parses(entry, dates)
  {
    && m.paperId == ExtractId(entry.id)
    && m.paperRev == RevNumber(ExtractRev(entry.id))
    && m.paperDoi == (if entry.arxivDoi.Some? then entry.arxivDoi.value else "")
    && m.paperTitle == Collapse(entry.title)
    && m.paperDescription == Collapse(entry.summary)
    && m.paperCategory == entry.primaryCategory.value
    && m.paperAuthors == Authors(entry.authors)
    && m.paperLinks == Links(entry.links)
    && m.paperCreatedAt == dates(entry.published).value
    && m.paperUpdatedAt == dates(entry.updated).value
  }

  /** One pass of the loop body, in the order the code evaluates it: the
      primary category first (a missing one raises before any diagnostic),
      then the DOI and its diagnostic, then the two dates. */
  function EntryStep(entry: FeedEntry, dates: DateParser): (r: Logged<LegacyMetadata>)
    ensures entry.primaryCategory.Some? ==> r.1 == ExtractDoi(entry).1
    ensures entry.primaryCategory.None? ==> r == (Failure(MissingPrimaryCategory), [])
    ensures r.0.Success? <==> Parses(entry, dates)
    ensures r.0.Success? ==> Describes(r.0.value, entry, dates)
    ensures r.0.Failure? && entry.primaryCategory.Some? ==> r.0.error.InvalidDate?
  {
    match entry.primaryCategory
    case None => (Failure(MissingPrimaryCategory), [])
    case Some(category) =>
      var (doi, log) := ExtractDoi(entry);
      match ParseDate(dates, entry.published)
      case Failure(e) => (Failure(e), log)
      case Success(created) =>
        match ParseDate(dates, entry.updated)
        case Failure(e) => (Failure(e), log)
        case Success(updated) =>
          var m := LegacyMetadata(ExtractId(entry.id), RevNumber(ExtractRev(entry.id)), Collapse(entry.title),
                                  Collapse(entry.summary), category, doi, Authors(entry.authors),
                                  Links(entry.links), created, updated);
          (Success(m), log)
  }

  /** The loop body as a function of the feed entry. */
  function EntryStepOf(dates: DateParser): FeedEntry -> Logged<LegacyMetadata>
  {
    entry => EntryStep(entry, dates)
  }

  function Steps(entries: seq<FeedEntry>, dates: DateParser): (steps: seq<Logged<LegacyMetadata>>)
    ensures |steps| == |entries|
  {
    MapSeq(entries, EntryStepOf(dates))
  }

  /** `parse_body` over the entries the feed library produced: the loop
      appends one entry per feed entry and stops at the first raising one. */
  method ParseBody(entries: seq<FeedEntry>, dates: DateParser) returns (papers: Result<seq<LegacyMetadata>, ParseError>, log: seq<Diagnostic>)
    ensures (papers, log) == Collect(Steps(entries, dates))
  {
    ghost var steps := Steps(entries, dates);
    var acc: seq<LegacyMetadata> := [];
    log := [];
    for i := 0 to |entries|
      invariant Collect(steps[..i]) == (Success(acc), log)
    {
      var step := EntryStep(entries[i], dates);
      assert step == steps[i];
      CollectStep(steps, i, acc, log);
      if step.0.Failure? {
        return Failure(step.0.error), log + step.1;
      }
      acc := acc + [step.0.value];
      log := log + step.1;
    }
    assert steps[..|entries|] == steps;
    papers := Success(acc);
  }

  /** What `parse_body` yields: a result exactly when every entry has a
      primary category and parsable dates, and then one entry per feed
      entry, in document order, each describing its feed entry. */
  lemma ParseBodyMeaning(entries: seq<FeedEntry>, dates: DateParser)
    ensures var r := Collect(Steps(entries, dates)).0;
      && (r.Success? <==> forall i :: 0 <= i < |entries| ==> Parses(entries[i], dates))
      && (r.Success? ==> |r.value| == |entries| && forall i :: 0 <= i < |entries| ==> Describes(r.value[i], entries[i], dates))
      && (r.Failure? ==> r.error.InvalidDate? || r.error == MissingPrimaryCategory)
  {
    var steps := Steps(entries, dates);
    CollectMeaning(steps);
    assert forall i :: 0 <= i < |entries| ==> steps[i] == EntryStep(entries[i], dates);
  }

  /** A run that completes logs exactly one info diagnostic per entry
      without a DOI, in entry order; a missing DOI is never an error. */
  lemma {:induction false} ParseBodyLog(entries: seq<FeedEntry>, dates: DateParser)
    requires Collect(Steps(entries, dates)).0.Success?
    ensures Collect(Steps(entries, dates)).1 == MissingDoiLog(entries)
  {
    if entries != [] {
      var steps := Steps(entries, dates);
      StepsCons(entries, dates);
      CollectHead(steps);
      var first := EntryStep(entries[0], dates);
      assert first.0.Success? && first.1 == ExtractDoi(entries[0]).1;
      ParseBodyLog(entries[1..], dates);
    }
  }

  lemma StepsCons(entries: seq<FeedEntry>, dates: DateParser)
    requires entries != []
    ensures Steps(entries, dates)[0] == EntryStep(entries[0], dates)
    ensures Steps(entries, dates)[1..] == Steps(entries[1..], dates)
  {
    MapSeqCons(entries, EntryStepOf(dates));
  }

  /** An empty feed parses to no entries and logs nothing. */
  lemma ParseBodyEmpty(dates: DateParser)
    ensures Collect(Steps([], dates)) == (Success([]), [])
  {
    assert Steps([], dates) == [];
  }
}
