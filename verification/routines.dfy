/** `MetadataRoutine`: an ordered list of metadata sources, a lookup that
    stops at the first source with something to say, and the run that sends
    the records of each paper file found to the output. */
module Routines {
  import opened Outcomes
  import opened Models
  import opened FeedFields
  import opened JsonFields
  import opened MetadataSources
  import opened Records
  import ArxivRecords
  import Files

  /** A lookup result the loop stops at: a non-empty list, or an exception,
      which ends the loop as well. */
  predicate Stops(r: Result<seq<Metadata>, ParseError>)
  {
    r.Failure? || |r.value| > 0
  }

  /** A lookup result with more diagnostics logged before it. */
  function Prepend(log: seq<Diagnostic>, r: Logged<seq<Metadata>>): Logged<seq<Metadata>>
  {
    (r.0, log + r.1)
  }

  lemma PrependTwice(a: seq<Diagnostic>, b: seq<Diagnostic>, r: Logged<seq<Metadata>>)
    ensures Prepend(a, Prepend(b, r)) == Prepend(a + b, r)
  {
    assert a + (b + r.1) == a + b + r.1;
  }

  lemma PrependNothing(r: Logged<seq<Metadata>>)
    ensures Prepend([], r) == r
  {
    assert [] + r.1 == r.1;
  }

  /** `_get_metadata_records` over a list of sources. */
  function Resolve(sources: seq<Source>, paperId: string, dates: DateParser): Logged<seq<Metadata>>
  {
    if sources == [] then (Success([]), [])
    else if Stops(Query(sources[0], paperId, dates).0) then Query(sources[0], paperId, dates)
    else Prepend(Query(sources[0], paperId, dates).1, Resolve(sources[1..], paperId, dates))
  }

  /** `_get_metadata_records` with the file sources as written. */
  function ResolveAsWritten(sources: seq<Source>, paperId: string, dates: DateParser): Logged<seq<Metadata>>
  {
    if sources == [] then (Success([]), [])
    else if Stops(QueryAsWritten(sources[0], paperId, dates).0) then QueryAsWritten(sources[0], paperId, dates)
    else Prepend(QueryAsWritten(sources[0], paperId, dates).1, ResolveAsWritten(sources[1..], paperId, dates))
  }

  /** As written, a lookup that reaches a file source holding the id with a
      version raises: the TypeError of the newer JSON `parse_body` whenever
      the corrected parser would have yielded entries, so `run` ends there. */
  lemma {:induction false} ResolveAsWrittenRaises(sources: seq<Source>, k: nat, paperId: string, dates: DateParser)
    requires k < |sources| && sources[k].FileSource?
    requires paperId in sources[k].file.entries && sources[k].file.entries[paperId].versions != []
    requires forall j :: 0 <= j < k ==> QueryAsWritten(sources[j], paperId, dates).0 == Success([])
    ensures ResolveAsWritten(sources, paperId, dates).0.Failure?
    ensures JobJsonParser.Parses(sources[k].file.entries[paperId], dates) ==>
      ResolveAsWritten(sources, paperId, dates).0 == Failure(UnexpectedKeyword("paper_category"))
  {
    if k == 0 {
      FileLookupAsWrittenRaises(sources[0].file.entries, paperId, dates);
    } else {
      assert QueryAsWritten(sources[0], paperId, dates).0 == Success([]);
      forall j | 0 <= j < k - 1
        ensures QueryAsWritten(sources[1..][j], paperId, dates).0 == Success([])
      {
        assert sources[1..][j] == sources[j + 1];
      }
      ResolveAsWrittenRaises(sources[1..], k - 1, paperId, dates);
    }
  }

  /** How many sources a lookup queries. */
  function Consulted(sources: seq<Source>, paperId: string, dates: DateParser): (n: nat)
    ensures n <= |sources|
    ensures sources != [] ==> n > 0
  {
    if sources == [] then 0
    else if Stops(Query(sources[0], paperId, dates).0) then 1
    else 1 + Consulted(sources[1..], paperId, dates)
  }

  /** The indices 0 .. n - 1, in order. */
  function Upto(n: nat): (r: seq<nat>)
    ensures |r| == n && forall k :: 0 <= k < n ==> r[k] == k
  {
    seq(n, k requires 0 <= k < n => k)
  }

  /** Every source queried before the last one queried returned `[]`. */
  lemma {:induction false} ConsultedBeforeEmpty(sources: seq<Source>, paperId: string, dates: DateParser)
    ensures forall k :: 0 <= k < Consulted(sources, paperId, dates) - 1 ==> Query(sources[k], paperId, dates).0 == Success([])
  {
    if sources != [] && !Stops(Query(sources[0], paperId, dates).0) {
      var n := Consulted(sources, paperId, dates);
      ConsultedBeforeEmpty(sources[1..], paperId, dates);
      forall k | 0 <= k < n - 1
        ensures Query(sources[k], paperId, dates).0 == Success([])
      {
        if k > 0 {
          assert sources[k] == sources[1..][k - 1];
        } else {
          assert Query(sources[0], paperId, dates).0.value == [];
        }
      }
    }
  }

  /** The lookup stops early only at a source that returned something or
      raised: sources after that one are never queried. */
  lemma {:induction false} ConsultedStopsAtHit(sources: seq<Source>, paperId: string, dates: DateParser)
    ensures var n := Consulted(sources, paperId, dates);
      n < |sources| ==> Stops(Query(sources[n - 1], paperId, dates).0)
  {
    if sources != [] && !Stops(Query(sources[0], paperId, dates).0) {
      ConsultedStopsAtHit(sources[1..], paperId, dates);
      var n := Consulted(sources[1..], paperId, dates);
      if n < |sources[1..]| {
        assert sources[1..][n - 1] == sources[n];
      }
    }
  }

  /** The result is that of the last source queried, or `[]` when there are
      no sources. */
  lemma {:induction false} ResolveResult(sources: seq<Source>, paperId: string, dates: DateParser)
    ensures var n := Consulted(sources, paperId, dates);
      Resolve(sources, paperId, dates).0 == if n == 0 then Success([]) else Query(sources[n - 1], paperId, dates).0
  {
    if sources != [] && !Stops(Query(sources[0], paperId, dates).0) {
      ResolveResult(sources[1..], paperId, dates);
      var n := Consulted(sources[1..], paperId, dates);
      if n == 0 {
        assert Query(sources[0], paperId, dates).0.value == [];
      } else {
        assert sources[1..][n - 1] == sources[n];
      }
    }
  }

  /** When every source returns `[]`, and when there are none, the lookup
      asks every source and returns `[]`. */
  lemma {:induction false} ResolveAllEmpty(sources: seq<Source>, paperId: string, dates: DateParser)
    requires forall k :: 0 <= k < |sources| ==> Query(sources[k], paperId, dates).0 == Success([])
    ensures Resolve(sources, paperId, dates).0 == Success([])
    ensures Consulted(sources, paperId, dates) == |sources|
  {
    if sources != [] {
      assert Query(sources[0], paperId, dates).0 == Success([]);
      forall k | 0 <= k < |sources| - 1
        ensures Query(sources[1..][k], paperId, dates).0 == Success([])
      {
        assert sources[1..][k] == sources[k + 1];
      }
      ResolveAllEmpty(sources[1..], paperId, dates);
    }
  }

  /** Sources after one that stops the lookup change nothing. */
  lemma {:induction false} ResolveIgnoresLater(sources: seq<Source>, more: seq<Source>, k: nat, paperId: string, dates: DateParser)
    requires k < |sources| && Stops(Query(sources[k], paperId, dates).0)
    ensures Resolve(sources + more, paperId, dates) == Resolve(sources, paperId, dates)
    ensures Consulted(sources + more, paperId, dates) == Consulted(sources, paperId, dates)
  {
    var all := sources + more;
    assert all != [] && all[0] == sources[0];
    var q := Query(sources[0], paperId, dates);
    if !Stops(q.0) {
      assert sources[1..][k - 1] == sources[k];
      assert all[1..] == sources[1..] + more;
      ResolveIgnoresLater(sources[1..], more, k - 1, paperId, dates);
      assert Resolve(all, paperId, dates) == Prepend(q.1, Resolve(all[1..], paperId, dates));
      assert Resolve(sources, paperId, dates) == Prepend(q.1, Resolve(sources[1..], paperId, dates));
    }
  }

  /** What a run does with one paper file. */
  datatype PathOutcome =
    | Skipped(fileName: string)
    | Dispatched(fileName: string, payloads: seq<PaperMetadata<nat>>)

  /** The `paper_metadata` of each record, in order. */
  function Payloads(records: seq<Metadata>): (ps: seq<PaperMetadata<nat>>)
    ensures |ps| == |records|
    ensures forall i :: 0 <= i < |records| ==> ps[i] == ArxivRecords.PaperMetadataOf(records[i])
  {
    seq(|records|, i requires 0 <= i < |records| => ArxivRecords.PaperMetadataOf(records[i]))
  }

  /** One pass of the run loop for a file path: look the file name up; skip
      with a warning on `[]`; otherwise dispatch the records. */
  function PathStep(sources: seq<Source>, path: string, dates: DateParser): Logged<PathOutcome>
  {
    var name := Files.GetFileName(path);
    var (r, log) := Resolve(sources, name, dates);
    match r
    case Failure(e) => (Failure(e), log)
    case Success(records) =>
      if records == [] then (Success(Skipped(name)), log + [MetadataNotFound(name)])
      else (Success(Dispatched(name, Payloads(records))), log)
  }

  function RunSteps(sources: seq<Source>, paths: seq<string>, dates: DateParser): (steps: seq<Logged<PathOutcome>>)
    ensures |steps| == |paths|
  {
    seq(|paths|, i requires 0 <= i < |paths| => PathStep(sources, paths[i], dates))
  }

  class MetadataRoutine {
    var sources: seq<Source>

    /** `__init__`: no sources yet. The file iterator and the output
        controller are not part of this model. */
    constructor()
      ensures sources == []
    {
      sources := [];
    }

    /** `add_sources`, with `handlers` for `init_handler_cls`: one source per
        URL, appended in URL order after the existing ones; the first URL
        whose source cannot be initialised ends the call with its error,
        the sources of the URLs before it staying appended. */
    method AddSources(urls: seq<Url>, handlers: Url -> HandlerKind, readItems: string -> seq<JsonEntry>,
                      request: string -> Option<seq<FeedEntry>>) returns (err: Option<InitError>)
      modifies this
      ensures |old(sources)| <= |sources| <= |old(sources)| + |urls|
      ensures sources[..|old(sources)|] == old(sources)
      ensures var added := |sources| - |old(sources)|;
        forall k :: 0 <= k < added ==>
          && SelectSource(urls[k], handlers(urls[k])).Success?
          && Builds(sources[|old(sources)| + k], SelectSource(urls[k], handlers(urls[k])).value, readItems, request)
      ensures err.None? <==> |sources| == |old(sources)| + |urls|
      ensures err.Some? ==>
        var k := |sources| - |old(sources)|;
        k < |urls| && SelectSource(urls[k], handlers(urls[k])) == Failure(err.value)
    {
      err := None;
      for i := 0 to |urls|
        invariant |sources| == |old(sources)| + i
        invariant sources[..|old(sources)|] == old(sources)
        invariant forall k :: 0 <= k < i ==>
          && SelectSource(urls[k], handlers(urls[k])).Success?
          && Builds(sources[|old(sources)| + k], SelectSource(urls[k], handlers(urls[k])).value, readItems, request)
      {
        var source := InitSource(urls[i], handlers(urls[i]), readItems, request);
        if source.Failure? {
          return Some(source.error);
        }
        sources := sources + [source.value];
      }
    }

    /** `_get_metadata_records`: `queried` records the index of each source
        asked, in the order asked. */
    method GetMetadataRecords(paperId: string, dates: DateParser)
      returns (records: Result<seq<Metadata>, ParseError>, log: seq<Diagnostic>, ghost queried: seq<nat>)
      ensures (records, log) == Resolve(sources, paperId, dates)
      ensures queried == Upto(Consulted(sources, paperId, dates))
    {
      records, log, queried := Success([]), [], [];
      assert sources[0..] == sources;
      PrependNothing(Resolve(sources, paperId, dates));
      var i := 0;
      while i < |sources|
        invariant 0 <= i <= |sources|
        invariant records == Success([]) && queried == Upto(i)
        invariant Resolve(sources, paperId, dates) == Prepend(log, Resolve(sources[i..], paperId, dates))
        invariant Consulted(sources, paperId, dates) == i + Consulted(sources[i..], paperId, dates)
      {
        var r, l := QuerySource(sources[i], paperId, dates);
        queried := queried + [i];
        assert sources[i..][0] == sources[i] && sources[i..][1..] == sources[i + 1..];
        if Stops(r) {
          records, log := r, log + l;
          return;
        }
        PrependTwice(log, l, Resolve(sources[i + 1..], paperId, dates));
        log := log + l;
        i := i + 1;
      }
      assert log + [] == log;
    }

    /** `run` over the paths the file iterator yields: one outcome per path,
        in order; a lookup that raises ends the run. */
    method Run(paths: seq<string>, dates: DateParser) returns (outcomes: Result<seq<PathOutcome>, ParseError>, log: seq<Diagnostic>)
      ensures (outcomes, log) == Collect(RunSteps(sources, paths, dates))
    {
      ghost var steps := RunSteps(sources, paths, dates);
      var acc: seq<PathOutcome> := [];
      log := [];
      for i := 0 to |paths|
        invariant Collect(steps[..i]) == (Success(acc), log)
      {
        var name := Files.GetFileName(paths[i]);
        var records, l, _ := GetMetadataRecords(name, dates);
        var step: Logged<PathOutcome>;
        if records.Failure? {
          step := (Failure(records.error), l);
        } else if records.value == [] {
          step := (Success(Skipped(name)), l + [MetadataNotFound(name)]);
        } else {
          step := (Success(Dispatched(name, Payloads(records.value))), l);
        }
        assert step == steps[i];
        CollectStep(steps, i, acc, log);
        if step.0.Failure? {
          return Failure(step.0.error), log + step.1;
        }
        acc := acc + [step.0.value];
        log := log + step.1;
      }
      assert steps[..|paths|] == steps;
      outcomes := Success(acc);
    }
  }

  /** A completed run skips exactly the files no source knows, warning about
      each, and dispatches for every other file the `paper_metadata` of each
      record the lookup found, every payload keyed by its record. */
  lemma RunMeaning(sources: seq<Source>, paths: seq<string>, dates: DateParser)
    requires Collect(RunSteps(sources, paths, dates)).0.Success?
    ensures var out := Collect(RunSteps(sources, paths, dates)).0.value;
      && |out| == |paths|
      && forall i :: 0 <= i < |paths| ==>
        var name := Files.GetFileName(paths[i]);
        var r := Resolve(sources, name, dates).0;
        && r.Success?
        && (out[i].Skipped? <==> r.value == [])
        && out[i].fileName == name
        && (out[i].Dispatched? ==> out[i].payloads == Payloads(r.value))
  {
    var steps := RunSteps(sources, paths, dates);
    CollectMeaning(steps);
    assert forall i :: 0 <= i < |paths| ==> steps[i] == PathStep(sources, paths[i], dates);
  }

  /** Every dispatched payload carries one key across its records. */
  lemma DispatchedKeyed(records: seq<Metadata>)
    ensures forall i :: 0 <= i < |records| ==>
      Keyed(Payloads(records)[i]) && Payloads(records)[i].paper.arxivId == records[i].paperId
  {
  }
}
