/** The metadata sources a routine consults: the JSON file source with its
    id table, the export-API source, and `init_source_cls`, which picks the
    kind of source from the scheme of a URL. */
module MetadataSources {
  import opened Outcomes
  import opened Models
  import opened FeedFields
  import opened JsonFields
  import JobFeedParser
  import JobJsonParser

  /** The table `_build_metadata_file` builds: each item under its `id`, a
      later item replacing an earlier one with the same `id`. */
  function Table(items: seq<JsonEntry>): (t: map<string, JsonEntry>)
    ensures forall id :: id in t <==> exists i :: 0 <= i < |items| && items[i].id == id
  {
    if items == [] then map[]
    else Table(items[..|items| - 1])[items[|items| - 1].id := items[|items| - 1]]
  }

  /** An item no later item shares its `id` with is the one stored. */
  lemma {:induction false} TableLaterWins(items: seq<JsonEntry>, i: nat)
    requires i < |items|
    requires forall j :: i < j < |items| ==> items[j].id != items[i].id
    ensures items[i].id in Table(items) && Table(items)[items[i].id] == items[i]
  {
    var n := |items| - 1;
    var prefix := items[..n];
    assert Table(items) == Table(prefix)[items[n].id := items[n]];
    if i < n {
      assert prefix[i] == items[i];
      assert items[n].id != items[i].id;
      forall j | i < j < n
        ensures prefix[j].id != prefix[i].id
      {
        assert prefix[j] == items[j];
      }
      TableLaterWins(prefix, i);
    }
  }

  /** What a lookup in the file source yields: `[]` and an error diagnostic
      for an id not in the table, otherwise `parse_body` of the stored item. */
  function FileLookup(entries: map<string, JsonEntry>, paperId: string, dates: DateParser): Logged<seq<Metadata>>
  {
    if paperId in entries then Collect(JobJsonParser.Steps(entries[paperId], dates))
    else (Success([]), [NotInMetadataFile(paperId)])
  }

  /** The lookup as written: a known id is handed to the newer JSON
      `parse_body` as written, and nothing around the call catches what it
      raises. */
  function FileLookupAsWritten(entries: map<string, JsonEntry>, paperId: string, dates: DateParser): Logged<seq<Metadata>>
  {
    if paperId in entries then JobJsonParser.ParseBodyAsWritten(entries[paperId], dates)
    else (Success([]), [NotInMetadataFile(paperId)])
  }

  /** As written, looking up a known id whose item has a version raises,
      and raises TypeError on `paper_category` whenever the corrected parser
      would have yielded entries; an unknown id behaves as in the corrected
      lookup. */
  lemma FileLookupAsWrittenRaises(entries: map<string, JsonEntry>, paperId: string, dates: DateParser)
    ensures paperId !in entries ==> FileLookupAsWritten(entries, paperId, dates) == FileLookup(entries, paperId, dates)
    ensures paperId in entries && entries[paperId].versions != [] ==>
      FileLookupAsWritten(entries, paperId, dates).0.Failure?
    ensures paperId in entries && entries[paperId].versions != [] && JobJsonParser.Parses(entries[paperId], dates) ==>
      FileLookupAsWritten(entries, paperId, dates).0 == Failure(UnexpectedKeyword("paper_category"))
  {
    if paperId in entries {
      JobJsonParser.AsWrittenNeverYields(entries[paperId], dates);
    }
  }

  /** `JSONMetadataSource`: the items of the metadata file, read once by
      the handler, kept as the id table. */
  class JsonMetadataSource {
    const entries: map<string, JsonEntry>

    /** `__init__`, with `handler.read_items(file_path)` given as `items`. */
    constructor(items: seq<JsonEntry>)
      ensures entries == Table(items)
    {
      var t: map<string, JsonEntry> := map[];
      for i := 0 to |items|
        invariant t == Table(items[..i])
      {
        assert items[..i + 1][..i] == items[..i];
        t := t[items[i].id := items[i]];
      }
      assert items[..|items|] == items;
      entries := t;
    }

    /** `get_metadata`: a read-only lookup in the table. */
    method GetMetadata(paperId: string, dates: DateParser) returns (papers: Result<seq<Metadata>, ParseError>, log: seq<Diagnostic>)
      ensures (papers, log) == FileLookup(entries, paperId, dates)
    {
      if paperId in entries {
        papers, log := JobJsonParser.ParseBody(entries[paperId], dates);
      } else {
        papers, log := Success([]), [NotInMetadataFile(paperId)];
      }
    }
  }

  /** A lookup never raises for an unknown id; for a known one it yields
      what `parse_body` yields for its item: one entry per version when the
      item parses. */
  lemma FileLookupMeaning(entries: map<string, JsonEntry>, paperId: string, dates: DateParser)
    ensures paperId !in entries ==> FileLookup(entries, paperId, dates) == (Success([]), [NotInMetadataFile(paperId)])
    ensures paperId in entries ==>
      var e := entries[paperId];
      var r := FileLookup(entries, paperId, dates).0;
      && (r.Success? <==> JobJsonParser.Parses(e, dates))
      && (r.Success? ==> |r.value| == |e.versions|)
      && (r.Success? ==> forall i :: 0 <= i < |e.versions| ==> JobJsonParser.Describes(r.value[i], e, i, dates))
  {
    if paperId in entries {
      JobJsonParser.ParseBodyMeaning(entries[paperId], dates);
    }
  }

  /** Reading a file and looking up an id: an id no item has is not found;
      otherwise the last item with that id is parsed. */
  lemma LookupAfterRead(items: seq<JsonEntry>, paperId: string, dates: DateParser)
    ensures (forall j :: 0 <= j < |items| ==> items[j].id != paperId) ==>
      FileLookup(Table(items), paperId, dates) == (Success([]), [NotInMetadataFile(paperId)])
    ensures forall i :: 0 <= i < |items| && items[i].id == paperId && (forall j :: i < j < |items| ==> items[j].id != paperId) ==>
      FileLookup(Table(items), paperId, dates) == Collect(JobJsonParser.Steps(items[i], dates))
  {
    forall i | 0 <= i < |items| && items[i].id == paperId && (forall j :: i < j < |items| ==> items[j].id != paperId)
      ensures FileLookup(Table(items), paperId, dates) == Collect(JobJsonParser.Steps(items[i], dates))
    {
      TableLaterWins(items, i);
    }
  }

  /** What a lookup in the export-API source yields: `[]` and an error
      diagnostic when the request fails to connect, otherwise `parse_body`
      of the feed it returned. */
  function ApiLookup(request: string -> Option<seq<FeedEntry>>, paperId: string, dates: DateParser): Logged<seq<Metadata>>
  {
    match request(paperId)
    case None => (Success([]), [NotInExportApi(paperId)])
    case Some(entries) => Collect(JobFeedParser.Steps(entries, dates))
  }

  /** `ApiMetadataSource`: `api.request_paper` followed by the feed library
      is the given `request`, which yields None where the call raises
      ConnectionError. */
  class ApiMetadataSource {
    const request: string -> Option<seq<FeedEntry>>

    constructor(request: string -> Option<seq<FeedEntry>>)
      ensures this.request == request
    {
      this.request := request;
    }

    /** `get_metadata`. */
    method GetMetadata(paperId: string, dates: DateParser) returns (papers: Result<seq<Metadata>, ParseError>, log: seq<Diagnostic>)
      ensures (papers, log) == ApiLookup(request, paperId, dates)
    {
      var feed := request(paperId);
      if feed.Some? {
        papers, log := JobFeedParser.ParseBody(feed.value, dates);
      } else {
        papers, log := Success([]), [NotInExportApi(paperId)];
      }
    }
  }

  /** A failed connection is an empty result, never an error; a feed yields
      one entry per feed entry when its dates parse. */
  lemma ApiLookupMeaning(request: string -> Option<seq<FeedEntry>>, paperId: string, dates: DateParser)
    ensures request(paperId).None? ==> ApiLookup(request, paperId, dates) == (Success([]), [NotInExportApi(paperId)])
    ensures request(paperId).Some? ==>
      var entries := request(paperId).value;
      var r := ApiLookup(request, paperId, dates).0;
      && (r.Success? <==> forall i :: 0 <= i < |entries| ==> JobFeedParser.DatesParse(entries[i], dates))
      && (r.Success? ==> |r.value| == |entries|)
  {
    if request(paperId).Some? {
      JobFeedParser.ParseBodyMeaning(request(paperId).value, dates);
    }
  }

  /** A source of either kind. */
  datatype Source = FileSource(file: JsonMetadataSource) | ApiSource(api: ApiMetadataSource)

  /** What `source.get_metadata(paper_id)` yields. */
  function Query(s: Source, paperId: string, dates: DateParser): Logged<seq<Metadata>>
  {
    match s
    case FileSource(f) => FileLookup(f.entries, paperId, dates)
    case ApiSource(a) => ApiLookup(a.request, paperId, dates)
  }

  /** `source.get_metadata(paper_id)` with the file source as written. */
  function QueryAsWritten(s: Source, paperId: string, dates: DateParser): Logged<seq<Metadata>>
  {
    match s
    case FileSource(f) => FileLookupAsWritten(f.entries, paperId, dates)
    case ApiSource(a) => ApiLookup(a.request, paperId, dates)
  }

  method QuerySource(s: Source, paperId: string, dates: DateParser) returns (papers: Result<seq<Metadata>, ParseError>, log: seq<Diagnostic>)
    ensures (papers, log) == Query(s, paperId, dates)
  {
    match s
    case FileSource(f) =>
      papers, log := f.GetMetadata(paperId, dates);
    case ApiSource(a) =>
      papers, log := a.GetMetadata(paperId, dates);
  }

  /** A URL as `urlparse` splits it, reduced to the two parts used. */
  datatype Url = Url(scheme: string, path: string)

  /** The class of the handler `init_handler_cls` built for a URL. */
  datatype HandlerKind = JsonFileHandler | ArxivApiHandler | OtherHandler

  /** The two rows of `SOURCE_TYPE_MAPPINGS`; the file row carries the
      `file_path` keyword argument. Each source kind comes with its parser:
      the JSON parser for the file, the feed parser for the API. */
  datatype SourceKind = FileKind(filePath: string) | ApiKind

  /** `ValueError` for an unknown scheme; `AssertionError` when the handler
      is not of the selected class. */
  datatype InitError = UnsupportedScheme(scheme: string) | HandlerMismatch(expected: HandlerKind)

  function HandlerClass(kind: SourceKind): HandlerKind
  {
    match kind
    case FileKind(_) => JsonFileHandler
    case ApiKind => ArxivApiHandler
  }

  /** `init_source_cls`, up to the constructor call: the row the scheme
      selects, then the check of the handler's class. */
  function SelectSource(url: Url, handler: HandlerKind): (r: Result<SourceKind, InitError>)
    ensures r.Failure? && r.error.UnsupportedScheme? <==> url.scheme !in {"file", "http", "https"}
    ensures r.Success? ==> handler == HandlerClass(r.value)
    ensures r.Success? && r.value.FileKind? <==> url.scheme == "file" && handler == JsonFileHandler
    ensures r.Success? && r.value.FileKind? ==> r.value.filePath == url.path
    ensures r.Success? && r.value.ApiKind? <==> url.scheme in {"http", "https"} && handler == ArxivApiHandler
  {
    var kind :=
      if url.scheme == "file" then Success(FileKind(url.path))
      else if url.scheme == "http" || url.scheme == "https" then Success(ApiKind)
      else Failure(UnsupportedScheme(url.scheme));
    match kind
    case Failure(e) => Failure(e)
    case Success(k) => if handler == HandlerClass(k) then Success(k) else Failure(HandlerMismatch(HandlerClass(k)))
  }

  /** `s` is the source the constructor of `kind` builds: the file source
      over the items read from its path, or the API source over `request`. */
  ghost predicate Builds(s: Source, kind: SourceKind, readItems: string -> seq<JsonEntry>, request: string -> Option<seq<FeedEntry>>)
  {
    match kind
    case FileKind(p) => s.FileSource? && s.file.entries == Table(readItems(p))
    case ApiKind => s.ApiSource? && s.api.request == request
  }

  /** `init_source_cls`: `readItems` stands for the JSON file handler's
      `read_items`, `request` for the API handler's request. */
  method InitSource(url: Url, handler: HandlerKind, readItems: string -> seq<JsonEntry>, request: string -> Option<seq<FeedEntry>>)
    returns (r: Result<Source, InitError>)
    ensures r.Success? <==> SelectSource(url, handler).Success?
    ensures r.Failure? ==> r.error == SelectSource(url, handler).error
    ensures r.Success? ==> Builds(r.value, SelectSource(url, handler).value, readItems, request)
  {
    match SelectSource(url, handler)
    case Failure(e) =>
      r := Failure(e);
    case Success(FileKind(p)) =>
      var f := new JsonMetadataSource(readItems(p));
      r := Success(FileSource(f));
    case Success(ApiKind) =>
      var a := new ApiMetadataSource(request);
      r := Success(ApiSource(a));
  }
}
