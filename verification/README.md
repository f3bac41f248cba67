# arXiv metadata normalisation and resolution, in Dafny

This project models the core of `dialect-map-job-text`: the code that turns
raw arXiv metadata into canonical paper entries and then into the records the
Dialect Map API stores. The model covers:

- **Whitespace normalisation.** `_parse_string` rewrites every run of two or
  more whitespace characters as one space (`Whitespace.Collapse`). The older
  JSON parser then also trims the ends (`Whitespace.CollapseAndStrip`).
  Whitespace is Python's Unicode `\s` set. The older feed parser's
  `_parse_string` (`src/parsers/feed.py:60`) is the same expression, and
  `LegacyFeedParser` uses the same `Collapse`.
- **Identifier rules.** `_extract_id` removes the first match of the
  unanchored abs-URL pattern. The two dots of that pattern match any
  character but a newline. It then removes the first `v<digits>`, greedily.
  `_extract_rev` reads the digits of that first match in the raw id. The
  newer parsers yield the number (default 1); the older JSON parser yields the
  label (`"v2"`, default `"1"`).
- **Four parsers.** There are two generations of the Atom feed parser and two
  of the JSON snapshot parser. Each `parse_body` loop is a method proved equal
  to `Collect` of its per-item steps:
  - the loop stops at the first step that raises;
  - the diagnostics logged up to that point are kept;
  - lemmas then state what the entries are, field by field.
- **Record building.** `ArxivMetadata.paper_metadata`, `ArxivMetadataMapper`
  and `ArxivFeedConverter` each build one Paper record, one author record per
  author, and membership records. All of them carry the key
  `(arxiv_id, arxiv_rev)`.
- **Source resolution.** `MetadataRoutine` is a class over an ordered list of
  sources:
  - `add_sources` appends to the list;
  - a lookup stops at the first source with a non-empty answer, and a ghost
    trace records which sources were asked;
  - `run` skips or dispatches each paper file.

  The JSON file source keeps an id table (a later item wins). The API source
  turns a failed connection into an empty answer. The sources, the lookup and
  `run` are built on the corrected newer JSON parser (see Findings). As
  written, a lookup that reaches a file source holding the id with a version
  raises TypeError, and `run` ends there (`Routines.ResolveAsWrittenRaises`). `init_source_cls` picks the
  source kind from the URL scheme.
- **Path arithmetic.** `get_path_diff`, `get_file_name` and `get_node_name`
  work on POSIX path strings, read as `pathlib` and `os.path.commonpath` read
  them.

Several things that are not code here are modelled as parameters:

- **Dates.** Date parsing is a parameter `DateParser = string ->
  Option<Instant>`. None stands for the date call raising.
- **Exceptions.** The exceptions the modelled code raises on the data it
  reads are `Failure` values of `ParseError` (or `InitError` and
  `PathError`). Missing keys and attributes are not modelled (see Left out).
- **Log calls.** The info and error diagnostics of `_extract_doi` and of the
  two sources' lookups are a returned `seq<Diagnostic>`. The error the date
  parsers log just before they raise is not part of it.
- **The feed library.** Its result is taken as the given `seq<FeedEntry>`.
- **The handlers.** The JSON file handler's `read_items` and the export
  API's request are parameters too.

## Model

| member | source | states |
|---|---|---|
| Whitespace.Collapse | src/job/parsers/base.py:43 | The output is never longer than the input. A non-empty input gives a non-empty output that starts with whitespace exactly when the input does, so the ends are not trimmed. |
| Whitespace.CollapseNoAdjacent | src/job/parsers/base.py:43 | The output never holds two adjacent whitespace characters. |
| Whitespace.CollapseIdempotent | src/job/parsers/base.py:43 | Collapsing twice equals collapsing once. |
| Whitespace.CollapseUnchangedIff | src/job/parsers/base.py:43 | A string is left unchanged exactly when it has no two adjacent whitespace characters. |
| Whitespace.CollapseFixpoint | src/job/parsers/base.py:43 | A string without adjacent whitespace is a fixed point. |
| Whitespace.CollapseKeepsText | src/job/parsers/base.py:43 | The non-whitespace characters are kept, in order. |
| Whitespace.CollapseRun | src/job/parsers/base.py:43 | A maximal run of two or more whitespace characters between text becomes exactly one space. |
| Whitespace.CollapseLone | src/job/parsers/base.py:43 | A lone whitespace character (a tab, a newline) between text is kept as it is. |
| Whitespace.CollapseConcat | src/job/parsers/base.py:43 | The collapse splits over a boundary that follows a non-whitespace character. |
| Whitespace.Strip | src/parsers/json.py:55 | `.strip()` gives a result that neither starts nor ends with whitespace. It is empty exactly when the input is all whitespace. |
| Whitespace.StripStart | src/parsers/json.py:55 | The front half of `.strip()` gives a suffix of the input that is empty or starts with non-whitespace. It is empty exactly when the input is all whitespace. |
| Whitespace.StripEnd | src/parsers/json.py:55 | The back half of `.strip()` gives a prefix of the input that is empty or ends with non-whitespace. It is non-empty when the input starts with non-whitespace. |
| Whitespace.StripFixpoint | src/parsers/json.py:55 | A string with no whitespace at either end is not changed by `.strip()`. |
| Whitespace.StripKeepsText | src/parsers/json.py:55 | `.strip()` keeps every non-whitespace character, in order. |
| Whitespace.CollapseAndStripNormalises | src/parsers/json.py:55 | The older JSON `_parse_string` gives a result with no whitespace at either end, no adjacent whitespace, and the input's non-whitespace text. |
| Whitespace.CollapseAndStripIdempotent | src/parsers/json.py:55 | The older JSON `_parse_string` is idempotent. |
| ArxivIds.FindPrefix | src/job/parsers/feed.py:54 | The search finds the leftmost position where the abs-URL pattern matches (a dot matches any character but a newline), or reports that there is none. |
| ArxivIds.RemovePrefix | src/job/parsers/feed.py:54 | Removing the pattern with `count=1` takes away exactly 21 characters when the pattern matches, and nothing otherwise. |
| ArxivIds.FindVDigits | src/job/parsers/feed.py:55 | The search finds the leftmost `v` followed by a digit, or reports that there is none. |
| ArxivIds.DigitsAfter | src/job/parsers/feed.py:65-68 | The `\d+` group is greedy: the maximal run of digits after the `v`. |
| ArxivIds.RemoveVDigits | src/job/parsers/feed.py:55 | The id is changed exactly when it holds a `v<digits>`, and it never grows. |
| ArxivIds.ExtractRev | src/job/parsers/feed.py:58-68 | The revision is 1 when the raw id has no `v<digits>`. |
| ArxivIds.IdAndRevOfCanonical | src/job/parsers/feed.py:46-68 | Take an id made of a 21-character match of the abs-URL pattern, a base without `v<digits>`, and `v` plus digits. Its paper id is the base and its revision is the value of the digits. |
| ArxivIds.HepExExample | tests/parsers/test_parsers_feed.py:41-42 | `http://arxiv.org/abs/hep-ex/0307015v1` gives paper id `hep-ex/0307015` and revision 1. |
| ArxivIds.WildcardDotExample | src/job/parsers/feed.py:54 | The unescaped dots also let `http://arxiv-org/abs/0704.0001v2` through: it gives `0704.0001` and revision 2. |
| ArxivIds.ExtractRevLabel | src/parsers/json.py:93-102 | The older label is `"1"` exactly when there is no `v<digits>`. Otherwise it is `v` followed by digits only. |
| ArxivIds.RevLabelAgreesWithRev | src/parsers/json.py:93-102 | The older label and the newer integer revision agree: label `"1"` goes with 1, and label `v<ds>` goes with the value of `ds`. |
| Models.ParseDate | src/job/parsers/feed.py:111-112 | A date step succeeds exactly when the date parser yields a timestamp, and yields that timestamp. Otherwise it raises InvalidDate for that text. |
| FeedFields.ExtractDoi | src/job/parsers/feed.py:70-84 | The DOI is the entry's DOI when present. When it is absent the DOI is `""` with exactly one info diagnostic naming the extracted id. It never fails. |
| FeedFields.Categories | src/job/parsers/feed.py:98 | One category per tag, in order, named by the tag's term. |
| FeedFields.Authors | src/job/parsers/feed.py:99 | One author per feed author, in order, with the same name. |
| FeedFields.Links | src/job/parsers/feed.py:100 | One link per feed link, in order, with `href` and `type` copied unchanged. |
| FeedFields.FeedCopiesInvertible | src/job/parsers/feed.py:98-100 | The tags, authors and links can be read back unchanged from what is stored. |
| JobFeedParser.EntryStep | src/job/parsers/feed.py:98-113 | One loop pass logs the missing-DOI diagnostic of its entry. It succeeds exactly when both dates parse, and then describes the entry field by field. Otherwise it raises InvalidDate. |
| JobFeedParser.ParseBody | src/job/parsers/feed.py:87-117 | The loop yields exactly `Collect` of the per-entry steps: entries in order, stopping at the first entry that raises. |
| JobFeedParser.ParseBodyMeaning | src/job/parsers/feed.py:97-117 | There is a result exactly when every entry's dates parse. It then has one entry per feed entry, in document order: collapsed title and summary, extracted id and revision, DOI, tags, authors and links. |
| JobFeedParser.ParseBodyLog | src/job/parsers/feed.py:77-84 | A completed run logs one info diagnostic per entry without a DOI, in entry order. |
| JobFeedParser.ParseBodyEmpty | src/job/parsers/feed.py:94-97 | A feed without entries gives no entries and no diagnostics. |
| LegacyFeedParser.EntryStep | src/parsers/feed.py:123-137 | A missing primary category raises first, with nothing logged. Otherwise the step is as in the newer parser, with the single primary-category term as the category. |
| LegacyFeedParser.ParseBody | src/parsers/feed.py:112-142 | The loop yields exactly `Collect` of the per-entry steps. |
| LegacyFeedParser.ParseBodyMeaning | src/parsers/feed.py:122-142 | There is a result exactly when every entry has a primary category and parsing dates. It then has one entry per feed entry, in order, with the primary category and the authors and links in source order and count. |
| LegacyFeedParser.ParseBodyLog | src/parsers/feed.py:103-110 | A completed run logs one info diagnostic per entry without a DOI. A missing DOI is never an error. |
| LegacyFeedParser.ParseBodyEmpty | src/parsers/feed.py:119-122 | A feed without entries gives no entries. |
| JsonFields.ParseAuthors | src/job/parsers/json.py:30-43 | There is one name per author entry, in order: component 0, a space, then component 1. The first entry with fewer than two components raises IndexError at its index. |
| JsonFields.ParseAuthorsExample | tests/parsers/test_parsers_json.py:179-182 | `[["Streinu","Ileana",""],["Theran","Louis",""]]` gives `"Streinu Ileana"` and `"Theran Louis"`. |
| JsonFields.ExtractDoi | src/job/parsers/json.py:77-91 | The DOI is the `doi` field, or `""` with one info diagnostic naming the entry's `id` when the field is null. |
| JsonFields.FirstCategory | src/job/parsers/json.py:104 | `categories.split()[0]` raises exactly when `categories` is all whitespace. Otherwise it is the first maximal run of non-whitespace after the leading whitespace. |
| JsonFields.FirstCategoryOfToken | src/job/parsers/json.py:104 | Take any whitespace, then a token without whitespace, then whitespace or nothing. The split yields exactly that token first, so the category is the first maximal non-whitespace run. |
| JobJsonParser.AuthorsOf | src/job/parsers/json.py:107 | One author per name, in order. |
| JobJsonParser.VersionStepMeaning | src/job/parsers/json.py:104-121 | A version's pass succeeds exactly when its date parses, every author entry has two components and `categories` has a token. It then describes the version. |
| JobJsonParser.ParseBody | src/job/parsers/json.py:93-125 | The loop, with its local `created` set once from the first version, yields exactly `Collect` of the version steps. |
| JobJsonParser.ParseBodyMeaning | src/job/parsers/json.py:103-125 | An entry without versions gives an empty result. Otherwise there is a result exactly when every version can be parsed, and it has one entry per version, in order, each with its own revision and update date. |
| JobJsonParser.EntriesShareCreated | src/job/parsers/json.py:103-106 | All entries of a paper share the first version's creation date and the id, DOI, title, description, authors and category. The first entry's creation and update dates are equal. |
| JobJsonParser.ParseBodyLog | src/job/parsers/json.py:84-91 | A completed run logs nothing when there is a DOI. Otherwise it logs one info diagnostic per version, each naming the entry's `id`. |
| JobJsonParser.VersionStepAsWritten | src/job/parsers/json.py:110-121 | As written, every version's pass raises: the constructor refuses the keyword `paper_category`. |
| JobJsonParser.AsWrittenNeverYields | src/job/parsers/json.py:116 | As written, an entry with versions never yields entries. Wherever the corrected parser would succeed, the written one raises TypeError on `paper_category`. |
| JobJsonParser.SampleEntry | src/job/parsers/json.py:116 | Take the test paper 0704.0002 with one version. The written parser raises on it, and the corrected parser yields its single entry. |
| LegacyJsonParser.VersionStepMeaning | src/parsers/json.py:136-153 | A version's pass succeeds exactly when its date parses, every author entry has two components and `categories` has a token. It then describes the version. |
| LegacyJsonParser.ParseBody | src/parsers/json.py:125-157 | The loop, with its local `created` set once, yields exactly `Collect` of the version steps. |
| LegacyJsonParser.ParseBodyMeaning | src/parsers/json.py:135-157 | K versions give K entries, each with its own label and update date. Title and abstract are collapsed and trimmed, and the category is the first token. No versions give no entries. |
| LegacyJsonParser.EntriesShareCreated | src/parsers/json.py:135-138 | All entries share the first version's creation date and every field but revision and update date. The first entry's creation and update dates are equal. |
| LegacyJsonParser.ParseBodyLog | src/parsers/json.py:111-118 | A null DOI logs one info diagnostic per version. A present DOI logs nothing. |
| LegacyJsonParser.RevLabelOfV1 | tests/parsers/test_parsers_json.py:82 | The label `v1` is kept as `"v1"`. |
| LegacyJsonParser.SampleEntry | tests/parsers/test_parsers_json.py:81-84 | The test paper 0704.0002 gives one entry: revision `"v1"`, DOI `""`, category `math.CO`, and the two positional author names. |
| Records.PaperRecordOf | src/job/models/arxiv.py:94-103 | The revision date of a paper record is the calendar date of its update timestamp. Its submission date is that of its creation timestamp. |
| Records.AuthorRecordsOf | src/job/models/arxiv.py:110-116 | Reading the names back gives the authors, in order. Every author record carries the key and the creation timestamp. |
| Records.MembershipRecordsOf | src/job/models/arxiv.py:123-129 | Reading the category ids back gives the categories, in order. Every membership record carries the key and the creation timestamp. |
| ArxivRecords.BuildPaperRecord | src/job/models/arxiv.py:89-103 | The paper record has the entry's id, revision, title, verbatim DOI and both timestamps, and dates derived from the timestamps. |
| ArxivRecords.BuildAuthorRecords | src/job/models/arxiv.py:105-116 | There is one author record per author, in order, each carrying the entry's id, revision and creation timestamp. |
| ArxivRecords.BuildMembershipRecords | src/job/models/arxiv.py:118-129 | There is one membership record per category, in order, each carrying the key. No categories means no records. |
| ArxivRecords.PaperMetadataOf | src/job/models/arxiv.py:77-87 | The three parts (paper, authors, memberships) all share the paper's `(arxiv_id, arxiv_rev)` and creation timestamp. |
| ArxivRecords.RecordsReadBack | src/job/models/arxiv.py:77-129 | The records keep every field of the entry except the description and the links. |
| ArxivRecords.RecordsInjective | src/job/models/arxiv.py:77-129 | Two entries give equal records exactly when they agree on every field but the description and the links. |
| RecordMapping.GetPaperData | src/mapping/record_mapping.py:16-37 | The paper record holds the eight fields copied or derived from the entry. The DOI is passed unchanged, and the dates are those of the two timestamps. |
| RecordMapping.GetPaperAuthors | src/mapping/record_mapping.py:39-57 | There is one record per author, in order, each with the shared id, revision and creation timestamp. |
| RecordMapping.GetPaperMembership | src/mapping/record_mapping.py:59-77 | There is exactly one membership record, for the entry's category, with the shared key. |
| RecordMapping.MappedRecordsShareKey | src/mapping/record_mapping.py:26-71 | The paper, author and membership records carry one `(arxiv_id, arxiv_rev)` pair. |
| RecordMapping.MappedReadBack | src/mapping/record_mapping.py:16-77 | The three parts keep every field of the entry except the description and the links. |
| RecordMapping.MappedInjective | src/mapping/record_mapping.py:16-77 | Two entries map alike exactly when they agree on every field but the description and the links. |
| FeedConvert.GetPaperData | src/convert/feed.py:14-36 | The paper record holds eight fields from the feed entry. The DOI is passed unchanged, and the dates are those of the two timestamps. |
| FeedConvert.GetPaperAuthors | src/convert/feed.py:38-56 | There is one record per author, in order, with the shared key and creation timestamp. |
| FeedConvert.GetPaperMembership | src/convert/feed.py:58-76 | There is exactly one membership record, for the primary category. |
| FeedConvert.ConvertedRecordsShareKey | src/convert/feed.py:25-70 | All converted records share `(arxiv_id, arxiv_rev)`. |
| FeedConvert.ConvertedInjective | src/convert/feed.py:14-76 | Every field the converter reads can be read back, so two feed entries convert alike exactly when they are equal. |
| MetadataSources.Table | src/job/input/metadata/file.py:30-37 | The id table holds an id exactly when some read item has that `id`. |
| MetadataSources.TableLaterWins | src/job/input/metadata/file.py:37 | Under each id the table stores the last item with that id. |
| MetadataSources.JsonMetadataSource.constructor | src/job/input/metadata/file.py:18-28 | The constructor fills the table once from the items the handler reads. |
| MetadataSources.JsonMetadataSource.GetMetadata | src/job/input/metadata/file.py:39-55 | The lookup is read-only, and it equals the lookup specification on the table. |
| MetadataSources.FileLookupMeaning | src/job/input/metadata/file.py:46-53 | An absent id gives `[]` and an error diagnostic and never raises. A present id gives the corrected `parse_body` of the stored item: one entry per version when that item parses. |
| MetadataSources.FileLookupAsWrittenRaises | src/job/input/metadata/file.py:46-53 | With the newer JSON `parse_body` as written, a present id whose item has a version raises, uncaught. It raises TypeError on `paper_category` whenever the corrected parser would have yielded entries. An absent id behaves as in the corrected lookup. |
| MetadataSources.LookupAfterRead | src/job/input/metadata/file.py:28-53 | After reading, an id no item has is not found, and a present id is parsed from its last item. |
| MetadataSources.ApiMetadataSource.GetMetadata | src/job/input/metadata/api.py:28-44 | The API lookup equals its specification: a failed connection gives `[]` and an error diagnostic, and a feed gives its `parse_body`. |
| MetadataSources.ApiLookupMeaning | src/job/input/metadata/api.py:35-44 | A failed connection is an empty result and never an error. A feed gives one entry per feed entry when its dates parse. |
| MetadataSources.QuerySource | src/routines.py:108 | Asking a source runs the lookup of its kind. |
| MetadataSources.SelectSource | src/job/input/helpers.py:31-53 | Scheme `file` selects the file kind with the URL path. `http` and `https` select the API kind. Any other scheme raises ValueError. A handler of the wrong class fails the assertion. |
| MetadataSources.InitSource | src/job/input/helpers.py:31-54 | Exactly when the selection succeeds, a new source of the selected kind is built: over the file's items, or over the API request. |
| Routines.Consulted | src/routines.py:105-112 | A lookup never asks more sources than there are, and asks at least one when there is one. |
| Routines.ConsultedBeforeEmpty | src/routines.py:107-110 | Every source asked before the last one asked returned `[]`. |
| Routines.ConsultedStopsAtHit | src/routines.py:107-110 | A lookup stops before the end of the list only at a source that returned something or raised. Later sources are never asked. |
| Routines.ResolveResult | src/routines.py:105-112 | The result is the last asked source's answer, or `[]` when there are no sources. |
| Routines.ResolveAllEmpty | src/routines.py:105-112 | When every source returns `[]`, every source is asked once and the result is `[]`. |
| Routines.ResolveIgnoresLater | src/routines.py:107-110 | Appending sources after one that answers changes neither the result nor which sources are asked. |
| Routines.ResolveAsWrittenRaises | src/routines.py:107-110 | As written, a lookup that reaches a file source holding the id with a version, after sources that answered `[]`, raises. The error is the TypeError on `paper_category` whenever the corrected parser would have yielded entries, so `run` ends there. |
| Routines.Payloads | src/routines.py:94-96 | One `paper_metadata` payload per record, in order. |
| Routines.MetadataRoutine.constructor | src/routines.py:74-83 | The source list starts empty. |
| Routines.MetadataRoutine.AddSources | src/routines.py:114-125 | Sources are appended one per URL, in URL order, after the existing ones, which are left unchanged. The first URL that cannot be initialised stops the call with its error. |
| Routines.MetadataRoutine.GetMetadataRecords | src/routines.py:98-112 | The lookup equals `Resolve` over the current sources. The ghost trace shows sources asked in list order, each at most once, exactly `Consulted` of them. |
| Routines.MetadataRoutine.Run | src/routines.py:127-141 | The run loop yields exactly `Collect` of the per-path steps. |
| Routines.RunMeaning | src/routines.py:133-141 | A completed run skips exactly the files whose lookup is `[]`, with a warning. It dispatches the records' payloads for every other file, in path order. |
| Routines.DispatchedKeyed | src/routines.py:94-96 | Every dispatched payload is keyed by its record's id and revision. |
| Files.Parts | src/job/files.py:43 | `Path(p).parts` is the anchor, if any, followed by the components. |
| Files.CommonPrefix | src/job/files.py:57 | The common path's components are a prefix of both paths' components, and the longest one. |
| Files.NamesOfJoin | src/job/files.py:57-59 | Reading joined components gives them back. |
| Files.CommonPathLength | src/job/files.py:57-59 | The common path has one part per common component, plus the root for absolute paths. |
| Files.GetPathDiff | src/job/files.py:45-65 | The call raises ValueError exactly when neither path string contains the other. It also raises when it mixes an absolute and a relative path. |
| Files.PathDiffOfSubPath | src/job/files.py:57-65 | Given a path and a path below it, in either order, the difference is the components the deeper path adds. |
| Files.PathDiffOfSelf | src/job/files.py:45-65 | Equal paths give the empty relative path. |
| Files.GetFileName | src/job/files.py:24-32 | The file name is the last component, or `""` when there is none. |
| Files.FileNameOfChild | src/job/files.py:24-32 | A name added under a directory becomes the last component and the file name. |
| Files.GetNodeName | src/job/files.py:34-43 | The node exists exactly for indices from `-len(parts)` to `len(parts) - 1`. Otherwise the call raises IndexError. |
| Files.NodeNamesAtEnds | src/job/files.py:24-43 | Node -1 is the file name, and node 0 of an absolute path is its root. |

## Left out

- Date parsing is out: `_parse_date`, `_extract_date` (a time-zone lookup) and the stdlib grammars. It is the `DateParser` parameter.
- Parsing the Atom XML (`feedparser`) is out. The entries it yields are the given `seq<FeedEntry>`.
- `_parse_links` (percent-decoding) is out. `parse_body` never calls it, so links are stored as the feed gives them.
- `_dispatch_records` is out: its concurrent tasks and the REST call. A dispatch is the `Dispatched` outcome carrying its payloads, in record order. The order of the concurrent sends is not modelled.
- `init_handler_cls`, `urlparse` and the handlers' own errors are out. A URL is its parsed scheme and path, and the handler class is a given function of the URL.
- `isinstance` is modelled as an exact class match: subclasses of the handler classes are not modelled.
- The parser objects that `init_source_cls` builds are not modelled. Each source kind uses its own parser.
- `src/job/input/helpers.py:21` names `ArxivMetadataSource`, which is not part of this model. The API kind is modelled by the behaviour of `ApiMetadataSource` (`src/job/input/metadata/api.py`).
- The file iterator's globbing (`all_paths`, `iter_paths`) is out. The routine's `Run` takes the paths it would yield.
- Writing files and the REST operators are out.
- The schemas' `load` and `dump` (`dialect_map_schemas`) are taken as the identity. Field names are datatype fields.
- `isoformat` is out: records hold dates and timestamps as values.
- `IsDigit`: Python's `\d` also matches non-ASCII decimal digits. The model matches ASCII digits only.
- `ArxivFeedEntry` belongs to a library that is not part of this model. Its fields are the ones the converter reads, and its revision is a number.
- The older model's `paper_rev` is declared `int`, but the older JSON parser stores the label (`"v1"`). `Revision` holds either.
- `tests/files/test_files.py:54-59` calls `get_path_diff` with one argument, while the code takes two. The model follows the code.
- Concurrency and the async event loop are out.
- Missing keys and attributes are out. Both JSON parsers read every key with `[]`, and the feed parsers read entry attributes directly. A missing key raises KeyError and a missing attribute raises AttributeError. The model assumes every key and attribute is present, except the entry's `arxiv_doi` and the term of `arxiv_primary_category`.
- A JSON item without a `doi` key raises KeyError in `_extract_doi`, while a null `doi` gives `""`. `JsonEntry.doi` is an Option whose None stands for null only, so the missing key is not told apart from it.
- `logger.error(err)` in the date parsers (`src/job/parsers/base.py:29-31`, `src/parsers/feed.py:47`, `src/parsers/json.py:42`) is not in any returned log. The step that raises InvalidDate returns only the diagnostics logged before the date call.
- MetadataSources.FileLookup, `JsonMetadataSource.GetMetadata`, `Query`, `QuerySource`, `Routines.Resolve`, `MetadataRoutine.GetMetadataRecords` and `MetadataRoutine.Run` are built on the corrected newer JSON parser. As written, each lookup that reaches a file source holding the id with a version raises TypeError. `FileLookupAsWritten`, `QueryAsWritten` and `ResolveAsWritten` model the lookup as written, and `Routines.ResolveAsWrittenRaises` states that it raises. There is no as-written `Run`: it would stop at the first path whose lookup raises.

## Findings

| source | as written | input that shows it | evidently intended | confidence | as-written member | corrected member |
|---|---|---|---|---|---|---|
| src/job/parsers/json.py:116 | The newer JSON `parse_body` calls the entry constructor with `paper_category=`. The newer entry type (`src/job/models/arxiv.py:71`) declares `paper_categories`, so every call raises TypeError. | Paper 0704.0002 with one version `v1`, categories `"math.CO"`, two author entries | A one-element category list holding the first category token. This mirrors the older parser's `paper_category=categories[0]` (`src/parsers/json.py:148`), which the line was evidently adapted from; a list of all `categories.split()` tokens would be an equally plausible fix | not executed | JobJsonParser.AsWrittenNeverYields | JobJsonParser.ParseBodyMeaning |
