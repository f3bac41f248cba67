/** The values the parsers produce: the metadata entry of one paper
    revision, in its newer shape (a list of categories and an integer
    revision) and its older shape (one category and a revision that the
    older JSON parser leaves as a label), plus the diagnostics and the
    exceptions of the parsing code. */
module Models {
  import opened Outcomes

  /** A calendar date: what `datetime.date()` keeps of a timestamp. */
  datatype Date = Date(year: int, month: int, day: int)

  /** A UTC timestamp, as its calendar date and the seconds into that day. */
  datatype Instant = Instant(date: Date, secondOfDay: int)

  /** Date parsing (`fromisoformat`, `strptime` with a time-zone lookup) is
      outside this model: a parser is a given function that either yields
      the UTC timestamp a string denotes or fails, as the Python call raises. */
  type DateParser = string -> Option<Instant>

  datatype Author = Author(name: string)

  datatype Category = Category(name: string)

  datatype Link = Link(resourceUrl: string, resourceType: string)

  /** One revision of one paper, as the newer parsers build it. */
  datatype Metadata = Metadata(
    paperId: string,
    paperRev: nat,
    paperDoi: string,
    paperTitle: string,
    paperDescription: string,
    paperCategories: seq<Category>,
    paperAuthors: seq<Author>,
    paperLinks: seq<Link>,
    paperCreatedAt: Instant,
    paperUpdatedAt: Instant)

  /** The revision of an older entry: a number from the feed parser, the
      matched label ("v2", or "1" when there is none) from the JSON parser. */
  datatype Revision = RevNumber(number: nat) | RevLabel(text: string)

  /** One revision of one paper, as the older parsers build it. */
  datatype LegacyMetadata = LegacyMetadata(
    paperId: string,
    paperRev: Revision,
    paperTitle: string,
    paperDescription: string,
    paperCategory: string,
    paperDoi: string,
    paperAuthors: seq<Author>,
    paperLinks: seq<Link>,
    paperCreatedAt: Instant,
    paperUpdatedAt: Instant)

  /** What the code logs: a paper without a DOI (info), a paper missing from
      the metadata file or not served by the export API (errors), and a paper
      no source knows (warning). */
  datatype Diagnostic =
    | MissingDoi(paperId: string)
    | NotInMetadataFile(paperId: string)
    | NotInExportApi(paperId: string)
    | MetadataNotFound(fileName: string)

  /** The exceptions the parsers raise. */
  datatype ParseError =
    | InvalidDate(text: string)            // the date call raises
    | AuthorEntryTooShort(index: nat)      // `entry[0]` or `entry[1]` raises IndexError
    | NoCategoryToken                      // `categories[0]` raises IndexError
    | MissingPrimaryCategory               // `entry.arxiv_primary_category` raises AttributeError
    | UnexpectedKeyword(name: string)      // the dataclass constructor raises TypeError

  /** A parse result together with the diagnostics logged while producing it. */
  type Logged<T> = (Result<T, ParseError>, seq<Diagnostic>)

  /** A date string through the parser, as a step that raises on failure. */
  function ParseDate(dates: DateParser, text: string): (r: Result<Instant, ParseError>)
    ensures r.Success? <==> dates(text).Some?
    ensures r.Success? ==> r.value == dates(text).value
    ensures r.Failure? ==> r.error == InvalidDate(text)
  {
    match dates(text)
    case Some(t) => Success(t)
    case None => Failure(InvalidDate(text))
  }
}
