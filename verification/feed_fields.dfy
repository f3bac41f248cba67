/** An Atom entry as the feed parsing library hands it over (section 4.1.2
    of RFC 4287 plus the arXiv extension elements), and the DOI rule both
    feed parsers share. */
module FeedFields {
  import opened Outcomes
  import opened Models
  import opened ArxivIds

  datatype FeedTag = FeedTag(term: string)

  datatype FeedAuthor = FeedAuthor(name: string)

  datatype FeedLink = FeedLink(href: string, linkType: string)

  /** One `<entry>`. An attribute the library may leave out is an Option:
      `arxiv_doi`, and the `term` of `arxiv_primary_category`. */
  datatype FeedEntry = FeedEntry(
    id: string,
    arxivDoi: Option<string>,
    title: string,
    summary: string,
    tags: seq<FeedTag>,
    authors: seq<FeedAuthor>,
    links: seq<FeedLink>,
    published: string,
    updated: string,
    primaryCategory: Option<string>)

  /** `_extract_doi`: the entry's DOI, or "" and an info diagnostic naming
      the extracted paper id when the attribute is missing. */
  function ExtractDoi(entry: FeedEntry): (r: (string, seq<Diagnostic>))
    ensures entry.arxivDoi.Some? ==> r.0 == entry.arxivDoi.value
    ensures r.1 != [] <==> entry.arxivDoi.None?
    ensures entry.arxivDoi.None? ==> r.0 == "" && r.1 == [MissingDoi(ExtractId(entry.id))]
  {
    match entry.arxivDoi
    case Some(doi) => (doi, [])
    case None => ("", [MissingDoi(ExtractId(entry.id))])
  }

  /** The info diagnostics a run over these entries logs: one per entry
      without a DOI, naming its extracted id, in entry order. */
  function MissingDoiLog(entries: seq<FeedEntry>): seq<Diagnostic>
  {
    if entries == [] then []
    else ExtractDoi(entries[0]).1 + MissingDoiLog(entries[1..])
  }

  /** The three one-to-one copies of `parse_body`: tags become categories,
      authors keep their names, links keep href and type unchanged. */
  function Categories(tags: seq<FeedTag>): (cs: seq<Category>)
    ensures |cs| == |tags| && forall i :: 0 <= i < |tags| ==> cs[i].name == tags[i].term
  {
    seq(|tags|, i requires 0 <= i < |tags| => Category(tags[i].term))
  }

  function Authors(authors: seq<FeedAuthor>): (au: seq<Author>)
    ensures |au| == |authors| && forall i :: 0 <= i < |authors| ==> au[i].name == authors[i].name
  {
    seq(|authors|, i requires 0 <= i < |authors| => Author(authors[i].name))
  }

  function Links(links: seq<FeedLink>): (ls: seq<Link>)
    ensures |ls| == |links|
    ensures forall i :: 0 <= i < |links| ==> ls[i].resourceUrl == links[i].href && ls[i].resourceType == links[i].linkType
  {
    seq(|links|, i requires 0 <= i < |links| => Link(links[i].href, links[i].linkType))
  }

  function TagsOf(cs: seq<Category>): seq<FeedTag>
  {
    seq(|cs|, i requires 0 <= i < |cs| => FeedTag(cs[i].name))
  }

  function FeedAuthorsOf(au: seq<Author>): seq<FeedAuthor>
  {
    seq(|au|, i requires 0 <= i < |au| => FeedAuthor(au[i].name))
  }

  function FeedLinksOf(ls: seq<Link>): seq<FeedLink>
  {
    seq(|ls|, i requires 0 <= i < |ls| => FeedLink(ls[i].resourceUrl, ls[i].resourceType))
  }

  /** The copies lose nothing: tags, authors and links can be read back,
      in their original order, from what `parse_body` stores. */
  lemma FeedCopiesInvertible(tags: seq<FeedTag>, authors: seq<FeedAuthor>, links: seq<FeedLink>)
    ensures TagsOf(Categories(tags)) == tags
    ensures FeedAuthorsOf(Authors(authors)) == authors
    ensures FeedLinksOf(Links(links)) == links
  {
  }
}
