/** `ArxivFeedConverter` of the older code: the records of one entry of the
    feed library's own entry type, which has a single primary category. */
module FeedConvert {
  import opened Models
  import opened Records

  /** The fields of the library's `ArxivFeedEntry` the converter reads. */
  datatype ArxivFeedEntry = ArxivFeedEntry(
    paperId: string,
    paperRev: nat,
    paperTitle: string,
    paperDoi: string,
    paperCategory: string,
    paperAuthors: seq<Author>,
    paperCreatedAt: Instant,
    paperUpdatedAt: Instant)

  /** `get_paper_data`. */
  function GetPaperData(e: ArxivFeedEntry): (p: PaperRecord<nat>)
    ensures WellDated(p)
    ensures p.arxivId == e.paperId && p.arxivRev == e.paperRev
    ensures p.title == e.paperTitle && p.doiId == e.paperDoi
    ensures p.createdAt == e.paperCreatedAt && p.updatedAt == e.paperUpdatedAt
  {
    PaperRecordOf(e.paperId, e.paperRev, e.paperTitle, e.paperDoi, e.paperCreatedAt, e.paperUpdatedAt)
  }

  /** `get_paper_authors`: one record per author, in order. */
  function GetPaperAuthors(e: ArxivFeedEntry): (rs: seq<AuthorRecord<nat>>)
    ensures |rs| == |e.paperAuthors| && AuthorsOfRecords(rs) == e.paperAuthors
    ensures AuthorsShareKey(rs, e.paperId, e.paperRev, e.paperCreatedAt)
  {
    AuthorRecordsOf(e.paperId, e.paperRev, e.paperCreatedAt, e.paperAuthors)
  }

  /** `get_paper_membership`: exactly one record, for the primary category. */
  function GetPaperMembership(e: ArxivFeedEntry): (r: MembershipRecord<nat>)
    ensures MembershipsShareKey([r], e.paperId, e.paperRev, e.paperCreatedAt)
    ensures CategoriesOfRecords([r]) == [Category(e.paperCategory)]
  {
    MembershipRecord(e.paperId, e.paperRev, e.paperCategory, e.paperCreatedAt)
  }

  /** The three converted parts carry one key. */
  lemma ConvertedRecordsShareKey(e: ArxivFeedEntry)
    ensures var pm := PaperMetadata(GetPaperData(e), GetPaperAuthors(e), [GetPaperMembership(e)]);
      Keyed(pm) && WellDated(pm.paper) && pm.paper.arxivId == e.paperId && pm.paper.arxivRev == e.paperRev
  {
    var p := GetPaperData(e);
    assert MembershipsShareKey([GetPaperMembership(e)], p.arxivId, p.arxivRev, p.createdAt);
  }

  /** The entry the three parts describe. */
  function EntryOfRecords(p: PaperRecord<nat>, rs: seq<AuthorRecord<nat>>, r: MembershipRecord<nat>): ArxivFeedEntry
  {
    ArxivFeedEntry(p.arxivId, p.arxivRev, p.title, p.doiId, r.categoryId, AuthorsOfRecords(rs), p.createdAt, p.updatedAt)
  }

  /** Every field the converter reads can be read back from its records, so
      two entries convert alike exactly when they are equal. */
  lemma ConvertedInjective(e1: ArxivFeedEntry, e2: ArxivFeedEntry)
    ensures EntryOfRecords(GetPaperData(e1), GetPaperAuthors(e1), GetPaperMembership(e1)) == e1
    ensures (GetPaperData(e1), GetPaperAuthors(e1), GetPaperMembership(e1)) == (GetPaperData(e2), GetPaperAuthors(e2), GetPaperMembership(e2))
        <==> e1 == e2
  {
    assert EntryOfRecords(GetPaperData(e2), GetPaperAuthors(e2), GetPaperMembership(e2)) == e2;
  }
}
