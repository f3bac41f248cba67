/** `ArxivMetadataMapper` of the older code: the records of one older
    metadata entry, which has a single category and so a single membership
    record. The schemas' load and dump are taken as the identity. */
module RecordMapping {
  import opened Models
  import opened Records

  /** `get_paper_data`. */
  function GetPaperData(m: LegacyMetadata): (p: PaperRecord<Revision>)
    ensures WellDated(p)
    ensures p.arxivId == m.paperId && p.arxivRev == m.paperRev
    ensures p.title == m.paperTitle && p.doiId == m.paperDoi
    ensures p.createdAt == m.paperCreatedAt && p.updatedAt == m.paperUpdatedAt
  {
    PaperRecordOf(m.paperId, m.paperRev, m.paperTitle, m.paperDoi, m.paperCreatedAt, m.paperUpdatedAt)
  }

  /** `get_paper_authors`: one record per author, in order, each the author
      name plus the shared id, revision and creation timestamp. */
  function GetPaperAuthors(m: LegacyMetadata): (rs: seq<AuthorRecord<Revision>>)
    ensures |rs| == |m.paperAuthors| && AuthorsOfRecords(rs) == m.paperAuthors
    ensures AuthorsShareKey(rs, m.paperId, m.paperRev, m.paperCreatedAt)
  {
    AuthorRecordsOf(m.paperId, m.paperRev, m.paperCreatedAt, m.paperAuthors)
  }

  /** `get_paper_membership`: exactly one record, for the entry's category. */
  function GetPaperMembership(m: LegacyMetadata): (r: MembershipRecord<Revision>)
    ensures MembershipsShareKey([r], m.paperId, m.paperRev, m.paperCreatedAt)
    ensures CategoriesOfRecords([r]) == [Category(m.paperCategory)]
  {
    MembershipRecord(m.paperId, m.paperRev, m.paperCategory, m.paperCreatedAt)
  }

  /** The three mapped parts carry one key. */
  lemma MappedRecordsShareKey(m: LegacyMetadata)
    ensures var pm := PaperMetadata(GetPaperData(m), GetPaperAuthors(m), [GetPaperMembership(m)]);
      Keyed(pm) && WellDated(pm.paper) && pm.paper.arxivId == m.paperId && pm.paper.arxivRev == m.paperRev
  {
    var p := GetPaperData(m);
    assert MembershipsShareKey([GetPaperMembership(m)], p.arxivId, p.arxivRev, p.createdAt);
  }

  /** An entry with the fields the mapper does not read cleared. */
  function Erase(m: LegacyMetadata): LegacyMetadata
  {
    m.(paperDescription := "", paperLinks := [])
  }

  /** The entry the three parts describe, with no description and no links. */
  function LegacyOfRecords(p: PaperRecord<Revision>, rs: seq<AuthorRecord<Revision>>, r: MembershipRecord<Revision>): LegacyMetadata
  {
    LegacyMetadata(p.arxivId, p.arxivRev, p.title, "", r.categoryId, p.doiId, AuthorsOfRecords(rs), [],
                   p.createdAt, p.updatedAt)
  }

  lemma MappedReadBack(m: LegacyMetadata)
    ensures LegacyOfRecords(GetPaperData(m), GetPaperAuthors(m), GetPaperMembership(m)) == Erase(m)
  {
  }

  /** Two entries map to the same parts exactly when they agree on every
      field but the description and the links. */
  lemma MappedInjective(m1: LegacyMetadata, m2: LegacyMetadata)
    ensures (GetPaperData(m1), GetPaperAuthors(m1), GetPaperMembership(m1)) == (GetPaperData(m2), GetPaperAuthors(m2), GetPaperMembership(m2))
        <==> Erase(m1) == Erase(m2)
  {
    if (GetPaperData(m1), GetPaperAuthors(m1), GetPaperMembership(m1)) == (GetPaperData(m2), GetPaperAuthors(m2), GetPaperMembership(m2)) {
      MappedReadBack(m1);
      MappedReadBack(m2);
    }
    if Erase(m1) == Erase(m2) {
      assert m1.paperId == m2.paperId && m1.paperRev == m2.paperRev && m1.paperDoi == m2.paperDoi;
      assert m1.paperTitle == m2.paperTitle && m1.paperCategory == m2.paperCategory;
      assert m1.paperAuthors == m2.paperAuthors;
      assert m1.paperCreatedAt == m2.paperCreatedAt && m1.paperUpdatedAt == m2.paperUpdatedAt;
    }
  }
}
