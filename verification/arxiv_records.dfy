/** `ArxivMetadata.paper_metadata` of the newer model: the records of one
    metadata entry. The title, DOI and the two timestamps go into the paper
    record; the description and the links are not carried. */
module ArxivRecords {
  import opened Models
  import opened Records

  /** `_build_paper_record`. */
  function BuildPaperRecord(m: Metadata): (p: PaperRecord<nat>)
    ensures WellDated(p)
    ensures p.arxivId == m.paperId && p.arxivRev == m.paperRev
    ensures p.title == m.paperTitle && p.doiId == m.paperDoi
    ensures p.createdAt == m.paperCreatedAt && p.updatedAt == m.paperUpdatedAt
  {
    PaperRecordOf(m.paperId, m.paperRev, m.paperTitle, m.paperDoi, m.paperCreatedAt, m.paperUpdatedAt)
  }

  /** `_build_author_records`: one record per author, in order. */
  function BuildAuthorRecords(m: Metadata): (rs: seq<AuthorRecord<nat>>)
    ensures |rs| == |m.paperAuthors| && AuthorsOfRecords(rs) == m.paperAuthors
    ensures AuthorsShareKey(rs, m.paperId, m.paperRev, m.paperCreatedAt)
  {
    AuthorRecordsOf(m.paperId, m.paperRev, m.paperCreatedAt, m.paperAuthors)
  }

  /** `_build_membership_records`: one record per category, in order; none
      for an entry without categories. */
  function BuildMembershipRecords(m: Metadata): (ms: seq<MembershipRecord<nat>>)
    ensures |ms| == |m.paperCategories| && CategoriesOfRecords(ms) == m.paperCategories
    ensures MembershipsShareKey(ms, m.paperId, m.paperRev, m.paperCreatedAt)
  {
    MembershipRecordsOf(m.paperId, m.paperRev, m.paperCreatedAt, m.paperCategories)
  }

  /** `paper_metadata`: the paper, authors and memberships parts. */
  function PaperMetadataOf(m: Metadata): (pm: PaperMetadata<nat>)
    ensures Keyed(pm) && WellDated(pm.paper)
    ensures pm.paper.arxivId == m.paperId && pm.paper.arxivRev == m.paperRev
  {
    PaperMetadata(BuildPaperRecord(m), BuildAuthorRecords(m), BuildMembershipRecords(m))
  }

  /** An entry with the fields the records do not carry cleared. */
  function Erase(m: Metadata): Metadata
  {
    m.(paperDescription := "", paperLinks := [])
  }

  /** The entry the records describe, with no description and no links. */
  function MetadataOfRecords(pm: PaperMetadata<nat>): Metadata
  {
    Metadata(pm.paper.arxivId, pm.paper.arxivRev, pm.paper.doiId, pm.paper.title, "",
             CategoriesOfRecords(pm.memberships), AuthorsOfRecords(pm.authors), [],
             pm.paper.createdAt, pm.paper.updatedAt)
  }

  /** The records keep every field of the entry but the description and the
      links. */
  lemma RecordsReadBack(m: Metadata)
    ensures MetadataOfRecords(PaperMetadataOf(m)) == Erase(m)
  {
    var pm := PaperMetadataOf(m);
    assert AuthorsOfRecords(pm.authors) == m.paperAuthors;
    assert CategoriesOfRecords(pm.memberships) == m.paperCategories;
  }

  /** Two entries give the same records exactly when they agree on every
      field but the description and the links. */
  lemma RecordsInjective(m1: Metadata, m2: Metadata)
    ensures PaperMetadataOf(m1) == PaperMetadataOf(m2) <==> Erase(m1) == Erase(m2)
  {
    if PaperMetadataOf(m1) == PaperMetadataOf(m2) {
      RecordsReadBack(m1);
      RecordsReadBack(m2);
    }
    if Erase(m1) == Erase(m2) {
      assert m1.paperId == m2.paperId && m1.paperRev == m2.paperRev && m1.paperDoi == m2.paperDoi;
      assert m1.paperTitle == m2.paperTitle && m1.paperCategories == m2.paperCategories;
      assert m1.paperAuthors == m2.paperAuthors;
      assert m1.paperCreatedAt == m2.paperCreatedAt && m1.paperUpdatedAt == m2.paperUpdatedAt;
    }
  }
}
