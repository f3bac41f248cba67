/** The three records one paper revision is stored as: a Paper record, one
    PaperAuthor record per author and CategoryMembership records, all keyed
    by the pair (arxiv_id, arxiv_rev). The revision type is a parameter: an
    integer in the newer model, a number or a label in the older one. */
module Records {
  import opened Models

  /** The eight fields of a Paper record. */
  datatype PaperRecord<R> = PaperRecord(
    arxivId: string,
    arxivRev: R,
    title: string,
    doiId: string,
    revisionDate: Date,
    submissionDate: Date,
    createdAt: Instant,
    updatedAt: Instant)

  datatype AuthorRecord<R> = AuthorRecord(arxivId: string, arxivRev: R, authorName: string, createdAt: Instant)

  datatype MembershipRecord<R> = MembershipRecord(arxivId: string, arxivRev: R, categoryId: string, createdAt: Instant)

  /** The three parts of a PaperMetadata record. */
  datatype PaperMetadata<R> = PaperMetadata(
    paper: PaperRecord<R>,
    authors: seq<AuthorRecord<R>>,
    memberships: seq<MembershipRecord<R>>)

  /** The two calendar dates of a paper record are those of its two timestamps. */
  predicate WellDated<R>(p: PaperRecord<R>)
  {
    p.revisionDate == p.updatedAt.date && p.submissionDate == p.createdAt.date
  }

  ghost predicate AuthorsShareKey<R>(rs: seq<AuthorRecord<R>>, id: string, rev: R, created: Instant)
  {
    forall i :: 0 <= i < |rs| ==> rs[i].arxivId == id && rs[i].arxivRev == rev && rs[i].createdAt == created
  }

  ghost predicate MembershipsShareKey<R>(ms: seq<MembershipRecord<R>>, id: string, rev: R, created: Instant)
  {
    forall i :: 0 <= i < |ms| ==> ms[i].arxivId == id && ms[i].arxivRev == rev && ms[i].createdAt == created
  }

  /** Every author and membership record carries the paper record's key and
      creation timestamp. */
  ghost predicate Keyed<R>(pm: PaperMetadata<R>)
  {
    && AuthorsShareKey(pm.authors, pm.paper.arxivId, pm.paper.arxivRev, pm.paper.createdAt)
    && MembershipsShareKey(pm.memberships, pm.paper.arxivId, pm.paper.arxivRev, pm.paper.createdAt)
  }

  /** The author names, in record order. */
  function AuthorsOfRecords<R>(rs: seq<AuthorRecord<R>>): seq<Author>
  {
    seq(|rs|, i requires 0 <= i < |rs| => Author(rs[i].authorName))
  }

  /** The category names, in record order. */
  function CategoriesOfRecords<R>(ms: seq<MembershipRecord<R>>): seq<Category>
  {
    seq(|ms|, i requires 0 <= i < |ms| => Category(ms[i].categoryId))
  }

  /** A paper record: the revision and submission dates are the calendar
      dates of the update and creation timestamps. */
  function PaperRecordOf<R>(id: string, rev: R, title: string, doi: string, created: Instant, updated: Instant): (p: PaperRecord<R>)
    ensures WellDated(p)
    ensures p.createdAt == created && p.updatedAt == updated
  {
    PaperRecord(id, rev, title, doi, updated.date, created.date, created, updated)
  }

  /** One author record per author, in order, all with the same key. */
  function AuthorRecordsOf<R>(id: string, rev: R, created: Instant, authors: seq<Author>): (rs: seq<AuthorRecord<R>>)
    ensures AuthorsOfRecords(rs) == authors
    ensures AuthorsShareKey(rs, id, rev, created)
  {
    seq(|authors|, i requires 0 <= i < |authors| => AuthorRecord(id, rev, authors[i].name, created))
  }

  /** One membership record per category, in order, all with the same key. */
  function MembershipRecordsOf<R>(id: string, rev: R, created: Instant, categories: seq<Category>): (ms: seq<MembershipRecord<R>>)
    ensures CategoriesOfRecords(ms) == categories
    ensures MembershipsShareKey(ms, id, rev, created)
  {
    seq(|categories|, i requires 0 <= i < |categories| => MembershipRecord(id, rev, categories[i].name, created))
  }
}
