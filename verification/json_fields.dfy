/** One object of the arXiv metadata snapshot (one JSON line per paper) and
    the field rules both JSON parsers share: positional author names, the
    DOI rule, and the category token. */
module JsonFields {
  import opened Outcomes
  import opened Text
  import opened Models

  /** An element of `versions`: its label ("v1") and its creation date text. */
  datatype JsonVersion = JsonVersion(version: string, created: string)

  /** The fields the parsers read (`abstract` is called summary here, the
      word being reserved); a JSON `null` DOI is None. */
  datatype JsonEntry = JsonEntry(
    id: string,
    title: string,
    summary: string,
    categories: string,
    authorsParsed: seq<seq<string>>,
    doi: Option<string>,
    versions: seq<JsonVersion>)

  predicate HasTwoParts(parts: seq<string>)
  {
    |parts| >= 2
  }

  /** `_parse_authors` from position k on. */
  function AuthorNamesFrom(entries: seq<seq<string>>, k: nat): (r: Result<seq<string>, ParseError>)
    requires k <= |entries|
    decreases |entries| - k
    ensures r.Success? <==> forall i :: k <= i < |entries| ==> HasTwoParts(entries[i])
    ensures r.Success? ==> |r.value| == |entries| - k
    ensures r.Success? ==> forall i :: k <= i < |entries| ==> r.value[i - k] == entries[i][0] + " " + entries[i][1]
    ensures r.Failure? ==> r.error.AuthorEntryTooShort? && k <= r.error.index < |entries|
    ensures r.Failure? ==> !HasTwoParts(entries[r.error.index])
    ensures r.Failure? ==> forall i :: k <= i < r.error.index ==> HasTwoParts(entries[i])
  {
    if k == |entries| then Success([])
    else if !HasTwoParts(entries[k]) then Failure(AuthorEntryTooShort(k))
    else
      match AuthorNamesFrom(entries, k + 1)
      case Failure(e) => Failure(e)
      case Success(rest) => Success([entries[k][0] + " " + entries[k][1]] + rest)
  }

  /** `_parse_authors`: one name per entry, in order, its first two
      components joined by a space (any further component is dropped); the
      first entry with fewer than two components makes the indexing raise. */
  function ParseAuthors(entries: seq<seq<string>>): (r: Result<seq<string>, ParseError>)
    ensures r.Success? <==> forall i :: 0 <= i < |entries| ==> HasTwoParts(entries[i])
    ensures r.Success? ==> |r.value| == |entries|
    ensures r.Success? ==> forall i :: 0 <= i < |entries| ==> r.value[i] == entries[i][0] + " " + entries[i][1]
    ensures r.Failure? ==> r.error.AuthorEntryTooShort? && r.error.index < |entries|
    ensures r.Failure? ==> !HasTwoParts(entries[r.error.index])
    ensures r.Failure? ==> forall i :: 0 <= i < r.error.index ==> HasTwoParts(entries[i])
  {
    AuthorNamesFrom(entries, 0)
  }

  /** The names of the second sample of the JSON tests. */
  lemma ParseAuthorsExample()
    ensures ParseAuthors([["Streinu", "Ileana", ""], ["Theran", "Louis", ""]])
         == Success(["Streinu Ileana", "Theran Louis"])
  {
    var r := ParseAuthors([["Streinu", "Ileana", ""], ["Theran", "Louis", ""]]);
    assert r.Success? && |r.value| == 2;
    assert "Streinu" + " " + "Ileana" == "Streinu Ileana";
    assert "Theran" + " " + "Louis" == "Theran Louis";
    assert r.value == ["Streinu Ileana", "Theran Louis"];
  }

  /** `_extract_doi`: the `doi` field, or "" and an info diagnostic naming
      the entry's `id` when the field is null; it never fails. */
  function ExtractDoi(entry: JsonEntry): (r: (string, seq<Diagnostic>))
    ensures entry.doi.Some? ==> r.0 == entry.doi.value
    ensures r.1 != [] <==> entry.doi.None?
    ensures entry.doi.None? ==> r.0 == "" && r.1 == [MissingDoi(entry.id)]
  {
    match entry.doi
    case Some(doi) => (doi, [])
    case None => ("", [MissingDoi(entry.id)])
  }

  /** `categories.split()[0]`: the first whitespace-separated token, or the
      IndexError of an empty split. */
  function FirstCategory(categories: string): (r: Result<string, ParseError>)
    ensures r.Failure? <==> forall j :: 0 <= j < |categories| ==> IsSpace(categories[j])
    ensures r.Failure? ==> r.error == NoCategoryToken
    ensures r.Success? ==> SpaceRun(categories) < |categories| && r.value == Token(categories)
  {
    FirstWord(categories);
    var ws := Words(categories);
    if ws == [] then Failure(NoCategoryToken) else Success(ws[0])
  }

  /** The category is the first maximal non-whitespace run: after leading
      whitespace, a token followed by whitespace or by nothing is what the
      split yields first. */
  lemma FirstCategoryOfToken(lead: string, token: string, rest: string)
    requires forall j :: 0 <= j < |lead| ==> IsSpace(lead[j])
    requires token != [] && forall j :: 0 <= j < |token| ==> !IsSpace(token[j])
    requires rest == [] || IsSpace(rest[0])
    ensures FirstCategory(lead + token + rest) == Success(token)
  {
    TokenOfWord(lead, token, rest);
  }
}
