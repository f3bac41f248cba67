/** The regular expressions the parsers apply to an entry id or a version
    label, written out as string functions: the unanchored prefix pattern
    `http://arxiv.org/abs/` (its dots unescaped, so each matches any character
    but a newline), and the first `v` followed by one or more digits, taken
    greedily. */
module ArxivIds {
  import opened Outcomes
  import opened Text

  /** The prefix pattern, character by character. */
  const AbsPrefix: string := "http://arxiv.org/abs/"

  /** One pattern character against one subject character: an unescaped '.'
      matches anything except a newline, every other character itself. */
  predicate PatternCharMatches(p: char, c: char)
  {
    if p == '.' then c != '\n' else c == p
  }

  /** The prefix pattern matches s at position i. */
  predicate PrefixAt(s: string, i: nat)
  {
    i + |AbsPrefix| <= |s| && forall j :: 0 <= j < |AbsPrefix| ==> PatternCharMatches(AbsPrefix[j], s[i + j])
  }

  /** Where `re.sub(prefix, "", s, count=1)` matches: the leftmost position
      at or after lo. */
  function FindPrefix(s: string, lo: nat := 0): (r: Option<nat>)
    decreases |s| + 1 - lo
    ensures r.Some? ==> lo <= r.value && PrefixAt(s, r.value) && forall j :: lo <= j < r.value ==> !PrefixAt(s, j)
    ensures r.None? ==> forall j: nat :: lo <= j ==> !PrefixAt(s, j)
  {
    if lo > |s| then None
    else if PrefixAt(s, lo) then Some(lo)
    else FindPrefix(s, lo + 1)
  }

  /** `re.sub(prefix, "", s, count=1)`: the leftmost match is cut out. */
  function RemovePrefix(s: string): (r: string)
    ensures |r| == if FindPrefix(s).Some? then |s| - |AbsPrefix| else |s|
  {
    match FindPrefix(s)
    case None => s
    case Some(i) => s[..i] + s[i + |AbsPrefix|..]
  }

  /** `v\d+` can start at position i. */
  predicate VDigitsAt(s: string, i: nat)
  {
    i + 1 < |s| && s[i] == 'v' && IsDigit(s[i + 1])
  }

  predicate NoVDigits(s: string)
  {
    forall i :: 0 <= i < |s| ==> !VDigitsAt(s, i)
  }

  /** Where `re.search(r"v(\d+)", s)` matches: the leftmost position at or
      after lo. */
  function FindVDigits(s: string, lo: nat := 0): (r: Option<nat>)
    decreases |s| - lo
    ensures r.Some? ==> lo <= r.value && VDigitsAt(s, r.value) && forall j :: lo <= j < r.value ==> !VDigitsAt(s, j)
    ensures r.None? ==> forall j :: lo <= j < |s| ==> !VDigitsAt(s, j)
  {
    if lo >= |s| then None
    else if VDigitsAt(s, lo) then Some(lo)
    else FindVDigits(s, lo + 1)
  }

  /** The digits `\d+` takes after the 'v' at i: greedy, so the run is maximal. */
  function DigitsAfter(s: string, i: nat): (ds: string)
    requires VDigitsAt(s, i)
    ensures 1 <= |ds| && i + 1 + |ds| <= |s|
    ensures ds == s[i + 1..i + 1 + |ds|]
    ensures forall c :: c in ds ==> IsDigit(c)
    ensures i + 1 + |ds| == |s| || !IsDigit(s[i + 1 + |ds|])
  {
    var t := s[i + 1..];
    var n := DigitRun(t);
    assert forall c :: c in t[..n] ==> IsDigit(c) by {
      forall c | c in t[..n] ensures IsDigit(c) {
        var k :| 0 <= k < n && t[..n][k] == c;
      }
    }
    t[..n]
  }

  /** `re.sub(r"v\d+", "", s, count=1)`: the leftmost match, 'v' and all its
      digits, is cut out; the string changes exactly when there is a match. */
  function RemoveVDigits(s: string): (r: string)
    ensures |r| <= |s|
    ensures FindVDigits(s).None? <==> r == s
  {
    match FindVDigits(s)
    case None => s
    case Some(i) => s[..i] + s[i + 1 + |DigitsAfter(s, i)|..]
  }

  /** `_extract_id`: the prefix match removed, then the first `v<digits>`. */
  function ExtractId(entryId: string): string
  {
    RemoveVDigits(RemovePrefix(entryId))
  }

  /** `_extract_rev` of the feed parsers and of the newer JSON parser:
      `int()` of the first `v(\d+)` group of the raw string, or 1. */
  function ExtractRev(s: string): (rev: nat)
    ensures FindVDigits(s).None? ==> rev == 1
  {
    match FindVDigits(s)
    case None => 1
    case Some(i) => DigitsValue(DigitsAfter(s, i))
  }

  /** `_extract_rev` of the older JSON parser: the matched text of the first
      `v\d+`, the 'v' included, or the string "1". */
  function ExtractRevLabel(s: string): (tag: string)
    ensures tag == "1" <==> FindVDigits(s).None?
    ensures tag != "1" ==> |tag| >= 2 && tag[0] == 'v' && forall c :: c in tag[1..] ==> IsDigit(c)
  {
    match FindVDigits(s)
    case None => "1"
    case Some(i) =>
      var ds := DigitsAfter(s, i);
      assert ("v" + ds)[1..] == ds;
      "v" + ds
  }

  /** The label and the number read the same match: the label's digits are
      the number, and the missing match gives "1" and 1. */
  lemma RevLabelAgreesWithRev(s: string)
    ensures ExtractRevLabel(s) == "1" ==> ExtractRev(s) == 1
    ensures ExtractRevLabel(s) != "1" ==> ExtractRev(s) == DigitsValue(ExtractRevLabel(s)[1..])
  {
    if FindVDigits(s).Some? {
      var ds := DigitsAfter(s, FindVDigits(s).value);
      assert ("v" + ds)[1..] == ds;
    }
  }

  lemma DigitRunAll(t: string)
    requires forall j :: 0 <= j < |t| ==> IsDigit(t[j])
    ensures DigitRun(t) == |t|
  {
  }

  /** A string free of `v<digit>` followed by one that starts with a match:
      the first match is at the seam, and reads the second string's digits. */
  lemma FindVDigitsAtSeam(a: string, b: string)
    requires NoVDigits(a)
    requires VDigitsAt(b, 0)
    ensures FindVDigits(a + b) == Some(|a|)
    ensures DigitsAfter(a + b, |a|) == DigitsAfter(b, 0)
  {
    var s := a + b;
    assert VDigitsAt(s, |a|);
    forall j | 0 <= j < |a| ensures !VDigitsAt(s, j) {
      if j + 1 < |a| {
        assert s[j] == a[j] && s[j + 1] == a[j + 1];
        assert !VDigitsAt(a, j);
      } else {
        assert s[j + 1] == b[0] == 'v';
      }
    }
    assert s[|a| + 1..] == b[1..];
  }

  /** Gluing two strings free of `v<digit>` keeps it so when the first does
      not end in 'v'. */
  lemma NoVDigitsConcat(a: string, b: string)
    requires NoVDigits(a) && NoVDigits(b)
    requires a == [] || a[|a| - 1] != 'v'
    ensures NoVDigits(a + b)
  {
    var s := a + b;
    forall i | 0 <= i < |s| ensures !VDigitsAt(s, i) {
      if i + 1 < |a| {
        assert !VDigitsAt(a, i);
      } else if i >= |a| {
        assert !VDigitsAt(b, i - |a|);
      }
    }
  }

  lemma AbsPrefixMatches()
    ensures PrefixAt(AbsPrefix, 0)
    ensures NoVDigits(AbsPrefix)
  {
    forall i | 0 <= i < |AbsPrefix| ensures !VDigitsAt(AbsPrefix, i) {
      if i + 1 < |AbsPrefix| {
        assert !IsDigit(AbsPrefix[i + 1]);
      }
    }
  }

  lemma VersionSuffix(ds: string)
    requires |ds| >= 1 && forall c :: c in ds ==> IsDigit(c)
    ensures VDigitsAt("v" + ds, 0) && DigitsAfter("v" + ds, 0) == ds
  {
    var tail := "v" + ds;
    assert ds[0] in ds;
    assert tail[1..] == ds;
    DigitRunAll(ds);
  }

  /** A string that starts with a match of the prefix pattern loses exactly
      that match. */
  lemma RemoveLeadingPrefix(p: string, rest: string)
    requires |p| == |AbsPrefix| && PrefixAt(p, 0)
    ensures RemovePrefix(p + rest) == rest
  {
    var s := p + rest;
    assert PrefixAt(s, 0) by {
      forall j | 0 <= j < |AbsPrefix| ensures PatternCharMatches(AbsPrefix[j], s[j]) {
        assert s[j] == p[j];
      }
    }
    assert FindPrefix(s) == Some(0);
    assert s[..0] + s[|AbsPrefix|..] == rest;
  }

  /** A trailing version suffix after a base id without `v<digit>` is the
      part `v\d+` removes. */
  lemma RemoveVersionSuffix(base: string, ds: string)
    requires NoVDigits(base)
    requires |ds| >= 1 && forall c :: c in ds ==> IsDigit(c)
    ensures RemoveVDigits(base + ("v" + ds)) == base
  {
    var tail := "v" + ds;
    VersionSuffix(ds);
    FindVDigitsAtSeam(base, tail);
    var s := base + tail;
    assert s[..|base|] == base;
    assert s[|base| + 1 + |ds|..] == [];
  }

  /** The round trip the feed parsers rely on: an id written as a matching
      prefix, a base id without `v<digit>`, then `v` and a revision number,
      comes apart into exactly that base id and that number. */
  lemma {:induction false} IdAndRevOfCanonical(p: string, base: string, ds: string)
    requires |p| == |AbsPrefix| && PrefixAt(p, 0) && NoVDigits(p)
    requires NoVDigits(base)
    requires |ds| >= 1 && forall c :: c in ds ==> IsDigit(c)
    ensures ExtractId(p + base + "v" + ds) == base
    ensures ExtractRev(p + base + "v" + ds) == DigitsValue(ds)
  {
    var tail := "v" + ds;
    assert p + base + "v" + ds == p + (base + tail) == (p + base) + tail;
    RemoveLeadingPrefix(p, base + tail);
    RemoveVersionSuffix(base, ds);
    // The revision is read from the raw id, past the prefix and the base id.
    assert p[|p| - 1] == '/' by {
      assert PatternCharMatches(AbsPrefix[20], p[0 + 20]);
    }
    NoVDigitsConcat(p, base);
    VersionSuffix(ds);
    FindVDigitsAtSeam(p + base, tail);
  }

  /** The identifier of the feed tests: `hep-ex/0307015`, revision 1. */
  lemma HepExExample()
    ensures ExtractId("http://arxiv.org/abs/hep-ex/0307015v1") == "hep-ex/0307015"
    ensures ExtractRev("http://arxiv.org/abs/hep-ex/0307015v1") == 1
  {
    var base := "hep-ex/0307015";
    forall i | 0 <= i < |base| ensures !VDigitsAt(base, i) {
      if i + 1 < |base| {
        assert base[i] != 'v';
      }
    }
    AbsPrefixMatches();
    assert DigitsValue("1") == 1;
    assert AbsPrefix + base + "v" + "1" == "http://arxiv.org/abs/hep-ex/0307015v1";
    IdAndRevOfCanonical(AbsPrefix, base, "1");
  }

  /** The dots of the prefix pattern are wildcards: a host written with
      another character in their place is cut just the same. */
  lemma WildcardDotExample()
    ensures ExtractId("http://arxiv-org/abs/0704.0001v2") == "0704.0001"
    ensures ExtractRev("http://arxiv-org/abs/0704.0001v2") == 2
  {
    var p, base := "http://arxiv-org/abs/", "0704.0001";
    assert PrefixAt(p, 0) by {
      forall j | 0 <= j < |AbsPrefix| ensures PatternCharMatches(AbsPrefix[j], p[j]) {
      }
    }
    forall i | 0 <= i < |p| ensures !VDigitsAt(p, i) {
      if i + 1 < |p| {
        assert !IsDigit(p[i + 1]);
      }
    }
    forall i | 0 <= i < |base| ensures !VDigitsAt(base, i) {
      if i + 1 < |base| {
        assert base[i] != 'v';
      }
    }
    assert DigitsValue("2") == 2;
    assert p + base + "v" + "2" == "http://arxiv-org/abs/0704.0001v2";
    IdAndRevOfCanonical(p, base, "2");
  }
}
