/** Character classes and small scanners standing in for the Python string
    operations the parsers use: the regular-expression class `\s`,
    `str.split()`, and `int()` on a run of decimal digits. */
module Text {
  import opened Outcomes

  /** Python's Unicode whitespace: what `\s` matches in a str pattern and what
      `str.split()` and `str.strip()` with no argument treat as whitespace. */
  predicate IsSpace(c: char)
  {
    || c == ' '
    || ('\t' <= c <= '\r')
    || ('\U{1c}' <= c <= '\U{1f}')
    || c == '\U{85}' || c == '\U{a0}' || c == '\U{1680}'
    || ('\U{2000}' <= c <= '\U{200a}')
    || c == '\U{2028}' || c == '\U{2029}' || c == '\U{202f}' || c == '\U{205f}' || c == '\U{3000}'
  }

  predicate NonSpace(c: char)
  {
    !IsSpace(c)
  }

  /** A decimal digit as `\d` matches it (ASCII digits only in this model). */
  predicate IsDigit(c: char)
  {
    '0' <= c <= '9'
  }

  /** Length of the leading whitespace of s. */
  function SpaceRun(s: string): (n: nat)
    ensures n <= |s|
    ensures forall j :: 0 <= j < n ==> IsSpace(s[j])
    ensures n == |s| || !IsSpace(s[n])
  {
    if s == [] || !IsSpace(s[0]) then 0 else 1 + SpaceRun(s[1..])
  }

  /** Length of the leading non-whitespace of s. */
  function WordRun(s: string): (n: nat)
    ensures n <= |s|
    ensures forall j :: 0 <= j < n ==> NonSpace(s[j])
    ensures n == |s| || !NonSpace(s[n])
  {
    if s == [] || !NonSpace(s[0]) then 0 else 1 + WordRun(s[1..])
  }

  /** Length of the leading decimal digits of s. */
  function DigitRun(s: string): (n: nat)
    ensures n <= |s|
    ensures forall j :: 0 <= j < n ==> IsDigit(s[j])
    ensures n == |s| || !IsDigit(s[n])
  {
    if s == [] || !IsDigit(s[0]) then 0 else 1 + DigitRun(s[1..])
  }

  /** The first maximal run of non-whitespace after the leading whitespace. */
  function Token(s: string): string
    requires SpaceRun(s) < |s|
  {
    var t := s[SpaceRun(s)..];
    t[..WordRun(t)]
  }

  /** What follows the first token. */
  function Rest(s: string): (rest: string)
    requires SpaceRun(s) < |s|
    ensures |rest| < |s|
  {
    var t := s[SpaceRun(s)..];
    assert t[0] == s[SpaceRun(s)];
    t[WordRun(t)..]
  }

  /** `str.split()` with no separator: the maximal runs of non-whitespace, in order. */
  function Words(s: string): (ws: seq<string>)
    decreases |s|
  {
    if SpaceRun(s) == |s| then [] else [Token(s)] + Words(Rest(s))
  }

  /** `int()` applied to a string of decimal digits. */
  function DigitsValue(ds: string): (v: nat)
    requires forall c :: c in ds ==> IsDigit(c)
  {
    if ds == [] then 0
    else
      var last := ds[|ds| - 1];
      assert last in ds && IsDigit(last);
      DigitsValue(ds[..|ds| - 1]) * 10 + (last as int - '0' as int)
  }

  /** split() finds a word exactly when the string holds a non-whitespace
      character, and then its first word is the token after the leading
      whitespace. */
  lemma FirstWord(s: string)
    ensures Words(s) == [] <==> forall j :: 0 <= j < |s| ==> IsSpace(s[j])
    ensures Words(s) != [] ==> SpaceRun(s) < |s| && Words(s)[0] == Token(s)
  {
    var k := SpaceRun(s);
    if k < |s| {
      assert !IsSpace(s[k]);
    }
  }

  lemma {:induction false} SpaceRunExact(s: string, n: nat)
    requires n <= |s|
    requires forall j :: 0 <= j < n ==> IsSpace(s[j])
    requires n == |s| || !IsSpace(s[n])
    ensures SpaceRun(s) == n
  {
    if n > 0 {
      SpaceRunExact(s[1..], n - 1);
    }
  }

  lemma {:induction false} WordRunExact(s: string, n: nat)
    requires n <= |s|
    requires forall j :: 0 <= j < n ==> NonSpace(s[j])
    requires n == |s| || !NonSpace(s[n])
    ensures WordRun(s) == n
  {
    if n > 0 {
      forall j | 0 <= j < n - 1
        ensures NonSpace(s[1..][j])
      {
        assert s[1..][j] == s[j + 1];
      }
      WordRunExact(s[1..], n - 1);
    }
  }

  /** The token is the first maximal non-whitespace run: in whitespace, then
      a word, then whitespace or nothing, the token is that word. */
  lemma TokenOfWord(lead: string, word: string, rest: string)
    requires forall j :: 0 <= j < |lead| ==> IsSpace(lead[j])
    requires word != [] && forall j :: 0 <= j < |word| ==> !IsSpace(word[j])
    requires rest == [] || IsSpace(rest[0])
    ensures SpaceRun(lead + word + rest) == |lead| < |lead + word + rest|
    ensures Token(lead + word + rest) == word
  {
    var s := lead + word + rest;
    var t := word + rest;
    assert s[|lead|..] == t;
    assert SpaceRun(s) == |lead| by {
      forall j | 0 <= j < |lead|
        ensures IsSpace(s[j])
      {
        assert s[j] == lead[j];
      }
      assert s[|lead|] == word[0];
      SpaceRunExact(s, |lead|);
    }
    assert WordRun(t) == |word| by {
      forall j | 0 <= j < |word|
        ensures NonSpace(t[j])
      {
        assert t[j] == word[j];
      }
      assert |word| < |t| ==> t[|word|] == rest[0];
      WordRunExact(t, |word|);
    }
    assert t[..|word|] == word;
  }
}
