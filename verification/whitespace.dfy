/** `_parse_string` of the parsers: `re.sub(r"\s\s+", " ", s)`, which
    replaces every maximal run of two or more whitespace characters by one
    space, and the trimmed variant `re.sub(...).strip()` of the older JSON
    parser. */
module Whitespace {
  import opened Text

  /** No two whitespace characters stand next to each other. */
  ghost predicate NoAdjacentSpaces(s: string)
  {
    forall i, j :: 0 <= i && j == i + 1 && j < |s| ==> !(IsSpace(s[i]) && IsSpace(s[j]))
  }

  /** The non-whitespace characters of s, in order. */
  function NonSpaces(s: string): string
  {
    if s == [] then [] else (if IsSpace(s[0]) then [] else [s[0]]) + NonSpaces(s[1..])
  }

  /** The substitution, scanning left to right as the regular-expression
      engine does: a whitespace character followed by another one starts a
      match that greedily extends over the whole run. */
  function Collapse(s: string): (r: string)
    decreases |s|
    ensures |r| <= |s|
    ensures s != [] ==> r != [] && (IsSpace(r[0]) <==> IsSpace(s[0]))
  {
    if s == [] then []
    else if !IsSpace(s[0]) then [s[0]] + Collapse(s[1..])
    else
      var n := SpaceRun(s);
      (if n >= 2 then " " else s[..1]) + Collapse(s[n..])
  }

  lemma {:induction false} CollapseNoAdjacent(s: string)
    ensures NoAdjacentSpaces(Collapse(s))
    decreases |s|
  {
    if s != [] {
      var n := if IsSpace(s[0]) then SpaceRun(s) else 1;
      var head := if IsSpace(s[0]) && n >= 2 then " " else s[..1];
      var tail := Collapse(s[n..]);
      CollapseNoAdjacent(s[n..]);
      assert Collapse(s) == head + tail;
      assert IsSpace(head[0]) ==> tail == [] || !IsSpace(tail[0]);
      forall i, j | 0 <= i && j == i + 1 && j < |head + tail|
        ensures !(IsSpace((head + tail)[i]) && IsSpace((head + tail)[j]))
      {
        if i > 0 {
          assert (head + tail)[i] == tail[i - 1] && (head + tail)[j] == tail[j - 1];
        }
      }
    }
  }

  /** A string without adjacent whitespace is left as it is: lone whitespace
      characters (a single tab or newline) survive and nothing is trimmed. */
  lemma {:induction false} CollapseFixpoint(s: string)
    requires NoAdjacentSpaces(s)
    ensures Collapse(s) == s
    decreases |s|
  {
    if s != [] {
      assert NoAdjacentSpaces(s[1..]) by {
        forall i, j | 0 <= i && j == i + 1 && j < |s[1..]|
          ensures !(IsSpace(s[1..][i]) && IsSpace(s[1..][j]))
        {
          assert s[1..][i] == s[i + 1] && s[1..][j] == s[j + 1];
        }
      }
      CollapseFixpoint(s[1..]);
      if IsSpace(s[0]) {
        assert |s| > 1 ==> !IsSpace(s[1]);
        assert SpaceRun(s) == 1;
        assert s == s[..1] + s[1..];
      } else {
        assert s == [s[0]] + s[1..];
      }
    }
  }

  /** The substitution leaves s unchanged exactly when s has no two adjacent
      whitespace characters. */
  lemma CollapseUnchangedIff(s: string)
    ensures Collapse(s) == s <==> NoAdjacentSpaces(s)
  {
    CollapseNoAdjacent(s);
    if NoAdjacentSpaces(s) {
      CollapseFixpoint(s);
    }
  }

  /** Applying the substitution twice is the same as applying it once. */
  lemma CollapseIdempotent(s: string)
    ensures Collapse(Collapse(s)) == Collapse(s)
  {
    CollapseNoAdjacent(s);
    CollapseFixpoint(Collapse(s));
  }

  lemma {:induction false} NonSpacesAppend(a: string, b: string)
    ensures NonSpaces(a + b) == NonSpaces(a) + NonSpaces(b)
  {
    if a != [] {
      assert (a + b)[1..] == a[1..] + b;
      NonSpacesAppend(a[1..], b);
    } else {
      assert a + b == b;
    }
  }

  lemma {:induction false} NonSpacesOfSpaces(a: string)
    requires forall j :: 0 <= j < |a| ==> IsSpace(a[j])
    ensures NonSpaces(a) == []
  {
    if a != [] {
      NonSpacesOfSpaces(a[1..]);
    }
  }

  /** Only whitespace is rewritten: the non-whitespace characters come out
      unchanged and in their original order. */
  lemma {:induction false} CollapseKeepsText(s: string)
    ensures NonSpaces(Collapse(s)) == NonSpaces(s)
    decreases |s|
  {
    if s != [] {
      var n := if IsSpace(s[0]) then SpaceRun(s) else 1;
      var head := if IsSpace(s[0]) && n >= 2 then " " else s[..1];
      CollapseKeepsText(s[n..]);
      assert Collapse(s) == head + Collapse(s[n..]);
      NonSpacesAppend(head, Collapse(s[n..]));
      assert s == s[..n] + s[n..];
      NonSpacesAppend(s[..n], s[n..]);
      if IsSpace(s[0]) {
        NonSpacesOfSpaces(head);
        NonSpacesOfSpaces(s[..n]);
      } else {
        assert head == s[..n];
      }
    }
  }

  lemma {:induction false} SpaceRunAppend(a: string, b: string)
    requires exists j :: 0 <= j < |a| && !IsSpace(a[j])
    ensures SpaceRun(a + b) == SpaceRun(a)
  {
    if IsSpace(a[0]) {
      var j :| 0 <= j < |a| && !IsSpace(a[j]);
      assert j > 0 && a[1..][j - 1] == a[j];
      assert (a + b)[1..] == a[1..] + b;
      SpaceRunAppend(a[1..], b);
    }
  }

  /** The substitution works piecewise across a boundary just after a
      non-whitespace character: no match can span it. */
  lemma {:induction false} CollapseConcat(a: string, b: string)
    requires a == [] || !IsSpace(a[|a| - 1])
    ensures Collapse(a + b) == Collapse(a) + Collapse(b)
    decreases |a|, 1
  {
    if a == [] {
      assert a + b == b;
    } else if !IsSpace(a[0]) {
      CollapseConcatText(a, b);
    } else {
      CollapseConcatRun(a, b);
    }
  }

  lemma {:induction false} CollapseConcatText(a: string, b: string)
    requires a != [] && !IsSpace(a[0]) && !IsSpace(a[|a| - 1])
    ensures Collapse(a + b) == Collapse(a) + Collapse(b)
    decreases |a|, 0
  {
    var ab := a + b;
    assert ab[0] == a[0];
    assert ab[1..] == a[1..] + b;
    assert a[1..] == [] || a[1..][|a[1..]| - 1] == a[|a| - 1];
    CollapseConcat(a[1..], b);
    CollapseTextHead(ab);
    CollapseTextHead(a);
    AppendAssoc([a[0]], Collapse(a[1..]), Collapse(b));
  }

  lemma CollapseTextHead(s: string)
    requires s != [] && !IsSpace(s[0])
    ensures Collapse(s) == [s[0]] + Collapse(s[1..])
  {
  }

  lemma {:induction false} CollapseConcatRun(a: string, b: string)
    requires a != [] && IsSpace(a[0]) && !IsSpace(a[|a| - 1])
    ensures Collapse(a + b) == Collapse(a) + Collapse(b)
    decreases |a|, 0
  {
    var ab := a + b;
    assert 0 <= |a| - 1 < |a| && !IsSpace(a[|a| - 1]);
    SpaceRunAppend(a, b);
    var n := SpaceRun(a);
    assert n < |a|;
    assert ab[0] == a[0];
    assert ab[n..] == a[n..] + b;
    assert a[n..][|a[n..]| - 1] == a[|a| - 1];
    CollapseConcat(a[n..], b);
    var head := SpaceHead(a, n);
    assert SpaceHead(ab, n) == head by {
      assert ab[..1] == a[..1];
    }
    CollapseSpaceHead(ab);
    CollapseSpaceHead(a);
    AppendAssoc(head, Collapse(a[n..]), Collapse(b));
  }

  lemma AppendAssoc(x: string, y: string, z: string)
    ensures x + (y + z) == (x + y) + z
  {
  }

  /** What the substitution writes for a whitespace run of length n at the
      start of s. */
  function SpaceHead(s: string, n: nat): string
    requires s != []
  {
    if n >= 2 then " " else s[..1]
  }

  lemma CollapseSpaceHead(s: string)
    requires s != [] && IsSpace(s[0])
    ensures Collapse(s) == SpaceHead(s, SpaceRun(s)) + Collapse(s[SpaceRun(s)..])
  {
  }

  /** Every maximal run of two or more whitespace characters becomes exactly
      one space, whatever the run consists of. */
  lemma {:induction false} CollapseRun(p: string, run: string, q: string)
    requires p == [] || !IsSpace(p[|p| - 1])
    requires |run| >= 2 && forall j :: 0 <= j < |run| ==> IsSpace(run[j])
    requires q == [] || !IsSpace(q[0])
    ensures Collapse(p + run + q) == Collapse(p) + " " + Collapse(q)
  {
    var rq := run + q;
    assert p + run + q == p + rq;
    CollapseConcat(p, rq);
    forall j | 0 <= j < |run|
      ensures IsSpace(rq[j])
    {
      assert rq[j] == run[j];
    }
    assert |rq| == |run| || rq[|run|] == q[0];
    SpaceRunExact(rq, |run|);
    CollapseSpaceHead(rq);
    assert rq[|run|..] == q;
    AppendAssoc(Collapse(p), " ", Collapse(q));
  }

  /** A whitespace character with no whitespace neighbour is kept as it is. */
  lemma {:induction false} CollapseLone(p: string, c: char, q: string)
    requires p == [] || !IsSpace(p[|p| - 1])
    requires IsSpace(c)
    requires q == [] || !IsSpace(q[0])
    ensures Collapse(p + [c] + q) == Collapse(p) + [c] + Collapse(q)
  {
    assert p + [c] + q == p + ([c] + q);
    CollapseConcat(p, [c] + q);
    SpaceRunExact([c] + q, 1);
    assert ([c] + q)[1..] == q;
    assert ([c] + q)[..1] == [c];
  }


  /** `str.lstrip()` with no argument: s without its leading whitespace. */
  function StripStart(s: string): (r: string)
    ensures |r| <= |s| && r == s[|s| - |r|..]
    ensures r == [] || !IsSpace(r[0])
    ensures r == [] <==> forall j :: 0 <= j < |s| ==> IsSpace(s[j])
  {
    if s != [] && IsSpace(s[0]) then StripStart(s[1..]) else s
  }

  /** `str.rstrip()` with no argument: s without its trailing whitespace. */
  function StripEnd(s: string): (r: string)
    ensures |r| <= |s| && r == s[..|r|]
    ensures r == [] || !IsSpace(r[|r| - 1])
    ensures s != [] && !IsSpace(s[0]) ==> r != []
  {
    if s != [] && IsSpace(s[|s| - 1]) then StripEnd(s[..|s| - 1]) else s
  }

  /** `str.strip()` with no argument: both ends' whitespace removed. */
  function Strip(s: string): (r: string)
    ensures r == [] || (!IsSpace(r[0]) && !IsSpace(r[|r| - 1]))
    ensures r == [] <==> forall j :: 0 <= j < |s| ==> IsSpace(s[j])
  {
    StripEnd(StripStart(s))
  }

  /** Only whitespace is cut from the front. */
  lemma {:induction false} StripStartKeepsText(s: string)
    ensures NonSpaces(StripStart(s)) == NonSpaces(s)
  {
    if s != [] && IsSpace(s[0]) {
      StripStartKeepsText(s[1..]);
    }
  }

  /** Only whitespace is cut from the back. */
  lemma {:induction false} StripEndKeepsText(s: string)
    ensures NonSpaces(StripEnd(s)) == NonSpaces(s)
  {
    if s != [] && IsSpace(s[|s| - 1]) {
      var p, c := s[..|s| - 1], s[|s| - 1];
      StripEndKeepsText(p);
      assert p + [c] == s;
      NonSpacesAppend(p, [c]);
      assert NonSpaces([c]) == [] + NonSpaces([]);
    }
  }

  /** `.strip()` keeps every non-whitespace character, in order. */
  lemma StripKeepsText(s: string)
    ensures NonSpaces(Strip(s)) == NonSpaces(s)
  {
    StripStartKeepsText(s);
    StripEndKeepsText(StripStart(s));
  }

  lemma NoAdjacentSlice(s: string, a: nat, b: nat)
    requires a <= b <= |s|
    requires NoAdjacentSpaces(s)
    ensures NoAdjacentSpaces(s[a..b])
  {
    forall i, j | 0 <= i && j == i + 1 && j < |s[a..b]|
      ensures !(IsSpace(s[a..b][i]) && IsSpace(s[a..b][j]))
    {
      assert s[a..b][i] == s[a + i] && s[a..b][j] == s[a + j];
    }
  }

  /** A string with no whitespace at either end is unchanged by strip(). */
  lemma StripFixpoint(s: string)
    requires s == [] || (!IsSpace(s[0]) && !IsSpace(s[|s| - 1]))
    ensures Strip(s) == s
  {
    assert StripStart(s) == s;
  }

  /** The older JSON parser's `_parse_string`: collapse, then strip. */
  function CollapseAndStrip(s: string): string
  {
    Strip(Collapse(s))
  }

  /** strip() cuts a slice, so it adds no adjacent whitespace. */
  lemma StripNoAdjacent(s: string)
    requires NoAdjacentSpaces(s)
    ensures NoAdjacentSpaces(Strip(s))
  {
    var u := StripStart(s);
    NoAdjacentSlice(s, |s| - |u|, |s|);
    NoAdjacentSlice(u, 0, |StripEnd(u)|);
  }

  /** The trimmed variant leaves no whitespace at either end and no two
      adjacent whitespace characters, and keeps the text. */
  lemma CollapseAndStripNormalises(s: string)
    ensures var r := CollapseAndStrip(s);
      && (r == [] || (!IsSpace(r[0]) && !IsSpace(r[|r| - 1])))
      && NoAdjacentSpaces(r)
      && NonSpaces(r) == NonSpaces(s)
  {
    CollapseNoAdjacent(s);
    CollapseKeepsText(s);
    StripNoAdjacent(Collapse(s));
    StripKeepsText(Collapse(s));
  }

  /** Collapsing and stripping an already normalised string changes nothing. */
  lemma CollapseAndStripIdempotent(s: string)
    ensures CollapseAndStrip(CollapseAndStrip(s)) == CollapseAndStrip(s)
  {
    var t := CollapseAndStrip(s);
    CollapseAndStripNormalises(s);
    CollapseFixpoint(t);
    StripFixpoint(t);
  }
}
