/** The path arithmetic of `FileSystemIterator`: a POSIX path string read as
    `pathlib` reads it (an anchor, then the components between slashes with
    empty and "." components dropped), its last component, one component by
    index, and the tail by which one of two nested paths extends the other. */
module Files {
  import opened Outcomes

  /** The errors the three calls raise. */
  datatype PathError =
    | NoCommonSubPath          // neither path string contains the other
    | MixedAbsoluteRelative    // `os.path.commonpath` refuses the pair
    | NodeIndexOutOfRange      // `parts[node_index]` raises IndexError

  /** A component as parsing leaves it: not empty, not ".", without a slash. */
  predicate ValidName(c: string)
  {
    c != "" && c != "." && '/' !in c
  }

  function Keep(c: string): seq<string>
  {
    if c == "" || c == "." then [] else [c]
  }

  /** The components of `s`, when `cur` is the component read so far. */
  function NamesFrom(s: string, cur: string): (ns: seq<string>)
    requires '/' !in cur
    ensures forall i :: 0 <= i < |ns| ==> ValidName(ns[i])
    decreases |s|
  {
    if s == [] then Keep(cur)
    else if s[0] == '/' then Keep(cur) + NamesFrom(s[1..], "")
    else NamesFrom(s[1..], cur + [s[0]])
  }

  /** The components after the anchor. */
  function Names(s: string): (ns: seq<string>)
    ensures forall i :: 0 <= i < |ns| ==> ValidName(ns[i])
  {
    NamesFrom(s, "")
  }

  predicate IsAbsolute(s: string)
  {
    |s| > 0 && s[0] == '/'
  }

  /** The root of an absolute path: exactly two leading slashes are kept as
      "//", any other number of them reads as "/". */
  function Anchor(s: string): string
  {
    if !IsAbsolute(s) then ""
    else if |s| >= 2 && s[1] == '/' && !(|s| >= 3 && s[2] == '/') then "//"
    else "/"
  }

  /** `Path(s).parts`: the anchor, if any, then the components. */
  function Parts(s: string): (ps: seq<string>)
    ensures |ps| == |Names(s)| + (if IsAbsolute(s) then 1 else 0)
    ensures ps[|ps| - |Names(s)|..] == Names(s)
  {
    (if IsAbsolute(s) then [Anchor(s)] else []) + Names(s)
  }

  /** Components joined with slashes. */
  function Join(cs: seq<string>): string
  {
    if cs == [] then ""
    else if |cs| == 1 then cs[0]
    else cs[0] + "/" + Join(cs[1..])
  }

  /** `a` occurs in `b` at position `i`. */
  predicate OccursAt(a: string, b: string, i: int)
  {
    0 <= i <= |b| - |a| && b[i..i + |a|] == a
  }

  /** Python's `a in b` on strings. */
  predicate IsSubstring(a: string, b: string)
  {
    exists i :: 0 <= i <= |b| && OccursAt(a, b, i)
  }

  /** The longest common leading run of two component sequences. */
  function CommonPrefix(x: seq<string>, y: seq<string>): (c: seq<string>)
    ensures c <= x && c <= y
    ensures |c| < |x| && |c| < |y| ==> x[|c|] != y[|c|]
  {
    if x == [] || y == [] || x[0] != y[0] then []
    else [x[0]] + CommonPrefix(x[1..], y[1..])
  }

  /** `os.path.commonpath` of two paths that are both absolute or both
      relative: the common components, after a slash for absolute ones. */
  function CommonPath(a: string, b: string): string
  {
    (if IsAbsolute(a) then "/" else "") + Join(CommonPrefix(Names(a), Names(b)))
  }

  /** A slash splits the reading in two. */
  lemma {:induction false} NamesFromSlash(a: string, b: string, cur: string)
    requires '/' !in cur
    ensures NamesFrom(a + "/" + b, cur) == NamesFrom(a, cur) + NamesFrom(b, "")
    decreases |a|
  {
    if a == [] {
      assert a + "/" + b == "/" + b;
      assert ("/" + b)[1..] == b;
    } else if a[0] == '/' {
      assert (a + "/" + b)[1..] == a[1..] + "/" + b;
      NamesFromSlash(a[1..], b, "");
    } else {
      assert (a + "/" + b)[1..] == a[1..] + "/" + b;
      NamesFromSlash(a[1..], b, cur + [a[0]]);
    }
  }

  /** Text without a slash is one component (or none). */
  lemma {:induction false} NamesFromName(n: string, cur: string)
    requires '/' !in cur && '/' !in n
    ensures NamesFrom(n, cur) == Keep(cur + n)
    decreases |n|
  {
    if n == [] {
      assert cur + n == cur;
    } else {
      assert n[0] in n;
      assert forall c :: c in n[1..] ==> c in n;
      NamesFromName(n[1..], cur + [n[0]]);
      assert cur + [n[0]] + n[1..] == cur + n;
    }
  }

  /** Reading joined components gives them back. */
  lemma {:induction false} NamesOfJoin(cs: seq<string>)
    requires forall i :: 0 <= i < |cs| ==> ValidName(cs[i])
    ensures Names(Join(cs)) == cs
  {
    if |cs| == 1 {
      NamesFromName(cs[0], "");
      assert "" + cs[0] == cs[0];
    } else if |cs| > 1 {
      NamesFromSlash(cs[0], Join(cs[1..]), "");
      NamesFromName(cs[0], "");
      assert "" + cs[0] == cs[0];
      NamesOfJoin(cs[1..]);
    }
  }

  /** A joined run of components starts with a slash only if it is empty. */
  lemma JoinNotAbsolute(cs: seq<string>)
    requires forall i :: 0 <= i < |cs| ==> ValidName(cs[i])
    ensures !IsAbsolute(Join(cs))
  {
    if |cs| > 1 {
      assert Join(cs)[0] == cs[0][0];
      assert cs[0][0] in cs[0];
    } else if |cs| == 1 {
      assert cs[0][0] in cs[0];
    }
  }

  /** The common path has one part per common component, plus its anchor. */
  lemma CommonPathLength(a: string, b: string)
    requires IsAbsolute(a) == IsAbsolute(b)
    ensures |Parts(CommonPath(a, b))| == |CommonPrefix(Names(a), Names(b))| + (if IsAbsolute(a) then 1 else 0)
  {
    var common := CommonPrefix(Names(a), Names(b));
    assert forall i :: 0 <= i < |common| ==> ValidName(common[i]) by {
      assert forall i :: 0 <= i < |common| ==> common[i] == Names(a)[i];
    }
    NamesOfJoin(common);
    JoinNotAbsolute(common);
    if IsAbsolute(a) {
      assert CommonPath(a, b) == "/" + Join(common);
      NamesFromSlash("", Join(common), "");
      assert "" + "/" + Join(common) == "/" + Join(common);
    } else {
      assert CommonPath(a, b) == "" + Join(common);
      assert "" + Join(common) == Join(common);
    }
  }

  /** `get_path_diff`: the parts of the path with more parts (the first one
      on a tie) after as many leading parts as their common path has. */
  function GetPathDiff(a: string, b: string): (r: Result<seq<string>, PathError>)
    ensures r == Failure(NoCommonSubPath) <==> !(IsSubstring(a, b) || IsSubstring(b, a))
    ensures r == Failure(MixedAbsoluteRelative) <==> (IsSubstring(a, b) || IsSubstring(b, a)) && IsAbsolute(a) != IsAbsolute(b)
  {
    if !(IsSubstring(a, b) || IsSubstring(b, a)) then Failure(NoCommonSubPath)
    else if IsAbsolute(a) != IsAbsolute(b) then Failure(MixedAbsoluteRelative)
    else
      CommonPathLength(a, b);
      var n := |Parts(CommonPath(a, b))|;
      var longest := if |Parts(a)| >= |Parts(b)| then Parts(a) else Parts(b);
      Success(longest[n..])
  }

  lemma {:induction false} CommonPrefixOfPrefix(x: seq<string>, y: seq<string>)
    requires x <= y
    ensures CommonPrefix(x, y) == x && CommonPrefix(y, x) == x
  {
    if x != [] {
      assert x[0] == y[0];
      assert x[1..] <= y[1..];
      CommonPrefixOfPrefix(x[1..], y[1..]);
    }
  }

  /** Of a path and a path under it, in either order, the difference is the
      components the longer one adds. */
  lemma PathDiffOfSubPath(a: string, b: string)
    requires IsSubstring(a, b) && IsAbsolute(a) == IsAbsolute(b)
    requires Names(a) <= Names(b)
    ensures GetPathDiff(a, b) == Success(Names(b)[|Names(a)|..])
    ensures GetPathDiff(b, a) == Success(Names(b)[|Names(a)|..])
  {
    CommonPrefixOfPrefix(Names(a), Names(b));
    CommonPathLength(a, b);
    CommonPathLength(b, a);
    var k := if IsAbsolute(a) then 1 else 0;
    assert Parts(b)[|Names(a)| + k..] == Names(b)[|Names(a)|..] by {
      assert Parts(b)[k..] == Names(b);
    }
    if |Names(a)| == |Names(b)| {
      assert Names(a) == Names(b);
    }
  }

  /** A path differs from itself by nothing. */
  lemma PathDiffOfSelf(a: string)
    ensures GetPathDiff(a, a) == Success([])
  {
    assert OccursAt(a, a, 0);
    PathDiffOfSubPath(a, a);
    assert Names(a)[|Names(a)|..] == [];
  }

  /** `get_file_name`: `Path(path).name`, the last component, or "" when
      there is none. */
  function GetFileName(path: string): (name: string)
    ensures name == "" <==> Names(path) == []
    ensures Names(path) != [] ==> name == Names(path)[|Names(path)| - 1]
  {
    var ns := Names(path);
    if ns == [] then "" else ns[|ns| - 1]
  }

  /** A name added under a directory is the file name of the result. */
  lemma FileNameOfChild(dir: string, name: string)
    requires ValidName(name)
    ensures Names(dir + "/" + name) == Names(dir) + [name]
    ensures GetFileName(dir + "/" + name) == name
  {
    NamesFromSlash(dir, name, "");
    NamesFromName(name, "");
    assert "" + name == name;
  }

  /** `get_node_name`: `parts[node_index]`, where a negative index counts
      from the end. */
  function GetNodeName(path: string, index: int): (r: Result<string, PathError>)
    ensures r.Success? <==> -|Parts(path)| <= index < |Parts(path)|
    ensures r.Failure? ==> r.error == NodeIndexOutOfRange
  {
    var ps := Parts(path);
    if -|ps| <= index < 0 then Success(ps[|ps| + index])
    else if 0 <= index < |ps| then Success(ps[index])
    else Failure(NodeIndexOutOfRange)
  }

  /** The node at index -1 is the file name, and the node at index 0 of an
      absolute path is its anchor. */
  lemma NodeNamesAtEnds(path: string)
    ensures Names(path) != [] ==> GetNodeName(path, -1) == Success(GetFileName(path))
    ensures IsAbsolute(path) ==> GetNodeName(path, 0) == Success(Anchor(path))
  {
    var ps := Parts(path);
    if Names(path) != [] {
      assert ps[|ps| - |Names(path)|..] == Names(path);
      assert ps[|ps| - 1] == Names(path)[|Names(path)| - 1];
    }
  }
}
