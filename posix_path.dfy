// POSIX path joining and normalisation as Python's `posixpath` performs them,
// enough to state when the restore guard "the normalised target starts with the
// extract root" can reject an archive entry.

module PosixPath {
  import opened Text

  /** os.path.join(a, b): an absolute b replaces a; otherwise one separator is
      inserted unless a is empty or already ends with one. */
  function PathJoin(a: string, b: string): (r: string)
    ensures EndsWith(r, b)
    ensures StartsWith(b, "/") ==> r == b
    ensures !StartsWith(b, "/") ==> StartsWith(r, a)
  {
    if StartsWith(b, "/") then b
    else if a == "" || EndsWith(a, "/") then a + b
    else a + "/" + b
  }

  /** The length of the part of p up to and including its last '/' (0 when
      there is none). */
  function HeadLength(p: string): (n: nat)
    ensures n <= |p| && (n > 0 ==> p[n - 1] == '/')
    ensures forall i :: n <= i < |p| ==> p[i] != '/'
  {
    if |p| == 0 then 0 else if p[|p| - 1] == '/' then |p| else HeadLength(p[..|p| - 1])
  }

  /** os.path.dirname(p): the text up to the last '/', with trailing slashes
      removed unless it consists of slashes only. */
  function Dirname(p: string): (r: string)
    ensures StartsWith(p, r)
  {
    var head := p[..HeadLength(p)];
    if head != "" && exists i :: 0 <= i < |head| && head[i] != '/' then RStripChar(head, '/') else head
  }

  /** Leading separators kept by normpath: two exactly when there are exactly two. */
  function LeadingSlashes(p: string): nat
  {
    if !StartsWith(p, "/") then 0
    else if StartsWith(p, "//") && !StartsWith(p, "///") then 2
    else 1
  }

  function Slashes(n: nat): (r: string)
    ensures |r| == n && forall i :: 0 <= i < n ==> r[i] == '/'
  {
    seq(n, _ => '/')
  }

  /** The component loop of normpath: drop empty and "." components, let ".."
      cancel the previous kept component, and keep a leading ".." only in a
      relative path. */
  function Resolve(acc: seq<string>, comps: seq<string>, absolute: bool): seq<string>
    decreases |comps|
  {
    if |comps| == 0 then acc
    else
      var c := comps[0];
      if c == "" || c == "." then Resolve(acc, comps[1..], absolute)
      else if c != ".." || (!absolute && |acc| == 0) || (|acc| > 0 && acc[|acc| - 1] == "..")
      then Resolve(acc + [c], comps[1..], absolute)
      else if |acc| > 0 then Resolve(acc[..|acc| - 1], comps[1..], absolute)
      else Resolve(acc, comps[1..], absolute)
  }

  /** os.path.normpath(p) */
  function NormPath(p: string): (r: string)
    ensures r != ""
    ensures StartsWith(p, "/") ==> StartsWith(r, "/")
  {
    var n := LeadingSlashes(p);
    var r := Slashes(n) + Join(Resolve([], Split(p, '/'), n > 0), "/");
    if r == "" then "." else r
  }

  /** A component that normpath keeps as it is. */
  predicate PlainComponent(c: string)
  {
    c != "" && c != "." && c != ".." && '/' !in c
  }

  /** The absolute path with the given plain components: the shape of an
      already normalised absolute directory such as the extract root. */
  function Root(rs: seq<string>): (r: string)
    ensures StartsWith(r, "/")
  {
    "/" + Join(rs, "/")
  }

  /** Splitting at a separator placed between a and b splits a and b apart. */
  lemma {:induction false} SplitConcat(a: string, c: char, b: string)
    ensures Split(a + [c] + b, c) == Split(a, c) + Split(b, c)
    decreases |a|
  {
    var s := a + [c] + b;
    var i := IndexOf(a, c);
    IndexOfConcat(a, c, b);
    if i < |a| {
      SplitAt(a, c, i);
      SplitAt(s, c, i);
      SlicesOfJoin(a, c, b, i);
      SplitConcat(a[i + 1..], c, b);
    } else {
      SlicesOfJoin(a, c, b, |a|);
      SplitAt(s, c, |a|);
    }
  }

  /** Cutting a + [c] + b at or before c. */
  lemma SlicesOfJoin(a: string, c: char, b: string, i: nat)
    requires i <= |a|
    ensures (a + [c] + b)[..i] == a[..i]
    ensures i < |a| ==> (a + [c] + b)[i + 1..] == a[i + 1..] + [c] + b
    ensures i == |a| ==> (a + [c] + b)[..i] == a && (a + [c] + b)[i + 1..] == b
  {
    var s := a + [c] + b;
    if i < |a| {
      assert s[i + 1..] == a[i + 1..] + [c] + b;
    } else {
      assert s[..i] == a;
      assert s[i + 1..] == b;
    }
  }

  /** The first separator of a + [c] + b is the first one of a, if a has one. */
  lemma {:induction false} IndexOfConcat(a: string, c: char, b: string)
    ensures IndexOf(a + [c] + b, c) == IndexOf(a, c)
    decreases |a|
  {
    if |a| > 0 && a[0] != c {
      assert (a + [c] + b)[1..] == a[1..] + [c] + b;
      IndexOfConcat(a[1..], c, b);
    }
  }

  lemma SplitAt(s: string, c: char, i: nat)
    requires i < |s| && IndexOf(s, c) == i
    ensures Split(s, c) == [s[..i]] + Split(s[i + 1..], c)
  {
  }

  /** Every piece of a split occurs in the string. */
  lemma SplitPiecesOccur(s: string, c: char)
    ensures forall k :: 0 <= k < |Split(s, c)| ==> Contains(s, Split(s, c)[k])
  {
    forall k | 0 <= k < |Split(s, c)| ensures Contains(s, Split(s, c)[k]) {
      SplitPieceOccurs(s, c, k);
    }
  }

  /** The k-th piece of a split occurs in the string. */
  lemma {:induction false} SplitPieceOccurs(s: string, c: char, k: nat)
    requires k < |Split(s, c)|
    ensures Contains(s, Split(s, c)[k])
    decreases |s|
  {
    var i := IndexOf(s, c);
    if i == |s| {
      assert Split(s, c) == [s];
      ContainsAt(s, s, 0);
    } else {
      if k == 0 {
        assert Split(s, c)[0] == s[..i] by {
          SplitAt(s, c, i);
        }
        ContainsAt(s, s[..i], 0);
      } else {
        var piece := Split(s[i + 1..], c)[k - 1];
        assert Split(s, c)[k] == piece by {
          SplitAt(s, c, i);
        }
        SplitPieceOccurs(s[i + 1..], c, k - 1);
        ContainsInSuffix(s, i + 1, piece);
      }
    }
  }

  /** Plain components are appended one by one. */
  lemma {:induction false} ResolvePlain(acc: seq<string>, rs: seq<string>, rest: seq<string>, absolute: bool)
    requires forall k :: 0 <= k < |rs| ==> PlainComponent(rs[k])
    ensures Resolve(acc, rs + rest, absolute) == Resolve(acc + rs, rest, absolute)
    decreases |rs|
  {
    if |rs| == 0 {
      assert rs + rest == rest;
      assert acc + rs == acc;
    } else {
      assert (rs + rest)[0] == rs[0];
      assert (rs + rest)[1..] == rs[1..] + rest;
      ResolvePlain(acc + [rs[0]], rs[1..], rest, absolute);
      assert acc + [rs[0]] + rs[1..] == acc + rs;
    }
  }

  /** Without ".." nothing already resolved is ever dropped. */
  lemma {:induction false} ResolveKeepsPrefix(acc: seq<string>, comps: seq<string>, absolute: bool)
    requires ".." !in comps
    ensures |Resolve(acc, comps, absolute)| >= |acc|
    ensures Resolve(acc, comps, absolute)[..|acc|] == acc
    decreases |comps|
  {
    if |comps| > 0 {
      var c := comps[0];
      assert ".." !in comps[1..];
      if c == "" || c == "." {
        ResolveKeepsPrefix(acc, comps[1..], absolute);
      } else {
        ResolveKeepsPrefix(acc + [c], comps[1..], absolute);
        assert (acc + [c])[..|acc|] == acc;
      }
    }
  }

  /** A join of parts starts with the join of its leading parts. */
  lemma {:induction false} JoinPrefix(a: seq<string>, b: seq<string>, sep: string)
    requires |a| >= 1
    ensures StartsWith(Join(a + b, sep), Join(a, sep))
    decreases |a|
  {
    if |a| == 1 {
      if |b| > 0 {
        assert (a + b)[1..] == b;
      } else {
        assert a + b == a;
      }
    } else {
      assert (a + b)[1..] == a[1..] + b;
      JoinPrefix(a[1..], b, sep);
    }
  }

  /** A join ends with its last part. */
  lemma {:induction false} JoinEndsWithLast(parts: seq<string>, sep: string)
    requires |parts| >= 1
    ensures EndsWith(Join(parts, sep), parts[|parts| - 1])
    decreases |parts|
  {
    if |parts| > 1 {
      JoinEndsWithLast(parts[1..], sep);
    }
  }

  /** Splitting a root at the separator gives an empty leading piece and then
      its components. */
  lemma RootPieces(rs: seq<string>)
    requires |rs| > 0
    requires forall k :: 0 <= k < |rs| ==> PlainComponent(rs[k])
    ensures Split(Root(rs), '/') == [""] + rs
  {
    var parts := [""] + rs;
    assert parts[1..] == rs;
    assert Join(parts, "/") == Root(rs);
    SplitJoin(parts, '/');
  }

  /** A non-empty root neither ends with a separator nor starts with two. */
  lemma RootEnds(rs: seq<string>)
    requires |rs| > 0
    requires forall k :: 0 <= k < |rs| ==> PlainComponent(rs[k])
    ensures |Root(rs)| >= 2 && Root(rs)[1] != '/' && Root(rs)[|Root(rs)| - 1] != '/'
  {
    var j := Join(rs, "/");
    var last := rs[|rs| - 1];
    JoinEndsWithLast(rs, "/");
    assert last[|last| - 1] != '/';
    assert j[|j| - 1] == last[|last| - 1];
    JoinPrefix([rs[0]], rs[1..], "/");
    assert [rs[0]] + rs[1..] == rs;
    assert j[0] == rs[0][0];
  }

  /** The path the restore guard normalises, for a non-empty root: one leading
      separator, then the root's components, then the pieces of the name. */
  lemma {:induction false} TargetPieces(rs: seq<string>, name: string)
    requires |rs| > 0
    requires forall k :: 0 <= k < |rs| ==> PlainComponent(rs[k])
    requires !StartsWith(name, "/")
    ensures LeadingSlashes(PathJoin(Root(rs), name)) == 1
    ensures Split(PathJoin(Root(rs), name), '/') == [""] + rs + Split(name, '/')
  {
    var root := Root(rs);
    RootEnds(rs);
    assert !EndsWith(root, "/") by {
      assert root[|root| - 1..] != "/";
    }
    var p := PathJoin(root, name);
    assert p == root + ['/'] + name;
    assert !StartsWith(p, "//") by {
      assert p[..2] == root[..2];
      assert p[1] != '/';
    }
    SplitConcat(root, '/', name);
    RootPieces(rs);
  }

  /** Normalising the joined target keeps the root's components in front. */
  lemma {:induction false} TargetComponents(rs: seq<string>, name: string)
    requires |rs| > 0
    requires forall k :: 0 <= k < |rs| ==> PlainComponent(rs[k])
    requires !StartsWith(name, "/") && !Contains(name, "..")
    ensures var comps := Resolve([], Split(PathJoin(Root(rs), name), '/'), true);
      |comps| >= |rs| && comps[..|rs|] == rs
  {
    var ns := Split(name, '/');
    TargetPieces(rs, name);
    ResolveRootFirst(rs, ns);
    NoDotDotPiece(name);
    ResolveKeepsPrefix(rs, ns, true);
  }

  /** The empty piece before an absolute root is skipped and the root's plain
      components are kept as they are. */
  lemma ResolveRootFirst(rs: seq<string>, ns: seq<string>)
    requires forall k :: 0 <= k < |rs| ==> PlainComponent(rs[k])
    ensures Resolve([], [""] + rs + ns, true) == Resolve(rs, ns, true)
  {
    var all := [""] + rs + ns;
    assert all[0] == "" && all[1..] == rs + ns;
    ResolveSkipsEmpty([], all, true);
    ResolvePlain([], rs, ns, true);
    assert [] + rs == rs;
  }

  lemma ResolveSkipsEmpty(acc: seq<string>, comps: seq<string>, absolute: bool)
    requires |comps| > 0 && comps[0] == ""
    ensures Resolve(acc, comps, absolute) == Resolve(acc, comps[1..], absolute)
  {
  }

  /** A name without ".." has no ".." component. */
  lemma NoDotDotPiece(name: string)
    requires !Contains(name, "..")
    ensures ".." !in Split(name, '/')
  {
    SplitPiecesOccur(name, '/');
  }

  /** The restore guard never rejects a relative entry name without "..":
      joined onto a normalised absolute root and normalised, it still starts
      with the root (POSIX paths). */
  lemma {:induction false} NormalisedTargetInsideRoot(rs: seq<string>, name: string)
    requires forall k :: 0 <= k < |rs| ==> PlainComponent(rs[k])
    requires !StartsWith(name, "/") && !Contains(name, "..")
    ensures StartsWith(NormPath(PathJoin(Root(rs), name)), Root(rs))
  {
    var root := Root(rs);
    var p := PathJoin(root, name);
    if |rs| == 0 {
      assert root == "/";
      assert EndsWith(root, "/");
      assert p == "/" + name;
    } else {
      TargetPieces(rs, name);
      TargetComponents(rs, name);
      var comps := Resolve([], Split(p, '/'), true);
      assert comps == rs + comps[|rs|..];
      JoinPrefix(rs, comps[|rs|..], "/");
      assert Slashes(1) == "/";
      assert NormPath(p) == "/" + Join(comps, "/");
    }
  }

  /** A root of plain components is already normal. */
  lemma NormPathOfRoot(rs: seq<string>)
    requires forall k :: 0 <= k < |rs| ==> PlainComponent(rs[k])
    ensures NormPath(Root(rs)) == Root(rs)
  {
    var root := Root(rs);
    if |rs| == 0 {
      assert root == "/";
      assert IndexOf("/", '/') == 0;
      assert "/"[1..] == "";
      assert Split("/", '/') == ["", ""];
      assert Slashes(1) == "/";
    } else {
      RootEnds(rs);
      assert !StartsWith(root, "//");
      RootPieces(rs);
      var all := [""] + rs;
      assert all[1..] == rs + [];
      ResolveSkipsEmpty([], all, true);
      ResolvePlain([], rs, [], true);
      assert [] + rs == rs;
      assert Resolve([], all, true) == rs;
      assert Slashes(1) == "/";
    }
  }
}
