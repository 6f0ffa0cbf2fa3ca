// repo/build_repo.py: builds the Kodi repository from an add-ons directory.
// For each of the three published add-ons that is present and names its
// version, a zip of its files goes to dist/<id>/<id>-<version>.zip; the
// add-ons' own manifests are concatenated into addons.xml, and index.html links
// the repository add-on's zip.

module BuildRepo {
  import opened Text
  import opened FileTree

  // ------------------------------------------------------------ exclusion

  /** `EXCLUDE`: the literal "*.pyc" is an exact name, not a pattern. */
  const Exclude: set<string> := {"__pycache__", ".git", "*.pyc", ".gitignore"}

  /** `should_exclude`: the set's names, any `.pyc` file and any name
      containing `__pycache__`. The set's "*.pyc" and "__pycache__" entries
      are covered by the two tests after it. */
  function ShouldExclude(name: string): (r: bool)
    ensures r <==> name == ".git" || name == ".gitignore" || EndsWith(name, ".pyc") || Contains(name, "__pycache__")
  {
    ExcludePatternsCovered();
    name in Exclude || EndsWith(name, ".pyc") || Contains(name, "__pycache__")
  }

  lemma ExcludePatternsCovered()
    ensures EndsWith("*.pyc", ".pyc") && Contains("__pycache__", "__pycache__")
  {
    assert "*.pyc"[1..] == ".pyc";
    ContainsAt("__pycache__", "__pycache__", 0);
  }

  predicate Kept(name: string)
  {
    !ShouldExclude(name)
  }

  // ------------------------------------------------------------ version

  const VersionAttr: string := "version=\""

  /** Whether pat begins at p. */
  predicate AttrAt(c: string, p: nat, pat: string)
  {
    p + |pat| <= |c| && c[p..p + |pat|] == pat
  }

  /** Whether `version="` begins at p. */
  predicate VersionAttrAt(c: string, p: nat)
  {
    AttrAt(c, p, VersionAttr)
  }

  /** The attribute text: nine characters, '=' and '"' last, no '>' and no
      other quote. */
  predicate AttrShape(pat: string)
  {
    |pat| == 9 && pat[7] == '=' && pat[8] == '"' && '>' !in pat && '"' !in pat[..8]
  }

  lemma VersionAttrShape()
    ensures AttrShape(VersionAttr)
  {
    assert VersionAttr[..8] == "version=";
  }

  /** `version="([^"]+)"` matched at p: the non-empty run of non-quote
      characters up to a closing quote. */
  function VersionValue(c: string, p: nat): (r: Option<string>)
    ensures r.Some? ==> VersionAttrAt(c, p) && r.value != "" && '"' !in r.value
  {
    if VersionAttrAt(c, p) then
      assert |VersionAttr| == 9;
      var q := IndexOf(c[p + 9..], '"');
      if 0 < q < |c| - p - 9 then
        assert c[p + 9..p + 9 + q] == c[p + 9..][..q];
        Some(c[p + 9..p + 9 + q])
      else None
    else None
  }

  /** The greedy `[^>]*` backs off from the first '>' (or the end) at hi to
      the last position from lo on where the attribute matches. */
  function LastVersion(c: string, lo: nat, hi: nat): (r: Option<string>)
    requires lo <= hi
    ensures r.Some? ==> r.value != "" && '"' !in r.value
    decreases hi - lo
  {
    var v := VersionValue(c, hi);
    if v.Some? then v else if hi == lo then None else LastVersion(c, lo, hi - 1)
  }

  /** `<addon\s[^>]*version="([^"]+)"` attempted at position i. */
  function TagVersion(c: string, i: nat): (r: Option<string>)
    ensures r.Some? ==> r.value != "" && '"' !in r.value
  {
    if i + 7 <= |c| && c[i..i + 6] == "<addon" && IsSpace(c[i + 6]) then
      var lo := i + 7;
      LastVersion(c, lo, lo + IndexOf(c[lo..], '>'))
    else None
  }

  /** `re.search`: the first start position from i on where the pattern matches. */
  function SearchVersion(c: string, i: nat): (r: Option<string>)
    ensures r.Some? ==> r.value != "" && '"' !in r.value
    decreases |c| - i
  {
    if i >= |c| then None
    else
      var t := TagVersion(c, i);
      if t.Some? then t else SearchVersion(c, i + 1)
  }

  /** `get_version_from_addon_xml`: nothing without an addon.xml, else the
      version attribute of the first `<addon` tag that has one. */
  function AddonVersion(addonXml: Option<string>): (r: Option<string>)
    ensures addonXml.None? ==> r.None?
    ensures r.Some? ==> r.value != "" && '"' !in r.value
  {
    if addonXml.None? then None else SearchVersion(addonXml.value, 0)
  }

  /** A manifest without an `<addon` tag has no version, whatever versions it
      names elsewhere (the XML declaration's, an `<import>`'s). */
  lemma NoAddonTagNoVersion(c: string)
    requires !Contains(c, "<addon")
    ensures AddonVersion(Some(c)) == None
  {
    SearchNone(c, 0);
  }

  lemma {:induction false} SearchNone(c: string, i: nat)
    requires !Contains(c, "<addon")
    ensures SearchVersion(c, i) == None
    decreases |c| - i
  {
    if i < |c| {
      if i + 7 <= |c| && c[i..i + 6] == "<addon" {
        ContainsAt(c, "<addon", i);
      }
      SearchNone(c, i + 1);
    }
  }

  /** The version of the root tag: with no `<addon` before it, and no second
      version attribute later in the same tag, the tag's version is found. */
  lemma VersionOfAddonTag(before: string, attrs: string, v: string, rest: string)
    requires !Contains(before, "<addon") && '>' !in attrs
    requires v != "" && '"' !in v && '=' !in v && '>' !in v
    requires !Contains(rest[..IndexOf(rest, '>')], VersionAttr)
    ensures AddonVersion(Some(before + "<addon " + attrs + VersionAttr + v + "\"" + rest)) == Some(v)
  {
    var open := "<addon ";
    var c := before + open + attrs + VersionAttr + v + "\"" + rest;
    var i := |before|;
    var p0 := i + 7 + |attrs|;
    TagPieces(before, open, attrs, VersionAttr, v, rest);
    TagInManifest(c, before, p0, v, rest);
  }

  /** The same, stated over positions in the manifest text c. */
  lemma TagInManifest(c: string, before: string, p0: nat, v: string, rest: string)
    requires !Contains(before, "<addon")
    requires v != "" && '"' !in v && '=' !in v && '>' !in v
    requires !Contains(rest[..IndexOf(rest, '>')], VersionAttr)
    requires |before| + 7 <= p0 && p0 + 9 + |v| < |c|
    requires c[..|before|] == before && c[|before|..|before| + 7] == "<addon "
    requires '>' !in c[|before| + 7..p0] && AttrAt(c, p0, VersionAttr)
    requires c[p0 + 9..p0 + 9 + |v|] == v && c[p0 + 9 + |v|] == '"' && c[p0 + 10 + |v|..] == rest
    ensures SearchVersion(c, 0) == Some(v)
  {
    var i := |before|;
    var e := IndexOf(rest, '>');
    var open := "<addon ";
    OpenParts(c, i, open);
    assert open[..6] == "<addon" && open[6] == ' ' && open[0] == '<';
    BeforeSkipped(before, c);
    TagAt(c, i, p0, v, e);
  }

  lemma OpenParts(c: string, i: nat, open: string)
    requires |open| == 7 && i + 7 <= |c| && c[i..i + 7] == open
    ensures c[i..i + 6] == open[..6] && c[i + 6] == open[6] && c[i] == open[0]
  {
    assert c[i..i + 6] == c[i..i + 7][..6];
  }

  /** `re.search` passes over a prefix that holds no `<addon`. */
  lemma BeforeSkipped(before: string, c: string)
    requires !Contains(before, "<addon") && |c| > |before| && c[..|before|] == before && c[|before|] == '<'
    ensures SearchVersion(c, 0) == SearchVersion(c, |before|)
  {
    forall k | 0 <= k < |before| ensures TagVersion(c, k) == None {
      NoTagInBefore(before, c, k);
    }
    SearchSkips(c, 0, |before|);
  }

  /** Slices of a seven-part concatenation. */
  lemma Pieces(a: string, b: string, d: string, f: string, g: string, h: string, k: string)
    ensures var c := a + b + d + f + g + h + k;
      var i1 := |a|; var i2 := i1 + |b|; var i3 := i2 + |d|; var i4 := i3 + |f|; var i5 := i4 + |g|; var i6 := i5 + |h|;
      && c[..i1] == a && c[i1..i2] == b && c[i2..i3] == d && c[i3..i4] == f
      && c[i4..i5] == g && c[i5..i6] == h && c[i6..] == k
  {
  }

  /** Where the parts of a tag lie in the manifest text. */
  lemma TagPieces(before: string, open: string, attrs: string, pat: string, v: string, rest: string)
    requires |open| == 7 && |pat| == 9
    ensures var c := before + open + attrs + pat + v + "\"" + rest;
      var i := |before|; var p0 := i + 7 + |attrs|; var q0 := p0 + 9 + |v|;
      && |c| > q0 && c[..i] == before && c[i..i + 7] == open && c[i + 7..p0] == attrs
      && AttrAt(c, p0, pat) && c[p0 + 9..q0] == v && c[q0] == '"' && c[q0 + 1..] == rest
  {
    var c := before + open + attrs + pat + v + "\"" + rest;
    var i := |before|;
    var p0 := i + 7 + |attrs|;
    var q0 := p0 + 9 + |v|;
    Pieces(before, open, attrs, pat, v, "\"", rest);
    assert c[q0..q0 + 1] == "\"";
  }

  /** The match at a tag's own position, stated over positions: the tag
      opens at i, its version attribute starts at p0, and the tag's first
      '>' after the closing quote is e characters later. */
  lemma TagAt(c: string, i: nat, p0: nat, v: string, e: nat)
    requires i + 7 <= p0 && p0 + 9 + |v| < |c|
    requires c[i..i + 6] == "<addon" && c[i + 6] == ' '
    requires '>' !in c[i + 7..p0] && VersionAttrAt(c, p0)
    requires c[p0 + 9..p0 + 9 + |v|] == v && c[p0 + 9 + |v|] == '"'
    requires v != "" && '"' !in v && '=' !in v && '>' !in v
    requires e == IndexOf(c[p0 + 10 + |v|..], '>')
    requires !Contains(c[p0 + 10 + |v|..][..e], VersionAttr)
    ensures SearchVersion(c, i) == Some(v)
  {
    var lo := i + 7;
    var hi := p0 + 10 + |v| + e;
    HiAfterVersion(c, lo, p0, v, e);
    TagSpan(c, lo, p0, v, e, hi);
    assert IsSpace(c[i + 6]);
    TagFound(c, i, hi, v);
  }

  /** The tag at i yields whatever the back-off up to its first '>' yields. */
  lemma TagFound(c: string, i: nat, hi: nat, v: string)
    requires i + 7 <= |c| && c[i..i + 6] == "<addon" && IsSpace(c[i + 6])
    requires i + 7 + IndexOf(c[i + 7..], '>') == hi && i + 7 <= hi
    requires LastVersion(c, i + 7, hi) == Some(v)
    ensures TagVersion(c, i) == Some(v)
  {
    var lo := i + 7;
    var x := IndexOf(c[lo..], '>');
    assert lo + x == hi;
  }

  /** Backing off from the tag's first '>' stops at the version attribute. */
  lemma TagSpan(c: string, lo: nat, p0: nat, v: string, e: nat, hi: nat)
    requires lo <= p0 && p0 + 9 + |v| < |c|
    requires '>' !in c[lo..p0] && VersionAttrAt(c, p0)
    requires c[p0 + 9..p0 + 9 + |v|] == v && c[p0 + 9 + |v|] == '"'
    requires v != "" && '"' !in v && '=' !in v && '>' !in v
    requires e == IndexOf(c[p0 + 10 + |v|..], '>')
    requires !Contains(c[p0 + 10 + |v|..][..e], VersionAttr)
    requires hi == p0 + 10 + |v| + e
    ensures LastVersion(c, lo, hi) == Some(v)
  {
    NoLaterVersion(c, lo, p0, v, e, hi);
    ValueAt(c, p0, v);
    LastFound(c, lo, p0, hi, v);
  }

  /** A value found at p0 is the last one up to hi when nothing later matches. */
  lemma LastFound(c: string, lo: nat, p0: nat, hi: nat, v: string)
    requires lo <= p0 <= hi && VersionValue(c, p0) == Some(v)
    requires LastVersion(c, lo, hi) == LastVersion(c, lo, p0)
    ensures LastVersion(c, lo, hi) == Some(v)
  {
  }

  lemma HiAfterVersion(c: string, lo: nat, p0: nat, v: string, e: nat)
    requires lo <= p0 && p0 + 9 + |v| < |c|
    requires '>' !in c[lo..p0] && VersionAttrAt(c, p0)
    requires c[p0 + 9..p0 + 9 + |v|] == v && c[p0 + 9 + |v|] == '"' && '>' !in v
    requires e == IndexOf(c[p0 + 10 + |v|..], '>')
    ensures lo + IndexOf(c[lo..], '>') == p0 + 10 + |v| + e
  {
    VersionAttrShape();
    HiAfterValue(c, lo, p0, v, e, VersionAttr);
  }

  /** Backing off from the tag's end meets no version attribute before p0. */
  lemma NoLaterVersion(c: string, lo: nat, p0: nat, v: string, e: nat, hi: nat)
    requires lo <= p0 && VersionAttrAt(c, p0) && p0 + 9 + |v| < |c|
    requires c[p0 + 9..p0 + 9 + |v|] == v && c[p0 + 9 + |v|] == '"' && '=' !in v
    requires e == IndexOf(c[p0 + 10 + |v|..], '>')
    requires !Contains(c[p0 + 10 + |v|..][..e], VersionAttr)
    requires hi == p0 + 10 + |v| + e
    ensures LastVersion(c, lo, hi) == LastVersion(c, lo, p0)
  {
    VersionAttrShape();
    LaterNoAttrs(c, p0, v, e, VersionAttr);
    forall p | p0 < p <= hi ensures !VersionAttrAt(c, p) {
    }
    LastVersionSkips(c, lo, p0, hi);
  }

  lemma ValueAt(c: string, p0: nat, v: string)
    requires VersionAttrAt(c, p0) && |VersionAttr| == 9 && p0 + 9 + |v| < |c|
    requires c[p0 + 9..p0 + 9 + |v|] == v && c[p0 + 9 + |v|] == '"' && v != "" && '"' !in v
    ensures VersionValue(c, p0) == Some(v)
  {
    var q0 := p0 + 9 + |v|;
    assert c[p0 + 9..] == v + c[q0..];
    IndexOfPrefix(v, '"', c[q0..]);
  }

  /** The tag's first '>' lies past the version value. */
  lemma HiAfterValue(c: string, lo: nat, p0: nat, v: string, e: nat, pat: string)
    requires AttrShape(pat) && lo <= p0 && p0 + 9 + |v| < |c|
    requires '>' !in c[lo..p0] && AttrAt(c, p0, pat)
    requires c[p0 + 9..p0 + 9 + |v|] == v && c[p0 + 9 + |v|] == '"' && '>' !in v
    requires e == IndexOf(c[p0 + 10 + |v|..], '>')
    ensures IndexOf(c[lo..], '>') == p0 + 10 + |v| + e - lo
  {
    var q0 := p0 + 9 + |v|;
    var s := c[lo..];
    var k := q0 + 1 - lo;
    forall i | 0 <= i < k ensures s[i] != '>' {
      var x := lo + i;
      if x < p0 {
        assert s[i] == c[lo..p0][i];
      } else if x < p0 + 9 {
        assert s[i] == c[p0..p0 + 9][x - p0];
      } else if x < q0 {
        assert s[i] == v[x - p0 - 9];
      }
    }
    assert s[k..] == c[q0 + 1..];
    IndexOfFrom(s, '>', k);
  }

  /** No later position up to the tag's end starts another attribute. */
  lemma LaterNoAttrs(c: string, p0: nat, v: string, e: nat, pat: string)
    requires AttrShape(pat)
    requires AttrAt(c, p0, pat) && p0 + 9 + |v| < |c|
    requires c[p0 + 9..p0 + 9 + |v|] == v && c[p0 + 9 + |v|] == '"' && '=' !in v
    requires e == IndexOf(c[p0 + 10 + |v|..], '>')
    requires !Contains(c[p0 + 10 + |v|..][..e], pat)
    ensures forall p :: p0 < p <= p0 + 10 + |v| + e ==> !AttrAt(c, p, pat)
  {
    var q0 := p0 + 9 + |v|;
    forall p | p0 < p <= q0 + 1 + e ensures !AttrAt(c, p, pat) {
      if p <= p0 + 8 {
        InsideAttr(c, p0, p, pat);
      } else if p <= q0 {
        InsideValue(c, p0, v, p, pat);
      } else {
        LaterInRest(c, q0 + 1, e, p, pat);
      }
    }
  }

  /** An attribute cannot start inside another one: its '"' would meet
      one of the first eight characters, which hold none. */
  lemma InsideAttr(c: string, p0: nat, p: nat, pat: string)
    requires AttrShape(pat) && AttrAt(c, p0, pat) && p0 < p <= p0 + 8
    ensures !AttrAt(c, p, pat)
  {
    var j := p0 + 8;
    assert c[j] == c[p0..p0 + 9][8] == '"';
    assert pat[j - p] == pat[..8][j - p];
    Mismatch(c, p, j, '"', pat);
  }

  /** Nor inside the value: the value holds no '=' and ends at a '"'. */
  lemma InsideValue(c: string, p0: nat, v: string, p: nat, pat: string)
    requires AttrShape(pat) && p0 + 9 + |v| < |c|
    requires c[p0 + 9..p0 + 9 + |v|] == v && c[p0 + 9 + |v|] == '"' && '=' !in v
    requires p0 + 8 < p <= p0 + 9 + |v|
    ensures !AttrAt(c, p, pat)
  {
    var q0 := p0 + 9 + |v|;
    if p + 7 < q0 {
      var j := p + 7;
      assert c[j] == v[j - p0 - 9];
      Mismatch(c, p, j, c[j], pat);
    } else {
      var j := q0 - p;
      assert pat[j] == pat[..8][j];
      Mismatch(c, p, q0, '"', pat);
    }
  }

  /** Past the closing quote, an attribute would lie in the tag's rest or run
      into its '>'. */
  lemma LaterInRest(c: string, r0: nat, e: nat, p: nat, pat: string)
    requires AttrShape(pat) && r0 <= |c| && e == IndexOf(c[r0..], '>')
    requires !Contains(c[r0..][..e], pat)
    requires r0 <= p <= r0 + e
    ensures !AttrAt(c, p, pat)
  {
    var rest := c[r0..];
    var hi := r0 + e;
    if p + 9 <= hi {
      var w := rest[..e];
      var j := p - r0;
      assert w == c[r0..hi];
      SliceOfSlice(c, r0, hi, j, j + 9);
      if w[j..j + 9] == pat {
        ContainsAt(w, pat, j);
      }
    } else if p + 9 <= |c| {
      assert c[hi] == rest[e] == '>';
      Mismatch(c, p, hi, '>', pat);
    }
  }

  lemma SliceOfSlice(s: string, a: nat, b: nat, j: nat, k: nat)
    requires a <= b <= |s| && j <= k <= b - a
    ensures s[a..b][j..k] == s[a + j..a + k]
  {
    forall x | 0 <= x < k - j ensures s[a..b][j..k][x] == s[a + j..a + k][x] {
    }
  }

  /** A character that differs from the attribute text at its place. */
  lemma Mismatch(c: string, p: nat, j: nat, ch: char, pat: string)
    requires p <= j < p + |pat| && j < |c| && c[j] == ch && pat[j - p] != ch
    ensures !AttrAt(c, p, pat)
  {
  }

  lemma NoTagInBefore(before: string, c: string, k: nat)
    requires !Contains(before, "<addon") && k < |before| && |c| > |before| && c[..|before|] == before && c[|before|] == '<'
    ensures TagVersion(c, k) == None
  {
    var open := "<addon";
    assert |open| == 6 && '<' !in open[1..];
    NoOpenInBefore(before, c, k, open);
  }

  /** No tag opens before the text `before` when it does not contain the
      opening and the opening holds only one '<'. */
  lemma NoOpenInBefore(before: string, c: string, k: nat, open: string)
    requires |open| == 6 && '<' !in open[1..]
    requires !Contains(before, open) && k < |before| && |c| > |before| && c[..|before|] == before && c[|before|] == '<'
    ensures !(k + 6 <= |c| && c[k..k + 6] == open)
  {
    if k + 6 <= |c| {
      if k + 6 <= |before| {
        assert c[k..k + 6] == before[k..k + 6];
        if before[k..k + 6] == open {
          ContainsAt(before, open, k);
        }
      } else {
        var j := |before| - k;
        assert c[k..k + 6][j] == '<';
        assert open[j] != '<' by {
          assert open[j] == open[1..][j - 1];
        }
      }
    }
  }

  lemma {:induction false} SearchSkips(c: string, i: nat, j: nat)
    requires i <= j <= |c|
    requires forall k :: i <= k < j ==> TagVersion(c, k) == None
    ensures SearchVersion(c, i) == SearchVersion(c, j)
    decreases j - i
  {
    if i < j {
      SearchSkips(c, i + 1, j);
    }
  }

  lemma {:induction false} LastVersionSkips(c: string, lo: nat, p0: nat, hi: nat)
    requires lo <= p0 <= hi
    requires forall p :: p0 < p <= hi ==> !VersionAttrAt(c, p)
    ensures LastVersion(c, lo, hi) == LastVersion(c, lo, p0)
    decreases hi - p0
  {
    if p0 < hi {
      LastVersionSkips(c, lo, p0, hi - 1);
    }
  }

  /** The first `ch` of s lies past a prefix of length k that holds none. */
  lemma IndexOfFrom(s: string, ch: char, k: nat)
    requires k <= |s| && forall i :: 0 <= i < k ==> s[i] != ch
    ensures IndexOf(s, ch) == k + IndexOf(s[k..], ch)
  {
    var r := IndexOf(s[k..], ch);
    forall i | k <= i < k + r ensures s[i] != ch {
      assert s[i] == s[k..][i - k];
    }
    if k + r < |s| {
      assert s[k + r] == s[k..][r];
    }
  }

  // ------------------------------------------------------------ manifest

  /** `s.find(pat)`: the first index where pat occurs, or -1. */
  function Find(s: string, pat: string): (r: int)
    ensures r == -1 <==> !Contains(s, pat)
    ensures r >= 0 ==> r + |pat| <= |s| && s[r..r + |pat|] == pat
    ensures r >= 0 ==> forall k :: 0 <= k < r ==> !StartsWith(s[k..], pat)
    decreases |s|
  {
    if StartsWith(s, pat) then 0
    else if |s| == 0 then -1
    else
      var r := Find(s[1..], pat);
      if r < 0 then -1
      else
        assert forall k :: 1 <= k < r + 1 ==> s[k..] == s[1..][k - 1..];
        r + 1
  }

  /** `read_addon_xml`: the stripped manifest; one that opens with an XML
      declaration loses it up to `?>` and the white space after. Without a
      closing `?>`, `find` gives -1 and only the first character goes. */
  function ReadAddonXml(addonXml: Option<string>): (r: Option<string>)
    ensures r.Some? <==> addonXml.Some?
  {
    if addonXml.None? then None
    else
      var content := Strip(addonXml.value);
      if StartsWith(content, "<?xml") then
        var end := Find(content, "?>") + 2;
        Some(LStrip(content[end..]))
      else Some(content)
  }

  /** The declaration and the blank lines after it are removed; the add-on
      element is kept as written. `head` is the declaration up to its "?>". */
  lemma DeclarationRemoved(head: string, blank: string, body: string)
    requires |head| >= 5 && head[..5] == "<?xml" && !Contains(head, "?>") && AllSpace(blank)
    requires body != "" && !IsSpace(body[0]) && !IsSpace(body[|body| - 1])
    ensures ReadAddonXml(Some(head + "?>" + blank + body)) == Some(body)
  {
    var rest := blank + body;
    BlankThenBody(blank, body);
    Regroup(head, "?>", blank, body);
    DeclarationThen(head, rest);
  }

  /** The declaration's "?>" is the first one, and what follows it is
      left-stripped. */
  lemma DeclarationThen(head: string, rest: string)
    requires |head| >= 5 && head[..5] == "<?xml" && !Contains(head, "?>")
    requires |rest| > 0 && !IsSpace(rest[|rest| - 1])
    ensures ReadAddonXml(Some(head + "?>" + rest)) == Some(LStrip(rest))
  {
    var t := head + "?>" + rest;
    var n := |head| + 2;
    DeclarationParts(head, rest);
    FindAfterHead(head, rest);
    ReadDeclared(t, n);
  }

  /** Where the parts of a declared manifest lie. */
  lemma DeclarationParts(head: string, rest: string)
    requires |head| >= 5 && |rest| > 0
    ensures var t := head + "?>" + rest;
      && t[..5] == head[..5] && t[|t| - 1] == rest[|rest| - 1] && t[|head| + 2..] == rest
  {
  }

  /** Blank lines, then a body: stripped to the body, ending as it does. */
  lemma BlankThenBody(blank: string, body: string)
    requires AllSpace(blank) && body != "" && !IsSpace(body[0])
    ensures LStrip(blank + body) == body && (blank + body)[|blank + body| - 1] == body[|body| - 1]
  {
    LStripOfBlank(blank, body);
  }

  lemma Regroup(a: string, b: string, c: string, d: string)
    ensures a + b + c + d == a + b + (c + d)
  {
  }

  /** A manifest opening with "<?xml" and ending in a non-blank is already
      stripped and is read as declared. */
  lemma DeclaredShape(t: string)
    requires |t| >= 5 && t[..5] == "<?xml" && !IsSpace(t[|t| - 1])
    ensures Strip(t) == t && StartsWith(t, "<?xml")
  {
    assert !IsSpace(t[0]) by { assert t[0] == t[..5][0] == '<'; }
    LStripOfTrimmed(t);
    RStripOfTrimmed(t);
  }

  /** A manifest that opens with "<?xml" and ends in a non-blank keeps what
      follows the declaration's end, left-stripped. */
  lemma ReadDeclared(t: string, n: int)
    requires |t| >= 5 && t[..5] == "<?xml" && !IsSpace(t[|t| - 1]) && Find(t, "?>") + 2 == n
    ensures 0 <= n <= |t| && ReadAddonXml(Some(t)) == Some(LStrip(t[n..]))
  {
    DeclaredShape(t);
    ReadStripped(t, n);
  }

  lemma ReadStripped(t: string, n: int)
    requires Strip(t) == t && StartsWith(t, "<?xml") && Find(t, "?>") + 2 == n
    ensures 0 <= n <= |t| && ReadAddonXml(Some(t)) == Some(LStrip(t[n..]))
  {
  }

  /** The first "?>" of head + tail is tail's opening one when head has none. */
  lemma FindAfterHead(head: string, rest: string)
    requires !Contains(head, "?>")
    ensures Find(head + "?>" + rest, "?>") == |head|
  {
    var close := "?>";
    assert |close| == 2 && close[0] != close[1];
    FirstAfter(head, close, rest);
  }

  /** A two-character pattern of distinct characters, absent from head, is
      first found where it follows head. */
  lemma FirstAfter(head: string, pat: string, rest: string)
    requires |pat| == 2 && pat[0] != pat[1] && !Contains(head, pat)
    ensures Find(head + pat + rest, pat) == |head|
  {
    var t := head + pat + rest;
    assert t[|head|..|head| + 2] == pat;
    forall k | 0 <= k < |head| ensures !StartsWith(t[k..], pat) {
      if k + 2 <= |head| {
        assert t[k..][..2] == head[k..k + 2];
        if head[k..k + 2] == pat {
          ContainsAt(head, pat, k);
        }
      } else {
        assert t[k..][1] == t[|head|] == pat[0];
      }
    }
    FindFirst(t, pat, |head|);
  }

  /** An occurrence with none before it is the one Find reports. */
  lemma FindFirst(s: string, pat: string, i: nat)
    requires i + |pat| <= |s| && s[i..i + |pat|] == pat
    requires forall k :: 0 <= k < i ==> !StartsWith(s[k..], pat)
    ensures Find(s, pat) == i
  {
    ContainsAt(s, pat, i);
    var r := Find(s, pat);
    assert StartsWith(s[i..], pat) by {
      assert s[i..][..|pat|] == s[i..i + |pat|];
    }
    assert r >= 0;
    assert StartsWith(s[r..], pat) by {
      assert s[r..][..|pat|] == s[r..r + |pat|];
    }
  }

  lemma {:induction false} LStripOfBlank(blank: string, body: string)
    requires AllSpace(blank) && body != "" && !IsSpace(body[0])
    ensures LStrip(blank + body) == body
    decreases |blank|
  {
    if |blank| > 0 {
      assert (blank + body)[1..] == blank[1..] + body;
      LStripOfBlank(blank[1..], body);
    } else {
      assert blank + body == body;
    }
  }

  /** A manifest without a declaration is only stripped. */
  lemma NoDeclarationKept(text: string)
    requires !StartsWith(Strip(text), "<?xml")
    ensures ReadAddonXml(Some(text)) == Some(Strip(text))
  {
  }

  /** A declaration left open (no "?>" anywhere) loses only its '<'. */
  lemma OpenDeclarationLosesFirstChar(t: string)
    requires |t| >= 5 && t[..5] == "<?xml" && !Contains(t, "?>") && !IsSpace(t[|t| - 1])
    ensures ReadAddonXml(Some(t)) == Some(t[1..])
  {
    assert t[1] == t[..5][1] == '?';
    LStripOfTrimmed(t[1..]);
    ReadDeclared(t, 1);
  }

  // ------------------------------------------------------------ zip

  /** The archive names `zip_addon` writes: the add-on's folder entry first,
      then `<id>/<relative path>` for every file of the pruned walk. */
  function ZipLayout(addonId: string, tree: seq<Node>): (r: seq<string>)
    ensures |r| >= 1 && r[0] == addonId + "/"
  {
    var walked := Walk(tree, Kept, Kept);
    [addonId + "/"] + seq(|walked|, k requires 0 <= k < |walked| => addonId + "/" + RelPath(walked[k]))
  }

  /** `zip_addon`: the folder entry, then one entry per walked file. */
  method ZipAddon(addonId: string, tree: seq<Node>) returns (names: seq<string>)
    ensures names == ZipLayout(addonId, tree)
  {
    names := [addonId + "/"];
    var walked := Walk(tree, Kept, Kept);
    var k := 0;
    while k < |walked|
      invariant 0 <= k <= |walked|
      invariant names == [addonId + "/"] + seq(k, j requires 0 <= j < k => addonId + "/" + RelPath(walked[j]))
    {
      names := names + [addonId + "/" + RelPath(walked[k])];
      k := k + 1;
    }
  }

  /** Every entry after the folder lies in the add-on's folder and comes, in
      walk order, from a file that is not excluded, reached through
      directories that are not excluded. */
  lemma ZipEntriesAdmitted(addonId: string, tree: seq<Node>)
    ensures var walked := Walk(tree, Kept, Kept);
      && |ZipLayout(addonId, tree)| == |walked| + 1
      && forall k :: 1 <= k < |ZipLayout(addonId, tree)| ==>
           Admitted(walked[k - 1], Kept, Kept) && ZipLayout(addonId, tree)[k] == addonId + "/" + RelPath(walked[k - 1])
  {
    var walked := Walk(tree, Kept, Kept);
    var names := ZipLayout(addonId, tree);
    WalkAdmitted(tree, Kept, Kept);
    forall k | 1 <= k < |names|
      ensures Admitted(walked[k - 1], Kept, Kept) && names[k] == addonId + "/" + RelPath(walked[k - 1])
    {
      assert walked[k - 1] in walked;
    }
  }

  // ------------------------------------------------------------ main

  const AddonIds: seq<string> := ["plugin.program.dokukanal.buildsync", "skin.dokukanal", "repository.dokukanal"]
  const RepositoryId: string := "repository.dokukanal"

  /** An add-on directory: its manifest (if any) and its files. */
  datatype AddonSource = AddonSource(addonXml: Option<string>, tree: seq<Node>)

  /** A written zip, its path relative to the repository root and its entries. */
  datatype Artifact = Artifact(path: string, entries: seq<string>)

  /** What the build has gathered after some of the add-ons. */
  datatype Gathered = Gathered(zips: seq<Artifact>, xmls: seq<string>, repoVersion: Option<string>)

  function ZipName(addonId: string, version: string): string
  {
    addonId + "-" + version + ".zip"
  }

  function ZipPath(addonId: string, version: string): string
  {
    "dist/" + addonId + "/" + ZipName(addonId, version)
  }

  /** One add-on: skipped without a directory or a version; otherwise zipped,
      its manifest added if non-empty, and the repository add-on's version
      remembered. */
  function Gather(g: Gathered, addonId: string, addons: map<string, AddonSource>): (r: Gathered)
  {
    if addonId !in addons then g
    else
      var version := AddonVersion(addons[addonId].addonXml);
      if version.None? || version.value == "" then g
      else
        var zip := Artifact(ZipPath(addonId, version.value), ZipLayout(addonId, addons[addonId].tree));
        var xml := ReadAddonXml(addons[addonId].addonXml);
        Gathered(g.zips + [zip],
                 g.xmls + (if xml.Some? && xml.value != "" then [xml.value] else []),
                 if addonId == RepositoryId then version else g.repoVersion)
  }

  /** The loop of `main` over a list of add-on ids. */
  function GatherAll(ids: seq<string>, addons: map<string, AddonSource>): Gathered
  {
    if |ids| == 0 then Gathered([], [], None)
    else Gather(GatherAll(ids[..|ids| - 1], addons), ids[|ids| - 1], addons)
  }

  const XmlHeader: string := "<?xml version=\"1.0\" encoding=\"UTF-8\" standalone=\"yes\"?>\n"

  /** addons.xml: the one declaration, then the manifests inside `<addons>`. */
  function AddonsXml(xmls: seq<string>): (r: string)
    ensures StartsWith(r, XmlHeader + "<addons>\n")
    ensures forall k :: 0 <= k < |xmls| ==> Contains(r, xmls[k])
  {
    var r := XmlHeader + "<addons>\n" + Join(xmls, "\n") + "\n</addons>\n";
    forall k | 0 <= k < |xmls| ensures Contains(r, xmls[k]) {
      JoinContains(xmls, "\n", k);
      var pre := XmlHeader + "<addons>\n";
      assert r[|pre|..][..|Join(xmls, "\n")|] == Join(xmls, "\n");
      ContainsInPrefix(r[|pre|..], |Join(xmls, "\n")|, xmls[k]);
      ContainsInSuffix(r, |pre|, xmls[k]);
    }
    r
  }

  lemma {:induction false} JoinContains(parts: seq<string>, sep: string, k: nat)
    requires k < |parts|
    ensures Contains(Join(parts, sep), parts[k])
    decreases k
  {
    var j := Join(parts, sep);
    if |parts| == 1 {
      ContainsAt(j, parts[k], 0);
    } else if k == 0 {
      assert j[..|parts[0]|] == parts[0];
      ContainsAt(j, parts[0], 0);
    } else {
      JoinContains(parts[1..], sep, k - 1);
      var pre := parts[0] + sep;
      assert j == pre + Join(parts[1..], sep);
      assert j[|pre|..] == Join(parts[1..], sep);
      ContainsInSuffix(j, |pre|, parts[k]);
    }
  }

  /** index.html: a page linking the repository add-on's zip. */
  function IndexHtml(zipName: string): string
  {
    "<!DOCTYPE html>\n<html>\n<head><meta charset=\"utf-8\"><title>Doku-Kanal Repository</title></head>\n<body>\n<p><a href=\"dist/repository.dokukanal/"
    + zipName + "\">" + zipName + "</a></p>\n</body>\n</html>\n"
  }

  /** How `main` ends: exit status 1 when the add-ons directory is missing,
      else the files it writes (the checksum file is not modelled). */
  datatype Build = MissingAddonsDir | Built(zips: seq<Artifact>, addonsXml: string, index: Option<string>)

  function ExitCode(b: Build): (code: int)
    ensures code == 1 <==> b.MissingAddonsDir?
  {
    if b.MissingAddonsDir? then 1 else 0
  }

  /** index.html, written only once a repository version is known. */
  function IndexPage(repoVersion: Option<string>): Option<string>
  {
    if repoVersion.Some? && repoVersion.value != "" then Some(IndexHtml(ZipName(RepositoryId, repoVersion.value))) else None
  }

  /** `main` over the add-ons directory (None when it does not exist). */
  function BuildSpec(addons: Option<map<string, AddonSource>>): Build
  {
    if addons.None? then MissingAddonsDir
    else
      var g := GatherAll(AddonIds, addons.value);
      Built(g.zips, AddonsXml(g.xmls), IndexPage(g.repoVersion))
  }

  /** `main`: the loop over the add-on ids, then addons.xml and index.html. */
  method BuildRepository(addons: Option<map<string, AddonSource>>) returns (b: Build)
    ensures b == BuildSpec(addons)
  {
    if addons.None? {
      return MissingAddonsDir;
    }
    var m := addons.value;
    var g := Gathered([], [], None);
    var i := 0;
    while i < |AddonIds|
      invariant 0 <= i <= |AddonIds|
      invariant g == GatherAll(AddonIds[..i], m)
    {
      assert AddonIds[..i + 1][..i] == AddonIds[..i];
      g := GatherAddon(g, AddonIds[i], m);
      i := i + 1;
    }
    assert AddonIds[..|AddonIds|] == AddonIds;
    var index := WriteIndex(g.repoVersion);
    return Built(g.zips, AddonsXml(g.xmls), index);
  }

  /** One pass of `main`'s loop body. */
  method GatherAddon(g: Gathered, addonId: string, m: map<string, AddonSource>) returns (r: Gathered)
    ensures r == Gather(g, addonId, m)
  {
    r := g;
    if addonId !in m {
      return;
    }
    var version := AddonVersion(m[addonId].addonXml);
    if version.None? || version.value == "" {
      return;
    }
    if addonId == RepositoryId {
      r := r.(repoVersion := version);
    }
    var entries := ZipAddon(addonId, m[addonId].tree);
    r := r.(zips := r.zips + [Artifact(ZipPath(addonId, version.value), entries)]);
    var xml := ReadAddonXml(m[addonId].addonXml);
    if xml.Some? && xml.value != "" {
      r := r.(xmls := r.xmls + [xml.value]);
    }
  }

  /** The tail of `main`: index.html once a repository version is known. */
  method WriteIndex(repoVersion: Option<string>) returns (index: Option<string>)
    ensures index == IndexPage(repoVersion)
  {
    index := None;
    if repoVersion.Some? && repoVersion.value != "" {
      index := Some(IndexHtml(ZipName(RepositoryId, repoVersion.value)));
    }
  }

  // ------------------------------------------------------------ properties

  /** A zip is written exactly for the listed add-ons that are present and
      name a version, each at `dist/<id>/<id>-<version>.zip` with its layout. */
  lemma {:induction false} ZipsOfPresentVersioned(ids: seq<string>, addons: map<string, AddonSource>)
    ensures forall z :: z in GatherAll(ids, addons).zips ==>
      exists id :: id in ids && id in addons && AddonVersion(addons[id].addonXml).Some?
        && z == Artifact(ZipPath(id, AddonVersion(addons[id].addonXml).value), ZipLayout(id, addons[id].tree))
    ensures forall id :: id in ids && id in addons && AddonVersion(addons[id].addonXml).Some? ==>
      Artifact(ZipPath(id, AddonVersion(addons[id].addonXml).value), ZipLayout(id, addons[id].tree)) in GatherAll(ids, addons).zips
    decreases |ids|
  {
    if |ids| > 0 {
      var init := ids[..|ids| - 1];
      ZipsOfPresentVersioned(init, addons);
      assert forall id :: id in init ==> id in ids;
      assert forall id :: id in ids ==> id in init || id == ids[|ids| - 1];
    }
  }

  /** The remembered repository version is that add-on's, when it is listed
      and present. */
  lemma {:induction false} RepoVersionOfGather(ids: seq<string>, addons: map<string, AddonSource>)
    ensures GatherAll(ids, addons).repoVersion
         == if RepositoryId in ids && RepositoryId in addons then AddonVersion(addons[RepositoryId].addonXml) else None
    decreases |ids|
  {
    if |ids| > 0 {
      var init := ids[..|ids| - 1];
      RepoVersionOfGather(init, addons);
      assert forall id :: id in ids <==> id in init || id == ids[|ids| - 1];
    }
  }

  /** index.html is written exactly when the repository add-on is present and
      names a version, and then links that add-on's zip. */
  lemma IndexIffRepositoryVersion(addons: map<string, AddonSource>)
    ensures BuildSpec(Some(addons)).index.Some?
        <==> RepositoryId in addons && AddonVersion(addons[RepositoryId].addonXml).Some?
    ensures BuildSpec(Some(addons)).index.Some? ==>
      var v := AddonVersion(addons[RepositoryId].addonXml).value;
      && BuildSpec(Some(addons)).index == Some(IndexHtml(ZipName(RepositoryId, v)))
      && Artifact(ZipPath(RepositoryId, v), ZipLayout(RepositoryId, addons[RepositoryId].tree)) in BuildSpec(Some(addons)).zips
  {
    var g := GatherAll(AddonIds, addons);
    assert BuildSpec(Some(addons)).index == IndexPage(g.repoVersion) && BuildSpec(Some(addons)).zips == g.zips;
    assert RepositoryId in AddonIds by { assert AddonIds[2] == RepositoryId; }
    IndexOfGathered(AddonIds, addons);
  }

  lemma IndexOfGathered(ids: seq<string>, addons: map<string, AddonSource>)
    requires RepositoryId in ids
    ensures IndexPage(GatherAll(ids, addons).repoVersion).Some?
        <==> RepositoryId in addons && AddonVersion(addons[RepositoryId].addonXml).Some?
    ensures IndexPage(GatherAll(ids, addons).repoVersion).Some? ==>
      var v := AddonVersion(addons[RepositoryId].addonXml).value;
      && IndexPage(GatherAll(ids, addons).repoVersion) == Some(IndexHtml(ZipName(RepositoryId, v)))
      && Artifact(ZipPath(RepositoryId, v), ZipLayout(RepositoryId, addons[RepositoryId].tree)) in GatherAll(ids, addons).zips
  {
    RepoVersionOfGather(ids, addons);
    ZipsOfPresentVersioned(ids, addons);
  }
}
