// The static favourites reader (resources/lib/static_favourites.py, and its
// copy utils/static_favourites.py): where a folder's favourites.xml lives, and
// the two regular-expression scans that turn its text into (name, thumb,
// command) items.  The scans are modelled position by position as Python's
// `re.finditer` performs them:
//   elements   <favourite\s+([^>]+)>(.*?)</favourite>   (DOTALL)
//   attributes (\w+)="([^"]*)"

module StaticFavourites {
  import opened Text
  import opened PosixPath
  import AutoSync

  // ------------------------------------------------------------ paths

  function StaticFavouritesPath(profile: string): string
  {
    PathJoin(profile, "Static Favourites")
  }

  function FolderPath(profile: string, folder: string): string
  {
    PathJoin(StaticFavouritesPath(profile), Strip(folder))
  }

  function FavouritesXmlPath(profile: string, folder: string): (r: string)
    ensures EndsWith(r, "favourites.xml")
  {
    PathJoin(FolderPath(profile, folder), "favourites.xml")
  }

  /** The reader opens the very file the favourites sync writes: the add-on's
      profile is addon_data/<id> under userdata. */
  lemma ReaderMatchesSync(u: string, folder: string)
    requires Strip(folder) == folder
    ensures FavouritesXmlPath(PathJoin(PathJoin(u, "addon_data"), AutoSync.AddonId), folder)
         == AutoSync.StaticFile(AutoSync.LayoutOf(u), folder)
  {
  }

  /** The folder name is only trimmed, so a name starting with '/' leaves the
      Static Favourites directory altogether. */
  lemma AbsoluteFolderLeavesBase(profile: string, folder: string)
    requires StartsWith(Strip(folder), "/")
    ensures FavouritesXmlPath(profile, folder) == PathJoin(Strip(folder), "favourites.xml")
  {
  }

  // ------------------------------------------------------------ scanning helpers

  /** `\w` of a str pattern: '_' and the characters str.isalnum() accepts,
      here for ASCII, Latin-1 (letters, superscript digits and the vulgar
      fractions), Latin Extended-A, basic Greek and the Cyrillic letters. */
  predicate IsWordChar(c: char)
  {
    var v := c as int;
    ('a' <= c <= 'z') || ('A' <= c <= 'Z') || ('0' <= c <= '9') || c == '_'
    || v == 0xAA || v == 0xB2 || v == 0xB3 || v == 0xB5 || v == 0xB9 || v == 0xBA || (0xBC <= v <= 0xBE)
    || (0xC0 <= v <= 0x17F && v != 0xD7 && v != 0xF7)
    || (0x391 <= v <= 0x3A9 && v != 0x3A2) || (0x3B1 <= v <= 0x3C9)
    || (0x400 <= v <= 0x481) || (0x48A <= v <= 0x4FF)
  }

  /** p occurs in s at i. */
  predicate At(s: string, i: nat, p: string)
  {
    i + |p| <= |s| && s[i..i + |p|] == p
  }

  /** The length of the white-space run starting at i. */
  function SpaceRun(s: string, i: nat): (n: nat)
    requires i <= |s|
    ensures i + n <= |s|
    ensures forall k :: i <= k < i + n ==> IsSpace(s[k])
    ensures i + n < |s| ==> !IsSpace(s[i + n])
    decreases |s| - i
  {
    if i < |s| && IsSpace(s[i]) then 1 + SpaceRun(s, i + 1) else 0
  }

  /** The length of the word-character run starting at i. */
  function WordRun(s: string, i: nat): (n: nat)
    requires i <= |s|
    ensures i + n <= |s|
    ensures forall k :: i <= k < i + n ==> IsWordChar(s[k])
    ensures i + n < |s| ==> !IsWordChar(s[i + n])
    decreases |s| - i
  {
    if i < |s| && IsWordChar(s[i]) then 1 + WordRun(s, i + 1) else 0
  }

  /** The first index from i on holding c. */
  function FindChar(s: string, i: nat, c: char): (r: Option<nat>)
    requires i <= |s|
    ensures r.Some? ==> i <= r.value < |s| && s[r.value] == c
    ensures forall k :: i <= k < |s| && (r.None? || k < r.value) ==> s[k] != c
    decreases |s| - i
  {
    if i == |s| then None else if s[i] == c then Some(i) else FindChar(s, i + 1, c)
  }

  /** The first index from i on where p occurs. */
  function Find(s: string, i: nat, p: string): (r: Option<nat>)
    requires i <= |s|
    ensures r.Some? ==> i <= r.value && At(s, r.value, p)
    ensures forall k :: i <= k <= |s| && (r.None? || k < r.value) ==> !At(s, k, p)
    decreases |s| - i
  {
    if At(s, i, p) then Some(i) else if i == |s| then None else Find(s, i + 1, p)
  }

  // ------------------------------------------------------------ the element scan

  /** One element match: the attribute text, the body, and where the match ends. */
  datatype Element = Element(attrs: string, body: string, end: nat)

  const OpenTag := "<favourite"
  const CloseTag := "</favourite>"

  /** The element pattern tried at position i.  `\s+` takes the white-space
      run, `[^>]+` everything up to the first '>' (giving back one blank when
      the run reaches the '>' directly), and the lazy body ends at the first
      closing tag after it. */
  function ElementAt(s: string, i: nat): (r: Option<Element>)
    requires i <= |s|
    ensures r.Some? ==> i < r.value.end <= |s| && |r.value.attrs| > 0
  {
    if !At(s, i, OpenTag) then None
    else
      var a := i + |OpenTag|;
      var w := SpaceRun(s, a);
      match FindChar(s, a, '>')
      case None => None
      case Some(g) =>
        if w == 0 || (a + w == g && w < 2) then None
        else
          var from := if a + w < g then a + w else g - 1;
          match Find(s, g + 1, CloseTag)
          case None => None
          case Some(e) => Some(Element(s[from..g], s[g + 1..e], e + |CloseTag|))
  }

  /** `re.finditer` of the element pattern from position i on. */
  function Elements(s: string, i: nat): seq<Element>
    decreases |s| + 1 - i
  {
    if i > |s| then []
    else match ElementAt(s, i)
      case Some(m) => [m] + Elements(s, m.end)
      case None => Elements(s, i + 1)
  }

  // ------------------------------------------------------------ the attribute scan

  datatype Attr = Attr(key: string, value: string, end: nat)

  /** The attribute pattern tried at position p: a maximal word, `="`, and the
      text up to the next '"'. */
  function AttrAt(s: string, p: nat): (r: Option<Attr>)
    requires p <= |s|
    ensures r.Some? ==> p < r.value.end <= |s| && |r.value.key| > 0 && '"' !in r.value.value
  {
    var q := p + WordRun(s, p);
    if q == p || !At(s, q, "=\"") then None
    else match FindChar(s, q + 2, '"')
      case None => None
      case Some(c) =>
        var v := s[q + 2..c];
        assert forall k :: 0 <= k < |v| ==> v[k] == s[q + 2 + k];
        Some(Attr(s[p..q], v, c + 1))
  }

  function Attrs(s: string, p: nat): seq<Attr>
    decreases |s| + 1 - p
  {
    if p > |s| then []
    else match AttrAt(s, p)
      case Some(a) => [a] + Attrs(s, a.end)
      case None => Attrs(s, p + 1)
  }

  // ------------------------------------------------------------ decoding

  /** An attribute value: `&quot;` then `&amp;`. */
  function DecodeAttr(v: string): string
  {
    Replace(Replace(v, "&quot;", "\""), "&amp;", "&")
  }

  /** A command: `&quot;`, `&amp;`, `&lt;`, `&gt;` in that order. */
  function DecodeCommand(b: string): string
  {
    Replace(Replace(Replace(Replace(b, "&quot;", "\""), "&amp;", "&"), "&lt;", "<"), "&gt;", ">")
  }

  /** Text without '&' passes both decoders unchanged. */
  lemma DecodeWithoutAmpersand(v: string)
    requires '&' !in v
    ensures DecodeAttr(v) == v && DecodeCommand(v) == v
  {
    NoAmpersandNoEntity(v, "&quot;");
    NoAmpersandNoEntity(v, "&amp;");
    NoAmpersandNoEntity(v, "&lt;");
    NoAmpersandNoEntity(v, "&gt;");
    ReplaceAbsent(v, "&quot;", "\"");
    ReplaceAbsent(v, "&amp;", "&");
    ReplaceAbsent(v, "&lt;", "<");
    ReplaceAbsent(v, "&gt;", ">");
  }

  lemma {:induction false} NoAmpersandNoEntity(v: string, e: string)
    requires '&' !in v && |e| > 0 && e[0] == '&'
    ensures !Contains(v, e)
    decreases |v|
  {
    if |v| > 0 {
      assert v[0] != e[0];
      assert !StartsWith(v, e);
      NoAmpersandNoEntity(v[1..], e);
    }
  }

  /** The command decoder runs `&amp;` before `&lt;`, so an escaped entity is
      decoded twice: `&amp;lt;` becomes '<' rather than `&lt;`.  The attribute
      decoder, with `&quot;` first, decodes `&amp;quot;` once. */
  lemma CommandDecodesTwice()
    ensures DecodeCommand("&amp;lt;") == "<"
    ensures DecodeAttr("&amp;quot;") == "&quot;"
  {
    AmpLtDecoded();
    AmpQuotDecoded();
  }

  /** s.replace(pat, rep) on a text starting with pat. */
  lemma ReplaceFront(pat: string, rep: string, rest: string)
    requires |pat| > 0
    ensures Replace(pat + rest, pat, rep) == rep + Replace(rest, pat, rep)
  {
    assert StartsWith(pat + rest, pat);
    assert (pat + rest)[|pat|..] == rest;
  }

  lemma AmpLtDecoded()
    ensures Replace(Replace("&amp;lt;", "&quot;", "\""), "&amp;", "&") == "&lt;"
    ensures Replace(Replace("&lt;", "&lt;", "<"), "&gt;", ">") == "<"
  {
    NoQuotEntity("&amp;lt;");
    ReplaceAbsent("&amp;lt;", "&quot;", "\"");
    assert "&amp;lt;" == "&amp;" + "lt;";
    ReplaceFront("&amp;", "&", "lt;");
    NoAmpersandNoEntity("lt;", "&amp;");
    ReplaceAbsent("lt;", "&amp;", "&");
    assert "&lt;" == "&lt;" + "";
    ReplaceFront("&lt;", "<", "");
    NoAmpersandNoEntity("<", "&gt;");
    ReplaceAbsent("<", "&gt;", ">");
  }

  lemma AmpQuotDecoded()
    ensures DecodeAttr("&amp;quot;") == "&quot;"
  {
    QuotAbsent();
    AmpFront();
  }

  lemma QuotAbsent()
    ensures Replace("&amp;quot;", "&quot;", "\"") == "&amp;quot;"
  {
    NoQuotEntity("&amp;quot;");
    ReplaceAbsent("&amp;quot;", "&quot;", "\"");
  }

  lemma AmpFront()
    ensures Replace("&amp;quot;", "&amp;", "&") == "&quot;"
  {
    assert "&amp;quot;" == "&amp;" + "quot;";
    ReplaceFront("&amp;", "&", "quot;");
    NoAmpersandNoEntity("quot;", "&amp;");
    ReplaceAbsent("quot;", "&amp;", "&");
  }

  lemma NoQuotEntity(v: string)
    requires |v| > 1 && v[0] == '&' && v[1] == 'a' && '&' !in v[1..]
    ensures !Contains(v, "&quot;")
  {
    assert !StartsWith(v, "&quot;") by {
      if 6 <= |v| {
        assert v[..6][1] == 'a';
      }
    }
    NoAmpersandNoEntity(v[1..], "&quot;");
  }

  // ------------------------------------------------------------ items

  datatype Favourite = Favourite(name: string, thumb: string, command: string)

  /** The inner loop: each `name`/`thumb` attribute, keys compared in lower
      case, overwrites the value found before it. */
  function NameThumb(attrs: seq<Attr>, name: string, thumb: string): (string, string)
    decreases |attrs|
  {
    if |attrs| == 0 then (name, thumb)
    else
      var key := Lower(attrs[0].key);
      NameThumb(attrs[1..], if key == "name" then DecodeAttr(attrs[0].value) else name,
                if key == "thumb" then DecodeAttr(attrs[0].value) else thumb)
  }

  /** The item an element gives, if any: kept when it has a name or a
      command; a missing name reads "Item". */
  function ItemOf(e: Element): (r: Option<Favourite>)
    ensures r.Some? ==> r.value.name != ""
  {
    var nt := NameThumb(Attrs(e.attrs, 0), "", "");
    var command := DecodeCommand(Strip(e.body));
    if nt.0 != "" || command != "" then Some(Favourite(if nt.0 != "" then nt.0 else "Item", nt.1, command))
    else None
  }

  function ItemsOf(es: seq<Element>): (r: seq<Favourite>)
    ensures forall k :: 0 <= k < |r| ==> r[k].name != ""
  {
    if |es| == 0 then []
    else
      var rest := ItemsOf(es[1..]);
      match ItemOf(es[0])
      case Some(f) => [f] + rest
      case None => rest
  }

  /** The favourites file as the reader finds it. */
  datatype Source = Missing | Unreadable | Text(xml: string)

  /** `read_favourites` on the file it finds. */
  function ReadFavourites(f: Source): (r: seq<Favourite>)
    ensures !f.Text? ==> r == []
    ensures forall k :: 0 <= k < |r| ==> r[k].name != ""
  {
    match f
    case Text(xml) => ItemsOf(Elements(xml, 0))
    case _ => []
  }

  /** The last `name` attribute wins; with none, the starting name stays. */
  lemma {:induction false} LastNameWins(attrs: seq<Attr>, name: string, thumb: string, k: nat)
    requires k < |attrs| && Lower(attrs[k].key) == "name"
    requires forall j :: k < j < |attrs| ==> Lower(attrs[j].key) != "name"
    ensures NameThumb(attrs, name, thumb).0 == DecodeAttr(attrs[k].value)
    decreases |attrs|
  {
    if k == 0 {
      NoNameKeeps(attrs[1..], DecodeAttr(attrs[0].value), thumb);
    } else {
      var key := Lower(attrs[0].key);
      LastNameWins(attrs[1..], if key == "name" then DecodeAttr(attrs[0].value) else name,
                   if key == "thumb" then DecodeAttr(attrs[0].value) else thumb, k - 1);
    }
  }

  lemma {:induction false} NoNameKeeps(attrs: seq<Attr>, name: string, thumb: string)
    requires forall j :: 0 <= j < |attrs| ==> Lower(attrs[j].key) != "name"
    ensures NameThumb(attrs, name, thumb).0 == name
    decreases |attrs|
  {
    if |attrs| > 0 {
      var key := Lower(attrs[0].key);
      NoNameKeeps(attrs[1..], name, if key == "thumb" then DecodeAttr(attrs[0].value) else thumb);
    }
  }

  // ------------------------------------------------------------ reading one entry

  /** Kodi's form of one favourite with a name attribute. */
  function Entry(name: string, command: string): string
  {
    OpenWith(NameAttr(name)) + command + CloseTag
  }

  /** The attribute text of that entry. */
  function NameAttr(name: string): string
  {
    "name=\"" + name + "\""
  }

  /** FindChar stops at the first c. */
  lemma {:induction false} FindCharFirst(s: string, i: nat, c: char, g: nat)
    requires i <= g < |s| && s[g] == c
    requires forall k :: i <= k < g ==> s[k] != c
    ensures FindChar(s, i, c) == Some(g)
    decreases g - i
  {
    if i < g {
      FindCharFirst(s, i + 1, c, g);
    }
  }

  /** Find stops at the first occurrence, here the first place holding the
      pattern's first character. */
  lemma {:induction false} FindFirst(s: string, i: nat, p: string, e: nat)
    requires i <= e && At(s, e, p) && |p| > 0
    requires forall k :: i <= k < e ==> s[k] != p[0]
    ensures Find(s, i, p) == Some(e)
    decreases e - i
  {
    if i < e {
      assert !At(s, i, p) by {
        if i + |p| <= |s| {
          assert s[i..i + |p|][0] == s[i];
        }
      }
      FindFirst(s, i + 1, p, e);
    }
  }

  /** The opening tag with its attribute text. */
  function OpenWith(attrs: string): string
  {
    OpenTag + " " + attrs + ">"
  }

  /** The '>' closing the opening tag is the first one after the tag name. */
  lemma OpenTagEnds(attrs: string, rest: string)
    requires '>' !in attrs
    ensures FindChar(OpenWith(attrs) + rest, 10, '>') == Some(11 + |attrs|)
  {
    var t := OpenWith(attrs);
    var s := t + rest;
    var g := 11 + |attrs|;
    assert t[g] == '>' && s[g] == t[g];
    forall k | 10 <= k < g
      ensures s[k] != '>'
    {
      assert s[k] == t[k];
      if k > 10 {
        assert t[k] == attrs[k - 11];
      }
    }
    FindCharFirst(s, 10, '>', g);
  }

  /** The body ends at the closing tag written after a command free of '<'. */
  lemma BodyEnds(head: string, command: string)
    requires '<' !in command
    ensures Find(head + command + CloseTag, |head|, CloseTag) == Some(|head| + |command|)
  {
    var s := head + command + CloseTag;
    var e := |head| + |command|;
    assert s[e..] == CloseTag;
    assert At(s, e, CloseTag);
    forall k | |head| <= k < e
      ensures s[k] != CloseTag[0]
    {
      assert s[k] == command[k - |head|];
    }
    FindFirst(s, |head|, CloseTag, e);
  }

  /** ElementAt at 0 once its three searches are known. */
  lemma ElementFromSearches(s: string, attrs: string, command: string, g: nat)
    requires g == 11 + |attrs| && g + 1 + |command| + |CloseTag| == |s|
    requires At(s, 0, OpenTag) && s[10] == ' ' && |attrs| > 0 && s[11] == attrs[0] && !IsSpace(attrs[0])
    requires FindChar(s, 10, '>') == Some(g)
    requires Find(s, g + 1, CloseTag) == Some(g + 1 + |command|)
    requires s[11..g] == attrs && s[g + 1..g + 1 + |command|] == command
    ensures ElementAt(s, 0) == Some(Element(attrs, command, |s|))
  {
    assert SpaceRun(s, 11) == 0;
    assert SpaceRun(s, 10) == 1;
  }

  /** An element whose attribute text starts with a non-blank and holds no
      '>', with a command free of '<', is matched whole at its start. */
  lemma ElementOfParts(attrs: string, command: string)
    requires |attrs| > 0 && !IsSpace(attrs[0]) && '>' !in attrs && '<' !in command
    ensures var s := OpenWith(attrs) + command + CloseTag;
            ElementAt(s, 0) == Some(Element(attrs, command, |s|))
  {
    var t := OpenWith(attrs);
    var s := t + command + CloseTag;
    var g := 11 + |attrs|;
    assert |t| == g + 1;
    assert s[..10] == OpenTag;
    assert s[10] == ' ' && s[11] == attrs[0];
    OpenTagEnds(attrs, command + CloseTag);
    assert t + (command + CloseTag) == s;
    BodyEnds(t, command);
    assert s[11..g] == attrs;
    assert s[g + 1..g + 1 + |command|] == command;
    ElementFromSearches(s, attrs, command, g);
  }

  lemma EntryAttrs(name: string)
    requires '"' !in name
    ensures Attrs(NameAttr(name), 0) == [Attr("name", name, |NameAttr(name)|)]
  {
    var t := NameAttr(name);
    NameAttrKey(name);
    NameAttrValueEnds(name);
    assert t[..4] == "name" && t[6..6 + |name|] == name;
    assert AttrAt(t, 0) == Some(Attr("name", name, |t|));
    assert Attrs(t, |t|) == [] by {
      assert WordRun(t, |t|) == 0;
    }
  }

  /** The key of `name="…"` is the word before '='. */
  lemma NameAttrKey(name: string)
    ensures WordRun(NameAttr(name), 0) == 4 && At(NameAttr(name), 4, "=\"")
  {
    var t := NameAttr(name);
    assert t[..6] == "name=\"";
    assert !IsWordChar(t[4]);
    assert WordRun(t, 4) == 0;
    assert t[4..6] == "=\"";
  }

  /** The value of `name="…"` ends at the closing quote. */
  lemma NameAttrValueEnds(name: string)
    requires '"' !in name
    ensures FindChar(NameAttr(name), 6, '"') == Some(6 + |name|)
  {
    var t := NameAttr(name);
    var c := 6 + |name|;
    assert t[c] == '"';
    forall k | 6 <= k < c
      ensures t[k] != '"'
    {
      assert t[k] == name[k - 6];
    }
    FindCharFirst(t, 6, '"', c);
  }

  lemma EntryElements(name: string, command: string)
    requires '>' !in name && '"' !in name && '<' !in command
    ensures Elements(Entry(name, command), 0) == [Element(NameAttr(name), command, |Entry(name, command)|)]
  {
    var s := Entry(name, command);
    assert '>' !in NameAttr(name);
    ElementOfParts(NameAttr(name), command);
    assert Elements(s, |s|) == [];
  }

  lemma EntryItem(name: string, command: string)
    requires name != "" && '"' !in name && '&' !in name && '&' !in command
    ensures ItemOf(Element(NameAttr(name), command, |Entry(name, command)|)) == Some(Favourite(name, "", Strip(command)))
  {
    EntryAttrs(name);
    assert Lower("name") == "name";
    DecodeWithoutAmpersand(name);
    assert NameThumb([Attr("name", name, |NameAttr(name)|)], "", "") == (name, "");
    StripShape(command);
    var t := Strip(command);
    assert '&' !in t by {
      var off := |command| - |LStrip(command)|;
      forall k | 0 <= k < |t| ensures t[k] != '&' {
        assert t[k] == command[off + k];
      }
    }
    DecodeWithoutAmpersand(t);
  }

  /** A text holding exactly one element reads as that element's item. */
  lemma ReadsSingleElement(xml: string, m: Element, f: Favourite)
    requires Elements(xml, 0) == [m] && ItemOf(m) == Some(f)
    ensures ReadFavourites(Text(xml)) == [f]
  {
    ItemsOfCons(m, []);
    assert [m] + [] == [m];
  }

  /** One favourite written as Kodi writes it reads back as its name and its
      stripped command, with no thumbnail. */
  lemma ReadsOneEntry(name: string, command: string)
    requires name != "" && '"' !in name && '>' !in name && '&' !in name
    requires '<' !in command && '&' !in command
    ensures ReadFavourites(Text(Entry(name, command))) == [Favourite(name, "", Strip(command))]
  {
    var m := Element(NameAttr(name), command, |Entry(name, command)|);
    EntryElements(name, command);
    EntryItem(name, command);
    ReadsSingleElement(Entry(name, command), m, Favourite(name, "", Strip(command)));
  }

  // ------------------------------------------------------------ the loops

  /** The inner loop over the attribute matches. */
  method ReadAttributes(s: string) returns (name: string, thumb: string)
    ensures (name, thumb) == NameThumb(Attrs(s, 0), "", "")
  {
    name, thumb := "", "";
    var p := 0;
    while p <= |s|
      invariant 0 <= p <= |s| + 1
      invariant NameThumb(Attrs(s, p), name, thumb) == NameThumb(Attrs(s, 0), "", "")
      decreases |s| + 1 - p
    {
      match AttrAt(s, p) {
        case Some(a) =>
          var key := Lower(a.key);
          if key == "name" {
            name := DecodeAttr(a.value);
          } else if key == "thumb" {
            thumb := DecodeAttr(a.value);
          }
          p := a.end;
        case None =>
          p := p + 1;
      }
    }
  }

  /** One element's item: the attribute loop, then the command. */
  method ReadItem(m: Element) returns (item: Option<Favourite>)
    ensures item == ItemOf(m)
  {
    var name, thumb := ReadAttributes(m.attrs);
    var command := DecodeCommand(Strip(m.body));
    if name != "" || command != "" {
      item := Some(Favourite(if name != "" then name else "Item", thumb, command));
    } else {
      item := None;
    }
  }

  lemma ElementsFound(xml: string, i: nat, m: Element)
    requires i <= |xml| && ElementAt(xml, i) == Some(m)
    ensures Elements(xml, i) == [m] + Elements(xml, m.end)
  {
  }

  lemma ElementsSkipped(xml: string, i: nat)
    requires i <= |xml| && ElementAt(xml, i).None?
    ensures Elements(xml, i) == Elements(xml, i + 1)
  {
  }

  lemma ItemsOfCons(m: Element, rest: seq<Element>)
    ensures ItemsOf([m] + rest) == (if ItemOf(m).Some? then [ItemOf(m).value] else []) + ItemsOf(rest)
  {
    assert ([m] + rest)[1..] == rest;
  }

  /** Reading one more element extends the items found so far. */
  lemma ItemsStep(items: seq<Favourite>, m: Element, rest: seq<Element>, item: Option<Favourite>)
    requires item == ItemOf(m)
    ensures items + ItemsOf([m] + rest)
      == (if item.Some? then items + [item.value] else items) + ItemsOf(rest)
  {
    ItemsOfCons(m, rest);
  }

  /** One round of the outer loop: the element matched at i, if any, read
      and the search moved past it. */
  method ParseStep(xml: string, i: nat, items: seq<Favourite>) returns (next: nat, more: seq<Favourite>)
    requires i <= |xml|
    ensures i < next <= |xml| + 1
    ensures more + ItemsOf(Elements(xml, next)) == items + ItemsOf(Elements(xml, i))
  {
    var found := ElementAt(xml, i);
    if found.Some? {
      var m := found.value;
      ElementsFound(xml, i, m);
      var item := ReadItem(m);
      ItemsStep(items, m, Elements(xml, m.end), item);
      more := if item.Some? then items + [item.value] else items;
      next := m.end;
    } else {
      ElementsSkipped(xml, i);
      more, next := items, i + 1;
    }
  }

  /** The outer loop over the element matches of the file's text. */
  method ParseItems(xml: string) returns (items: seq<Favourite>)
    ensures items == ItemsOf(Elements(xml, 0))
  {
    items := [];
    var i := 0;
    while i <= |xml|
      invariant 0 <= i <= |xml| + 1
      invariant items + ItemsOf(Elements(xml, i)) == ItemsOf(Elements(xml, 0))
      decreases |xml| + 1 - i
    {
      i, items := ParseStep(xml, i, items);
    }
    assert items + [] == items;
  }

  method ReadFavouritesFile(f: Source) returns (items: seq<Favourite>)
    ensures items == ReadFavourites(f)
  {
    if !f.Text? {
      return [];
    }
    items := ParseItems(f.xml);
  }
}
