// The favourites union-merge engine: a favourites.xml document is read as the
// ordered list of trimmed command strings of its <favourite> children, written
// back from such a list, and two lists are merged by keeping the local list and
// appending the server entries whose trimmed command is new.

module FavouritesMerge {
  import opened Text
  import opened Storage

  /** `_normalize_action`: None becomes '', anything else is stripped. */
  function NormalizeAction(text: Option<string>): (r: string)
    ensures text.None? ==> r == ""
    ensures text.Some? ==> r == Strip(text.value)
  {
    match text
    case None => ""
    case Some(t) => Strip(t)
  }

  /** The merge key of a command string. */
  function Key(a: string): string
  {
    NormalizeAction(Some(a))
  }

  /** The set of keys of a list, as `{_normalize_action(a) for a in xs}`. */
  function Keys(xs: seq<string>): set<string>
  {
    set a | a in xs :: Key(a)
  }

  // ---------------------------------------------------------------- parsing

  /** The action one child contributes to the list: its normalised text when it
      is a `favourite` element with non-blank text, nothing otherwise. */
  function ActionOf(c: Element): seq<string>
  {
    if c.tag == "favourite" && c.text.Some? && NormalizeAction(c.text) != ""
    then [NormalizeAction(c.text)] else []
  }

  /** The actions taken from the root's children, in document order. */
  function ActionsOf(children: seq<Element>): (r: seq<string>)
  {
    if |children| == 0 then [] else ActionOf(children[0]) + ActionsOf(children[1..])
  }

  /** What `parse_favourites(path)` returns for the file found at that path
      (None: there is no file). */
  function ParsedActions(path: string, file: Option<Blob>): seq<string>
  {
    if path == "" || file.None? then []
    else match file.value
      case Xml(doc) => if doc.rootTag != "favourites" then [] else ActionsOf(doc.children)
      case _ => []
  }

  /** Every parsed action is non-empty, already trimmed, and the trimmed text of
      a `favourite` child. */
  lemma {:induction false} ActionsOfShape(children: seq<Element>)
    ensures forall a :: a in ActionsOf(children) ==>
      a != "" && Strip(a) == a
      && exists c :: c in children && c.tag == "favourite" && c.text.Some? && Strip(c.text.value) == a
  {
    if |children| > 0 {
      ActionsOfShape(children[1..]);
      var c := children[0];
      if c.tag == "favourite" && c.text.Some? && NormalizeAction(c.text) != "" {
        StripIdempotent(c.text.value);
      }
      forall a | a in ActionsOf(children[1..])
        ensures exists c :: c in children && c.tag == "favourite" && c.text.Some? && Strip(c.text.value) == a
      {
        var c' :| c' in children[1..] && c'.tag == "favourite" && c'.text.Some? && Strip(c'.text.value) == a;
        assert c' in children;
      }
    }
  }

  /** The three ways `parse_favourites` yields nothing besides an empty document. */
  lemma ParsedActionsEmptyCases(path: string, file: Option<Blob>)
    ensures path == "" ==> ParsedActions(path, file) == []
    ensures file.None? || file == Some(Malformed) ==> ParsedActions(path, file) == []
    ensures file.Some? && file.value.Xml? && file.value.doc.rootTag != "favourites" ==> ParsedActions(path, file) == []
  {
  }

  /** `parse_favourites(path)` on the local disk. */
  method ParseFavourites(disk: Disk, path: string) returns (actions: seq<string>)
    ensures actions == ParsedActions(path, if path in disk.files then Some(disk.files[path]) else None)
  {
    if path == "" || path !in disk.files {
      return [];
    }
    var blob := disk.files[path];
    if !blob.Xml? || blob.doc.rootTag != "favourites" {
      return [];
    }
    actions := CollectActions(blob.doc.children);
  }

  /** The loop of `parse_favourites` over the root's children. */
  method CollectActions(children: seq<Element>) returns (actions: seq<string>)
    ensures actions == ActionsOf(children)
  {
    actions := [];
    var i := 0;
    while i < |children|
      invariant 0 <= i <= |children|
      invariant actions + ActionsOf(children[i..]) == ActionsOf(children)
    {
      assert children[i..][1..] == children[i + 1..];
      assert ActionsOf(children[i..]) == ActionOf(children[i]) + ActionsOf(children[i + 1..]);
      actions := actions + ActionOf(children[i]);
      i := i + 1;
    }
  }

  // ---------------------------------------------------------------- writing

  /** An item of the list handed to `write_favourites`: a string, or any other
      Python value. */
  datatype Item = Str(s: string) | NonStr

  /** Plain strings as list items. */
  function Items(xs: seq<string>): (r: seq<Item>)
    ensures |r| == |xs| && forall k :: 0 <= k < |xs| ==> r[k] == Str(xs[k])
  {
    if |xs| == 0 then [] else [Str(xs[0])] + Items(xs[1..])
  }

  /** The `favourite` children written for a list: one per string item that is
      not blank, carrying the stripped string. */
  function WrittenChildren(items: seq<Item>): seq<Element>
  {
    if |items| == 0 then [] else WrittenOf(items[0]) + WrittenChildren(items[1..])
  }

  /** The element one item contributes: a `favourite` holding the stripped
      string when the item is a non-blank string, nothing otherwise. */
  function WrittenOf(item: Item): seq<Element>
  {
    if item.Str? && Strip(item.s) != "" then [Element("favourite", Some(Strip(item.s)))] else []
  }

  /** The stripped, non-blank strings of a list, in order. */
  function Kept(items: seq<Item>): (r: seq<string>)
  {
    if |items| == 0 then [] else KeptOf(items[0]) + Kept(items[1..])
  }

  function KeptOf(item: Item): seq<string>
  {
    if item.Str? && Strip(item.s) != "" then [Strip(item.s)] else []
  }

  /** The document `write_favourites` produces. */
  function WrittenDoc(items: seq<Item>): XmlDoc
  {
    XmlDoc("favourites", WrittenChildren(items))
  }

  /** `write_favourites(path, items)`: the file at path is replaced by the
      document and True is returned. */
  method WriteFavourites(disk: Disk, path: string, items: seq<Item>) returns (ok: bool)
    modifies disk
    ensures disk.files == old(disk.files)[path := Xml(WrittenDoc(items))]
    ensures disk.dirs == old(disk.dirs)
    ensures ok
  {
    var children := BuildChildren(items);
    disk.files := disk.files[path := Xml(XmlDoc("favourites", children))];
    ok := true;
  }

  /** The loop of `write_favourites` adding one `favourite` element per kept item. */
  method BuildChildren(items: seq<Item>) returns (children: seq<Element>)
    ensures children == WrittenChildren(items)
  {
    children := [];
    var i := 0;
    while i < |items|
      invariant 0 <= i <= |items|
      invariant children + WrittenChildren(items[i..]) == WrittenChildren(items)
    {
      assert items[i..][1..] == items[i + 1..];
      assert WrittenChildren(items[i..]) == WrittenOf(items[i]) + WrittenChildren(items[i + 1..]);
      children := children + WrittenOf(items[i]);
      i := i + 1;
    }
  }

  /** Reading back what was written yields the stripped, non-blank strings of
      the written list, in order. */
  lemma {:induction false} ReadBackWritten(items: seq<Item>)
    ensures ActionsOf(WrittenChildren(items)) == Kept(items)
  {
    if |items| > 0 {
      ReadBackWritten(items[1..]);
      ActionsOfConcat(WrittenOf(items[0]), WrittenChildren(items[1..]));
      var w := WrittenOf(items[0]);
      if items[0].Str? && Strip(items[0].s) != "" {
        StripIdempotent(items[0].s);
        assert w[1..] == [];
        assert ActionsOf(w) == ActionOf(w[0]) + ActionsOf(w[1..]);
      }
      assert ActionsOf(w) == KeptOf(items[0]);
    }
  }

  lemma {:induction false} ActionsOfConcat(a: seq<Element>, b: seq<Element>)
    ensures ActionsOf(a + b) == ActionsOf(a) + ActionsOf(b)
    decreases |a|
  {
    if |a| > 0 {
      assert (a + b)[1..] == a[1..] + b;
      ActionsOfConcat(a[1..], b);
    } else {
      assert a + b == b;
    }
  }

  /** The round trip through the file: parse(write(path, items)) == Kept(items). */
  lemma WriteThenParse(path: string, items: seq<Item>)
    requires path != ""
    ensures ParsedActions(path, Some(Xml(WrittenDoc(items)))) == Kept(items)
  {
    ReadBackWritten(items);
  }

  /** A list that came out of a parse is written back unchanged: blank and
      untrimmed entries are what `write_favourites` drops or strips. */
  lemma {:induction false} KeptOfTrimmed(xs: seq<string>)
    requires forall k :: 0 <= k < |xs| ==> xs[k] != "" && Strip(xs[k]) == xs[k]
    ensures Kept(Items(xs)) == xs
  {
    if |xs| > 0 {
      KeptOfTrimmed(xs[1..]);
      assert Items(xs)[1..] == Items(xs[1..]);
    }
  }

  // ---------------------------------------------------------------- merging

  /** The server entries `merge_union` appends after the local list, given the
      keys seen so far. */
  function Appended(seen: set<string>, server: seq<string>): seq<string>
    decreases |server|
  {
    if |server| == 0 then []
    else
      var key := Key(server[0]);
      if key != "" && key !in seen then [server[0]] + Appended(seen + {key}, server[1..])
      else Appended(seen, server[1..])
  }

  /** The result of `merge_union(local, server)`. */
  function Merged(local: seq<string>, server: seq<string>): seq<string>
  {
    local + Appended(Keys(local), server)
  }

  /** `merge_union`, with its seen-set and output list. */
  method MergeUnion(local: seq<string>, server: seq<string>) returns (out: seq<string>)
    ensures out == Merged(local, server)
  {
    var seen := set a | a in local :: Key(a);
    out := local;
    var i := 0;
    while i < |server|
      invariant 0 <= i <= |server|
      invariant out + Appended(seen, server[i..]) == Merged(local, server)
    {
      assert server[i..][1..] == server[i + 1..];
      var a := server[i];
      var key := Key(a);
      if key != "" && key !in seen {
        seen := seen + {key};
        out := out + [a];
      }
      i := i + 1;
    }
  }

  /** `a` occurs in `b` in order, possibly with gaps. */
  predicate Subsequence(a: seq<string>, b: seq<string>)
    decreases |b|
  {
    |a| == 0 || (|b| > 0 && (if a[0] == b[0] then Subsequence(a[1..], b[1..]) else Subsequence(a, b[1..])))
  }

  /** What is appended: server entries in server order, each kept verbatim, each
      with a non-empty key not seen before, and no key twice. */
  lemma {:induction false} AppendedShape(seen: set<string>, server: seq<string>)
    ensures Subsequence(Appended(seen, server), server)
    ensures forall a :: a in Appended(seen, server) ==> Key(a) != "" && Key(a) !in seen
    ensures forall i, j :: 0 <= i < j < |Appended(seen, server)| ==>
      Key(Appended(seen, server)[i]) != Key(Appended(seen, server)[j])
    decreases |server|
  {
    if |server| > 0 {
      var key := Key(server[0]);
      if key != "" && key !in seen {
        AppendedShape(seen + {key}, server[1..]);
        var r := Appended(seen, server);
        assert r[1..] == Appended(seen + {key}, server[1..]);
        assert r[0] == server[0];
        forall i, j | 0 <= i < j < |r| ensures Key(r[i]) != Key(r[j]) {
          if i == 0 {
            assert r[j] in Appended(seen + {key}, server[1..]);
          } else {
            assert r[i] == r[1..][i - 1] && r[j] == r[1..][j - 1];
          }
        }
      } else {
        AppendedShape(seen, server[1..]);
        SubsequenceSkip(Appended(seen, server[1..]), server);
      }
    }
  }

  lemma {:induction false} SubsequenceSkip(a: seq<string>, b: seq<string>)
    requires |b| > 0 && Subsequence(a, b[1..])
    ensures Subsequence(a, b)
    decreases |b|, 0
  {
    if |a| > 0 && a[0] == b[0] {
      SubsequenceTail(a, b[1..]);
    }
  }

  lemma {:induction false} SubsequenceTail(a: seq<string>, b: seq<string>)
    requires |a| > 0 && Subsequence(a, b)
    ensures Subsequence(a[1..], b)
    decreases |b|, 1
  {
    if a[0] == b[0] {
      SubsequenceSkip(a[1..], b);
    } else {
      SubsequenceTail(a, b[1..]);
      SubsequenceSkip(a[1..], b);
    }
  }

  /** Every server entry with a non-empty key ends up with its key among the
      seen keys or the appended keys. */
  lemma {:induction false} AppendedCovers(seen: set<string>, server: seq<string>)
    ensures forall s :: s in server && Key(s) != "" ==> Key(s) in seen + Keys(Appended(seen, server))
    decreases |server|
  {
    if |server| > 0 {
      var key := Key(server[0]);
      if key != "" && key !in seen {
        AppendedCovers(seen + {key}, server[1..]);
        assert server[0] in Appended(seen, server);
      } else {
        AppendedCovers(seen, server[1..]);
      }
    }
  }

  /** Nothing is appended when every non-empty server key was already seen. */
  lemma {:induction false} AppendedNothingNew(seen: set<string>, server: seq<string>)
    requires forall s :: s in server && Key(s) != "" ==> Key(s) in seen
    ensures Appended(seen, server) == []
    decreases |server|
  {
    if |server| > 0 {
      AppendedNothingNew(seen, server[1..]);
    }
  }

  /** The non-empty keys of a list. */
  function NonBlankKeys(xs: seq<string>): set<string>
  {
    Keys(xs) - {""}
  }

  /** The merge starts with the local list unchanged, then appends only server
      entries, and its non-empty keys are exactly those of both inputs. */
  lemma MergedContents(local: seq<string>, server: seq<string>)
    ensures Merged(local, server)[..|local|] == local
    ensures Subsequence(Merged(local, server)[|local|..], server)
    ensures NonBlankKeys(Merged(local, server)) == NonBlankKeys(local) + NonBlankKeys(server)
  {
    var m := Merged(local, server);
    var app := Appended(Keys(local), server);
    assert m[|local|..] == app;
    AppendedShape(Keys(local), server);
    AppendedCovers(Keys(local), server);
    forall k | k in NonBlankKeys(m) ensures k in NonBlankKeys(local) + NonBlankKeys(server) {
      var a :| a in m && Key(a) == k;
      if a !in local {
        assert a in app;
        SubsequenceMembers(app, server);
      }
    }
  }

  lemma {:induction false} SubsequenceMembers(a: seq<string>, b: seq<string>)
    requires Subsequence(a, b)
    ensures forall x :: x in a ==> x in b
    decreases |b|
  {
    if |a| > 0 {
      if a[0] == b[0] {
        SubsequenceMembers(a[1..], b[1..]);
        forall x | x in a ensures x in b {
          if x != a[0] {
            assert x in a[1..];
            assert x in b[1..];
          }
        }
      } else {
        SubsequenceMembers(a, b[1..]);
      }
    }
  }

  /** Self-merge and merge with an empty server list are the identity (local
      duplicates and blanks included). */
  lemma MergeIdentity(local: seq<string>)
    ensures Merged(local, local) == local
    ensures Merged(local, []) == local
  {
    AppendedNothingNew(Keys(local), local);
  }

  /** Merging the result again with the same server list changes nothing. */
  lemma MergeIdempotent(local: seq<string>, server: seq<string>)
    ensures Merged(Merged(local, server), server) == Merged(local, server)
  {
    var m := Merged(local, server);
    AppendedCovers(Keys(local), server);
    forall s | s in server && Key(s) != "" ensures Key(s) in Keys(m) {
      if Key(s) in Keys(local) {
        var a :| a in local && Key(a) == Key(s);
        assert a in m;
      } else {
        var a :| a in Appended(Keys(local), server) && Key(a) == Key(s);
        assert a in m;
      }
    }
    AppendedNothingNew(Keys(m), server);
  }

  /** The union is symmetric on non-empty keys, whichever side is local. */
  lemma MergeSymmetricKeys(a: seq<string>, b: seq<string>)
    ensures NonBlankKeys(Merged(a, b)) == NonBlankKeys(Merged(b, a))
  {
    MergedContents(a, b);
    MergedContents(b, a);
  }

  /** A list as parse_favourites returns it: every entry non-empty and trimmed. */
  predicate Trimmed(xs: seq<string>)
  {
    forall k :: 0 <= k < |xs| ==> xs[k] != "" && Strip(xs[k]) == xs[k]
  }

  lemma ParsedTrimmed(path: string, file: Option<Blob>)
    ensures Trimmed(ParsedActions(path, file))
  {
    if path != "" && file.Some? && file.value.Xml? && file.value.doc.rootTag == "favourites" {
      var xs := ActionsOf(file.value.doc.children);
      ActionsOfShape(file.value.doc.children);
      forall k | 0 <= k < |xs| ensures xs[k] != "" && Strip(xs[k]) == xs[k] {
        assert xs[k] in xs;
      }
    }
  }

  /** Merging two parsed lists gives a parsed-shaped list, so writing it and
      reading it back gives the merge unchanged. */
  lemma MergedTrimmed(local: seq<string>, server: seq<string>)
    requires Trimmed(local) && Trimmed(server)
    ensures Trimmed(Merged(local, server))
  {
    var m := Merged(local, server);
    MergedContents(local, server);
    SubsequenceMembers(m[|local|..], server);
    forall k | 0 <= k < |m| ensures m[k] != "" && Strip(m[k]) == m[k] {
      if k < |local| {
        assert m[..|local|][k] == m[k];
      } else {
        assert m[|local|..][k - |local|] == m[k];
        assert m[k] in m[|local|..];
        var j :| 0 <= j < |server| && server[j] == m[k];
      }
    }
  }

  /** What write_favourites leaves for a parsed-shaped list reads back as that list. */
  lemma WrittenReadsBack(path: string, xs: seq<string>)
    requires path != "" && Trimmed(xs)
    ensures ParsedActions(path, Some(Xml(WrittenDoc(Items(xs))))) == xs
  {
    WriteThenParse(path, Items(xs));
    KeptOfTrimmed(xs);
  }
}
