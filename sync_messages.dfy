// The text shown for what `sync_favourites` returns. addon.py and
// resources/lib/run_actions.py each carry the same `_format_sync_result`:
// the second element is a message id, and a dictionary in third place fills
// the message's named fields through str.format.

module SyncMessages {
  import opened Text

  /** The Python values a sync result can hold. */
  datatype PyValue = PyNone | PyBool(b: bool) | PyInt(i: int) | PyStr(s: string) | PyDict(d: map<string, string>)

  /** The value returned: a tuple or list of values, or anything else. */
  datatype PyResult = NotASequence | Sequence(items: seq<PyValue>)

  /** Python truth of a value. */
  predicate Truthy(v: PyValue)
  {
    match v
    case PyNone => false
    case PyBool(b) => b
    case PyInt(i) => i != 0
    case PyStr(s) => s != ""
    case PyDict(d) => |d| > 0
  }

  /** `L(msg_id)`: the add-on's string for an integer id ('' for an id it
      does not have; a bool counts as 0 or 1); None where the argument is no
      integer and the call raises TypeError. */
  function Localized(catalog: map<int, string>, v: PyValue): (r: Option<string>)
    ensures r.Some? <==> v.PyInt? || v.PyBool?
  {
    match v
    case PyInt(i) => Some(if i in catalog then catalog[i] else "")
    case PyBool(b) => var i := if b then 1 else 0; Some(if i in catalog then catalog[i] else "")
    case _ => None
  }

  /** How `template.format(**args)` ends: with the text, with KeyError for a
      name the dictionary lacks, or with another error (ValueError for a
      lone brace, IndexError for a positional field, an attribute or index
      lookup on the value). */
  datatype FormatResult = Formatted(text: string) | MissingKey | BadFormat

  function Prepend(p: string, r: FormatResult): (q: FormatResult)
    ensures q.Formatted? <==> r.Formatted?
  {
    if r.Formatted? then Formatted(p + r.text) else r
  }

  /** The field's name: the text before a conversion ('!') or a format
      specification (':'). */
  function FieldName(field: string): (name: string)
    ensures |name| <= |field| && name == field[..|name|]
    ensures ':' !in name && '!' !in name
  {
    if |field| == 0 || field[0] == ':' || field[0] == '!' then ""
    else [field[0]] + FieldName(field[1..])
  }

  /** A name str.format looks up in the keyword arguments. */
  predicate KeywordName(name: string)
  {
    name != "" && !IsDigit(name[0]) && '.' !in name && '[' !in name && '{' !in name
  }

  /** str.format with keyword arguments only, left to right; the first
      error met ends it. */
  function PyFormat(t: string, args: map<string, string>): (r: FormatResult)
    decreases |t|
  {
    if |t| == 0 then Formatted("")
    else if t[0] == '{' then
      if |t| >= 2 && t[1] == '{' then Prepend("{", PyFormat(t[2..], args))
      else
        var j := IndexOf(t[1..], '}');
        if j == |t| - 1 then BadFormat
        else
          var name := FieldName(t[1..1 + j]);
          if !KeywordName(name) then BadFormat
          else if name !in args then MissingKey
          else Prepend(args[name], PyFormat(t[j + 2..], args))
    else if t[0] == '}' then
      if |t| >= 2 && t[1] == '}' then Prepend("}", PyFormat(t[2..], args)) else BadFormat
    else Prepend([t[0]], PyFormat(t[1..], args))
  }

  /** A template without braces comes back unchanged. */
  lemma {:induction false} FormatPlain(t: string, args: map<string, string>)
    requires '{' !in t && '}' !in t
    ensures PyFormat(t, args) == Formatted(t)
    decreases |t|
  {
    if |t| > 0 {
      FormatPlain(t[1..], args);
      assert [t[0]] + t[1..] == t;
    }
  }

  /** A named field is replaced by its value. */
  lemma FormatField(before: string, name: string, after: string, args: map<string, string>)
    requires '{' !in before && '}' !in before && '{' !in after && '}' !in after
    requires KeywordName(name) && '}' !in name && ':' !in name && '!' !in name && name in args
    ensures PyFormat(before + "{" + name + "}" + after, args) == Formatted(before + args[name] + after)
  {
    var field := "{" + name + "}" + after;
    FieldFormat(name, after, args);
    PlainPrefix(before, field, args);
    FieldRegroup(before, name, after, args[name]);
  }

  lemma FieldRegroup(before: string, name: string, after: string, value: string)
    ensures before + "{" + name + "}" + after == before + ("{" + name + "}" + after)
    ensures before + value + after == before + (value + after)
  {
  }

  lemma FieldFormat(name: string, after: string, args: map<string, string>)
    requires '{' !in after && '}' !in after
    requires KeywordName(name) && '}' !in name && ':' !in name && '!' !in name && name in args
    ensures PyFormat("{" + name + "}" + after, args) == Formatted(args[name] + after)
  {
    var t := "{" + name + "}" + after;
    assert t[1..1 + |name|] == name && t[1 + |name|] == '}' && t[|name| + 2..] == after;
    FieldAt(t, name, args);
    FormatPlain(after, args);
  }

  /** One step of PyFormat over a field `{name}` at the front. */
  lemma FieldAt(t: string, name: string, args: map<string, string>)
    requires |t| >= |name| + 2 && t[0] == '{' && t[1..1 + |name|] == name && t[1 + |name|] == '}'
    requires KeywordName(name) && '}' !in name && ':' !in name && '!' !in name
    ensures PyFormat(t, args) == if name in args then Prepend(args[name], PyFormat(t[|name| + 2..], args)) else MissingKey
  {
    assert t[1] == name[0];
    assert t[1..] == name + t[1 + |name|..];
    IndexOfPrefix(name, '}', t[1 + |name|..]);
    FieldNameWhole(name);
  }

  lemma {:induction false} FieldNameWhole(name: string)
    requires ':' !in name && '!' !in name
    ensures FieldName(name) == name
  {
    if |name| > 0 {
      FieldNameWhole(name[1..]);
      assert [name[0]] + name[1..] == name;
    }
  }

  /** Brace-free text in front passes through. */
  lemma {:induction false} PlainPrefix(before: string, rest: string, args: map<string, string>)
    requires '{' !in before && '}' !in before
    ensures PyFormat(before + rest, args) == Prepend(before, PyFormat(rest, args))
    decreases |before|
  {
    if |before| > 0 {
      PlainPrefix(before[1..], rest, args);
      var t := before + rest;
      assert t[0] == before[0] && t[1..] == before[1..] + rest;
      assert PyFormat(t, args) == Prepend([before[0]], PyFormat(before[1..] + rest, args));
      var r := PyFormat(rest, args);
      if r.Formatted? {
        assert [before[0]] + (before[1..] + r.text) == before + r.text;
      }
    } else {
      assert before + rest == rest;
      var r := PyFormat(rest, args);
      if r.Formatted? {
        assert before + r.text == r.text;
      }
    }
  }

  /** A field whose name the dictionary lacks raises KeyError. */
  lemma MissingFieldKeyError(name: string, after: string, args: map<string, string>)
    requires KeywordName(name) && '}' !in name && ':' !in name && '!' !in name && name !in args
    ensures PyFormat("{" + name + "}" + after, args) == MissingKey
  {
    var t := "{" + name + "}" + after;
    assert t[1..1 + |name|] == name && t[1 + |name|] == '}';
    FieldAt(t, name, args);
  }

  /** What `_format_sync_result` gives: no message, a message, or an
      exception that escapes it. */
  datatype Formatted = NoMessage | Message(text: string) | Raised

  /** `_format_sync_result(result)`. */
  function FormatSyncResult(result: PyResult, catalog: map<int, string>): (r: Formatted)
    ensures r.NoMessage? <==> result.NotASequence? || |result.items| < 2
  {
    if result.NotASequence? || |result.items| < 2 then NoMessage
    else
      var msgId := result.items[1];
      var args := if |result.items| == 3 && result.items[2].PyDict? then result.items[2].d else map[];
      match Localized(catalog, msgId)
      case None => Raised
      case Some(template) =>
        if |args| == 0 then Message(template)
        else
          match PyFormat(template, args)
          case Formatted(text) => Message(text)
          case MissingKey => Message(template)
          case BadFormat => Raised
  }

  /** The arguments are used only for exactly three elements with a
      dictionary last; otherwise the message is the plain string. */
  lemma ArgumentsOnlyFromTriple(result: PyResult, catalog: map<int, string>)
    requires result.Sequence? && |result.items| >= 2 && result.items[1].PyInt?
    requires |result.items| != 3 || !result.items[2].PyDict?
    ensures FormatSyncResult(result, catalog) == Message(Localized(catalog, result.items[1]).value)
  {
  }

  /** A missing name falls back to the unformatted string. */
  lemma KeyErrorFallsBack(ok: bool, msgId: int, args: map<string, string>, catalog: map<int, string>)
    requires |args| > 0 && PyFormat(Localized(catalog, PyInt(msgId)).value, args) == MissingKey
    ensures FormatSyncResult(Sequence([PyBool(ok), PyInt(msgId), PyDict(args)]), catalog)
         == Message(Localized(catalog, PyInt(msgId)).value)
  {
  }

  /** A backup-path message fills in its path. */
  lemma PathMessage(ok: bool, msgId: int, before: string, after: string, path: string, catalog: map<int, string>)
    requires msgId in catalog && catalog[msgId] == before + "{path}" + after
    requires '{' !in before && '}' !in before && '{' !in after && '}' !in after
    ensures FormatSyncResult(Sequence([PyBool(ok), PyInt(msgId), PyDict(map["path" := path])]), catalog)
         == Message(before + path + after)
  {
    assert KeywordName("path");
    assert before + "{path}" + after == before + "{" + "path" + "}" + after;
    FormatField(before, "path", after, map["path" := path]);
  }
}
