// An add-on's settings as the code reads them: string and boolean values by
// key.  `safe_get_string` and `safe_get_bool` (resources/lib/common.py) fall
// back to a default; the older add-on calls getSettingString directly, which
// gives '' for a key that was never set.

module KodiSettings {
  import opened Text

  /** The stored settings of one add-on. */
  datatype Store = Store(strings: map<string, string>, bools: map<string, bool>)

  /** `ADDON.getSettingString(key)`: the stored text, '' when unset. */
  function Raw(s: Store, key: string): (r: string)
    ensures key !in s.strings ==> r == ""
  {
    if key in s.strings then s.strings[key] else ""
  }

  /** `safe_get_string(key, default)`: the stored text, or the default when
      that text is empty. */
  function GetString(s: Store, key: string, default: string): (r: string)
    ensures r == "" ==> default == ""
    ensures Raw(s, key) != "" ==> r == Raw(s, key)
  {
    if Raw(s, key) != "" then Raw(s, key) else default
  }

  /** `safe_get_bool(key, default)`: the stored flag, or the default when the
      setting cannot be read as a boolean. */
  function GetBool(s: Store, key: string, default: bool): (r: bool)
    ensures key in s.bools ==> r == s.bools[key]
  {
    if key in s.bools then s.bools[key] else default
  }

  /** `int(text or fallback)` where a ValueError is caught and answered with
      the fallback. */
  function IntOr(text: string, fallback: int): (r: int)
    ensures ParseInt(text).Some? && text != "" ==> r == ParseInt(text).value
    ensures ParseInt(text).None? ==> r == fallback
  {
    var t := if text == "" then IntToString(fallback) else text;
    ParseIntOfIntToString(fallback);
    match ParseInt(t)
    case Some(v) => v
    case None => fallback
  }

  /** `[f.strip() for f in raw.split(',') if f.strip()]`, the comma-separated
      list settings of both add-ons. */
  function CommaList(raw: string): (r: seq<string>)
  {
    TrimmedNonBlank(Split(raw, ','))
  }

  /** The stripped, non-blank parts, in order. */
  function TrimmedNonBlank(parts: seq<string>): (r: seq<string>)
  {
    if |parts| == 0 then []
    else (if Strip(parts[0]) != "" then [Strip(parts[0])] else []) + TrimmedNonBlank(parts[1..])
  }

  /** A list entry as the setting can hold it: non-empty, no surrounding
      blanks and no comma. */
  predicate ListEntry(x: string)
  {
    x != "" && Strip(x) == x && ',' !in x
  }

  /** Every entry of the list is a ListEntry, and each is the stripped text of
      one comma-separated piece of the setting. */
  lemma {:induction false} TrimmedNonBlankEntries(parts: seq<string>)
    requires forall k :: 0 <= k < |parts| ==> ',' !in parts[k]
    ensures forall k :: 0 <= k < |TrimmedNonBlank(parts)| ==> ListEntry(TrimmedNonBlank(parts)[k])
    decreases |parts|
  {
    if |parts| > 0 {
      TrimmedNonBlankEntries(parts[1..]);
      if Strip(parts[0]) != "" {
        StripIdempotent(parts[0]);
        StripShape(parts[0]);
      }
    }
  }

  lemma CommaListEntries(raw: string)
    ensures forall k :: 0 <= k < |CommaList(raw)| ==> ListEntry(CommaList(raw)[k])
  {
    TrimmedNonBlankEntries(Split(raw, ','));
  }

  lemma {:induction false} TrimmedNonBlankOfEntries(xs: seq<string>)
    requires forall k :: 0 <= k < |xs| ==> ListEntry(xs[k])
    ensures TrimmedNonBlank(xs) == xs
    decreases |xs|
  {
    if |xs| > 0 {
      TrimmedNonBlankOfEntries(xs[1..]);
    }
  }

  /** A list of entries written to the setting comma-separated reads back as
      the same list. */
  lemma CommaListOfJoin(xs: seq<string>)
    requires |xs| >= 1 && forall k :: 0 <= k < |xs| ==> ListEntry(xs[k])
    ensures CommaList(Join(xs, ",")) == xs
  {
    SplitJoin(xs, ',');
    TrimmedNonBlankOfEntries(xs);
  }

  /** An empty or all-blank setting is the empty list. */
  lemma CommaListOfBlank(raw: string)
    requires AllSpace(raw)
    ensures CommaList(raw) == []
  {
    assert Split(raw, ',') == [raw];
    StripEmptyIffAllSpace(raw);
    assert Strip(raw) == "";
    assert [raw][1..] == [];
    assert TrimmedNonBlank([raw]) == [] + TrimmedNonBlank([]);
  }
}
