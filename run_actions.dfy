// The pure parts of resources/lib/run_actions.py: which connection a test
// addresses, whether a favourites sync succeeded and which title, message and
// notification text the dialog then shows. The dialogs, the progress bar and
// the delays around them are host calls and not part of this model.

module RunActions {
  import opened Text
  import opened SyncMessages

  /** The add-on's string for a message id ('' for an id it does not have). */
  function L(catalog: map<int, string>, id: int): string
  {
    if id in catalog then catalog[id] else ""
  }

  // ------------------------------------------------------------ connection

  /** Which connection `run_test_connection` tests. */
  datatype ConnectionTest = TestCurrent | TestNumbered(n: int)

  /** `int(connection) if connection in ('1', '2', '3') else None`: the
      numbered test for the three configured slots, the current connection
      for anything else (an absent parameter included). */
  function ConnectionTestOf(connection: Option<string>): (r: ConnectionTest)
    ensures r.TestNumbered? <==> connection.Some? && connection.value in {"1", "2", "3"}
    ensures r.TestNumbered? ==> 1 <= r.n <= 3 && ParseInt(connection.value) == Some(r.n)
  {
    if connection == Some("1") then TestNumbered(1)
    else if connection == Some("2") then TestNumbered(2)
    else if connection == Some("3") then TestNumbered(3)
    else TestCurrent
  }

  /** The slot number written out selects exactly that slot. */
  lemma ConnectionTestOfNumber(n: int)
    requires 1 <= n <= 3
    ensures ConnectionTestOf(Some(IntToString(n))) == TestNumbered(n)
  {
    assert IntToString(n) == [DigitChar(n)];
  }

  // ------------------------------------------------------------ notification text

  /** `s[:200]` */
  function Truncate(s: string, n: nat): (r: string)
    ensures |r| <= n && StartsWith(s, r)
    ensures |s| <= n ==> r == s
  {
    if |s| <= n then s else s[..n]
  }

  /** The notification line of a finished sync: "[CR]" line breaks, newlines
      and commas (the builtin's argument separator) become spaces, the text is
      stripped and cut to 200 characters. */
  function FlatMessage(msg: string): (r: string)
    ensures |r| <= 200
  {
    Truncate(Strip(ReplaceChar(ReplaceChar(Replace(msg, "[CR]", " "), '\n', ' '), ',', ' ')), 200)
  }

  /** The flattened text has no line break, no comma and no "[CR]" markup left. */
  lemma FlatMessageClean(msg: string)
    ensures '\n' !in FlatMessage(msg) && ',' !in FlatMessage(msg)
    ensures !Contains(FlatMessage(msg), "[CR]")
  {
    var a := Replace(msg, "[CR]", " ");
    var b := ReplaceChar(a, '\n', ' ');
    var c := ReplaceChar(b, ',', ' ');
    ReplaceRemoves(msg);
    ReplaceCharKeepsOut(a, '\n');
    ReplaceCharKeepsOut(b, ',');
    assert '\n' !in c && ',' !in c && !Contains(c, "[CR]");
    StripShape(c);
    var off := |c| - |LStrip(c)|;
    var s := Strip(c);
    assert s == c[off..][..|s|];
    NotContainedInSlice(c, off, |s|, "[CR]");
    var r := FlatMessage(msg);
    assert r == s[..|r|];
    NotContainedInSlice(s, 0, |r|, "[CR]");
    assert s[0..][..|r|] == r;
    forall i | 0 <= i < |r| ensures r[i] != '\n' && r[i] != ',' {
      assert r[i] == c[off + i];
    }
  }

  /** Text that is already one short, comma-free line is only stripped. */
  lemma FlatMessageOfPlain(msg: string)
    requires !Contains(msg, "[CR]") && '\n' !in msg && ',' !in msg && |Strip(msg)| <= 200
    ensures FlatMessage(msg) == Strip(msg)
  {
    ReplaceAbsent(msg, "[CR]", " ");
    assert ReplaceChar(msg, '\n', ' ') == msg;
    assert ReplaceChar(msg, ',', ' ') == msg;
  }

  /** A "[CR]" break becomes one space. */
  lemma FlatMessageOfBreak(first: string, second: string)
    requires !Contains(first, "[CR]") && '\n' !in first && ',' !in first
    requires !Contains(second, "[CR]") && '\n' !in second && ',' !in second
    requires |Strip(first + " " + second)| <= 200
    ensures FlatMessage(first + "[CR]" + second) == Strip(first + " " + second)
  {
    ReplaceOfBreak(first, second);
    var t := first + " " + second;
    assert ReplaceChar(t, '\n', ' ') == t;
    assert ReplaceChar(t, ',', ' ') == t;
  }

  /** Replacing across a break: no occurrence can straddle its left edge,
      since no proper suffix of "[CR]" begins with '['. */
  lemma ReplaceOfBreak(first: string, second: string)
    requires !Contains(first, "[CR]") && !Contains(second, "[CR]")
    ensures Replace(first + "[CR]" + second, "[CR]", " ") == first + " " + second
  {
    var cr := "[CR]";
    assert forall k :: 1 <= k < |cr| ==> cr[k] != cr[0];
    ReplaceAcross(first, cr, " ", second);
  }

  /** The first character of a replacement. */
  lemma ReplaceHead(x: string)
    requires |x| > 0
    ensures |Replace(x, "[CR]", " ")| > 0
    ensures Replace(x, "[CR]", " ")[0] == if StartsWith(x, "[CR]") then ' ' else x[0]
  {
  }

  /** A character copied in front of the replaced rest starts the pattern
      only when the original text did. */
  lemma CopiedHead(s: string)
    requires |s| > 0
    ensures StartsWith([s[0]] + Replace(s[1..], "[CR]", " "), "[CR]") ==> StartsWith(s, "[CR]")
  {
    var t := [s[0]] + Replace(s[1..], "[CR]", " ");
    if StartsWith(t, "[CR]") {
      var y := Replace(s[1..], "[CR]", " ");
      assert t[1..] == y && t[1] == 'C' && t[2] == 'R' && t[3] == ']';
      ReplaceHead(s[1..]);
      assert s[1] == 'C' && !StartsWith(s[1..], "[CR]");
      assert y == [s[1]] + Replace(s[2..], "[CR]", " ");
      ReplaceHead(s[2..]);
      assert s[2] == 'R' && !StartsWith(s[2..], "[CR]");
      assert y[1..] == [s[2]] + Replace(s[3..], "[CR]", " ");
      ReplaceHead(s[3..]);
      assert s[3] == ']';
      assert s[..4] == "[CR]";
    }
  }

  /** After replacing "[CR]" by a space none is left. */
  lemma {:induction false} ReplaceRemoves(s: string)
    ensures !Contains(Replace(s, "[CR]", " "), "[CR]")
    decreases |s|
  {
    if |s| > 0 {
      if StartsWith(s, "[CR]") {
        ReplaceRemoves(s[4..]);
        var y := Replace(s[4..], "[CR]", " ");
        assert (" " + y)[1..] == y;
      } else {
        ReplaceRemoves(s[1..]);
        var y := Replace(s[1..], "[CR]", " ");
        assert ([s[0]] + y)[1..] == y;
        CopiedHead(s);
      }
    }
  }

  /** Turning a character into a space cannot create "[CR]". */
  lemma ReplaceCharKeepsOut(s: string, a: char)
    requires !Contains(s, "[CR]")
    ensures !Contains(ReplaceChar(s, a, ' '), "[CR]")
  {
    var t := ReplaceChar(s, a, ' ');
    if Contains(t, "[CR]") {
      var i := ContainsIndex(t, "[CR]");
      assert s[i..i + 4] == "[CR]" by {
        forall k | 0 <= k < 4 ensures s[i + k] == "[CR]"[k] {
          assert t[i + k] == "[CR]"[k];
        }
      }
      ContainsAt(s, "[CR]", i);
    }
  }

  /** Where a contained pattern starts. */
  lemma {:induction false} ContainsIndex(s: string, p: string) returns (i: nat)
    requires Contains(s, p)
    ensures i + |p| <= |s| && s[i..i + |p|] == p
    decreases |s|
  {
    if StartsWith(s, p) {
      i := 0;
    } else {
      var j := ContainsIndex(s[1..], p);
      assert s[1..][j..j + |p|] == s[j + 1..j + 1 + |p|];
      i := j + 1;
    }
  }

  /** A slice of a text free of the pattern is free of it. */
  lemma NotContainedInSlice(s: string, from: nat, n: nat, p: string)
    requires from <= |s| && n <= |s| - from && !Contains(s, p)
    ensures !Contains(s[from..][..n], p)
  {
    if Contains(s[from..][..n], p) {
      ContainsInPrefix(s[from..], n, p);
      ContainsInSuffix(s, from, p);
    }
  }

  /** The notification after a failed sync: commas become spaces, cut to 200
      characters (run_actions.py line 127). */
  function ErrorNotice(err: string): (r: string)
    ensures |r| <= 200 && ',' !in r
  {
    Truncate(ReplaceChar(err, ',', ' '), 200)
  }

  /** The outer handler cuts first and replaces afterwards (line 138); the
      two orders give the same text. */
  lemma ErrorNoticeOrders(err: string)
    ensures ReplaceChar(Truncate(err, 200), ',', ' ') == ErrorNotice(err)
  {
  }

  // ------------------------------------------------------------ sync outcome

  /** `result and isinstance(result, (tuple, list)) and len(result) >= 1 and result[0]` */
  predicate SyncSucceeded(result: PyResult)
  {
    result.Sequence? && |result.items| >= 1 && Truthy(result.items[0])
  }

  /** What the user sees after a favourites sync: the dialog's title and
      text, and the notification line shown before it. */
  datatype SyncDialog = SyncDialog(title: string, text: string, notice: string)

  /** `run_sync_favourites` once the sync has returned: the formatted message,
      or string 30146 where it is blank or missing; title 30202 on success and
      the add-on's name otherwise. An exception escaping the formatting ends in
      the error dialog, titled with the add-on's name, whose text is the
      exception's. */
  function SyncFavouritesDialog(result: PyResult, catalog: map<int, string>, addonName: string, error: string): (r: SyncDialog)
    ensures FormatSyncResult(result, catalog).Raised? ==> r == SyncDialog(addonName, error, ErrorNotice(error))
    ensures !FormatSyncResult(result, catalog).Raised? ==>
      && r.title == (if SyncSucceeded(result) then L(catalog, 30202) else addonName)
      && (Strip(r.text) != "" || r.text == L(catalog, 30146))
      && r.notice == FlatMessage(r.text)
  {
    match FormatSyncResult(result, catalog)
    case Raised => SyncDialog(addonName, error, ErrorNotice(error))
    case NoMessage =>
      var title := if SyncSucceeded(result) then L(catalog, 30202) else addonName;
      SyncDialog(title, L(catalog, 30146), FlatMessage(L(catalog, 30146)))
    case Message(m) =>
      var title := if SyncSucceeded(result) then L(catalog, 30202) else addonName;
      var text := if Strip(m) == "" then L(catalog, 30146) else m;
      SyncDialog(title, text, FlatMessage(text))
  }

  /** A sync that reports success with a message shows that message under
      the sync title. */
  lemma SuccessfulSyncDialog(msgId: int, catalog: map<int, string>, addonName: string, error: string)
    requires msgId in catalog && Strip(catalog[msgId]) != ""
    ensures SyncFavouritesDialog(Sequence([PyBool(true), PyInt(msgId)]), catalog, addonName, error)
         == SyncDialog(L(catalog, 30202), catalog[msgId], FlatMessage(catalog[msgId]))
  {
  }

  /** A failed or unrecognised return is titled with the add-on's name and,
      without a message, shows the generic string. */
  lemma FailedSyncDialog(result: PyResult, catalog: map<int, string>, addonName: string, error: string)
    requires !SyncSucceeded(result) && (result.NotASequence? || |result.items| < 2)
    ensures SyncFavouritesDialog(result, catalog, addonName, error).title == addonName
    ensures SyncFavouritesDialog(result, catalog, addonName, error).text == L(catalog, 30146)
  {
  }

  /** A message id that is no integer escapes the formatting, and the error
      dialog reports it. */
  lemma NonIntegerMessageId(ok: bool, id: string, catalog: map<int, string>, addonName: string, error: string)
    ensures SyncFavouritesDialog(Sequence([PyBool(ok), PyStr(id)]), catalog, addonName, error).title == addonName
    ensures SyncFavouritesDialog(Sequence([PyBool(ok), PyStr(id)]), catalog, addonName, error).text == error
  {
  }
}
