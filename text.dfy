// Character-level models of the Python string operations the add-ons rely on:
// strip/lstrip/rstrip (whitespace and a single character), lower, startswith,
// endswith, substring search, replace, split and join on a separator, int()
// and str() on integers.

module Text {

  datatype Option<T> = None | Some(value: T)

  /** Python's str.isspace: the ASCII blanks, the separators 0x1C-0x1F and the
      Unicode white-space code points. */
  predicate IsSpace(c: char)
  {
    c == ' ' || c == '\t' || c == '\n' || c == '\r' || c == '\U{000B}' || c == '\U{000C}'
    || ('\U{001C}' <= c <= '\U{001F}') || c == '\U{0085}' || c == '\U{00A0}' || c == '\U{1680}'
    || ('\U{2000}' <= c <= '\U{200A}') || c == '\U{2028}' || c == '\U{2029}' || c == '\U{202F}'
    || c == '\U{205F}' || c == '\U{3000}'
  }

  /** s.lstrip() */
  function LStrip(s: string): (r: string)
    ensures |r| <= |s|
  {
    if |s| > 0 && IsSpace(s[0]) then LStrip(s[1..]) else s
  }

  /** lstrip() keeps a suffix that does not start with white space. */
  lemma {:induction false} LStripShape(s: string)
    ensures LStrip(s) == s[|s| - |LStrip(s)|..]
    ensures |LStrip(s)| > 0 ==> !IsSpace(LStrip(s)[0])
    decreases |s|
  {
    if |s| > 0 && IsSpace(s[0]) {
      LStripShape(s[1..]);
    }
  }

  /** s.rstrip() */
  function RStrip(s: string): (r: string)
    ensures |r| <= |s|
  {
    if |s| > 0 && IsSpace(s[|s| - 1]) then RStrip(s[..|s| - 1]) else s
  }

  /** rstrip() keeps a prefix that does not end with white space. */
  lemma {:induction false} RStripShape(s: string)
    ensures RStrip(s) == s[..|RStrip(s)|]
    ensures |RStrip(s)| > 0 ==> !IsSpace(RStrip(s)[|RStrip(s)| - 1])
    ensures forall i :: |RStrip(s)| <= i < |s| ==> IsSpace(s[i])
    decreases |s|
  {
    if |s| > 0 && IsSpace(s[|s| - 1]) {
      RStripShape(s[..|s| - 1]);
    }
  }

  /** s.strip() */
  function Strip(s: string): (r: string)
    ensures |r| <= |s|
  {
    RStrip(LStrip(s))
  }

  /** strip() keeps a contiguous part that neither starts nor ends with white space. */
  lemma StripShape(s: string)
    ensures |Strip(s)| > 0 ==> !IsSpace(Strip(s)[0]) && !IsSpace(Strip(s)[|Strip(s)| - 1])
    ensures Strip(s) == s[|s| - |LStrip(s)|..][..|Strip(s)|]
  {
    LStripShape(s);
    RStripShape(LStrip(s));
  }

  predicate AllSpace(s: string)
  {
    forall i :: 0 <= i < |s| ==> IsSpace(s[i])
  }

  lemma {:induction false} LStripOfTrimmed(s: string)
    requires |s| == 0 || !IsSpace(s[0])
    ensures LStrip(s) == s
  {
  }

  lemma {:induction false} RStripOfTrimmed(s: string)
    requires |s| == 0 || !IsSpace(s[|s| - 1])
    ensures RStrip(s) == s
  {
  }

  /** Stripping twice is stripping once. */
  lemma StripIdempotent(s: string)
    ensures Strip(Strip(s)) == Strip(s)
  {
    var t := Strip(s);
    StripShape(s);
    LStripOfTrimmed(t);
    RStripOfTrimmed(t);
  }

  /** lstrip() removes white space only. */
  lemma {:induction false} LStripDropsSpace(s: string)
    ensures forall i :: 0 <= i < |s| - |LStrip(s)| ==> IsSpace(s[i])
    decreases |s|
  {
    if |s| > 0 && IsSpace(s[0]) {
      LStripDropsSpace(s[1..]);
    }
  }

  /** strip() yields '' exactly for the all-blank strings. */
  lemma {:induction false} StripEmptyIffAllSpace(s: string)
    ensures Strip(s) == "" <==> AllSpace(s)
  {
    var l := LStrip(s);
    if AllSpace(s) {
      LStripAllSpace(s);
    } else {
      var i :| 0 <= i < |s| && !IsSpace(s[i]);
      LStripDropsSpace(s);
      LStripShape(s);
      RStripShape(l);
      assert i >= |s| - |l|;
      assert !IsSpace(l[0]);
      assert |RStrip(l)| > 0;
    }
  }

  lemma {:induction false} LStripAllSpace(s: string)
    requires AllSpace(s)
    ensures LStrip(s) == ""
    decreases |s|
  {
    if |s| > 0 {
      assert IsSpace(s[0]);
      LStripAllSpace(s[1..]);
    }
  }

  /** s.lstrip(c) for a single character c */
  function LStripChar(s: string, c: char): (r: string)
    ensures |r| <= |s| && r == s[|s| - |r|..]
    ensures |r| > 0 ==> r[0] != c
    ensures forall i :: 0 <= i < |s| - |r| ==> s[i] == c
  {
    if |s| > 0 && s[0] == c then LStripChar(s[1..], c) else s
  }

  /** s.rstrip(c) for a single character c */
  function RStripChar(s: string, c: char): (r: string)
    ensures |r| <= |s| && r == s[..|r|]
    ensures |r| > 0 ==> r[|r| - 1] != c
    ensures forall i :: |r| <= i < |s| ==> s[i] == c
  {
    if |s| > 0 && s[|s| - 1] == c then RStripChar(s[..|s| - 1], c) else s
  }

  /** s.strip(c) for a single character c */
  function StripChar(s: string, c: char): (r: string)
    ensures |r| <= |s|
    ensures |r| > 0 ==> r[0] != c && r[|r| - 1] != c
  {
    RStripChar(LStripChar(s, c), c)
  }

  /** Each character of the stripped string is a character of the input. */
  lemma StripCharChars(s: string, c: char)
    ensures forall x :: x in StripChar(s, c) ==> x in s
  {
    var l := LStripChar(s, c);
    assert forall x :: x in l ==> x in s by {
      forall x | x in l ensures x in s {
        var k :| 0 <= k < |l| && l[k] == x;
        assert s[|s| - |l| + k] == x;
      }
    }
  }

  /** The capitals of Latin Extended-A that lower-case to the next code point. */
  predicate ExtendedACapital(v: int)
  {
    ((0x100 <= v <= 0x12F || 0x132 <= v <= 0x137 || 0x14A <= v <= 0x177) && v % 2 == 0)
    || ((0x139 <= v <= 0x148 || 0x179 <= v <= 0x17E) && v % 2 == 1)
  }

  /** str.lower on one character, for the capitals that map to a single
      lower-case letter without context: ASCII, Latin-1, Latin Extended-A and
      the basic Cyrillic alphabet. */
  function LowerChar(c: char): char
  {
    var v := c as int;
    if 'A' <= c <= 'Z' || (0xC0 <= v <= 0xDE && v != 0xD7) || 0x410 <= v <= 0x42F then (v + 32) as char
    else if 0x400 <= v <= 0x40F then (v + 80) as char
    else if v == 0x178 then 0xFF as char
    else if ExtendedACapital(v) then (v + 1) as char
    else c
  }

  lemma LowerCharIdempotent(c: char)
    ensures LowerChar(LowerChar(c)) == LowerChar(c)
  {
  }

  /** s.lower() */
  function Lower(s: string): (r: string)
    ensures |r| == |s|
    ensures forall i :: 0 <= i < |s| ==> r[i] == LowerChar(s[i])
  {
    if |s| == 0 then "" else [LowerChar(s[0])] + Lower(s[1..])
  }

  predicate IsLower(s: string)
  {
    forall i :: 0 <= i < |s| ==> LowerChar(s[i]) == s[i]
  }

  lemma LowerIsLower(s: string)
    ensures IsLower(Lower(s))
  {
    forall i | 0 <= i < |s| ensures LowerChar(Lower(s)[i]) == Lower(s)[i] {
      LowerCharIdempotent(s[i]);
    }
  }

  lemma {:induction false} LowerOfLower(s: string)
    requires IsLower(s)
    ensures Lower(s) == s
  {
    assert forall i :: 0 <= i < |s| ==> Lower(s)[i] == s[i];
  }

  predicate StartsWith(s: string, p: string)
  {
    |p| <= |s| && s[..|p|] == p
  }

  predicate EndsWith(s: string, p: string)
  {
    |p| <= |s| && s[|s| - |p|..] == p
  }

  lemma EndsWithConcat(x: string, y: string)
    ensures EndsWith(x + y, y)
  {
    assert (x + y)[|x + y| - |y|..] == y;
  }

  lemma EndsWithTrans(s: string, t: string, u: string)
    requires EndsWith(s, t) && EndsWith(t, u)
    ensures EndsWith(s, u)
  {
    assert s[|s| - |u|..] == s[|s| - |t|..][|t| - |u|..];
  }

  /** Lowering a string keeps a suffix that has no upper-case letter. */
  lemma LowerKeepsSuffix(s: string, t: string)
    requires EndsWith(s, t) && IsLower(t)
    ensures EndsWith(Lower(s), t)
  {
    var l := Lower(s);
    forall i | 0 <= i < |t| ensures l[|s| - |t|..][i] == t[i] {
      assert s[|s| - |t| + i] == t[i];
    }
  }

  /** The Python test `p in s` on strings. */
  predicate Contains(s: string, p: string)
    decreases |s|
  {
    StartsWith(s, p) || (|s| > 0 && Contains(s[1..], p))
  }

  lemma {:induction false} ContainsAt(s: string, p: string, i: nat)
    requires i + |p| <= |s| && s[i..i + |p|] == p
    ensures Contains(s, p)
    decreases i
  {
    if i > 0 {
      assert s[1..][i - 1..i - 1 + |p|] == p;
      ContainsAt(s[1..], p, i - 1);
    }
  }

  /** A substring of a prefix is a substring of the whole. */
  lemma {:induction false} ContainsInPrefix(s: string, n: nat, p: string)
    requires n <= |s| && Contains(s[..n], p)
    ensures Contains(s, p)
    decreases n
  {
    if StartsWith(s[..n], p) {
      assert s[..|p|] == s[..n][..|p|];
    } else {
      assert s[..n][1..] == s[1..][..n - 1];
      ContainsInPrefix(s[1..], n - 1, p);
    }
  }

  /** A substring of a suffix is a substring of the whole. */
  lemma {:induction false} ContainsInSuffix(s: string, n: nat, p: string)
    requires n <= |s| && Contains(s[n..], p)
    ensures Contains(s, p)
    decreases n
  {
    if n > 0 {
      assert s[n..] == s[1..][n - 1..];
      ContainsInSuffix(s[1..], n - 1, p);
    }
  }

  /** Index of the first occurrence of c in s, or |s|. */
  function IndexOf(s: string, c: char): (i: nat)
    ensures i <= |s|
    ensures i < |s| ==> s[i] == c
    ensures forall k :: 0 <= k < i ==> s[k] != c
  {
    if |s| == 0 then 0 else if s[0] == c then 0 else 1 + IndexOf(s[1..], c)
  }

  /** s.replace(a, b) for single characters */
  function ReplaceChar(s: string, a: char, b: char): (r: string)
    ensures |r| == |s|
    ensures forall i :: 0 <= i < |s| ==> r[i] == (if s[i] == a then b else s[i])
  {
    seq(|s|, i requires 0 <= i < |s| => if s[i] == a then b else s[i])
  }

  /** `p.replace('\\', '/')`: Windows separators folded to '/'. */
  function FoldSlashes(p: string): (r: string)
    ensures |r| == |p| && '\\' !in r
  {
    ReplaceChar(p, '\\', '/')
  }

  /** Folding changes nothing once no backslash is left. */
  lemma FoldSlashesNoop(p: string)
    requires '\\' !in p
    ensures FoldSlashes(p) == p
  {
  }

  /** s.replace(pat, rep): left-to-right, non-overlapping occurrences. */
  function Replace(s: string, pat: string, rep: string): (r: string)
    requires |pat| > 0
    decreases |s|
  {
    if |s| == 0 then ""
    else if StartsWith(s, pat) then rep + Replace(s[|pat|..], pat, rep)
    else [s[0]] + Replace(s[1..], pat, rep)
  }

  /** Replacing across one occurrence placed between two texts free of the
      pattern, when no proper suffix of the pattern begins with its first
      character (so no occurrence can straddle the left edge). */
  lemma {:induction false} ReplaceAcross(first: string, pat: string, rep: string, second: string)
    requires |pat| > 0 && forall k :: 1 <= k < |pat| ==> pat[k] != pat[0]
    requires !Contains(first, pat) && !Contains(second, pat)
    ensures Replace(first + pat + second, pat, rep) == first + rep + second
    decreases |first|
  {
    var s := first + pat + second;
    if |first| == 0 {
      assert s == pat + second && s[|pat|..] == second;
      ReplaceAbsent(second, pat, rep);
    } else {
      NoStraddle(first, pat, second);
      var tail := first[1..];
      assert s[1..] == tail + pat + second;
      ReplaceAcross(tail, pat, rep, second);
      assert [s[0]] + (tail + rep + second) == first + rep + second;
    }
  }

  /** Under the same conditions the joined text does not start with the
      pattern while the first text is non-empty. */
  lemma NoStraddle(first: string, pat: string, second: string)
    requires |pat| > 0 && forall k :: 1 <= k < |pat| ==> pat[k] != pat[0]
    requires !Contains(first, pat) && |first| > 0
    ensures !StartsWith(first + pat + second, pat)
  {
    var s := first + pat + second;
    var n := |pat|;
    if |first| >= n {
      assert s[..n] == first[..n];
    } else {
      assert s[..n][|first|] == pat[0] != pat[|first|];
    }
  }

  /** Replacing a pattern that does not occur changes nothing. */
  lemma {:induction false} ReplaceAbsent(s: string, pat: string, rep: string)
    requires |pat| > 0 && !Contains(s, pat)
    ensures Replace(s, pat, rep) == s
    decreases |s|
  {
    if |s| > 0 {
      ReplaceAbsent(s[1..], pat, rep);
    }
  }

  /** s.split(c) for a single separator character: never empty, pieces free of c. */
  function Split(s: string, c: char): (r: seq<string>)
    ensures |r| >= 1
    ensures forall k :: 0 <= k < |r| ==> c !in r[k]
    decreases |s|
  {
    var i := IndexOf(s, c);
    if i == |s| then [s] else [s[..i]] + Split(s[i + 1..], c)
  }

  /** sep.join(parts) */
  function Join(parts: seq<string>, sep: string): string
  {
    if |parts| == 0 then ""
    else if |parts| == 1 then parts[0]
    else parts[0] + sep + Join(parts[1..], sep)
  }

  /** Joining one more part adds the separator and the part. */
  lemma {:induction false} JoinSnoc(parts: seq<string>, last: string, sep: string)
    requires |parts| >= 1
    ensures Join(parts + [last], sep) == Join(parts, sep) + sep + last
    decreases |parts|
  {
    if |parts| == 1 {
      assert (parts + [last])[1..] == [last];
    } else {
      assert (parts + [last])[1..] == parts[1..] + [last];
      JoinSnoc(parts[1..], last, sep);
    }
  }

  /** Joining the pieces of a split with the separator gives back the string. */
  lemma {:induction false} JoinSplit(s: string, c: char)
    ensures Join(Split(s, c), [c]) == s
    decreases |s|
  {
    var i := IndexOf(s, c);
    if i < |s| {
      JoinSplit(s[i + 1..], c);
      JoinSplitStep(s, c, i);
    }
  }

  /** One step of JoinSplit: the first piece, the separator, then the rest. */
  lemma JoinSplitStep(s: string, c: char, i: nat)
    requires i == IndexOf(s, c) < |s|
    requires Join(Split(s[i + 1..], c), [c]) == s[i + 1..]
    ensures Join(Split(s, c), [c]) == s
  {
    var rest := Split(s[i + 1..], c);
    calc {
      Join(Split(s, c), [c]);
      { assert Split(s, c) == [s[..i]] + rest; }
      Join([s[..i]] + rest, [c]);
      { JoinCons(s[..i], rest, [c]); }
      s[..i] + [c] + s[i + 1..];
      { assert s == s[..i] + [c] + s[i + 1..]; }
      s;
    }
  }

  /** Joining a part in front of at least one more. */
  lemma JoinCons(head: string, rest: seq<string>, sep: string)
    requires |rest| >= 1
    ensures Join([head] + rest, sep) == head + sep + Join(rest, sep)
  {
    assert ([head] + rest)[1..] == rest;
  }

  /** Splitting a join of separator-free parts gives back the parts. */
  lemma {:induction false} SplitJoin(parts: seq<string>, c: char)
    requires |parts| >= 1
    requires forall k :: 0 <= k < |parts| ==> c !in parts[k]
    ensures Split(Join(parts, [c]), c) == parts
    decreases |parts|
  {
    if |parts| > 1 {
      var s := Join(parts, [c]);
      assert s == parts[0] + ([c] + Join(parts[1..], [c])) by {
        assert parts == [parts[0]] + parts[1..];
        JoinCons(parts[0], parts[1..], [c]);
      }
      assert IndexOf(s, c) == |parts[0]| by {
        IndexOfPrefix(parts[0], c, [c] + Join(parts[1..], [c]));
      }
      assert s[..|parts[0]|] == parts[0];
      assert s[|parts[0]| + 1..] == Join(parts[1..], [c]);
      SplitJoin(parts[1..], c);
    } else {
      assert IndexOf(parts[0], c) == |parts[0]|;
    }
  }

  lemma {:induction false} IndexOfPrefix(a: string, c: char, b: string)
    requires c !in a && |b| > 0 && b[0] == c
    ensures IndexOf(a + b, c) == |a|
    decreases |a|
  {
    if |a| > 0 {
      assert (a + b)[1..] == a[1..] + b;
      IndexOfPrefix(a[1..], c, b);
    } else {
      assert a + b == b;
    }
  }

  /** The non-empty pieces of s.split(c), in order: `[x for x in s.split(c) if x]`. */
  function NonEmpty(parts: seq<string>): (r: seq<string>)
    ensures forall k :: 0 <= k < |r| ==> r[k] != "" && r[k] in parts
    ensures |r| <= |parts|
  {
    if |parts| == 0 then []
    else if parts[0] == "" then NonEmpty(parts[1..])
    else [parts[0]] + NonEmpty(parts[1..])
  }

  /** The segments of a slash-separated path, empty segments dropped. */
  function Segments(p: string): (r: seq<string>)
    ensures forall k :: 0 <= k < |r| ==> r[k] != "" && '/' !in r[k]
  {
    NonEmpty(Split(p, '/'))
  }

  /** `[x for x in xs if keep(x)]`, defined from the last element so that a loop
      over a growing prefix extends it by one step. */
  function Filter<T>(xs: seq<T>, keep: T -> bool): (r: seq<T>)
    ensures |r| <= |xs|
    decreases |xs|
  {
    if |xs| == 0 then []
    else Filter(xs[..|xs| - 1], keep) + (if keep(xs[|xs| - 1]) then [xs[|xs| - 1]] else [])
  }

  /** A filtered element is an element that passes. */
  lemma {:induction false} FilterMembers<T>(xs: seq<T>, keep: T -> bool)
    ensures forall x :: x in Filter(xs, keep) <==> x in xs && keep(x)
    decreases |xs|
  {
    if |xs| > 0 {
      var init := xs[..|xs| - 1];
      FilterMembers(init, keep);
      assert xs == init + [xs[|xs| - 1]];
    }
  }

  /** Filtering distributes over concatenation. */
  lemma {:induction false} FilterConcat<T>(a: seq<T>, b: seq<T>, keep: T -> bool)
    ensures Filter(a + b, keep) == Filter(a, keep) + Filter(b, keep)
    decreases |b|
  {
    if |b| == 0 {
      assert a + b == a;
    } else {
      var init := b[..|b| - 1];
      assert (a + b)[..|a + b| - 1] == a + init;
      FilterConcat(a, init, keep);
    }
  }

  function DigitChar(d: nat): char
    requires d < 10
  {
    ('0' as int + d) as char
  }

  predicate IsDigit(c: char)
  {
    '0' <= c <= '9'
  }

  predicate AllDigits(s: string)
  {
    forall i :: 0 <= i < |s| ==> IsDigit(s[i])
  }

  /** str(n) for a natural number */
  function NatToString(n: nat): (r: string)
    ensures |r| >= 1 && AllDigits(r)
    ensures |r| > 1 ==> r[0] != '0'
  {
    if n < 10 then [DigitChar(n)] else NatToString(n / 10) + [DigitChar(n % 10)]
  }

  /** str(i) for an integer */
  function IntToString(i: int): (r: string)
    ensures |r| >= 1
  {
    if i < 0 then "-" + NatToString(-i) else NatToString(i)
  }

  /** The value of a string of decimal digits. */
  function DigitsValue(s: string): nat
    requires AllDigits(s)
  {
    if |s| == 0 then 0 else DigitsValue(s[..|s| - 1]) * 10 + (s[|s| - 1] as int - '0' as int)
  }

  lemma {:induction false} DigitsValueOfNatToString(n: nat)
    ensures DigitsValue(NatToString(n)) == n
  {
    if n >= 10 {
      var r := NatToString(n);
      assert r[..|r| - 1] == NatToString(n / 10);
      DigitsValueOfNatToString(n / 10);
    }
  }

  /** int(s): surrounding white space, an optional sign, then at least one
      decimal digit; anything else raises ValueError, modelled as None. */
  function ParseInt(s: string): Option<int>
  {
    var t := Strip(s);
    var sign := if |t| > 0 && (t[0] == '-' || t[0] == '+') then t[0] else ' ';
    var body := if sign == ' ' then t else t[1..];
    if |body| > 0 && AllDigits(body) then
      var v: int := DigitsValue(body);
      Some(if sign == '-' then -v else v)
    else None
  }

  /** int(str(i)) == i */
  lemma ParseIntOfIntToString(i: int)
    ensures ParseInt(IntToString(i)) == Some(i)
  {
    var s := IntToString(i);
    var n: nat := if i < 0 then -i else i;
    var d := NatToString(n);
    DigitsValueOfNatToString(n);
    assert !IsSpace(s[0]) && !IsSpace(s[|s| - 1]);
    LStripOfTrimmed(s);
    RStripOfTrimmed(s);
    assert Strip(s) == s;
    if i < 0 {
      assert s[1..] == d;
    } else {
      assert s == d;
    }
  }

  /** The ASCII hexadecimal digit for a nibble, upper case as Python's quote writes it. */
  function HexDigit(d: nat): char
    requires d < 16
  {
    if d < 10 then DigitChar(d) else ('A' as int + d - 10) as char
  }
}
