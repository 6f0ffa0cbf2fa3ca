// Percent-encoding as Python's urllib.parse.quote(s, safe='') performs it: the
// string is encoded to UTF-8 (RFC 3629, section 3) and every byte outside the
// unreserved set of RFC 3986, section 2.3, is written as '%' and two upper-case
// hexadecimal digits (section 2.1).  Decoding is unquote_to_bytes followed by
// a UTF-8 decode with errors='replace'.

module Percent {
  import opened Text

  newtype Byte = b: int | 0 <= b < 256

  /** The characters quote() never escapes: letters, digits and `_.-~`. */
  predicate Unreserved(c: char)
  {
    'A' <= c <= 'Z' || 'a' <= c <= 'z' || '0' <= c <= '9' || c == '_' || c == '.' || c == '-' || c == '~'
  }

  predicate IsHex(c: char)
  {
    '0' <= c <= '9' || 'A' <= c <= 'F' || 'a' <= c <= 'f'
  }

  function HexValue(c: char): (v: nat)
    requires IsHex(c)
    ensures v < 16
  {
    if '0' <= c <= '9' then c as int - '0' as int
    else if 'A' <= c <= 'F' then c as int - 'A' as int + 10
    else c as int - 'a' as int + 10
  }

  lemma HexValueOfDigit(d: nat)
    requires d < 16
    ensures IsHex(HexDigit(d)) && HexValue(HexDigit(d)) == d
  {
  }

  /** The UTF-8 encoding of one code point. */
  function Utf8(c: char): (r: seq<Byte>)
    ensures 1 <= |r| <= 4
    ensures |r| == 1 <==> c as int < 0x80
    ensures |r| == 1 ==> r[0] as int == c as int
  {
    var v := c as int;
    if v < 0x80 then [v as Byte]
    else if v < 0x800 then [(0xC0 + v / 64) as Byte, (0x80 + v % 64) as Byte]
    else if v < 0x10000 then
      [(0xE0 + v / 4096) as Byte, (0x80 + (v / 64) % 64) as Byte, (0x80 + v % 64) as Byte]
    else
      [(0xF0 + v / 262144) as Byte, (0x80 + (v / 4096) % 64) as Byte,
       (0x80 + (v / 64) % 64) as Byte, (0x80 + v % 64) as Byte]
  }

  /** s.encode('utf-8') */
  function Utf8Bytes(s: string): seq<Byte>
  {
    if |s| == 0 then [] else Utf8(s[0]) + Utf8Bytes(s[1..])
  }

  /** One byte as quote_from_bytes writes it. */
  function QuoteByte(b: Byte): (r: string)
    ensures |r| == 1 || |r| == 3
  {
    if b < 0x80 && Unreserved(b as int as char) then [b as int as char]
    else ['%', HexDigit(b as nat / 16), HexDigit(b as nat % 16)]
  }

  function QuoteBytes(bs: seq<Byte>): string
  {
    if |bs| == 0 then "" else QuoteByte(bs[0]) + QuoteBytes(bs[1..])
  }

  /** quote(s, safe='') */
  function Quote(s: string): string
  {
    QuoteBytes(Utf8Bytes(s))
  }

  /** unquote_to_bytes(s): '%' and two hexadecimal digits give one byte; any
      other character, a stray '%' included, stands for its own UTF-8 bytes. */
  function UnquoteBytes(s: string): seq<Byte>
    decreases |s|
  {
    if |s| == 0 then []
    else if |s| >= 3 && s[0] == '%' && IsHex(s[1]) && IsHex(s[2]) then
      [(HexValue(s[1]) * 16 + HexValue(s[2])) as Byte] + UnquoteBytes(s[3..])
    else Utf8(s[0]) + UnquoteBytes(s[1..])
  }

  /** The characters quote() can produce. */
  predicate QuotedChar(c: char)
  {
    Unreserved(c) || c == '%' || ('0' <= c <= '9') || ('A' <= c <= 'F')
  }

  lemma {:induction false} QuoteBytesAlphabet(bs: seq<Byte>)
    ensures forall i :: 0 <= i < |QuoteBytes(bs)| ==> QuotedChar(QuoteBytes(bs)[i])
    decreases |bs|
  {
    if |bs| > 0 {
      QuoteBytesAlphabet(bs[1..]);
      var h := QuoteByte(bs[0]);
      assert forall i :: 0 <= i < |h| ==> QuotedChar(h[i]);
    }
  }

  /** A quoted credential contains no ':', '@' or '/', so it cannot end the user,
      password or authority part of a URL early. */
  lemma QuoteHasNoDelimiters(s: string)
    ensures ':' !in Quote(s) && '@' !in Quote(s) && '/' !in Quote(s)
  {
    QuoteBytesAlphabet(Utf8Bytes(s));
  }

  lemma UnquoteQuotedByte(b: Byte, rest: string)
    ensures UnquoteBytes(QuoteByte(b) + rest) == [b] + UnquoteBytes(rest)
  {
    var q := QuoteByte(b) + rest;
    if b < 0x80 && Unreserved(b as int as char) {
      assert q[0] == b as int as char && q[1..] == rest;
    } else {
      HexValueOfDigit(b as nat / 16);
      HexValueOfDigit(b as nat % 16);
      assert q[3..] == rest;
    }
  }

  lemma {:induction false} UnquoteQuoteBytes(bs: seq<Byte>)
    ensures UnquoteBytes(QuoteBytes(bs)) == bs
    decreases |bs|
  {
    if |bs| > 0 {
      UnquoteQuotedByte(bs[0], QuoteBytes(bs[1..]));
      UnquoteQuoteBytes(bs[1..]);
    }
  }

  /** Percent-decoding a quoted string gives back the UTF-8 bytes of the input. */
  lemma UnquoteQuote(s: string)
    ensures UnquoteBytes(Quote(s)) == Utf8Bytes(s)
  {
    UnquoteQuoteBytes(Utf8Bytes(s));
  }

  lemma {:induction false} QuoteBytesUnreserved(s: string)
    requires forall i :: 0 <= i < |s| ==> Unreserved(s[i])
    ensures QuoteBytes(Utf8Bytes(s)) == s
    decreases |s|
  {
    if |s| > 0 {
      QuoteBytesUnreserved(s[1..]);
      assert Utf8Bytes(s) == [s[0] as int as Byte] + Utf8Bytes(s[1..]);
    }
  }

  /** A string made of unreserved characters is left as it is. */
  lemma QuoteUnreserved(s: string)
    requires forall i :: 0 <= i < |s| ==> Unreserved(s[i])
    ensures Quote(s) == s
  {
    QuoteBytesUnreserved(s);
  }

  // ------------------------------------------------------------ UTF-8 decoding

  const Replacement: char := '\U{FFFD}'

  /** The length of the well-formed UTF-8 sequence a byte leads (section 4 of
      RFC 3629), or 0 for a byte no sequence starts with. */
  function SequenceLength(b: Byte): (n: nat)
    ensures n <= 4
  {
    if b < 0x80 then 1
    else if 0xC2 <= b <= 0xDF then 2
    else if 0xE0 <= b <= 0xEF then 3
    else if 0xF0 <= b <= 0xF4 then 4
    else 0
  }

  /** Whether b may stand at position k (1 to 3) of a sequence led by `lead`;
      the second byte's range is narrower after E0, ED, F0 and F4. */
  predicate Continues(lead: Byte, k: nat, b: Byte)
  {
    if k == 1 && lead == 0xE0 then 0xA0 <= b <= 0xBF
    else if k == 1 && lead == 0xED then 0x80 <= b <= 0x9F
    else if k == 1 && lead == 0xF0 then 0x90 <= b <= 0xBF
    else if k == 1 && lead == 0xF4 then 0x80 <= b <= 0x8F
    else 0x80 <= b <= 0xBF
  }

  /** The length of the longest start of bs, at most n bytes, that begins a
      well-formed sequence of n bytes (its "maximal subpart"). */
  function ValidPrefix(bs: seq<Byte>, n: nat): (m: nat)
    requires 2 <= n <= 4 && |bs| >= 1
    ensures 1 <= m <= n && m <= |bs|
  {
    if |bs| < 2 || !Continues(bs[0], 1, bs[1]) then 1
    else if n == 2 || |bs| < 3 || !Continues(bs[0], 2, bs[2]) then 2
    else if n == 3 || |bs| < 4 || !Continues(bs[0], 3, bs[3]) then 3
    else 4
  }

  /** The code point of a well-formed sequence of n bytes. */
  function CodePoint(bs: seq<Byte>, n: nat): char
    requires 2 <= n <= 4 && |bs| >= n && SequenceLength(bs[0]) == n && ValidPrefix(bs, n) == n
  {
    if n == 2 then ((bs[0] as int - 0xC0) * 64 + (bs[1] as int - 0x80)) as char
    else if n == 3 then
      ((bs[0] as int - 0xE0) * 4096 + (bs[1] as int - 0x80) * 64 + (bs[2] as int - 0x80)) as char
    else
      ((bs[0] as int - 0xF0) * 262144 + (bs[1] as int - 0x80) * 4096
       + (bs[2] as int - 0x80) * 64 + (bs[3] as int - 0x80)) as char
  }

  /** bytes.decode('utf-8', errors='replace'): a well-formed sequence gives its
      character; otherwise its maximal subpart, or a byte no sequence starts
      with, gives one U+FFFD and decoding resumes after it. */
  function Utf8Decode(bs: seq<Byte>): string
    decreases |bs|
  {
    if |bs| == 0 then ""
    else
      var n := SequenceLength(bs[0]);
      if n == 0 then [Replacement] + Utf8Decode(bs[1..])
      else if n == 1 then [bs[0] as int as char] + Utf8Decode(bs[1..])
      else
        var m := ValidPrefix(bs, n);
        if m == n then [CodePoint(bs, n)] + Utf8Decode(bs[n..])
        else [Replacement] + Utf8Decode(bs[m..])
  }

  lemma DecodeTwoBytes(c: char, rest: seq<Byte>)
    requires 0x80 <= c as int < 0x800
    ensures Utf8Decode(Utf8(c) + rest) == [c] + Utf8Decode(rest)
  {
    var bs := Utf8(c) + rest;
    var v := c as int;
    assert bs[0] as int == 0xC0 + v / 64 && bs[1] as int == 0x80 + v % 64;
    assert ValidPrefix(bs, 2) == 2;
    assert CodePoint(bs, 2) == c;
    assert bs[2..] == rest;
  }

  lemma DecodeThreeBytes(c: char, rest: seq<Byte>)
    requires 0x800 <= c as int < 0x10000
    ensures Utf8Decode(Utf8(c) + rest) == [c] + Utf8Decode(rest)
  {
    var bs := Utf8(c) + rest;
    var v := c as int;
    assert bs[0] as int == 0xE0 + v / 4096;
    assert bs[1] as int == 0x80 + (v / 64) % 64 && bs[2] as int == 0x80 + v % 64;
    assert v == (v / 4096) * 4096 + ((v / 64) % 64) * 64 + v % 64;
    assert Continues(bs[0], 1, bs[1]);
    assert ValidPrefix(bs, 3) == 3;
    assert CodePoint(bs, 3) == c;
    assert bs[3..] == rest;
  }

  lemma DecodeFourBytes(c: char, rest: seq<Byte>)
    requires 0x10000 <= c as int
    ensures Utf8Decode(Utf8(c) + rest) == [c] + Utf8Decode(rest)
  {
    var bs := Utf8(c) + rest;
    var v := c as int;
    var d0, d1, d2, d3 := v / 262144, (v / 4096) % 64, (v / 64) % 64, v % 64;
    assert v == d0 * 262144 + d1 * 4096 + d2 * 64 + d3 && 0 <= d0 <= 4 && (d0 == 0 ==> d1 >= 16) && (d0 == 4 ==> d1 < 16) by {
      SplitFour(v);
    }
    assert bs[0] as int == 0xF0 + d0 && bs[1] as int == 0x80 + d1;
    assert bs[2] as int == 0x80 + d2 && bs[3] as int == 0x80 + d3;
    assert Continues(bs[0], 1, bs[1]);
    assert ValidPrefix(bs, 4) == 4;
    assert CodePoint(bs, 4) == c;
    assert bs[4..] == rest;
  }

  lemma SplitFour(v: int)
    requires 0x10000 <= v < 0x110000
    ensures v == (v / 262144) * 262144 + ((v / 4096) % 64) * 4096 + ((v / 64) % 64) * 64 + v % 64
    ensures 0 <= v / 262144 <= 4
    ensures v / 262144 == 0 ==> (v / 4096) % 64 >= 16
    ensures v / 262144 == 4 ==> (v / 4096) % 64 < 16
  {
    assert v / 4096 == (v / 262144) * 64 + (v / 4096) % 64;
    assert v / 64 == (v / 4096) * 64 + (v / 64) % 64;
    assert v == (v / 64) * 64 + v % 64;
  }

  /** One character's UTF-8 form decodes to the character, whatever follows. */
  lemma DecodeUtf8Char(c: char, rest: seq<Byte>)
    ensures Utf8Decode(Utf8(c) + rest) == [c] + Utf8Decode(rest)
  {
    if c as int < 0x80 {
      assert (Utf8(c) + rest)[1..] == rest;
    } else if c as int < 0x800 {
      DecodeTwoBytes(c, rest);
    } else if c as int < 0x10000 {
      DecodeThreeBytes(c, rest);
    } else {
      DecodeFourBytes(c, rest);
    }
  }

  /** Decoding the UTF-8 encoding of a string gives the string back. */
  lemma {:induction false} DecodeUtf8Bytes(s: string)
    ensures Utf8Decode(Utf8Bytes(s)) == s
    decreases |s|
  {
    if |s| > 0 {
      DecodeUtf8Char(s[0], Utf8Bytes(s[1..]));
      DecodeUtf8Bytes(s[1..]);
      assert [s[0]] + s[1..] == s;
    }
  }

  /** A byte that starts no sequence (a stray continuation byte, C0, C1 or F5
      to FF) decodes to one U+FFFD. */
  lemma DecodeStrayByte(b: Byte, rest: seq<Byte>)
    requires 0x80 <= b <= 0xC1 || 0xF5 <= b
    ensures Utf8Decode([b] + rest) == [Replacement] + Utf8Decode(rest)
  {
    assert ([b] + rest)[1..] == rest;
  }

  /** unquote_to_bytes of text without '%' is the text's UTF-8 encoding. */
  lemma {:induction false} UnquoteBytesPlain(s: string)
    requires '%' !in s
    ensures UnquoteBytes(s) == Utf8Bytes(s)
    decreases |s|
  {
    if |s| > 0 {
      UnquoteBytesPlain(s[1..]);
    }
  }

  /** A continuation byte, 10xxxxxx. */
  predicate IsContinuation(b: Byte)
  {
    0x80 <= b <= 0xBF
  }

  /** Each character decoded takes at least one byte. */
  lemma {:induction false} DecodeNoLonger(bs: seq<Byte>)
    ensures |Utf8Decode(bs)| <= |bs|
    decreases |bs|
  {
    if |bs| > 0 {
      var n := SequenceLength(bs[0]);
      if n <= 1 {
        DecodeNoLonger(bs[1..]);
      } else {
        DecodeNoLonger(bs[ValidPrefix(bs, n)..]);
      }
    }
  }

  /** A sequence never runs on into a byte that is no continuation byte. */
  lemma ValidPrefixStops(x: seq<Byte>, y: seq<Byte>, n: nat)
    requires 2 <= n <= 4 && |x| >= 1
    requires |y| == 0 || !IsContinuation(y[0])
    ensures ValidPrefix(x + y, n) == ValidPrefix(x, n)
  {
    var xy := x + y;
    assert forall k :: 0 <= k < |x| ==> xy[k] == x[k];
    if |y| > 0 {
      assert xy[|x|] == y[0];
    }
  }

  /** Decoding splits before a byte that is no continuation byte. */
  lemma {:induction false} DecodeSplits(x: seq<Byte>, y: seq<Byte>)
    requires |y| == 0 || !IsContinuation(y[0])
    ensures Utf8Decode(x + y) == Utf8Decode(x) + Utf8Decode(y)
    decreases |x|
  {
    if |x| == 0 {
      assert x + y == y;
    } else {
      var xy := x + y;
      var n := SequenceLength(x[0]);
      assert xy[0] == x[0];
      var m := if n <= 1 then 1 else ValidPrefix(x, n);
      var h := FirstDecoded(x);
      assert Utf8Decode(x) == [h] + Utf8Decode(x[m..]) by {
        DecodeFirstOfSplit(x, []);
        assert x + [] == x && x[m..] + [] == x[m..];
      }
      assert Utf8Decode(xy) == [h] + Utf8Decode(x[m..] + y) by {
        DecodeFirstOfSplit(x, y);
      }
      DecodeSplits(x[m..], y);
      assert [h] + (Utf8Decode(x[m..]) + Utf8Decode(y)) == ([h] + Utf8Decode(x[m..])) + Utf8Decode(y);
    }
  }

  /** The first character decoded from bs. */
  function FirstDecoded(bs: seq<Byte>): char
    requires |bs| > 0
  {
    var n := SequenceLength(bs[0]);
    if n == 0 then Replacement
    else if n == 1 then bs[0] as int as char
    else if ValidPrefix(bs, n) == n then CodePoint(bs, n)
    else Replacement
  }

  /** The first unit of x is decoded alike when y follows it. */
  lemma DecodeFirstOfSplit(x: seq<Byte>, y: seq<Byte>)
    requires |x| > 0 && (|y| == 0 || !IsContinuation(y[0]))
    ensures var n := SequenceLength(x[0]);
      var m := if n <= 1 then 1 else ValidPrefix(x, n);
      Utf8Decode(x + y) == [FirstDecoded(x)] + Utf8Decode(x[m..] + y)
  {
    var xy := x + y;
    var n := SequenceLength(x[0]);
    assert xy[0] == x[0];
    if n <= 1 {
      assert xy[1..] == x[1..] + y;
    } else {
      var m := ValidPrefix(x, n);
      ValidPrefixStops(x, y, n);
      assert xy[m..] == x[m..] + y;
      if m == n {
        assert CodePoint(xy, n) == CodePoint(x, n) by {
          assert forall k :: 0 <= k < n ==> xy[k] == x[k];
        }
      }
    }
  }

  /** The UTF-8 form of a non-ASCII character starts with a lead byte. */
  lemma Utf8Leads(c: char)
    requires 0x80 <= c as int
    ensures !IsContinuation(Utf8(c)[0])
  {
  }

  /** pre followed by the bytes unquote_to_bytes makes of s decodes to at
      most |pre| + |s| characters. */
  lemma {:induction false} DecodeUnquotedNoLonger(pre: seq<Byte>, s: string)
    ensures |Utf8Decode(pre + UnquoteBytes(s))| <= |pre| + |s|
    decreases |s|
  {
    if |s| == 0 {
      assert pre + UnquoteBytes(s) == pre;
      DecodeNoLonger(pre);
    } else if |s| >= 3 && s[0] == '%' && IsHex(s[1]) && IsHex(s[2]) {
      var b := (HexValue(s[1]) * 16 + HexValue(s[2])) as Byte;
      assert pre + UnquoteBytes(s) == (pre + [b]) + UnquoteBytes(s[3..]);
      DecodeUnquotedNoLonger(pre + [b], s[3..]);
    } else if s[0] as int < 0x80 {
      assert Utf8(s[0]) == [s[0] as int as Byte];
      assert pre + UnquoteBytes(s) == (pre + Utf8(s[0])) + UnquoteBytes(s[1..]);
      DecodeUnquotedNoLonger(pre + Utf8(s[0]), s[1..]);
    } else {
      var rest := UnquoteBytes(s[1..]);
      assert pre + UnquoteBytes(s) == pre + (Utf8(s[0]) + rest);
      Utf8Leads(s[0]);
      DecodeSplits(pre, Utf8(s[0]) + rest);
      DecodeUtf8Char(s[0], rest);
      DecodeNoLonger(pre);
      DecodeUnquotedNoLonger([], s[1..]);
      assert [] + rest == rest;
    }
  }
}
