/** String helpers shared by the three components: .NET's notion of white
    space, string.IsNullOrWhiteSpace, string.Contains, string.Join, and the
    UTF-16 code units that a .NET string is made of. */
module Text {
  import opened Wrappers

  /** The characters Char.IsWhiteSpace accepts in .NET, which are also the
      ones the regex class \s matches, listed one by one. */
  const WhiteSpaceChars: set<char> := {
    '\t', '\n', '\U{000B}', '\U{000C}', '\r', ' ', '\U{0085}', '\U{00A0}', '\U{1680}',
    '\U{2000}', '\U{2001}', '\U{2002}', '\U{2003}', '\U{2004}', '\U{2005}', '\U{2006}',
    '\U{2007}', '\U{2008}', '\U{2009}', '\U{200A}',
    '\U{2028}', '\U{2029}', '\U{202F}', '\U{205F}', '\U{3000}' }

  /** Char.IsWhiteSpace, written with the ranges .NET documents. Neither
      ':' nor '"' is white space. */
  predicate IsWhiteSpace(c: char)
    ensures (c == ':' || c == '"') ==> !IsWhiteSpace(c)
  {
    || ('\t' <= c <= '\r')
    || c == ' '
    || c == '\U{0085}'
    || c == '\U{00A0}'
    || c == '\U{1680}'
    || ('\U{2000}' <= c <= '\U{200A}')
    || c == '\U{2028}'
    || c == '\U{2029}'
    || c == '\U{202F}'
    || c == '\U{205F}'
    || c == '\U{3000}'
  }

  /** The ranges and the list agree. */
  lemma WhiteSpaceListed(c: char)
    ensures IsWhiteSpace(c) <==> c in WhiteSpaceChars
  {
  }

  /** string.IsNullOrWhiteSpace. A null string is "" wherever this is the
      only test the code applies to it. */
  predicate IsBlank(s: string)
    ensures |s| == 0 ==> IsBlank(s)
  {
    forall i :: 0 <= i < |s| ==> IsWhiteSpace(s[i])
  }

  /** A string is blank exactly when each of its characters is one of the
      listed white-space characters; blankness survives concatenation. */
  lemma BlankMeansAllWhiteSpace(s: string, t: string)
    ensures IsBlank(s) <==> forall c :: c in s ==> c in WhiteSpaceChars
    ensures IsBlank(s + t) <==> IsBlank(s) && IsBlank(t)
  {
    if IsBlank(s + t) {
      forall i | 0 <= i < |s| ensures IsWhiteSpace(s[i]) {
        assert s[i] == (s + t)[i];
      }
      forall i | 0 <= i < |t| ensures IsWhiteSpace(t[i]) {
        assert t[i] == (s + t)[|s| + i];
      }
    }
    if IsBlank(s) && IsBlank(t) {
      forall i | 0 <= i < |s + t| ensures IsWhiteSpace((s + t)[i]) {
        if i >= |s| {
          assert (s + t)[i] == t[i - |s|];
        }
      }
    }
    if IsBlank(s) {
      forall c | c in s ensures c in WhiteSpaceChars {
        var i :| 0 <= i < |s| && s[i] == c;
        assert IsWhiteSpace(s[i]);
        WhiteSpaceListed(c);
      }
    }
    if forall c :: c in s ==> c in WhiteSpaceChars {
      forall i | 0 <= i < |s| ensures IsWhiteSpace(s[i]) {
        assert s[i] in s;
        WhiteSpaceListed(s[i]);
      }
    }
  }

  /** `word` occurs in `text` starting at index `i`. */
  ghost predicate OccursAt(text: string, word: string, i: int)
  {
    0 <= i && i + |word| <= |text| && text[i..i + |word|] == word
  }

  /** The reference meaning of string.Contains: some occurrence exists. */
  ghost predicate Occurs(text: string, word: string)
  {
    exists i :: OccursAt(text, word, i)
  }

  lemma OccursShift(text: string, word: string)
    requires |text| > 0
    ensures Occurs(text, word) <==> OccursAt(text, word, 0) || Occurs(text[1..], word)
  {
    if Occurs(text, word) && !OccursAt(text, word, 0) {
      var i :| OccursAt(text, word, i);
      assert text[1..][i - 1..i - 1 + |word|] == text[i..i + |word|];
      assert OccursAt(text[1..], word, i - 1);
    }
    if Occurs(text[1..], word) {
      var i :| OccursAt(text[1..], word, i);
      assert text[1..][i..i + |word|] == text[i + 1..i + 1 + |word|];
      assert OccursAt(text, word, i + 1);
    }
  }

  /** string.Contains (ordinal): a left-to-right search for `word`. */
  function Contains(text: string, word: string): (r: bool)
    ensures r <==> Occurs(text, word)
    decreases |text|
  {
    if |word| > |text| then
      assert forall i :: !OccursAt(text, word, i);
      false
    else if text[..|word|] == word then
      assert OccursAt(text, word, 0);
      true
    else
      OccursShift(text, word);
      Contains(text[1..], word)
  }

  /** string.Join(sep, parts). */
  function Join(sep: string, parts: seq<string>): (r: string)
    ensures |parts| == 0 ==> r == ""
    ensures |parts| == 1 ==> r == parts[0]
  {
    if |parts| == 0 then ""
    else if |parts| == 1 then parts[0]
    else parts[0] + sep + Join(sep, parts[1..])
  }

  /** With two parts or more, the result starts with the first part and the
      separator. */
  lemma JoinStartsWithFirst(sep: string, parts: seq<string>)
    requires |parts| >= 2
    ensures var r := Join(sep, parts);
            |r| >= |parts[0]| + |sep| && r[..|parts[0]| + |sep|] == parts[0] + sep
  {
    var r := Join(sep, parts);
    assert r == (parts[0] + sep) + Join(sep, parts[1..]);
  }

  /** Joining one more part appends the separator and that part. */
  lemma {:induction false} JoinAppend(sep: string, parts: seq<string>, last: string)
    requires |parts| >= 1
    ensures Join(sep, parts + [last]) == Join(sep, parts) + sep + last
    decreases |parts|
  {
    if |parts| > 1 {
      assert (parts + [last])[1..] == parts[1..] + [last];
      JoinAppend(sep, parts[1..], last);
    }
  }

  // ---------------------------------------------------------------- UTF-16

  /** A UTF-16 code unit: what a .NET char holds and what string.Length and
      Substring count. */
  newtype CodeUnit = x: int | 0 <= x < 0x1_0000

  /** A .NET string as its code units. Unlike a Dafny string it can hold a
      lone half of a surrogate pair. */
  type Utf16 = seq<CodeUnit>

  predicate IsHighSurrogate(u: CodeUnit) { 0xD800 <= u < 0xDC00 }
  predicate IsLowSurrogate(u: CodeUnit) { 0xDC00 <= u < 0xE000 }

  /** The code units of one character: itself below U+10000, a surrogate
      pair above. */
  function EncodeChar(c: char): (u: Utf16)
    ensures 1 <= |u| <= 2
    ensures |u| == 2 <==> c as int >= 0x1_0000
    ensures |u| == 1 ==> u[0] as int == c as int && !IsHighSurrogate(u[0]) && !IsLowSurrogate(u[0])
    ensures |u| == 2 ==> IsHighSurrogate(u[0]) && IsLowSurrogate(u[1])
  {
    var v := c as int;
    if v < 0x1_0000 then [v as CodeUnit]
    else
      var w := v - 0x1_0000;
      [(0xD800 + w / 0x400) as CodeUnit, (0xDC00 + w % 0x400) as CodeUnit]
  }

  /** The code units of a string, one or two per character. */
  function ToUtf16(s: string): (u: Utf16)
    ensures |u| >= |s|
    ensures s == [] <==> u == []
  {
    if s == [] then [] else EncodeChar(s[0]) + ToUtf16(s[1..])
  }

  /** Text `a` in front of a decoding result; nothing stays nothing. */
  function Prefixed(a: string, d: Option<string>): Option<string>
  {
    if d.Some? then Some(a + d.value) else None
  }

  /** Putting two texts in front one after the other. */
  lemma PrefixedTwice(x: string, y: string, d: Option<string>)
    ensures Prefixed(x, Prefixed(y, d)) == Prefixed(x + y, d)
  {
    if d.Some? {
      assert x + (y + d.value) == (x + y) + d.value;
    }
  }

  /** Reading code units back as text: None when a surrogate half has no
      partner, which no string can hold. */
  function DecodeUtf16(u: Utf16): Option<string>
    decreases |u|
  {
    if u == [] then Some("")
    else if IsHighSurrogate(u[0]) then
      if |u| >= 2 && IsLowSurrogate(u[1]) then
        var c := (0x1_0000 + (u[0] as int - 0xD800) * 0x400 + (u[1] as int - 0xDC00)) as char;
        Prefixed([c], DecodeUtf16(u[2..]))
      else None
    else if IsLowSurrogate(u[0]) then None
    else
      Prefixed([u[0] as int as char], DecodeUtf16(u[1..]))
  }

  /** Encoding distributes over concatenation. */
  lemma {:induction false} ToUtf16Append(a: string, b: string)
    ensures ToUtf16(a + b) == ToUtf16(a) + ToUtf16(b)
    decreases |a|
  {
    if a != [] {
      assert (a + b)[0] == a[0] && (a + b)[1..] == a[1..] + b;
      ToUtf16Append(a[1..], b);
    } else {
      assert a + b == b;
    }
  }

  lemma DecodeAfterChar(c: char, rest: Utf16)
    ensures DecodeUtf16(EncodeChar(c) + rest) == Prefixed([c], DecodeUtf16(rest))
  {
    var e := EncodeChar(c);
    var u := e + rest;
    if |e| == 2 {
      assert 0x1_0000 + (e[0] as int - 0xD800) * 0x400 + (e[1] as int - 0xDC00) == c as int;
      assert u[0] == e[0] && u[1] == e[1] && u[2..] == rest;
    } else {
      assert u[0] == e[0] && u[1..] == rest;
    }
  }

  /** Decoding what follows the code units of a string. */
  lemma {:induction false} DecodeAfter(a: string, rest: Utf16)
    ensures DecodeUtf16(ToUtf16(a) + rest) == Prefixed(a, DecodeUtf16(rest))
    decreases |a|
  {
    var d := DecodeUtf16(rest);
    if a == [] {
      assert ToUtf16(a) + rest == rest;
      assert d.Some? ==> a + d.value == d.value;
    } else {
      var tail := ToUtf16(a[1..]) + rest;
      assert ToUtf16(a) + rest == EncodeChar(a[0]) + tail by {
        assert ToUtf16(a) == EncodeChar(a[0]) + ToUtf16(a[1..]);
      }
      DecodeAfter(a[1..], rest);
      DecodeAfterChar(a[0], tail);
      PrefixedTwice([a[0]], a[1..], d);
      assert [a[0]] + a[1..] == a;
    }
  }

  /** Round trip: the code units of a string decode to that string, so two
      strings are equal exactly when their code units are. */
  lemma Utf16RoundTrip(s: string)
    ensures DecodeUtf16(ToUtf16(s)) == Some(s)
  {
    DecodeAfter(s, []);
    assert ToUtf16(s) + [] == ToUtf16(s);
    assert s + "" == s;
  }

  lemma Utf16Injective(a: string, b: string)
    ensures ToUtf16(a) == ToUtf16(b) <==> a == b
  {
    Utf16RoundTrip(a);
    Utf16RoundTrip(b);
  }
}
