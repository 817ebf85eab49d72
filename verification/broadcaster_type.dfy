/** Extraction of the broadcaster type from the body of a users lookup, the
    regular expression  "broadcaster_type"\s*:\s*"([^"]*)"  applied with
    Regex.Match (leftmost match, first group), lifted out of
    TwitchOAuthClient.FetchBroadcasterType as pure functions.

    MatchAt is the matcher run at one position; Layout/MatchesAt is the
    independent, declarative reading of the pattern; the lemmas show the two
    agree, so that BroadcasterTypeOf can be specified by the declarative
    reading alone. */
module BroadcasterTypeRegex {
  import opened Wrappers
  import opened Text

  /** The literal that opens the pattern, quotes included. */
  const Key: string := "\"broadcaster_type\""

  /** The value stored when a successful users response carries no match. */
  const ParseErrorSentinel: string := "ERROR_PARSING_BROADCASTER_TYPE"

  /** How far \s* reaches from j: the first index at or after j that is not
      white space, or |s|. */
  function SkipWhiteSpace(s: string, j: nat): (r: nat)
    requires j <= |s|
    ensures j <= r <= |s|
    ensures forall t :: j <= t < r ==> IsWhiteSpace(s[t])
    ensures r < |s| ==> !IsWhiteSpace(s[r])
    decreases |s| - j
  {
    if j < |s| && IsWhiteSpace(s[j]) then SkipWhiteSpace(s, j + 1) else j
  }

  /** How far [^"]* reaches from j: the first index at or after j holding a
      double quote, or |s|. */
  function SkipToQuote(s: string, j: nat): (r: nat)
    requires j <= |s|
    ensures j <= r <= |s|
    ensures forall t :: j <= t < r ==> s[t] != '"'
    ensures r < |s| ==> s[r] == '"'
    decreases |s| - j
  {
    if j < |s| && s[j] != '"' then SkipToQuote(s, j + 1) else j
  }

  /** The pattern tried at position i. Backtracking never finds a second way
      to match: \s matches neither ':' nor '"', and [^"]* can only be
      followed by the quote it stopped at. */
  function MatchAt(s: string, i: nat): (r: Option<string>)
    requires i <= |s|
    ensures r.Some? ==> i + |Key| <= |s| && s[i..i + |Key|] == Key
    ensures r.Some? ==> forall t :: 0 <= t < |r.value| ==> r.value[t] != '"'
  {
    if i + |Key| <= |s| && s[i..i + |Key|] == Key then
      var j := SkipWhiteSpace(s, i + |Key|);
      if j < |s| && s[j] == ':' then
        var k := SkipWhiteSpace(s, j + 1);
        if k < |s| && s[k] == '"' then
          var e := SkipToQuote(s, k + 1);
          if e < |s| then Some(s[k + 1..e]) else None
        else None
      else None
    else None
  }

  /** Declarative reading of one match: from i the text reads Key, white
      space up to j, ':' at j, white space up to k, '"' at k, then the
      quote-free capture `cap`, then a closing '"'. */
  ghost predicate Layout(s: string, i: int, j: int, k: int, cap: string)
  {
    && 0 <= i && i + |Key| <= j < k && k + 1 + |cap| < |s|
    && s[i..i + |Key|] == Key
    && (forall t :: i + |Key| <= t < j ==> IsWhiteSpace(s[t]))
    && s[j] == ':'
    && (forall t :: j + 1 <= t < k ==> IsWhiteSpace(s[t]))
    && s[k] == '"'
    && s[k + 1..k + 1 + |cap|] == cap
    && (forall t :: 0 <= t < |cap| ==> cap[t] != '"')
    && s[k + 1 + |cap|] == '"'
  }

  /** The pattern matches at i with first group `cap`. */
  ghost predicate MatchesAt(s: string, i: int, cap: string)
  {
    exists j, k :: Layout(s, i, j, k, cap)
  }

  /** The match Regex.Match reports: the one at the smallest position. */
  ghost predicate LeftmostMatch(s: string, i: int, cap: string)
  {
    MatchesAt(s, i, cap) && forall q, c :: 0 <= q < i ==> !MatchesAt(s, q, c)
  }

  ghost predicate NoMatch(s: string)
  {
    forall i, cap :: !MatchesAt(s, i, cap)
  }

  lemma MatchAtSound(s: string, i: nat)
    requires i <= |s| && MatchAt(s, i).Some?
    ensures MatchesAt(s, i, MatchAt(s, i).value)
  {
    var j := SkipWhiteSpace(s, i + |Key|);
    var k := SkipWhiteSpace(s, j + 1);
    var e := SkipToQuote(s, k + 1);
    var cap := s[k + 1..e];
    assert k + 1 + |cap| == e;
    assert Layout(s, i, j, k, cap);
  }

  /** \s* stops exactly at the first character that is not white space. */
  lemma SkipWhiteSpaceStopsAt(s: string, start: nat, j: nat)
    requires start <= j < |s|
    requires forall t :: start <= t < j ==> IsWhiteSpace(s[t])
    requires !IsWhiteSpace(s[j])
    ensures SkipWhiteSpace(s, start) == j
  {
    var r := SkipWhiteSpace(s, start);
    assert r < |s| ==> !IsWhiteSpace(s[r]);
  }

  /** [^"]* stops exactly at the first double quote. */
  lemma SkipToQuoteStopsAt(s: string, start: nat, e: nat)
    requires start <= e < |s|
    requires forall t :: start <= t < e ==> s[t] != '"'
    requires s[e] == '"'
    ensures SkipToQuote(s, start) == e
  {
    var r := SkipToQuote(s, start);
    assert r < |s| ==> s[r] == '"';
  }

  /** The matcher's verdict once the three scans are known to stop at j, k
      and e. */
  lemma MatchAtFrom(s: string, i: nat, j: nat, k: nat, e: nat)
    requires i + |Key| <= |s| && s[i..i + |Key|] == Key
    requires SkipWhiteSpace(s, i + |Key|) == j && j < |s| && s[j] == ':'
    requires SkipWhiteSpace(s, j + 1) == k && k < |s| && s[k] == '"'
    requires SkipToQuote(s, k + 1) == e && e < |s|
    ensures MatchAt(s, i) == Some(s[k + 1..e])
  {
  }

  lemma MatchAtComplete(s: string, i: nat, cap: string)
    requires i <= |s| && MatchesAt(s, i, cap)
    ensures MatchAt(s, i) == Some(cap)
  {
    var j, k :| Layout(s, i, j, k, cap);
    var e := k + 1 + |cap|;
    assert !IsWhiteSpace(':') && !IsWhiteSpace('"');
    SkipWhiteSpaceStopsAt(s, i + |Key|, j);
    SkipWhiteSpaceStopsAt(s, j + 1, k);
    assert s[k + 1..e] == cap;
    forall t | k + 1 <= t < e ensures s[t] != '"' {
      assert s[t] == cap[t - k - 1];
    }
    SkipToQuoteStopsAt(s, k + 1, e);
    MatchAtFrom(s, i, j, k, e);
  }

  /** A match needs the whole Key, which holds a character that is not
      white space, so a blank body never matches. */
  lemma BlankNeverMatches(s: string)
    requires IsBlank(s)
    ensures NoMatch(s)
  {
    forall i, cap ensures !MatchesAt(s, i, cap) {
      MatchImpliesNotBlank(s, i, cap);
    }
  }

  lemma MatchImpliesNotBlank(s: string, i: int, cap: string)
    ensures MatchesAt(s, i, cap) ==> !IsBlank(s)
  {
    if MatchesAt(s, i, cap) {
      var j, k :| Layout(s, i, j, k, cap);
      assert s[i + 1] == Key[1] == 'b';
      assert !IsWhiteSpace(s[i + 1]);
    }
  }

  /** The scan over positions i, i + 1, ..., |s|: the first position where
      the pattern matches gives the result. */
  function FirstMatch(s: string, i: nat): (r: Option<string>)
    requires i <= |s|
    ensures r.Some? ==>
      exists p :: i <= p <= |s| && MatchAt(s, p) == r && forall q :: i <= q < p ==> MatchAt(s, q).None?
    ensures r.None? ==> forall p :: i <= p <= |s| ==> MatchAt(s, p).None?
    decreases |s| - i
  {
    var m := MatchAt(s, i);
    if m.Some? then m
    else if i == |s| then None
    else FirstMatch(s, i + 1)
  }

  /** Regex.Match(raw, pattern): the first group of the leftmost match. */
  function Capture(raw: string): (r: Option<string>)
    ensures r.None? <==> NoMatch(raw)
    ensures r.Some? ==> exists p :: LeftmostMatch(raw, p, r.value)
  {
    var r := FirstMatch(raw, 0);
    forall p, c | MatchesAt(raw, p, c)
      ensures 0 <= p < |raw| && MatchAt(raw, p) == Some(c)
    {
      var j, k :| Layout(raw, p, j, k, c);
      MatchAtComplete(raw, p, c);
    }
    if r.Some? then
      var p :| 0 <= p <= |raw| && MatchAt(raw, p) == r && forall q :: 0 <= q < p ==> MatchAt(raw, q).None?;
      MatchAtSound(raw, p);
      assert LeftmostMatch(raw, p, r.value);
      r
    else
      r
  }

  /** What FetchBroadcasterType stores after a successful users call: the
      capture of the leftmost match, or the sentinel when the body is blank or
      nothing matches. */
  function BroadcasterTypeOf(raw: string): (t: string)
    ensures NoMatch(raw) ==> t == ParseErrorSentinel
    ensures forall p, c :: LeftmostMatch(raw, p, c) ==> t == c
  {
    if IsBlank(raw) then
      BlankNeverMatches(raw);
      ParseErrorSentinel
    else
      var r := Capture(raw);
      if r.Some? then
        forall p, c | LeftmostMatch(raw, p, c) ensures c == r.value {
          var p0 :| LeftmostMatch(raw, p0, r.value);
          assert p == p0;
          var j, k :| Layout(raw, p, j, k, c);
          MatchAtComplete(raw, p, c);
          MatchAtComplete(raw, p, r.value);
        }
        r.value
      else
        ParseErrorSentinel
  }

  /** A body whose leftmost match captures the empty string marks a standard
      (non-affiliate) account; everything else, the unparseable body
      included, yields a non-empty type. */
  lemma StandardOnlyWhenCaptureEmpty(raw: string)
    ensures BroadcasterTypeOf(raw) == "" <==> exists p :: LeftmostMatch(raw, p, "")
  {
    var r := Capture(raw);
    if r.Some? {
      var p :| LeftmostMatch(raw, p, r.value);
      assert BroadcasterTypeOf(raw) == r.value;
    }
  }
}
