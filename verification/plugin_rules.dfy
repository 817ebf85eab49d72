/** The pure part of the plugin: how a match's teams become prediction
    outcomes (ordering, titles), how long the prediction window is, and how
    the static IsPredictionStarted flag moves as StartPredict, CancelPredict,
    SendResults and OnApplicationQuit run, together with the calls each one
    issues to the prediction client. The class PluginHost.Plugin performs
    these steps. */
module PluginRules {
  import opened Wrappers
  import opened Text
  import PredictionRules

  const PredictionTitle: string := "STRAFTAT Match Winner"

  /** The window the plugin gives the prediction client when it builds it. */
  const ConfiguredWindowSeconds: int := 120

  const MaxOutcomeTitleLength: nat := 24
  const MinWindowSeconds: int := 60
  const MaxWindowSeconds: int := 1800
  const SecondsPerPlayerRound: int := 15
  const DefaultRoundsToWin: int := 2

  // ---------------------------------------------------------------- titles

  /** '.' as a code unit. */
  const Dot: CodeUnit := 0x2E

  /** TrimOutcomeTitle: titles longer than 24 code units are cut to 24 and
      marked with a trailing '.'. Like string.Length and Substring it counts
      UTF-16 code units, so a character above U+FFFF counts twice and the cut
      can fall between the two halves of its surrogate pair. */
  function TrimOutcomeTitle(title: Utf16): (r: Utf16)
    ensures |title| <= MaxOutcomeTitleLength ==> r == title
    ensures |title| > MaxOutcomeTitleLength ==>
              |r| == MaxOutcomeTitleLength + 1
              && r[..MaxOutcomeTitleLength] == title[..MaxOutcomeTitleLength]
              && r[MaxOutcomeTitleLength] == Dot
  {
    if |title| == 0 then []
    else if |title| > MaxOutcomeTitleLength then title[..MaxOutcomeTitleLength] + [Dot]
    else title
  }

  /** A trimmed title is at most 25 code units and trimming it again leaves
      it as it is. */
  lemma TrimOutcomeTitleIdempotent(title: Utf16)
    ensures |TrimOutcomeTitle(title)| <= MaxOutcomeTitleLength + 1
    ensures TrimOutcomeTitle(TrimOutcomeTitle(title)) == TrimOutcomeTitle(title)
  {
    var r := TrimOutcomeTitle(title);
    if |title| > MaxOutcomeTitleLength {
      assert r[..MaxOutcomeTitleLength] == title[..MaxOutcomeTitleLength];
      assert TrimOutcomeTitle(r) == r[..MaxOutcomeTitleLength] + [Dot];
    }
  }

  /** When the first 24 code units of a text end on a character boundary, the
      trimmed title reads as those characters followed by '.'. */
  lemma TrimAtCharacterBoundary(keep: string, rest: string)
    requires |ToUtf16(keep)| == MaxOutcomeTitleLength && rest != []
    ensures TrimOutcomeTitle(ToUtf16(keep + rest)) == ToUtf16(keep) + [Dot]
    ensures DecodeUtf16(TrimOutcomeTitle(ToUtf16(keep + rest))) == Some(keep + ".")
  {
    ToUtf16Append(keep, rest);
    var u := ToUtf16(keep + rest);
    assert u[..MaxOutcomeTitleLength] == ToUtf16(keep);
    ToUtf16Append(keep, ".");
    assert ToUtf16(".") == [Dot];
    Utf16RoundTrip(keep + ".");
  }

  /** When the 24th code unit is the first half of a surrogate pair, the cut
      keeps that half alone: the trimmed title is no longer valid text. */
  lemma TrimCanSplitSurrogatePair(keep: string, c: char, rest: string)
    requires |ToUtf16(keep)| == MaxOutcomeTitleLength - 1 && c as int >= 0x1_0000
    ensures DecodeUtf16(TrimOutcomeTitle(ToUtf16(keep + [c] + rest))) == None
  {
    ToUtf16Append(keep + [c], rest);
    ToUtf16Append(keep, [c]);
    var e := EncodeChar(c);
    assert ToUtf16([c]) == e + ToUtf16([]);
    var u := ToUtf16(keep + [c] + rest);
    assert u == ToUtf16(keep) + e + ToUtf16(rest);
    var r := TrimOutcomeTitle(u);
    assert r == ToUtf16(keep) + ([e[0]] + [Dot]);
    DecodeAfter(keep, [e[0]] + [Dot]);
  }

  /** A text made only of characters above U+FFFF has two code units per
      character. */
  lemma {:induction false} AboveBmpLength(s: string)
    requires forall i :: 0 <= i < |s| ==> s[i] as int >= 0x1_0000
    ensures |ToUtf16(s)| == 2 * |s|
    decreases |s|
  {
    if s != [] {
      AboveBmpLength(s[1..]);
    }
  }

  /** Thirteen such characters are 26 code units: the title keeps twelve of
      them and a '.'. */
  lemma ThirteenEmojiTitle(s: string)
    requires |s| == 13 && forall i :: 0 <= i < |s| ==> s[i] as int >= 0x1_0000
    ensures DecodeUtf16(TrimOutcomeTitle(ToUtf16(s))) == Some(s[..12] + ".")
  {
    AboveBmpLength(s[..12]);
    assert s == s[..12] + s[12..];
    TrimAtCharacterBoundary(s[..12], s[12..]);
  }

  // ---------------------------------------------------------------- window

  /** Mathf.Clamp on integers. */
  function Clamp(value: int, min: int, max: int): (r: int)
    requires min <= max
    ensures min <= r <= max
    ensures min <= value <= max ==> r == value
    ensures value < min ==> r == min
    ensures value > max ==> r == max
  {
    if value < min then min else if value > max then max else value
  }

  /** The round score needed to win; 2 when no score manager exists (None). */
  function RoundsToWin(roundScoreRequiredToWin: Option<int>): (r: int)
    ensures roundScoreRequiredToWin.None? ==> r == DefaultRoundsToWin
    ensures roundScoreRequiredToWin.Some? ==> r == roundScoreRequiredToWin.value
  {
    match roundScoreRequiredToWin
    case None => DefaultRoundsToWin
    case Some(n) => n
  }

  /** The window StartPredict computes: a minute plus 15 seconds per player
      and round to win, kept between one minute and half an hour. */
  function PredictionWindow(playerCount: int, roundsToWin: int): (w: int)
    ensures MinWindowSeconds <= w <= MaxWindowSeconds
    ensures var raw := MinWindowSeconds + SecondsPerPlayerRound * playerCount * roundsToWin;
            (MinWindowSeconds <= raw <= MaxWindowSeconds ==> w == raw)
            && (raw > MaxWindowSeconds ==> w == MaxWindowSeconds)
            && (raw < MinWindowSeconds ==> w == MinWindowSeconds)
  {
    Clamp(MinWindowSeconds + SecondsPerPlayerRound * playerCount * roundsToWin, MinWindowSeconds, MaxWindowSeconds)
  }

  /** More players never shorten the window. */
  lemma PredictionWindowMonotonic(fewer: nat, more: nat, roundsToWin: nat)
    requires fewer <= more
    ensures PredictionWindow(fewer, roundsToWin) <= PredictionWindow(more, roundsToWin)
  {
    MulMonotonic(fewer, more, SecondsPerPlayerRound * roundsToWin);
    assert SecondsPerPlayerRound * fewer * roundsToWin == fewer * (SecondsPerPlayerRound * roundsToWin);
    assert SecondsPerPlayerRound * more * roundsToWin == more * (SecondsPerPlayerRound * roundsToWin);
  }

  lemma MulMonotonic(a: nat, b: nat, c: nat)
    requires a <= b
    ensures a * c <= b * c
  {
  }

  /** Two teams of two in a first-to-two match get three minutes; from 116
      player-rounds on, the window is capped at half an hour. */
  lemma PredictionWindowExamples(playerCount: nat, roundsToWin: nat)
    ensures PredictionWindow(4, 2) == 180
    ensures PredictionWindow(0, DefaultRoundsToWin) == MinWindowSeconds
    ensures playerCount * roundsToWin >= 116 ==> PredictionWindow(playerCount, roundsToWin) == MaxWindowSeconds
  {
    assert SecondsPerPlayerRound * playerCount * roundsToWin == SecondsPerPlayerRound * (playerCount * roundsToWin);
  }

  // ---------------------------------------------------------------- outcomes

  lemma NoMemberMeansEmpty(ids: set<int>)
    ensures (forall y :: y !in ids) ==> ids == {}
  {
    if forall y :: y !in ids {
      assert ids == {};
    }
  }

  /** Every finite, non-empty set of team ids has a smallest one. */
  lemma {:induction false} HasSmallest(ids: set<int>)
    requires ids != {}
    ensures exists m :: m in ids && forall x :: x in ids ==> m <= x
    decreases |ids|
  {
    NoMemberMeansEmpty(ids);
    var x :| x in ids;
    var rest := ids - {x};
    if rest == {} {
      forall y | y in ids ensures x <= y {
        assert y !in rest;
      }
    } else {
      HasSmallest(rest);
      var m :| m in rest && forall y :: y in rest ==> m <= y;
      var least := if x < m then x else m;
      forall y | y in ids ensures least <= y {
        if y != x {
          assert y in rest;
        }
      }
      assert least in ids;
    }
  }

  /** The smallest team id, the next one OrderBy(kvp => kvp.Key) yields. */
  function SmallestKey(ids: set<int>): (m: int)
    requires ids != {}
    ensures m in ids && forall x :: x in ids ==> m <= x
  {
    HasSmallest(ids);
    var m :| m in ids && forall x :: x in ids ==> m <= x;
    m
  }

  /** The title of a team's outcome: its players' names joined by ", ",
      trimmed. A list of at most 24 code units is the title unchanged; a
      longer one keeps its first 24 code units. */
  function OutcomeTitle(names: seq<string>): (r: Utf16)
    ensures |r| <= MaxOutcomeTitleLength + 1
    ensures |ToUtf16(Join(", ", names))| <= MaxOutcomeTitleLength ==> DecodeUtf16(r) == Some(Join(", ", names))
    ensures |ToUtf16(Join(", ", names))| > MaxOutcomeTitleLength ==>
              |r| == MaxOutcomeTitleLength + 1
              && r[..MaxOutcomeTitleLength] == ToUtf16(Join(", ", names))[..MaxOutcomeTitleLength]
  {
    Utf16RoundTrip(Join(", ", names));
    TrimOutcomeTitle(ToUtf16(Join(", ", names)))
  }

  /** teamsById.OrderBy(kvp => kvp.Key).Select(...): the teams from the
      smallest id up, each giving one outcome titled with its trimmed player
      list. */
  function OrderedOutcomes(teamsById: map<int, seq<string>>): (r: seq<PredictionRules.OutcomeSpec>)
    ensures |r| == |teamsById|
    decreases |teamsById|
  {
    if teamsById == map[] then []
    else
      var first := SmallestKey(teamsById.Keys);
      var rest := teamsById - {first};
      assert rest.Keys == teamsById.Keys - {first};
      [PredictionRules.OutcomeSpec(first, OutcomeTitle(teamsById[first]))] + OrderedOutcomes(rest)
  }

  /** Each outcome belongs to one of the teams and carries that team's
      trimmed player list as its title. */
  predicate TitledByTeam(teamsById: map<int, seq<string>>, outcomes: seq<PredictionRules.OutcomeSpec>)
  {
    forall i :: 0 <= i < |outcomes| ==>
      outcomes[i].teamId in teamsById && outcomes[i].title == OutcomeTitle(teamsById[outcomes[i].teamId])
  }

  predicate Ascending(outcomes: seq<PredictionRules.OutcomeSpec>)
  {
    forall i, j :: 0 <= i < j < |outcomes| ==> outcomes[i].teamId < outcomes[j].teamId
  }

  ghost predicate CoversTeams(teamsById: map<int, seq<string>>, outcomes: seq<PredictionRules.OutcomeSpec>)
  {
    forall t :: t in teamsById ==> exists i :: 0 <= i < |outcomes| && outcomes[i].teamId == t
  }

  lemma {:induction false} OrderedOutcomesTitles(teamsById: map<int, seq<string>>)
    ensures TitledByTeam(teamsById, OrderedOutcomes(teamsById))
    decreases |teamsById|
  {
    if teamsById != map[] {
      var first := SmallestKey(teamsById.Keys);
      var rest := teamsById - {first};
      assert rest.Keys == teamsById.Keys - {first};
      OrderedOutcomesTitles(rest);
      var tail := OrderedOutcomes(rest);
      var r := OrderedOutcomes(teamsById);
      assert r == [PredictionRules.OutcomeSpec(first, OutcomeTitle(teamsById[first]))] + tail;
      forall i | 0 <= i < |r|
        ensures r[i].teamId in teamsById && r[i].title == OutcomeTitle(teamsById[r[i].teamId])
      {
        if i > 0 {
          assert r[i] == tail[i - 1];
          assert rest[r[i].teamId] == teamsById[r[i].teamId];
        }
      }
    }
  }

  /** The outcomes come in strictly ascending team id, so no team appears
      twice, as the prediction client's team map needs. */
  lemma {:induction false} OrderedOutcomesAscending(teamsById: map<int, seq<string>>)
    ensures Ascending(OrderedOutcomes(teamsById))
    ensures PredictionRules.UniqueTeamIds(OrderedOutcomes(teamsById))
    decreases |teamsById|
  {
    if teamsById != map[] {
      var first := SmallestKey(teamsById.Keys);
      var rest := teamsById - {first};
      assert rest.Keys == teamsById.Keys - {first};
      OrderedOutcomesAscending(rest);
      OrderedOutcomesTitles(rest);
      var tail := OrderedOutcomes(rest);
      var r := OrderedOutcomes(teamsById);
      assert r == [PredictionRules.OutcomeSpec(first, OutcomeTitle(teamsById[first]))] + tail;
      forall i, j | 0 <= i < j < |r| ensures r[i].teamId < r[j].teamId {
        assert r[j] == tail[j - 1];
        assert r[j].teamId in rest;
        if i > 0 {
          assert r[i] == tail[i - 1];
        }
      }
    }
  }

  /** Every team gets an outcome. */
  lemma {:induction false} OrderedOutcomesCoverTeams(teamsById: map<int, seq<string>>)
    ensures CoversTeams(teamsById, OrderedOutcomes(teamsById))
    decreases |teamsById|
  {
    if teamsById != map[] {
      var first := SmallestKey(teamsById.Keys);
      var rest := teamsById - {first};
      assert rest.Keys == teamsById.Keys - {first};
      OrderedOutcomesCoverTeams(rest);
      var tail := OrderedOutcomes(rest);
      var r := OrderedOutcomes(teamsById);
      assert r == [PredictionRules.OutcomeSpec(first, OutcomeTitle(teamsById[first]))] + tail;
      forall t | t in teamsById ensures exists i :: 0 <= i < |r| && r[i].teamId == t {
        if t == first {
          assert r[0].teamId == t;
        } else {
          assert t in rest.Keys;
          var i :| 0 <= i < |tail| && tail[i].teamId == t;
          assert r[i + 1] == tail[i];
        }
      }
    }
  }

  /** teamsById.Values.Sum(x => x.Count). */
  function PlayerCount(teamsById: map<int, seq<string>>): (n: nat)
    ensures teamsById == map[] ==> n == 0
    decreases |teamsById|
  {
    if teamsById == map[] then 0
    else
      var first := SmallestKey(teamsById.Keys);
      var rest := teamsById - {first};
      assert rest.Keys == teamsById.Keys - {first};
      |teamsById[first]| + PlayerCount(rest)
  }

  /** The count does not depend on the order teams are visited in: taking any
      one team out subtracts exactly its players. */
  lemma {:induction false} PlayerCountRemove(teamsById: map<int, seq<string>>, t: int)
    requires t in teamsById
    ensures PlayerCount(teamsById) == |teamsById[t]| + PlayerCount(teamsById - {t})
    decreases |teamsById|
  {
    var first := SmallestKey(teamsById.Keys);
    var rest := teamsById - {first};
    assert rest.Keys == teamsById.Keys - {first};
    if t != first {
      var without := teamsById - {t};
      assert without.Keys == teamsById.Keys - {t};
      assert first in without;
      PlayerCountRemove(rest, t);
      PlayerCountRemove(without, first);
      assert rest - {t} == without - {first};
    }
  }

  /** The window StartPredict computes for these teams. */
  function WindowFor(teamsById: map<int, seq<string>>, roundScoreRequiredToWin: Option<int>): (w: int)
    ensures MinWindowSeconds <= w <= MaxWindowSeconds
  {
    PredictionWindow(PlayerCount(teamsById), RoundsToWin(roundScoreRequiredToWin))
  }

  // ---------------------------------------------------------------- the flag

  /** What the plugin asks of the prediction client. The window StartPredict
      computes travels with the create call; the client's own field decides
      the window actually sent. */
  datatype ClientCall =
    | CreatePrediction(outcomes: seq<PredictionRules.OutcomeSpec>, requestedWindow: int)
    | CancelPrediction
    | ResolvePrediction(teamId: int)

  /** The flag after a handler and the client call it issued, if any. */
  datatype Step = Step(started: bool, call: Option<ClientCall>)

  /** StartPredict. A second start while one is running issues nothing and
      keeps the flag; a non-affiliate account or fewer than two teams issue
      nothing and keep the flag clear; otherwise the create is issued and the
      flag set, whatever becomes of the create. */
  function StartPredictStep(started: bool, isAffiliateOrPartner: bool, teamsById: map<int, seq<string>>,
                            roundScoreRequiredToWin: Option<int>): (r: Step)
    ensures started ==> r == Step(true, None)
    ensures !started && (!isAffiliateOrPartner || |teamsById| < 2) ==> r == Step(false, None)
    ensures r.call.Some? <==> !started && isAffiliateOrPartner && |teamsById| >= 2
    ensures r.call.Some? ==>
              && r.started
              && r.call.value.CreatePrediction?
              && |r.call.value.outcomes| >= 2
              && r.call.value.outcomes == OrderedOutcomes(teamsById)
              && r.call.value.requestedWindow == WindowFor(teamsById, roundScoreRequiredToWin)
  {
    if started then Step(true, None)
    else if !isAffiliateOrPartner then Step(false, None)
    else
      var outcomes := OrderedOutcomes(teamsById);
      if |outcomes| < 2 then Step(false, None)
      else Step(true, Some(CreatePrediction(outcomes, WindowFor(teamsById, roundScoreRequiredToWin))))
  }

  /** CancelPredict: a cancel only when a prediction was started; the flag
      is clear afterwards either way. */
  function CancelPredictStep(started: bool): (r: Step)
    ensures !r.started
    ensures r.call.Some? <==> started
    ensures r.call.Some? ==> r.call.value == CancelPrediction
  {
    if started then Step(false, Some(CancelPrediction)) else Step(false, None)
  }

  /** SendResults: a resolve for the team every time, started or not, and the
      flag cleared. */
  function SendResultsStep(started: bool, teamId: int): (r: Step)
    ensures !r.started && r.call == Some(ResolvePrediction(teamId))
  {
    Step(false, Some(ResolvePrediction(teamId)))
  }

  /** OnApplicationQuit cancels a started prediction. */
  function ApplicationQuitStep(started: bool): (r: Step)
    ensures r == CancelPredictStep(started)
  {
    if started then CancelPredictStep(started) else Step(started, None)
  }

  /** Cancelling twice issues one cancel. */
  lemma CancelTwiceCancelsOnce(started: bool)
    ensures var first := CancelPredictStep(started);
            CancelPredictStep(first.started) == Step(false, None)
  {
  }

  // ---------------------------------------------------------------- sequences of handlers

  datatype Event =
    | StartPredictEvent(isAffiliateOrPartner: bool, teamsById: map<int, seq<string>>,
                        roundScoreRequiredToWin: Option<int>)
    | CancelPredictEvent
    | SendResultsEvent(teamId: int)
    | ApplicationQuitEvent

  function Handle(started: bool, e: Event): Step
  {
    match e
    case StartPredictEvent(affiliate, teams, rounds) => StartPredictStep(started, affiliate, teams, rounds)
    case CancelPredictEvent => CancelPredictStep(started)
    case SendResultsEvent(team) => SendResultsStep(started, team)
    case ApplicationQuitEvent => ApplicationQuitStep(started)
  }

  datatype Trace = Trace(started: bool, calls: seq<ClientCall>)

  /** The handlers run one after another: the final flag and every call
      issued, in order. */
  function RunEvents(started: bool, events: seq<Event>): (r: Trace)
    ensures |r.calls| <= |events|
    ensures events == [] ==> r == Trace(started, [])
    decreases |events|
  {
    if events == [] then Trace(started, [])
    else
      var before := RunEvents(started, events[..|events| - 1]);
      var step := Handle(before.started, events[|events| - 1]);
      Trace(step.started, before.calls + (if step.call.Some? then [step.call.value] else []))
  }

  /** From the initial clear flag, the flag is set exactly when the last call
      issued is a create. */
  lemma {:induction false} FlagMeansLastCallWasCreate(events: seq<Event>)
    ensures var t := RunEvents(false, events);
            t.started <==> |t.calls| > 0 && t.calls[|t.calls| - 1].CreatePrediction?
    decreases |events|
  {
    if events != [] {
      FlagMeansLastCallWasCreate(events[..|events| - 1]);
    }
  }

  /** From the initial clear flag, no create directly follows another create,
      and every cancel directly follows a create: only one prediction is
      started at a time and only a started one is cancelled. */
  lemma OnePredictionAtATime(events: seq<Event>)
    ensures var calls := RunEvents(false, events).calls;
            && (forall i :: 0 <= i < |calls| - 1 && calls[i].CreatePrediction? ==> !calls[i + 1].CreatePrediction?)
            && (forall i :: 0 <= i < |calls| && calls[i].CancelPrediction? ==> i > 0 && calls[i - 1].CreatePrediction?)
  {
    NoCreateAfterCreate(events);
    CancelFollowsCreate(events);
  }

  lemma {:induction false} NoCreateAfterCreate(events: seq<Event>)
    ensures var calls := RunEvents(false, events).calls;
            forall i :: 0 <= i < |calls| - 1 && calls[i].CreatePrediction? ==> !calls[i + 1].CreatePrediction?
    decreases |events|
  {
    if events != [] {
      var init := events[..|events| - 1];
      NoCreateAfterCreate(init);
      FlagMeansLastCallWasCreate(init);
    }
  }

  lemma {:induction false} CancelFollowsCreate(events: seq<Event>)
    ensures var calls := RunEvents(false, events).calls;
            forall i :: 0 <= i < |calls| && calls[i].CancelPrediction? ==> i > 0 && calls[i - 1].CreatePrediction?
    decreases |events|
  {
    if events != [] {
      var init := events[..|events| - 1];
      CancelFollowsCreate(init);
      FlagMeansLastCallWasCreate(init);
    }
  }
}
