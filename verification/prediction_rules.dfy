/** The prediction client (TwitchPredictionsClient) as a value and its
    transitions: the readiness guard run before every REST call, creating a
    prediction (POST /helix/predictions) and recording which outcome id
    belongs to which team, and ending it (PATCH /helix/predictions) as
    RESOLVED with a winning outcome or as CANCELED.

    Each coroutine is one atomic step, the HTTP reply is a parameter and
    `now` is whole seconds since the Unix epoch. The class
    Predictions.TwitchPredictionsClient performs these steps on its fields. */
module PredictionRules {
  import opened Wrappers
  import opened Text
  import OAuthRules

  /** The unconfigured broadcaster id, treated like a blank one. */
  const PlaceholderBroadcasterId: string := "REPLACE_WITH_BROADCASTER_ID"

  /** One option of a prediction as the caller asks for it. Titles are kept
      as the UTF-16 code units of the .NET string, which is what the client
      sends and compares. */
  datatype OutcomeSpec = OutcomeSpec(teamId: int, title: Utf16)

  datatype OutcomeRequest = OutcomeRequest(title: Utf16)

  /** Body of POST /helix/predictions. */
  datatype CreateRequest = CreateRequest(
    broadcasterId: string, title: string, outcomes: seq<OutcomeRequest>, predictionWindow: int)

  datatype EndStatus = Canceled | Resolved

  /** The status string the end call sends. */
  function StatusText(status: EndStatus): (r: string)
    ensures r == "CANCELED" <==> status == Canceled
    ensures r == "RESOLVED" <==> status == Resolved
  {
    match status
    case Canceled => "CANCELED"
    case Resolved => "RESOLVED"
  }

  /** Body of PATCH /helix/predictions; winning_outcome_id is null (None)
      for a cancellation, and also when the team's outcome id arrived null. */
  datatype EndRequest = EndRequest(
    broadcasterId: string, id: string, status: string, winningOutcomeId: Option<string>)

  /** An outcome of the created prediction as the response gives it; None
      stands for a null id or title. */
  datatype PredictionOutcome = PredictionOutcome(id: Option<string>, title: Option<Utf16>)

  /** The created prediction; a null id is "", since the client only ever
      tests it with IsNullOrWhiteSpace. */
  datatype Prediction = Prediction(id: string, outcomes: seq<PredictionOutcome>)

  /** Reply to the create call. On success, `first` is data.FirstOrDefault():
      None when the response, its data list or the list's first element is
      null, or the list is empty. */
  datatype CreateReply = CreateSucceeded(first: Option<Prediction>) | CreateFailed(responseCode: int, body: string)

  /** Reply to the end call. */
  datatype EndReply = EndSucceeded | EndFailed(responseCode: int)

  /** Why the readiness guard refused. */
  datatype NotReady = BroadcasterIdMissing | AccessTokenMissing | NotAffiliateOrPartner | AccessTokenExpired

  /** Every field of TwitchPredictionsClient that its coroutines read or
      write; the window and the title are fixed at construction. */
  datatype ClientState = ClientState(
    broadcasterId: string,
    predictionWindowSeconds: int,
    predictionTitle: string,
    currentPredictionId: string,
    outcomeIdByTeamId: map<int, Option<string>>)

  // ---------------------------------------------------------------- EnsureReady

  /** The local broadcaster id still has to be taken from the OAuth client. */
  predicate NeedsBroadcasterId(id: string)
    ensures |id| == 0 ==> NeedsBroadcasterId(id)
    ensures id == PlaceholderBroadcasterId ==> NeedsBroadcasterId(id)
    ensures !IsBlank(id) && id != PlaceholderBroadcasterId ==> !NeedsBroadcasterId(id)
  {
    IsBlank(id) || id == PlaceholderBroadcasterId
  }

  /** When the guard lets a call through: a broadcaster id is available, an
      access token is held, the account is affiliate/partner, and the token
      has not expired (an expiry still at MinValue is never checked). */
  ghost predicate Ready(localId: string, oauth: OAuthRules.Session, now: int)
  {
    && (!NeedsBroadcasterId(localId) || !IsBlank(oauth.broadcasterId))
    && !IsBlank(oauth.accessToken)
    && oauth.isAffiliateOrPartner
    && (oauth.accessTokenExpiresAt == OAuthRules.MinValue || now < oauth.accessTokenExpiresAt)
  }

  datatype Guard = Guard(broadcasterId: string, failure: Option<NotReady>)

  /** EnsureReady: the broadcaster id it leaves behind and why it refused,
      if it did. The OAuth client's id is adopted even when a later check
      fails. */
  function CheckReady(localId: string, oauth: OAuthRules.Session, now: int): (g: Guard)
    ensures g.failure.None? <==> Ready(localId, oauth, now)
    ensures NeedsBroadcasterId(localId) && !IsBlank(oauth.broadcasterId) ==> g.broadcasterId == oauth.broadcasterId
    ensures !(NeedsBroadcasterId(localId) && !IsBlank(oauth.broadcasterId)) ==> g.broadcasterId == localId
    ensures NeedsBroadcasterId(localId) && IsBlank(oauth.broadcasterId) ==> g.failure == Some(BroadcasterIdMissing)
    ensures g.failure.None? ==> !IsBlank(g.broadcasterId)
  {
    if NeedsBroadcasterId(localId) && IsBlank(oauth.broadcasterId) then
      Guard(localId, Some(BroadcasterIdMissing))
    else
      var id := if NeedsBroadcasterId(localId) then oauth.broadcasterId else localId;
      if IsBlank(oauth.accessToken) then Guard(id, Some(AccessTokenMissing))
      else if !oauth.isAffiliateOrPartner then Guard(id, Some(NotAffiliateOrPartner))
      else if oauth.accessTokenExpiresAt != OAuthRules.MinValue && now >= oauth.accessTokenExpiresAt then
        Guard(id, Some(AccessTokenExpired))
      else Guard(id, None)
  }

  /** Running the guard a second time, as resolving does, changes nothing
      and decides the same. */
  lemma CheckReadyIdempotent(localId: string, oauth: OAuthRules.Session, now: int)
    ensures CheckReady(CheckReady(localId, oauth, now).broadcasterId, oauth, now) == CheckReady(localId, oauth, now)
  {
  }

  // ---------------------------------------------------------------- create

  /** The outcome list of the request: one entry per spec, same order, same
      title. */
  function OutcomeRequests(specs: seq<OutcomeSpec>): (r: seq<OutcomeRequest>)
    ensures |r| == |specs|
    ensures forall i :: 0 <= i < |specs| ==> r[i].title == specs[i].title
  {
    seq(|specs|, i requires 0 <= i < |specs| => OutcomeRequest(specs[i].title))
  }

  /** FirstOrDefault(o => o.title == title), as an index (|outcomes| when
      no outcome has that title). */
  function FirstWithTitle(outcomes: seq<PredictionOutcome>, title: Utf16): (k: nat)
    ensures k <= |outcomes|
    ensures forall j :: 0 <= j < k ==> outcomes[j].title != Some(title)
    ensures k < |outcomes| ==> outcomes[k].title == Some(title)
  {
    if outcomes == [] then 0
    else if outcomes[0].title == Some(title) then 0
    else 1 + FirstWithTitle(outcomes[1..], title)
  }

  /** A null title matches no spec, since spec titles are never null. */
  ghost predicate HasTitle(outcomes: seq<PredictionOutcome>, title: Utf16)
  {
    exists j :: 0 <= j < |outcomes| && outcomes[j].title == Some(title)
  }

  /** The team map after the foreach over the specs: each spec whose title
      some response outcome carries maps its team to the first such
      outcome's id (null included); a later spec of the same team
      overwrites. */
  function OutcomeMap(specs: seq<OutcomeSpec>, outcomes: seq<PredictionOutcome>): (m: map<int, Option<string>>)
    ensures forall t :: t in m ==> exists i :: 0 <= i < |specs| && specs[i].teamId == t
    ensures forall t :: t in m ==> exists j :: 0 <= j < |outcomes| && m[t] == outcomes[j].id
    decreases |specs|
  {
    if specs == [] then map[]
    else
      var m := OutcomeMap(specs[..|specs| - 1], outcomes);
      var spec := specs[|specs| - 1];
      var k := FirstWithTitle(outcomes, spec.title);
      if k < |outcomes| then m[spec.teamId := outcomes[k].id] else m
  }

  predicate UniqueTeamIds(specs: seq<OutcomeSpec>)
  {
    forall i, j :: 0 <= i < j < |specs| ==> specs[i].teamId != specs[j].teamId
  }

  /** A team is in the map exactly when one of its specs has a title some
      response outcome carries; specs without a match are left out. */
  lemma {:induction false} OutcomeMapKeys(specs: seq<OutcomeSpec>, outcomes: seq<PredictionOutcome>)
    ensures forall t :: t in OutcomeMap(specs, outcomes) <==>
              exists i :: 0 <= i < |specs| && specs[i].teamId == t && HasTitle(outcomes, specs[i].title)
    decreases |specs|
  {
    if specs != [] {
      var init := specs[..|specs| - 1];
      var spec := specs[|specs| - 1];
      OutcomeMapKeys(init, outcomes);
      var k := FirstWithTitle(outcomes, spec.title);
      assert k < |outcomes| <==> HasTitle(outcomes, spec.title);
      forall t ensures t in OutcomeMap(specs, outcomes) <==>
                         exists i :: 0 <= i < |specs| && specs[i].teamId == t && HasTitle(outcomes, specs[i].title)
      {
        if exists i :: 0 <= i < |specs| && specs[i].teamId == t && HasTitle(outcomes, specs[i].title) {
          var i :| 0 <= i < |specs| && specs[i].teamId == t && HasTitle(outcomes, specs[i].title);
          if i < |init| {
            assert init[i] == specs[i];
          }
        }
        if exists i :: 0 <= i < |init| && init[i].teamId == t && HasTitle(outcomes, init[i].title) {
          var i :| 0 <= i < |init| && init[i].teamId == t && HasTitle(outcomes, init[i].title);
          assert specs[i] == init[i];
        }
      }
    }
  }

  /** With distinct teams, each matched spec's team maps to the id of the
      first response outcome whose title equals the spec's title. */
  lemma {:induction false} OutcomeMapValues(specs: seq<OutcomeSpec>, outcomes: seq<PredictionOutcome>)
    requires UniqueTeamIds(specs)
    ensures forall i :: 0 <= i < |specs| && FirstWithTitle(outcomes, specs[i].title) < |outcomes| ==>
              && specs[i].teamId in OutcomeMap(specs, outcomes)
              && OutcomeMap(specs, outcomes)[specs[i].teamId] == outcomes[FirstWithTitle(outcomes, specs[i].title)].id
    decreases |specs|
  {
    if specs != [] {
      var init := specs[..|specs| - 1];
      OutcomeMapValues(init, outcomes);
      forall i | 0 <= i < |specs| - 1 ensures specs[i] == init[i] { }
    }
  }

  datatype CreateResult = CreateResult(state: ClientState, request: Option<CreateRequest>)

  /** CreatePredictionCoroutine. A request goes out only when the guard
      passes and at least one outcome is given; it carries the outcomes'
      titles in order and the client's own window. Only a successful reply
      with data changes the prediction: its id becomes current and the team
      map is rebuilt from scratch, replacing any earlier prediction. */
  function CreateStep(p: ClientState, oauth: OAuthRules.Session, now: int, specs: seq<OutcomeSpec>, reply: CreateReply)
    : (r: CreateResult)
    ensures r.state.broadcasterId == CheckReady(p.broadcasterId, oauth, now).broadcasterId
    ensures r.state.predictionWindowSeconds == p.predictionWindowSeconds
    ensures r.state.predictionTitle == p.predictionTitle
    ensures r.request.Some? <==> Ready(p.broadcasterId, oauth, now) && |specs| > 0
    ensures r.request.Some? ==>
              && r.request.value.broadcasterId == r.state.broadcasterId
              && r.request.value.title == p.predictionTitle
              && r.request.value.predictionWindow == p.predictionWindowSeconds
              && |r.request.value.outcomes| == |specs|
              && (forall i :: 0 <= i < |specs| ==> r.request.value.outcomes[i].title == specs[i].title)
    ensures (r.request.None? || reply.CreateFailed? || reply.first.None?) ==>
              r.state.currentPredictionId == p.currentPredictionId && r.state.outcomeIdByTeamId == p.outcomeIdByTeamId
    ensures (r.request.Some? && reply.CreateSucceeded? && reply.first.Some?) ==>
              && r.state.currentPredictionId == reply.first.value.id
              && r.state.outcomeIdByTeamId == OutcomeMap(specs, reply.first.value.outcomes)
  {
    var g := CheckReady(p.broadcasterId, oauth, now);
    var p1 := p.(broadcasterId := g.broadcasterId);
    if g.failure.Some? || |specs| == 0 then
      CreateResult(p1, None)
    else
      var request := CreateRequest(p1.broadcasterId, p.predictionTitle, OutcomeRequests(specs), p.predictionWindowSeconds);
      match reply
      case CreateFailed(_, _) => CreateResult(p1, Some(request))
      case CreateSucceeded(first) =>
        if first.None? then CreateResult(p1, Some(request))
        else
          var prediction := first.value;
          var p2 := p1.(currentPredictionId := prediction.id,
                        outcomeIdByTeamId := OutcomeMap(specs, prediction.outcomes));
          CreateResult(p2, Some(request))
  }

  // ---------------------------------------------------------------- end, resolve, cancel

  datatype EndResult = EndResult(state: ClientState, request: Option<EndRequest>)

  /** EndPredictionCoroutine. A request goes out only when the guard passes
      and a prediction id is held; only a successful reply clears the id and
      the team map, a failed one leaves both as they were. */
  function EndStep(p: ClientState, oauth: OAuthRules.Session, now: int, status: EndStatus,
                   winningOutcomeId: Option<string>, reply: EndReply): (r: EndResult)
    ensures r.state.broadcasterId == CheckReady(p.broadcasterId, oauth, now).broadcasterId
    ensures r.state.predictionWindowSeconds == p.predictionWindowSeconds
    ensures r.state.predictionTitle == p.predictionTitle
    ensures r.request.Some? <==> Ready(p.broadcasterId, oauth, now) && !IsBlank(p.currentPredictionId)
    ensures r.request.Some? ==>
              r.request.value
              == EndRequest(r.state.broadcasterId, p.currentPredictionId, StatusText(status), winningOutcomeId)
    ensures (r.request.Some? && reply.EndSucceeded?) ==>
              r.state.currentPredictionId == "" && r.state.outcomeIdByTeamId == map[]
    ensures (r.request.None? || reply.EndFailed?) ==>
              r.state.currentPredictionId == p.currentPredictionId && r.state.outcomeIdByTeamId == p.outcomeIdByTeamId
  {
    var g := CheckReady(p.broadcasterId, oauth, now);
    var p1 := p.(broadcasterId := g.broadcasterId);
    if g.failure.Some? || IsBlank(p1.currentPredictionId) then
      EndResult(p1, None)
    else
      var request := EndRequest(p1.broadcasterId, p1.currentPredictionId, StatusText(status), winningOutcomeId);
      match reply
      case EndSucceeded => EndResult(p1.(currentPredictionId := "", outcomeIdByTeamId := map[]), Some(request))
      case EndFailed(_) => EndResult(p1, Some(request))
  }

  /** ResolvePredictionCoroutine: nothing is sent unless the guard passes, a
      prediction id is held and the winning team has an outcome id; then the
      prediction is ended as RESOLVED with that outcome id. */
  function ResolveStep(p: ClientState, oauth: OAuthRules.Session, now: int, winningTeamId: int, reply: EndReply)
    : (r: EndResult)
    ensures r.state.broadcasterId == CheckReady(p.broadcasterId, oauth, now).broadcasterId
    ensures r.state.predictionWindowSeconds == p.predictionWindowSeconds
    ensures r.state.predictionTitle == p.predictionTitle
    ensures r.request.Some? <==>
              Ready(p.broadcasterId, oauth, now) && !IsBlank(p.currentPredictionId)
              && winningTeamId in p.outcomeIdByTeamId
    ensures r.request.Some? ==>
              r.request.value
              == EndRequest(r.state.broadcasterId, p.currentPredictionId, "RESOLVED", p.outcomeIdByTeamId[winningTeamId])
    ensures (r.request.Some? && reply.EndSucceeded?) ==>
              r.state.currentPredictionId == "" && r.state.outcomeIdByTeamId == map[]
    ensures (r.request.None? || reply.EndFailed?) ==>
              r.state.currentPredictionId == p.currentPredictionId && r.state.outcomeIdByTeamId == p.outcomeIdByTeamId
  {
    var g := CheckReady(p.broadcasterId, oauth, now);
    var p1 := p.(broadcasterId := g.broadcasterId);
    if g.failure.Some? || IsBlank(p1.currentPredictionId) || winningTeamId !in p1.outcomeIdByTeamId then
      EndResult(p1, None)
    else
      CheckReadyIdempotent(p.broadcasterId, oauth, now);
      EndStep(p1, oauth, now, Resolved, p1.outcomeIdByTeamId[winningTeamId], reply)
  }

  /** CancelPrediction: the end call with status CANCELED and no winner. */
  function CancelStep(p: ClientState, oauth: OAuthRules.Session, now: int, reply: EndReply): (r: EndResult)
    ensures r.request.Some? ==> r.request.value.status == "CANCELED" && r.request.value.winningOutcomeId.None?
  {
    EndStep(p, oauth, now, Canceled, None, reply)
  }

  // ---------------------------------------------------------------- across calls

  /** A successful create followed by resolving one of its teams: the end
      request names the created prediction and the id of the first response
      outcome carrying that team's title, and a successful reply leaves the
      client with no prediction. */
  lemma CreateThenResolve(
    p: ClientState, oauth: OAuthRules.Session, now: int, specs: seq<OutcomeSpec>,
    prediction: Prediction, i: nat, later: int, reply: EndReply)
    requires Ready(p.broadcasterId, oauth, now) && UniqueTeamIds(specs)
    requires !IsBlank(prediction.id)
    requires i < |specs| && HasTitle(prediction.outcomes, specs[i].title)
    requires Ready(CreateStep(p, oauth, now, specs, CreateSucceeded(Some(prediction))).state.broadcasterId, oauth, later)
    ensures var created := CreateStep(p, oauth, now, specs, CreateSucceeded(Some(prediction))).state;
            var resolved := ResolveStep(created, oauth, later, specs[i].teamId, reply);
            && resolved.request
               == Some(EndRequest(created.broadcasterId, prediction.id, "RESOLVED",
                                  prediction.outcomes[FirstWithTitle(prediction.outcomes, specs[i].title)].id))
            && (reply.EndSucceeded? ==> resolved.state.currentPredictionId == "" && resolved.state.outcomeIdByTeamId == map[])
  {
    var created := CreateStep(p, oauth, now, specs, CreateSucceeded(Some(prediction))).state;
    OutcomeMapValues(specs, prediction.outcomes);
    var k := FirstWithTitle(prediction.outcomes, specs[i].title);
    assert k < |prediction.outcomes|;
    CheckReadyIdempotent(created.broadcasterId, oauth, later);
  }

  /** Once an end call has succeeded, a further cancel or resolve sends
      nothing: cancelling twice ends the prediction once. */
  lemma EndIsFinal(p: ClientState, oauth: OAuthRules.Session, now: int, status: EndStatus,
                   winningOutcomeId: Option<string>, later: int, reply: EndReply)
    requires EndStep(p, oauth, now, status, winningOutcomeId, EndSucceeded).request.Some?
    ensures var ended := EndStep(p, oauth, now, status, winningOutcomeId, EndSucceeded).state;
            && CancelStep(ended, oauth, later, reply).request.None?
            && (forall team :: ResolveStep(ended, oauth, later, team, reply).request.None?)
  {
    var ended := EndStep(p, oauth, now, status, winningOutcomeId, EndSucceeded).state;
    assert IsBlank(ended.currentPredictionId);
  }

  /** After a failed end call the prediction is still held, so the same call
      can be retried while the guard passes. */
  lemma FailedEndCanBeRetried(p: ClientState, oauth: OAuthRules.Session, now: int, status: EndStatus,
                              winningOutcomeId: Option<string>, code: int)
    requires EndStep(p, oauth, now, status, winningOutcomeId, EndFailed(code)).request.Some?
    ensures var kept := EndStep(p, oauth, now, status, winningOutcomeId, EndFailed(code));
            EndStep(kept.state, oauth, now, status, winningOutcomeId, EndFailed(code)) == kept
  {
    CheckReadyIdempotent(p.broadcasterId, oauth, now);
  }
}
