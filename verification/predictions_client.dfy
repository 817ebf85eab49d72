/** TwitchPredictionsClient: the object that creates, resolves and cancels
    predictions, updating its broadcaster id, current prediction id and team
    map in place. Each method is one coroutine run as a single step, with the
    HTTP reply and the clock as parameters; its contract ties the new fields
    and the request it sends to the transition of the same name in
    PredictionRules. */
module Predictions {
  import opened Wrappers
  import opened Text
  import opened PredictionRules
  import OAuth

  class TwitchPredictionsClient {
    const oauthClient: OAuth.TwitchOAuthClient
    var broadcasterId: string
    const predictionWindowSeconds: int
    const predictionTitle: string
    var currentPredictionId: string
    var outcomeIdByTeamId: map<int, Option<string>>

    /** The fields as one value. */
    function State(): ClientState
      reads this
    {
      ClientState(broadcasterId, predictionWindowSeconds, predictionTitle, currentPredictionId, outcomeIdByTeamId)
    }

    constructor (oauthClient: OAuth.TwitchOAuthClient, broadcasterId: string, predictionWindowSeconds: int,
                 predictionTitle: string)
      ensures this.oauthClient == oauthClient
      ensures State() == ClientState(broadcasterId, predictionWindowSeconds, predictionTitle, "", map[])
    {
      this.oauthClient := oauthClient;
      this.broadcasterId := broadcasterId;
      this.predictionWindowSeconds := predictionWindowSeconds;
      this.predictionTitle := predictionTitle;
      currentPredictionId := "";
      outcomeIdByTeamId := map[];
    }

    /** EnsureReady: None when the call may go ahead, else the reason it may
        not; a missing broadcaster id is taken from the OAuth client. */
    method EnsureReady(now: int) returns (failure: Option<NotReady>)
      modifies this`broadcasterId
      ensures Guard(broadcasterId, failure) == CheckReady(old(broadcasterId), oauthClient.State(), now)
    {
      if IsBlank(broadcasterId) || broadcasterId == PlaceholderBroadcasterId {
        if !IsBlank(oauthClient.broadcasterId) {
          broadcasterId := oauthClient.broadcasterId;
        } else {
          return Some(BroadcasterIdMissing);
        }
      }
      if IsBlank(oauthClient.accessToken) {
        return Some(AccessTokenMissing);
      }
      if !oauthClient.isAffiliateOrPartner {
        return Some(NotAffiliateOrPartner);
      }
      if oauthClient.accessTokenExpiresAt != OAuthRules.MinValue && now >= oauthClient.accessTokenExpiresAt {
        return Some(AccessTokenExpired);
      }
      failure := None;
    }

    /** CreatePredictionCoroutine; the result is the POST body sent, if any. */
    method CreatePrediction(outcomes: seq<OutcomeSpec>, now: int, reply: CreateReply)
      returns (request: Option<CreateRequest>)
      modifies this
      ensures CreateResult(State(), request) == CreateStep(old(State()), oauthClient.State(), now, outcomes, reply)
    {
      var failure := EnsureReady(now);
      if failure.Some? || |outcomes| == 0 {
        return None;
      }
      request := Some(CreateRequest(broadcasterId, predictionTitle, OutcomeRequests(outcomes), predictionWindowSeconds));
      if reply.CreateFailed? || reply.first.None? {
        return;
      }
      var prediction := reply.first.value;
      currentPredictionId := prediction.id;
      outcomeIdByTeamId := map[];
      ghost var filling := State();
      for i := 0 to |outcomes|
        invariant State() == filling.(outcomeIdByTeamId := OutcomeMap(outcomes[..i], prediction.outcomes))
      {
        assert outcomes[..i + 1][..i] == outcomes[..i];
        var spec := outcomes[i];
        var k := FirstWithTitle(prediction.outcomes, spec.title);
        if k < |prediction.outcomes| {
          outcomeIdByTeamId := outcomeIdByTeamId[spec.teamId := prediction.outcomes[k].id];
        }
      }
      assert outcomes[..|outcomes|] == outcomes;
    }

    /** ResolvePredictionCoroutine; the result is the PATCH body sent, if
        any. */
    method ResolvePrediction(winningTeamId: int, now: int, reply: EndReply) returns (request: Option<EndRequest>)
      modifies this
      ensures EndResult(State(), request) == ResolveStep(old(State()), oauthClient.State(), now, winningTeamId, reply)
    {
      var failure := EnsureReady(now);
      if failure.Some? || IsBlank(currentPredictionId) || winningTeamId !in outcomeIdByTeamId {
        return None;
      }
      request := EndPrediction(Resolved, outcomeIdByTeamId[winningTeamId], now, reply);
    }

    /** CancelPrediction: the end call with CANCELED and no winner. */
    method CancelPrediction(now: int, reply: EndReply) returns (request: Option<EndRequest>)
      modifies this
      ensures EndResult(State(), request) == CancelStep(old(State()), oauthClient.State(), now, reply)
    {
      request := EndPrediction(Canceled, None, now, reply);
    }

    /** EndPredictionCoroutine; the result is the PATCH body sent, if any. */
    method EndPrediction(status: EndStatus, winningOutcomeId: Option<string>, now: int, reply: EndReply)
      returns (request: Option<EndRequest>)
      modifies this
      ensures EndResult(State(), request)
              == EndStep(old(State()), oauthClient.State(), now, status, winningOutcomeId, reply)
    {
      var failure := EnsureReady(now);
      if failure.Some? || IsBlank(currentPredictionId) {
        return None;
      }
      request := Some(EndRequest(broadcasterId, currentPredictionId, StatusText(status), winningOutcomeId));
      if reply.EndSucceeded? {
        currentPredictionId := "";
        outcomeIdByTeamId := map[];
      }
    }
  }
}
