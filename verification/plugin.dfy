/** Plugin: the game-side entry points. The static IsPredictionStarted flag
    and PredictionsClient are the fields of one Plugin object; each handler
    flips the flag as PluginRules says and issues its call to the prediction
    client, whose coroutine runs as one step with its reply and clock given
    as parameters. */
module PluginHost {
  import opened Wrappers
  import opened PluginRules
  import PredictionRules
  import OAuth
  import Predictions

  class Plugin {
    var isPredictionStarted: bool
    const predictionsClient: Predictions.TwitchPredictionsClient

    /** Awake: the prediction client is built over the shared OAuth client
        with no broadcaster id, a 120-second window and the fixed title; no
        prediction is started. */
    constructor (oauthClient: OAuth.TwitchOAuthClient)
      ensures !isPredictionStarted
      ensures fresh(predictionsClient)
      ensures predictionsClient.oauthClient == oauthClient
      ensures predictionsClient.State()
              == PredictionRules.ClientState("", ConfiguredWindowSeconds, PredictionTitle, "", map[])
    {
      isPredictionStarted := false;
      predictionsClient := new Predictions.TwitchPredictionsClient(oauthClient, "", ConfiguredWindowSeconds, PredictionTitle);
    }

    /** StartPredict for the teams of a match; `roundScoreRequiredToWin` is
        None when there is no score manager. Returns the call issued to the
        client and the create request the client sent, if any. */
    method StartPredict(teamsById: map<int, seq<string>>, roundScoreRequiredToWin: Option<int>,
                        now: int, reply: PredictionRules.CreateReply)
      returns (call: Option<ClientCall>, request: Option<PredictionRules.CreateRequest>)
      modifies this, predictionsClient
      ensures Step(isPredictionStarted, call)
              == StartPredictStep(old(isPredictionStarted), predictionsClient.oauthClient.isAffiliateOrPartner,
                                  teamsById, roundScoreRequiredToWin)
      ensures call.Some? ==>
                PredictionRules.CreateResult(predictionsClient.State(), request)
                == PredictionRules.CreateStep(old(predictionsClient.State()), predictionsClient.oauthClient.State(),
                                              now, call.value.outcomes, reply)
      ensures request.Some? ==> request.value.predictionWindow == predictionsClient.predictionWindowSeconds
      ensures call.None? ==> request.None? && predictionsClient.State() == old(predictionsClient.State())
    {
      call, request := None, None;
      if isPredictionStarted {
        return;
      }
      if !predictionsClient.oauthClient.isAffiliateOrPartner {
        return;
      }
      var orderedOutcomes := OrderedOutcomes(teamsById);
      if |orderedOutcomes| < 2 {
        return;
      }
      var predictionWindowSeconds := WindowFor(teamsById, roundScoreRequiredToWin);
      call := Some(CreatePrediction(orderedOutcomes, predictionWindowSeconds));
      request := predictionsClient.CreatePrediction(orderedOutcomes, now, reply);
      isPredictionStarted := true;
    }

    /** CancelPredict: returns the call issued and the end request sent. */
    method CancelPredict(now: int, reply: PredictionRules.EndReply)
      returns (call: Option<ClientCall>, request: Option<PredictionRules.EndRequest>)
      modifies this, predictionsClient
      ensures Step(isPredictionStarted, call) == CancelPredictStep(old(isPredictionStarted))
      ensures call.Some? ==>
                PredictionRules.EndResult(predictionsClient.State(), request)
                == PredictionRules.CancelStep(old(predictionsClient.State()), predictionsClient.oauthClient.State(), now, reply)
      ensures call.None? ==> request.None? && predictionsClient.State() == old(predictionsClient.State())
    {
      call, request := None, None;
      if isPredictionStarted {
        call := Some(CancelPrediction);
        request := predictionsClient.CancelPrediction(now, reply);
        isPredictionStarted := false;
      }
    }

    /** SendResults for the winning team (the winners' names are only
        logged): returns the call issued and the end request sent. */
    method SendResults(teamId: int, now: int, reply: PredictionRules.EndReply)
      returns (call: Option<ClientCall>, request: Option<PredictionRules.EndRequest>)
      modifies this, predictionsClient
      ensures Step(isPredictionStarted, call) == SendResultsStep(old(isPredictionStarted), teamId)
      ensures PredictionRules.EndResult(predictionsClient.State(), request)
              == PredictionRules.ResolveStep(old(predictionsClient.State()), predictionsClient.oauthClient.State(),
                                             now, teamId, reply)
    {
      call := Some(ResolvePrediction(teamId));
      request := predictionsClient.ResolvePrediction(teamId, now, reply);
      isPredictionStarted := false;
    }

    /** OnApplicationQuit: cancels a started prediction. */
    method OnApplicationQuit(now: int, reply: PredictionRules.EndReply)
      returns (call: Option<ClientCall>, request: Option<PredictionRules.EndRequest>)
      modifies this, predictionsClient
      ensures Step(isPredictionStarted, call) == ApplicationQuitStep(old(isPredictionStarted))
      ensures call.Some? ==>
                PredictionRules.EndResult(predictionsClient.State(), request)
                == PredictionRules.CancelStep(old(predictionsClient.State()), predictionsClient.oauthClient.State(), now, reply)
      ensures call.None? ==> request.None? && predictionsClient.State() == old(predictionsClient.State())
    {
      call, request := None, None;
      if isPredictionStarted {
        call, request := CancelPredict(now, reply);
      }
    }
  }
}
