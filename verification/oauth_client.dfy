/** TwitchOAuthClient: the credential holder whose coroutines update its
    fields in place. Each method is one coroutine (or one continuation of
    one) run to its next suspension point as a single step; its contract
    ties the new field values to the transition of the same name in
    OAuthRules, where the properties of the handshake and of the refresh
    loop are proved. */
module OAuth {
  import opened Wrappers
  import opened Text
  import opened OAuthRules
  import BroadcasterTypeRegex

  class TwitchOAuthClient {
    var accessToken: string
    var refreshToken: string
    var accessTokenExpiresAt: int
    var broadcasterId: string
    var broadcasterType: string
    var isAffiliateOrPartner: bool
    var refreshInProgress: bool
    var oauthStarted: bool

    /** The fields as one value. */
    function State(): Session
      reads this
    {
      Session(accessToken, refreshToken, accessTokenExpiresAt, broadcasterId, broadcasterType,
              isAffiliateOrPartner, refreshInProgress, oauthStarted)
    }

    constructor ()
      ensures State() == Initial
    {
      accessToken, refreshToken := "", "";
      accessTokenExpiresAt := MinValue;
      broadcasterId, broadcasterType := "", "";
      isAffiliateOrPartner, refreshInProgress, oauthStarted := false, false, false;
    }

    /** StartOAuth; the result is the form RequestDeviceCode posts, if it
        was started. */
    method StartOAuth() returns (deviceCodeRequest: Option<Form>)
      modifies this
      ensures StartStep(State(), deviceCodeRequest) == StartOAuthStep(old(State()))
    {
      if oauthStarted {
        return None;
      }
      oauthStarted := true;
      deviceCodeRequest := Some(DeviceCodeForm());
    }

    /** The continuation of RequestDeviceCode: on success the verification
        page is opened and OAuthWatchdog starts with the device code and
        the polling interval of the reply; on failure, or when the body
        cannot be read, nothing happens, and in particular oauthStarted
        stays set. No field changes. */
    method CompleteDeviceCodeRequest(reply: DeviceCodeReply) returns (openUrl: Option<string>, watchdog: Option<PollJob>)
      ensures watchdog.Some? <==> reply.DeviceCodeIssued?
      ensures openUrl.Some? <==> reply.DeviceCodeIssued?
      ensures reply.DeviceCodeIssued? ==>
                && openUrl.value == reply.response.verificationUri
                && watchdog.value == PollJob(reply.response.interval, reply.response.deviceCode)
    {
      match reply
      case DeviceCodeIssued(response) =>
        openUrl := Some(response.verificationUri);
        watchdog := Some(PollJob(response.interval, response.deviceCode));
      case DeviceCodeUnreadable(_) =>
        openUrl, watchdog := None, None;
      case DeviceCodeFailed(_) =>
        openUrl, watchdog := None, None;
    }

    /** One iteration of OAuthWatchdog: the token request with the
        device_code grant and what its reply does to the fields. */
    method Poll(reply: TokenReply, now: int, interval: int) returns (next: PollNext)
      modifies this
      ensures PollResult(State(), next) == PollStep(old(State()), reply, now, interval)
    {
      if reply.TokenGranted? {
        accessToken := reply.token.accessToken;
        refreshToken := reply.token.refreshToken;
        accessTokenExpiresAt := now + reply.token.expiresIn;
        return Authorized;
      }
      if reply.parsed.NotJson? {
        return Crashed;
      }
      var errorCode := PollErrorCode(reply.body, reply.parsed);
      if errorCode == AuthorizationPending {
        next := PollAgain(interval);
      } else if errorCode == AccessDenied || errorCode == ExpiredToken {
        oauthStarted := false;
        next := Stopped(errorCode);
      } else {
        next := PollAgain(interval);
      }
    }

    /** OAuthWatchdog over a script of replies: posts the device_code grant
        until a reply ends polling or the script is used up. The result is
        every form posted, in order. */
    method Watchdog(job: PollJob, ticks: seq<PollTick>) returns (requests: seq<Form>, last: PollNext)
      modifies this
      ensures PollRun(State(), |requests|, last) == RunPoll(old(State()), ticks, job.intervalSeconds)
      ensures forall i :: 0 <= i < |requests| ==> requests[i] == PollForm(job.deviceCode)
    {
      var interval := job.intervalSeconds;
      var sent := 0;
      requests := [];
      last := PollAgain(interval);
      while sent < |ticks| && last.PollAgain?
        invariant sent <= |ticks| && |requests| == sent
        invariant forall i :: 0 <= i < sent ==> requests[i] == PollForm(job.deviceCode)
        invariant last.PollAgain? ==>
                    last == PollAgain(interval)
                    && RunPoll(old(State()), ticks, interval) == Resume(State(), ticks[sent..], interval, sent)
        invariant !last.PollAgain? ==> RunPoll(old(State()), ticks, interval) == PollRun(State(), sent, last)
        decreases |ticks| - sent
      {
        ghost var before := State();
        var tick := ticks[sent];
        assert ticks[sent..][0] == tick && ticks[sent..][1..] == ticks[sent + 1..];
        ResumeStep(before, ticks[sent..], interval, sent);
        requests := requests + [PollForm(job.deviceCode)];
        last := Poll(tick.reply, tick.now, interval);
        sent := sent + 1;
      }
      assert last.PollAgain? ==> ticks[sent..] == [];
    }

    /** RefreshAccessToken, from setting refreshInProgress to its finally
        block; the results are the form posted and whether
        ValidateTokenAndStoreUser is started. */
    method RefreshAccessToken(reply: TokenReply, now: int) returns (request: Form, startsValidation: bool)
      modifies this
      ensures RefreshResult(State(), request, startsValidation) == RefreshStep(old(State()), reply, now)
    {
      refreshInProgress := true;
      request := RefreshForm(refreshToken);
      startsValidation := false;
      if reply.TokenGranted? {
        accessToken := reply.token.accessToken;
        refreshToken := reply.token.refreshToken;
        accessTokenExpiresAt := now + reply.token.expiresIn;
        startsValidation := IsBlank(broadcasterId);
      }
      refreshInProgress := false;
    }

    /** One iteration of RefreshTokenLoop: the expiry check, a refresh when
        one is due and allowed, and the wait that follows. */
    method RefreshLoopTick(tick: RefreshTick)
      returns (refreshRequest: Option<Form>, startsValidation: bool, waitSeconds: int)
      modifies this
      ensures LoopStep(State(), refreshRequest, startsValidation, waitSeconds) == RefreshLoopStep(old(State()), tick)
    {
      refreshRequest, startsValidation := None, false;
      if IsBlank(refreshToken) {
        waitSeconds := NoRefreshTokenWait;
        return;
      }
      var secondsUntilExpiry := accessTokenExpiresAt - tick.now;
      if secondsUntilExpiry <= RefreshMargin {
        if tick.predictionActive {
          waitSeconds := DeferredRefreshWait;
          return;
        }
        if !refreshInProgress {
          var request;
          request, startsValidation := RefreshAccessToken(tick.reply, tick.replyNow);
          refreshRequest := Some(request);
        }
      }
      waitSeconds := Max(MinRefreshWait, secondsUntilExpiry - RefreshMargin);
    }

    /** RefreshTokenLoop over a script of wake-ups. */
    method RefreshTokenLoop(ticks: seq<RefreshTick>)
      modifies this
      ensures State() == RunRefresh(old(State()), ticks)
    {
      for i := 0 to |ticks|
        invariant State() == RunRefresh(old(State()), ticks[..i])
      {
        assert ticks[..i + 1][..i] == ticks[..i];
        var _, _, _ := RefreshLoopTick(ticks[i]);
      }
      assert ticks[..|ticks|] == ticks;
    }

    /** The continuation of ValidateTokenAndStoreUser; the result is the id
        FetchBroadcasterType is started for, if any. */
    method ValidateTokenAndStoreUser(reply: ValidateReply) returns (fetchTypeFor: Option<string>)
      modifies this
      ensures ValidateResult(State(), fetchTypeFor) == ValidateStep(old(State()), reply)
    {
      fetchTypeFor := None;
      if reply.Validated? && !IsBlank(reply.userId) {
        broadcasterId := reply.userId;
        fetchTypeFor := Some(broadcasterId);
      }
    }

    /** The continuation of FetchBroadcasterType. */
    method FetchBroadcasterType(reply: UsersReply)
      modifies this
      ensures State() == FetchTypeStep(old(State()), reply)
    {
      if reply.UsersFound? {
        broadcasterType := BroadcasterTypeRegex.ParseErrorSentinel;
        if !IsBlank(reply.body) {
          var capture := BroadcasterTypeRegex.Capture(reply.body);
          if capture.Some? {
            broadcasterType := capture.value;
          }
        }
        assert broadcasterType == BroadcasterTypeRegex.BroadcasterTypeOf(reply.body);
        isAffiliateOrPartner := broadcasterType != "";
      }
    }
  }
}
