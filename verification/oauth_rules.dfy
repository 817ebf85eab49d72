/** The credential holder of the mod (TwitchOAuthClient) as a value and its
    transitions: the OAuth 2.0 device authorization grant of RFC 8628
    (device-code request, section 3.1; polling the token endpoint with the
    device_code grant, section 3.4; the error codes authorization_pending,
    access_denied and expired_token, section 3.5), the refresh-token grant of
    section 6 of RFC 6749 driven by a refresh loop with a 1800 s safety
    margin, and the validate / users lookups that decide whether the account
    may run predictions.

    Every coroutine continuation is one atomic step; HTTP replies are
    parameters, already deserialised; the forms posted to the device and
    token endpoints are returned as values; time is whole seconds since the Unix
    epoch, given as a parameter `now`. The class OAuth.TwitchOAuthClient
    performs these steps on its fields and is specified by them. */
module OAuthRules {
  import opened Wrappers
  import opened Text
  import BroadcasterTypeRegex

  const ClientId: string := "t1tug446aluj8yvplzs9n0mhw3xo5n"
  const Scopes: string := "channel:read:predictions channel:manage:predictions"
  const DeviceCodeGrantType: string := "urn:ietf:params:oauth:grant-type:device_code"
  const RefreshTokenGrantType: string := "refresh_token"

  const AuthorizationPending: string := "authorization_pending"
  const AccessDenied: string := "access_denied"
  const ExpiredToken: string := "expired_token"

  /** Refresh once the access token has at most this many seconds left. */
  const RefreshMargin: int := 1800
  /** Wait of the refresh loop while no refresh token is held. */
  const NoRefreshTokenWait: int := 10
  /** Wait of the refresh loop while a refresh is deferred for a prediction. */
  const DeferredRefreshWait: int := 30
  /** Shortest regular wait of the refresh loop. */
  const MinRefreshWait: int := 30

  /** DateTimeOffset.MinValue (0001-01-01T00:00:00Z) in Unix seconds: the
      expiry held before any token was obtained. */
  const MinValue: int := -62135596800

  datatype DeviceCodeResponse = DeviceCodeResponse(
    deviceCode: string, userCode: string, verificationUri: string, expiresIn: int, interval: int)

  /** Reply to POST /oauth2/device. DeviceCodeUnreadable is a successful
      reply whose body is not JSON (deserialising throws) or is empty
      (deserialises to null, and reading verification_uri throws): either
      way the coroutine ends there. */
  datatype DeviceCodeReply =
    | DeviceCodeIssued(response: DeviceCodeResponse)
    | DeviceCodeUnreadable(body: string)
    | DeviceCodeFailed(error: string)

  datatype TokenResponse = TokenResponse(accessToken: string, expiresIn: int, refreshToken: string)

  /** What deserialising an error body into {error, message} gives: no object
      (an empty body), an object, or an exception (a body that is not JSON). */
  datatype ErrorBody = NoObject | ErrorObject(error: string, message: string) | NotJson

  /** Reply to POST /oauth2/token, for either grant. */
  datatype TokenReply = TokenGranted(token: TokenResponse) | TokenRefused(body: string, parsed: ErrorBody)

  /** Reply to GET /oauth2/validate; a missing response or user_id is "". */
  datatype ValidateReply = Validated(userId: string) | ValidateFailed(responseCode: int)

  /** Reply to GET /helix/users, with the raw body text. */
  datatype UsersReply = UsersFound(body: string) | UsersFailed(responseCode: int)

  /** Every field of TwitchOAuthClient that its coroutines read or write. */
  datatype Session = Session(
    accessToken: string,
    refreshToken: string,
    accessTokenExpiresAt: int,
    broadcasterId: string,
    broadcasterType: string,
    isAffiliateOrPartner: bool,
    refreshInProgress: bool,
    oauthStarted: bool)

  /** The state of a freshly constructed client. */
  const Initial: Session := Session("", "", MinValue, "", "", false, false, false)

  /** The three token fields as a token exchange overwrites them. */
  function StoreToken(s: Session, t: TokenResponse, now: int): (r: Session)
    ensures r.accessToken == t.accessToken && r.refreshToken == t.refreshToken
    ensures r.accessTokenExpiresAt == now + t.expiresIn
    ensures r.(accessToken := s.accessToken, refreshToken := s.refreshToken, accessTokenExpiresAt := s.accessTokenExpiresAt) == s
  {
    s.(accessToken := t.accessToken, refreshToken := t.refreshToken, accessTokenExpiresAt := now + t.expiresIn)
  }

  predicate SameTokens(a: Session, b: Session)
  {
    a.accessToken == b.accessToken && a.refreshToken == b.refreshToken
    && a.accessTokenExpiresAt == b.accessTokenExpiresAt
  }

  function Max(a: int, b: int): int { if a < b then b else a }

  // ---------------------------------------------------------------- forms

  /** One field of a URL-encoded form, in the order WWWForm.AddField adds
      it. */
  datatype FormField = FormField(name: string, value: string)

  type Form = seq<FormField>

  /** The value of the first field with that name, if any. */
  function FieldValue(form: Form, name: string): (v: Option<string>)
    ensures v.None? <==> forall i :: 0 <= i < |form| ==> form[i].name != name
    ensures v.Some? ==> exists i :: 0 <= i < |form| && form[i] == FormField(name, v.value)
                                   && forall j :: 0 <= j < i ==> form[j].name != name
  {
    if form == [] then None
    else if form[0].name == name then Some(form[0].value)
    else FieldValue(form[1..], name)
  }

  /** The body of POST /oauth2/device: the client id and the two
      prediction scopes. */
  function DeviceCodeForm(): (f: Form)
    ensures |f| == 2
    ensures FieldValue(f, "client_id") == Some(ClientId)
    ensures FieldValue(f, "scopes") == Some(Scopes)
  {
    [FormField("client_id", ClientId), FormField("scopes", Scopes)]
  }

  /** The body of each poll of POST /oauth2/token: the device_code grant
      for the code the device-code reply issued. */
  function PollForm(deviceCode: string): (f: Form)
    ensures |f| == 3
    ensures FieldValue(f, "client_id") == Some(ClientId)
    ensures FieldValue(f, "device_code") == Some(deviceCode)
    ensures FieldValue(f, "grant_type") == Some(DeviceCodeGrantType)
  {
    var f := [FormField("client_id", ClientId), FormField("device_code", deviceCode),
              FormField("grant_type", DeviceCodeGrantType)];
    assert FieldValue(f[1..], "grant_type") == FieldValue(f[2..], "grant_type");
    f
  }

  /** The body of a refresh of POST /oauth2/token: the refresh_token grant
      for the refresh token held when the refresh starts. */
  function RefreshForm(refreshToken: string): (f: Form)
    ensures |f| == 3
    ensures FieldValue(f, "client_id") == Some(ClientId)
    ensures FieldValue(f, "grant_type") == Some(RefreshTokenGrantType)
    ensures FieldValue(f, "refresh_token") == Some(refreshToken)
  {
    var f := [FormField("client_id", ClientId), FormField("grant_type", RefreshTokenGrantType),
              FormField("refresh_token", refreshToken)];
    assert FieldValue(f[1..], "refresh_token") == FieldValue(f[2..], "refresh_token");
    f
  }

  // ---------------------------------------------------------------- StartOAuth

  datatype StartStep = StartStep(session: Session, deviceCodeRequest: Option<Form>)

  /** StartOAuth: the device-code form is posted only when no handshake is
      under way; afterwards a handshake is always marked as under way. */
  function StartOAuthStep(s: Session): (r: StartStep)
    ensures r.deviceCodeRequest.Some? <==> !s.oauthStarted
    ensures r.deviceCodeRequest.Some? ==> r.deviceCodeRequest.value == DeviceCodeForm()
    ensures r.session == s.(oauthStarted := true)
  {
    if s.oauthStarted then StartStep(s, None)
    else StartStep(s.(oauthStarted := true), Some(DeviceCodeForm()))
  }

  /** Calling StartOAuth again while a handshake is under way sends nothing
      and changes nothing. */
  lemma StartOAuthIdempotent(s: Session)
    ensures var first := StartOAuthStep(s);
            var second := StartOAuthStep(first.session);
            second.deviceCodeRequest.None? && second.session == first.session
  {
  }

  datatype PollJob = PollJob(intervalSeconds: int, deviceCode: string)

  // ---------------------------------------------------------------- OAuthWatchdog

  /** errorResponse?.error, "" when the body deserialised to nothing. */
  function JsonErrorField(b: ErrorBody): (code: string)
    ensures b.ErrorObject? ==> code == b.error
    ensures !IsBlank(code) ==> b.ErrorObject?
  {
    if b.ErrorObject? then b.error else ""
  }

  /** The error code the poll loop acts on: the JSON `error` field when it is
      not blank; otherwise, for a non-blank body, the first of
      authorization_pending, access_denied, expired_token found in the body
      text; otherwise the (blank) JSON field. */
  function PollErrorCode(body: string, parsed: ErrorBody): (code: string)
    ensures !IsBlank(JsonErrorField(parsed)) ==> code == JsonErrorField(parsed)
    ensures (IsBlank(JsonErrorField(parsed)) && !IsBlank(body) && Occurs(body, AuthorizationPending))
            ==> code == AuthorizationPending
    ensures (IsBlank(JsonErrorField(parsed)) && !IsBlank(body) && !Occurs(body, AuthorizationPending)
             && Occurs(body, AccessDenied))
            ==> code == AccessDenied
    ensures (IsBlank(JsonErrorField(parsed)) && !IsBlank(body) && !Occurs(body, AuthorizationPending)
             && !Occurs(body, AccessDenied) && Occurs(body, ExpiredToken))
            ==> code == ExpiredToken
    ensures (IsBlank(JsonErrorField(parsed))
             && (IsBlank(body) || (!Occurs(body, AuthorizationPending) && !Occurs(body, AccessDenied)
                                   && !Occurs(body, ExpiredToken))))
            ==> code == JsonErrorField(parsed) && IsBlank(code)
  {
    var code := JsonErrorField(parsed);
    if IsBlank(code) && !IsBlank(body) then
      if Contains(body, AuthorizationPending) then AuthorizationPending
      else if Contains(body, AccessDenied) then AccessDenied
      else if Contains(body, ExpiredToken) then ExpiredToken
      else code
    else code
  }

  /** What the watchdog does after one token request: stop as authorised,
      stop on a terminal error, stop because deserialising the error body
      threw (the coroutine dies), or wait the device-code interval and poll
      again (authorization_pending and every other code, slow_down included). */
  datatype PollNext = Authorized | Stopped(code: string) | Crashed | PollAgain(waitSeconds: int)

  function PollDecision(reply: TokenReply, interval: int): (n: PollNext)
    ensures n.Authorized? <==> reply.TokenGranted?
    ensures n.Crashed? <==> reply.TokenRefused? && reply.parsed.NotJson?
    ensures n.Stopped? <==> reply.TokenRefused? && !reply.parsed.NotJson?
                            && PollErrorCode(reply.body, reply.parsed) in {AccessDenied, ExpiredToken}
    ensures n.Stopped? ==> n.code == PollErrorCode(reply.body, reply.parsed)
    ensures n.PollAgain? ==> n.waitSeconds == interval
  {
    match reply
    case TokenGranted(_) => Authorized
    case TokenRefused(body, parsed) =>
      if parsed.NotJson? then Crashed
      else
        var code := PollErrorCode(body, parsed);
        if code == AuthorizationPending then PollAgain(interval)
        else if code == AccessDenied || code == ExpiredToken then Stopped(code)
        else PollAgain(interval)
  }

  datatype PollResult = PollResult(session: Session, next: PollNext)

  /** One iteration of OAuthWatchdog. A granted token overwrites the three
      token fields (expiry = now + expires_in) and ends polling; access_denied
      or expired_token clears oauthStarted and ends polling; nothing else
      changes the session. */
  function PollStep(s: Session, reply: TokenReply, now: int, interval: int): (r: PollResult)
    ensures r.next == PollDecision(reply, interval)
    ensures reply.TokenGranted? ==> r.session == StoreToken(s, reply.token, now)
    ensures r.next.Stopped? ==> r.session == s.(oauthStarted := false)
    ensures r.next.PollAgain? || r.next.Crashed? ==> r.session == s
  {
    var next := PollDecision(reply, interval);
    match next
    case Authorized => PollResult(StoreToken(s, reply.token, now), next)
    case Stopped(_) => PollResult(s.(oauthStarted := false), next)
    case _ => PollResult(s, next)
  }

  /** One scripted token reply, received at time `now`. */
  datatype PollTick = PollTick(now: int, reply: TokenReply)

  datatype PollRun = PollRun(session: Session, requestsSent: nat, last: PollNext)

  /** OAuthWatchdog fed with a script of replies: it sends one request per
      reply until a reply ends polling or the script runs out, and only
      stops early on a reply that ends it. */
  function RunPoll(s: Session, ticks: seq<PollTick>, interval: int): (r: PollRun)
    ensures r.requestsSent <= |ticks|
    ensures ticks != [] ==> r.requestsSent >= 1
    ensures r.requestsSent < |ticks| ==> !r.last.PollAgain?
    decreases |ticks|
  {
    if ticks == [] then PollRun(s, 0, PollAgain(interval))
    else
      var step := PollStep(s, ticks[0].reply, ticks[0].now, interval);
      if step.next.PollAgain? then
        var rest := RunPoll(step.session, ticks[1..], interval);
        rest.(requestsSent := rest.requestsSent + 1)
      else
        PollRun(step.session, 1, step.next)
  }

  /** A run resumed after `sent` requests have already gone out. */
  function Resume(s: Session, rest: seq<PollTick>, interval: int, sent: nat): PollRun
  {
    var r := RunPoll(s, rest, interval);
    r.(requestsSent := r.requestsSent + sent)
  }

  /** One more poll of a resumed run: it goes on from the new session, or
      ends with this reply. */
  lemma ResumeStep(s: Session, rest: seq<PollTick>, interval: int, sent: nat)
    requires rest != []
    ensures var step := PollStep(s, rest[0].reply, rest[0].now, interval);
            && (step.next.PollAgain? ==> Resume(s, rest, interval, sent) == Resume(step.session, rest[1..], interval, sent + 1))
            && (!step.next.PollAgain? ==> Resume(s, rest, interval, sent) == PollRun(step.session, sent + 1, step.next))
  {
  }

  /** A run that has not ended used the whole script, waits the interval
      and has left the session untouched. */
  lemma {:induction false} RunPollStillPending(s: Session, ticks: seq<PollTick>, interval: int)
    ensures var r := RunPoll(s, ticks, interval);
            r.last.PollAgain? ==> r.last == PollAgain(interval) && r.requestsSent == |ticks| && r.session == s
    decreases |ticks|
  {
    if ticks != [] {
      RunPollStillPending(PollStep(s, ticks[0].reply, ticks[0].now, interval).session, ticks[1..], interval);
    }
  }

  /** Replies that keep polling (pending or unknown codes) are followed by a
      reply that ends it: exactly |pre| + 1 requests are sent, nothing after
      that reply is requested, and the session is what that one reply makes
      of the initial session. With a granted token this is the single
      transition to authorised. */
  lemma {:induction false} PollStopsAtFirstTerminal(
    s: Session, pre: seq<PollTick>, t: PollTick, post: seq<PollTick>, interval: int)
    requires forall i :: 0 <= i < |pre| ==> PollDecision(pre[i].reply, interval).PollAgain?
    requires !PollDecision(t.reply, interval).PollAgain?
    ensures RunPoll(s, pre + [t] + post, interval)
            == PollRun(PollStep(s, t.reply, t.now, interval).session, |pre| + 1, PollDecision(t.reply, interval))
  {
    var ticks := pre + [t] + post;
    if pre == [] {
      assert ticks[0] == t;
    } else {
      assert ticks[0] == pre[0];
      assert ticks[1..] == pre[1..] + [t] + post;
      PollStopsAtFirstTerminal(s, pre[1..], t, post, interval);
    }
  }

  /** While every reply keeps polling, one request is sent per reply and the
      session is left exactly as it was. */
  lemma {:induction false} PollWhilePending(s: Session, ticks: seq<PollTick>, interval: int)
    requires forall i :: 0 <= i < |ticks| ==> PollDecision(ticks[i].reply, interval).PollAgain?
    ensures RunPoll(s, ticks, interval) == PollRun(s, |ticks|, PollAgain(interval))
    decreases |ticks|
  {
    if ticks != [] {
      PollWhilePending(s, ticks[1..], interval);
    }
  }

  /** After access_denied or expired_token the handshake can be started
      afresh; after a granted token it cannot (oauthStarted stays set). */
  lemma RestartAfterPoll(s: Session, reply: TokenReply, now: int, interval: int)
    requires s.oauthStarted
    ensures var r := PollStep(s, reply, now, interval);
            StartOAuthStep(r.session).deviceCodeRequest.Some? <==> r.next.Stopped?
  {
  }

  // ---------------------------------------------------------------- refresh

  datatype RefreshResult = RefreshResult(session: Session, request: Form, startsValidation: bool)

  /** RefreshAccessToken as a whole: it posts the refresh_token grant for the
      refresh token held at the start; a granted token overwrites the token
      fields and re-validates only when no broadcaster id is known; a refused
      one leaves every token field as it was; either way refreshInProgress is
      false when it finishes. */
  function RefreshStep(s: Session, reply: TokenReply, now: int): (r: RefreshResult)
    ensures r.request == RefreshForm(s.refreshToken)
    ensures !r.session.refreshInProgress
    ensures reply.TokenRefused? ==> r.session == s.(refreshInProgress := false) && !r.startsValidation
    ensures reply.TokenGranted? ==>
              r.session == StoreToken(s, reply.token, now).(refreshInProgress := false)
              && (r.startsValidation <==> IsBlank(s.broadcasterId))
  {
    match reply
    case TokenGranted(t) =>
      RefreshResult(StoreToken(s, t, now).(refreshInProgress := false), RefreshForm(s.refreshToken), IsBlank(s.broadcasterId))
    case TokenRefused(_, _) => RefreshResult(s.(refreshInProgress := false), RefreshForm(s.refreshToken), false)
  }

  /** One wake-up of RefreshTokenLoop: the time it runs at, whether a
      prediction is running then, and the reply a refresh started now would
      get, at time replyNow. */
  datatype RefreshTick = RefreshTick(now: int, predictionActive: bool, reply: TokenReply, replyNow: int)

  datatype LoopStep = LoopStep(session: Session, refreshRequest: Option<Form>, startsValidation: bool, waitSeconds: int)

  /** One iteration of RefreshTokenLoop, up to and including its wait. A
      refresh goes out, for a non-blank refresh token, only when the token is
      within the margin of expiry, no prediction runs and no refresh is in
      progress. */
  function RefreshLoopStep(s: Session, tick: RefreshTick): (r: LoopStep)
    ensures IsBlank(s.refreshToken) ==> r == LoopStep(s, None, false, NoRefreshTokenWait)
    ensures r.refreshRequest.Some? <==>
              !IsBlank(s.refreshToken) && s.accessTokenExpiresAt - tick.now <= RefreshMargin
              && !tick.predictionActive && !s.refreshInProgress
    ensures r.refreshRequest.Some? ==>
              && FieldValue(r.refreshRequest.value, "refresh_token") == Some(s.refreshToken)
              && RefreshResult(r.session, r.refreshRequest.value, r.startsValidation)
                 == RefreshStep(s, tick.reply, tick.replyNow)
    ensures r.refreshRequest.None? ==> r.session == s && !r.startsValidation
    ensures (!IsBlank(s.refreshToken) && s.accessTokenExpiresAt - tick.now <= RefreshMargin && tick.predictionActive)
            ==> r.waitSeconds == DeferredRefreshWait
    ensures (!IsBlank(s.refreshToken) && !(s.accessTokenExpiresAt - tick.now <= RefreshMargin && tick.predictionActive))
            ==> r.waitSeconds == Max(MinRefreshWait, s.accessTokenExpiresAt - tick.now - RefreshMargin)
    ensures r.waitSeconds >= NoRefreshTokenWait
  {
    if IsBlank(s.refreshToken) then
      LoopStep(s, None, false, NoRefreshTokenWait)
    else
      var secondsUntilExpiry := s.accessTokenExpiresAt - tick.now;
      var waitSeconds := Max(MinRefreshWait, secondsUntilExpiry - RefreshMargin);
      if secondsUntilExpiry <= RefreshMargin then
        if tick.predictionActive then
          LoopStep(s, None, false, DeferredRefreshWait)
        else if !s.refreshInProgress then
          var refreshed := RefreshStep(s, tick.reply, tick.replyNow);
          LoopStep(refreshed.session, Some(refreshed.request), refreshed.startsValidation, waitSeconds)
        else
          LoopStep(s, None, false, waitSeconds)
      else
        LoopStep(s, None, false, waitSeconds)
  }

  /** The refresh loop over a script of wake-ups (the last wake-up last). It
      touches only the token fields and the in-progress flag, and a loop that
      starts with no refresh in progress leaves none in progress. */
  function RunRefresh(s: Session, ticks: seq<RefreshTick>): (r: Session)
    ensures ticks == [] ==> r == s
    ensures r == s.(accessToken := r.accessToken, refreshToken := r.refreshToken,
                    accessTokenExpiresAt := r.accessTokenExpiresAt, refreshInProgress := r.refreshInProgress)
    ensures !s.refreshInProgress ==> !r.refreshInProgress
    decreases |ticks|
  {
    if ticks == [] then s
    else RefreshLoopStep(RunRefresh(s, ticks[..|ticks| - 1]), ticks[|ticks| - 1]).session
  }

  /** While a prediction is running at every wake-up, the refresh loop never
      touches the session, however close the token is to expiry. */
  lemma {:induction false} DeferredWhilePredictionActive(s: Session, ticks: seq<RefreshTick>)
    requires forall i :: 0 <= i < |ticks| ==> ticks[i].predictionActive
    ensures RunRefresh(s, ticks) == s
    decreases |ticks|
  {
    if ticks != [] {
      DeferredWhilePredictionActive(s, ticks[..|ticks| - 1]);
    }
  }

  /** The token fields change only through a granted refresh reply. */
  lemma {:induction false} TokensChangeOnlyOnGrant(s: Session, ticks: seq<RefreshTick>)
    requires forall i :: 0 <= i < |ticks| ==> ticks[i].reply.TokenRefused?
    ensures SameTokens(RunRefresh(s, ticks), s)
    ensures RunRefresh(s, ticks).broadcasterId == s.broadcasterId
    decreases |ticks|
  {
    if ticks != [] {
      TokensChangeOnlyOnGrant(s, ticks[..|ticks| - 1]);
    }
  }

  // ---------------------------------------------------------------- validate and users

  datatype ValidateResult = ValidateResult(session: Session, fetchTypeFor: Option<string>)

  /** ValidateTokenAndStoreUser: only a successful reply with a non-blank
      user_id sets the broadcaster id, and only then is the broadcaster type
      looked up (for that id). */
  function ValidateStep(s: Session, reply: ValidateReply): (r: ValidateResult)
    ensures r.fetchTypeFor.Some? <==> reply.Validated? && !IsBlank(reply.userId)
    ensures r.fetchTypeFor.Some? ==> r.session == s.(broadcasterId := reply.userId) && r.fetchTypeFor.value == reply.userId
    ensures r.fetchTypeFor.None? ==> r.session == s
  {
    if reply.Validated? && !IsBlank(reply.userId) then
      ValidateResult(s.(broadcasterId := reply.userId), Some(reply.userId))
    else
      ValidateResult(s, None)
  }

  /** FetchBroadcasterType: a failed lookup changes nothing; a successful one
      stores the extracted type and marks the account affiliate/partner
      exactly when the leftmost broadcaster_type field is not the empty
      string, so a body without such a field counts as affiliate. */
  function FetchTypeStep(s: Session, reply: UsersReply): (r: Session)
    ensures reply.UsersFailed? ==> r == s
    ensures reply.UsersFound? ==>
              && r == s.(broadcasterType := r.broadcasterType, isAffiliateOrPartner := r.isAffiliateOrPartner)
              && (r.isAffiliateOrPartner <==> !exists p :: BroadcasterTypeRegex.LeftmostMatch(reply.body, p, ""))
              && (BroadcasterTypeRegex.NoMatch(reply.body) ==> r.broadcasterType == BroadcasterTypeRegex.ParseErrorSentinel)
              && (forall p, c :: BroadcasterTypeRegex.LeftmostMatch(reply.body, p, c) ==> r.broadcasterType == c)
  {
    match reply
    case UsersFailed(_) => s
    case UsersFound(body) =>
      var broadcasterType := BroadcasterTypeRegex.BroadcasterTypeOf(body);
      BroadcasterTypeRegex.StandardOnlyWhenCaptureEmpty(body);
      s.(broadcasterType := broadcasterType, isAffiliateOrPartner := broadcasterType != "")
  }
}
