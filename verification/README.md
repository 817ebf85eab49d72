# STRAFTAT Twitch auto-prediction: a Dafny model

This project models the core of the STRAFTAT mod that opens a Twitch
prediction at the start of a match and settles it at the end. The core has
three parts:

- **TwitchOAuthClient** holds the Twitch credentials.
  - It runs the OAuth 2.0 device authorization grant (RFC 8628): device-code
    request, then polling the token endpoint (section 3.4) until
    `authorization_pending` gives way to a token, `access_denied` or
    `expired_token` (section 3.5).
  - A refresh loop renews the token with the refresh-token grant (section 6 of
    RFC 6749) once it has 1800 seconds or less left, but not while a
    prediction is running.
  - It validates the token to learn the broadcaster id, and reads
    `broadcaster_type` from the users endpoint with the regular expression
    `"broadcaster_type"\s*:\s*"([^"]*)"` to decide whether the account is
    affiliate or partner.
- **TwitchPredictionsClient** creates, resolves and cancels predictions
  through the Helix API. It remembers the current prediction id and which
  outcome id belongs to which team. Before every call it runs a readiness
  guard: broadcaster id, access token, affiliate status, expiry.
- **Plugin** is the game-side entry point. It turns the teams of a match into
  outcomes: one per team, in ascending team id, titled with the player names
  joined by ", " and cut to 24 UTF-16 code units plus ".". It computes a prediction
  window `clamp(60 + 15 · players · roundsToWin, 60, 1800)`. The static flag
  `IsPredictionStarted` keeps a second prediction from starting while one
  runs.

## How the model is built

Each class is a Dafny `class` with the same fields, and each coroutine is a
method that runs as one atomic step. HTTP replies and the clock (whole
seconds since the Unix epoch) are parameters. What the code sends is
returned as a value: the forms posted to the device and token endpoints
(`OAuthRules.Form`) and the bodies of the prediction calls. Every method's
`ensures` ties the new fields, and the request it sends, to a pure
transition function in a companion module:

- `OAuthRules` for `OAuth.TwitchOAuthClient`;
- `PredictionRules` for `Predictions.TwitchPredictionsClient`;
- `PluginRules` for `PluginHost.Plugin`.

The properties are proved about those functions. The two endless loops
(`OAuthWatchdog`, `RefreshTokenLoop`) are `while`/`for` loops over a finite
script of replies. Their invariants tie them to `RunPoll` and `RunRefresh`.
The regular expression is a position-by-position matcher (`MatchAt`,
`FirstMatch`) proved equal to a declarative reading of the pattern
(`Layout`, `MatchesAt`, `LeftmostMatch`).

A C# null string is `""` only where the code tests it with nothing but
`IsNullOrWhiteSpace`: the tokens, the user id, the broadcaster ids and the
created prediction's id. Where null behaves differently it is `None`:

- `data.FirstOrDefault()` of a create response (`CreateReply.first`), which
  is None for a null response, a null or empty list and a null first
  element;
- the id and the title of a response outcome. A null title equals no outcome
  spec's title. A null id is stored in the team map and later sent as
  `winning_outcome_id: null`;
- `winning_outcome_id`, which is also null for a cancel.

Outcome titles are `Text.Utf16`, the UTF-16 code units of the .NET string,
because `string.Length`, `Substring` and `==` work on those.
`Text.Utf16RoundTrip` shows that the code units determine the text.
`DateTimeOffset.MinValue` is -62135596800.

### Behaviour of the code worth knowing

- **A failed device-code request leaves `oauthStarted` set**
  (TwitchOAuthClient.cs:76, 101-104). `StartOAuth` then never sends another
  request, so the handshake cannot be restarted. Only `access_denied` and
  `expired_token` during polling clear the flag.
- **The computed window is not sent.** `StartPredict` computes the window and
  passes it along (Plugin.cs:107-109), but `CreatePrediction` takes only the
  outcome list (TwitchPredictionsClient.cs:47). The request carries the
  client's own `predictionWindowSeconds` (TwitchPredictionsClient.cs:89),
  which `Awake` sets to 120 (Plugin.cs:57). In the model the computed window
  travels in `ClientCall.CreatePrediction.requestedWindow`. The sent
  `CreateRequest.predictionWindow` is the client's field, as
  `PluginHost.Plugin.StartPredict` states.
- **The client does not refuse a create while a prediction is held.** Only
  the Plugin flag guards against a second create. A successful create
  overwrites the prediction id and rebuilds the team map.
- **An error body that is not JSON stops polling for good.** During polling,
  deserialising such a body throws (TwitchOAuthClient.cs:136). The watchdog
  coroutine dies and `oauthStarted` stays set. This is `PollNext.Crashed`.

## Model

| member | source | states |
|---|---|---|
| Text.IsWhiteSpace | straftat_twitch_autopoll/TwitchOAuthClient.cs:280 | `Char.IsWhiteSpace` and the regex class `\s`: neither ':' nor '"' is white space, so `\s*` never crosses the colon or a quote of the pattern |
| Text.WhiteSpaceListed | straftat_twitch_autopoll/TwitchOAuthClient.cs:280 | the ranges agree with the list of the 25 .NET white-space characters |
| Text.IsBlank | straftat_twitch_autopoll/TwitchPredictionsClient.cs:183 | `string.IsNullOrWhiteSpace`: the empty (or null) string is blank |
| Text.BlankMeansAllWhiteSpace | straftat_twitch_autopoll/TwitchPredictionsClient.cs:183 | a string is blank exactly when every character is white space; a concatenation is blank exactly when both parts are |
| Text.Join | straftat_twitch_autopoll/Plugin.cs:97 | `string.Join`: no parts give "", one part gives itself |
| Text.JoinStartsWithFirst | straftat_twitch_autopoll/Plugin.cs:97 | with two parts or more, the joined text starts with the first part followed by the separator |
| Text.JoinAppend | straftat_twitch_autopoll/Plugin.cs:97 | joining one more part appends the separator and that part |
| Text.EncodeChar | straftat_twitch_autopoll/Plugin.cs:129 | a character below U+10000 is one code unit, itself; one above is a high and a low surrogate |
| Text.ToUtf16 | straftat_twitch_autopoll/Plugin.cs:129 | a string has at least as many code units as characters, and none only when empty |
| Text.ToUtf16Append | straftat_twitch_autopoll/Plugin.cs:97 | the code units of a concatenation are those of the parts, concatenated |
| Text.DecodeAfter | straftat_twitch_autopoll/TwitchPredictionsClient.cs:110 | decoding the code units of a string followed by more yields that string followed by the rest's text |
| Text.Utf16RoundTrip | straftat_twitch_autopoll/TwitchPredictionsClient.cs:110 | the code units of a string decode back to it |
| Text.Utf16Injective | straftat_twitch_autopoll/TwitchPredictionsClient.cs:110 | two strings have the same code units exactly when they are equal, so comparing titles by code units is comparing them as text |
| Text.Contains | straftat_twitch_autopoll/TwitchOAuthClient.cs:140-145 | `string.Contains` is true exactly when the word occurs at some index of the text |
| BroadcasterTypeRegex.MatchAt | straftat_twitch_autopoll/TwitchOAuthClient.cs:280 | the pattern tried at one position: a result means the text there reads `"broadcaster_type"`, and the group holds no double quote |
| BroadcasterTypeRegex.SkipWhiteSpace | straftat_twitch_autopoll/TwitchOAuthClient.cs:280 | the greedy `\s*`: every character it passes is white space, and it stops only at a character that is not, or at the end |
| BroadcasterTypeRegex.SkipToQuote | straftat_twitch_autopoll/TwitchOAuthClient.cs:280 | the greedy `[^"]*`: no character it passes is a double quote, and it stops only at a double quote, or at the end |
| BroadcasterTypeRegex.MatchAtSound | straftat_twitch_autopoll/TwitchOAuthClient.cs:280 | what the matcher finds at a position is a match of the pattern there |
| BroadcasterTypeRegex.MatchAtComplete | straftat_twitch_autopoll/TwitchOAuthClient.cs:280 | every match of the pattern at a position is found by the matcher, with the same group; the pattern never matches two ways at one position |
| BroadcasterTypeRegex.BlankNeverMatches | straftat_twitch_autopoll/TwitchOAuthClient.cs:278-283 | a blank body contains no match |
| BroadcasterTypeRegex.FirstMatch | straftat_twitch_autopoll/TwitchOAuthClient.cs:280 | the scan returns the match at the first position from which the pattern matches, and nothing only when no later position matches |
| BroadcasterTypeRegex.Capture | straftat_twitch_autopoll/TwitchOAuthClient.cs:280-282 | no result exactly when the pattern matches nowhere; otherwise the first group of the leftmost match |
| BroadcasterTypeRegex.BroadcasterTypeOf | straftat_twitch_autopoll/TwitchOAuthClient.cs:276-283 | the stored type is `ERROR_PARSING_BROADCASTER_TYPE` when nothing matches (a blank body included), else the group of the leftmost match |
| BroadcasterTypeRegex.StandardOnlyWhenCaptureEmpty | straftat_twitch_autopoll/TwitchOAuthClient.cs:277-287 | the type is empty exactly when the leftmost match captures the empty string |
| OAuthRules.FieldValue | straftat_twitch_autopoll/TwitchOAuthClient.cs:82-84 | the value of the first form field with a name (no earlier field has that name), and none exactly when no field has it |
| OAuthRules.StoreToken | straftat_twitch_autopoll/TwitchOAuthClient.cs:124-126 | a token exchange sets the access token, the refresh token and the expiry (now plus expires_in); every other field is kept |
| OAuthRules.DeviceCodeForm | straftat_twitch_autopoll/TwitchOAuthClient.cs:82-84 | the device-code form has two fields: the client id and the two prediction scopes |
| OAuthRules.PollForm | straftat_twitch_autopoll/TwitchOAuthClient.cs:113-116 | each poll form has three fields: the client id, the device code issued, and the device_code grant type |
| OAuthRules.RefreshForm | straftat_twitch_autopoll/TwitchOAuthClient.cs:212-215 | the refresh form has three fields: the client id, the refresh_token grant type and the refresh token held |
| OAuthRules.StartOAuthStep | straftat_twitch_autopoll/TwitchOAuthClient.cs:69-84 | the device-code form is posted exactly when no handshake is under way; afterwards one always is |
| OAuthRules.StartOAuthIdempotent | straftat_twitch_autopoll/TwitchOAuthClient.cs:74-76 | a second StartOAuth sends nothing and changes nothing |
| OAuthRules.PollErrorCode | straftat_twitch_autopoll/TwitchOAuthClient.cs:135-146 | the JSON `error` field if not blank; else, for a non-blank body, the first of authorization_pending, access_denied, expired_token occurring in it; else the blank field |
| OAuthRules.JsonErrorField | straftat_twitch_autopoll/TwitchOAuthClient.cs:137 | the `error` of a deserialised error object; a non-blank code only ever comes from such an object |
| OAuthRules.PollDecision | straftat_twitch_autopoll/TwitchOAuthClient.cs:121-166 | polling ends as authorised exactly on a granted token; ends by exception exactly on a non-JSON error body; stops exactly on access_denied or expired_token; otherwise waits the device-code interval |
| OAuthRules.PollStep | straftat_twitch_autopoll/TwitchOAuthClient.cs:121-159 | a granted token stores token, refresh token and expiry now + expires_in; a terminal code clears oauthStarted; nothing else changes |
| OAuthRules.RunPoll | straftat_twitch_autopoll/TwitchOAuthClient.cs:111-167 | at most one request per reply and at least one when there is a reply; polling ends early only on a reply that ends it |
| OAuthRules.RunPollStillPending | straftat_twitch_autopoll/TwitchOAuthClient.cs:111-167 | a run that has not ended used every reply, waits the device-code interval and left the session unchanged |
| OAuthRules.PollStopsAtFirstTerminal | straftat_twitch_autopoll/TwitchOAuthClient.cs:111-167 | after replies that keep polling, the first reply that ends it is the last request sent, and the session is what that reply makes of the initial one |
| OAuthRules.PollWhilePending | straftat_twitch_autopoll/TwitchOAuthClient.cs:111-167 | while every reply keeps polling, one request per reply goes out and the session is unchanged |
| OAuthRules.RestartAfterPoll | straftat_twitch_autopoll/TwitchOAuthClient.cs:153-158 | after one poll, StartOAuth can send a new device-code request exactly when that poll stopped on a terminal code |
| OAuthRules.RefreshStep | straftat_twitch_autopoll/TwitchOAuthClient.cs:207-240 | the refresh form carries the refresh token held at the start; a granted refresh stores the new token triple and re-validates exactly when no broadcaster id is known; a refused one keeps every token field; refreshInProgress is false afterwards |
| OAuthRules.RefreshLoopStep | straftat_twitch_autopoll/TwitchOAuthClient.cs:179-204 | a refresh is requested exactly when a refresh token is held, at most 1800 s remain, no prediction runs and no refresh is in progress, and carries the refresh token held; the wait is 10 s without a refresh token, 30 s when deferred, else max(30, remaining − 1800) |
| OAuthRules.RunRefresh | straftat_twitch_autopoll/TwitchOAuthClient.cs:177-205 | over any script the refresh loop changes only the three token fields and refreshInProgress, and never leaves a refresh in progress that was not before |
| OAuthRules.DeferredWhilePredictionActive | straftat_twitch_autopoll/TwitchOAuthClient.cs:189-196 | while a prediction runs at every wake-up, the refresh loop leaves the session untouched |
| OAuthRules.TokensChangeOnlyOnGrant | straftat_twitch_autopoll/TwitchOAuthClient.cs:220-234 | without a granted refresh reply, the token triple and the broadcaster id never change |
| OAuthRules.ValidateStep | straftat_twitch_autopoll/TwitchOAuthClient.cs:242-265 | only a successful reply with a non-blank user_id sets the broadcaster id, and only then is the type looked up, for that id |
| OAuthRules.FetchTypeStep | straftat_twitch_autopoll/TwitchOAuthClient.cs:267-298 | a failed lookup changes nothing; a successful one sets only the type and the affiliate flag, and the flag holds exactly when the leftmost match does not capture "" |
| OAuth.TwitchOAuthClient.constructor | straftat_twitch_autopoll/TwitchOAuthClient.cs:16-28 | no tokens, expiry MinValue, no broadcaster, not affiliate, nothing in progress |
| OAuth.TwitchOAuthClient.StartOAuth | straftat_twitch_autopoll/TwitchOAuthClient.cs:69-78 | the fields and the form posted are those of StartOAuthStep |
| OAuth.TwitchOAuthClient.CompleteDeviceCodeRequest | straftat_twitch_autopoll/TwitchOAuthClient.cs:91-104 | on success the verification URI is opened and the watchdog starts with the reply's interval and device code; on failure, or for a body that is not JSON or is empty, neither happens |
| OAuth.TwitchOAuthClient.Poll | straftat_twitch_autopoll/TwitchOAuthClient.cs:113-166 | the fields and the next action are those of PollStep |
| OAuth.TwitchOAuthClient.Watchdog | straftat_twitch_autopoll/TwitchOAuthClient.cs:107-168 | the loop posts as many forms, and leaves the fields, as RunPoll prescribes for the script; every form is the poll form for the job's device code |
| OAuth.TwitchOAuthClient.RefreshAccessToken | straftat_twitch_autopoll/TwitchOAuthClient.cs:207-240 | the fields, the form posted and the validation decision are those of RefreshStep |
| OAuth.TwitchOAuthClient.RefreshLoopTick | straftat_twitch_autopoll/TwitchOAuthClient.cs:181-203 | the fields, the refresh form posted and the wait are those of RefreshLoopStep |
| OAuth.TwitchOAuthClient.RefreshTokenLoop | straftat_twitch_autopoll/TwitchOAuthClient.cs:177-205 | after the script the fields are RunRefresh of the old fields |
| OAuth.TwitchOAuthClient.ValidateTokenAndStoreUser | straftat_twitch_autopoll/TwitchOAuthClient.cs:248-264 | the fields and the lookup started are those of ValidateStep |
| OAuth.TwitchOAuthClient.FetchBroadcasterType | straftat_twitch_autopoll/TwitchOAuthClient.cs:274-297 | the fields are those of FetchTypeStep |
| PredictionRules.CheckReady | straftat_twitch_autopoll/TwitchPredictionsClient.cs:181-216 | the guard passes exactly when a broadcaster id is available, a token is held, the account is affiliate and the token is unexpired (MinValue never expires); a blank or placeholder id is replaced by the OAuth client's non-blank id even when a later check fails |
| PredictionRules.NeedsBroadcasterId | straftat_twitch_autopoll/TwitchPredictionsClient.cs:183 | the local broadcaster id must be taken from the OAuth client when it is blank or the placeholder, and only then |
| PredictionRules.CheckReadyIdempotent | straftat_twitch_autopoll/TwitchPredictionsClient.cs:181-194 | running the guard again on the id it left gives the same id and the same verdict |
| PredictionRules.OutcomeRequests | straftat_twitch_autopoll/TwitchPredictionsClient.cs:79-81 | one request outcome per spec, same order, same title |
| PredictionRules.FirstWithTitle | straftat_twitch_autopoll/TwitchPredictionsClient.cs:110 | the index of the first response outcome with the title, or the length when there is none; a null title matches no spec |
| PredictionRules.OutcomeMap | straftat_twitch_autopoll/TwitchPredictionsClient.cs:107-113 | every mapped team has a spec, and every mapped id, null included, is the id of some response outcome |
| PredictionRules.OutcomeMapKeys | straftat_twitch_autopoll/TwitchPredictionsClient.cs:107-113 | a team is mapped exactly when one of its specs has a title that some response outcome carries |
| PredictionRules.OutcomeMapValues | straftat_twitch_autopoll/TwitchPredictionsClient.cs:107-113 | with distinct teams, each matched team maps to the id of the first response outcome with its title |
| PredictionRules.CreateStep | straftat_twitch_autopoll/TwitchPredictionsClient.cs:68-122 | a create is sent exactly when the guard passes and outcomes exist, with the client's id, title and window and the outcome titles in order; only a successful reply whose first prediction is not null sets the prediction id and rebuilds the team map; otherwise both are unchanged |
| PredictionRules.StatusText | straftat_twitch_autopoll/TwitchPredictionsClient.cs:58 | the status string is "CANCELED" exactly for a cancel and "RESOLVED" exactly for a resolve |
| PredictionRules.EndStep | straftat_twitch_autopoll/TwitchPredictionsClient.cs:144-179 | an end is sent exactly when the guard passes and a prediction id is held, naming that id, the status string and the winner; success clears the id and the map, failure keeps both |
| PredictionRules.ResolveStep | straftat_twitch_autopoll/TwitchPredictionsClient.cs:124-142 | a RESOLVED end is sent exactly when the guard passes, an id is held and the team is in the map; its outcome id, null included, becomes the winner; otherwise nothing changes but the broadcaster id |
| PredictionRules.CancelStep | straftat_twitch_autopoll/TwitchPredictionsClient.cs:54-59 | a cancel is the end call with status CANCELED and no winner |
| PredictionRules.CreateThenResolve | straftat_twitch_autopoll/TwitchPredictionsClient.cs:106-141 | after a successful create, resolving a matched team sends RESOLVED for the created id with the id of the first outcome carrying that team's title; success leaves no prediction |
| PredictionRules.EndIsFinal | straftat_twitch_autopoll/TwitchPredictionsClient.cs:167-175 | once an end succeeded, a further cancel or resolve sends nothing |
| PredictionRules.FailedEndCanBeRetried | straftat_twitch_autopoll/TwitchPredictionsClient.cs:167-178 | after a failed end the same call sends the same request again |
| Predictions.TwitchPredictionsClient.constructor | straftat_twitch_autopoll/TwitchPredictionsClient.cs:27-40 | the given OAuth client, id, window and title; no prediction and an empty team map |
| Predictions.TwitchPredictionsClient.EnsureReady | straftat_twitch_autopoll/TwitchPredictionsClient.cs:181-216 | the new broadcaster id and the verdict are those of CheckReady |
| Predictions.TwitchPredictionsClient.CreatePrediction | straftat_twitch_autopoll/TwitchPredictionsClient.cs:68-122 | the fields and the request sent are those of CreateStep; the map is filled spec by spec |
| Predictions.TwitchPredictionsClient.ResolvePrediction | straftat_twitch_autopoll/TwitchPredictionsClient.cs:124-142 | the fields and the request sent are those of ResolveStep |
| Predictions.TwitchPredictionsClient.CancelPrediction | straftat_twitch_autopoll/TwitchPredictionsClient.cs:54-59 | the fields and the request sent are those of CancelStep |
| Predictions.TwitchPredictionsClient.EndPrediction | straftat_twitch_autopoll/TwitchPredictionsClient.cs:144-179 | the fields and the request sent are those of EndStep |
| PluginRules.TrimOutcomeTitle | straftat_twitch_autopoll/Plugin.cs:125-130 | titles of at most 24 UTF-16 code units are kept (the empty one included); longer ones become their first 24 code units and "." |
| PluginRules.TrimOutcomeTitleIdempotent | straftat_twitch_autopoll/Plugin.cs:125-130 | a trimmed title has at most 25 code units and trimming it again changes nothing |
| PluginRules.TrimAtCharacterBoundary | straftat_twitch_autopoll/Plugin.cs:129 | when 24 code units end on a character boundary, the trimmed title reads as those characters and "." |
| PluginRules.TrimCanSplitSurrogatePair | straftat_twitch_autopoll/Plugin.cs:129 | when the 24th code unit opens a surrogate pair, the trimmed title keeps half the pair and is no longer valid text |
| PluginRules.AboveBmpLength | straftat_twitch_autopoll/Plugin.cs:129 | text made only of characters above U+FFFF has two code units per character |
| PluginRules.ThirteenEmojiTitle | straftat_twitch_autopoll/Plugin.cs:129 | thirteen characters above U+FFFF (26 code units) become the first twelve and "." |
| PluginRules.Clamp | straftat_twitch_autopoll/Plugin.cs:108 | the result lies in the range, equals the value inside it and the nearer bound outside |
| PluginRules.RoundsToWin | straftat_twitch_autopoll/Plugin.cs:106 | the score manager's round score, 2 without a score manager |
| PluginRules.PredictionWindow | straftat_twitch_autopoll/Plugin.cs:107-108 | always between 60 and 1800; exactly 60 + 15 · players · rounds inside that range, the nearer bound outside |
| PluginRules.PredictionWindowMonotonic | straftat_twitch_autopoll/Plugin.cs:107-108 | more players never give a shorter window |
| PluginRules.PredictionWindowExamples | straftat_twitch_autopoll/Plugin.cs:107-108 | 4 players and 2 rounds give 180; no players give 60; 116 player-rounds or more give 1800 |
| PluginRules.SmallestKey | straftat_twitch_autopoll/Plugin.cs:93 | the team id that OrderBy puts first: a member no larger than any other |
| PluginRules.OutcomeTitle | straftat_twitch_autopoll/Plugin.cs:97 | a team's title has at most 25 code units; a joined player list of at most 24 code units is the title unchanged, a longer one keeps its first 24 code units |
| PluginRules.OrderedOutcomes | straftat_twitch_autopoll/Plugin.cs:92-99 | one outcome per team |
| PluginRules.OrderedOutcomesTitles | straftat_twitch_autopoll/Plugin.cs:94-98 | each outcome is for a team of the match and is titled with that team's trimmed, ", "-joined player list |
| PluginRules.OrderedOutcomesAscending | straftat_twitch_autopoll/Plugin.cs:93 | outcomes come in strictly ascending team id, so no team appears twice |
| PluginRules.OrderedOutcomesCoverTeams | straftat_twitch_autopoll/Plugin.cs:92-99 | every team of the match has an outcome |
| PluginRules.PlayerCount | straftat_twitch_autopoll/Plugin.cs:105 | no teams means no players |
| PluginRules.PlayerCountRemove | straftat_twitch_autopoll/Plugin.cs:105 | taking any one team out subtracts exactly its players, so the count is the sum over the teams in any order |
| PluginRules.WindowFor | straftat_twitch_autopoll/Plugin.cs:105-108 | the window computed for a match lies between 60 and 1800 |
| PluginRules.StartPredictStep | straftat_twitch_autopoll/Plugin.cs:69-123 | while started nothing is issued and the flag stays set; a non-affiliate account or fewer than two teams issue nothing and leave it clear; otherwise the create with the ordered outcomes and the computed window is issued and the flag is set |
| PluginRules.CancelPredictStep | straftat_twitch_autopoll/Plugin.cs:132-143 | a cancel is issued exactly when started; the flag is clear afterwards |
| PluginRules.SendResultsStep | straftat_twitch_autopoll/Plugin.cs:145-154 | a resolve for the team is issued whether or not a prediction was started, and the flag is cleared |
| PluginRules.ApplicationQuitStep | straftat_twitch_autopoll/Plugin.cs:61-67 | quitting does what CancelPredict does: cancel only a started prediction |
| PluginRules.CancelTwiceCancelsOnce | straftat_twitch_autopoll/Plugin.cs:132-143 | a second CancelPredict issues nothing |
| PluginRules.RunEvents | straftat_twitch_autopoll/Plugin.cs:61-154 | each handler issues at most one call, so a run issues no more calls than it has events; no events leave the flag as it was |
| PluginRules.FlagMeansLastCallWasCreate | straftat_twitch_autopoll/Plugin.cs:69-154 | over any sequence of handlers from start-up, the flag is set exactly when the last call issued was a create |
| PluginRules.OnePredictionAtATime | straftat_twitch_autopoll/Plugin.cs:69-154 | over any sequence of handlers, no create directly follows a create, and every cancel directly follows a create |
| PluginHost.Plugin.constructor | straftat_twitch_autopoll/Plugin.cs:47-59 | the prediction client is built over the OAuth client with an empty id, a 120 s window and the fixed title; no prediction is started |
| PluginHost.Plugin.StartPredict | straftat_twitch_autopoll/Plugin.cs:69-123 | the flag and the call are those of StartPredictStep; the client then does CreateStep for the ordered outcomes; the window sent is the client's own |
| PluginHost.Plugin.CancelPredict | straftat_twitch_autopoll/Plugin.cs:132-143 | the flag and the call are those of CancelPredictStep; the client does CancelStep only when a cancel was issued |
| PluginHost.Plugin.SendResults | straftat_twitch_autopoll/Plugin.cs:145-154 | the flag and the call are those of SendResultsStep; the client does ResolveStep for the team |
| PluginHost.Plugin.OnApplicationQuit | straftat_twitch_autopoll/Plugin.cs:61-67 | the flag and the call are those of ApplicationQuitStep |

## Left out

- HTTP (UnityWebRequest), `Application.OpenURL` and JSON serialisation are foreign I/O. Replies are parameters, already deserialised. The posted forms and the prediction bodies are returned as values. The request headers are not modelled: the `Authorization: Bearer` header with the access token, the `Client-Id` header, and the user id in the query string of the users lookup (the id is the `fetchTypeFor` result).
- Some JSON deserialisation throws are not modelled, on these paths:
  - the success path of the token, validate, users and prediction calls (a response that is not JSON);
  - the error body of a refused refresh.
  A refused refresh is taken as an ordinary failure whatever its body. The device-code reply is modelled: a body that is not JSON, or is empty, is `DeviceCodeUnreadable` and opens nothing.
- A `null` list of outcomes inside a successful create response, or a `null` element in it, would throw (TwitchPredictionsClient.cs:110). This is not modelled: a response prediction always has a list of outcomes, and they are not null.
- A `null` device code, verification URI or token field inside an otherwise valid response is `""` in the model. `WWWForm.AddField` with a null device code is not modelled.
- Player names are well-formed Unicode text. A .NET string holding a lone surrogate half cannot be a Dafny `string`. The trimmed outcome title, which can hold one, is kept as code units (`Text.Utf16`).
- Coroutine scheduling is not modelled: each continuation runs atomically. So these interleavings are out of scope:
  - the watchdog, the refresh loop and a validation running side by side;
  - two create coroutines in flight at once.
- `StartTokenRefreshLoop` stopping an earlier loop is left out. The watchdog's Authorized result stands for "validation and the refresh loop are started".
- OAuth.TwitchOAuthClient.Watchdog and OAuth.TwitchOAuthClient.RefreshTokenLoop run over a finite script of replies instead of forever.
- OAuth.TwitchOAuthClient.RefreshLoopTick: the `isPredictionActive` callback, which reads `Plugin.IsPredictionStarted`, is the `predictionActive` field of each wake-up.
- Wall-clock time is a parameter in whole seconds. `TotalSeconds` is a double in the source; fractions of a second are not modelled.
- Integers are unbounded. The 32-bit overflow of `60 + 15 · players · rounds` and the `DateTimeOffset` range of now + expires_in are not modelled.
- Coroutine hosts and singletons (`EnsureHost`, `OAuthCoroutineHost`, `PredictionsCoroutineHost`, `TwitchOAuthClient.Ensure`) are Unity lifecycle plumbing. The model passes the one OAuth client explicitly.
- Logging (`LogInfo`, `LogWarning`, `LogError`, the PauseManager offline log) has no effect on control flow. The option log loop of `StartPredict` and the winners list of `SendResults` are only logged, so SendResults takes no winners.
- PluginHost.Plugin.StartPredict: the exception for "already started" is caught locally, and is modelled as issuing nothing. Other exceptions the catch would swallow, such as a null team dictionary, are not modelled.
- The Harmony patches and the game singletons they read (`ScoreManager`, `ClientInstance`) are not part of this model. The score manager's round score is the `roundScoreRequiredToWin` parameter.
- The device code's `user_code` and `expires_in` are carried but unused, as in the source.
