/**
 * The "update focus time" route (PATCH): token lookup and refresh, body
 * validation, the patch payload (end time, colour, summary) and the mapping
 * of Google errors to HTTP statuses. Times are wall-clock minutes; the
 * database and Google calls are outcomes given as inputs.
 */
module UpdateFocusTime {
  import opened Wrappers
  import opened Time
  import Text

  /** The colour table of lines 17-22; note the explicit 'default' key. */
  const PriorityColorMap: map<string, string> :=
    map["high" := "11", "medium" := "5", "low" := "2", "default" := "8"]

  const ExpiryBufferSeconds := 300
  const DefaultSummary: string := "Focus Time"
  const SessionExpiredMessage: string := "Google session expired, " + "please reconnect calendar."
  const NoAccessTokenReturned: string := "Refresh token request did not " + "return an access token."
  const MissingFieldsMessage: string :=
    "Missing required fields: eventId, startTime, " + "and positive duration are required."
  const InvalidStartMessage: string := "Invalid startTime format. " + "Please use ISO 8601 format."
  const NotFoundMessage: string := "Focus time event not found " + "on Google Calendar."
  const ForbiddenMessage: string := "Permission denied to update " + "this Google Calendar event."
  const UpdateFailedMessage: string := "Failed to update focus time."

  /**
   * The stored token row; a missing or null value is `None`. An empty string
   * is kept as it is, and the route's `!token` tests see it as missing.
   */
  datatype TokenRow = TokenRow(accessToken: Option<string>, refreshToken: Option<string>, expiresAt: Option<int>)

  /** The token lookup: a row, no row (Postgres code PGRST116), or another database error. */
  datatype TokenLookup = Row(row: TokenRow) | NoRow | DatabaseError

  /** What `refreshAccessToken` produced: new credentials, or a thrown error's message. */
  datatype RefreshOutcome =
    | Refreshed(accessToken: Option<string>, refreshToken: Option<string>, expiryDateMs: Option<int>)
    | RefreshFailed(message: string)

  /** The credentials the OAuth client ends up with. */
  datatype Credentials = Credentials(accessToken: string, refreshToken: Option<string>)

  /** The row written back after a refresh: expiry in seconds, or null. */
  datatype StoredTokens = StoredTokens(accessToken: string, expiresAt: Option<int>, refreshToken: string)

  /**
   * The outcome of the token step: go on with credentials (and the row to
   * write back, after a refresh), or stop with a status, a message and
   * whether the stored connection is deleted.
   */
  datatype TokenStep =
    | Proceed(credentials: Credentials, written: Option<StoredTokens>)
    | Stop(status: int, error: string, deleteConnection: bool)

  /** JavaScript truthiness of an optional string: present and not empty. */
  predicate HasText(s: Option<string>) {
    s.Some? && s.value != ""
  }

  /** Line 93: `expiresAt ? Number(expiresAt) : 0`. */
  function ExpirySeconds(expiresAt: Option<int>): int {
    if expiresAt.Some? then expiresAt.value else 0
  }

  /** Line 95: refresh when the token expires within the next five minutes (or has no expiry). */
  predicate NeedsRefresh(expiresAt: Option<int>, nowSeconds: int) {
    ExpirySeconds(expiresAt) < nowSeconds + ExpiryBufferSeconds
  }

  const RefreshFailureLead: string := "Failed to refresh Google Calendar connection: "
  const ReconnectAdvice: string := ". Please reconnect."

  /**
   * Line 143: the message of a failed refresh wraps the refresh error's own
   * message, which can be read back from between the lead and the advice.
   */
  function RefreshFailureMessage(message: string): (m: string)
    ensures Text.StartsWith(m, RefreshFailureLead) && Text.EndsWith(m, ReconnectAdvice)
    ensures |m| == |RefreshFailureLead| + |message| + |ReconnectAdvice|
    ensures m[|RefreshFailureLead|..|m| - |ReconnectAdvice|] == message
  {
    RefreshFailureLead + message + ReconnectAdvice
  }

  /** Distinct refresh errors give distinct messages. */
  lemma RefreshFailureMessageInjective(m1: string, m2: string)
    requires RefreshFailureMessage(m1) == RefreshFailureMessage(m2)
    ensures m1 == m2
  {
    var r := RefreshFailureMessage(m1);
    assert m1 == r[|RefreshFailureLead|..|r| - |ReconnectAdvice|] == m2;
  }

  /**
   * Lines 91-151: with a live access token, refresh it when it is about to
   * expire. The local token variables are reassigned by a successful refresh;
   * a missing refresh token, a failed refresh or a refresh without an access
   * token delete the connection and answer 401. Tokens are tested for
   * truthiness (lines 97, 108 and 111), so an empty one counts as missing.
   */
  method RefreshIfNeeded(accessToken: string, row: TokenRow, nowSeconds: int, refresh: RefreshOutcome)
    returns (step: TokenStep)
    ensures !NeedsRefresh(row.expiresAt, nowSeconds) ==>
              step == Proceed(Credentials(accessToken, row.refreshToken), None)
    ensures NeedsRefresh(row.expiresAt, nowSeconds) && !HasText(row.refreshToken) ==>
              step == Stop(401, SessionExpiredMessage, true)
    ensures NeedsRefresh(row.expiresAt, nowSeconds) && HasText(row.refreshToken) && refresh.RefreshFailed? ==>
              step == Stop(401, RefreshFailureMessage(refresh.message), true)
    ensures NeedsRefresh(row.expiresAt, nowSeconds) && HasText(row.refreshToken) &&
            refresh.Refreshed? && !HasText(refresh.accessToken) ==>
              step == Stop(401, RefreshFailureMessage(NoAccessTokenReturned), true)
    ensures NeedsRefresh(row.expiresAt, nowSeconds) && HasText(row.refreshToken) &&
            refresh.Refreshed? && HasText(refresh.accessToken) ==>
              step.Proceed?
    ensures step.Stop? ==> step.status == 401 && step.deleteConnection && NeedsRefresh(row.expiresAt, nowSeconds)
    // after a refresh: the new access token, and the new refresh token when one came back, else the old one
    ensures step.Proceed? && NeedsRefresh(row.expiresAt, nowSeconds) ==>
              refresh.Refreshed? && HasText(refresh.accessToken) && HasText(row.refreshToken) &&
              step.credentials.accessToken == refresh.accessToken.value &&
              (HasText(refresh.refreshToken) ==> step.credentials.refreshToken == refresh.refreshToken) &&
              (!HasText(refresh.refreshToken) ==> step.credentials.refreshToken == row.refreshToken) &&
              step.written == Some(StoredTokens(refresh.accessToken.value,
                                                ExpiryFromMilliseconds(refresh.expiryDateMs),
                                                step.credentials.refreshToken.value))
    // a refresh never stores an empty token
    ensures step.Proceed? && step.written.Some? ==>
              step.written.value.accessToken != "" && step.written.value.refreshToken != ""
  {
    var currentAccessToken := accessToken;
    var currentRefreshToken := row.refreshToken;
    if ExpirySeconds(row.expiresAt) < nowSeconds + ExpiryBufferSeconds {
      if !HasText(currentRefreshToken) {
        return Stop(401, SessionExpiredMessage, true);
      }
      match refresh {
        case RefreshFailed(message) =>
          return Stop(401, RefreshFailureMessage(message), true);
        case Refreshed(newAccessToken, newRefresh, expiryDateMs) =>
          var newExpiryDate := ExpiryFromMilliseconds(expiryDateMs);
          var newRefreshToken := if HasText(newRefresh) then newRefresh.value else currentRefreshToken.value;
          if !HasText(newAccessToken) {
            return Stop(401, RefreshFailureMessage(NoAccessTokenReturned), true);
          }
          currentAccessToken := newAccessToken.value;
          currentRefreshToken := Some(newRefreshToken);
          step := Proceed(Credentials(currentAccessToken, currentRefreshToken),
                          Some(StoredTokens(currentAccessToken, newExpiryDate, newRefreshToken)));
      }
    } else {
      step := Proceed(Credentials(currentAccessToken, currentRefreshToken), None);
    }
  }

  /** Line 107: `expiry_date ? Math.floor(expiry_date / 1000) : null`, milliseconds to seconds. */
  function ExpiryFromMilliseconds(ms: Option<int>): (s: Option<int>)
    ensures s.Some? <==> ms.Some? && ms.value != 0
    ensures s.Some? ==> s.value * 1000 <= ms.value < s.value * 1000 + 1000
  {
    if ms.Some? && ms.value != 0 then Some(ms.value / 1000) else None
  }

  // ---------------------------------------------------------------------
  // Body and patch payload
  // ---------------------------------------------------------------------

  /** The request body; an absent, null or empty value is `None`. */
  datatype UpdateBody = UpdateBody(
    eventId: Option<string>,
    startTime: IsoTime,
    duration: Option<int>,
    sessionName: Option<string>,
    priority: Option<string>)

  /** Lines 167-168: an event id, a start time and a positive duration are required. */
  predicate HasRequiredFields(body: UpdateBody) {
    body.eventId.Some? && body.eventId.value != "" &&
    !body.startTime.NoTime? &&
    body.duration.Some? && body.duration.value > 0
  }

  /**
   * Line 179: the colour of the patched event. A known priority (or the
   * literal key 'default') maps through the table, an absent or empty one is
   * '8', and any other string gives no colour at all.
   */
  function PatchColorId(priority: Option<string>): (c: Option<string>)
    ensures priority.None? || priority.value == "" ==> c == Some("8")
    ensures priority == Some("high") ==> c == Some("11")
    ensures priority == Some("medium") ==> c == Some("5")
    ensures priority == Some("low") ==> c == Some("2")
    ensures c.None? <==> priority.Some? && priority.value != "" && priority.value !in PriorityColorMap
  {
    if priority.None? || priority.value == "" then Some(PriorityColorMap["default"])
    else if priority.value in PriorityColorMap then Some(PriorityColorMap[priority.value])
    else None
  }

  /** Line 180: `sessionName || 'Focus Time'`, with no trimming. */
  function PatchSummary(sessionName: Option<string>): (s: string)
    ensures sessionName.Some? && sessionName.value != "" ==> s == sessionName.value
    ensures sessionName.None? || sessionName.value == "" ==> s == DefaultSummary
  {
    if sessionName.Some? && sessionName.value != "" then sessionName.value else DefaultSummary
  }

  /** The payload of `events.patch` (lines 182-192). */
  datatype PatchPayload = PatchPayload(summary: string, start: int, end: int, colorId: Option<string>)

  /** A Google error: its message and HTTP status if any. */
  datatype GoogleError = GoogleError(message: string, status: Option<int>)

  datatype PatchOutcome = Patched | PatchFailed(error: GoogleError)

  datatype Response = Failure(status: int, error: string) | Updated(eventId: string, payload: PatchPayload)

  /**
   * Lines 212-221: the status is Google's (500 when absent or zero); 404 and
   * 403 get fixed messages, anything else keeps the error's own message.
   */
  function PatchErrorResponse(e: GoogleError): (r: Response)
    ensures r.Failure?
    ensures r.status == (if e.status.Some? && e.status.value != 0 then e.status.value else 500)
    ensures r.status == 404 ==> r.error == NotFoundMessage
    ensures r.status == 403 ==> r.error == ForbiddenMessage
    ensures r.status != 404 && r.status != 403 ==>
              r.error == (if e.message != "" then e.message else UpdateFailedMessage)
  {
    var status := if e.status.Some? && e.status.value != 0 then e.status.value else 500;
    if status == 404 then Failure(status, NotFoundMessage)
    else if status == 403 then Failure(status, ForbiddenMessage)
    else if e.message != "" then Failure(status, e.message)
    else Failure(status, UpdateFailedMessage)
  }

  /** Lines 95-144: the token step goes on (no refresh due, or a refresh that returned an access token). */
  predicate RefreshProceeds(row: TokenRow, nowSeconds: int, refresh: RefreshOutcome) {
    !NeedsRefresh(row.expiresAt, nowSeconds) ||
    (HasText(row.refreshToken) && refresh.Refreshed? && HasText(refresh.accessToken))
  }

  /** A signed-in user with a stored access token whose token step goes on. */
  predicate ReadyToPatch(authenticated: bool, tokens: TokenLookup, nowSeconds: int, refresh: RefreshOutcome) {
    authenticated && tokens.Row? && HasText(tokens.row.accessToken) && RefreshProceeds(tokens.row, nowSeconds, refresh)
  }

  /** Lines 173-193: the payload for a valid body, ending `duration` minutes after its start. */
  function PatchFor(request: UpdateBody): (p: PatchPayload)
    requires HasRequiredFields(request) && request.startTime.TimeAt?
    ensures p.start == request.startTime.t && p.end - p.start == request.duration.value > 0
    ensures p.summary == PatchSummary(request.sessionName) && p.colorId == PatchColorId(request.priority)
  {
    PatchPayload(PatchSummary(request.sessionName), request.startTime.t,
                 request.startTime.t + request.duration.value, PatchColorId(request.priority))
  }

  /**
   * The PATCH handler (lines 24-222) with the session check, database
   * answers, refresh and patch call given as inputs.
   */
  method HandlePatch(authenticated: bool, tokens: TokenLookup, nowSeconds: int, refresh: RefreshOutcome,
                     body: Option<UpdateBody>, patch: PatchOutcome) returns (resp: Response)
    ensures !authenticated ==> resp == Failure(401, "Unauthorized")
    ensures authenticated && tokens.NoRow? ==> resp == Failure(404, "Google Calendar connection not found.")
    ensures authenticated && tokens.DatabaseError? ==> resp == Failure(500, "Database error fetching tokens.")
    ensures authenticated && tokens.Row? && !HasText(tokens.row.accessToken) ==>
              resp == Failure(400, "Google access token not found")
    // the token step stops the request
    ensures authenticated && tokens.Row? && HasText(tokens.row.accessToken) && NeedsRefresh(tokens.row.expiresAt, nowSeconds) &&
            !HasText(tokens.row.refreshToken) ==>
              resp == Failure(401, SessionExpiredMessage)
    ensures authenticated && tokens.Row? && HasText(tokens.row.accessToken) && NeedsRefresh(tokens.row.expiresAt, nowSeconds) &&
            HasText(tokens.row.refreshToken) && refresh.RefreshFailed? ==>
              resp == Failure(401, RefreshFailureMessage(refresh.message))
    ensures authenticated && tokens.Row? && HasText(tokens.row.accessToken) && NeedsRefresh(tokens.row.expiresAt, nowSeconds) &&
            HasText(tokens.row.refreshToken) && refresh.Refreshed? && !HasText(refresh.accessToken) ==>
              resp == Failure(401, RefreshFailureMessage(NoAccessTokenReturned))
    // the token step goes on: the body decides
    ensures ReadyToPatch(authenticated, tokens, nowSeconds, refresh) && body.None? ==>
              resp == Failure(400, "Invalid request body")
    ensures ReadyToPatch(authenticated, tokens, nowSeconds, refresh) && body.Some? && !HasRequiredFields(body.value) ==>
              resp == Failure(400, MissingFieldsMessage)
    ensures ReadyToPatch(authenticated, tokens, nowSeconds, refresh) && body.Some? && HasRequiredFields(body.value) &&
            !body.value.startTime.TimeAt? ==>
              resp == Failure(400, InvalidStartMessage)
    ensures ReadyToPatch(authenticated, tokens, nowSeconds, refresh) && body.Some? && HasRequiredFields(body.value) &&
            body.value.startTime.TimeAt? && patch.Patched? ==>
              resp == Updated(body.value.eventId.value, PatchFor(body.value))
    ensures ReadyToPatch(authenticated, tokens, nowSeconds, refresh) && body.Some? && HasRequiredFields(body.value) &&
            body.value.startTime.TimeAt? && patch.PatchFailed? ==>
              resp == PatchErrorResponse(patch.error)
    // an event is only ever updated from a complete, well-formed body
    ensures resp.Updated? ==>
              ReadyToPatch(authenticated, tokens, nowSeconds, refresh) && body.Some? && HasRequiredFields(body.value) &&
              body.value.startTime.TimeAt? && patch.Patched?
    ensures resp.Failure? && resp.status == 401 && authenticated ==>
              (tokens.Row? && NeedsRefresh(tokens.row.expiresAt, nowSeconds)) ||
              (patch.PatchFailed? && patch.error.status == Some(401))
  {
    if !authenticated {
      return Failure(401, "Unauthorized");
    }
    var row;
    match tokens {
      case NoRow => return Failure(404, "Google Calendar connection not found.");
      case DatabaseError => return Failure(500, "Database error fetching tokens.");
      case Row(r) => row := r;
    }
    if !HasText(row.accessToken) {
      return Failure(400, "Google access token not found");
    }
    var step := RefreshIfNeeded(row.accessToken.value, row, nowSeconds, refresh);
    if step.Stop? {
      return Failure(step.status, step.error);
    }
    if body.None? {
      return Failure(400, "Invalid request body");
    }
    var request := body.value;
    if !HasRequiredFields(request) {
      return Failure(400, MissingFieldsMessage);
    }
    if !request.startTime.TimeAt? {
      return Failure(400, InvalidStartMessage);
    }
    var startDate := request.startTime.t;
    var endDate := startDate + request.duration.value;
    var payload := PatchPayload(PatchSummary(request.sessionName), startDate, endDate, PatchColorId(request.priority));
    match patch {
      case Patched => resp := Updated(request.eventId.value, payload);
      case PatchFailed(e) => resp := PatchErrorResponse(e);
    }
  }
}
