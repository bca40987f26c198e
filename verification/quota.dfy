/** The fetch pipeline of the quota client as a pure transition: from the
    credential outcome, the HTTP outcome and the clock to the next published
    snapshot. */
module Quota {
  import opened Wrappers
  import opened Decimal
  import opened Projection

  /** One published snapshot. The seven-day projection fields exist for the
      tray's readers but the fetch only ever computes the five-hour ones. */
  datatype QuotaState = QuotaState(
    fiveHour: Option<real>,
    fiveHourResets: Option<Time>,
    fiveHourProjected: Option<real>,
    fiveHourSaturation: Option<Time>,
    sevenDay: Option<real>,
    sevenDayResets: Option<Time>,
    sevenDayProjected: Option<real>,
    sevenDaySaturation: Option<Time>,
    sevenDaySonnet: Option<real>,
    sevenDaySonnetResets: Option<Time>,
    lastUpdate: Option<Time>,
    error: string,
    tokenExpired: bool)

  /** The zero snapshot: nothing known, no error. */
  const EmptyState: QuotaState :=
    QuotaState(None, None, None, None, None, None, None, None, None, None, None, "", false)

  /** A snapshot that carries no quota data and no update stamp. */
  predicate NoData(s: QuotaState) {
    && s.fiveHour.None? && s.fiveHourResets.None? && s.fiveHourProjected.None? && s.fiveHourSaturation.None?
    && s.sevenDay.None? && s.sevenDayResets.None? && s.sevenDayProjected.None? && s.sevenDaySaturation.None?
    && s.sevenDaySonnet.None? && s.sevenDaySonnetResets.None?
    && s.lastUpdate.None?
  }

  /** The snapshot invariant: an error excludes all data; a projection needs
      both the utilisation and the reset time it was computed from; a
      saturation time needs a projection over 100 % and lies between the
      update and the reset. */
  predicate WellFormed(s: QuotaState) {
    && (s.error != "" ==> NoData(s))
    && (s.tokenExpired ==> NoData(s))
    && (s.fiveHourProjected.Some? ==> s.fiveHour.Some? && s.fiveHourResets.Some? && s.lastUpdate.Some?)
    && (s.fiveHourSaturation.Some? ==>
          && s.fiveHourProjected.Some? && s.fiveHourProjected.value > 100.0
          && s.lastUpdate.Some? && s.lastUpdate.value <= s.fiveHourSaturation.value < s.fiveHourResets.value)
  }

  /** Error text shown in the menu is cut to this many characters. */
  const ErrorBudget: nat := 50

  /** The first `n` characters (runes) of `s`, or `s` itself when it is no longer. */
  function Truncate(s: string, n: nat): (r: string)
    ensures r <= s
    ensures |r| == if |s| <= n then |s| else n
  {
    if |s| <= n then s else s[..n]
  }

  lemma TruncateIdempotent(s: string, n: nat)
    ensures Truncate(Truncate(s, n), n) == Truncate(s, n)
    ensures |s| <= n ==> Truncate(s, n) == s
  {
  }

  /** One bucket as decoded from the usage response; a missing JSON key is None. */
  datatype WireBucket = WireBucket(utilization: Option<real>, resetsAt: Option<string>)

  /** The decoded usage response; a missing bucket is None. */
  datatype UsageResponse = UsageResponse(
    fiveHour: Option<WireBucket>,
    sevenDay: Option<WireBucket>,
    sevenDaySonnet: Option<WireBucket>)

  /** The utilisation and reset time a bucket yields, starting from the given
      values. `parseTime` is RFC 3339 timestamp parsing (section 5.6 of RFC
      3339), None on a malformed timestamp. */
  function ParseBucket(bucket: Option<WireBucket>, parseTime: string -> Option<Time>,
                       util: Option<real>, resets: Option<Time>): (r: (Option<real>, Option<Time>))
    ensures bucket.None? ==> r == (util, resets)
    ensures bucket.Some? ==> r.0 == if bucket.value.utilization.Some? then bucket.value.utilization else util
    ensures r.1 != resets ==>
      bucket.Some? && bucket.value.resetsAt.Some? && r.1 == parseTime(bucket.value.resetsAt.value) && r.1.Some?
    ensures bucket.Some? && bucket.value.resetsAt.Some? && parseTime(bucket.value.resetsAt.value).Some? ==>
      r.1 == parseTime(bucket.value.resetsAt.value)
  {
    match bucket
    case None => (util, resets)
    case Some(b) =>
      var u := if b.utilization.Some? then b.utilization else util;
      if b.resetsAt.None? then (u, resets)
      else
        match parseTime(b.resetsAt.value)
        case None => (u, resets)
        case Some(t) => (u, Some(t))
  }

  /** Applying the same bucket twice changes nothing more: a later parse of
      an identical payload keeps the values the first one produced. */
  lemma ParseBucketIdempotent(bucket: Option<WireBucket>, parseTime: string -> Option<Time>,
                              util: Option<real>, resets: Option<Time>)
    ensures var once := ParseBucket(bucket, parseTime, util, resets);
      ParseBucket(bucket, parseTime, once.0, once.1) == once
  {
  }

  /** Why the credential store could not produce a token; `expired` stands for
      the error being the token-expired kind. */
  datatype CredentialError = CredentialError(message: string, expired: bool)

  /** What happened to the usage request. */
  datatype HttpOutcome =
    | RequestError(message: string)
    | TransportError(message: string)
    | Response(status: int, body: Result<UsageResponse, string>)

  const Unauthorized := 401
  const Forbidden := 403
  const OK := 200

  const UnauthorizedMessage: string := "Token invalid \U{2014} run 'claude login'"
  const ForbiddenMessage: string := "Scope missing user:profile"

  /** The message for a non-200 status. */
  function StatusMessage(status: int): (msg: string)
    ensures msg != ""
    ensures status == Unauthorized ==> msg == UnauthorizedMessage
    ensures status == Forbidden ==> msg == ForbiddenMessage
    ensures status != Unauthorized && status != Forbidden ==> msg == "HTTP " + IntToString(status)
  {
    if status == Unauthorized then UnauthorizedMessage
    else if status == Forbidden then ForbiddenMessage
    else "HTTP " + IntToString(status)
  }

  /** Recovers the status from a failure message: the two explained statuses
      by their text, any other from the signed number after "HTTP ". */
  function ReadStatus(msg: string): Option<int> {
    if msg == UnauthorizedMessage then Some(Unauthorized)
    else if msg == ForbiddenMessage then Some(Forbidden)
    else
      match Expect(msg, "HTTP ")
      case None => None
      case Some(num) =>
        var negative := Expect(num, "-").Some?;
        var digits := if negative then Expect(num, "-").value else num;
        match ReadNat(digits)
        case Some((n, rest)) =>
          var value := if negative then 0 - (n as int) else n as int;
          if rest == "" then Some(value) else None
        case None => None
  }

  /** Every status, explained or not, can be recovered from its message. */
  lemma {:induction false} StatusMessageReadBack(status: int)
    ensures ReadStatus(StatusMessage(status)) == Some(status)
  {
    if status != Unauthorized && status != Forbidden {
      var num := IntToString(status);
      var msg := "HTTP " + num;
      assert msg[0] != UnauthorizedMessage[0] && msg[0] != ForbiddenMessage[0];
      ExpectOfConcat("HTTP ", num);
      if status < 0 {
        var magnitude := NatToString(-status);
        ExpectOfConcat("-", magnitude);
        ReadNatOfRendered(-status, "");
        assert magnitude + "" == magnitude;
      } else {
        assert IsDigit(num[0]);
        ReadNatOfRendered(status, "");
        assert num + "" == num;
      }
    }
  }

  /** Distinct statuses give distinct messages. */
  lemma StatusMessageInjective(s1: int, s2: int)
    requires StatusMessage(s1) == StatusMessage(s2)
    ensures s1 == s2
  {
    StatusMessageReadBack(s1);
    StatusMessageReadBack(s2);
  }

  /** The error-only snapshot every failure installs. */
  function ErrorState(msg: string, expired: bool): (s: QuotaState)
    ensures NoData(s) && s.error == msg && s.tokenExpired == expired
  {
    EmptyState.(error := msg, tokenExpired := expired)
  }

  /** The data snapshot built from a decoded response at time `now`. */
  function DataState(data: UsageResponse, parseTime: string -> Option<Time>, now: Time): (s: QuotaState)
    ensures s.error == "" && !s.tokenExpired && s.lastUpdate == Some(now)
    ensures s.sevenDayProjected.None? && s.sevenDaySaturation.None?
    ensures (s.fiveHour, s.fiveHourResets) == ParseBucket(data.fiveHour, parseTime, None, None)
    ensures (s.sevenDay, s.sevenDayResets) == ParseBucket(data.sevenDay, parseTime, None, None)
    ensures (s.sevenDaySonnet, s.sevenDaySonnetResets) == ParseBucket(data.sevenDaySonnet, parseTime, None, None)
    ensures s.fiveHourProjected ==
      if s.fiveHour.Some? && s.fiveHourResets.Some?
      then ComputeProjection(s.fiveHour.value, s.fiveHourResets.value, now, FiveHourWindow)
      else None
    ensures s.fiveHourSaturation ==
      if s.fiveHour.Some? && s.fiveHourResets.Some?
      then ComputeSaturationTime(s.fiveHour.value, s.fiveHourResets.value, now, FiveHourWindow)
      else None
  {
    var (fh, fhResets) := ParseBucket(data.fiveHour, parseTime, None, None);
    var (sd, sdResets) := ParseBucket(data.sevenDay, parseTime, None, None);
    var (sn, snResets) := ParseBucket(data.sevenDaySonnet, parseTime, None, None);
    var projected :=
      if fh.Some? && fhResets.Some? then ComputeProjection(fh.value, fhResets.value, now, FiveHourWindow) else None;
    var saturation :=
      if projected.Some? && projected.value > 100.0
      then ComputeSaturationTime(fh.value, fhResets.value, now, FiveHourWindow)
      else None;
    assert fh.Some? && fhResets.Some? ==> saturation == ComputeSaturationTime(fh.value, fhResets.value, now, FiveHourWindow) by {
      if fh.Some? && fhResets.Some? {
        GateIsRedundant(fh.value, fhResets.value, now, FiveHourWindow);
      }
    }
    QuotaState(fh, fhResets, projected, saturation, sd, sdResets, None, None, sn, snResets, Some(now), "", false)
  }

  /** The outcome of one fetch: the snapshot it publishes and whether it succeeded. */
  datatype FetchResult = FetchResult(state: QuotaState, ok: bool)

  /** One fetch cycle. Every failure publishes an error-only snapshot and
      reports false; only the credential path can flag an expired token;
      success publishes a fresh data snapshot stamped with `now`. */
  function Fetch(token: Result<string, CredentialError>, http: HttpOutcome,
                 parseTime: string -> Option<Time>, now: Time): (r: FetchResult)
    ensures r.ok <==> token.Success? && http.Response? && http.status == OK && http.body.Success?
    ensures !r.ok ==> NoData(r.state)
    ensures r.ok ==> r.state.error == "" && r.state.lastUpdate == Some(now)
    ensures r.ok ==> r.state == DataState(http.body.value, parseTime, now)
    ensures r.state.tokenExpired <==> token.Failure? && token.error.expired
    ensures token.Failure? ==> r.state.error == Truncate(token.error.message, ErrorBudget)
    ensures token.Success? && (http.RequestError? || http.TransportError?) ==>
      r.state.error == Truncate(http.message, ErrorBudget)
    ensures token.Success? && http.Response? && http.status != OK ==>
      r.state.error == StatusMessage(http.status) && r.state.error != ""
    ensures token.Success? && http.Response? && http.status == OK && http.body.Failure? ==>
      r.state.error == Truncate(http.body.error, ErrorBudget)
    ensures WellFormed(r.state)
  {
    match token
    case Failure(e) =>
      FetchResult(ErrorState(Truncate(e.message, ErrorBudget), e.expired), false)
    case Success(_) =>
      match http
      case RequestError(msg) => FetchResult(ErrorState(Truncate(msg, ErrorBudget), false), false)
      case TransportError(msg) => FetchResult(ErrorState(Truncate(msg, ErrorBudget), false), false)
      case Response(status, body) =>
        if status != OK then FetchResult(ErrorState(StatusMessage(status), false), false)
        else
          match body
          case Failure(msg) => FetchResult(ErrorState(Truncate(msg, ErrorBudget), false), false)
          case Success(data) => FetchResult(DataState(data, parseTime, now), true)
  }

  /** A usable token and a 200 reply publish the decoded buckets: a five-hour
      bucket of 42.5 % whose reset has already passed, 73 % over seven days
      and 10 % for Sonnet give exactly those figures and no projection. */
  lemma SuccessPublishesBody(parseTime: string -> Option<Time>, reset: Time, now: Time)
    requires parseTime("2026-02-06T14:30:00Z") == Some(reset) && reset < now
    ensures var body := UsageResponse(
        Some(WireBucket(Some(42.5), Some("2026-02-06T14:30:00Z"))),
        Some(WireBucket(Some(73.0), None)),
        Some(WireBucket(Some(10.0), None)));
      var r := Fetch(Success("test-token"), Response(OK, Success(body)), parseTime, now);
      && r.ok && r.state.error == ""
      && r.state.fiveHour == Some(42.5) && r.state.fiveHourResets == Some(reset)
      && r.state.sevenDay == Some(73.0) && r.state.sevenDaySonnet == Some(10.0)
      && r.state.fiveHourProjected.None? && r.state.fiveHourSaturation.None?
  {
  }

  /** A failed fetch shows a non-empty error whenever the underlying error
      text is non-empty. */
  lemma FailureHasError(token: Result<string, CredentialError>, http: HttpOutcome,
                        parseTime: string -> Option<Time>, now: Time)
    requires token.Failure? ==> token.error.message != ""
    requires (http.RequestError? || http.TransportError?) ==> http.message != ""
    requires http.Response? && http.body.Failure? ==> http.body.error != ""
    ensures !Fetch(token, http, parseTime, now).ok <==> Fetch(token, http, parseTime, now).state.error != ""
  {
  }
}
