/** The quota client: one fetch cycle that first asks the credential store
    for a token, then runs the fetch pipeline. */
module Client {
  import opened Wrappers
  import opened Projection
  import opened Quota
  import opened Credentials

  /** Go's `UnixMilli`: whole seconds times 1000 plus the non-negative
      nanosecond part divided by 10^6, which is the floor of the instant in
      milliseconds, before and after the epoch alike. */
  function UnixMilli(now: Time): (ms: int)
    ensures ms * 1_000_000 <= now < (ms + 1) * 1_000_000
  {
    var sec := now / Second;
    var nsec := now % Second;
    sec * 1000 + nsec / 1_000_000
  }

  /** The store's error as the fetch pipeline sees it. The credential store
      reports every failure as a refresh error, never as the token-expired
      kind. */
  function AsCredentialError(e: RefreshError): (ce: CredentialError)
    ensures !ce.expired && ce.message == RefreshErrorText(e)
  {
    CredentialError(RefreshErrorText(e), false)
  }

  datatype ClientStep = ClientStep(creds: OAuthCredentials, fetch: FetchResult)

  /** One fetch cycle against the credential store. */
  function FetchWithStore(c: OAuthCredentials, refresh: RefreshResponse, http: HttpOutcome,
                          parseTime: string -> Option<Time>, now: Time): (r: ClientStep)
    ensures r.creds == GetAccessToken(c, UnixMilli(now), refresh).creds
    ensures !r.fetch.state.tokenExpired
    ensures !IsExpired(c, UnixMilli(now)) ==> r.creds == c
    ensures r.fetch.ok ==> http.Response? && http.status == OK
    ensures GetAccessToken(c, UnixMilli(now), refresh).token.Failure? ==>
      !r.fetch.ok && NoData(r.fetch.state) && r.fetch.state.error != ""
    ensures var t := GetAccessToken(c, UnixMilli(now), refresh);
      t.token.Success? ==> r.fetch == Fetch(Success(t.token.value), http, parseTime, now)
    ensures var t := GetAccessToken(c, UnixMilli(now), refresh);
      t.token.Failure? ==> r.fetch.state == ErrorState(Truncate(RefreshErrorText(t.token.error), ErrorBudget), false)
  {
    var t := GetAccessToken(c, UnixMilli(now), refresh);
    var token := match t.token
      case Success(tok) => Success(tok)
      case Failure(e) => Failure(AsCredentialError(e));
    ClientStep(t.creds, Fetch(token, http, parseTime, now))
  }

  /** While the cached token is fresh, a cycle is a plain fetch with that
      token, whatever a refresh would have returned. */
  lemma FreshStoreFetchesWithCachedToken(c: OAuthCredentials, r1: RefreshResponse, r2: RefreshResponse,
                                         http: HttpOutcome, parseTime: string -> Option<Time>, now: Time)
    requires !IsExpired(c, UnixMilli(now))
    ensures FetchWithStore(c, r1, http, parseTime, now) == FetchWithStore(c, r2, http, parseTime, now)
    ensures FetchWithStore(c, r1, http, parseTime, now) == ClientStep(c, Fetch(Success(c.accessToken), http, parseTime, now))
  {
  }
}
