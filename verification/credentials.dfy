/** The OAuth credential store: expiry check, loading from the credentials
    file or the macOS keychain, token refresh and write-back. The store is an
    immutable record and every operation returns the next one; file,
    keychain and HTTP access are inputs. Times are milliseconds since the
    epoch. */
module Credentials {
  import opened Wrappers
  import opened Decimal

  datatype OAuthCredentials = OAuthCredentials(accessToken: string, refreshToken: string, expiresAt: int)

  /** A token is treated as expired this long before its stated expiry. */
  const ExpiryMarginMs: int := 60_000

  /** Whether the cached token should no longer be used at `nowMs`. */
  function IsExpired(c: OAuthCredentials, nowMs: int): (expired: bool)
    ensures expired <==> c.expiresAt - nowMs <= ExpiryMarginMs
  {
    nowMs >= c.expiresAt - ExpiryMarginMs
  }

  /** An unknown expiry (zero) counts as expired at any time after the epoch. */
  lemma ZeroExpiryIsExpired(c: OAuthCredentials, nowMs: int)
    requires c.expiresAt == 0 && nowMs >= 0
    ensures IsExpired(c, nowMs)
  {
  }

  /** Once expired, a token stays expired as time goes on. */
  lemma ExpiryIsMonotone(c: OAuthCredentials, t1: int, t2: int)
    requires t1 <= t2 && IsExpired(c, t1)
    ensures IsExpired(c, t2)
  {
  }

  /** The `claudeAiOauth` object of the credentials document as decoded;
      missing fields decode to empty strings and zero. */
  datatype OAuthEntry = OAuthEntry(accessToken: string, refreshToken: string, expiresAt: int)

  /** What reading and decoding a credentials source produced. */
  datatype SourceRead = ReadFailed(reason: string) | ParseFailed(reason: string) | Decoded(entry: OAuthEntry)

  datatype LoadError = CannotRead(reason: string) | CannotParse(reason: string) | MissingTokens

  /** The store after a load attempt and whether it succeeded. */
  datatype LoadResult = LoadResult(creds: OAuthCredentials, outcome: Outcome<LoadError>)

  /** Loading from the credentials file: both tokens must be present; on any
      failure the store is left as it was. */
  function LoadFromFile(c: OAuthCredentials, read: SourceRead): (r: LoadResult)
    ensures r.outcome.Pass? <==> read.Decoded? && read.entry.accessToken != "" && read.entry.refreshToken != ""
    ensures r.outcome.Fail? ==> r.creds == c
    ensures read.ReadFailed? ==> r.outcome == Fail(CannotRead(read.reason))
    ensures read.ParseFailed? ==> r.outcome == Fail(CannotParse(read.reason))
    ensures r.outcome.Pass? ==>
      r.creds == OAuthCredentials(read.entry.accessToken, read.entry.refreshToken, read.entry.expiresAt)
  {
    match read
    case ReadFailed(reason) => LoadResult(c, Fail(CannotRead(reason)))
    case ParseFailed(reason) => LoadResult(c, Fail(CannotParse(reason)))
    case Decoded(e) =>
      if e.accessToken == "" || e.refreshToken == "" then LoadResult(c, Fail(MissingTokens))
      else LoadResult(OAuthCredentials(e.accessToken, e.refreshToken, e.expiresAt), Pass)
  }

  /** The macOS load: the keychain entry when it can be read and has an
      access token, else the credentials file. The keychain path takes only
      the access token and expiry, keeping the refresh token. */
  function LoadWithKeychain(c: OAuthCredentials, keychain: Result<OAuthEntry, string>, file: SourceRead): (r: LoadResult)
    ensures keychain.Failure? ==> r == LoadFromFile(c, file)
    ensures keychain.Success? && keychain.value.accessToken == "" ==> r == LoadFromFile(c, file)
    ensures keychain.Success? && keychain.value.accessToken != "" ==>
      && r.outcome.Pass?
      && r.creds == c.(accessToken := keychain.value.accessToken, expiresAt := keychain.value.expiresAt)
  {
    match keychain
    case Failure(_) => LoadFromFile(c, file)
    case Success(e) =>
      if e.accessToken == "" then LoadFromFile(c, file)
      else LoadResult(c.(accessToken := e.accessToken, expiresAt := e.expiresAt), Pass)
  }

  /** A usable keychain entry makes the file irrelevant. */
  lemma KeychainHitIgnoresFile(c: OAuthCredentials, entry: OAuthEntry, f1: SourceRead, f2: SourceRead)
    requires entry.accessToken != ""
    ensures LoadWithKeychain(c, Success(entry), f1) == LoadWithKeychain(c, Success(entry), f2)
    ensures LoadWithKeychain(c, Success(entry), f1).creds.refreshToken == c.refreshToken
  {
  }

  /** The decoded body of a successful token response. */
  datatype TokenResponse = TokenResponse(accessToken: string, refreshToken: string, expiresIn: int)

  /** What the refresh request produced. */
  datatype RefreshResponse =
    | RefreshTransportError(reason: string)
    | RefreshReply(status: int, body: Result<TokenResponse, string>)

  datatype RefreshError = RequestFailed(reason: string) | RefreshHttpStatus(status: int) | BadTokenResponse(reason: string)

  function RefreshErrorText(e: RefreshError): (msg: string)
    ensures msg != ""
  {
    match e
    case RequestFailed(reason) => "token refresh request: " + reason
    case RefreshHttpStatus(status) => "token refresh failed: HTTP " + IntToString(status)
    case BadTokenResponse(reason) => "parse token response: " + reason
  }

  /** Token lifetime assumed when the response gives none. */
  const DefaultExpiresInSeconds: int := 3600

  datatype RefreshResult = RefreshResult(creds: OAuthCredentials, outcome: Outcome<RefreshError>)

  /** Exchanging the refresh token: on success both tokens are replaced and
      the expiry is `nowMs` plus the granted lifetime; on any failure the
      store is unchanged. */
  function Refresh(c: OAuthCredentials, response: RefreshResponse, nowMs: int): (r: RefreshResult)
    ensures r.outcome.Pass? <==> response.RefreshReply? && response.status == 200 && response.body.Success?
    ensures r.outcome.Fail? ==> r.creds == c
    ensures response.RefreshTransportError? ==> r.outcome == Fail(RequestFailed(response.reason))
    ensures response.RefreshReply? && response.status != 200 ==> r.outcome == Fail(RefreshHttpStatus(response.status))
    ensures response.RefreshReply? && response.status == 200 && response.body.Failure? ==>
      r.outcome == Fail(BadTokenResponse(response.body.error))
    ensures r.outcome.Pass? ==>
      var t := response.body.value;
      && r.creds.accessToken == t.accessToken
      && r.creds.refreshToken == t.refreshToken
      && r.creds.expiresAt == nowMs + 1000 * (if t.expiresIn == 0 then DefaultExpiresInSeconds else t.expiresIn)
  {
    match response
    case RefreshTransportError(reason) => RefreshResult(c, Fail(RequestFailed(reason)))
    case RefreshReply(status, body) =>
      if status != 200 then RefreshResult(c, Fail(RefreshHttpStatus(status)))
      else
        match body
        case Failure(reason) => RefreshResult(c, Fail(BadTokenResponse(reason)))
        case Success(t) =>
          var expiresIn := if t.expiresIn == 0 then DefaultExpiresInSeconds else t.expiresIn;
          RefreshResult(OAuthCredentials(t.accessToken, t.refreshToken, nowMs + expiresIn * 1000), Pass)
  }

  /** A refreshed token is already expired when it is issued exactly when
      its granted lifetime is explicit and at most the 60 s margin; the
      default lifetime of an hour always gives a usable token. */
  lemma {:induction false} RefreshedTokenExpiry(c: OAuthCredentials, response: RefreshResponse, nowMs: int)
    requires Refresh(c, response, nowMs).outcome.Pass?
    ensures IsExpired(Refresh(c, response, nowMs).creds, nowMs)
        <==> response.body.value.expiresIn != 0 && response.body.value.expiresIn <= 60
  {
    var t := response.body.value;
    var lifetime := if t.expiresIn == 0 then DefaultExpiresInSeconds else t.expiresIn;
    assert Refresh(c, response, nowMs).creds.expiresAt - nowMs == 1000 * lifetime;
  }

  /** The store after a token request and what the caller receives. */
  datatype TokenResult = TokenResult(creds: OAuthCredentials, token: Result<string, RefreshError>)

  /** A usable access token: the cached one while it is fresh, else the one a
      refresh obtains. A failed refresh leaves the store unchanged and hands
      out no token. `response` is what a refresh request would receive; it
      is consulted only when the token has expired. */
  function GetAccessToken(c: OAuthCredentials, nowMs: int, response: RefreshResponse): (r: TokenResult)
    ensures !IsExpired(c, nowMs) ==> r == TokenResult(c, Success(c.accessToken))
    ensures r.token.Failure? ==> r.creds == c && IsExpired(c, nowMs)
    ensures r.token.Success? ==> r.token.value == r.creds.accessToken
    ensures IsExpired(c, nowMs) ==>
      (r.token.Success? <==> Refresh(c, response, nowMs).outcome.Pass?) && r.creds == Refresh(c, response, nowMs).creds
  {
    if IsExpired(c, nowMs) then
      var refreshed := Refresh(c, response, nowMs);
      match refreshed.outcome
      case Fail(e) => TokenResult(c, Failure(e))
      case Pass => TokenResult(refreshed.creds, Success(refreshed.creds.accessToken))
    else TokenResult(c, Success(c.accessToken))
  }

  /** A fresh token is served from the cache no matter what a refresh would
      have returned. */
  lemma FreshTokenNeedsNoRefresh(c: OAuthCredentials, nowMs: int, r1: RefreshResponse, r2: RefreshResponse)
    requires !IsExpired(c, nowMs)
    ensures GetAccessToken(c, nowMs, r1) == GetAccessToken(c, nowMs, r2)
  {
  }

  /** One top-level value of the credentials document: another program's
      value, written back with the same JSON value (re-encoding sorts the
      keys, drops insignificant whitespace and escapes `<`, `>` and `&`), or
      the OAuth object this program writes. */
  datatype RawValue = OtherValue(json: string) | OAuthObject(entry: OAuthEntry)

  /** What writing the tokens back does to the process: its result when the
      process carries on, or the panic of storing into a nil map. */
  datatype RefreshRun = Completed(result: RefreshResult) | Panicked

  const OAuthKey: string := "claudeAiOauth"

  /** The credentials document as read back before writing: unreadable or
      not a JSON object, the JSON literal `null` (which decodes without error
      to no map at all), or an object's top-level keys. */
  datatype RawDocument = Unavailable(reason: string) | NullDocument | Object(keys: map<string, RawValue>)

  /** What writing the tokens back leads to. Storing a key into the absent
      map of a `null` document is a run-time panic in Go. */
  datatype PersistResult = Persisted(doc: map<string, RawValue>) | PersistFailed(reason: string) | NilMapPanic

  /** Writing the tokens back: the document's `claudeAiOauth` key is replaced
      by the current tokens and every other top-level key is kept. A document
      that cannot be read or decoded is not written. */
  function Persist(doc: RawDocument, c: OAuthCredentials): (r: PersistResult)
    ensures doc.Unavailable? ==> r == PersistFailed(doc.reason)
    ensures doc.NullDocument? ==> r.NilMapPanic?
    ensures doc.Object? ==> r.Persisted?
    ensures doc.Object? ==> r.doc.Keys == doc.keys.Keys + {OAuthKey}
    ensures doc.Object? ==> forall k :: k in doc.keys && k != OAuthKey ==> r.doc[k] == doc.keys[k]
    ensures doc.Object? ==> r.doc[OAuthKey] == OAuthObject(OAuthEntry(c.accessToken, c.refreshToken, c.expiresAt))
  {
    match doc
    case Unavailable(reason) => PersistFailed(reason)
    case NullDocument => NilMapPanic
    case Object(raw) => Persisted(raw[OAuthKey := OAuthObject(OAuthEntry(c.accessToken, c.refreshToken, c.expiresAt))])
  }

  /** Loading what was persisted restores the store it was written from. */
  lemma {:induction false} PersistThenLoad(doc: map<string, RawValue>, c: OAuthCredentials, other: OAuthCredentials)
    requires c.accessToken != "" && c.refreshToken != ""
    ensures var written := Persist(Object(doc), c).doc[OAuthKey];
      && written.OAuthObject?
      && LoadFromFile(other, Decoded(written.entry)) == LoadResult(c, Pass)
  {
    var written := Persist(Object(doc), c).doc[OAuthKey];
    assert written == OAuthObject(OAuthEntry(c.accessToken, c.refreshToken, c.expiresAt));
  }

  /** A refresh followed by its write-back. A write that fails is only
      logged, so the refresh result stands; a `null` credentials document
      decodes to a nil map and the write-back panics, which ends the process
      after a successful token request. */
  function RefreshAndWriteBack(c: OAuthCredentials, response: RefreshResponse, doc: RawDocument, nowMs: int): (r: RefreshRun)
    ensures r.Panicked? <==> Refresh(c, response, nowMs).outcome.Pass? && doc.NullDocument?
    ensures r.Completed? ==> r.result == Refresh(c, response, nowMs)
    ensures Refresh(c, response, nowMs).outcome.Fail? ==> r == Completed(Refresh(c, response, nowMs))
  {
    var refreshed := Refresh(c, response, nowMs);
    match refreshed.outcome
    case Fail(_) => Completed(refreshed)
    case Pass =>
      match Persist(doc, refreshed.creds)
      case NilMapPanic => Panicked
      case _ => Completed(refreshed)
  }
}
