/**
 * The OAuth token lifecycle of the REST class as functions of the stored
 * option rows: when a client is configured, how a token response is
 * persisted, what `ensure_valid_token` decides and writes, and how the OAuth
 * callback ends. The class in drive_rest.dfy performs these step by step and
 * is proved to agree with them.
 */
module TokenLifecycle {
  import opened Php
  import opened WordPress
  import opened GoogleApi

  const DefaultExpiresIn := 3600
  const SuccessRedirect := "admin.php?page=wpmudev_plugintest_drive&auth=success"

  /** Both client fields of the credentials row are non-empty (the test in `setup_google_client`). */
  predicate CredentialsPresent(creds: Value) {
    !IsEmpty(Index(creds, "client_id")) && !IsEmpty(Index(creds, "client_secret"))
  }

  /** The array `save_credentials` writes. */
  function CredentialsArray(clientId: string, clientSecret: string): (v: Value)
    ensures Index(v, "client_id") == Str(clientId)
    ensures Index(v, "client_secret") == Str(clientSecret)
  {
    var v := Arr([("client_id", Str(clientId)), ("client_secret", Str(clientSecret))]);
    assert Keys(v.entries)[0] == "client_id";
    assert Keys(v.entries)[1] == "client_secret";
    v
  }

  /** The stored access token is handed to the client only when it is a non-empty array. */
  function LoadedToken(stored: Option<Value>): (r: Option<Value>)
    ensures r.Some? <==> stored.Some? && stored.value.Arr? && stored.value.entries != []
    ensures r.Some? ==> r == stored
  {
    var t := stored.GetOr(Str(""));
    if !IsEmpty(t) && t.Arr? then Some(t) else None
  }

  /**
   * `setup_google_client`: a fresh client when both credentials are present,
   * otherwise the client that was there before (it is not cleared).
   */
  function SetupClient(prev: Option<GoogleClient>, s: Slots, redirectUri: string, h: Host): (r: Option<GoogleClient>)
    ensures !CredentialsPresent(s.credentials.GetOr(Arr([]))) ==> r == prev
    ensures CredentialsPresent(s.credentials.GetOr(Arr([]))) ==> r.Some?
    ensures CredentialsPresent(s.credentials.GetOr(Arr([]))) ==>
      && r.value.clientId == SanitizeTextField(h, Index(s.credentials.value, "client_id"))
      && r.value.clientSecret == SanitizeTextField(h, Index(s.credentials.value, "client_secret"))
      && r.value.redirectUri == redirectUri
      && r.value.scopes == [DriveFileScope, DriveReadonlyScope]
      && r.value.accessType == "offline" && r.value.prompt == "consent"
      && r.value.accessToken == LoadedToken(s.accessToken)
  {
    var creds := s.credentials.GetOr(Arr([]));
    if !CredentialsPresent(creds) then prev
    else
      Some(GoogleClient(
        SanitizeTextField(h, Index(creds, "client_id")),
        SanitizeTextField(h, Index(creds, "client_secret")),
        redirectUri,
        [DriveFileScope, DriveReadonlyScope],
        "offline",
        "consent",
        LoadedToken(s.accessToken)))
  }

  /** `$token['expires_in'] ?? 3600`. */
  function ExpiresIn(t: TokenArray): (r: int)
    ensures Index(Arr(t), "expires_in").Null? ==> r == DefaultExpiresIn
    ensures Index(Arr(t), "expires_in").Int? ==> r == Index(Arr(t), "expires_in").i
  {
    var e := Index(Arr(t), "expires_in");
    if e.Int? then e.i else DefaultExpiresIn
  }

  /**
   * How a token response is persisted, by the callback and by a refresh alike:
   * the whole array becomes the access token, a `refresh_token` in it replaces
   * the stored one (otherwise the stored one stays), and the expiry becomes
   * `now + expires_in`.
   */
  function StoreToken(s: Slots, t: TokenArray, now: nat): (r: Slots)
    // the whole answer becomes the access token
    ensures r.accessToken == Some(Arr(t))
    // a set `refresh_token` replaces the stored one; otherwise the stored one stays
    ensures IsSet(Arr(t), "refresh_token") ==> r.refreshToken == Some(Index(Arr(t), "refresh_token"))
    ensures !IsSet(Arr(t), "refresh_token") ==> r.refreshToken == s.refreshToken
    // the expiry is `now + expires_in`, one hour when the answer does not say
    ensures Index(Arr(t), "expires_in").Null? ==> r.tokenExpires == Some(now + DefaultExpiresIn)
    ensures Index(Arr(t), "expires_in").Int? ==> r.tokenExpires == Some(now + Index(Arr(t), "expires_in").i)
    ensures r.credentials == s.credentials
  {
    var blob := Arr(t);
    s.(accessToken := Some(blob),
       refreshToken := if IsSet(blob, "refresh_token") then Some(Index(blob, "refresh_token")) else s.refreshToken,
       tokenExpires := Some(now + ExpiresIn(t)))
  }

  /** The refresh token `ensure_valid_token` reads (`get_option` defaults to false). */
  function StoredRefreshToken(s: Slots): Value {
    s.refreshToken.GetOr(Bool(false))
  }

  /** A refresh answer is accepted when it returned an array without an `error` key (even a null one). */
  predicate RefreshAccepted(o: TokenOutcome) {
    o.Returned? && !KeyExists(o.token, "error")
  }

  /** The decision of `ensure_valid_token`, the rows afterwards, and the calls it made. */
  datatype Check = Check(ok: bool, slots: Slots, calls: seq<RemoteCall>)

  /**
   * `ensure_valid_token`. `configured` says a client exists, `expired` is the
   * library's verdict on the client's token, `refresh` answers a refresh.
   */
  function TokenCheck(configured: bool, expired: bool, s: Slots, now: nat, refresh: Value -> TokenOutcome): (r: Check)
    // no client: refuse, touch nothing
    ensures !configured ==> !r.ok && r.slots == s && r.calls == []
    // token still good: accept, touch nothing
    ensures configured && !expired ==> r.ok && r.slots == s && r.calls == []
    // expired without a refresh token: refuse without asking Google
    ensures configured && expired && IsEmpty(StoredRefreshToken(s)) ==> !r.ok && r.slots == s && r.calls == []
    // expired with a refresh token: exactly one refresh, accepted or not
    ensures configured && expired && !IsEmpty(StoredRefreshToken(s)) ==>
      && r.calls == [RefreshCall(StoredRefreshToken(s))]
      && (r.ok <==> RefreshAccepted(refresh(StoredRefreshToken(s))))
      && (r.ok ==> r.slots == StoreToken(s, refresh(StoredRefreshToken(s)).token, now))
    // a refusal never writes: stale tokens stay where they are
    ensures !r.ok ==> r.slots == s
    ensures r.slots.credentials == s.credentials
    // never more than one call, and only ever a refresh
    ensures |r.calls| <= 1 && forall c <- r.calls :: c.RefreshCall?
  {
    if !configured then Check(false, s, [])
    else if !expired then Check(true, s, [])
    else
      var rt := StoredRefreshToken(s);
      if IsEmpty(rt) then Check(false, s, [])
      else
        var o := refresh(rt);
        if RefreshAccepted(o) then Check(true, StoreToken(s, o.token, now), [RefreshCall(rt)])
        else Check(false, s, [RefreshCall(rt)])
  }

  /** Why the callback page dies (`wp_die`). */
  datatype DieReason =
    | AuthorizationFailed(error: string)
    | NoCode
    | ExchangeRejected(description: Value)
    | ExchangeThrew(message: string)

  /** The callback ends either in a redirect to the admin page or in `wp_die`. */
  datatype CallbackEnd = Redirect(location: string) | Die(reason: DieReason)

  datatype CallbackResult = CallbackResult(end: CallbackEnd, slots: Slots, calls: seq<RemoteCall>)

  /** An exchange answer is accepted when `isset($token['error'])` is false. */
  predicate ExchangeAccepted(o: TokenOutcome) {
    o.Returned? && !IsSet(Arr(o.token), "error")
  }

  /** The message shown when the exchange answer carries an error. */
  function RejectionText(t: TokenArray): (r: Value)
    ensures IsSet(Arr(t), "error_description") ==> r == Index(Arr(t), "error_description")
    ensures !IsSet(Arr(t), "error_description") ==> r == Index(Arr(t), "error")
  {
    var d := Index(Arr(t), "error_description");
    if d.Null? then Index(Arr(t), "error") else d
  }

  /**
   * `handle_callback` with its two (already sanitized) query parameters.
   */
  function Callback(s: Slots, code: string, error: string, now: nat, exchange: string -> TokenOutcome): (r: CallbackResult)
    // a provider error or a missing code ends the flow before Google is asked
    ensures !EmptyString(error) ==> r == CallbackResult(Die(AuthorizationFailed(error)), s, [])
    ensures EmptyString(error) && EmptyString(code) ==> r == CallbackResult(Die(NoCode), s, [])
    // otherwise one exchange of the code
    ensures !EmptyString(error) || EmptyString(code) <==> r.calls == []
    ensures EmptyString(error) && !EmptyString(code) ==> r.calls == [ExchangeCall(code)]
    ensures r.end.Redirect? <==> EmptyString(error) && !EmptyString(code) && ExchangeAccepted(exchange(code))
    // only a redirect writes, and then as a refresh does
    ensures r.end.Redirect? ==> r.end.location == SuccessRedirect && r.slots == StoreToken(s, exchange(code).token, now)
    ensures r.end.Die? ==> r.slots == s
    // a thrown exchange dies with the exception's message, a rejected one with `error_description ?? error`
    ensures EmptyString(error) && !EmptyString(code) && exchange(code).Threw? ==>
      r.end == Die(ExchangeThrew(exchange(code).message))
    ensures EmptyString(error) && !EmptyString(code) && exchange(code).Returned? && IsSet(Arr(exchange(code).token), "error") ==>
      r.end == Die(ExchangeRejected(RejectionText(exchange(code).token)))
  {
    if !EmptyString(error) then CallbackResult(Die(AuthorizationFailed(error)), s, [])
    else if EmptyString(code) then CallbackResult(Die(NoCode), s, [])
    else
      var calls := [ExchangeCall(code)];
      match exchange(code)
      case Threw(m) => CallbackResult(Die(ExchangeThrew(m)), s, calls)
      case Returned(t) =>
        if IsSet(Arr(t), "error") then CallbackResult(Die(ExchangeRejected(RejectionText(t))), s, calls)
        else CallbackResult(Redirect(SuccessRedirect), StoreToken(s, t, now), calls)
  }

  /**
   * The credentials row is written by `save_credentials` alone: neither the
   * callback nor the token check touches it, whatever Google answers.
   */
  lemma TokenStepsKeepCredentials(s: Slots, code: string, error: string, now: nat, exchange: string -> TokenOutcome,
                                  configured: bool, expired: bool, refresh: Value -> TokenOutcome)
    ensures Callback(s, code, error, now, exchange).slots.credentials == s.credentials
    ensures TokenCheck(configured, expired, s, now, refresh).slots.credentials == s.credentials
  {
  }

  /**
   * The callback and a refresh persist the same answer identically, and a
   * refresh answer without `refresh_token` keeps the stored refresh token.
   */
  lemma CallbackAndRefreshStoreAlike(s: Slots, code: string, now: nat, exchange: string -> TokenOutcome, refresh: Value -> TokenOutcome)
    requires !EmptyString(code) && !IsEmpty(StoredRefreshToken(s))
    requires exchange(code) == refresh(StoredRefreshToken(s))
    requires ExchangeAccepted(exchange(code)) && RefreshAccepted(refresh(StoredRefreshToken(s)))
    ensures Callback(s, code, "", now, exchange).slots == TokenCheck(true, true, s, now, refresh).slots
    ensures !IsSet(Arr(exchange(code).token), "refresh_token") ==>
      TokenCheck(true, true, s, now, refresh).slots.refreshToken == s.refreshToken
  {
  }

  /**
   * The two error tests differ: an answer whose `error` key holds null is a
   * failure to `ensure_valid_token` (`array_key_exists`) but a success to the
   * callback (`isset`).
   */
  lemma NullErrorKeyDividesTheTwoTests(t: TokenArray)
    ensures ExchangeAccepted(Returned(t)) && !RefreshAccepted(Returned(t)) <==>
      KeyExists(t, "error") && Index(Arr(t), "error") == Null
    ensures RefreshAccepted(Returned(t)) ==> ExchangeAccepted(Returned(t))
    ensures var u: TokenArray := [("error", Null)];
      ExchangeAccepted(Returned(u)) && !RefreshAccepted(Returned(u))
  {
    var u: TokenArray := [("error", Null)];
    assert Keys(u)[0] == "error";
  }

  /** With the token still good, the check is a pure read: repeating it changes nothing. */
  lemma CheckIsIdempotentWhileValid(s: Slots, now: nat, refresh: Value -> TokenOutcome)
    ensures var c := TokenCheck(true, false, s, now, refresh);
      c.ok && TokenCheck(true, false, c.slots, now, refresh) == c
  {
  }

  /** A token that was just persisted is what the next client setup loads (when it is non-empty). */
  lemma StoredTokenIsLoadedBySetup(prev: Option<GoogleClient>, s: Slots, t: TokenArray, now: nat, redirectUri: string, h: Host)
    requires t != []
    requires CredentialsPresent(s.credentials.GetOr(Arr([])))
    ensures var c := SetupClient(prev, StoreToken(s, t, now), redirectUri, h);
      c.Some? && c.value.accessToken == Some(Arr(t))
  {
  }
}
