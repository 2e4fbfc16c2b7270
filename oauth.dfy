/** The token lifecycle around the store: lazy refresh of an expired token, a read-only summary of the
    stored token, the classification the login callback handler makes, and the project id picked from a
    client secret file. The refresh is a parameter: the oauth2 library call that turns a token into a new
    one or fails. Times are integer timestamps and `now` is the current one. */
module OAuth {
  import opened Common
  import opened Keyring

  /** `RefreshToken`: loading the client configuration and asking the provider for a new token. */
  type Refresher = Token -> Result<Token, string>

  /** `token.Expiry.Before(now)`. */
  predicate Expired(t: Token, now: int) {
    t.expiry < now
  }

  /** `GetValidToken`: the stored token while it has not expired; otherwise exactly one refresh, whose
      token is stored and returned. `asked` lists the tokens the refresh was called with. */
  method GetValidToken(store: Store, now: int, refresh: Refresher) returns (r: Result<Token, AuthError>, ghost asked: seq<Token>)
    modifies store`slot
    ensures old(store.Read()).Failure? ==>
              r == Failure(old(store.Read()).error) && asked == [] && store.slot == old(store.slot)
    ensures old(store.Read()) == Success(None) ==>
              r == Failure(NotLoggedIn) && asked == [] && store.slot == old(store.slot)
    ensures old(store.Read()).Success? && old(store.Read()).value.Some? ==>
              var t := old(store.Read()).value.value;
              (!Expired(t, now) ==> r == Success(t) && asked == [] && store.slot == old(store.slot)) &&
              (Expired(t, now) ==> asked == [t]) &&
              (Expired(t, now) && refresh(t).Failure? ==>
                 r == Failure(RefreshFailed(refresh(t).error)) && store.slot == old(store.slot)) &&
              (Expired(t, now) && refresh(t).Success? && store.writeFault.None? ==>
                 r == Success(refresh(t).value) && store.slot == Some(Encoded(refresh(t).value))) &&
              (Expired(t, now) && refresh(t).Success? && store.writeFault.Some? ==>
                 r == Failure(KeyringWrite(store.writeFault.value)) && store.slot == old(store.slot))
  {
    asked := [];
    var stored := store.GetToken();
    if stored.Failure? {
      return Failure(stored.error), asked;
    }
    if stored.value.None? {
      return Failure(NotLoggedIn), asked;
    }
    var token := stored.value.value;
    if Expired(token, now) {
      asked := asked + [token];
      var refreshed := refresh(token);
      if refreshed.Failure? {
        return Failure(RefreshFailed(refreshed.error)), asked;
      }
      token := refreshed.value;
      var e := store.SetToken(token);
      if e.Fail? {
        return Failure(e.error), asked;
      }
    }
    r := Success(token);
  }

  /** A token that `GetValidToken` returns has not expired, provided the refresh hands out tokens that
      have not expired: the stored one when it is still valid, the refreshed one otherwise. */
  method ValidTokenIsUnexpired(store: Store, now: int, refresh: Refresher) returns (r: Result<Token, AuthError>)
    requires forall t :: refresh(t).Success? ==> !Expired(refresh(t).value, now)
    modifies store`slot
    ensures r.Success? ==> !Expired(r.value, now)
  {
    ghost var asked;
    r, asked := GetValidToken(store, now, refresh);
  }

  datatype TokenInfo = TokenInfo(hasToken: bool, expiry: int, isExpired: bool, tokenType: string)

  /** `GetTokenInfo`: a summary of the stored token, read without changing anything; no token gives
      the zero summary. */
  method GetTokenInfo(store: Store, now: int) returns (r: Result<TokenInfo, AuthError>)
    ensures store.Read().Failure? ==> r == Failure(store.Read().error)
    ensures store.Read() == Success(None) ==> r == Success(TokenInfo(false, 0, false, ""))
    ensures store.Read().Success? && store.Read().value.Some? ==>
              var t := store.Read().value.value;
              r == Success(TokenInfo(true, t.expiry, Expired(t, now), t.tokenType))
    ensures r.Success? ==> (r.value.hasToken <==> store.Read().value.Some?)
  {
    var stored := store.GetToken();
    if stored.Failure? {
      return Failure(stored.error);
    }
    if stored.value.None? {
      return Success(TokenInfo(false, 0, false, ""));
    }
    var token := stored.value.value;
    r := Success(TokenInfo(true, token.expiry, Expired(token, now), token.tokenType));
  }

  // ---------------------------------------------------------------------------------------------
  // Login callback

  /** What the `/callback` handler does with one request: the HTTP status it answers, and the code it
      hands to the waiting login flow or the error it reports to it. */
  datatype Callback = Callback(status: int, delivered: Result<string, string>)

  /** The reason given when the consent screen returns no code; the failure page shows it too. */
  function FailureReason(errorParam: string): (m: string)
    ensures m != ""
    ensures errorParam != "" ==> m == errorParam
  {
    if errorParam == "" then "no authorization code received" else errorParam
  }

  /** The callback handler, on the `code` and `error` query parameters. */
  function HandleCallback(code: string, errorParam: string): (c: Callback)
    ensures code != "" ==> c == Callback(200, Success(code))
    ensures code == "" ==> c == Callback(400, Failure("authorization failed: " + FailureReason(errorParam)))
  {
    if code == "" then Callback(400, Failure("authorization failed: " + FailureReason(errorParam)))
    else Callback(200, Success(code))
  }

  /** A code is delivered exactly when the status is 200, and a failure always carries a reason. */
  lemma CallbackClassifies(code: string, errorParam: string)
    ensures var c := HandleCallback(code, errorParam);
            (c.status == 200 <==> c.delivered.Success?) && (c.delivered.Success? <==> code != "") &&
            (c.delivered.Failure? ==> |c.delivered.error| > |"authorization failed: "|)
  {
  }

  // ---------------------------------------------------------------------------------------------
  // Client secret file

  /** The two project ids a client secret file may carry; a missing one reads as "". */
  datatype ClientSecret = ClientSecret(installedProjectId: string, webProjectId: string)

  /** `parseClientSecret`, on the outcome of reading and decoding the file: the installed application's
      project id when it has one, the web application's otherwise. */
  function ParseClientSecret(file: Result<ClientSecret, string>): (r: Result<string, string>)
    ensures file.Failure? <==> r.Failure?
    ensures file.Failure? ==> r.error == file.error
    ensures file.Success? && file.value.installedProjectId != "" ==> r.value == file.value.installedProjectId
    ensures file.Success? && file.value.installedProjectId == "" ==> r.value == file.value.webProjectId
  {
    match file
    case Failure(e) => Failure(e)
    case Success(secret) =>
      if secret.installedProjectId != "" then Success(secret.installedProjectId) else Success(secret.webProjectId)
  }

  /** The project id is empty only when neither application type names one. */
  lemma ParseClientSecretEmpty(secret: ClientSecret)
    ensures ParseClientSecret(Success(secret)).value == "" <==>
            secret.installedProjectId == "" && secret.webProjectId == ""
  {
  }
}
