/**
 * TokenManager of background.js: the access/refresh token pair, its expiry
 * and their copies in extension storage.
 *
 * The network and the browser are parameters: a TokenReply is what the
 * token endpoint answered (OAuth 2.0, RFC 6749: section 4.1.3 for the code
 * exchange, section 6 for the refresh grant), a Redirect is how the
 * interactive authorization window ended, and `now` is `Date.now()`.
 *
 * The Session functions below are the specification; the TokenManager
 * class updates its fields step by step and is proved to reach the state
 * they describe.
 */
module Tokens {
  import opened Wrappers
  import opened Text
  import Pkce

  const AccessTokenKey := "accessToken"
  const RefreshTokenKey := "refreshToken"
  const TokenExpiryKey := "tokenExpiry"
  const CodeVerifierKey := "codeVerifier"

  /** A token counts as expired one minute before its stated expiry. */
  const RefreshMargin := 60000

  /** A value kept in `chrome.storage.local`: Undefined is a key set to `undefined` or `null`. */
  datatype Stored = Str(s: string) | Num(n: int) | Undefined

  /** JavaScript truthiness of a possibly absent number: absent and 0 are falsy. */
  predicate TruthyTime(o: Option<int>) {
    o.Some? && o.value != 0
  }

  function StoreText(o: Option<string>): Stored {
    if o.Some? then Str(o.value) else Undefined
  }

  /** `(await chrome.storage.local.get(key))[key]` for a string-valued key. */
  function ReadText(storage: map<string, Stored>, key: string): Option<string> {
    if key in storage && storage[key].Str? then Some(storage[key].s) else None
  }

  /** `(await chrome.storage.local.get(key))[key]` for a number-valued key. */
  function ReadNumber(storage: map<string, Stored>, key: string): Option<int> {
    if key in storage && storage[key].Num? then Some(storage[key].n) else None
  }

  /** The TokenManager fields together with the storage they are persisted to. */
  datatype Session = Session(
    accessToken: Option<string>,
    refreshToken: Option<string>,
    tokenExpiry: Option<int>,
    storage: map<string, Stored>)

  /**
   * What the token endpoint answered: `response.ok` and the fields of its
   * JSON body, or the message thrown when `fetch` rejects or the body is
   * not JSON (`response.json()` throws before `response.ok` is looked at).
   */
  datatype TokenReply =
    | Answered(
        ok: bool,
        accessToken: Option<string>,
        refreshToken: Option<string>,
        expiresIn: int,
        error: Option<string>,
        errorDescription: Option<string>)
    | Threw(message: string)

  /**
   * How `launchWebAuthFlow` ended: Denied when it set `lastError` or gave
   * no redirect URL; otherwise the query parameters of the redirect URL.
   */
  datatype Redirect =
    | Denied(lastError: Option<string>)
    | Returned(code: Option<string>, error: Option<string>, errorDescription: Option<string>)

  /** The form posted to the token endpoint. */
  datatype TokenRequest =
    | AuthorizationCodeGrant(code: string, codeVerifier: string)
    | RefreshTokenGrant(refreshToken: string)

  /** A session after one operation, the token request it posted (if any) and what it returned or threw. */
  datatype Step<T> = Step(session: Session, sent: Option<TokenRequest>, result: Result<T, string>)

  /** isTokenExpired */
  predicate Expired(s: Session, now: int)
    ensures !Expired(s, now) ==> Truthy(s.accessToken) && s.tokenExpiry.Some? && now < s.tokenExpiry.value - 60000
  {
    !Truthy(s.accessToken) || !TruthyTime(s.tokenExpiry) || now >= s.tokenExpiry.value - RefreshMargin
  }

  /** `tokenData.error_description || tokenData.error` inside an error message. */
  function ReplyError(reply: TokenReply): string
    requires reply.Answered?
  {
    OrElse(reply.errorDescription, reply.error)
  }

  /** The new fields after a successful grant, written through to storage. */
  function WithTokens(s: Session, access: Option<string>, refresh: Option<string>, expiry: int): Session {
    Session(access, refresh, Some(expiry),
      s.storage[AccessTokenKey := StoreText(access)][RefreshTokenKey := StoreText(refresh)][TokenExpiryKey := Num(expiry)])
  }

  /** clearTokens */
  function Cleared(s: Session): Session {
    Session(None, None, None, s.storage - {AccessTokenKey, RefreshTokenKey, TokenExpiryKey})
  }

  /** loadStoredTokens */
  function Loaded(s: Session): Session {
    Session(ReadText(s.storage, AccessTokenKey), ReadText(s.storage, RefreshTokenKey),
      ReadNumber(s.storage, TokenExpiryKey), s.storage)
  }

  /** refreshAccessToken */
  function Refreshed(s: Session, now: int, reply: TokenReply): (st: Step<()>)
    ensures st.sent.Some? <==> Truthy(s.refreshToken)
    ensures st.result.Err? ==> st.session == s || st.session == Cleared(s)
    ensures st.result.Ok? ==> Loaded(st.session) == st.session
  {
    if !Truthy(s.refreshToken) then
      Step(s, None, Err("No refresh token available"))
    else
      var sent := Some(RefreshTokenGrant(s.refreshToken.value));
      if reply.Threw? then Step(s, sent, Err(reply.message))
      else if !reply.ok then
        Step(Cleared(s), sent, Err("Token refresh failed: " + ReplyError(reply)))
      else
        var refresh := if Truthy(reply.refreshToken) then reply.refreshToken else s.refreshToken;
        Step(WithTokens(s, reply.accessToken, refresh, now + reply.expiresIn * 1000), sent, Ok(()))
  }

  /** exchangeCodeForTokens, with the verifier read back from storage. */
  function Exchanged(s: Session, now: int, code: string, reply: TokenReply): (st: Step<()>)
    ensures st.sent.Some? <==> Truthy(ReadText(s.storage, CodeVerifierKey))
    ensures st.result.Err? ==> st.session == s
    ensures st.result.Ok? ==> CodeVerifierKey !in st.session.storage
  {
    var verifier := ReadText(s.storage, CodeVerifierKey);
    if !Truthy(verifier) then
      Step(s, None, Err("Code verifier not found. Please try authentication again."))
    else
      var sent := Some(AuthorizationCodeGrant(code, verifier.value));
      if reply.Threw? then Step(s, sent, Err(reply.message))
      else if !reply.ok then
        Step(s, sent, Err("Token exchange failed: " + ReplyError(reply)))
      else
        var t := WithTokens(s, reply.accessToken, reply.refreshToken, now + reply.expiresIn * 1000);
        Step(t.(storage := t.storage - {CodeVerifierKey}), sent, Ok(()))
  }

  /**
   * authenticate: stale credentials are removed from storage (the fields
   * are left as they are), the fresh verifier is stored, and the redirect
   * decides between an error and the code exchange.
   */
  function Authenticated(s: Session, now: int, verifier: string, redirect: Redirect, reply: TokenReply): (st: Step<()>)
    ensures st.sent.Some? ==> st.sent.value.AuthorizationCodeGrant? && st.sent.value.codeVerifier == verifier
    ensures st.result.Err? ==>
      AccessTokenKey !in st.session.storage && RefreshTokenKey !in st.session.storage && TokenExpiryKey !in st.session.storage
  {
    var wiped := s.storage - {CodeVerifierKey, AccessTokenKey, RefreshTokenKey, TokenExpiryKey};
    var s1 := s.(storage := wiped[CodeVerifierKey := Str(verifier)]);
    match redirect
    case Denied(lastError) =>
      Step(s1, None, Err(if Truthy(lastError) then lastError.value else "Authentication failed"))
    case Returned(code, error, description) =>
      if Truthy(error) then Step(s1, None, Err("Auth error: " + OrElse(description, error)))
      else if !Truthy(code) then Step(s1, None, Err("No authorization code returned"))
      else Exchanged(s1, now, code.value, reply)
  }

  /** The branch getValidToken takes. */
  datatype Route = UseCurrent | Refresh | Authenticate

  function RouteFor(s: Session, now: int): Route {
    if !Expired(s, now) then UseCurrent
    else if Truthy(s.refreshToken) then Refresh
    else Authenticate
  }

  /** After a refresh or an authentication, getValidToken returns the access token field. */
  function ThenToken(st: Step<()>): Step<Option<string>> {
    Step(st.session, st.sent, if st.result.Ok? then Ok(st.session.accessToken) else Err(st.result.error))
  }

  /** getValidToken */
  function ValidToken(s: Session, now: int, refreshReply: TokenReply, verifier: string,
                      redirect: Redirect, exchangeReply: TokenReply): (st: Step<Option<string>>)
    ensures st.result.Ok? ==> st.result.value == st.session.accessToken
    ensures st.sent.Some? ==> Expired(s, now)
  {
    match RouteFor(s, now)
    case UseCurrent => Step(s, None, Ok(s.accessToken))
    case Refresh => ThenToken(Refreshed(s, now, refreshReply))
    case Authenticate => ThenToken(Authenticated(s, now, verifier, redirect, exchangeReply))
  }

  // ------------------------------------------------------------------ lemmas

  /** Without an access token or an expiry, the token is expired at every instant. */
  lemma ExpiredWhenAbsent(s: Session, now: int)
    requires !Truthy(s.accessToken) || !TruthyTime(s.tokenExpiry)
    ensures Expired(s, now)
  {
  }

  /** The one-minute margin: still valid 61 seconds before expiry, expired 59 seconds before. */
  lemma RefreshMarginBoundary(s: Session, expiry: int)
    requires Truthy(s.accessToken) && s.tokenExpiry == Some(expiry) && expiry != 0
    ensures !Expired(s, expiry - 61000)
    ensures Expired(s, expiry - 59000)
    ensures Expired(s, expiry - RefreshMargin)
    ensures forall now :: Expired(s, now) <==> now >= expiry - 60000
  {
  }

  /** A valid token is returned as it is: no request is posted and nothing changes. */
  lemma ValidTokenUntouched(s: Session, now: int, refreshReply: TokenReply, verifier: string,
                            redirect: Redirect, exchangeReply: TokenReply)
    requires !Expired(s, now)
    ensures ValidToken(s, now, refreshReply, verifier, redirect, exchangeReply) == Step(s, None, Ok(s.accessToken))
  {
  }

  /**
   * An expired token is refreshed exactly when a refresh token is present;
   * the refresh grant then carries that refresh token. Otherwise the
   * interactive flow runs, and any grant it posts is a code exchange.
   */
  lemma ExpiredTokenRoute(s: Session, now: int, refreshReply: TokenReply, verifier: string,
                          redirect: Redirect, exchangeReply: TokenReply)
    requires Expired(s, now)
    ensures var st := ValidToken(s, now, refreshReply, verifier, redirect, exchangeReply);
      (st.sent.Some? && st.sent.value.RefreshTokenGrant?) <==> Truthy(s.refreshToken)
    ensures var st := ValidToken(s, now, refreshReply, verifier, redirect, exchangeReply);
      Truthy(s.refreshToken) ==> st.sent == Some(RefreshTokenGrant(s.refreshToken.value))
    ensures var st := ValidToken(s, now, refreshReply, verifier, redirect, exchangeReply);
      !Truthy(s.refreshToken) && st.sent.Some? ==> st.sent == Some(AuthorizationCodeGrant(st.sent.value.code, verifier))
  {
  }

  /**
   * A rejected refresh nulls all three fields and removes their storage
   * keys, leaving every other key as it was, and reports the failure.
   */
  lemma FailedRefreshClears(s: Session, now: int, reply: TokenReply)
    requires Truthy(s.refreshToken) && reply.Answered? && !reply.ok
    ensures var st := Refreshed(s, now, reply);
      && st.session.accessToken.None? && st.session.refreshToken.None? && st.session.tokenExpiry.None?
      && AccessTokenKey !in st.session.storage && RefreshTokenKey !in st.session.storage
      && TokenExpiryKey !in st.session.storage
      && (forall k | k in s.storage && k !in {AccessTokenKey, RefreshTokenKey, TokenExpiryKey} ::
            k in st.session.storage && st.session.storage[k] == s.storage[k])
      && st.result == Err("Token refresh failed: " + ReplyError(reply))
  {
  }

  /**
   * After a rejected refresh, the next getValidToken, at any later instant,
   * takes the interactive authentication path: no stale token is reused,
   * whether from memory or reloaded from storage.
   */
  lemma FailedRefreshForcesAuthentication(s: Session, now: int, reply: TokenReply, later: int)
    requires Truthy(s.refreshToken) && reply.Answered? && !reply.ok
    ensures RouteFor(Refreshed(s, now, reply).session, later) == Authenticate
    ensures RouteFor(Loaded(Refreshed(s, now, reply).session), later) == Authenticate
  {
  }

  /**
   * A successful refresh sets the expiry to now plus `expires_in` seconds,
   * keeps the old refresh token when the reply carries none, and leaves
   * storage holding exactly the new fields.
   */
  lemma SuccessfulRefreshPersists(s: Session, now: int, reply: TokenReply)
    requires Truthy(s.refreshToken) && reply.Answered? && reply.ok
    ensures var st := Refreshed(s, now, reply);
      && st.result == Ok(())
      && st.session.accessToken == reply.accessToken
      && st.session.tokenExpiry == Some(now + reply.expiresIn * 1000)
      && st.session.refreshToken == (if Truthy(reply.refreshToken) then reply.refreshToken else s.refreshToken)
      && Loaded(st.session) == st.session
  {
  }

  /**
   * A successful code exchange stores the new fields, removes the code
   * verifier and posts the verifier that was in storage.
   */
  lemma SuccessfulExchangePersists(s: Session, now: int, code: string, reply: TokenReply)
    requires Truthy(ReadText(s.storage, CodeVerifierKey)) && reply.Answered? && reply.ok
    ensures var st := Exchanged(s, now, code, reply);
      && st.result == Ok(())
      && st.session.accessToken == reply.accessToken
      && st.session.refreshToken == reply.refreshToken
      && st.sent == Some(AuthorizationCodeGrant(code, ReadText(s.storage, CodeVerifierKey).value))
      && st.session.tokenExpiry == Some(now + reply.expiresIn * 1000)
      && CodeVerifierKey !in st.session.storage
      && Loaded(st.session) == st.session
  {
  }

  /**
   * When the token request throws (no connection, or a body that is not
   * JSON), neither refresh nor exchange changes anything: the tokens are not
   * cleared, the code verifier stays stored, and the thrown message is
   * reported as it is.
   */
  lemma ThrownReplyKeepsSession(s: Session, now: int, code: string, message: string)
    ensures var st := Refreshed(s, now, Threw(message));
      && st.session == s
      && st.result == Err(if Truthy(s.refreshToken) then message else "No refresh token available")
    ensures var st := Exchanged(s, now, code, Threw(message));
      && st.session == s
      && st.result == Err(if Truthy(ReadText(s.storage, CodeVerifierKey)) then message
                          else "Code verifier not found. Please try authentication again.")
  {
  }

  /**
   * authenticate always exchanges the code with the verifier it has just
   * generated: once a code comes back, the code grant is posted with that
   * verifier and the only failure left is the endpoint's rejection.
   */
  lemma AuthenticationUsesFreshVerifier(s: Session, now: int, verifier: string, redirect: Redirect, reply: TokenReply)
    requires verifier != ""
    ensures var st := Authenticated(s, now, verifier, redirect, reply);
      st.sent.Some? ==> st.sent.value.AuthorizationCodeGrant? && st.sent.value.codeVerifier == verifier
    ensures var st := Authenticated(s, now, verifier, redirect, reply);
      redirect.Returned? && !Truthy(redirect.error) && Truthy(redirect.code) ==>
        && st.sent == Some(AuthorizationCodeGrant(redirect.code.value, verifier))
        && (reply.Answered? ==> st.result.Ok? || StartsWith(st.result.error, "Token exchange failed: "))
        && (reply.Threw? ==> st.result == Err(reply.message))
  {
    if redirect.Returned? && !Truthy(redirect.error) && Truthy(redirect.code) {
      var wiped := s.storage - {CodeVerifierKey, AccessTokenKey, RefreshTokenKey, TokenExpiryKey};
      var s1 := s.(storage := wiped[CodeVerifierKey := Str(verifier)]);
      assert ReadText(s1.storage, CodeVerifierKey) == Some(verifier);
    }
  }

  /** A failed authentication leaves the in-memory tokens as they were but removes their stored copies. */
  lemma FailedAuthenticationKeepsFields(s: Session, now: int, verifier: string, redirect: Redirect, reply: TokenReply)
    requires redirect.Denied? || (redirect.Returned? && (Truthy(redirect.error) || !Truthy(redirect.code)))
    ensures var st := Authenticated(s, now, verifier, redirect, reply);
      && st.result.Err? && st.sent.None?
      && st.session.accessToken == s.accessToken && st.session.refreshToken == s.refreshToken
      && st.session.tokenExpiry == s.tokenExpiry
      && Loaded(st.session).accessToken.None? && Loaded(st.session).refreshToken.None?
  {
  }

  /** Cleared credentials cannot be brought back by loadStoredTokens, at any instant. */
  lemma ClearedStaysCleared(s: Session, now: int)
    ensures Loaded(Cleared(s)) == Cleared(s)
    ensures RouteFor(Cleared(s), now) == Authenticate
    ensures RouteFor(Loaded(Cleared(s)), now) == Authenticate
  {
  }

  // ------------------------------------------------------------------ class

  class TokenManager {
    var accessToken: Option<string>
    var refreshToken: Option<string>
    var tokenExpiry: Option<int>
    /** `chrome.storage.local`, as far as this class reads and writes it. */
    var storage: map<string, Stored>

    function State(): Session
      reads this
    {
      Session(accessToken, refreshToken, tokenExpiry, storage)
    }

    constructor (storage: map<string, Stored>)
      ensures State() == Session(None, None, None, storage)
    {
      accessToken := None;
      refreshToken := None;
      tokenExpiry := None;
      this.storage := storage;
    }

    function IsTokenExpired(now: int): bool
      reads this
    {
      Expired(State(), now)
    }

    method LoadStoredTokens()
      modifies this
      ensures State() == Loaded(old(State()))
    {
      accessToken := ReadText(storage, AccessTokenKey);
      refreshToken := ReadText(storage, RefreshTokenKey);
      tokenExpiry := ReadNumber(storage, TokenExpiryKey);
    }

    method ClearTokens()
      modifies this
      ensures State() == Cleared(old(State()))
    {
      accessToken := None;
      refreshToken := None;
      tokenExpiry := None;
      storage := storage - {AccessTokenKey, RefreshTokenKey, TokenExpiryKey};
    }

    /** Stores the three fields: `chrome.storage.local.set({accessToken, refreshToken, tokenExpiry})`. */
    method PersistTokens()
      requires tokenExpiry.Some?
      modifies this`storage
      ensures State() == WithTokens(old(State()), accessToken, refreshToken, tokenExpiry.value)
    {
      storage := storage[AccessTokenKey := StoreText(accessToken)][RefreshTokenKey := StoreText(refreshToken)]
        [TokenExpiryKey := Num(tokenExpiry.value)];
    }

    method RefreshAccessToken(now: int, reply: TokenReply) returns (sent: Option<TokenRequest>, r: Result<(), string>)
      modifies this
      ensures Step(State(), sent, r) == Refreshed(old(State()), now, reply)
    {
      if !Truthy(refreshToken) {
        return None, Err("No refresh token available");
      }
      sent := Some(RefreshTokenGrant(refreshToken.value));
      if reply.Threw? {
        return sent, Err(reply.message);
      }
      if !reply.ok {
        ClearTokens();
        return sent, Err("Token refresh failed: " + ReplyError(reply));
      }
      accessToken := reply.accessToken;
      if Truthy(reply.refreshToken) {
        refreshToken := reply.refreshToken;
      }
      tokenExpiry := Some(now + reply.expiresIn * 1000);
      PersistTokens();
      r := Ok(());
    }

    method ExchangeCodeForTokens(now: int, code: string, reply: TokenReply) returns (sent: Option<TokenRequest>, r: Result<(), string>)
      modifies this
      ensures Step(State(), sent, r) == Exchanged(old(State()), now, code, reply)
    {
      var verifier := ReadText(storage, CodeVerifierKey);
      if !Truthy(verifier) {
        return None, Err("Code verifier not found. Please try authentication again.");
      }
      sent := Some(AuthorizationCodeGrant(code, verifier.value));
      if reply.Threw? {
        return sent, Err(reply.message);
      }
      if !reply.ok {
        return sent, Err("Token exchange failed: " + ReplyError(reply));
      }
      accessToken := reply.accessToken;
      refreshToken := reply.refreshToken;
      tokenExpiry := Some(now + reply.expiresIn * 1000);
      PersistTokens();
      storage := storage - {CodeVerifierKey};
      r := Ok(());
    }

    /**
     * authenticate, with `choices` the indices drawn for the 43-character
     * verifier (the challenge derived from it only enters the authorization
     * URL, which is not modelled).
     */
    method Authenticate(now: int, choices: seq<nat>, redirect: Redirect, reply: TokenReply)
      returns (verifier: string, sent: Option<TokenRequest>, r: Result<(), string>)
      requires |choices| == Pkce.VerifierLength
      requires forall k | 0 <= k < |choices| :: choices[k] < |Pkce.Charset|
      modifies this
      ensures verifier == Pkce.Picked(choices) && |verifier| == Pkce.VerifierLength
      ensures Step(State(), sent, r) == Authenticated(old(State()), now, verifier, redirect, reply)
    {
      storage := storage - {CodeVerifierKey, AccessTokenKey, RefreshTokenKey, TokenExpiryKey};
      verifier := Pkce.RandomString(Pkce.VerifierLength, choices);
      storage := storage[CodeVerifierKey := Str(verifier)];
      match redirect {
        case Denied(lastError) =>
          return verifier, None, Err(if Truthy(lastError) then lastError.value else "Authentication failed");
        case Returned(code, error, description) =>
          if Truthy(error) {
            return verifier, None, Err("Auth error: " + OrElse(description, error));
          }
          if !Truthy(code) {
            return verifier, None, Err("No authorization code returned");
          }
          sent, r := ExchangeCodeForTokens(now, code.value, reply);
      }
    }

    method GetValidToken(now: int, refreshReply: TokenReply, choices: seq<nat>, redirect: Redirect, exchangeReply: TokenReply)
      returns (sent: Option<TokenRequest>, r: Result<Option<string>, string>)
      requires |choices| == Pkce.VerifierLength
      requires forall k | 0 <= k < |choices| :: choices[k] < |Pkce.Charset|
      modifies this
      ensures Step(State(), sent, r) == ValidToken(old(State()), now, refreshReply, Pkce.Picked(choices), redirect, exchangeReply)
    {
      sent := None;
      if IsTokenExpired(now) {
        var done: Result<(), string>;
        if Truthy(refreshToken) {
          sent, done := RefreshAccessToken(now, refreshReply);
        } else {
          var verifier;
          verifier, sent, done := Authenticate(now, choices, redirect, exchangeReply);
        }
        if done.Err? {
          return sent, Err(done.error);
        }
      }
      r := Ok(accessToken);
    }
  }
}
