/**
 * AppController: the login page, the login form post, the token endpoint and
 * logout. Each handler's response is recorded as a value; cookies, redirects
 * and the payload handed to the JWT signer are data, not effects.
 */
module Controller {
  import opened Wrappers
  import opened Js
  import opened Uri
  import opened Service

  /** settings.json. */
  datatype Settings = Settings(
    serviceName: string,
    ssoUrl: string,
    validOrigins: seq<string>,
    validCallbackUrls: seq<string>,
    validAuds: seq<string>,
    sessionLength: int,   // seconds
    tokenExpiresIn: int,  // seconds; applied by the JWT signer
    secret: string)       // signing key; used by the JWT signer

  /** The query of GET /. */
  datatype IndexQuery = IndexQuery(callbackUrl: Option<string>, error: Option<string>, username: Option<string>)

  /** The variables the index view is rendered with. */
  datatype IndexView =
    | InvalidCallbackView(message: string)
    | LoginView(serviceName: string, usernameAutofocus: string, callbackUrl: string)
    | WrongCredentialsView(
        serviceName: string, message: string, username: string, passwordAutofocus: string, callbackUrl: string)

  /** A Set-Cookie made by res.cookie; an absent value is written as JavaScript renders undefined. */
  datatype Cookie = Cookie(name: string, value: Option<string>, maxAge: int, httpOnly: bool)

  /** The claims handed to jwtService.sign; an absent `sub` is dropped from the token. */
  datatype Payload = Payload(iss: string, aud: string, sub: Option<string>)

  /** What a handler sends. */
  datatype Response =
    | StatusText(code: int, text: string)         // res.status(code).send(text)
    | Status(code: int)                           // res.sendStatus(code)
    | Redirect(location: string, setCookie: Option<Cookie>)
    | SignedToken(payload: Payload)               // res.send(jwtService.sign(payload))
    | End(clearCookie: Cookie)                    // res.cookie(...); res.end()
    | Failure(error: ServiceError)                // an exception escaped the handler

  const SessionCookieName: string := "session_id"
  const WrongCredentialsError: string := "wrongUsernameOrPassword"

  /** The cookie set on sign-in: the session id, living sessionLength seconds (maxAge is in milliseconds). */
  function SessionCookie(settings: Settings, sessionId: string): Cookie {
    Cookie(SessionCookieName, Some(sessionId), settings.sessionLength * 1000, true)
  }

  /** The cookie set on logout: the same name, expiring at once. */
  function ClearedCookie(sessionId: Option<string>): Cookie {
    Cookie(SessionCookieName, sessionId, 0, true)
  }

  /** The query fields of the redirect after a failed sign-in, with the username and the callback URL encoded. */
  function ErrorRedirectFields(username: string, callbackUrl: string): seq<string> {
    ["error=" + WrongCredentialsError,
     "username=" + EncodeUriComponent(username),
     "callbackUrl=" + EncodeUriComponent(callbackUrl)]
  }

  /** The redirect after a failed sign-in. */
  function ErrorRedirect(username: string, callbackUrl: string): string {
    "/?" + JoinFields(ErrorRedirectFields(username, callbackUrl))
  }

  /**
   * The login page reads back exactly what was submitted: the URL has no
   * fragment, its query splits into the three fields error, username and
   * callbackUrl, and decoding the two values gives the username and the
   * callback URL unchanged.
   */
  lemma ErrorRedirectCarriesSubmittedValues(username: string, callbackUrl: string)
    ensures var url := ErrorRedirect(username, callbackUrl);
      && |url| >= 2 && '#' !in url
      && var fields := QueryFields(url[2..]);
         && |fields| == 3 && fields[0] == "error=" + WrongCredentialsError
         && |fields[1]| >= 9 && fields[1][..9] == "username="
         && DecodeUriComponent(fields[1][9..]) == Some(username)
         && |fields[2]| >= 12 && fields[2][..12] == "callbackUrl="
         && DecodeUriComponent(fields[2][12..]) == Some(callbackUrl)
  {
    var fields := ErrorRedirectFields(username, callbackUrl);
    EncodedHasNoDelimiters(username);
    EncodedHasNoDelimiters(callbackUrl);
    assert forall i :: 0 <= i < |fields| ==> '&' !in fields[i] && '#' !in fields[i];
    QueryFieldsOfJoin(fields);
    JoinFieldsKeepsOut(fields, '#');
    assert ErrorRedirect(username, callbackUrl)[2..] == JoinFields(fields);
    assert fields[1][9..] == EncodeUriComponent(username);
    assert fields[2][12..] == EncodeUriComponent(callbackUrl);
    DecodeEncodeUriComponent(username);
    DecodeEncodeUriComponent(callbackUrl);
  }

  /** The query fields as src/app.controller.ts:102-106 writes them: the username goes in as typed. */
  function ErrorRedirectFieldsAsWritten(username: string, callbackUrl: string): seq<string> {
    ["error=" + WrongCredentialsError,
     "username=" + username,
     "callbackUrl=" + EncodeUriComponent(callbackUrl)]
  }

  function ErrorRedirectAsWritten(username: string, callbackUrl: string): string {
    "/?" + JoinFields(ErrorRedirectFieldsAsWritten(username, callbackUrl))
  }

  /** With the username as typed, a '#' in it turns the rest of the URL, the callbackUrl included, into a fragment. */
  lemma ErrorRedirectAsWrittenHashEndsQuery(username: string, callbackUrl: string)
    requires '#' in username
    ensures '#' in ErrorRedirectAsWritten(username, callbackUrl)
  {
    var fields := ErrorRedirectFieldsAsWritten(username, callbackUrl);
    var k :| 0 <= k < |username| && username[k] == '#';
    assert fields[1][9 + k] == '#';
    assert JoinFields(fields[1..])[9 + k] == '#';
  }

  /**
   * With the username as typed, an '&' in it ends the username field early:
   * for the username `first&second` the login page reads back the username
   * `first` and a stray field `second`.
   */
  lemma ErrorRedirectAsWrittenAmpersandSplitsUsername(first: string, second: string, callbackUrl: string)
    requires '&' !in first && '&' !in second
    ensures var fields := QueryFields(ErrorRedirectAsWritten(first + "&" + second, callbackUrl)[2..]);
      |fields| == 4 && fields[1] == "username=" + first && fields[2] == second
  {
    EncodedHasNoDelimiters(callbackUrl);
    var head, tail := "error=" + WrongCredentialsError, "callbackUrl=" + EncodeUriComponent(callbackUrl);
    AsWrittenQueryWithAmpersand(first, second, callbackUrl);
    QueryFieldsOfFour(head, "username=" + first, second, tail);
  }

  lemma AsWrittenQueryWithAmpersand(first: string, second: string, callbackUrl: string)
    ensures ErrorRedirectAsWritten(first + "&" + second, callbackUrl)[2..]
         == ("error=" + WrongCredentialsError) + "&" + (("username=" + first) + "&" + (second + "&" + ("callbackUrl=" + EncodeUriComponent(callbackUrl))))
  {
    AsWrittenQuery(first + "&" + second, callbackUrl);
    UsernameFieldSplits(first, second, "callbackUrl=" + EncodeUriComponent(callbackUrl));
  }

  lemma AsWrittenQuery(username: string, callbackUrl: string)
    ensures ErrorRedirectAsWritten(username, callbackUrl)[2..]
         == ("error=" + WrongCredentialsError) + "&" + (("username=" + username) + "&" + ("callbackUrl=" + EncodeUriComponent(callbackUrl)))
  {
    JoinThreeFields("error=" + WrongCredentialsError, "username=" + username, "callbackUrl=" + EncodeUriComponent(callbackUrl));
  }

  lemma UsernameFieldSplits(first: string, second: string, tail: string)
    ensures ("username=" + (first + "&" + second)) + "&" + tail == ("username=" + first) + "&" + (second + "&" + tail)
  {
  }

  lemma QueryFieldsOfFour(a: string, b: string, c: string, d: string)
    requires '&' !in a && '&' !in b && '&' !in c && '&' !in d
    ensures QueryFields(a + "&" + (b + "&" + (c + "&" + d))) == [a, b, c, d]
  {
    var split := [a, b, c, d];
    assert split[1..] == [b, c, d];
    JoinThreeFields(b, c, d);
    QueryFieldsOfJoin(split);
  }

  /**
   * The session-and-policy decision of GET /token on a loaded sessions map: a
   * token is issued exactly when there is a session cookie, the audience and
   * the origin are on their allow-lists and the id names a session; its claims
   * are the SSO URL, the requested audience and that session's user.
   */
  function TokenDecision(settings: Settings, sessions: map<string, Session>,
                         sessionId: Option<string>, aud: Option<string>, origin: Option<string>): (res: Response)
    ensures res.SignedToken? <==>
      && sessionId.Some? && aud.Some? && origin.Some?
      && aud.value in settings.validAuds && origin.value in settings.validOrigins
      && sessionId.value in sessions
    ensures res.SignedToken? ==>
      res.payload == Payload(settings.ssoUrl, aud.value, Some(sessions[sessionId.value].username))
    ensures !res.SignedToken? ==> res == Status(401)
  {
    if sessionId.None? || !Includes(settings.validAuds, aud) || !Includes(settings.validOrigins, origin) then
      Status(401)
    else
      match GetProperty(sessions, sessionId.value)
      case Own(session) => SignedToken(Payload(settings.ssoUrl, aud.value, Some(session.username)))
      case _ => Status(401)
  }

  /**
   * The same decision as src/app.controller.ts:114-137 makes it: `sessions[id]`
   * also finds Object.prototype's members, which are not null, and their
   * `username` is undefined.
   */
  function TokenDecisionAsWritten(settings: Settings, sessions: map<string, Session>,
                                  sessionId: Option<string>, aud: Option<string>, origin: Option<string>): (res: Response)
    ensures res.SignedToken? <==>
      && sessionId.Some? && aud.Some? && origin.Some?
      && aud.value in settings.validAuds && origin.value in settings.validOrigins
      && (sessionId.value in sessions || sessionId.value in ObjectPrototypeMembers)
    ensures res.SignedToken? && sessionId.value !in sessions ==> res.payload.sub.None?
  {
    if sessionId.None? || !Includes(settings.validAuds, aud) || !Includes(settings.validOrigins, origin) then
      Status(401)
    else
      match GetProperty(sessions, sessionId.value)
      case Own(session) => SignedToken(Payload(settings.ssoUrl, aud.value, Some(session.username)))
      case Inherited => SignedToken(Payload(settings.ssoUrl, aud.value, None))
      case Undefined => Status(401)
  }

  /**
   * Without any session, a cookie `session_id=constructor` and allowed audience
   * and origin obtain a signed token from the code as written.
   */
  lemma PrototypeSessionIdGetsToken(settings: Settings)
    requires |settings.validAuds| > 0 && |settings.validOrigins| > 0
    ensures var aud := settings.validAuds[0];
      TokenDecisionAsWritten(settings, map[], Some("constructor"), Some(aud), Some(settings.validOrigins[0]))
        == SignedToken(Payload(settings.ssoUrl, aud, None))
  {
  }

  /** The two decisions differ only on ids that name no session but an Object.prototype member. */
  lemma TokenDecisionsAgreeOnOtherIds(settings: Settings, sessions: map<string, Session>,
                                      sessionId: Option<string>, aud: Option<string>, origin: Option<string>)
    requires sessionId.Some? ==> sessionId.value in sessions || sessionId.value !in ObjectPrototypeMembers
    ensures TokenDecisionAsWritten(settings, sessions, sessionId, aud, origin)
         == TokenDecision(settings, sessions, sessionId, aud, origin)
  {
  }

  class AppController {
    const settings: Settings
    const appService: AppService

    constructor(settings: Settings, appService: AppService)
      ensures this.settings == settings && this.appService == appService
    {
      this.settings := settings;
      this.appService := appService;
    }

    /**
     * GET /: only a callback URL on the allow-list gets the login form; the
     * wrong-credentials variant, with the username defaulting to '', is shown
     * exactly when the query says error=wrongUsernameOrPassword.
     */
    function Root(query: IndexQuery): (view: IndexView)
      ensures !(query.callbackUrl.Some? && query.callbackUrl.value in settings.validCallbackUrls) <==>
        view == InvalidCallbackView("Not a valid callbackUrl")
      ensures view.WrongCredentialsView? <==>
        query.callbackUrl.Some? && query.callbackUrl.value in settings.validCallbackUrls
        && query.error == Some(WrongCredentialsError)
      ensures view.WrongCredentialsView? ==>
        view == WrongCredentialsView(settings.serviceName, "Wrong username or password",
          if query.username.Some? then query.username.value else "", "autofocus", query.callbackUrl.value)
      ensures view.LoginView? <==>
        query.callbackUrl.Some? && query.callbackUrl.value in settings.validCallbackUrls
        && query.error != Some(WrongCredentialsError)
      ensures view.LoginView? ==>
        view == LoginView(settings.serviceName, "autofocus", query.callbackUrl.value)
    {
      if !Includes(settings.validCallbackUrls, query.callbackUrl) then
        InvalidCallbackView("Not a valid callbackUrl")
      else if query.error.Some? && query.error.value != "" && query.error.value == WrongCredentialsError then
        WrongCredentialsView(settings.serviceName, "Wrong username or password",
          if query.username.Some? && query.username.value != "" then query.username.value else "",
          "autofocus", query.callbackUrl.value)
      else
        LoginView(settings.serviceName, "autofocus", query.callbackUrl.value)
    }

    /**
     * POST /login: a callback URL off the allow-list is refused with 400 before
     * any sign-in; a failed sign-in redirects back to the form and changes
     * nothing; a successful one creates exactly one session, for the user and
     * the request's address, sets it in an httpOnly cookie living
     * sessionLength seconds, and redirects to the callback URL.
     */
    method Login(username: string, password: string, callbackUrl: Option<string>,
                 requestIp: string, newSessionId: string, now: string, writeSucceeds: bool)
      returns (res: Response)
      requires appService.Valid()
      modifies appService
      ensures appService.Valid()
      ensures !Includes(settings.validCallbackUrls, callbackUrl) ==>
        res == StatusText(400, "callback url not allowed") && unchanged(appService)
      ensures Includes(settings.validCallbackUrls, callbackUrl) && appService.SignIn(username, password).Err? ==>
        res == Failure(DerivationFailed(appService.SignIn(username, password).error)) && unchanged(appService)
      ensures Includes(settings.validCallbackUrls, callbackUrl) && appService.SignIn(username, password) == Ok(false) ==>
        res == Redirect(ErrorRedirect(username, callbackUrl.value), None) && unchanged(appService)
      ensures Includes(settings.validCallbackUrls, callbackUrl) && appService.SignIn(username, password) == Ok(true) ==>
        res == (
          if old(appService.Sessions()).Err? then Failure(old(appService.Sessions()).error)
          else if !writeSucceeds then Failure(SessionsWriteFailed)
          else Redirect(callbackUrl.value, Some(SessionCookie(settings, newSessionId))))
      ensures Includes(settings.validCallbackUrls, callbackUrl) && appService.SignIn(username, password) == Ok(true)
              && old(appService.Sessions()).Err? ==>
        unchanged(appService`cachedSessions, appService`sessionsFile, appService`persisted)
      ensures Includes(settings.validCallbackUrls, callbackUrl) && appService.SignIn(username, password) == Ok(true)
              && old(appService.Sessions()).Ok? ==>
        appService.cachedSessions
          == Some(old(appService.Sessions()).value[newSessionId := Session(username, requestIp, now)])
      ensures Includes(settings.validCallbackUrls, callbackUrl) && appService.SignIn(username, password) == Ok(true)
              && old(appService.Sessions()).Ok? && writeSucceeds ==>
        && appService.persisted == appService.cachedSessions
        && appService.sessionsFile == Some(appService.stringifySessions(appService.cachedSessions.value))
      ensures Includes(settings.validCallbackUrls, callbackUrl) && appService.SignIn(username, password) == Ok(true)
              && old(appService.Sessions()).Ok? && !writeSucceeds ==>
        unchanged(appService`sessionsFile, appService`persisted)
    {
      if !Includes(settings.validCallbackUrls, callbackUrl) {
        return StatusText(400, "callback url not allowed");
      }
      var authenticated := appService.SignIn(username, password);
      if authenticated.Err? {
        return Failure(DerivationFailed(authenticated.error));
      }
      if authenticated.value {
        var created := appService.CreateSession(username, requestIp, newSessionId, now, writeSucceeds);
        if created.Err? {
          return Failure(created.error);
        }
        res := Redirect(callbackUrl.value, Some(SessionCookie(settings, created.value)));
      } else {
        res := Redirect(ErrorRedirect(username, callbackUrl.value), None);
      }
    }

    /** The checks GET /token makes before looking at the sessions. */
    predicate TokenRequestAllowed(sessionId: Option<string>, aud: Option<string>, origin: Option<string>) {
      sessionId.Some? && Includes(settings.validAuds, aud) && Includes(settings.validOrigins, origin)
    }

    /**
     * GET /token: 401 without a session cookie, for an audience or origin off its
     * allow-list (in which case the store is not even loaded), or for an unknown
     * session; otherwise the signed claims. The session store is never changed.
     */
    method GetToken(sessionId: Option<string>, aud: Option<string>, origin: Option<string>) returns (res: Response)
      requires appService.Valid()
      modifies appService
      ensures appService.Valid()
      ensures appService.Sessions() == old(appService.Sessions())
      ensures unchanged(appService`sessionsFile, appService`persisted)
      ensures !TokenRequestAllowed(sessionId, aud, origin) ==> res == Status(401) && unchanged(appService)
      ensures TokenRequestAllowed(sessionId, aud, origin) && old(appService.Sessions()).Err? ==>
        res == Failure(old(appService.Sessions()).error)
      ensures old(appService.Sessions()).Ok? ==>
        res == TokenDecision(settings, old(appService.Sessions()).value, sessionId, aud, origin)
    {
      if sessionId.None? || !Includes(settings.validAuds, aud) || !Includes(settings.validOrigins, origin) {
        return Status(401);
      }
      var sessions := appService.GetSessions();
      if sessions.Err? {
        return Failure(sessions.error);
      }
      if sessionId.value !in sessions.value {
        return Status(401);
      }
      var session := sessions.value[sessionId.value];
      res := SignedToken(Payload(settings.ssoUrl, aud.value, Some(session.username)));
    }

    /**
     * GET /logout: deletes the session only when the cookie holds a non-empty
     * id, and answers with the session cookie expired (maxAge 0) unless loading
     * or writing the sessions failed, which ends the request with that error.
     */
    method Logout(sessionId: Option<string>, writeSucceeds: bool) returns (res: Response)
      requires appService.Valid()
      modifies appService
      ensures appService.Valid()
      ensures !(sessionId.Some? && sessionId.value != "") ==>
        res == End(ClearedCookie(sessionId)) && unchanged(appService)
      ensures sessionId.Some? && sessionId.value != "" && old(appService.Sessions()).Ok? ==>
        && appService.cachedSessions == Some(old(appService.Sessions()).value - {sessionId.value})
        && res == (if writeSucceeds then End(ClearedCookie(sessionId)) else Failure(SessionsWriteFailed))
        && (writeSucceeds ==>
              && appService.persisted == appService.cachedSessions
              && appService.sessionsFile == Some(appService.stringifySessions(appService.cachedSessions.value)))
        && (!writeSucceeds ==> unchanged(appService`sessionsFile, appService`persisted))
      ensures sessionId.Some? && sessionId.value != "" && old(appService.Sessions()).Err? ==>
        res == Failure(old(appService.Sessions()).error)
        && unchanged(appService`cachedSessions, appService`sessionsFile, appService`persisted)
    {
      if sessionId.Some? && sessionId.value != "" {
        var deleted := appService.DeleteSession(sessionId.value, writeSucceeds);
        if deleted.Err? {
          return Failure(deleted.error);
        }
      }
      res := End(ClearedCookie(sessionId));
    }
  }
}
