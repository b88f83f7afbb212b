/**
 * The session half of the API server: the in-memory token -> session store,
 * bearer-header parsing, token generation, issuing a session on login and
 * resolving it on /me, and the response envelope.
 */
module Api {
  import opened Wrappers
  import opened GoTypes
  import opened GoStrings
  import opened Hex

  const StatusOK := 200
  const StatusBadRequest := 400
  const StatusUnauthorized := 401
  const StatusInternalServerError := 500

  datatype UserAuth = UserAuth(id: string, username: string, email: string)

  datatype AuthSession = AuthSession(token: string, expiresAt: Instant, user: UserAuth)

  /** The zero session a failed lookup returns. */
  const NoSession := AuthSession("", 0, UserAuth("", "", ""))

  /** The `data` member of a response. */
  datatype Payload = NoData | SessionData(session: AuthSession) | UserData(user: UserAuth)

  datatype ApiResponse = ApiResponse(code: int, success: bool, message: string, data: Payload)

  /** respond: the envelope reports success exactly for statuses below 400. */
  function Respond(status: int, message: string, data: Payload): (r: ApiResponse)
    ensures r.code == status && r.message == message && r.data == data
    ensures r.success <==> status < StatusBadRequest
  {
    ApiResponse(status, status < StatusBadRequest, message, data)
  }

  class SessionStore {
    var sessions: map<string, AuthSession>

    constructor ()
      ensures sessions == map[]
    {
      sessions := map[];
    }

    /** Stores session under its own token, replacing any session with that token. */
    method Set(session: AuthSession)
      modifies this
      ensures sessions == old(sessions)[session.token := session]
    {
      sessions := sessions[session.token := session];
    }

    /** Looks a token up; there is no expiry check here. */
    method Get(token: string) returns (session: AuthSession, ok: bool)
      ensures ok <==> token in sessions
      ensures session == if ok then sessions[token] else NoSession
    {
      if token in sessions {
        session, ok := sessions[token], true;
      } else {
        session, ok := NoSession, false;
      }
    }

    method Delete(token: string)
      modifies this
      ensures sessions == old(sessions) - {token}
    {
      sessions := sessions - {token};
    }
  }

  /** Get after Set returns the session just stored, whatever was there before. */
  lemma GetAfterSet(sessions: map<string, AuthSession>, s: AuthSession)
    ensures s.token in sessions[s.token := s] && sessions[s.token := s][s.token] == s
  {
  }

  /** Delete removes exactly the given token. */
  lemma DeleteOnlyThatToken(sessions: map<string, AuthSession>, token: string, other: string)
    requires other != token
    ensures token !in sessions - {token}
    ensures other in sessions - {token} <==> other in sessions
    ensures other in sessions ==> (sessions - {token})[other] == sessions[other]
  {
  }

  /** rand.Read fills 32 bytes. */
  const TokenBytes := 32

  /**
   * generateToken: the hex encoding of the bytes read from the random source
   * (None when the read fails).
   */
  function GenerateToken(read: Option<seq<byte>>): (token: Option<string>)
    requires read.Some? ==> |read.value| == TokenBytes
    ensures token.Some? <==> read.Some?
    ensures token.Some? ==> |token.value| == 2 * TokenBytes
    ensures token.Some? ==> forall k | 0 <= k < |token.value| :: IsLowerHex(token.value[k])
    ensures token.Some? ==> HexDecode(token.value) == Some(read.value)
  {
    match read
    case None => None
    case Some(b) =>
      HexRoundTrip(b);
      Some(HexEncode(b))
  }

  /** 24 hours, or a week when the user asked to be remembered. */
  function SessionDuration(remember: bool): (d: Duration)
    ensures remember ==> d == 7 * 24 * Hour
    ensures !remember ==> d == 24 * Hour
  {
    if remember then 7 * 24 * Hour else 24 * Hour
  }

  /**
   * loginHandler from the point the credentials are accepted: a fresh token,
   * a session for the user expiring after SessionDuration, stored and returned.
   * `read` is the outcome of reading the random source.
   */
  method LoginHandler(store: SessionStore, read: Option<seq<byte>>, user: UserAuth, remember: bool, now: Instant)
      returns (resp: ApiResponse)
    requires read.Some? ==> |read.value| == TokenBytes
    modifies store
    ensures read.None? ==> resp == Respond(StatusInternalServerError, "Unable to create session", NoData)
    ensures read.None? ==> store.sessions == old(store.sessions)
    ensures read.Some? ==>
      var s := AuthSession(HexEncode(read.value), Add(now, if remember then 7 * 24 * Hour else 24 * Hour), user);
      store.sessions == old(store.sessions)[s.token := s] && resp == Respond(StatusOK, "Login successful", SessionData(s))
  {
    var token := GenerateToken(read);
    if token.None? {
      return Respond(StatusInternalServerError, "Unable to create session", NoData);
    }
    var sessionDuration := 24 * Hour;
    if remember {
      sessionDuration := 7 * 24 * Hour;
    }
    var session := AuthSession(token.value, Add(now, sessionDuration), user);
    store.Set(session);
    resp := Respond(StatusOK, "Login successful", SessionData(session));
  }

  /**
   * extractBearerToken: the header is cut at its first space; the token is the
   * trimmed remainder when the first part is "Bearer" in any case, else "".
   */
  function ExtractBearerToken(header: string): (token: string)
    ensures token != "" ==> ' ' in header && Unpadded(token) && |token| < |header|
  {
    var parts := SplitN2(header, ' ');
    if |parts| != 2 || !EqualFold(parts[0], "Bearer") then "" else TrimSpace(parts[1])
  }

  lemma BearerWithoutSpace(header: string)
    requires ' ' !in header
    ensures ExtractBearerToken(header) == ""
  {
  }

  lemma BearerAccepted(scheme: string, rest: string)
    requires ' ' !in scheme && EqualFold(scheme, "Bearer")
    ensures ExtractBearerToken(scheme + " " + rest) == TrimSpace(rest)
  {
    SplitN2At(scheme, ' ', rest);
  }

  lemma BearerRejected(scheme: string, rest: string)
    requires ' ' !in scheme && !EqualFold(scheme, "Bearer")
    ensures ExtractBearerToken(scheme + " " + rest) == ""
  {
    SplitN2At(scheme, ' ', rest);
  }

  /** Hex text has no white space at its ends. */
  lemma HexUnpadded(token: string)
    requires forall k | 0 <= k < |token| :: IsLowerHex(token[k])
    ensures TrimSpace(token) == token
  {
    assert Unpadded(token) by {
      if token != [] {
        assert IsLowerHex(token[0]) && IsLowerHex(token[|token| - 1]);
      }
    }
    TrimSpaceOfUnpadded(token);
  }

  /** A generated token sent as "Bearer <token>" is read back unchanged. */
  lemma BearerRoundTrip(token: string)
    requires forall k | 0 <= k < |token| :: IsLowerHex(token[k])
    ensures ExtractBearerToken("Bearer" + " " + token) == token
  {
    EqualFoldReflexive("Bearer");
    BearerAccepted("Bearer", token);
    HexUnpadded(token);
  }

  /** What meHandler answers and the sessions it leaves. */
  datatype MeOutcome = MeOutcome(response: ApiResponse, sessions: map<string, AuthSession>)

  function Me(sessions: map<string, AuthSession>, header: string, now: Instant): MeOutcome {
    var token := ExtractBearerToken(header);
    if token == "" then MeOutcome(Respond(StatusUnauthorized, "Missing bearer token", NoData), sessions)
    else if token !in sessions then MeOutcome(Respond(StatusUnauthorized, "Invalid or expired token", NoData), sessions)
    else if After(now, sessions[token].expiresAt) then
      MeOutcome(Respond(StatusUnauthorized, "Session expired", NoData), sessions - {token})
    else MeOutcome(Respond(StatusOK, "Session active", UserData(sessions[token].user)), sessions)
  }

  /** meHandler: resolve the bearer token; an expired session is deleted and refused. */
  method MeHandler(store: SessionStore, header: string, now: Instant) returns (resp: ApiResponse)
    modifies store
    ensures MeOutcome(resp, store.sessions) == Me(old(store.sessions), header, now)
  {
    var token := ExtractBearerToken(header);
    if token == "" {
      return Respond(StatusUnauthorized, "Missing bearer token", NoData);
    }
    var session, ok := store.Get(token);
    if !ok {
      return Respond(StatusUnauthorized, "Invalid or expired token", NoData);
    }
    if After(now, session.expiresAt) {
      store.Delete(token);
      return Respond(StatusUnauthorized, "Session expired", NoData);
    }
    resp := Respond(StatusOK, "Session active", UserData(session.user));
  }

  /** Only an expired session is removed by /me; every other outcome leaves the store alone. */
  lemma MeOnlyDeletesExpired(sessions: map<string, AuthSession>, header: string, now: Instant)
    ensures Me(sessions, header, now).sessions == sessions
      || (var t := ExtractBearerToken(header);
          t in sessions && After(now, sessions[t].expiresAt) && Me(sessions, header, now).sessions == sessions - {t})
    ensures Me(sessions, header, now).response.success <==> Me(sessions, header, now).response.code == StatusOK
  {
  }

  /**
   * A session issued at login is accepted by /me with its bearer header up to
   * its expiry, and afterwards refused as expired and removed.
   */
  lemma {:induction false} SessionLifecycle(
    sessions: map<string, AuthSession>, bytes: seq<byte>, user: UserAuth, remember: bool, now: Instant, later: Instant)
    requires |bytes| == TokenBytes
    ensures
      var s := AuthSession(HexEncode(bytes), Add(now, SessionDuration(remember)), user);
      var live := sessions[s.token := s];
      var header := "Bearer" + " " + s.token;
      (later <= s.expiresAt ==> Me(live, header, later) == MeOutcome(Respond(StatusOK, "Session active", UserData(user)), live))
      && (later > s.expiresAt ==> Me(live, header, later) == MeOutcome(Respond(StatusUnauthorized, "Session expired", NoData), live - {s.token}))
  {
    BearerRoundTrip(HexEncode(bytes));
  }
}
