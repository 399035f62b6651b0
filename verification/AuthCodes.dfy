/**
 Authorization codes over whole runs: how a code comes into being (password login, renewal of an
 authenticated session, login through an upstream provider), how it is redeemed, and what the
 redemption makes of the session it belongs to. Sessions live in a table and in a cache in front of
 it. Every request is one atomic step; times are whole seconds.
 */
module AuthCodes {
  import opened Wrappers
  import Base64
  import Text

  datatype Config = Config(sha256: string -> seq<Base64.Byte>, sessionTimeout: nat, webauthnLifetime: int,
                           adminForceMfa: bool, renewMfa: bool)

  datatype SessionState = Init | Auth | LoggedOut

  datatype Session = Session(state: SessionState, exp: int, lastSeen: int, userId: Option<string>, isMfa: bool)

  datatype AuthCode = AuthCode(clientId: string, userId: string, sessionId: Option<string>,
                               challenge: Option<string>, challengeMethod: Option<string>, exp: int)

  datatype User = User(id: string, email: string, enabled: bool, expires: Option<int>,
                       hasPassword: bool, federated: bool, webauthn: bool)

  /** `challenge` names the allowed challenge methods, if the client has to use one at all. */
  datatype Client = Client(id: string, codeLifetime: int, forceMfa: bool, challenge: Option<string>)

  datatype AccountType = New | Password | Passkey | Federated | FederatedPassword | FederatedPasskey

  datatype PasswordInput = NotGiven | Right | Wrong

  /** What the login form and the tables say; `cookie` is the e-mail of a valid second-factor cookie. */
  datatype Attempt = Attempt(user: Option<User>, password: PasswordInput, cookie: Option<string>, saveFails: bool,
                             client: Option<Client>, redirectOk: bool, originOk: bool,
                             challenge: Option<string>, challengeMethod: Option<string>)

  datatype Renewal = Renewal(users: map<string, User>, client: Option<Client>, redirectOk: bool, originOk: bool,
                             challenge: Option<string>, challengeMethod: Option<string>)

  /** A login that an upstream provider has vouched for; `link` only connects the two accounts. */
  datatype Upstream = Upstream(user: User, link: bool, providerMfa: bool, client: Option<Client>, redirectOk: bool,
                               originOk: bool, challenge: Option<string>, challengeMethod: Option<string>)

  /** `client` is the id of the client, once its origin, secret, flow and DPoP proof have been accepted. */
  datatype Redemption = Redemption(code: Option<string>, client: Option<string>, verifier: Option<string>,
                                   users: map<string, User>, tokensFail: bool)

  datatype Via = ByLogin | ByRenewal | ByUpstream

  /** How a code came into being: by whom, when, and what its client demanded of challenges then. */
  datatype Origin = Origin(code: AuthCode, via: Via, at: int, allowed: Option<string>)

  datatype State = State(
    codes: map<string, AuthCode>,
    rows: map<string, Session>,
    cache: map<string, Session>,
    now: int,
    issued: map<string, Origin>,        // history: every code ever issued
    spent: set<string>,                 // history: codes redeemed
    promotedBy: map<string, string>,    // history: by session, the code redeemed last for it
    known: set<string>)                 // history: every session ever created

  datatype Step =
    | NewSession(sid: string, lifetime: nat)
    | Visit(sid: string)
    | Authorize(attempt: Attempt, sid: string, id: string)
    | Renew(renewal: Renewal, sid: string, id: string)
    | Federate(upstream: Upstream, sid: string, id: string)
    | Redeem(req: Redemption)
    | Logout(sid: string)
    | EndSessionsOf(uid: string)
    | EndAllSessions
    | DeleteSession(sid: string)
    | DeleteRow(sid: string)      // the clean-up job
    | EvictSession(sid: string)
    | EvictCode(id: string)
    | Tick(secs: nat)

  datatype Error =
    | NoSession | InvalidCredentials | UserDisabled | UserExpired | WrongPassword | SaveFailed | NoClient | MfaRequired
    | BadRedirect | BadChallenge | BadOrigin | NoUser
    | MissingCode | ClientRefused | UnknownCode | WrongClient | CodeExpired | MissingVerifier | WrongVerifier
    | ServerError

  datatype Reply =
    | Done
    | Refused(error: Error, delayed: bool)
    | LoggedIn | AwaitWebauthn | Linked
    | Tokens(user: string)
    | Aborted     // the handler panics

  // ---------------------------------------------------------------------------------------------
  // Sessions

  /** `Session::find`: the cache first, then the table, filling the cache. */
  function FindSession(s: State, sid: string): (State, Option<Session>) {
    if sid in s.cache then (s, Some(s.cache[sid]))
    else if sid in s.rows then (s.(cache := s.cache[sid := s.rows[sid]]), Some(s.rows[sid]))
    else (s, None)
  }

  function SaveSession(s: State, sid: string, session: Session): State {
    s.(rows := s.rows[sid := session], cache := s.cache[sid := session])
  }

  predicate Usable(cfg: Config, now: int, session: Session) {
    session.exp >= now && session.lastSeen >= now - cfg.sessionTimeout
  }

  /** The session of a request's cookie, as the middleware hands it to the handlers. */
  function Enter(cfg: Config, s: State, sid: string): (State, Option<Session>) {
    var (t, found) := FindSession(s, sid);
    match found
    case None => (t, None)
    case Some(session) =>
      if !Usable(cfg, s.now, session) then (t, None)
      else if session.lastSeen < s.now - 10 then
        var seen := session.(lastSeen := s.now);
        (SaveSession(t, sid, seen), Some(seen))
      else (t, Some(session))
  }

  /** `Session::invalidate`: the table only; the entry it removes from a cache is not the one lookups read. */
  function LogOut(s: State, sid: string): State {
    if sid in s.rows then s.(rows := s.rows[sid := s.rows[sid].(exp := s.now, state := LoggedOut)]) else s
  }

  function EndSessions(s: State, ends: Session -> bool): State {
    s.(rows := map sid | sid in s.rows :: if ends(s.rows[sid]) then s.rows[sid].(exp := s.now) else s.rows[sid],
       cache := map sid | sid in s.cache && !(sid in s.rows && ends(s.rows[sid])) :: s.cache[sid])
  }

  // ---------------------------------------------------------------------------------------------
  // Issuing codes

  function TypeOf(user: User): AccountType {
    if user.federated && user.hasPassword then FederatedPassword
    else if user.federated && user.webauthn then FederatedPasskey
    else if user.federated then Federated
    else if user.hasPassword then Password
    else if user.webauthn then Passkey
    else New
  }

  predicate Expired(now: int, user: User) {
    user.expires.Some? && now > user.expires.value
  }

  predicate LacksMfa(client: Client, user: User) {
    client.id != "rauthy" && client.forceMfa && !user.webauthn
  }

  predicate CookieCounts(user: User, cookie: Option<string>) {
    cookie == Some(user.email) && user.webauthn
  }

  /** `Client::validate_code_challenge`. */
  predicate ChallengeOk(client: Client, challenge: Option<string>, challengeMethod: Option<string>) {
    match client.challenge
    case None => challenge.None? && challengeMethod.None?
    case Some(allowed) => challenge.Some? && challengeMethod.Some? && Text.Contains(allowed, challengeMethod.value)
  }

  /**
   The check on the renewal path: a missing method counts as "plain", and a client without challenges is not
   checked.
   */
  predicate RenewalChallengeOk(client: Client, challenge: Option<string>, challengeMethod: Option<string>) {
    client.challenge.Some? ==>
      var name := if challengeMethod.Some? then challengeMethod.value else "plain";
      challenge.Some? && name != "" && Text.Contains(client.challenge.value, name)
  }

  /** Why a login fails, and whether the answer is to be delayed. */
  function CheckLogin(now: int, a: Attempt): Option<(Error, bool)> {
    if a.user.None? then Some((InvalidCredentials, false))
    else
      var user := a.user.value;
      if a.password.NotGiven? && TypeOf(user) != Passkey && !CookieCounts(user, a.cookie)
          then Some((InvalidCredentials, false))
      else if TypeOf(user) == New then Some((InvalidCredentials, true))
      else if !user.enabled then Some((UserDisabled, true))
      else if Expired(now, user) then Some((UserExpired, true))
      else if a.password.Wrong? then Some((WrongPassword, true))
      else if a.password.Right? && a.saveFails then Some((SaveFailed, true))
      else if a.client.None? then Some((NoClient, true))
      else if LacksMfa(a.client.value, user) then Some((MfaRequired, a.password.Right?))
      else if !a.redirectOk then Some((BadRedirect, true))
      else if !ChallengeOk(a.client.value, a.challenge, a.challengeMethod) then Some((BadChallenge, true))
      else if !a.originOk then Some((BadOrigin, true))
      else None
  }

  function CheckRenewal(now: int, session: Session, r: Renewal): Option<Error> {
    if r.client.None? then Some(NoClient)
    else if !r.originOk then Some(BadOrigin)
    else if !r.redirectOk then Some(BadRedirect)
    else if !RenewalChallengeOk(r.client.value, r.challenge, r.challengeMethod) then Some(BadChallenge)
    else if session.userId.None? then Some(ServerError)
    else if session.userId.value !in r.users then Some(NoUser)
    else
      var user := r.users[session.userId.value];
      if !user.enabled then Some(UserDisabled)
      else if Expired(now, user) then Some(UserExpired)
      else if LacksMfa(r.client.value, user) then Some(MfaRequired)
      else None
  }

  predicate ForcesMfa(cfg: Config, client: Client) {
    client.forceMfa || (client.id == "rauthy" && cfg.adminForceMfa)
  }

  function CheckUpstreamUser(cfg: Config, now: int, u: Upstream): Option<Error> {
    if !u.user.enabled then Some(UserDisabled)
    else if Expired(now, u.user) then Some(UserExpired)
    else if u.link then None
    else if u.client.None? then Some(NoClient)
    else if ForcesMfa(cfg, u.client.value) && !u.providerMfa && !u.user.webauthn then Some(MfaRequired)
    else None
  }

  function CheckUpstreamClient(u: Upstream): Option<Error>
    requires u.client.Some?
  {
    if !u.redirectOk then Some(BadRedirect)
    else if !ChallengeOk(u.client.value, u.challenge, u.challengeMethod) then Some(BadChallenge)
    else if !u.originOk then Some(BadOrigin)
    else None
  }

  function Issue(s: State, id: string, code: AuthCode, via: Via, client: Client): State {
    s.(codes := s.codes[id := code], issued := s.issued[id := Origin(code, via, s.now, client.challenge)])
  }

  function Lifetime(cfg: Config, client: Client, mfa: bool): int {
    client.codeLifetime + if mfa then cfg.webauthnLifetime else 0
  }

  function DoAuthorize(cfg: Config, s: State, a: Attempt, sid: string, id: string): (State, Reply) {
    var (t, entered) := Enter(cfg, s, sid);
    if entered.None? || entered.value.state.LoggedOut? then (t, Refused(NoSession, false))
    else
      match CheckLogin(s.now, a)
      case Some((error, delayed)) => (t, Refused(error, delayed))
      case None =>
        var client, user := a.client.value, a.user.value;
        var code := AuthCode(client.id, user.id, Some(sid), a.challenge, a.challengeMethod,
                             s.now + Lifetime(cfg, client, user.webauthn));
        var u := Issue(t, id, code, ByLogin, client);
        if user.webauthn then (SaveSession(u, sid, entered.value.(isMfa := true)), AwaitWebauthn) else (u, LoggedIn)
  }

  function DoRenew(cfg: Config, s: State, r: Renewal, sid: string, id: string): (State, Reply) {
    var (t, entered) := Enter(cfg, s, sid);
    if entered.None? || !entered.value.state.Auth? then (t, Refused(NoSession, false))
    else
      match CheckRenewal(s.now, entered.value, r)
      case Some(error) => (t, Refused(error, false))
      case None =>
        var client, user := r.client.value, r.users[entered.value.userId.value];
        var code := AuthCode(client.id, user.id, Some(sid), r.challenge, r.challengeMethod,
                             s.now + Lifetime(cfg, client, user.webauthn));
        (Issue(t, id, code, ByRenewal, client), if user.webauthn && cfg.renewMfa then AwaitWebauthn else LoggedIn)
  }

  function DoFederate(cfg: Config, s: State, u: Upstream, sid: string, id: string): (State, Reply) {
    var (t, entered) := Enter(cfg, s, sid);
    if entered.None? || entered.value.state.LoggedOut? then (t, Refused(NoSession, false))
    else
      match CheckUpstreamUser(cfg, s.now, u)
      case Some(error) => (t, Refused(error, false))
      case None =>
        if u.link then (t, Linked)
        else
          // the session is marked before the rest of the request is looked at
          var client := u.client.value;
          var v := if ForcesMfa(cfg, client) then SaveSession(t, sid, entered.value.(isMfa := true)) else t;
          match CheckUpstreamClient(u)
          case Some(error) => (v, Refused(error, false))
          case None =>
            var code := AuthCode(client.id, u.user.id, Some(sid), u.challenge, u.challengeMethod,
                                 s.now + Lifetime(cfg, client, ForcesMfa(cfg, client) && u.user.webauthn));
            (Issue(v, id, code, ByUpstream, client), if u.user.webauthn then AwaitWebauthn else LoggedIn)
  }

  // ---------------------------------------------------------------------------------------------
  // Redeeming codes

  /** The proof key check; the verifier of a code without a challenge is ignored. */
  function CheckVerifier(cfg: Config, code: AuthCode, verifier: Option<string>): Option<Reply> {
    if code.challenge.None? then None
    else if verifier.None? then Some(Refused(MissingVerifier, false))
    else if code.challengeMethod.None? then Some(Aborted)
    else
      var expected := if code.challengeMethod.value == "plain" then verifier.value
                      else Base64.UrlEncode(cfg.sha256(verifier.value));
      if code.challenge.value == expected then None else Some(Refused(WrongVerifier, false))
  }

  function CheckCode(cfg: Config, s: State, req: Redemption): Option<Reply> {
    if req.code.None? then Some(Refused(MissingCode, false))
    else if req.client.None? then Some(Refused(ClientRefused, false))
    else if req.code.value !in s.codes then Some(Refused(UnknownCode, false))
    else
      var code := s.codes[req.code.value];
      if code.clientId != req.client.value then Some(Refused(WrongClient, false))
      else if code.exp < s.now then Some(Refused(CodeExpired, false))
      else CheckVerifier(cfg, code, req.verifier)
  }

  /** Whether a token set can be built for the user: one about to expire gets none. */
  predicate TokensFor(now: int, user: User) {
    user.expires.Some? ==> user.expires.value - now >= 1
  }

  function Promoted(now: int, session: Session, user: User): Session {
    var exp := if user.expires.Some? && user.expires.value < session.exp then user.expires.value else session.exp;
    session.(state := Auth, lastSeen := now, exp := exp, userId := Some(user.id))
  }

  function Spend(s: State, id: string): State {
    s.(codes := s.codes - {id}, spent := s.spent + {id})
  }

  function DoRedeem(cfg: Config, s: State, req: Redemption): (State, Reply) {
    match CheckCode(cfg, s, req)
    case Some(reply) => (s, reply)
    case None =>
      var id := req.code.value;
      var code := s.codes[id];
      if code.userId !in req.users then (s, Refused(NoUser, false))
      else
        var user := req.users[code.userId];
        if !TokensFor(s.now, user) then (s, Refused(UserExpired, false))
        else if req.tokensFail then (s, Refused(ServerError, false))
        else
          match code.sessionId
          case None => (Spend(s, id), Tokens(user.id))
          case Some(sid) =>
            var (t, found) := FindSession(s, sid);
            if found.None? then (t, Refused(NoSession, false))
            else
              var u := SaveSession(t, sid, Promoted(s.now, found.value, user));
              (Spend(u, id).(promotedBy := u.promotedBy[sid := id]), Tokens(user.id))
  }

  function Answer(cfg: Config, s: State, step: Step): (State, Reply) {
    match step
    case NewSession(sid, lifetime) =>
      (SaveSession(s, sid, Session(Init, s.now + lifetime, s.now, None, false)).(known := s.known + {sid}), Done)
    case Visit(sid) => (Enter(cfg, s, sid).0, Done)
    case Authorize(attempt, sid, id) => DoAuthorize(cfg, s, attempt, sid, id)
    case Renew(renewal, sid, id) => DoRenew(cfg, s, renewal, sid, id)
    case Federate(upstream, sid, id) => DoFederate(cfg, s, upstream, sid, id)
    case Redeem(req) => DoRedeem(cfg, s, req)
    case Logout(sid) =>
      var (t, entered) := Enter(cfg, s, sid);
      if entered.None? then (t, Refused(NoSession, false)) else (LogOut(t, sid), Done)
    case EndSessionsOf(uid) => (EndSessions(s, (session: Session) => session.userId == Some(uid)), Done)
    case EndAllSessions => (EndSessions(s, (session: Session) => session.exp > s.now), Done)
    case DeleteSession(sid) => (s.(rows := s.rows - {sid}, cache := s.cache - {sid}), Done)
    case DeleteRow(sid) => (s.(rows := s.rows - {sid}), Done)
    case EvictSession(sid) => (s.(cache := s.cache - {sid}), Done)
    case EvictCode(id) => (s.(codes := s.codes - {id}), Done)
    case Tick(secs) => (s.(now := s.now + secs), Done)
  }

  predicate ById(users: map<string, User>) {
    forall id :: id in users ==> users[id].id == id
  }

  /** Codes and session ids are random and new; users are found by their id. */
  predicate Enabled(s: State, step: Step) {
    match step
    case NewSession(sid, _) => sid !in s.known
    case Authorize(_, _, id) => id !in s.issued
    case Renew(renewal, _, id) => id !in s.issued && ById(renewal.users)
    case Federate(_, _, id) => id !in s.issued
    case Redeem(req) => ById(req.users)
    case _ => true
  }

  function Apply(cfg: Config, s: State, step: Step): State {
    if Enabled(s, step) then Answer(cfg, s, step).0 else s
  }

  /** The state after the first n steps of a run; a step that is not enabled does not happen. */
  function Exec(cfg: Config, s: State, steps: seq<Step>, n: nat): State
    requires n <= |steps|
  {
    if n == 0 then s else Apply(cfg, Exec(cfg, s, steps, n - 1), steps[n - 1])
  }

  predicate Start(s: State) {
    && s.codes == map[] && s.rows == map[] && s.cache == map[]
    && s.issued == map[] && s.spent == {} && s.promotedBy == map[] && s.known == {}
  }

  // ---------------------------------------------------------------------------------------------
  // The handlers

  /** The state of a loop that ends sessions: `todo` have not been looked at. */
  ghost predicate EndedSoFar(s: State, ends: Session -> bool, todo: set<string>, rows: map<string, Session>,
                             cache: map<string, Session>, removed: set<string>) {
    && rows.Keys == s.rows.Keys && cache - removed == s.cache - removed
    && (forall sid :: sid in removed <==> sid in s.rows && sid !in todo && ends(s.rows[sid]))
    && forall sid :: sid in s.rows ==> rows[sid] == if sid in removed then s.rows[sid].(exp := s.now) else s.rows[sid]
  }

  lemma NoneEndedSoFar(s: State, ends: Session -> bool)
    ensures EndedSoFar(s, ends, s.rows.Keys, s.rows, s.cache, {})
  {
  }

  lemma OneMoreEnded(s: State, ends: Session -> bool, todo: set<string>, rows: map<string, Session>,
                     cache: map<string, Session>, removed: set<string>, sid: string)
    requires EndedSoFar(s, ends, todo, rows, cache, removed) && todo <= rows.Keys && sid in todo
    ensures if ends(rows[sid]) then
              var session := rows[sid].(exp := s.now);
              EndedSoFar(s, ends, todo - {sid}, rows[sid := session], cache[sid := session], removed + {sid})
            else EndedSoFar(s, ends, todo - {sid}, rows, cache, removed)
  {
    if ends(rows[sid]) {
      var session := rows[sid].(exp := s.now);
      assert cache[sid := session] - (removed + {sid}) == (cache - removed) - {sid};
      assert s.cache - (removed + {sid}) == (s.cache - removed) - {sid};
    }
  }

  lemma EndingDone(s: State, ends: Session -> bool, rows: map<string, Session>, cache: map<string, Session>,
                   removed: set<string>)
    requires EndedSoFar(s, ends, {}, rows, cache, removed)
    ensures EndSessions(s, ends) == s.(rows := rows, cache := cache - removed)
  {
    var t := EndSessions(s, ends);
    assert t.rows == rows && t.cache == s.cache - removed;
  }

  lemma SameEnding(s: State, a: Session -> bool, b: Session -> bool)
    requires forall session :: a(session) == b(session)
    ensures EndSessions(s, a) == EndSessions(s, b)
  {
  }

  lemma EndingOfUser(cfg: Config, s: State, ends: Session -> bool, uid: string)
    requires forall session :: ends(session) <==> session.userId == Some(uid)
    ensures Answer(cfg, s, EndSessionsOf(uid)).0 == EndSessions(s, ends)
  {
    SameEnding(s, ends, (session: Session) => session.userId == Some(uid));
    hide EndSessions;
  }

  lemma EndingOfAll(cfg: Config, s: State, ends: Session -> bool)
    requires forall session :: ends(session) <==> session.exp > s.now
    ensures Answer(cfg, s, EndAllSessions).0 == EndSessions(s, ends)
  {
    SameEnding(s, ends, (session: Session) => session.exp > s.now);
    hide EndSessions;
  }

  class AuthServer {
    const cfg: Config
    var codes: map<string, AuthCode>
    var rows: map<string, Session>
    var cache: map<string, Session>
    var now: int
    ghost var issued: map<string, Origin>
    ghost var spent: set<string>
    ghost var promotedBy: map<string, string>
    ghost var known: set<string>

    ghost function Contents(): State
      reads this
    {
      State(codes, rows, cache, now, issued, spent, promotedBy, known)
    }

    method Find(sid: string) returns (found: Option<Session>)
      modifies this`cache
      ensures (Contents(), found) == FindSession(old(Contents()), sid)
    {
      if sid in cache { return Some(cache[sid]); }
      if sid !in rows { return None; }
      cache := cache[sid := rows[sid]];
      found := Some(rows[sid]);
    }

    method Save(sid: string, session: Session)
      modifies this`rows, this`cache
      ensures Contents() == SaveSession(old(Contents()), sid, session)
    {
      rows := rows[sid := session];
      cache := cache[sid := session];
    }

    /** `get_session_from_cookie`. */
    method SessionFromCookie(sid: string) returns (entered: Option<Session>)
      modifies this`rows, this`cache
      ensures (Contents(), entered) == Enter(cfg, old(Contents()), sid)
    {
      var found := Find(sid);
      if found.None? { return None; }
      var session := found.value;
      if !Usable(cfg, now, session) { return None; }
      if session.lastSeen < now - 10 {
        session := session.(lastSeen := now);
        Save(sid, session);
      }
      entered := Some(session);
    }

    /** `AuthCode::new` and `AuthCode::save`. */
    method SaveNewCode(id: string, code: AuthCode, ghost via: Via, client: Client)
      modifies this`codes, this`issued
      ensures Contents() == Issue(old(Contents()), id, code, via, client)
    {
      codes := codes[id := code];
      issued := issued[id := Origin(code, via, now, client.challenge)];
    }

    /** `authorize`, behind `post_authorize`. */
    method Authorize(a: Attempt, sid: string, id: string) returns (reply: Reply)
      requires id !in issued
      modifies this
      ensures (Contents(), reply) == DoAuthorize(cfg, old(Contents()), a, sid, id)
    {
      hide ChallengeOk, Enter, TypeOf;
      var entered := SessionFromCookie(sid);
      if entered.None? || entered.value.state.LoggedOut? { return Refused(NoSession, false); }
      var session := entered.value;
      if a.user.None? { return Refused(InvalidCredentials, false); }
      var user := a.user.value;
      var cookie := if a.cookie == Some(user.email) && user.webauthn then a.cookie else None;
      var mustProvidePassword := a.password.NotGiven? && TypeOf(user) != Passkey && cookie.None?;
      if mustProvidePassword { return Refused(InvalidCredentials, false); }
      if TypeOf(user) == New { return Refused(InvalidCredentials, !mustProvidePassword); }
      if !user.enabled { return Refused(UserDisabled, !mustProvidePassword); }
      if Expired(now, user) { return Refused(UserExpired, !mustProvidePassword); }
      var hashed := false;
      if !a.password.NotGiven? {
        if a.password.Wrong? { return Refused(WrongPassword, true); }
        if a.saveFails { return Refused(SaveFailed, true); }
        hashed := true;
      }
      if a.client.None? { return Refused(NoClient, !mustProvidePassword); }
      var client := a.client.value;
      if LacksMfa(client, user) { return Refused(MfaRequired, hashed); }
      if !a.redirectOk { return Refused(BadRedirect, !mustProvidePassword); }
      if !ChallengeOk(client, a.challenge, a.challengeMethod) { return Refused(BadChallenge, !mustProvidePassword); }
      if !a.originOk { return Refused(BadOrigin, !mustProvidePassword); }
      var lifetime := if user.webauthn then client.codeLifetime + cfg.webauthnLifetime else client.codeLifetime;
      var code := AuthCode(client.id, user.id, Some(sid), a.challenge, a.challengeMethod, now + lifetime);
      SaveNewCode(id, code, ByLogin, client);
      if user.webauthn {
        Save(sid, session.(isMfa := true));
        return AwaitWebauthn;
      }
      reply := LoggedIn;
    }

    /** `authorize_refresh`, behind `post_authorize_refresh`. */
    method AuthorizeRefresh(r: Renewal, sid: string, id: string) returns (reply: Reply)
      requires id !in issued
      modifies this
      ensures (Contents(), reply) == DoRenew(cfg, old(Contents()), r, sid, id)
    {
      hide RenewalChallengeOk, Enter;
      var entered := SessionFromCookie(sid);
      if entered.None? || !entered.value.state.Auth? { return Refused(NoSession, false); }
      var session := entered.value;
      if r.client.None? { return Refused(NoClient, false); }
      var client := r.client.value;
      if !r.originOk { return Refused(BadOrigin, false); }
      if !r.redirectOk { return Refused(BadRedirect, false); }
      if !RenewalChallengeOk(client, r.challenge, r.challengeMethod) { return Refused(BadChallenge, false); }
      if session.userId.None? { return Refused(ServerError, false); }
      if session.userId.value !in r.users { return Refused(NoUser, false); }
      var user := r.users[session.userId.value];
      if !user.enabled { return Refused(UserDisabled, false); }
      if Expired(now, user) { return Refused(UserExpired, false); }
      if LacksMfa(client, user) { return Refused(MfaRequired, false); }
      var lifetime := if user.webauthn then client.codeLifetime + cfg.webauthnLifetime else client.codeLifetime;
      var code := AuthCode(client.id, user.id, Some(sid), r.challenge, r.challengeMethod, now + lifetime);
      SaveNewCode(id, code, ByRenewal, client);
      reply := if user.webauthn && cfg.renewMfa then AwaitWebauthn else LoggedIn;
    }

    /** `login_finish`, from the point where the provider has vouched for the user. */
    method LoginFinish(u: Upstream, sid: string, id: string) returns (reply: Reply)
      requires id !in issued
      modifies this
      ensures (Contents(), reply) == DoFederate(cfg, old(Contents()), u, sid, id)
    {
      hide ChallengeOk, Enter;
      var entered := SessionFromCookie(sid);
      if entered.None? || entered.value.state.LoggedOut? { return Refused(NoSession, false); }
      var session := entered.value;
      if !u.user.enabled { return Refused(UserDisabled, false); }
      if Expired(now, u.user) { return Refused(UserExpired, false); }
      if u.link { return Linked; }
      if u.client.None? { return Refused(NoClient, false); }
      var client := u.client.value;
      var forceMfa := ForcesMfa(cfg, client);
      if forceMfa {
        if !u.providerMfa && !u.user.webauthn { return Refused(MfaRequired, false); }
        Save(sid, session.(isMfa := true));
      }
      if !u.redirectOk { return Refused(BadRedirect, false); }
      if !ChallengeOk(client, u.challenge, u.challengeMethod) { return Refused(BadChallenge, false); }
      if !u.originOk { return Refused(BadOrigin, false); }
      var lifetime := client.codeLifetime + if forceMfa && u.user.webauthn then cfg.webauthnLifetime else 0;
      var code := AuthCode(client.id, u.user.id, Some(sid), u.challenge, u.challengeMethod, now + lifetime);
      SaveNewCode(id, code, ByUpstream, client);
      reply := if u.user.webauthn then AwaitWebauthn else LoggedIn;
    }

    /** The part of `grant_type_code` that looks at the code itself. */
    method CheckTheCode(req: Redemption) returns (refusal: Option<Reply>)
      ensures refusal == CheckCode(cfg, Contents(), req)
    {
      if req.code.None? { return Some(Refused(MissingCode, false)); }
      if req.client.None? { return Some(Refused(ClientRefused, false)); }
      if req.code.value !in codes { return Some(Refused(UnknownCode, false)); }
      var code := codes[req.code.value];
      if code.clientId != req.client.value { return Some(Refused(WrongClient, false)); }
      if code.exp < now { return Some(Refused(CodeExpired, false)); }
      if code.challenge.Some? {
        if req.verifier.None? { return Some(Refused(MissingVerifier, false)); }
        if code.challengeMethod.None? { return Some(Aborted); }
        if code.challengeMethod.value == "plain" {
          if code.challenge != req.verifier { return Some(Refused(WrongVerifier, false)); }
        } else {
          var hash := cfg.sha256(req.verifier.value);
          if code.challenge.value != Base64.UrlEncode(hash) { return Some(Refused(WrongVerifier, false)); }
        }
      }
      refusal := None;
    }

    /** `grant_type_code`. */
    method GrantTypeCode(req: Redemption) returns (reply: Reply)
      modifies this
      ensures (Contents(), reply) == DoRedeem(cfg, old(Contents()), req)
    {
      var refusal := CheckTheCode(req);
      if refusal.Some? { return refusal.value; }
      hide CheckVerifier;
      var id := req.code.value;
      var code := codes[id];
      if code.userId !in req.users { return Refused(NoUser, false); }
      var user := req.users[code.userId];
      if !TokensFor(now, user) { return Refused(UserExpired, false); }
      if req.tokensFail { return Refused(ServerError, false); }
      if code.sessionId.Some? {
        var sid := code.sessionId.value;
        var found := Find(sid);
        if found.None? { return Refused(NoSession, false); }
        var session := found.value;
        session := session.(lastSeen := now);
        session := session.(state := Auth);
        if user.expires.Some? && user.expires.value < session.exp {
          session := session.(exp := user.expires.value);
        }
        session := session.(userId := Some(user.id));
        Save(sid, session);
        promotedBy := promotedBy[sid := id];
      }
      codes := codes - {id};
      spent := spent + {id};
      reply := Tokens(user.id);
    }

    /** `post_logout`. */
    method PostLogout(sid: string) returns (reply: Reply)
      modifies this
      ensures (Contents(), reply) == Answer(cfg, old(Contents()), Logout(sid))
    {
      var entered := SessionFromCookie(sid);
      if entered.None? { return Refused(NoSession, false); }
      hide Enter;
      if sid in rows {
        rows := rows[sid := rows[sid].(exp := now, state := LoggedOut)];
      }
      reply := Done;
    }

    /** `invalidate_for_user`. */
    method InvalidateForUser(uid: string)
      modifies this`rows, this`cache
      ensures Contents() == Answer(cfg, old(Contents()), EndSessionsOf(uid)).0
    {
      ghost var before, ends := Contents(), (session: Session) => session.userId == Some(uid);
      var todo := rows.Keys;
      var removed: set<string> := {};
      hide EndedSoFar, Answer, EndSessions;
      NoneEndedSoFar(before, ends);
      while todo != {}
        invariant todo <= rows.Keys && now == before.now && EndedSoFar(before, ends, todo, rows, cache, removed)
        invariant Contents() == before.(rows := rows, cache := cache)
        decreases |todo|
      {
        var sid :| sid in todo;
        OneMoreEnded(before, ends, todo, rows, cache, removed, sid);
        var session := rows[sid];
        if session.userId == Some(uid) {
          session := session.(exp := now);
          rows := rows[sid := session];
          cache := cache[sid := session];
          removed := removed + {sid};
        }
        todo := todo - {sid};
      }
      EndingDone(before, ends, rows, cache, removed);
      cache := cache - removed;
      EndingOfUser(cfg, before, ends, uid);
    }

    /** `invalidate_all`. */
    method InvalidateAll()
      modifies this`rows, this`cache
      ensures Contents() == Answer(cfg, old(Contents()), EndAllSessions).0
    {
      ghost var before := Contents();
      ghost var ends := (session: Session) => session.exp > before.now;
      var todo := rows.Keys;
      var removed: set<string> := {};
      hide EndedSoFar, Answer, EndSessions;
      NoneEndedSoFar(before, ends);
      while todo != {}
        invariant todo <= rows.Keys && now == before.now && EndedSoFar(before, ends, todo, rows, cache, removed)
        invariant Contents() == before.(rows := rows, cache := cache)
        decreases |todo|
      {
        var sid :| sid in todo;
        OneMoreEnded(before, ends, todo, rows, cache, removed, sid);
        var session := rows[sid];
        if session.exp > now {
          session := session.(exp := now);
          rows := rows[sid := session];
          cache := cache[sid := session];
          removed := removed + {sid};
        }
        todo := todo - {sid};
      }
      EndingDone(before, ends, rows, cache, removed);
      cache := cache - removed;
      EndingOfAll(cfg, before, ends);
    }
  }

  // ---------------------------------------------------------------------------------------------
  // What every step keeps

  predicate CodeOk(s: State, id: string)
    requires id in s.codes
  {
    id in s.issued && s.issued[id].code == s.codes[id] && id !in s.spent
  }

  /** An authenticated session belongs to the user of the code redeemed last for it, and that code was issued for it. */
  predicate SessionOk(s: State, sid: string, session: Session) {
    session.state.Auth? ==>
      && sid in s.promotedBy && s.promotedBy[sid] in s.spent && s.promotedBy[sid] in s.issued
      && var code := s.issued[s.promotedBy[sid]].code;
         code.sessionId == Some(sid) && session.userId == Some(code.userId)
  }

  predicate SessionsOk(s: State) {
    && (forall sid :: sid in s.rows ==> SessionOk(s, sid, s.rows[sid]))
    && forall sid :: sid in s.cache ==> SessionOk(s, sid, s.cache[sid])
  }

  predicate Inv(s: State) {
    && (forall id :: id in s.codes ==> CodeOk(s, id))
    && (forall id :: id in s.spent ==> id in s.issued)
    && SessionsOk(s) && s.rows.Keys <= s.known && s.cache.Keys <= s.known
  }

  predicate SameHistory(s: State, t: State) {
    && t.codes == s.codes && t.issued == s.issued && t.spent == s.spent && t.promotedBy == s.promotedBy
    && t.now == s.now && t.known == s.known
  }

  lemma FindKeepsInv(s: State, sid: string)
    requires Inv(s)
    ensures var (t, found) := FindSession(s, sid);
            Inv(t) && SameHistory(s, t) && (found.Some? ==> SessionOk(t, sid, found.value) && sid in t.known)
  {
  }

  lemma SaveKeepsInv(s: State, sid: string, session: Session)
    requires Inv(s) && SessionOk(s, sid, session) && sid in s.known
    ensures Inv(SaveSession(s, sid, session)) && SameHistory(s, SaveSession(s, sid, session))
  {
  }

  lemma SameUser(s: State, sid: string, a: Session, b: Session)
    requires SessionOk(s, sid, a) && a.userId == b.userId && a.state == b.state
    ensures SessionOk(s, sid, b)
  {
  }

  lemma EnterKeepsInv(cfg: Config, s: State, sid: string)
    requires Inv(s)
    ensures var (t, entered) := Enter(cfg, s, sid);
            && Inv(t) && SameHistory(s, t)
            && (entered.Some? ==>
                  SessionOk(t, sid, entered.value) && Usable(cfg, s.now, entered.value) && sid in t.known)
  {
    FindKeepsInv(s, sid);
    var (t, found) := FindSession(s, sid);
    if found.Some? {
      var seen := found.value.(lastSeen := s.now);
      SameUser(t, sid, found.value, seen);
      SaveKeepsInv(t, sid, seen);
    }
  }

  lemma IssueKeepsInv(s: State, id: string, code: AuthCode, via: Via, client: Client)
    requires Inv(s) && id !in s.issued
    ensures Inv(Issue(s, id, code, via, client))
  {
    var t := Issue(s, id, code, via, client);
    assert forall sid, session :: SessionOk(s, sid, session) ==> SessionOk(t, sid, session);
    hide SessionOk;
  }

  /** Issuing a code and marking the session commute, and both keep the invariant. */
  lemma SaveThenIssue(s: State, sid: string, session: Session, id: string, code: AuthCode, via: Via, client: Client)
    requires Inv(s) && SessionOk(s, sid, session) && sid in s.known && id !in s.issued
    ensures var marked := session.(isMfa := true);
            && Inv(SaveSession(s, sid, marked))
            && Inv(Issue(s, id, code, via, client))
            && Inv(Issue(SaveSession(s, sid, marked), id, code, via, client))
            && Inv(SaveSession(Issue(s, id, code, via, client), sid, marked))
  {
    var marked := session.(isMfa := true);
    SameUser(s, sid, session, marked);
    SaveKeepsInv(s, sid, marked);
    IssueKeepsInv(s, id, code, via, client);
    IssueKeepsInv(SaveSession(s, sid, marked), id, code, via, client);
    assert SaveSession(Issue(s, id, code, via, client), sid, marked)
        == Issue(SaveSession(s, sid, marked), id, code, via, client);
  }

  lemma AuthorizeKeepsInv(cfg: Config, s: State, a: Attempt, sid: string, id: string)
    requires Inv(s) && id !in s.issued
    ensures Inv(DoAuthorize(cfg, s, a, sid, id).0)
  {
    hide Inv, SessionOk, Enter, SaveSession, Issue, ChallengeOk;
    EnterKeepsInv(cfg, s, sid);
    var (t, entered) := Enter(cfg, s, sid);
    if entered.Some? && CheckLogin(s.now, a) == None {
      var client, user := a.client.value, a.user.value;
      SaveThenIssue(t, sid, entered.value, id,
                    AuthCode(client.id, user.id, Some(sid), a.challenge, a.challengeMethod,
                             s.now + Lifetime(cfg, client, user.webauthn)), ByLogin, client);
    }
  }

  lemma IssueFromKept(s: State, t: State, id: string, code: AuthCode, via: Via, client: Client)
    requires Inv(t) && SameHistory(s, t) && id !in s.issued
    ensures Inv(Issue(t, id, code, via, client))
  {
    hide Inv;
    IssueKeepsInv(t, id, code, via, client);
  }

  lemma RenewKeepsInv(cfg: Config, s: State, r: Renewal, sid: string, id: string)
    requires Inv(s) && id !in s.issued
    ensures Inv(DoRenew(cfg, s, r, sid, id).0)
  {
    hide Inv, SessionOk, Enter, Issue, RenewalChallengeOk;
    EnterKeepsInv(cfg, s, sid);
    var (t, entered) := Enter(cfg, s, sid);
    if entered.Some? && CheckRenewal(s.now, entered.value, r) == None {
      var client, user := r.client.value, r.users[entered.value.userId.value];
      IssueFromKept(s, t, id, AuthCode(client.id, user.id, Some(sid), r.challenge, r.challengeMethod,
                    s.now + Lifetime(cfg, client, user.webauthn)), ByRenewal, client);
    }
  }

  lemma FederateKeepsInv(cfg: Config, s: State, u: Upstream, sid: string, id: string)
    requires Inv(s) && id !in s.issued
    ensures Inv(DoFederate(cfg, s, u, sid, id).0)
  {
    hide Inv, SessionOk, Enter, SaveSession, Issue, ChallengeOk;
    EnterKeepsInv(cfg, s, sid);
    var (t, entered) := Enter(cfg, s, sid);
    if entered.Some? && CheckUpstreamUser(cfg, s.now, u) == None && !u.link {
      var client := u.client.value;
      SaveThenIssue(t, sid, entered.value, id,
                    AuthCode(client.id, u.user.id, Some(sid), u.challenge, u.challengeMethod,
                             s.now + Lifetime(cfg, client, ForcesMfa(cfg, client) && u.user.webauthn)),
                    ByUpstream, client);
    }
  }

  /** What a redemption does to a state in which all sessions but the promoted one are in order. */
  lemma PromoteKeepsInv(s: State, sid: string, session: Session, id: string, user: User)
    requires Inv(s) && sid in s.known
    requires id in s.codes && s.codes[id].sessionId == Some(sid) && s.codes[id].userId == user.id
    ensures var u := SaveSession(s, sid, Promoted(s.now, session, user));
            Inv(Spend(u, id).(promotedBy := u.promotedBy[sid := id]))
  {
    var u := SaveSession(s, sid, Promoted(s.now, session, user));
    var v := Spend(u, id).(promotedBy := u.promotedBy[sid := id]);
    assert CodeOk(s, id);
    assert SessionOk(v, sid, Promoted(s.now, session, user));
    assert forall other, x :: other != sid && SessionOk(s, other, x) ==> SessionOk(v, other, x);
    hide SessionOk;
  }

  lemma SpendKeepsInv(s: State, id: string)
    requires Inv(s) && id in s.codes
    ensures Inv(Spend(s, id))
  {
    assert CodeOk(s, id);
    var t := Spend(s, id);
    assert forall sid, x :: SessionOk(s, sid, x) ==> SessionOk(t, sid, x);
    hide SessionOk;
  }

  lemma RedeemKeepsInv(cfg: Config, s: State, req: Redemption)
    requires Inv(s) && ById(req.users)
    ensures Inv(DoRedeem(cfg, s, req).0)
  {
    hide Inv, SessionOk, FindSession, SaveSession, CheckVerifier, Spend, Promoted;
    if CheckCode(cfg, s, req).None? {
      var id := req.code.value;
      var code := s.codes[id];
      SpendKeepsInv(s, id);
      if code.userId in req.users && code.sessionId.Some? {
        var sid := code.sessionId.value;
        FindKeepsInv(s, sid);
        var (t, found) := FindSession(s, sid);
        if found.Some? { PromoteKeepsInv(t, sid, found.value, id, req.users[code.userId]); }
      }
    }
  }

  lemma EndKeepsInv(s: State, ends: Session -> bool)
    requires Inv(s)
    ensures Inv(EndSessions(s, ends)) && SameHistory(s, EndSessions(s, ends))
  {
    var t := EndSessions(s, ends);
    forall sid | sid in t.rows ensures SessionOk(t, sid, t.rows[sid]) {
      SameUser(s, sid, s.rows[sid], s.rows[sid].(exp := s.now));
    }
  }

  lemma LogOutKeepsInv(s: State, sid: string)
    requires Inv(s)
    ensures Inv(LogOut(s, sid)) && SameHistory(s, LogOut(s, sid))
  {
  }

  lemma MoreKnownKeepsInv(s: State, sid: string)
    requires Inv(s)
    ensures Inv(s.(known := s.known + {sid}))
  {
    var t := s.(known := s.known + {sid});
    assert forall id, x :: SessionOk(s, id, x) ==> SessionOk(t, id, x);
    hide SessionOk;
  }

  lemma NewSessionKeepsInv(cfg: Config, s: State, sid: string, lifetime: nat)
    requires Inv(s)
    ensures Inv(Answer(cfg, s, NewSession(sid, lifetime)).0)
  {
    var t := s.(known := s.known + {sid});
    hide Inv;
    MoreKnownKeepsInv(s, sid);
    SaveKeepsInv(t, sid, Session(Init, s.now + lifetime, s.now, None, false));
  }

  lemma SameFacts(s: State, t: State, sid: string, session: Session)
    requires SessionOk(s, sid, session) && t.promotedBy == s.promotedBy && t.issued == s.issued && t.spent == s.spent
    ensures SessionOk(t, sid, session)
  {
  }

  lemma DropsKeepInv(cfg: Config, s: State, step: Step)
    requires Inv(s)
    requires step.DeleteSession? || step.DeleteRow? || step.EvictSession? || step.EvictCode? || step.Tick?
    ensures Inv(Answer(cfg, s, step).0)
  {
    hide SessionOk;
    var t := Answer(cfg, s, step).0;
    forall sid, x | SessionOk(s, sid, x)
      ensures SessionOk(t, sid, x)
    {
      SameFacts(s, t, sid, x);
    }
  }

  lemma ApplyKeepsInv(cfg: Config, s: State, step: Step)
    requires Inv(s)
    ensures Inv(Apply(cfg, s, step))
  {
    if Enabled(s, step) {
      hide Inv, DoAuthorize, DoRenew, DoFederate, DoRedeem, Enter, LogOut, EndSessions;
      match step
      case NewSession(sid, lifetime) => NewSessionKeepsInv(cfg, s, sid, lifetime);
      case Visit(sid) => EnterKeepsInv(cfg, s, sid);
      case Authorize(attempt, sid, id) => AuthorizeKeepsInv(cfg, s, attempt, sid, id);
      case Renew(renewal, sid, id) => RenewKeepsInv(cfg, s, renewal, sid, id);
      case Federate(upstream, sid, id) => FederateKeepsInv(cfg, s, upstream, sid, id);
      case Redeem(req) => RedeemKeepsInv(cfg, s, req);
      case Logout(sid) =>
        EnterKeepsInv(cfg, s, sid);
        LogOutKeepsInv(Enter(cfg, s, sid).0, sid);
      case EndSessionsOf(uid) => EndKeepsInv(s, (session: Session) => session.userId == Some(uid));
      case EndAllSessions => EndKeepsInv(s, (session: Session) => session.exp > s.now);
      case _ => DropsKeepInv(cfg, s, step);
    }
  }

  lemma {:induction false} ExecKeepsInv(cfg: Config, s: State, steps: seq<Step>, n: nat)
    requires Start(s) && n <= |steps|
    ensures Inv(Exec(cfg, s, steps, n))
  {
    hide Apply;
    if n != 0 {
      hide Inv;
      ExecKeepsInv(cfg, s, steps, n - 1);
      ApplyKeepsInv(cfg, Exec(cfg, s, steps, n - 1), steps[n - 1]);
    }
  }

  // ---------------------------------------------------------------------------------------------
  // Main results on one request

  /** Somebody the login has authenticated, as far as it does so itself. */
  predicate Authenticated(user: User, a: Attempt) {
    || a.password.Right?
    || (a.password.NotGiven? && user.webauthn
        && ((!user.federated && !user.hasPassword) || a.cookie == Some(user.email)))
  }

  /** A client that allows some methods gets a challenge with one of them, any other client gets none. */
  predicate MeetsChallenge(client: Client, challenge: Option<string>, name: Option<string>) {
    && (client.challenge.None? ==> challenge.None? && name.None?)
    && (client.challenge.Some? ==>
          challenge.Some? && name.Some? && Text.Contains(client.challenge.value, name.value))
  }

  predicate MayLogin(now: int, a: Attempt) {
    && a.user.Some? && a.client.Some?
    && var user, client := a.user.value, a.client.value;
       && Authenticated(user, a) && (user.federated || user.hasPassword || user.webauthn)
       && user.enabled && (user.expires.Some? ==> now <= user.expires.value)
       && !(a.password.Right? && a.saveFails) && (client.id == "rauthy" || !client.forceMfa || user.webauthn)
       && a.redirectOk && a.originOk && MeetsChallenge(client, a.challenge, a.challengeMethod)
  }

  /** The user of an authenticated session may renew it for a client that names no method, or allows this one. */
  predicate MayRenew(now: int, session: Session, r: Renewal) {
    && r.client.Some? && session.userId.Some? && session.userId.value in r.users && r.redirectOk && r.originOk
    && var user, client := r.users[session.userId.value], r.client.value;
       && user.enabled && (user.expires.Some? ==> now <= user.expires.value)
       && (client.id == "rauthy" || !client.forceMfa || user.webauthn)
       && (client.challenge.Some? ==>
             && r.challenge.Some? && r.challengeMethod != Some("")
             && (r.challengeMethod.Some? ==> Text.Contains(client.challenge.value, r.challengeMethod.value))
             && (r.challengeMethod.None? ==> Text.Contains(client.challenge.value, "plain")))
  }

  /** A user whom the provider has vouched for, with its second factor or a passkey where one is forced. */
  predicate MayFederate(cfg: Config, now: int, u: Upstream) {
    && u.client.Some? && !u.link && u.user.enabled && (u.user.expires.Some? ==> now <= u.user.expires.value)
    && (u.client.value.forceMfa || (u.client.value.id == "rauthy" && cfg.adminForceMfa) ==>
          u.providerMfa || u.user.webauthn)
    && u.redirectOk && u.originOk && MeetsChallenge(u.client.value, u.challenge, u.challengeMethod)
  }

  /** Whatever the order of its checks, a login succeeds exactly for those who may log in. */
  lemma LoginSucceedsIff(now: int, a: Attempt)
    ensures CheckLogin(now, a) == None <==> MayLogin(now, a)
  {
    hide Text.Contains;
  }

  lemma RenewalSucceedsIff(now: int, session: Session, r: Renewal)
    ensures CheckRenewal(now, session, r) == None <==> MayRenew(now, session, r)
  {
    hide Text.Contains;
  }

  lemma UpstreamSucceedsIff(cfg: Config, now: int, u: Upstream)
    ensures CheckUpstreamUser(cfg, now, u) == None && !u.link && CheckUpstreamClient(u) == None
       <==> MayFederate(cfg, now, u)
  {
    hide Text.Contains;
  }

  /**
   A refusal is delayed exactly when the user is known and has given a password, right or wrong, or has
   authenticated without one. An unknown e-mail address is answered at once.
   */
  lemma RefusalDelayedIff(now: int, a: Attempt)
    requires CheckLogin(now, a).Some?
    ensures var (error, delayed) := CheckLogin(now, a).value;
            delayed <==> a.user.Some? && (a.password.NotGiven? ==> Authenticated(a.user.value, a))
  {
    hide ChallengeOk;
  }

  /** A code that was obtained without a password is held back until the second factor is confirmed. */
  lemma PasswordlessAwaitsWebauthn(cfg: Config, s: State, a: Attempt, sid: string, id: string)
    requires DoAuthorize(cfg, s, a, sid, id).1 in {LoggedIn, AwaitWebauthn} && a.password.NotGiven?
    ensures DoAuthorize(cfg, s, a, sid, id).1 == AwaitWebauthn
  {
    hide ChallengeOk, Enter;
  }

  /** With the method "plain", the verifier must be the challenge itself. */
  lemma PlainComparison(cfg: Config, code: AuthCode, verifier: string)
    requires code.challenge.Some? && code.challengeMethod == Some("plain")
    ensures CheckVerifier(cfg, code, Some(verifier)) == None <==> code.challenge == Some(verifier)
  {
  }

  /** With any method but "plain", the verifier's digest must be the bytes that the challenge spells. */
  lemma DigestComparison(cfg: Config, code: AuthCode, verifier: string)
    requires code.challenge.Some? && code.challengeMethod.Some? && code.challengeMethod.value != "plain"
    ensures CheckVerifier(cfg, code, Some(verifier)) == None
            <==> Base64.UrlNoPadDecode(code.challenge.value) == Some(cfg.sha256(verifier))
  {
    var digest := cfg.sha256(verifier);
    Base64.UrlEncodeIsNoPad(digest);
    Base64.DecodeOfEncode(digest);
    if Base64.UrlNoPadDecode(code.challenge.value) == Some(digest) { Base64.EncodeOfDecode(code.challenge.value); }
  }

  /** What a verifier has to be: anything for a code without a challenge, and none will do without a method. */
  lemma VerifierCheckedIff(cfg: Config, code: AuthCode, verifier: Option<string>)
    ensures CheckVerifier(cfg, code, verifier) == None <==>
              (code.challenge.Some? ==>
                 && verifier.Some? && code.challengeMethod.Some?
                 && if code.challengeMethod.value == "plain" then verifier == code.challenge
                    else Base64.UrlNoPadDecode(code.challenge.value) == Some(cfg.sha256(verifier.value)))
  {
    if code.challenge.Some? && verifier.Some? && code.challengeMethod.Some? {
      if code.challengeMethod.value == "plain" {
        PlainComparison(cfg, code, verifier.value);
      } else {
        DigestComparison(cfg, code, verifier.value);
      }
    }
    hide Base64.UrlEncode, Base64.UrlNoPadDecode;
  }

  /**
   A successful redemption leaves the session of the code authenticated for the user, in the table and in
   the cache alike, seen just now, living no longer than before and no longer than the user.
   */
  lemma RedemptionPromotes(cfg: Config, s: State, req: Redemption, id: string, sid: string)
    requires ById(req.users) && DoRedeem(cfg, s, req).1.Tokens?
    requires req.code == Some(id) && id in s.codes && s.codes[id].sessionId == Some(sid)
    ensures var t, before, user := DoRedeem(cfg, s, req).0, FindSession(s, sid).1, s.codes[id].userId;
            && before.Some? && user in req.users
            && sid in t.rows && sid in t.cache && t.cache[sid] == t.rows[sid] && id !in t.codes
            && var session := t.rows[sid];
               && session.state.Auth? && session.userId == Some(user) && session.lastSeen == s.now
               && session.isMfa == before.value.isMfa && session.exp <= before.value.exp
               && (var expires := req.users[user].expires; expires.Some? ==> session.exp <= expires.value)
               && (session.exp == before.value.exp || Some(session.exp) == req.users[user].expires)
  {
  }

  /** A logout reaches the table only: the lookup shows it exactly when the session is not cached. */
  lemma LogoutSeenIff(s: State, sid: string)
    requires sid in s.rows
    ensures var found := FindSession(LogOut(s, sid), sid).1;
            && found.Some?
            && (found == Some(s.rows[sid].(exp := s.now, state := LoggedOut)) <==>
                  sid !in s.cache || s.cache[sid] == s.rows[sid].(exp := s.now, state := LoggedOut))
  {
  }

  /** Since the request for a logout looks its session up itself, the next lookup still finds it as it was. */
  lemma LogoutNotSeenAtFirst(cfg: Config, s: State, sid: string)
    requires Enter(cfg, s, sid).1.Some?
    ensures FindSession(Apply(cfg, s, Logout(sid)), sid).1 == Enter(cfg, s, sid).1
  {
  }

  // ---------------------------------------------------------------------------------------------
  // Main results, for every run and every step n of it

  predicate Redeems(cfg: Config, s: State, steps: seq<Step>, n: nat, id: string) {
    && n < |steps| && steps[n].Redeem? && steps[n].req.code == Some(id)
    && Enabled(Exec(cfg, s, steps, n), steps[n]) && DoRedeem(cfg, Exec(cfg, s, steps, n), steps[n].req).1.Tokens?
  }

  lemma TokensMean(cfg: Config, s: State, req: Redemption)
    requires ById(req.users) && DoRedeem(cfg, s, req).1.Tokens?
    ensures req.code.Some? && req.code.value in s.codes
    ensures var code := s.codes[req.code.value];
            && req.client == Some(code.clientId) && s.now <= code.exp && CheckVerifier(cfg, code, req.verifier) == None
            && DoRedeem(cfg, s, req).1 == Tokens(code.userId)
            && req.code.value in DoRedeem(cfg, s, req).0.spent
            && (code.sessionId.Some? ==>
                  DoRedeem(cfg, s, req).0.promotedBy == s.promotedBy[code.sessionId.value := req.code.value])
            && (code.sessionId.None? ==> DoRedeem(cfg, s, req).0.promotedBy == s.promotedBy)
  {
    hide Promoted;
  }

  /**
   A successful redemption is for a code that has been issued and never been redeemed, by the client it
   was issued to, not after its expiry, with a verifier that meets its challenge, and for its user.
   */
  lemma RedemptionIsSound(cfg: Config, s: State, steps: seq<Step>, n: nat, id: string)
    requires Start(s) && Redeems(cfg, s, steps, n, id)
    ensures var t := Exec(cfg, s, steps, n);
            && id in t.issued && id !in t.spent
            && var code, req := t.issued[id].code, steps[n].req;
               && req.client == Some(code.clientId) && t.now <= code.exp
               && (code.challenge.Some? ==>
                     && req.verifier.Some? && code.challengeMethod.Some?
                     && if code.challengeMethod.value == "plain" then req.verifier == code.challenge
                        else Base64.UrlNoPadDecode(code.challenge.value) == Some(cfg.sha256(req.verifier.value)))
               && DoRedeem(cfg, t, req).1 == Tokens(code.userId)
  {
    var t := Exec(cfg, s, steps, n);
    hide Base64.UrlNoPadDecode, CheckVerifier, DoRedeem, Exec;
    ExecKeepsInv(cfg, s, steps, n);
    TokensMean(cfg, t, steps[n].req);
    assert CodeOk(t, id);
    VerifierCheckedIff(cfg, t.codes[id], steps[n].req.verifier);
  }

  lemma EnterKeepsHistory(cfg: Config, s: State, sid: string)
    ensures SameHistory(s, Enter(cfg, s, sid).0)
  {
  }

  predicate Later(s: State, t: State) {
    && s.spent <= t.spent && s.now <= t.now
    && forall id :: id in s.issued ==> id in t.issued && t.issued[id] == s.issued[id]
  }

  /** What a login adds to the history at most. */
  predicate OnlyIssues(s: State, t: State, id: string) {
    && t.spent == s.spent && t.promotedBy == s.promotedBy && t.now == s.now
    && (t.issued == s.issued || (id in t.issued && t.issued == s.issued[id := t.issued[id]]))
  }

  lemma AuthorizeOnlyIssues(cfg: Config, s: State, a: Attempt, sid: string, id: string)
    ensures OnlyIssues(s, DoAuthorize(cfg, s, a, sid, id).0, id)
  {
    EnterKeepsHistory(cfg, s, sid);
    hide Enter, CheckLogin, Lifetime;
  }

  lemma RenewOnlyIssues(cfg: Config, s: State, r: Renewal, sid: string, id: string)
    ensures OnlyIssues(s, DoRenew(cfg, s, r, sid, id).0, id)
  {
    EnterKeepsHistory(cfg, s, sid);
    hide Enter, Lifetime;
  }

  lemma FederateOnlyIssues(cfg: Config, s: State, u: Upstream, sid: string, id: string)
    ensures OnlyIssues(s, DoFederate(cfg, s, u, sid, id).0, id)
  {
    EnterKeepsHistory(cfg, s, sid);
    hide Enter, ForcesMfa, Lifetime;
  }

  lemma LoginsMoveOn(cfg: Config, s: State, step: Step)
    requires Enabled(s, step) && (step.Authorize? || step.Renew? || step.Federate?)
    ensures Later(s, Apply(cfg, s, step)) && Apply(cfg, s, step).spent == s.spent
              && Apply(cfg, s, step).promotedBy == s.promotedBy
  {
    hide DoAuthorize, DoRenew, DoFederate, ById;
    match step
    case Authorize(a, sid, id) => AuthorizeOnlyIssues(cfg, s, a, sid, id);
    case Renew(r, sid, id) => RenewOnlyIssues(cfg, s, r, sid, id);
    case Federate(u, sid, id) => FederateOnlyIssues(cfg, s, u, sid, id);
  }

  lemma OthersMoveOn(cfg: Config, s: State, step: Step)
    requires !(step.Authorize? || step.Renew? || step.Federate? || step.Redeem?)
    ensures var t := Apply(cfg, s, step);
            Later(s, t) && t.issued == s.issued && t.spent == s.spent && t.promotedBy == s.promotedBy
  {
    if step.Visit? || step.Logout? { EnterKeepsHistory(cfg, s, step.sid); }
    hide Enter;
  }

  lemma RedemptionMovesOn(cfg: Config, s: State, req: Redemption)
    ensures var t := DoRedeem(cfg, s, req).0;
            && Later(s, t) && t.issued == s.issued
            && (!DoRedeem(cfg, s, req).1.Tokens? ==> t.spent == s.spent && t.promotedBy == s.promotedBy)
            && (DoRedeem(cfg, s, req).1.Tokens? ==> req.code.Some? && t.spent == s.spent + {req.code.value})
  {
    hide Promoted, TokensFor;
  }

  lemma ApplyMovesOn(cfg: Config, s: State, step: Step)
    ensures Later(s, Apply(cfg, s, step))
  {
    if Enabled(s, step) {
      if step.Authorize? || step.Renew? || step.Federate? {
        LoginsMoveOn(cfg, s, step);
      } else if step.Redeem? {
        RedemptionMovesOn(cfg, s, step.req);
      } else {
        OthersMoveOn(cfg, s, step);
      }
    }
    hide Answer, Enabled;
  }

  lemma {:induction false} ExecMovesOn(cfg: Config, s: State, steps: seq<Step>, m: nat, n: nat)
    requires m <= n <= |steps|
    ensures Later(Exec(cfg, s, steps, m), Exec(cfg, s, steps, n))
    decreases n
  {
    hide Apply;
    if m < n {
      ExecMovesOn(cfg, s, steps, m, n - 1);
      ApplyMovesOn(cfg, Exec(cfg, s, steps, n - 1), steps[n - 1]);
    }
  }

  lemma RedeemedIsSpent(cfg: Config, s: State, steps: seq<Step>, n: nat, id: string)
    requires Redeems(cfg, s, steps, n, id)
    ensures id in Exec(cfg, s, steps, n + 1).spent
  {
    TokensMean(cfg, Exec(cfg, s, steps, n), steps[n].req);
    hide DoRedeem;
  }

  /** Each code is redeemed at most once. */
  lemma RedeemedAtMostOnce(cfg: Config, s: State, steps: seq<Step>, m: nat, n: nat, id: string)
    requires Start(s) && m < n && Redeems(cfg, s, steps, m, id)
    ensures !Redeems(cfg, s, steps, n, id)
  {
    if Redeems(cfg, s, steps, n, id) {
      RedeemedIsSpent(cfg, s, steps, m, id);
      RedemptionIsSound(cfg, s, steps, n, id);
      hide Exec, Redeems;
      ExecMovesOn(cfg, s, steps, m + 1, n);
    }
  }

  /** What each way of issuing a code has made sure of. */
  predicate Vouched(cfg: Config, s: State, step: Step, id: string, o: Origin) {
    o.at == s.now && match step
      case Authorize(a, sid, i) =>
        && i == id && o.via == ByLogin && MayLogin(s.now, a) && o.allowed == a.client.value.challenge
        && var client, user := a.client.value, a.user.value;
           o.code == AuthCode(client.id, user.id, Some(sid), a.challenge, a.challengeMethod,
                              s.now + client.codeLifetime + if user.webauthn then cfg.webauthnLifetime else 0)
      case Renew(r, sid, i) =>
        && i == id && o.via == ByRenewal && Enter(cfg, s, sid).1.Some?
        && var session := Enter(cfg, s, sid).1.value;
           && session.state.Auth? && MayRenew(s.now, session, r) && o.allowed == r.client.value.challenge
           && var client, user := r.client.value, r.users[session.userId.value];
              o.code == AuthCode(client.id, session.userId.value, Some(sid), r.challenge, r.challengeMethod,
                                 s.now + client.codeLifetime + if user.webauthn then cfg.webauthnLifetime else 0)
      case Federate(u, sid, i) =>
        && i == id && o.via == ByUpstream && MayFederate(cfg, s.now, u) && o.allowed == u.client.value.challenge
        && var client := u.client.value;
           var forced := client.forceMfa || (client.id == "rauthy" && cfg.adminForceMfa);
           o.code == AuthCode(client.id, u.user.id, Some(sid), u.challenge, u.challengeMethod,
                              s.now + client.codeLifetime
                              + if forced && u.user.webauthn then cfg.webauthnLifetime else 0)
      case _ => false
  }

  lemma LoginVouches(cfg: Config, s: State, a: Attempt, sid: string, id: string)
    requires id !in s.issued && id in DoAuthorize(cfg, s, a, sid, id).0.issued
    ensures Vouched(cfg, s, Authorize(a, sid, id), id, DoAuthorize(cfg, s, a, sid, id).0.issued[id])
  {
    EnterKeepsHistory(cfg, s, sid);
    LoginSucceedsIff(s.now, a);
    hide Enter, CheckLogin, MayLogin;
  }

  lemma RenewalVouches(cfg: Config, s: State, r: Renewal, sid: string, id: string)
    requires ById(r.users) && id !in s.issued && id in DoRenew(cfg, s, r, sid, id).0.issued
    ensures Vouched(cfg, s, Renew(r, sid, id), id, DoRenew(cfg, s, r, sid, id).0.issued[id])
  {
    EnterKeepsHistory(cfg, s, sid);
    if Enter(cfg, s, sid).1.Some? { RenewalSucceedsIff(s.now, Enter(cfg, s, sid).1.value, r); }
    hide Enter, CheckRenewal, Text.Contains;
  }

  lemma UpstreamVouches(cfg: Config, s: State, u: Upstream, sid: string, id: string)
    requires id !in s.issued && id in DoFederate(cfg, s, u, sid, id).0.issued
    ensures Vouched(cfg, s, Federate(u, sid, id), id, DoFederate(cfg, s, u, sid, id).0.issued[id])
  {
    EnterKeepsHistory(cfg, s, sid);
    UpstreamSucceedsIff(cfg, s.now, u);
    hide Enter, ChallengeOk, MeetsChallenge;
  }

  lemma OtherIdsNotIssued(cfg: Config, s: State, step: Step, id: string)
    requires step.Authorize? || step.Renew? || step.Federate?
    requires id !in s.issued && id in Answer(cfg, s, step).0.issued
    ensures step.id == id
  {
    hide DoAuthorize, DoRenew, DoFederate;
    match step
    case Authorize(a, sid, i) => AuthorizeOnlyIssues(cfg, s, a, sid, i);
    case Renew(r, sid, i) => RenewOnlyIssues(cfg, s, r, sid, i);
    case Federate(u, sid, i) => FederateOnlyIssues(cfg, s, u, sid, i);
  }

  lemma NewCodeIsVouched(cfg: Config, s: State, step: Step, id: string)
    requires Enabled(s, step) && id !in s.issued && id in Apply(cfg, s, step).issued
    ensures Vouched(cfg, s, step, id, Apply(cfg, s, step).issued[id])
  {
    hide DoAuthorize, DoRenew, DoFederate, DoRedeem, Vouched;
    if step.Authorize? || step.Renew? || step.Federate? {
      OtherIdsNotIssued(cfg, s, step, id);
      match step
      case Authorize(a, sid, _) => LoginVouches(cfg, s, a, sid, id);
      case Renew(r, sid, _) => RenewalVouches(cfg, s, r, sid, id);
      case Federate(u, sid, _) => UpstreamVouches(cfg, s, u, sid, id);
    } else if step.Redeem? {
      RedemptionMovesOn(cfg, s, step.req);
    } else {
      OthersMoveOn(cfg, s, step);
    }
  }

  lemma NotEnabledIsStill(cfg: Config, s: State, step: Step)
    ensures Enabled(s, step) || Apply(cfg, s, step) == s
  {
  }

  /** Every code goes back to one step of the run that vouched for it. */
  lemma {:induction false} CodeHasOrigin(cfg: Config, s: State, steps: seq<Step>, n: nat, id: string) returns (m: nat)
    requires Start(s) && n <= |steps| && id in Exec(cfg, s, steps, n).issued
    ensures m < n && Enabled(Exec(cfg, s, steps, m), steps[m])
    ensures Vouched(cfg, Exec(cfg, s, steps, m), steps[m], id, Exec(cfg, s, steps, n).issued[id])
  {
    hide Apply, Vouched, Enabled;
    assert n != 0;
    var before := Exec(cfg, s, steps, n - 1);
    ApplyMovesOn(cfg, before, steps[n - 1]);
    if id in before.issued {
      m := CodeHasOrigin(cfg, s, steps, n - 1, id);
    } else {
      m := n - 1;
      NotEnabledIsStill(cfg, before, steps[n - 1]);
      NewCodeIsVouched(cfg, before, steps[n - 1], id);
    }
  }

  lemma PlainIsNotInS256(name: string)
    requires Text.Contains("S256", name)
    ensures name != "plain"
  {
  }

  lemma MethodOfS256(cfg: Config, s: State, step: Step, id: string, o: Origin)
    requires Vouched(cfg, s, step, id, o) && o.allowed == Some("S256")
    ensures o.code.challenge.Some? && o.code.challengeMethod.Some? && o.code.challengeMethod.value != "plain"
  {
    hide Text.Contains, Enter, Lifetime;
    if Text.Contains("S256", "plain") { PlainIsNotInS256("plain"); }
  }

  /** A client that allows S256 only gets tokens only against a verifier whose digest the challenge spells. */
  lemma S256ClientsNeedTheDigest(cfg: Config, s: State, steps: seq<Step>, n: nat, id: string)
    requires Start(s) && Redeems(cfg, s, steps, n, id) && id in Exec(cfg, s, steps, n).issued
    requires Exec(cfg, s, steps, n).issued[id].allowed == Some("S256")
    ensures var code, verifier := Exec(cfg, s, steps, n).issued[id].code, steps[n].req.verifier;
            && code.challenge.Some? && verifier.Some?
            && Base64.UrlNoPadDecode(code.challenge.value) == Some(cfg.sha256(verifier.value))
  {
    RedemptionIsSound(cfg, s, steps, n, id);
    var m := CodeHasOrigin(cfg, s, steps, n, id);
    var o := Exec(cfg, s, steps, n).issued[id];
    MethodOfS256(cfg, Exec(cfg, s, steps, m), steps[m], id, o);
    hide Exec, Redeems, DoRedeem, Vouched;
    assert steps[n].req.verifier.Some?;
    DigestComparison(cfg, o.code, steps[n].req.verifier.value);
  }

  /**
   Exactly when a redemption aborts: the right client redeems a stored code in time, with a verifier, for a
   challenge without a method.
   */
  lemma RedemptionAbortsIff(cfg: Config, s: State, req: Redemption)
    ensures DoRedeem(cfg, s, req).1 == Aborted <==>
              && req.code.Some? && req.code.value in s.codes
              && var code := s.codes[req.code.value];
                 && req.client == Some(code.clientId) && s.now <= code.exp
                 && code.challenge.Some? && code.challengeMethod.None? && req.verifier.Some?
  {
    hide Promoted;
  }

  /** A challenge without a method makes the redemption abort; only the renewal of a session lets one through. */
  lemma AbortsOnlyAfterRenewal(cfg: Config, s: State, steps: seq<Step>, n: nat)
    requires Start(s) && n < |steps| && steps[n].Redeem?
    requires Answer(cfg, Exec(cfg, s, steps, n), steps[n]).1 == Aborted
    ensures var t := Exec(cfg, s, steps, n);
            && steps[n].req.code.Some? && steps[n].req.code.value in t.issued
            && var o := t.issued[steps[n].req.code.value];
               o.via == ByRenewal && o.code.challenge.Some? && o.code.challengeMethod.None?
               && (o.allowed.Some? ==> Text.Contains(o.allowed.value, "plain"))
  {
    var t, req := Exec(cfg, s, steps, n), steps[n].req;
    ExecKeepsInv(cfg, s, steps, n);
    RedemptionAbortsIff(cfg, t, req);
    assert CodeOk(t, req.code.value);
    var m := CodeHasOrigin(cfg, s, steps, n, req.code.value);
    hide Exec, Enter, Lifetime;
  }

  /** Such a code never yields tokens. */
  lemma MethodlessCodesAreUseless(cfg: Config, s: State, steps: seq<Step>, n: nat, id: string)
    requires Start(s) && n < |steps| && id in Exec(cfg, s, steps, n).issued
    requires var code := Exec(cfg, s, steps, n).issued[id].code; code.challenge.Some? && code.challengeMethod.None?
    ensures !Redeems(cfg, s, steps, n, id)
  {
    if Redeems(cfg, s, steps, n, id) { RedemptionIsSound(cfg, s, steps, n, id); }
  }

  /** Whether step n redeems a code that was issued for the session. */
  predicate Promotes(cfg: Config, s: State, steps: seq<Step>, n: nat, sid: string) {
    && n < |steps| && steps[n].Redeem? && steps[n].req.code.Some? && Redeems(cfg, s, steps, n, steps[n].req.code.value)
    && steps[n].req.code.value in Exec(cfg, s, steps, n).codes
    && Exec(cfg, s, steps, n).codes[steps[n].req.code.value].sessionId == Some(sid)
  }

  lemma PromotionStep(cfg: Config, s: State, steps: seq<Step>, n: nat, sid: string)
    requires n < |steps|
    ensures var t, u := Exec(cfg, s, steps, n), Exec(cfg, s, steps, n + 1);
            if Promotes(cfg, s, steps, n, sid)
            then steps[n].req.code.Some? && sid in u.promotedBy && u.promotedBy[sid] == steps[n].req.code.value
            else
              && (sid in u.promotedBy <==> sid in t.promotedBy)
              && (sid in u.promotedBy ==> u.promotedBy[sid] == t.promotedBy[sid])
  {
    var t, step := Exec(cfg, s, steps, n), steps[n];
    if Enabled(t, step) {
      if step.Redeem? {
        RedemptionMovesOn(cfg, t, step.req);
        if DoRedeem(cfg, t, step.req).1.Tokens? { TokensMean(cfg, t, step.req); }
      } else if step.Authorize? || step.Renew? || step.Federate? {
        LoginsMoveOn(cfg, t, step);
      } else {
        OthersMoveOn(cfg, t, step);
      }
    }
    hide DoRedeem, DoAuthorize, DoRenew, DoFederate, Enter, ById, CheckVerifier, EndSessions, LogOut;
  }

  lemma {:induction false} LastPromotion(cfg: Config, s: State, steps: seq<Step>, n: nat, sid: string) returns (k: nat)
    requires Start(s) && n <= |steps| && sid in Exec(cfg, s, steps, n).promotedBy
    ensures k < n && Promotes(cfg, s, steps, k, sid)
    ensures steps[k].req.code == Some(Exec(cfg, s, steps, n).promotedBy[sid])
    ensures forall j :: k < j < n ==> !Promotes(cfg, s, steps, j, sid)
  {
    hide Apply, Promotes;
    assert n != 0;
    PromotionStep(cfg, s, steps, n - 1, sid);
    if Promotes(cfg, s, steps, n - 1, sid) {
      k := n - 1;
    } else {
      k := LastPromotion(cfg, s, steps, n - 1, sid);
    }
  }

  predicate AuthenticatedAs(s: State, sid: string, user: Option<string>) {
    || (sid in s.rows && s.rows[sid].state.Auth? && s.rows[sid].userId == user)
    || (sid in s.cache && s.cache[sid].state.Auth? && s.cache[sid].userId == user)
  }

  /**
   Wherever an authenticated session is found, in the table or in the cache, a code issued for that very
   session has been redeemed, and the session carries the user of the one redeemed last.
   */
  lemma SessionsFollowCodes(cfg: Config, s: State, steps: seq<Step>, n: nat, sid: string, user: Option<string>)
    returns (k: nat)
    requires Start(s) && n <= |steps| && AuthenticatedAs(Exec(cfg, s, steps, n), sid, user)
    ensures k < n && Promotes(cfg, s, steps, k, sid)
    ensures forall j :: k < j < n ==> !Promotes(cfg, s, steps, j, sid)
    ensures user == Some(Exec(cfg, s, steps, k).codes[steps[k].req.code.value].userId)
  {
    var t := Exec(cfg, s, steps, n);
    ExecKeepsInv(cfg, s, steps, n);
    k := LastPromotion(cfg, s, steps, n, sid);
    ExecKeepsInv(cfg, s, steps, k);
    ExecMovesOn(cfg, s, steps, k, n);
    hide Exec, Redeems;
    assert CodeOk(Exec(cfg, s, steps, k), steps[k].req.code.value);
  }
}
