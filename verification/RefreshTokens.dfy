/**
 Refresh tokens over whole runs: issue at a login, exchange with a grace window, reuse detection and
 clean-up. Every request is one atomic step on the two token tables; times are whole seconds.
 */
module RefreshTokens {
  import opened Wrappers

  datatype TokenType = Bearer | DPoP | Id | Refresh

  datatype Claims = Claims(typ: TokenType, azp: string, uid: string, jkt: Option<string>)

  datatype Row = Row(userId: string, nbf: int, exp: int, scope: Option<string>, isMfa: bool)

  datatype DeviceRow = DeviceRow(deviceId: string, userId: string, nbf: int, exp: int, scope: Option<string>)

  datatype User = User(id: string, enabled: bool, expires: Option<int>, webauthn: bool)

  datatype Client = Client(id: string, accessTokenLifetime: int, refreshToken: bool)

  datatype Config = Config(graceTime: nat, lifetimeHours: nat, deviceLifetimeHours: nat)

  /** A signed token: its claims, the refresh token it was exchanged for, and whether a device got it. */
  datatype Issue = Issue(claims: Claims, parent: Option<string>, device: bool)

  datatype State = State(
    rows: map<string, Row>,
    deviceRows: map<string, DeviceRow>,
    now: int,
    tokens: map<string, Issue>)   // history: every token ever signed, by its text

  /** The DPoP header of a request: absent, refused by its own validation, or valid with a thumbprint. */
  datatype Proof = NoProof | BadProof | Thumbprint(jkt: string)

  /** `verifies` is the verdict of the JWT library; `user` is what the user table holds for the claimed id. */
  datatype Request = Request(client: Client, token: string, verifies: bool, proof: Proof, user: Option<User>,
      newToken: string)

  datatype Outcome =
    | Tokens(refreshToken: Option<string>)
    | InvalidJwt | WrongType | WrongAzp | MissingProof | NotFound | ReuseDetected | UserRefused
    | UserExpired   // the exchanged token is already shortened when this is noticed

  /** The part of a token that is stored and looked up: its last 49 characters. */
  function Suffix(token: string): string {
    if |token| < 49 then token else token[|token| - 49..]
  }

  function Abs(x: int): nat {
    if x < 0 then -x else x
  }

  function Min(x: int, y: int): int {
    if x < y then x else y
  }

  /** The lifetime of the access token, or nothing for a user about to expire. */
  function Lifetime(now: int, user: User, client: Client): Option<int> {
    match user.expires
    case None => Some(Abs(client.accessTokenLifetime))
    case Some(ts) => if ts - now < 1 then None else Some(Min(Abs(client.accessTokenLifetime), ts - now))
  }

  // ---------------------------------------------------------------------------------------------
  // Specification of the steps

  function Issued(cfg: Config, s: State, user: User, client: Client, jkt: Option<string>, lifetime: int,
                  scope: Option<string>, device: Option<string>, parent: Option<string>, token: string): State {
    var nbf := s.now + lifetime - 60;
    var t := s.(tokens := s.tokens[token := Issue(Claims(Refresh, client.id, user.id, jkt), parent, device.Some?)]);
    match device
    case Some(id) =>
      t.(deviceRows := s.deviceRows[Suffix(token) := DeviceRow(id, user.id, nbf,
                                                                  nbf + cfg.deviceLifetimeHours * 3600, scope)])
    case None =>
      t.(rows := s.rows[Suffix(token) := Row(user.id, nbf, nbf + cfg.lifetimeHours * 3600, scope, user.webauthn)])
  }

  /** `TokenSet::from_user`, as far as refresh tokens go. */
  function FromUser(cfg: Config, s: State, user: User, client: Client, jkt: Option<string>, scope: Option<string>,
                    device: Option<string>, parent: Option<string>, token: string): (State, Outcome) {
    match Lifetime(s.now, user, client)
    case None => (s, UserExpired)
    case Some(lifetime) =>
      if client.refreshToken then
        (Issued(cfg, s, user, client, jkt, lifetime, scope, device, parent, token), Tokens(Some(token)))
      else (s, Tokens(None))
  }

  /** Everything that is checked before the token table is read. */
  function CheckClaims(s: State, req: Request): Option<Outcome> {
    if !req.verifies || req.token !in s.tokens then Some(InvalidJwt)
    else
      var claims := s.tokens[req.token].claims;
      if claims.typ != Refresh then Some(WrongType)
      else if claims.azp != req.client.id then Some(WrongAzp)
      else if claims.jkt.Some? && req.proof != Thumbprint(claims.jkt.value) then Some(MissingProof)
      else None
  }

  predicate UserMayRefresh(s: State, user: Option<User>) {
    user.Some? && user.value.enabled && (user.value.expires.Some? ==> s.now <= user.value.expires.value)
  }

  /** A used token lives on for the grace time, unless it is that short-lived already. */
  function Shortened(cfg: Config, now: int, row: Row): Row {
    if row.exp > now + cfg.graceTime + 1 then row.(exp := now + cfg.graceTime) else row
  }

  function DeleteForUser(rows: map<string, Row>, uid: string): map<string, Row> {
    map k | k in rows && rows[k].userId != uid :: rows[k]
  }

  function Redeem(cfg: Config, s: State, req: Request): (State, Outcome) {
    if CheckClaims(s, req).Some? then (s, CheckClaims(s, req).value)
    else
      var k := Suffix(req.token);
      if k !in s.rows then (s, NotFound)
      else if s.rows[k].exp < s.now then
        (s.(rows := DeleteForUser(s.rows, s.rows[k].userId)), ReuseDetected)
      else if !UserMayRefresh(s, req.user) then (s, UserRefused)
      else
        FromUser(cfg, s.(rows := s.rows[k := Shortened(cfg, s.now, s.rows[k])]), req.user.value, req.client,
                 s.tokens[req.token].claims.jkt, s.rows[k].scope, None, Some(req.token), req.newToken)
  }

  datatype Step =
    | Login(user: User, client: Client, jkt: Option<string>, scope: Option<string>, device: Option<string>,
        token: string)
    | Exchange(req: Request)
    | SignOther(token: string, claims: Claims)
    | InvalidateForUser(uid: string)
    | InvalidateAll
    | CleanUp
    | Tick(secs: nat)

  function Cap(now: int, row: Row): Row {
    if row.exp > now then row.(exp := now) else row
  }

  function Apply(cfg: Config, s: State, step: Step): State {
    match step
    case Login(user, client, jkt, scope, device, token) =>
      FromUser(cfg, s, user, client, jkt, scope, device, None, token).0
    case Exchange(req) => Redeem(cfg, s, req).0
    case SignOther(token, claims) => s.(tokens := s.tokens[token := Issue(claims, None, false)])
    case InvalidateForUser(uid) =>
      s.(rows := map k | k in s.rows :: if s.rows[k].userId == uid then Cap(s.now, s.rows[k]) else s.rows[k])
    case InvalidateAll => s.(rows := map k | k in s.rows :: Cap(s.now, s.rows[k]))
    case CleanUp => s.(rows := map k | k in s.rows && s.rows[k].exp >= s.now :: s.rows[k])
    case Tick(secs) => s.(now := s.now + secs)
  }

  /** A new token text is random: its stored part has never been seen. */
  predicate FreshToken(s: State, token: string) {
    && |token| >= 49
    && Suffix(token) !in s.rows && Suffix(token) !in s.deviceRows
    && forall t :: t in s.tokens ==> Suffix(t) != Suffix(token)
  }

  /** What the environment promises: fresh texts, no forged refresh claims, users found by their id. */
  predicate Enabled(s: State, step: Step) {
    match step
    case Login(_, _, _, _, _, token) => FreshToken(s, token)
    case Exchange(req) =>
      && FreshToken(s, req.newToken)
      && (req.token in s.tokens && req.user.Some? ==> req.user.value.id == s.tokens[req.token].claims.uid)
    case SignOther(token, claims) => FreshToken(s, token) && claims.typ != Refresh
    case _ => true
  }

  /** The state after the first n steps of a run; a step that breaks the promise does not happen. */
  function Exec(cfg: Config, s: State, steps: seq<Step>, n: nat): State
    requires n <= |steps|
  {
    if n == 0 then s
    else
      var before := Exec(cfg, s, steps, n - 1);
      if Enabled(before, steps[n - 1]) then Apply(cfg, before, steps[n - 1]) else before
  }

  /** Before the first token is signed; the tables may hold anything. */
  predicate Init(s: State) {
    s.tokens == map[]
  }

  /** The answer to an exchange of the given token at step n, or nothing if step n is none. */
  function Answer(cfg: Config, s: State, steps: seq<Step>, n: nat, token: string): Option<Outcome> {
    if n < |steps| && steps[n].Exchange? && steps[n].req.token == token && Enabled(Exec(cfg, s, steps, n), steps[n])
    then Some(Redeem(cfg, Exec(cfg, s, steps, n), steps[n].req).1) else None
  }

  /** Step n exchanges the given token: its row was valid and has been shortened. */
  predicate Redeems(cfg: Config, s: State, steps: seq<Step>, n: nat, token: string) {
    var answer := Answer(cfg, s, steps, n, token);
    answer.Some? && (answer.value.Tokens? || answer.value.UserExpired?)
  }

  /** Step n detects the reuse of the given token. */
  predicate Detects(cfg: Config, s: State, steps: seq<Step>, n: nat, token: string) {
    Answer(cfg, s, steps, n, token) == Some(ReuseDetected)
  }

  // ---------------------------------------------------------------------------------------------
  // The tables as the handlers change them

  class TokenStore {
    const cfg: Config
    var rows: map<string, Row>
    var deviceRows: map<string, DeviceRow>
    var now: int
    ghost var tokens: map<string, Issue>

    constructor (cfg: Config, now: int)
      ensures this.cfg == cfg && Contents() == State(map[], map[], now, map[])
    {
      this.cfg, this.now := cfg, now;
      rows, deviceRows, tokens := map[], map[], map[];
    }

    ghost function Contents(): State
      reads this
    {
      State(rows, deviceRows, now, tokens)
    }

    /** `build_refresh_token`; `token` is what the JWT library returned. */
    method BuildRefreshToken(user: User, client: Client, jkt: Option<string>, lifetime: int,
                             scope: Option<string>, device: Option<string>, ghost parent: Option<string>, token: string)
      modifies this
      ensures Contents() == Issued(cfg, old(Contents()), user, client, jkt, lifetime, scope, device, parent, token)
    {
      tokens := tokens[token := Issue(Claims(Refresh, client.id, user.id, jkt), parent, device.Some?)];
      var validation := Suffix(token);
      var nbf := now + lifetime - 60;
      if device.Some? {
        var exp := nbf + cfg.deviceLifetimeHours * 3600;
        deviceRows := deviceRows[validation := DeviceRow(device.value, user.id, nbf, exp, scope)];
      } else {
        var exp := nbf + cfg.lifetimeHours * 3600;
        rows := rows[validation := Row(user.id, nbf, exp, scope, user.webauthn)];
      }
    }

    method TokenSetFromUser(user: User, client: Client, jkt: Option<string>, scope: Option<string>,
                            device: Option<string>, ghost parent: Option<string>, token: string) returns (r: Outcome)
      modifies this
      ensures (Contents(), r) == FromUser(cfg, old(Contents()), user, client, jkt, scope, device, parent, token)
    {
      var lifetime := Abs(client.accessTokenLifetime);
      if user.expires.Some? {
        var diff := user.expires.value - now;
        if diff < 1 { return UserExpired; }
        if diff <= lifetime { lifetime := diff; }
      }
      if !client.refreshToken { return Tokens(None); }
      BuildRefreshToken(user, client, jkt, lifetime, scope, device, parent, token);
      r := Tokens(Some(token));
    }

    /** `validate_refresh_token`; `claims` is what the JWT library extracted, if it accepted the token. */
    method ValidateRefreshToken(req: Request, claims: Option<Claims>) returns (r: Outcome)
      requires claims == if req.verifies && req.token in tokens then Some(tokens[req.token].claims) else None
      modifies this
      ensures (Contents(), r) == Redeem(cfg, old(Contents()), req)
    {
      if claims.None? { return InvalidJwt; }
      if claims.value.typ != Refresh { return WrongType; }
      if req.client.id != claims.value.azp { return WrongAzp; }
      var fingerprint := None;
      if claims.value.jkt.Some? {
        if !req.proof.Thumbprint? || req.proof.jkt != claims.value.jkt.value { return MissingProof; }
        fingerprint := Some(req.proof.jkt);
      }
      var validation := Suffix(req.token);
      if validation !in rows { return NotFound; }
      var rt := rows[validation];
      if rt.exp < now {
        rows := map k | k in rows && rows[k].userId != rt.userId :: rows[k];
        return ReuseDetected;
      }
      if req.user.None? { return UserRefused; }
      var user := req.user.value;
      if !user.enabled { return UserRefused; }
      if user.expires.Some? && now > user.expires.value { return UserRefused; }
      var expAt := now + cfg.graceTime;
      if rt.exp > expAt + 1 {
        rt := rt.(exp := expAt);
        rows := rows[validation := rt];
      } else {
        assert rows == rows[validation := rt];
      }
      r := TokenSetFromUser(user, req.client, fingerprint, rt.scope, None, Some(req.token), req.newToken);
    }

    /** `refresh_tokens_cleanup`: delete where exp < now. */
    method CleanUpExpired()
      modifies this
      ensures Contents() == Apply(cfg, old(Contents()), CleanUp)
    {
      rows := map k | k in rows && !(rows[k].exp < now) :: rows[k];
    }
  }

  // ---------------------------------------------------------------------------------------------
  // What every step keeps

  /** Distinct tokens have distinct stored parts; a stored row belongs to the user of its token, and
      no device token has a row in the table that exchanges read. */
  predicate Inv(s: State) {
    && (forall t, u :: t in s.tokens && u in s.tokens && Suffix(t) == Suffix(u) ==> t == u)
    && (forall t :: t in s.tokens && Suffix(t) in s.rows ==>
          s.rows[Suffix(t)].userId == s.tokens[t].claims.uid && !s.tokens[t].device)
    && (forall t :: t in s.tokens && s.tokens[t].parent.Some? ==>
          && s.tokens[t].parent.value in s.tokens
          && s.tokens[t].claims == s.tokens[s.tokens[t].parent.value].claims)
  }

  lemma FromUserKeepsInv(cfg: Config, s: State, user: User, client: Client, jkt: Option<string>, scope: Option<string>,
                         device: Option<string>, parent: Option<string>, token: string)
    requires Inv(s) && FreshToken(s, token)
    requires parent.Some? ==>
               && parent.value in s.tokens
               && s.tokens[parent.value].claims == Claims(Refresh, client.id, user.id, jkt)
    ensures Inv(FromUser(cfg, s, user, client, jkt, scope, device, parent, token).0)
  {
    var t := FromUser(cfg, s, user, client, jkt, scope, device, parent, token).0;
    assert token !in s.tokens;
    if t != s {
      forall u | u in t.tokens && Suffix(u) in t.rows
        ensures t.rows[Suffix(u)].userId == t.tokens[u].claims.uid && !t.tokens[u].device
      {
        if u != token { assert Suffix(u) != Suffix(token); }
      }
    }
  }

  lemma RedeemKeepsInv(cfg: Config, s: State, req: Request)
    requires Inv(s) && Enabled(s, Exchange(req))
    ensures Inv(Redeem(cfg, s, req).0)
  {
    var k := Suffix(req.token);
    if CheckClaims(s, req).None? && k in s.rows && s.rows[k].exp >= s.now && UserMayRefresh(s, req.user) {
      var t := s.(rows := s.rows[k := Shortened(cfg, s.now, s.rows[k])]);
      assert Inv(t);
      FromUserKeepsInv(cfg, t, req.user.value, req.client, s.tokens[req.token].claims.jkt, s.rows[k].scope, None,
                       Some(req.token), req.newToken);
    }
    hide FromUser;
  }

  lemma ApplyKeepsInv(cfg: Config, s: State, step: Step)
    requires Inv(s) && Enabled(s, step)
    ensures Inv(Apply(cfg, s, step))
  {
    hide FromUser, Redeem;
    match step
    case Login(user, client, jkt, scope, device, token) =>
      FromUserKeepsInv(cfg, s, user, client, jkt, scope, device, None, token);
    case Exchange(req) =>
      RedeemKeepsInv(cfg, s, req);
    case SignOther(token, claims) =>
      assert token !in s.tokens;
    case _ =>
  }

  lemma {:induction false} ExecKeepsInv(cfg: Config, s: State, steps: seq<Step>, n: nat)
    requires Init(s) && n <= |steps|
    ensures Inv(Exec(cfg, s, steps, n))
  {
    hide Apply, Enabled;
    if n != 0 {
      ExecKeepsInv(cfg, s, steps, n - 1);
      var before := Exec(cfg, s, steps, n - 1);
      if Enabled(before, steps[n - 1]) { ApplyKeepsInv(cfg, before, steps[n - 1]); }
    }
  }

  /** From a to b a known token keeps its claims, its row never comes back, and its expiry never rises. */
  predicate Ages(a: State, b: State, token: string) {
    && token in a.tokens && token in b.tokens && b.tokens[token] == a.tokens[token] && a.now <= b.now
    && (Suffix(token) in b.rows ==> Suffix(token) in a.rows && b.rows[Suffix(token)].exp <= a.rows[Suffix(token)].exp)
  }

  lemma FromUserAges(cfg: Config, s: State, user: User, client: Client, jkt: Option<string>, scope: Option<string>,
                     device: Option<string>, parent: Option<string>, newToken: string, token: string)
    requires FreshToken(s, newToken) && token in s.tokens
    ensures Ages(s, FromUser(cfg, s, user, client, jkt, scope, device, parent, newToken).0, token)
  {
    hide Lifetime;
  }

  lemma RedeemAges(cfg: Config, s: State, req: Request, token: string)
    requires FreshToken(s, req.newToken) && token in s.tokens
    ensures Ages(s, Redeem(cfg, s, req).0, token)
  {
    hide FromUser;
    var k := Suffix(req.token);
    if CheckClaims(s, req).None? && k in s.rows && UserMayRefresh(s, req.user) {
      var t := s.(rows := s.rows[k := Shortened(cfg, s.now, s.rows[k])]);
      assert Ages(s, t, token);
      FromUserAges(cfg, t, req.user.value, req.client, s.tokens[req.token].claims.jkt, s.rows[k].scope, None,
                   Some(req.token), req.newToken, token);
    }
  }

  lemma ApplyAges(cfg: Config, s: State, step: Step, token: string)
    requires Enabled(s, step) && token in s.tokens
    ensures Ages(s, Apply(cfg, s, step), token)
  {
    match step
    case Login(user, client, jkt, scope, device, newToken) =>
      FromUserAges(cfg, s, user, client, jkt, scope, device, None, newToken, token);
      hide FromUser;
    case Exchange(req) => RedeemAges(cfg, s, req, token);
    case _ => hide FromUser, Redeem;
  }

  /** In every run the stored expiry of an issued token only falls, and a deleted row stays deleted. */
  lemma {:induction false} ExpiryNeverRises(cfg: Config, s: State, steps: seq<Step>, m: nat, n: nat, token: string)
    requires m <= n <= |steps| && token in Exec(cfg, s, steps, m).tokens
    ensures Ages(Exec(cfg, s, steps, m), Exec(cfg, s, steps, n), token)
    decreases n
  {
    hide Apply, Enabled;
    if m < n {
      var b := Exec(cfg, s, steps, n - 1);
      ExpiryNeverRises(cfg, s, steps, m, n - 1, token);
      if Enabled(b, steps[n - 1]) { ApplyAges(cfg, b, steps[n - 1], token); }
    }
  }

  // ---------------------------------------------------------------------------------------------
  // Main results

  lemma RedeemShortens(cfg: Config, s: State, req: Request)
    requires FreshToken(s, req.newToken)
    requires Redeem(cfg, s, req).1.Tokens? || Redeem(cfg, s, req).1.UserExpired?
    ensures var t, k := Redeem(cfg, s, req).0, Suffix(req.token);
            && req.token in s.tokens && k in s.rows && s.rows[k].exp >= s.now
            && k in t.rows && t.rows[k].exp <= s.now + cfg.graceTime + 1
            && req.token in t.tokens
  {
  }

  lemma AfterRedeem(cfg: Config, s: State, steps: seq<Step>, m: nat, token: string)
    requires Redeems(cfg, s, steps, m, token)
    ensures var a, b := Exec(cfg, s, steps, m), Exec(cfg, s, steps, m + 1);
            && token in b.tokens && Suffix(token) in a.rows && a.rows[Suffix(token)].exp >= a.now
            && Suffix(token) in b.rows && b.rows[Suffix(token)].exp <= a.now + cfg.graceTime + 1
  {
    var a := Exec(cfg, s, steps, m);
    assert Exec(cfg, s, steps, m + 1) == Redeem(cfg, a, steps[m].req).0;
    hide Redeem, Apply, Exec;
    RedeemShortens(cfg, a, steps[m].req);
  }

  /**
   The rotation window: a token first exchanged at time t is never accepted after t + grace time + 1,
   however often it is exchanged inside the window.
   */
  lemma RotationWindow(cfg: Config, s: State, steps: seq<Step>, m: nat, n: nat, token: string)
    requires m < n && Redeems(cfg, s, steps, m, token) && Redeems(cfg, s, steps, n, token)
    ensures Exec(cfg, s, steps, n).now <= Exec(cfg, s, steps, m).now + cfg.graceTime + 1
  {
    assert n < |steps|;
    hide Redeem, Apply, Exec, Redeems;
    AfterRedeem(cfg, s, steps, m, token);
    AfterRedeem(cfg, s, steps, n, token);
    ExpiryNeverRises(cfg, s, steps, m + 1, n, token);
  }

  lemma DetectionDeletes(cfg: Config, s: State, req: Request, token: string)
    requires Inv(s) && Redeem(cfg, s, req).1.ReuseDetected? && FreshToken(s, req.newToken)
    requires token in s.tokens && req.token in s.tokens && s.tokens[token].claims.uid == s.tokens[req.token].claims.uid
    ensures Suffix(token) !in Redeem(cfg, s, req).0.rows && token in Redeem(cfg, s, req).0.tokens
  {
  }

  lemma NoRowNoExchange(cfg: Config, s: State, req: Request)
    requires Suffix(req.token) !in s.rows
    ensures !Redeem(cfg, s, req).1.Tokens? && !Redeem(cfg, s, req).1.UserExpired?
              && !Redeem(cfg, s, req).1.ReuseDetected?
  {
  }

  /** After a detected reuse no refresh token the user had is ever accepted again. */
  lemma ReuseRevokesAll(cfg: Config, s: State, steps: seq<Step>, m: nat, n: nat, reused: string, token: string)
    requires Init(s) && m < n && Detects(cfg, s, steps, m, reused)
    requires token in Exec(cfg, s, steps, m).tokens && reused in Exec(cfg, s, steps, m).tokens
    requires Exec(cfg, s, steps, m).tokens[token].claims.uid == Exec(cfg, s, steps, m).tokens[reused].claims.uid
    ensures !Redeems(cfg, s, steps, n, token)
  {
    var a := Exec(cfg, s, steps, m);
    assert Exec(cfg, s, steps, m + 1) == Redeem(cfg, a, steps[m].req).0;
    hide Redeem, Apply, Exec;
    ExecKeepsInv(cfg, s, steps, m);
    DetectionDeletes(cfg, a, steps[m].req, token);
    if n < |steps| && steps[n].Exchange? && steps[n].req.token == token {
      ExpiryNeverRises(cfg, s, steps, m + 1, n, token);
      NoRowNoExchange(cfg, Exec(cfg, s, steps, n), steps[n].req);
    }
  }

  /** Step n deletes the stored row of the given token: a clean-up after its expiry, or a detected reuse. */
  predicate Forgets(cfg: Config, s: State, steps: seq<Step>, n: nat, token: string) {
    && n < |steps|
    && var t := Exec(cfg, s, steps, n);
       token in t.tokens && Suffix(token) in t.rows &&
       if steps[n].CleanUp? then t.rows[Suffix(token)].exp < t.now
       else steps[n].Exchange? && steps[n].req.token in t.tokens
            && Detects(cfg, s, steps, n, steps[n].req.token)
            && t.tokens[steps[n].req.token].claims.uid == t.tokens[token].claims.uid
  }

  lemma ExchangeKeepsRowUnlessDetected(cfg: Config, s: State, req: Request, token: string)
    requires Inv(s) && token in s.tokens && Suffix(token) in s.rows
    ensures Suffix(token) !in Redeem(cfg, s, req).0.rows <==>
              Redeem(cfg, s, req).1.ReuseDetected? && req.token in s.tokens
              && s.tokens[req.token].claims.uid == s.tokens[token].claims.uid
  {
  }

  lemma RowLeavesIffForgotten(cfg: Config, s: State, steps: seq<Step>, n: nat, token: string)
    requires Init(s) && n < |steps|
    requires token in Exec(cfg, s, steps, n).tokens && Suffix(token) in Exec(cfg, s, steps, n).rows
    ensures Suffix(token) !in Exec(cfg, s, steps, n + 1).rows <==> Forgets(cfg, s, steps, n, token)
  {
    var a := Exec(cfg, s, steps, n);
    var b := Exec(cfg, s, steps, n + 1);
    assert b == if Enabled(a, steps[n]) then Apply(cfg, a, steps[n]) else a;
    ExecKeepsInv(cfg, s, steps, n);
    hide Exec;
    if steps[n].Exchange? && Enabled(a, steps[n]) {
      hide Enabled;
      ExchangeKeepsRowUnlessDetected(cfg, a, steps[n].req, token);
    }
  }

  lemma {:induction false} RowStoredIffNeverForgotten(cfg: Config, s: State, steps: seq<Step>, m: nat, n: nat,
                                                      token: string)
    requires Init(s) && m <= n <= |steps|
    requires token in Exec(cfg, s, steps, m).tokens && Suffix(token) in Exec(cfg, s, steps, m).rows
    ensures Suffix(token) in Exec(cfg, s, steps, n).rows <==>
              forall i :: m <= i < n ==> !Forgets(cfg, s, steps, i, token)
    decreases n
  {
    hide Exec, Forgets, Init, Suffix;
    if m < n {
      RowStoredIffNeverForgotten(cfg, s, steps, m, n - 1, token);
      ExpiryNeverRises(cfg, s, steps, m, n - 1, token);
      ExpiryNeverRises(cfg, s, steps, n - 1, n, token);
      if Suffix(token) in Exec(cfg, s, steps, n - 1).rows {
        RowLeavesIffForgotten(cfg, s, steps, n - 1, token);
      }
    }
  }

  lemma LateExchange(cfg: Config, s: State, req: Request)
    requires CheckClaims(s, req).None? && (Suffix(req.token) in s.rows ==> s.rows[Suffix(req.token)].exp < s.now)
    ensures Redeem(cfg, s, req).1 == if Suffix(req.token) in s.rows then ReuseDetected else NotFound
  {
  }

  /**
   A used token that is presented again after its grace time, with correct claims and proof, triggers
   the revocation of the user's tokens exactly when its row is still stored, that is, when neither a
   clean-up run after its expiry nor an earlier detection for that user has deleted it.
   */
  lemma LateReuseDetectedIff(cfg: Config, s: State, steps: seq<Step>, m: nat, n: nat, token: string)
    requires Init(s) && m < n && Redeems(cfg, s, steps, m, token)
    requires Answer(cfg, s, steps, n, token).Some?
    requires CheckClaims(Exec(cfg, s, steps, n), steps[n].req).None?
    requires Exec(cfg, s, steps, n).now > Exec(cfg, s, steps, m).now + cfg.graceTime + 1
    ensures Detects(cfg, s, steps, n, token) <==> forall i :: m < i < n ==> !Forgets(cfg, s, steps, i, token)
    ensures !Detects(cfg, s, steps, n, token) ==> Answer(cfg, s, steps, n, token) == Some(NotFound)
  {
    hide Apply, Exec, CheckClaims, Forgets, Enabled;
    assert n < |steps| && steps[n].Exchange? && steps[n].req.token == token;
    assert Answer(cfg, s, steps, n, token) == Some(Redeem(cfg, Exec(cfg, s, steps, n), steps[n].req).1);
    hide Redeem, Redeems, Answer;
    AfterRedeem(cfg, s, steps, m, token);
    ExpiryNeverRises(cfg, s, steps, m + 1, n, token);
    RowStoredIffNeverForgotten(cfg, s, steps, m + 1, n, token);
    LateExchange(cfg, Exec(cfg, s, steps, n), steps[n].req);
  }

  /** A refresh token handed to a device is never accepted: its row is in a table that exchanges do not read. */
  lemma DeviceTokensNeverExchanged(cfg: Config, s: State, steps: seq<Step>, n: nat, token: string)
    requires Init(s) && n < |steps|
    requires token in Exec(cfg, s, steps, n).tokens && Exec(cfg, s, steps, n).tokens[token].device
    ensures !Redeems(cfg, s, steps, n, token)
  {
    ExecKeepsInv(cfg, s, steps, n);
    hide Redeem, Apply, Exec, Enabled;
    if steps[n].Exchange? && steps[n].req.token == token {
      NoRowNoExchange(cfg, Exec(cfg, s, steps, n), steps[n].req);
    }
  }

  /** path[0], path[1], ... were each exchanged for the next. */
  predicate Descends(s: State, path: seq<string>) {
    && |path| > 0
    && (forall i :: 0 <= i < |path| ==> path[i] in s.tokens)
    && forall i :: 0 < i < |path| ==> s.tokens[path[i]].parent == Some(path[i - 1])
  }

  /** Every descendant of a login has the user, the client and the DPoP thumbprint of that login. */
  lemma {:induction false} ChainBinding(cfg: Config, s: State, steps: seq<Step>, n: nat, path: seq<string>)
    requires Init(s) && n <= |steps| && Descends(Exec(cfg, s, steps, n), path)
    ensures Exec(cfg, s, steps, n).tokens[path[|path| - 1]].claims == Exec(cfg, s, steps, n).tokens[path[0]].claims
  {
    ExecKeepsInv(cfg, s, steps, n);
    if |path| > 1 {
      ChainBinding(cfg, s, steps, n, path[..|path| - 1]);
    }
  }

  lemma RedeemedByHolder(cfg: Config, s: State, req: Request)
    requires Redeem(cfg, s, req).1.Tokens?
    ensures req.token in s.tokens
    ensures var claims := s.tokens[req.token].claims;
            req.client.id == claims.azp && (claims.jkt.Some? ==> req.proof == Thumbprint(claims.jkt.value))
  {
  }

  /** Down to any depth, a token is accepted only from the client of the login and with its DPoP proof. */
  lemma DescendantsStayBound(cfg: Config, s: State, steps: seq<Step>, n: nat, path: seq<string>)
    requires Init(s) && n < |steps| && Descends(Exec(cfg, s, steps, n), path)
    requires Answer(cfg, s, steps, n, path[|path| - 1]).Some?
              && Answer(cfg, s, steps, n, path[|path| - 1]).value.Tokens?
    ensures var claims := Exec(cfg, s, steps, n).tokens[path[0]].claims;
            && steps[n].req.client.id == claims.azp
            && (claims.jkt.Some? ==> steps[n].req.proof == Thumbprint(claims.jkt.value))
            && steps[n].req.user.Some? && steps[n].req.user.value.id == claims.uid
  {
    var a := Exec(cfg, s, steps, n);
    ChainBinding(cfg, s, steps, n, path);
    RedeemedByHolder(cfg, a, steps[n].req);
  }

  /** What is stored at issue is what the exchange looks up: a new token is accepted from its holder. */
  lemma IssuedTokenIsAccepted(cfg: Config, s: State, user: User, client: Client, jkt: Option<string>,
                              scope: Option<string>, token: string, req: Request)
    requires client.refreshToken && Lifetime(s.now, user, client).Some?
    requires Lifetime(s.now, user, client).value + cfg.lifetimeHours * 3600 >= 60
    requires user.enabled && req.user == Some(user) && req.client == client && req.verifies && req.token == token
    requires jkt.Some? ==> req.proof == Thumbprint(jkt.value)
    ensures var t := FromUser(cfg, s, user, client, jkt, scope, None, None, token).0;
            Redeem(cfg, t, req).1 == Tokens(Some(req.newToken))
  {
  }
}
