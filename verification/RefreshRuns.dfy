/**
 Runs in which the reuse of a used refresh token goes unnoticed, because the clean-up came first: login,
 exchange, the grace time passes, clean-up, and then both the used token and its successor are presented.
 */
module RefreshRuns {
  import opened Wrappers
  import opened RefreshTokens

  /** A user and a client that never expire, and the tokens of the run: a at login, b, c and d in exchange. */
  datatype Scene = Scene(user: User, client: Client, a: string, b: string, c: string, d: string)

  predicate Plain(cfg: Config, x: Scene) {
    && x.user.enabled && x.user.expires == None && x.client.refreshToken
    && cfg.lifetimeHours * 3600 >= cfg.graceTime + 62
  }

  /** The texts of the run are random: their stored parts differ and have never been seen. */
  predicate NewTexts(s: State, x: Scene) {
    && Suffix(x.a) != Suffix(x.b) && Suffix(x.a) != Suffix(x.c) && Suffix(x.a) != Suffix(x.d)
    && Suffix(x.b) != Suffix(x.c) && Suffix(x.b) != Suffix(x.d)
    && FreshToken(s, x.a) && FreshToken(s, x.b) && FreshToken(s, x.c) && FreshToken(s, x.d)
  }

  function Ask(x: Scene, token: string, newToken: string): Step {
    Exchange(Request(x.client, token, true, NoProof, Some(x.user), newToken))
  }

  function UnnoticedReuse(cfg: Config, x: Scene): seq<Step> {
    [Login(x.user, x.client, None, None, None, x.a), Ask(x, x.a, x.b), Tick(cfg.graceTime + 2), CleanUp,
     Ask(x, x.a, x.c), Ask(x, x.b, x.d)]
  }

  predicate Owned(s: State, x: Scene, token: string) {
    token in s.tokens && s.tokens[token].claims == Claims(Refresh, x.client.id, x.user.id, None)
  }

  predicate StoredUntil(s: State, token: string, exp: int) {
    Suffix(token) in s.rows && s.rows[Suffix(token)].exp >= exp
  }

  lemma LoginStores(cfg: Config, s: State, x: Scene)
    requires Plain(cfg, x)
    ensures var t := Apply(cfg, s, Login(x.user, x.client, None, None, None, x.a));
            t.now == s.now && Owned(t, x, x.a) && StoredUntil(t, x.a, s.now + cfg.graceTime + 2)
  {
    hide Suffix;
  }

  lemma ExchangeStores(cfg: Config, s: State, x: Scene)
    requires Plain(cfg, x) && Owned(s, x, x.a) && StoredUntil(s, x.a, s.now) && FreshToken(s, x.b)
    ensures var (t, r) := Redeem(cfg, s, Ask(x, x.a, x.b).req);
            && r == Tokens(Some(x.b)) && t.now == s.now && Owned(t, x, x.a) && Owned(t, x, x.b)
            && Suffix(x.a) in t.rows && t.rows[Suffix(x.a)].exp <= s.now + cfg.graceTime + 1
            && StoredUntil(t, x.b, s.now + cfg.graceTime + 2)
  {
    assert Suffix(x.a) != Suffix(x.b);
    hide Suffix, FreshToken;
  }

  lemma CleanUpForgets(cfg: Config, s: State, x: Scene)
    requires Owned(s, x, x.a) && Owned(s, x, x.b) && StoredUntil(s, x.b, s.now + cfg.graceTime + 2)
    requires Suffix(x.a) in s.rows && s.rows[Suffix(x.a)].exp <= s.now + cfg.graceTime + 1
    ensures var t := Apply(cfg, Apply(cfg, s, Tick(cfg.graceTime + 2)), CleanUp);
            && Owned(t, x, x.a) && Owned(t, x, x.b) && Suffix(x.a) !in t.rows && StoredUntil(t, x.b, t.now)
  {
    hide Suffix;
  }

  lemma LateAnswers(cfg: Config, s: State, x: Scene)
    requires Plain(cfg, x) && Owned(s, x, x.a) && Owned(s, x, x.b) && Suffix(x.a) !in s.rows
              && StoredUntil(s, x.b, s.now)
    ensures Redeem(cfg, s, Ask(x, x.a, x.c).req) == (s, NotFound)
    ensures Redeem(cfg, s, Ask(x, x.b, x.d).req).1 == Tokens(Some(x.d))
  {
    hide Suffix;
  }

  /** A text stays new while others are issued. */
  lemma StaysNew(cfg: Config, s: State, step: Step, token: string)
    requires FreshToken(s, token) && (step.Login? || step.Exchange? || step.Tick? || step.CleanUp?)
    requires step.Login? ==> Suffix(step.token) != Suffix(token)
    requires step.Exchange? ==> Suffix(step.req.newToken) != Suffix(token)
    ensures FreshToken(Apply(cfg, s, step), token)
  {
    hide Suffix, CheckClaims, UserMayRefresh, Lifetime, Shortened;
  }

  lemma OwnedByUser(s: State, x: Scene, token: string)
    requires Owned(s, x, token)
    ensures s.tokens[token].claims.uid == x.user.id
  {
  }

  lemma StoredLonger(s: State, token: string, long: int, short: int)
    requires StoredUntil(s, token, long) && short <= long
    ensures StoredUntil(s, token, short)
  {
  }

  /** Token a is presented again after its grace time: no reuse is reported, and token b still works. */
  lemma ReuseAfterCleanUpGoesUnnoticed(cfg: Config, s: State, x: Scene)
    requires Plain(cfg, x) && NewTexts(s, x)
    ensures var steps := UnnoticedReuse(cfg, x);
            && Answer(cfg, s, steps, 1, x.a) == Some(Tokens(Some(x.b)))
            && Answer(cfg, s, steps, 4, x.a) == Some(NotFound)
            && Answer(cfg, s, steps, 5, x.b) == Some(Tokens(Some(x.d)))
  {
    hide Plain, Redeem, FreshToken, Owned, StoredUntil, Suffix, FromUser;
    var steps := UnnoticedReuse(cfg, x);
    var t := Apply(cfg, s, steps[0]);
    LoginStores(cfg, s, x);
    StaysNew(cfg, s, steps[0], x.b);
    StoredLonger(t, x.a, t.now + cfg.graceTime + 2, t.now);
    ExchangeStores(cfg, t, x);
    assert Exec(cfg, s, steps, 0) == s && Exec(cfg, s, steps, 1) == t;
    OwnedByUser(t, x, x.a);
    var u := Redeem(cfg, t, steps[1].req).0;
    assert Exec(cfg, s, steps, 2) == u;
    CleanUpForgets(cfg, u, x);
    var v := Apply(cfg, Apply(cfg, u, steps[2]), steps[3]);
    assert Exec(cfg, s, steps, 3) == Apply(cfg, u, steps[2]) && Exec(cfg, s, steps, 4) == v;
    forall token | token in {x.c, x.d} ensures FreshToken(v, token) {
      StaysNew(cfg, s, steps[0], token);
      StaysNew(cfg, t, steps[1], token);
      StaysNew(cfg, u, steps[2], token);
      StaysNew(cfg, Apply(cfg, u, steps[2]), steps[3], token);
    }
    OwnedByUser(v, x, x.a);
    OwnedByUser(v, x, x.b);
    LateAnswers(cfg, v, x);
    assert Exec(cfg, s, steps, 5) == v;
  }
}
