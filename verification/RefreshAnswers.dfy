/**
 The answers of refresh token exchanges at any point of any run, what an exchange stores, and how the
 sessions of a user are cut off by ending their refresh tokens.
 */
module RefreshAnswers {
  import opened Wrappers
  import opened RefreshTokens

  // ---------------------------------------------------------------------------------------------
  // Exchanges

  /**
   What comes before the table: a signed refresh token of this client, with a proof of its DPoP key if it is
   bound to one.
   */
  lemma ClaimRefusals(s: State, req: Request)
    ensures var refusal := CheckClaims(s, req);
            var signed := req.verifies && req.token in s.tokens;
            var refresh := signed && s.tokens[req.token].claims.typ == Refresh;
            var own := refresh && s.tokens[req.token].claims.azp == req.client.id;
            var jkt := if own then s.tokens[req.token].claims.jkt else None;
            var proved := own && (jkt.Some? ==> req.proof.Thumbprint? && Some(req.proof.jkt) == jkt);
            && (refusal == Some(InvalidJwt) <==> !signed)
            && (refusal == Some(WrongType) <==> signed && !refresh)
            && (refusal == Some(WrongAzp) <==> refresh && !own)
            && (refusal == Some(MissingProof) <==> own && !proved)
            && (refusal == None <==> proved)
  {
  }

  /** What comes after, for a token that has passed. */
  lemma RowRefusals(cfg: Config, s: State, req: Request)
    requires CheckClaims(s, req) == None
    ensures var outcome, k := Redeem(cfg, s, req).1, Suffix(req.token);
            var stored := k in s.rows;
            var live := stored && s.rows[k].exp >= s.now;
            var expires := if req.user.Some? then req.user.value.expires else None;
            var admitted := live && req.user.Some? && req.user.value.enabled
                            && (expires.Some? ==> s.now <= expires.value);
            && (outcome == NotFound <==> !stored)
            && (outcome == ReuseDetected <==> stored && !live)
            && (outcome == UserRefused <==> live && !admitted)
            && (outcome == UserExpired <==> admitted && expires == Some(s.now))
            && (outcome.Tokens? <==> admitted && expires != Some(s.now))
            && (outcome.Tokens? ==>
                  outcome.refreshToken == if req.client.refreshToken then Some(req.newToken) else None)
  {
    hide Suffix, CheckClaims;
  }

  lemma RefusedByClaims(cfg: Config, s: State, req: Request)
    requires CheckClaims(s, req).Some?
    ensures Redeem(cfg, s, req) == (s, CheckClaims(s, req).value)
    ensures CheckClaims(s, req).value in {InvalidJwt, WrongType, WrongAzp, MissingProof}
  {
  }

  /** A refusal for the user, or of a token without a row, leaves everything as it was. */
  lemma RefusalKeepsState(cfg: Config, s: State, req: Request)
    requires Redeem(cfg, s, req).1 in {InvalidJwt, WrongType, WrongAzp, MissingProof, NotFound, UserRefused}
    ensures Redeem(cfg, s, req).0 == s
  {
    hide Suffix, CheckClaims;
  }

  /**
   At any point of any run an exchange yields tokens exactly for a signed refresh token of this very client, with
   the proof it is bound to, whose row is stored and has not expired, and for a user who is found, enabled and
   has at least a second left. A user who has expired or is disabled is refused without any change.
   */
  lemma ExchangeSucceedsIff(cfg: Config, s: State, steps: seq<Step>, n: nat, token: string)
    requires Answer(cfg, s, steps, n, token).Some?
    ensures var t, req, outcome := Exec(cfg, s, steps, n), steps[n].req, Answer(cfg, s, steps, n, token).value;
            var live := token in t.tokens && Suffix(token) in t.rows && t.rows[Suffix(token)].exp >= t.now;
            var presented := req.verifies && token in t.tokens
              && var claims := t.tokens[token].claims;
                 && claims.typ == Refresh && claims.azp == req.client.id
                 && (claims.jkt.Some? ==> req.proof.Thumbprint? && req.proof.jkt == claims.jkt.value);
            && (outcome.Tokens? <==>
                  && presented && live && req.user.Some? && req.user.value.enabled
                  && (req.user.value.expires.Some? ==> t.now + 1 <= req.user.value.expires.value))
            && (outcome.Tokens? ==>
                  outcome.refreshToken == if req.client.refreshToken then Some(req.newToken) else None)
            && (outcome.UserExpired? <==>
                  && presented && live && req.user.Some? && req.user.value.enabled
                  && req.user.value.expires == Some(t.now))
            && (outcome.UserRefused? <==>
                  && presented && live
                  && (req.user.Some? && req.user.value.enabled ==>
                        req.user.value.expires.Some? && req.user.value.expires.value < t.now))
            && (outcome.UserRefused? ==> Exec(cfg, s, steps, n + 1) == t)
  {
    var t, req := Exec(cfg, s, steps, n), steps[n].req;
    assert Answer(cfg, s, steps, n, token) == Some(Redeem(cfg, t, req).1);
    assert Exec(cfg, s, steps, n + 1) == Redeem(cfg, t, req).0;
    hide Exec, Apply, Redeem, CheckClaims, Enabled, Suffix, Answer;
    ClaimRefusals(t, req);
    if CheckClaims(t, req) == None { RowRefusals(cfg, t, req); } else { RefusedByClaims(cfg, t, req); }
    if Redeem(cfg, t, req).1.UserRefused? { RefusalKeepsState(cfg, t, req); }
  }

  /** How long a user's access token lives: never longer than the user, and not at all for less than a second. */
  lemma LifetimeIs(now: int, user: User, client: Client)
    ensures var atl: int := if client.accessTokenLifetime < 0 then -client.accessTokenLifetime
                            else client.accessTokenLifetime;
            && (Lifetime(now, user, client).None? <==> user.expires.Some? && user.expires.value < now + 1)
            && (Lifetime(now, user, client).Some? ==>
                  var lifetime := Lifetime(now, user, client).value;
                  && lifetime <= atl && (user.expires.Some? ==> now + lifetime <= user.expires.value)
                  && (lifetime == atl || Some(now + lifetime) == user.expires))
  {
  }

  /**
   An exchange that yields a new refresh token changes two rows. The used one keeps everything but its expiry,
   which is cut to the end of the grace time unless it comes at most a second later anyway. The new one is
   stored under the last 49 characters of the token, with the user and the scope of the used one, usable from a
   minute before the access token ends and for the configured hours from then on.
   */
  lemma ExchangeStores(cfg: Config, s: State, req: Request, lifetime: int)
    requires FreshToken(s, req.newToken) && Redeem(cfg, s, req).1 == Tokens(Some(req.newToken))
    requires req.user.Some? && Lifetime(s.now, req.user.value, req.client) == Some(lifetime)
    ensures var t, used, young := Redeem(cfg, s, req).0, Suffix(req.token), req.newToken[|req.newToken| - 49..];
            && used in s.rows && used != young && t.rows.Keys == s.rows.Keys + {young}
            && t.deviceRows == s.deviceRows && t.now == s.now
            && (forall k :: k in s.rows && k != used ==> t.rows[k] == s.rows[k])
            && t.rows[used] == s.rows[used].(exp := if s.rows[used].exp <= s.now + cfg.graceTime + 1
                                                    then s.rows[used].exp else s.now + cfg.graceTime)
            && t.rows[young] == Row(req.user.value.id, s.now + lifetime - 60,
                                    s.now + lifetime - 60 + cfg.lifetimeHours * 3600, s.rows[used].scope,
                                    req.user.value.webauthn)
            && req.newToken in t.tokens && t.tokens[req.newToken].parent == Some(req.token)
  {
    hide Lifetime;
  }

  /** What a login stores: the same for browsers, and a row in the other table for devices. */
  lemma LoginStores(cfg: Config, s: State, user: User, client: Client, jkt: Option<string>, scope: Option<string>,
                    device: Option<string>, token: string, lifetime: int)
    requires |token| >= 49 && client.refreshToken && Lifetime(s.now, user, client) == Some(lifetime)
    ensures var t, k, nbf := Apply(cfg, s, Login(user, client, jkt, scope, device, token)), token[|token| - 49..],
                             s.now + lifetime - 60;
            && token in t.tokens && t.tokens[token].claims == Claims(Refresh, client.id, user.id, jkt)
            && t.tokens[token].parent == None
            && (device.None? ==>
                  && t.rows == s.rows[k := Row(user.id, nbf, nbf + cfg.lifetimeHours * 3600, scope, user.webauthn)]
                  && t.deviceRows == s.deviceRows)
            && (device.Some? ==>
                  && t.rows == s.rows
                  && t.deviceRows == s.deviceRows[k := DeviceRow(device.value, user.id, nbf,
                                                                 nbf + cfg.deviceLifetimeHours * 3600, scope)])
  {
    hide Lifetime;
  }

  // ---------------------------------------------------------------------------------------------
  // Ending the refresh tokens of a user

  /** The step ends the refresh tokens of the user. */
  predicate EndsTokensOf(step: Step, uid: string) {
    step == InvalidateForUser(uid) || step.InvalidateAll?
  }

  lemma EndingCaps(cfg: Config, s: State, step: Step, token: string)
    requires Inv(s) && token in s.tokens && EndsTokensOf(step, s.tokens[token].claims.uid)
    ensures Suffix(token) in Apply(cfg, s, step).rows ==> Apply(cfg, s, step).rows[Suffix(token)].exp <= s.now
  {
  }

  lemma RedeemsOnlyLive(cfg: Config, s: State, req: Request)
    requires Redeem(cfg, s, req).1.Tokens? || Redeem(cfg, s, req).1.UserExpired?
    ensures Suffix(req.token) in s.rows && s.rows[Suffix(req.token)].exp >= s.now
  {
    hide Suffix, FromUser;
  }

  /** From the next second on, no token that the user had when they were ended is accepted. */
  lemma EndedTokensAreRefused(cfg: Config, s: State, steps: seq<Step>, m: nat, n: nat, token: string)
    requires Init(s) && m < n < |steps| && token in Exec(cfg, s, steps, m).tokens
    requires EndsTokensOf(steps[m], Exec(cfg, s, steps, m).tokens[token].claims.uid)
    requires Exec(cfg, s, steps, n).now > Exec(cfg, s, steps, m).now
    ensures !Redeems(cfg, s, steps, n, token)
  {
    var t := Exec(cfg, s, steps, m);
    assert Exec(cfg, s, steps, m + 1) == Apply(cfg, t, steps[m]);
    hide Exec, Apply, Redeem, Inv, Suffix, Init;
    ExecKeepsInv(cfg, s, steps, m);
    EndingCaps(cfg, t, steps[m], token);
    ExpiryNeverRises(cfg, s, steps, m, m + 1, token);
    ExpiryNeverRises(cfg, s, steps, m + 1, n, token);
    if Redeems(cfg, s, steps, n, token) { RedeemsOnlyLive(cfg, Exec(cfg, s, steps, n), steps[n].req); }
  }

  /** Ending the tokens of one user leaves every token of another one as it is. */
  lemma OthersKeepTheirTokens(cfg: Config, s: State, steps: seq<Step>, m: nat, uid: string, token: string)
    requires Init(s) && m < |steps| && steps[m] == InvalidateForUser(uid)
    requires token in Exec(cfg, s, steps, m).tokens && Exec(cfg, s, steps, m).tokens[token].claims.uid != uid
    ensures var t, u := Exec(cfg, s, steps, m), Exec(cfg, s, steps, m + 1);
            && (Suffix(token) in t.rows <==> Suffix(token) in u.rows)
            && (Suffix(token) in t.rows ==> u.rows[Suffix(token)] == t.rows[Suffix(token)])
  {
    ExecKeepsInv(cfg, s, steps, m);
    assert Exec(cfg, s, steps, m + 1) == Apply(cfg, Exec(cfg, s, steps, m), steps[m]);
    hide Exec;
  }
}
