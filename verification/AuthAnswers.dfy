/**
 The answers of logins, renewals and redemptions in terms of what the request brings and what has happened
 before: which refusal is given to whom, and when exactly a code can be redeemed.
 */
module AuthAnswers {
  import opened Wrappers
  import opened AuthCodes
  import Base64
  import Text

  // ---------------------------------------------------------------------------------------------
  // Refusals of one request

  /** Every refusal of a login has one reason; the reasons are looked at in this order. */
  lemma LoginRefusals(now: int, a: Attempt)
    ensures var answer := CheckLogin(now, a);
            var error := if answer.Some? then Some(answer.value.0) else None;
            var known := a.user.Some? && (a.password.NotGiven? ==> Authenticated(a.user.value, a))
                         && (a.user.value.federated || a.user.value.hasPassword || a.user.value.webauthn);
            var enabled := known && a.user.value.enabled;
            var current := enabled && (a.user.value.expires.Some? ==> now <= a.user.value.expires.value);
            var proved := current && !a.password.Wrong? && !(a.password.Right? && a.saveFails);
            var factors := proved && a.client.Some?
                           && (a.client.value.id == "rauthy" || !a.client.value.forceMfa || a.user.value.webauthn);
            var challenged := factors && a.redirectOk
                              && MeetsChallenge(a.client.value, a.challenge, a.challengeMethod);
            && (error == Some(InvalidCredentials) <==> !known)
            && (error == Some(UserDisabled) <==> known && !enabled)
            && (error == Some(UserExpired) <==> enabled && !current)
            && (error == Some(WrongPassword) <==> current && a.password.Wrong?)
            && (error == Some(SaveFailed) <==> current && a.password.Right? && a.saveFails)
            && (error == Some(NoClient) <==> proved && a.client.None?)
            && (error == Some(MfaRequired) <==>
                  && proved && a.client.Some? && a.client.value.id != "rauthy" && a.client.value.forceMfa
                  && !a.user.value.webauthn)
            && (error == Some(BadRedirect) <==> factors && !a.redirectOk)
            && (error == Some(BadChallenge) <==> factors && a.redirectOk && !challenged)
            && (error == Some(BadOrigin) <==> challenged && !a.originOk)
  {
    hide Text.Contains;
  }

  lemma RenewalRefusals(now: int, session: Session, r: Renewal)
    ensures var error := CheckRenewal(now, session, r);
            var asked := r.client.Some? && r.originOk && r.redirectOk;
            var name := if r.challengeMethod.Some? then r.challengeMethod.value else "plain";
            var challenged := asked && (r.client.value.challenge.Some? ==>
                  r.challenge.Some? && name != "" && Text.Contains(r.client.value.challenge.value, name));
            var known := challenged && session.userId.Some? && session.userId.value in r.users;
            var enabled := known && r.users[session.userId.value].enabled;
            var expires := if known then r.users[session.userId.value].expires else None;
            var current := enabled && (expires.Some? ==> now <= expires.value);
            && (error == Some(NoClient) <==> r.client.None?)
            && (error == Some(BadOrigin) <==> r.client.Some? && !r.originOk)
            && (error == Some(BadRedirect) <==> r.client.Some? && r.originOk && !r.redirectOk)
            && (error == Some(BadChallenge) <==> asked && !challenged)
            && (error == Some(ServerError) <==> challenged && session.userId.None?)
            && (error == Some(NoUser) <==> challenged && session.userId.Some? && !known)
            && (error == Some(UserDisabled) <==> known && !enabled)
            && (error == Some(UserExpired) <==> enabled && !current)
            && (error == Some(MfaRequired) <==>
                  && current && r.client.value.id != "rauthy" && r.client.value.forceMfa
                  && !r.users[session.userId.value].webauthn)
  {
    hide Text.Contains;
  }

  lemma UpstreamRefusals(cfg: Config, now: int, u: Upstream)
    ensures var error := CheckUpstreamUser(cfg, now, u);
            var current := u.user.enabled && (u.user.expires.Some? ==> now <= u.user.expires.value);
            && (error == Some(UserDisabled) <==> !u.user.enabled)
            && (error == Some(UserExpired) <==> u.user.enabled && !current)
            && (error == Some(NoClient) <==> current && !u.link && u.client.None?)
            && (error == Some(MfaRequired) <==>
                  && current && !u.link && u.client.Some? && !u.providerMfa && !u.user.webauthn
                  && (u.client.value.forceMfa || (u.client.value.id == "rauthy" && cfg.adminForceMfa)))
    ensures u.client.Some? ==>
              var error := CheckUpstreamClient(u);
              var meets := MeetsChallenge(u.client.value, u.challenge, u.challengeMethod);
              && (error == Some(BadRedirect) <==> !u.redirectOk)
              && (error == Some(BadChallenge) <==> u.redirectOk && !meets)
              && (error == Some(BadOrigin) <==> u.redirectOk && meets && !u.originOk)
  {
    hide Text.Contains;
  }

  /**
   With a usable session, a login is answered LoggedIn or AwaitWebauthn exactly for those who may log in,
   AwaitWebauthn for those with a passkey, and MfaRequired exactly when all that comes before is in order and
   the client insists on a passkey that the user does not have.
   */
  lemma LoginAnswers(cfg: Config, s: State, a: Attempt, sid: string, id: string)
    requires Enter(cfg, s, sid).1.Some? && !Enter(cfg, s, sid).1.value.state.LoggedOut?
    ensures var reply := DoAuthorize(cfg, s, a, sid, id).1;
            && (reply.LoggedIn? <==> MayLogin(s.now, a) && !a.user.value.webauthn)
            && (reply.AwaitWebauthn? <==> MayLogin(s.now, a) && a.user.value.webauthn)
            && (!reply.LoggedIn? && !reply.AwaitWebauthn? ==>
                  CheckLogin(s.now, a).Some? && reply == Refused(CheckLogin(s.now, a).value.0,
                                                                 CheckLogin(s.now, a).value.1))
  {
    hide Enter, MayLogin, CheckLogin;
    LoginSucceedsIff(s.now, a);
  }

  lemma RenewalHasUser(now: int, session: Session, r: Renewal)
    requires MayRenew(now, session, r)
    ensures session.userId.Some? && session.userId.value in r.users
  {
  }

  lemma RenewalAnswers(cfg: Config, s: State, r: Renewal, sid: string, id: string)
    requires Enter(cfg, s, sid).1.Some?
    ensures var session, reply := Enter(cfg, s, sid).1.value, DoRenew(cfg, s, r, sid, id).1;
            && (!session.state.Auth? ==> reply == Refused(NoSession, false))
            && (reply.LoggedIn? || reply.AwaitWebauthn? <==> session.state.Auth? && MayRenew(s.now, session, r))
            && (reply.AwaitWebauthn? ==> r.users[session.userId.value].webauthn && cfg.renewMfa)
            && (reply.LoggedIn? ==> !(r.users[session.userId.value].webauthn && cfg.renewMfa))
            && (reply.Refused? && session.state.Auth? ==>
                  CheckRenewal(s.now, session, r) == Some(reply.error) && !reply.delayed)
  {
    hide Enter, MayRenew, CheckRenewal;
    RenewalSucceedsIff(s.now, Enter(cfg, s, sid).1.value, r);
    hide Lifetime;
    if MayRenew(s.now, Enter(cfg, s, sid).1.value, r) { RenewalHasUser(s.now, Enter(cfg, s, sid).1.value, r); }
  }

  lemma UpstreamAnswers(cfg: Config, s: State, u: Upstream, sid: string, id: string)
    requires Enter(cfg, s, sid).1.Some? && !Enter(cfg, s, sid).1.value.state.LoggedOut?
    ensures var reply := DoFederate(cfg, s, u, sid, id).1;
            && (reply.Linked? <==> u.link && CheckUpstreamUser(cfg, s.now, u).None?)
            && (reply.LoggedIn? <==> MayFederate(cfg, s.now, u) && !u.user.webauthn)
            && (reply.AwaitWebauthn? <==> MayFederate(cfg, s.now, u) && u.user.webauthn)
            && (reply.Refused? ==>
                  !reply.delayed && Some(reply.error) == if CheckUpstreamUser(cfg, s.now, u).Some?
                                                         then CheckUpstreamUser(cfg, s.now, u)
                                                         else if u.client.Some? then CheckUpstreamClient(u) else None)
  {
    UpstreamSucceedsIff(cfg, s.now, u);
    hide Enter, MayFederate, CheckUpstreamClient, ForcesMfa, Expired, Lifetime;
  }

  // ---------------------------------------------------------------------------------------------
  // Second factors over runs

  /** The client and the user that a step issues a code for. */
  predicate IssuesFor(cfg: Config, s: State, step: Step, client: Client, user: User) {
    match step
    case Authorize(a, _, _) => a.client == Some(client) && a.user == Some(user)
    case Renew(r, sid, _) =>
      && r.client == Some(client) && Enter(cfg, s, sid).1.Some?
      && var uid := Enter(cfg, s, sid).1.value.userId;
         uid.Some? && uid.value in r.users && r.users[uid.value] == user
    case Federate(u, _, _) => u.client == Some(client) && u.user == user
    case _ => false
  }

  lemma VouchedFactor(cfg: Config, s: State, step: Step, id: string, o: Origin) returns (client: Client, user: User)
    requires Enabled(s, step) && Vouched(cfg, s, step, id, o)
    ensures IssuesFor(cfg, s, step, client, user) && o.code.clientId == client.id && o.code.userId == user.id
    ensures !step.Federate? && client.forceMfa && client.id != "rauthy" ==> user.webauthn
    ensures step.Federate? && (client.forceMfa || (client.id == "rauthy" && cfg.adminForceMfa)) ==>
              user.webauthn || step.upstream.providerMfa
  {
    hide MeetsChallenge, Text.Contains, Enter;
    match step
    case Authorize(a, _, _) => client, user := a.client.value, a.user.value;
    case Renew(r, sid, _) => client, user := r.client.value, r.users[Enter(cfg, s, sid).1.value.userId.value];
    case Federate(u, _, _) => client, user := u.client.value, u.user;
  }

  /**
   Every code of every run that a client other than "rauthy" with forced second factors got belongs to a user
   with a passkey; only an upstream provider can stand in for it with a factor of its own, and there "rauthy"
   is no exception if the administrators force it.
   */
  lemma EveryCodeHasItsFactor(cfg: Config, s: State, steps: seq<Step>, n: nat, id: string)
    returns (m: nat, client: Client, user: User)
    requires Start(s) && n <= |steps| && id in Exec(cfg, s, steps, n).issued
    ensures m < n && IssuesFor(cfg, Exec(cfg, s, steps, m), steps[m], client, user)
    ensures var code := Exec(cfg, s, steps, n).issued[id].code; code.clientId == client.id && code.userId == user.id
    ensures !steps[m].Federate? && client.forceMfa && client.id != "rauthy" ==> user.webauthn
    ensures steps[m].Federate? && (client.forceMfa || (client.id == "rauthy" && cfg.adminForceMfa)) ==>
              user.webauthn || steps[m].upstream.providerMfa
  {
    hide Exec, Enabled, Vouched, IssuesFor;
    m := CodeHasOrigin(cfg, s, steps, n, id);
    client, user := VouchedFactor(cfg, Exec(cfg, s, steps, m), steps[m], id, Exec(cfg, s, steps, n).issued[id]);
  }

  // ---------------------------------------------------------------------------------------------
  // Redemptions over runs

  /** Step r issues the code. */
  predicate IssuedAt(cfg: Config, s: State, steps: seq<Step>, r: nat, id: string) {
    r < |steps| && id !in Exec(cfg, s, steps, r).issued && id in Exec(cfg, s, steps, r + 1).issued
  }

  lemma EnterKeepsCodes(cfg: Config, s: State, sid: string)
    ensures var t := Enter(cfg, s, sid).0; t.codes == s.codes && t.spent == s.spent && t.issued == s.issued
  {
  }

  /** What a login stores: at most its own code, and that as it is issued. */
  predicate StoresOnly(s: State, t: State, id: string) {
    && t.spent == s.spent
    && ((t.codes == s.codes && t.issued == s.issued)
        || (id in t.codes && t.codes == s.codes[id := t.codes[id]] && id in t.issued
            && t.issued == s.issued[id := t.issued[id]]))
  }

  lemma AuthorizeStores(cfg: Config, s: State, a: Attempt, sid: string, id: string)
    ensures StoresOnly(s, DoAuthorize(cfg, s, a, sid, id).0, id)
  {
    hide Enter, CheckLogin, Lifetime;
    EnterKeepsCodes(cfg, s, sid);
  }

  lemma RenewStores(cfg: Config, s: State, r: Renewal, sid: string, id: string)
    ensures StoresOnly(s, DoRenew(cfg, s, r, sid, id).0, id)
  {
    hide Enter, Lifetime;
    EnterKeepsCodes(cfg, s, sid);
  }

  lemma FederateStores(cfg: Config, s: State, u: Upstream, sid: string, id: string)
    ensures StoresOnly(s, DoFederate(cfg, s, u, sid, id).0, id)
  {
    hide Enter, ForcesMfa, Lifetime, CheckUpstreamClient;
    EnterKeepsCodes(cfg, s, sid);
  }

  lemma LoginKeepsCodes(cfg: Config, s: State, step: Step, id: string)
    requires step.Authorize? || step.Renew? || step.Federate?
    ensures var t := Answer(cfg, s, step).0;
            && t.spent == s.spent && (step.id != id ==> (id in t.codes <==> id in s.codes))
            && (id in t.issued && id !in s.issued ==> id in t.codes)
  {
    hide DoAuthorize, DoRenew, DoFederate;
    match step
    case Authorize(a, sid, i) => AuthorizeStores(cfg, s, a, sid, i);
    case Renew(r, sid, i) => RenewStores(cfg, s, r, sid, i);
    case Federate(u, sid, i) => FederateStores(cfg, s, u, sid, i);
  }

  lemma CheckedIsStored(cfg: Config, s: State, req: Redemption)
    requires CheckCode(cfg, s, req) == None
    ensures req.code.Some? && req.code.value in s.codes
  {
  }

  lemma RedeemKeepsCodes(cfg: Config, s: State, req: Redemption, id: string)
    requires id in s.codes ==> id !in s.spent
    ensures var t := Answer(cfg, s, Redeem(req)).0;
            && t.issued == s.issued
            && (id in t.codes <==> id in s.codes && id !in t.spent)
            && (id in s.spent ==> id in t.spent)
  {
    hide CheckCode, TokensFor, Promoted;
    if CheckCode(cfg, s, req) == None { CheckedIsStored(cfg, s, req); }
  }

  lemma OthersKeepCodes(cfg: Config, s: State, step: Step, id: string)
    requires !(step.Authorize? || step.Renew? || step.Federate? || step.Redeem?)
    ensures var t := Answer(cfg, s, step).0;
            t.spent == s.spent && t.issued == s.issued && (id in t.codes <==> id in s.codes && step != EvictCode(id))
  {
    if step.Visit? || step.Logout? { EnterKeepsCodes(cfg, s, step.sid); }
    hide Enter;
  }

  lemma StepKeepsCode(cfg: Config, s: State, step: Step, id: string)
    requires Inv(s) && id in s.issued
    ensures var t := Apply(cfg, s, step);
            && (id in t.codes <==> id in s.codes && id !in t.spent && step != EvictCode(id))
            && (id in s.spent ==> id in t.spent)
  {
    hide Answer, ById;
    if id in s.codes { assert CodeOk(s, id); }
    hide Inv;
    if step.Authorize? || step.Renew? || step.Federate? {
      LoginKeepsCodes(cfg, s, step, id);
    } else if step.Redeem? {
      RedeemKeepsCodes(cfg, s, step.req, id);
    } else {
      OthersKeepCodes(cfg, s, step, id);
    }
  }

  lemma IssueStores(cfg: Config, s: State, step: Step, id: string)
    requires Inv(s) && id !in s.issued && id in Apply(cfg, s, step).issued
    ensures id in Apply(cfg, s, step).codes && id !in Apply(cfg, s, step).spent
  {
    hide Answer, SessionsOk, ById;
    if step.Authorize? || step.Renew? || step.Federate? {
      LoginKeepsCodes(cfg, s, step, id);
    } else if step.Redeem? {
      RedeemKeepsCodes(cfg, s, step.req, id);
    } else {
      OthersKeepCodes(cfg, s, step, id);
    }
  }

  lemma CodeAtFirst(cfg: Config, s: State, steps: seq<Step>, r: nat, id: string)
    requires Start(s) && IssuedAt(cfg, s, steps, r, id)
    ensures id in Exec(cfg, s, steps, r + 1).codes && id !in Exec(cfg, s, steps, r + 1).spent
  {
    assert Exec(cfg, s, steps, r + 1) == Apply(cfg, Exec(cfg, s, steps, r), steps[r]);
    hide Exec, Apply, Inv;
    ExecKeepsInv(cfg, s, steps, r);
    IssueStores(cfg, Exec(cfg, s, steps, r), steps[r], id);
  }

  lemma CodeNext(cfg: Config, s: State, steps: seq<Step>, n: nat, id: string)
    requires Start(s) && n < |steps| && id in Exec(cfg, s, steps, n).issued
    ensures var t, u := Exec(cfg, s, steps, n), Exec(cfg, s, steps, n + 1);
            && id in u.issued && (id in t.spent ==> id in u.spent)
            && (id in u.codes <==> id in t.codes && id !in u.spent && steps[n] != EvictCode(id))
  {
    assert Exec(cfg, s, steps, n + 1) == Apply(cfg, Exec(cfg, s, steps, n), steps[n]);
    hide Exec, Apply, Inv;
    ExecKeepsInv(cfg, s, steps, n);
    ApplyMovesOn(cfg, Exec(cfg, s, steps, n), steps[n]);
    StepKeepsCode(cfg, Exec(cfg, s, steps, n), steps[n], id);
  }

  /** A code is stored from its issue on until it is redeemed or the cache loses it. */
  lemma {:induction false} CodeStoredIff(cfg: Config, s: State, steps: seq<Step>, r: nat, n: nat, id: string)
    requires Start(s) && r < n <= |steps| && IssuedAt(cfg, s, steps, r, id)
    ensures id in Exec(cfg, s, steps, n).issued
    ensures id in Exec(cfg, s, steps, n).codes <==>
              id !in Exec(cfg, s, steps, n).spent && forall i :: r < i < n ==> steps[i] != EvictCode(id)
    decreases n
  {
    hide Exec, Start;
    if n == r + 1 {
      CodeAtFirst(cfg, s, steps, r, id);
    } else {
      CodeStoredIff(cfg, s, steps, r, n - 1, id);
      CodeNext(cfg, s, steps, n - 1, id);
    }
  }

  /** A redemption that does not yield tokens changes nothing at all. */
  lemma RefusedRedemptionChangesNothing(cfg: Config, s: State, req: Redemption)
    requires !DoRedeem(cfg, s, req).1.Tokens?
    ensures DoRedeem(cfg, s, req).0 == s
  {
    hide CheckCode, TokensFor, Promoted;
  }

  /** The code is there, the client's own and in time; what is left to look at is its challenge. */
  lemma CodeRefusals(cfg: Config, s: State, req: Redemption)
    ensures var reply := CheckCode(cfg, s, req);
            var found := req.code.Some? && req.client.Some? && req.code.value in s.codes;
            var own := found && Some(s.codes[req.code.value].clientId) == req.client;
            var live := own && s.now <= s.codes[req.code.value].exp;
            && (reply == Some(Refused(MissingCode, false)) <==> req.code.None?)
            && (reply == Some(Refused(ClientRefused, false)) <==> req.code.Some? && req.client.None?)
            && (reply == Some(Refused(UnknownCode, false)) <==> req.code.Some? && req.client.Some? && !found)
            && (reply == Some(Refused(WrongClient, false)) <==> found && !own)
            && (reply == Some(Refused(CodeExpired, false)) <==> own && !live)
            && (reply == Some(Refused(MissingVerifier, false)) <==>
                  live && s.codes[req.code.value].challenge.Some? && req.verifier.None?)
            && (reply == Some(Refused(WrongVerifier, false)) <==>
                  && live && CheckVerifier(cfg, s.codes[req.code.value], req.verifier) != None
                  && req.verifier.Some? && s.codes[req.code.value].challengeMethod.Some?)
            && (reply == None <==> live && CheckVerifier(cfg, s.codes[req.code.value], req.verifier) == None)
  {
    hide Base64.UrlEncode;
  }

  /** What is decided once the code itself is in order. */
  lemma UserRefusals(cfg: Config, s: State, req: Redemption)
    requires CheckCode(cfg, s, req) == None
    ensures var reply, code := DoRedeem(cfg, s, req).1, s.codes[req.code.value];
            var known := code.userId in req.users;
            var expires := if known then req.users[code.userId].expires else None;
            var current := known && (expires.Some? ==> s.now + 1 <= expires.value);
            var session := code.sessionId.Some? ==> code.sessionId.value in s.cache || code.sessionId.value in s.rows;
            && (reply == Refused(NoUser, false) <==> !known)
            && (reply == Refused(UserExpired, false) <==> known && !current)
            && (reply == Refused(ServerError, false) <==> current && req.tokensFail)
            && (reply == Refused(NoSession, false) <==> current && !req.tokensFail && !session)
            && (reply.Tokens? <==> current && !req.tokensFail && session)
  {
    hide CheckVerifier, Promoted;
  }

  lemma NoTokensUnlessChecked(cfg: Config, s: State, req: Redemption)
    requires CheckCode(cfg, s, req) != None
    ensures !DoRedeem(cfg, s, req).1.Tokens?
  {
  }

  /**
   In every run a redemption yields tokens exactly when its code has not been redeemed before and the cache has not
   lost it, the right client presents it in time with the verifier that its challenge demands, its user has at
   least a second left, its session is still known, and the database does not fail; the tokens are then for the
   user it was issued for.
   */
  lemma RedemptionSucceedsIff(cfg: Config, s: State, steps: seq<Step>, r: nat, n: nat, id: string)
    requires Start(s) && r < n < |steps| && IssuedAt(cfg, s, steps, r, id)
    requires steps[n].Redeem? && steps[n].req.code == Some(id) && Enabled(Exec(cfg, s, steps, n), steps[n])
    ensures id in Exec(cfg, s, steps, n).issued
    ensures var t, req := Exec(cfg, s, steps, n), steps[n].req;
            var code := t.issued[id].code;
            Redeems(cfg, s, steps, n, id) <==>
              && id !in t.spent && (forall i :: r < i < n ==> steps[i] != EvictCode(id))
              && req.client == Some(code.clientId) && t.now <= code.exp
              && (code.challenge.Some? ==>
                    && req.verifier.Some? && code.challengeMethod.Some?
                    && if code.challengeMethod.value == "plain" then req.verifier == code.challenge
                       else Base64.UrlNoPadDecode(code.challenge.value) == Some(cfg.sha256(req.verifier.value)))
              && code.userId in req.users
              && (req.users[code.userId].expires.Some? ==> t.now + 1 <= req.users[code.userId].expires.value)
              && !req.tokensFail
              && (code.sessionId.Some? ==> code.sessionId.value in t.cache || code.sessionId.value in t.rows)
    ensures Redeems(cfg, s, steps, n, id) ==>
              DoRedeem(cfg, Exec(cfg, s, steps, n), steps[n].req).1
              == Tokens(Exec(cfg, s, steps, n).issued[id].code.userId)
  {
    var t, req := Exec(cfg, s, steps, n), steps[n].req;
    CodeStoredIff(cfg, s, steps, r, n, id);
    ExecKeepsInv(cfg, s, steps, n);
    if id in t.codes {
      assert CodeOk(t, id);
      VerifierCheckedIff(cfg, t.codes[id], req.verifier);
    }
    hide Exec, Inv, DoRedeem, CheckCode, CheckVerifier, Base64.UrlNoPadDecode, IssuedAt;
    CodeRefusals(cfg, t, req);
    if CheckCode(cfg, t, req) == None { UserRefusals(cfg, t, req); } else { NoTokensUnlessChecked(cfg, t, req); }
    if DoRedeem(cfg, t, req).1.Tokens? { TokensMean(cfg, t, req); }
  }
}
