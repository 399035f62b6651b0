/**
 Runs in which a session is used after it was ended or logged out, and in which a redemption aborts. All
 start with a password login: a session is created, a code is issued for it and redeemed.
 */
module AuthRuns {
  import opened Wrappers
  import opened AuthCodes
  import opened Sessions

  /** A user with nothing but a password, a client without demands, and the random ids of the run. */
  datatype Scene = Scene(sid: string, id: string, renewed: string, user: User, client: Client, lifetime: nat)

  predicate Plain(x: Scene) {
    && x.user.enabled && x.user.expires.None? && x.user.hasPassword && !x.user.federated && !x.user.webauthn
    && x.client.challenge.None? && !x.client.forceMfa && x.client.codeLifetime >= 0 && x.id != x.renewed
  }

  function Users(x: Scene): map<string, User> {
    map[x.user.id := x.user]
  }

  function LoginStep(x: Scene): Step {
    Authorize(Attempt(Some(x.user), Right, None, false, Some(x.client), true, true, None, None), x.sid, x.id)
  }

  function RedeemStep(x: Scene, id: string, verifier: Option<string>): Step {
    Redeem(Redemption(Some(id), Some(x.client.id), verifier, Users(x), false))
  }

  function RenewStep(x: Scene, challenge: string): Step {
    Renew(Renewal(Users(x), Some(x.client), true, true, Some(challenge), None), x.sid, x.renewed)
  }

  predicate SignsIn(steps: seq<Step>, x: Scene) {
    && |steps| >= 3 && steps[0] == NewSession(x.sid, x.lifetime) && steps[1] == LoginStep(x)
    && steps[2] == RedeemStep(x, x.id, None)
  }

  function NewCodeOf(x: Scene, challenge: Option<string>, now: int): AuthCode {
    AuthCode(x.client.id, x.user.id, Some(x.sid), challenge, None, now + x.client.codeLifetime)
  }

  function SessionOf(x: Scene, now: int): Session {
    Session(Auth, now + x.lifetime, now, Some(x.user.id), false)
  }

  predicate SignedIn(s: State, x: Scene, now: int) {
    s.now == now && ViewOf(s, x.sid) == Saved(SessionOf(x, now)) && x.renewed !in s.issued
  }

  predicate Prepared(s: State, x: Scene) {
    && ViewOf(s, x.sid) == Saved(Session(Init, s.now + x.lifetime, s.now, None, false))
    && x.id !in s.issued && x.renewed !in s.issued
  }

  lemma Creates(cfg: Config, s: State, x: Scene)
    requires Start(s)
    ensures var t := Apply(cfg, s, NewSession(x.sid, x.lifetime)); Prepared(t, x) && t.now == s.now
  {
  }

  lemma FreshSessionEnters(cfg: Config, s: State, sid: string, session: Session)
    requires ViewOf(s, sid) == Saved(session) && session.exp >= s.now && session.lastSeen == s.now
    ensures Enter(cfg, s, sid) == (s, Some(session))
  {
  }

  lemma LogsIn(cfg: Config, s: State, x: Scene)
    requires Plain(x) && Prepared(s, x)
    ensures var t := Apply(cfg, s, LoginStep(x));
            && t.now == s.now && ViewOf(t, x.sid) == ViewOf(s, x.sid) && x.renewed !in t.issued
            && x.id in t.codes && t.codes[x.id] == NewCodeOf(x, None, s.now)
  {
    FreshSessionEnters(cfg, s, x.sid, Session(Init, s.now + x.lifetime, s.now, None, false));
    hide Enter;
  }

  lemma RedeemsCode(cfg: Config, s: State, x: Scene)
    requires Plain(x) && ViewOf(s, x.sid) == Saved(Session(Init, s.now + x.lifetime, s.now, None, false))
    requires x.renewed !in s.issued && x.id in s.codes
    requires s.codes[x.id] == NewCodeOf(x, None, s.now)
    ensures SignedIn(Apply(cfg, s, RedeemStep(x, x.id, None)), x, s.now)
  {
  }

  lemma PreparedView(s: State, x: Scene)
    requires Prepared(s, x)
    ensures ViewOf(s, x.sid) == Saved(Session(Init, s.now + x.lifetime, s.now, None, false))
  {
  }

  lemma SignInWorks(cfg: Config, s: State, steps: seq<Step>, x: Scene)
    requires Start(s) && Plain(x) && SignsIn(steps, x)
    ensures SignedIn(Exec(cfg, s, steps, 3), x, s.now)
  {
    assert Exec(cfg, s, steps, 0) == s;
    hide Apply, Prepared, ViewOf, SignedIn, LoginStep, RedeemStep, SessionOf;
    Creates(cfg, s, x);
    assert Exec(cfg, s, steps, 1) == Apply(cfg, s, steps[0]);
    var t := Exec(cfg, s, steps, 1);
    LogsIn(cfg, t, x);
    assert Exec(cfg, s, steps, 2) == Apply(cfg, t, steps[1]);
    PreparedView(t, x);
    RedeemsCode(cfg, Exec(cfg, s, steps, 2), x);
  }

  // ---------------------------------------------------------------------------------------------
  // A redemption that aborts

  lemma RenewalLetsItThrough(cfg: Config, s: State, x: Scene, challenge: string)
    requires Plain(x) && SignedIn(s, x, s.now)
    ensures var t := Apply(cfg, s, RenewStep(x, challenge));
            && t.now == s.now && x.renewed in t.codes
            && t.codes[x.renewed] == NewCodeOf(x, Some(challenge), s.now)
  {
    FreshSessionEnters(cfg, s, x.sid, SessionOf(x, s.now));
    hide Enter;
  }

  /** The session is renewed with a challenge but no method, and the new code redeemed with any verifier. */
  lemma RedemptionCanAbort(cfg: Config, s: State, steps: seq<Step>, x: Scene, challenge: string, verifier: string)
    requires Start(s) && Plain(x) && SignsIn(steps, x) && |steps| == 5
    requires steps[3] == RenewStep(x, challenge) && steps[4] == RedeemStep(x, x.renewed, Some(verifier))
    ensures Answer(cfg, Exec(cfg, s, steps, 4), steps[4]).1 == Aborted
  {
    SignInWorks(cfg, s, steps, x);
    var t := Exec(cfg, s, steps, 3);
    RenewalLetsItThrough(cfg, t, x, challenge);
    assert Exec(cfg, s, steps, 4) == Apply(cfg, t, steps[3]);
    RedemptionAbortsIff(cfg, Exec(cfg, s, steps, 4), steps[4].req);
    hide Apply, Exec, DoRedeem, SignedIn;
  }

  // ---------------------------------------------------------------------------------------------
  // Sessions that come back

  function SimpleEvent(step: Step, sid: string): Event
    requires step.EndSessionsOf? || step.Tick? || step.Visit? || step.Logout? || step.EvictSession?
  {
    match step
    case EndSessionsOf(uid) => Ended(uid)
    case Visit(other) => if other == sid then Requested(false) else Nothing
    case Logout(other) => if other == sid then LogoutRequested else Nothing
    case EvictSession(other) => if other == sid then Evicted else Nothing
    case _ => Nothing
  }

  lemma NextSimple(cfg: Config, s: State, steps: seq<Step>, n: nat, sid: string)
    requires n < |steps|
    requires steps[n].EndSessionsOf? || steps[n].Tick? || steps[n].Visit? || steps[n].Logout? || steps[n].EvictSession?
    ensures var now := Exec(cfg, s, steps, n).now;
            && At(cfg, s, steps, n + 1, sid) == Evolve(cfg, now, At(cfg, s, steps, n, sid), SimpleEvent(steps[n], sid))
            && EventAt(cfg, s, steps, n, sid) == SimpleEvent(steps[n], sid)
            && Exec(cfg, s, steps, n + 1).now == now + if steps[n].Tick? then steps[n].secs else 0
  {
    NextView(cfg, s, steps, n, sid);
    if steps[n].Visit? || steps[n].Logout? { EnterKeepsHistory(cfg, Exec(cfg, s, steps, n), steps[n].sid); }
    hide Enter, Evolve, ViewOf;
  }

  lemma EndedTwiceInView(cfg: Config, now: int, x: Scene, secs: nat)
    requires 0 < secs <= cfg.sessionTimeout
    ensures var once := Evolve(cfg, now, Saved(SessionOf(x, now)), Ended(x.user.id));
            var twice := Evolve(cfg, now + secs, once, Ended(x.user.id));
            && Entered(cfg, now + secs, once).1.None?
            && Entered(cfg, now + secs, twice).1.Some? && Entered(cfg, now + secs, twice).1.value.state.Auth?
  {
  }

  lemma SignInView(cfg: Config, s: State, steps: seq<Step>, x: Scene)
    requires Start(s) && Plain(x) && SignsIn(steps, x)
    ensures Exec(cfg, s, steps, 3).now == s.now && At(cfg, s, steps, 3, x.sid) == Saved(SessionOf(x, s.now))
  {
    hide Exec, ViewOf, SessionOf, Plain, SignsIn, Start;
    SignInWorks(cfg, s, steps, x);
  }

  lemma EnterAt(cfg: Config, s: State, steps: seq<Step>, n: nat, sid: string)
    requires n <= |steps|
    ensures Enter(cfg, Exec(cfg, s, steps, n), sid).1
         == Entered(cfg, Exec(cfg, s, steps, n).now, At(cfg, s, steps, n, sid)).1
  {
    hide Exec, Enter, Entered, ViewOf;
    EnterAsView(cfg, Exec(cfg, s, steps, n), sid, sid);
  }

  lemma NothingEvolves(cfg: Config, now: int, v: View)
    ensures Evolve(cfg, now, v, Nothing) == v
  {
  }

  lemma EndedTwiceViews(cfg: Config, s: State, steps: seq<Step>, x: Scene, secs: nat)
    requires |steps| == 6 && Exec(cfg, s, steps, 3).now == s.now
    requires At(cfg, s, steps, 3, x.sid) == Saved(SessionOf(x, s.now))
    requires steps[3] == steps[5] == EndSessionsOf(x.user.id) && steps[4] == Tick(secs)
    ensures var once := Evolve(cfg, s.now, Saved(SessionOf(x, s.now)), Ended(x.user.id));
            && At(cfg, s, steps, 5, x.sid) == once
            && At(cfg, s, steps, 6, x.sid) == Evolve(cfg, s.now + secs, once, Ended(x.user.id))
            && Exec(cfg, s, steps, 5).now == Exec(cfg, s, steps, 6).now == s.now + secs
  {
    hide Exec, ViewOf, At, EventAt, Evolve, SessionOf;
    NothingEvolves(cfg, s.now, At(cfg, s, steps, 4, x.sid));
    NextSimple(cfg, s, steps, 3, x.sid);
    NextSimple(cfg, s, steps, 4, x.sid);
    NextSimple(cfg, s, steps, 5, x.sid);
  }

  /**
   The sessions of a user are ended, the ended session lets nobody in; they are ended a second time, and in
   that second the session is authenticated again.
   */
  lemma EndingTwiceLetsIn(cfg: Config, s: State, steps: seq<Step>, x: Scene, secs: nat)
    requires Start(s) && Plain(x) && SignsIn(steps, x) && |steps| == 6 && 0 < secs <= cfg.sessionTimeout
    requires steps[3] == steps[5] == EndSessionsOf(x.user.id) && steps[4] == Tick(secs)
    ensures Enter(cfg, Exec(cfg, s, steps, 5), x.sid).1.None?
    ensures Enter(cfg, Exec(cfg, s, steps, 6), x.sid).1.Some?
    ensures Enter(cfg, Exec(cfg, s, steps, 6), x.sid).1.value.state.Auth?
  {
    hide Exec, At, Evolve, Enter, Entered, Plain, SignsIn, Start, SessionOf;
    SignInView(cfg, s, steps, x);
    EndedTwiceViews(cfg, s, steps, x, secs);
    EndedTwiceInView(cfg, s.now, x, secs);
    EnterAt(cfg, s, steps, 5, x.sid);
    EnterAt(cfg, s, steps, 6, x.sid);
  }

  lemma LogoutUndoneInView(cfg: Config, now: int, session: Session, secs: nat)
    requires session.state.Auth? && session.lastSeen == now && 10 < secs <= session.exp - now
              && secs <= cfg.sessionTimeout
    ensures Entered(cfg, now, Saved(session)).1.Some?
    ensures var out := Evolve(cfg, now, Saved(session), LogoutRequested);
            && RowShowsLogout(out)
            && Evolve(cfg, now + secs, out, Requested(false)) == Saved(session.(lastSeen := now + secs))
  {
  }

  lemma RowOnlyEnters(cfg: Config, now: int, session: Session)
    requires Usable(cfg, now, session)
    ensures var entered := Entered(cfg, now, View(Some(session), None)).1;
            entered.Some? && entered.value.state == session.state
  {
  }

  lemma EvictedEvolves(cfg: Config, now: int, v: View)
    ensures Evolve(cfg, now, v, Evicted) == v.(cached := None)
  {
  }

  lemma LogoutRunViews(cfg: Config, s: State, steps: seq<Step>, x: Scene, secs: nat)
    requires |steps| == 7 && Exec(cfg, s, steps, 3).now == s.now
    requires At(cfg, s, steps, 3, x.sid) == Saved(SessionOf(x, s.now))
    requires 10 < secs <= x.lifetime && secs <= cfg.sessionTimeout
    requires steps[3] == Logout(x.sid) && steps[4] == Tick(secs) && steps[5] == Visit(x.sid)
              && steps[6] == EvictSession(x.sid)
    ensures RowShowsLogout(At(cfg, s, steps, 4, x.sid)) && Exec(cfg, s, steps, 7).now == s.now + secs
    ensures At(cfg, s, steps, 7, x.sid) == View(Some(SessionOf(x, s.now).(lastSeen := s.now + secs)), None)
  {
    hide Exec, ViewOf, At, EventAt, Evolve, Entered, RowShowsLogout;
    LogoutUndoneInView(cfg, s.now, SessionOf(x, s.now), secs);
    NothingEvolves(cfg, s.now, At(cfg, s, steps, 4, x.sid));
    EvictedEvolves(cfg, s.now + secs, At(cfg, s, steps, 6, x.sid));
    hide SessionOf;
    NextSimple(cfg, s, steps, 3, x.sid);
    NextSimple(cfg, s, steps, 4, x.sid);
    NextSimple(cfg, s, steps, 5, x.sid);
    NextSimple(cfg, s, steps, 6, x.sid);
  }

  /**
   A session logs out; a request more than 10 s later still finds it in the cache and writes it back, so
   that the table has it authenticated again and it lets its owner in even after the cache has lost it.
   */
  lemma LogoutIsUndone(cfg: Config, s: State, steps: seq<Step>, x: Scene, secs: nat)
    requires Start(s) && Plain(x) && SignsIn(steps, x) && |steps| == 7
    requires 10 < secs <= x.lifetime && secs <= cfg.sessionTimeout
    requires steps[3] == Logout(x.sid) && steps[4] == Tick(secs) && steps[5] == Visit(x.sid)
              && steps[6] == EvictSession(x.sid)
    ensures LogsOutAt(cfg, s, steps, 3, x.sid) && RowShowsLogout(At(cfg, s, steps, 4, x.sid))
    ensures At(cfg, s, steps, 7, x.sid) == View(Some(SessionOf(x, s.now).(lastSeen := s.now + secs)), None)
    ensures Enter(cfg, Exec(cfg, s, steps, 7), x.sid).1.Some?
    ensures Enter(cfg, Exec(cfg, s, steps, 7), x.sid).1.value.state.Auth?
  {
    SignInView(cfg, s, steps, x);
    LogoutUndoneInView(cfg, s.now, SessionOf(x, s.now), secs);
    RowOnlyEnters(cfg, s.now + secs, SessionOf(x, s.now).(lastSeen := s.now + secs));
    hide Exec, At, Enter, Entered, Evolve, RowShowsLogout, Plain, SignsIn, Start;
    EnterAt(cfg, s, steps, 3, x.sid);
    LogoutRunViews(cfg, s, steps, x, secs);
    EnterAt(cfg, s, steps, 7, x.sid);
  }
}
