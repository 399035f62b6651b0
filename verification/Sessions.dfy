/**
 One session over whole runs. A session has a copy in the table and a copy in the cache; whatever else
 happens in a run, the two evolve by the few events that concern them. On this view it is decided when
 an ended or logged-out session lets somebody in again.
 */
module Sessions {
  import opened Wrappers
  import opened AuthCodes

  datatype View = View(row: Option<Session>, cached: Option<Session>)

  datatype Event =
    | Nothing
    | Created(lifetime: nat)
    | Requested(marks: bool)     // a request with this session, which may mark it for the second factor
    | LogoutRequested
    | Redeemed(user: User)       // a code issued for this session
    | Ended(uid: string)
    | AllEnded
    | Deleted | RowDeleted | Evicted

  function ViewOf(s: State, sid: string): View {
    View(if sid in s.rows then Some(s.rows[sid]) else None, if sid in s.cache then Some(s.cache[sid]) else None)
  }

  /** The copy that a lookup finds. */
  function Found(v: View): Option<Session> {
    if v.cached.Some? then v.cached else v.row
  }

  function Saved(session: Session): View {
    View(Some(session), Some(session))
  }

  /**
   Looking a session up copies it into the cache; it is refused when it is not usable, and refreshed when last
   seen long ago.
   */
  function Entered(cfg: Config, now: int, v: View): (View, Option<Session>) {
    match Found(v)
    case None => (v, None)
    case Some(session) =>
      var looked := View(v.row, Some(session));
      if !Usable(cfg, now, session) then (looked, None)
      else if session.lastSeen < now - 10 then
        var seen := session.(lastSeen := now);
        (Saved(seen), Some(seen))
      else (looked, Some(session))
  }

  function Evolve(cfg: Config, now: int, v: View, e: Event): View {
    match e
    case Nothing => v
    case Created(lifetime) => Saved(Session(Init, now + lifetime, now, None, false))
    case Requested(marks) =>
      var (w, entered) := Entered(cfg, now, v);
      if marks && entered.Some? && !entered.value.state.LoggedOut? then Saved(entered.value.(isMfa := true)) else w
    case LogoutRequested =>
      var (w, entered) := Entered(cfg, now, v);
      if entered.Some? && w.row.Some? then w.(row := Some(w.row.value.(exp := now, state := LoggedOut))) else w
    case Redeemed(user) => if Found(v).Some? then Saved(Promoted(now, Found(v).value, user)) else v
    case Ended(uid) =>
      if v.row.Some? && v.row.value.userId == Some(uid) then View(Some(v.row.value.(exp := now)), None) else v
    case AllEnded =>
      if v.row.Some? && v.row.value.exp > now then View(Some(v.row.value.(exp := now)), None) else v
    case Deleted => View(None, None)
    case RowDeleted => v.(row := None)
    case Evicted => v.(cached := None)
  }

  /** What a step means for the session. */
  function EventOf(cfg: Config, s: State, step: Step, sid: string): Event {
    if !Enabled(s, step) then Nothing
    else
      match step
      case NewSession(x, lifetime) => if x == sid then Created(lifetime) else Nothing
      case Visit(x) => if x == sid then Requested(false) else Nothing
      case Authorize(a, x, _) =>
        if x == sid then Requested(CheckLogin(s.now, a) == None && a.user.value.webauthn) else Nothing
      case Renew(_, x, _) => if x == sid then Requested(false) else Nothing
      case Federate(u, x, _) =>
        if x == sid
        then Requested(CheckUpstreamUser(cfg, s.now, u) == None && !u.link && ForcesMfa(cfg, u.client.value))
        else Nothing
      case Redeem(req) =>
        if CheckCode(cfg, s, req).Some? then Nothing
        else
          var code := s.codes[req.code.value];
          if code.sessionId == Some(sid) && code.userId in req.users && TokensFor(s.now, req.users[code.userId])
              && !req.tokensFail
          then Redeemed(req.users[code.userId]) else Nothing
      case Logout(x) => if x == sid then LogoutRequested else Nothing
      case EndSessionsOf(uid) => Ended(uid)
      case EndAllSessions => AllEnded
      case DeleteSession(x) => if x == sid then Deleted else Nothing
      case DeleteRow(x) => if x == sid then RowDeleted else Nothing
      case EvictSession(x) => if x == sid then Evicted else Nothing
      case EvictCode(_) => Nothing
      case Tick(_) => Nothing
  }

  lemma EnterAsView(cfg: Config, s: State, other: string, sid: string)
    ensures ViewOf(Enter(cfg, s, other).0, sid)
         == if other == sid then Entered(cfg, s.now, ViewOf(s, sid)).0 else ViewOf(s, sid)
    ensures other == sid ==> Enter(cfg, s, other).1 == Entered(cfg, s.now, ViewOf(s, sid)).1
  {
  }

  lemma LookupAsView(s: State, other: string, sid: string)
    ensures ViewOf(FindSession(s, other).0, sid) ==
            if other == sid && Found(ViewOf(s, sid)).Some? then ViewOf(s, sid).(cached := Found(ViewOf(s, sid)))
            else ViewOf(s, sid)
    ensures FindSession(s, sid).1 == Found(ViewOf(s, sid))
  {
  }

  lemma SaveAsView(s: State, other: string, session: Session, sid: string)
    ensures ViewOf(SaveSession(s, other, session), sid) == if other == sid then Saved(session) else ViewOf(s, sid)
  {
  }

  lemma IssueAsView(sid: string)
    ensures forall s, id, code, via, client :: ViewOf(Issue(s, id, code, via, client), sid) == ViewOf(s, sid)
  {
  }

  lemma SpendAsView(s: State, id: string, promotedBy: map<string, string>, sid: string)
    ensures ViewOf(Spend(s, id), sid) == ViewOf(s, sid)
    ensures ViewOf(Spend(s, id).(promotedBy := promotedBy), sid) == ViewOf(s, sid)
  {
  }

  lemma AuthorizeAsEvent(cfg: Config, s: State, a: Attempt, other: string, id: string, sid: string)
    requires id !in s.issued
    ensures ViewOf(DoAuthorize(cfg, s, a, other, id).0, sid)
         == Evolve(cfg, s.now, ViewOf(s, sid), EventOf(cfg, s, Authorize(a, other, id), sid))
  {
    EnterAsView(cfg, s, other, sid);
    hide Enter, Entered, CheckLogin, Lifetime;
  }

  lemma RenewAsEvent(cfg: Config, s: State, r: Renewal, other: string, id: string, sid: string)
    requires id !in s.issued && ById(r.users)
    ensures ViewOf(DoRenew(cfg, s, r, other, id).0, sid)
         == Evolve(cfg, s.now, ViewOf(s, sid), EventOf(cfg, s, Renew(r, other, id), sid))
  {
    EnterAsView(cfg, s, other, sid);
    hide Enter, Entered, CheckRenewal, Lifetime;
  }

  lemma FederateAsEvent(cfg: Config, s: State, u: Upstream, other: string, id: string, sid: string)
    requires id !in s.issued
    ensures ViewOf(DoFederate(cfg, s, u, other, id).0, sid)
         == Evolve(cfg, s.now, ViewOf(s, sid), EventOf(cfg, s, Federate(u, other, id), sid))
  {
    EnterAsView(cfg, s, other, sid);
    IssueAsView(sid);
    var (t, entered) := Enter(cfg, s, other);
    if entered.Some? { SaveAsView(t, other, entered.value.(isMfa := true), sid); }
    var marks := CheckUpstreamUser(cfg, s.now, u) == None && !u.link && ForcesMfa(cfg, u.client.value);
    assert EventOf(cfg, s, Federate(u, other, id), sid) == if other == sid then Requested(marks) else Nothing;
    hide EventOf, Enter, Entered, ForcesMfa, Lifetime, SaveSession, Issue, ViewOf, CheckUpstreamClient;
  }

  lemma LookupFindsNothing(s: State, sid: string)
    requires FindSession(s, sid).1.None?
    ensures FindSession(s, sid).0 == s && Found(ViewOf(s, sid)).None?
  {
  }

  lemma RedeemAsEvent(cfg: Config, s: State, req: Redemption, sid: string)
    requires ById(req.users)
    ensures ViewOf(DoRedeem(cfg, s, req).0, sid)
         == Evolve(cfg, s.now, ViewOf(s, sid), EventOf(cfg, s, Redeem(req), sid))
  {
    if CheckCode(cfg, s, req).None? {
      var id := req.code.value;
      var code := s.codes[id];
      SpendAsView(s, id, s.promotedBy, sid);
      if code.sessionId.Some? && code.userId in req.users {
        var other := code.sessionId.value;
        LookupAsView(s, other, sid);
        LookupAsView(s, other, other);
        var (t, found) := FindSession(s, other);
        if found.Some? {
          var u := SaveSession(t, other, Promoted(s.now, found.value, req.users[code.userId]));
          SaveAsView(t, other, Promoted(s.now, found.value, req.users[code.userId]), sid);
          SpendAsView(u, id, u.promotedBy[other := id], sid);
        } else {
          LookupFindsNothing(s, other);
        }
      }
    }
    hide CheckCode, Promoted, TokensFor, SaveSession, FindSession, Spend, ViewOf;
  }

  lemma OthersAsEvents(cfg: Config, s: State, step: Step, sid: string)
    requires Enabled(s, step) && !(step.Authorize? || step.Renew? || step.Federate? || step.Redeem?)
    ensures ViewOf(Answer(cfg, s, step).0, sid) == Evolve(cfg, s.now, ViewOf(s, sid), EventOf(cfg, s, step, sid))
  {
    if step.Visit? || step.Logout? {
      EnterAsView(cfg, s, step.sid, sid);
      hide Enter, Entered;
    }
  }

  lemma NotEnabledIsNothing(cfg: Config, s: State, step: Step, sid: string)
    requires !Enabled(s, step)
    ensures Evolve(cfg, s.now, ViewOf(s, sid), EventOf(cfg, s, step, sid)) == ViewOf(s, sid)
  {
  }

  /** Whatever a step does, to one session it is one event; nothing else about the state matters to its copies. */
  lemma SessionEvolves(cfg: Config, s: State, step: Step, sid: string)
    ensures ViewOf(Apply(cfg, s, step), sid) == Evolve(cfg, s.now, ViewOf(s, sid), EventOf(cfg, s, step, sid))
  {
    hide DoAuthorize, DoRenew, DoFederate, DoRedeem, EventOf, ViewOf, Evolve;
    if Enabled(s, step) {
      match step
      case Authorize(a, other, id) => AuthorizeAsEvent(cfg, s, a, other, id, sid);
      case Renew(r, other, id) => RenewAsEvent(cfg, s, r, other, id, sid);
      case Federate(u, other, id) => FederateAsEvent(cfg, s, u, other, id, sid);
      case Redeem(req) => RedeemAsEvent(cfg, s, req, sid);
      case _ => OthersAsEvents(cfg, s, step, sid);
    } else {
      NotEnabledIsNothing(cfg, s, step, sid);
    }
  }

  // ---------------------------------------------------------------------------------------------
  // Events on one session

  predicate EndsBy(v: View, t: int) {
    (v.row.Some? ==> v.row.value.exp <= t) && (v.cached.Some? ==> v.cached.value.exp <= t)
  }

  predicate LivesUntil(v: View, t: int) {
    (v.row.Some? ==> v.row.value.exp >= t) && (v.cached.Some? ==> v.cached.value.exp >= t)
  }

  /** No copy that is logged out expires in the future. */
  predicate OutIsOver(v: View, now: int) {
    && (v.row.Some? && v.row.value.state.LoggedOut? ==> v.row.value.exp <= now)
    && (v.cached.Some? && v.cached.value.state.LoggedOut? ==> v.cached.value.exp <= now)
  }

  /** The event ends the session for its user. */
  predicate Ends(v: View, e: Event) {
    e.Ended? && v.row.Some? && v.row.value.userId == Some(e.uid)
  }

  /** The event saves the session in a state other than logged out. */
  predicate Undoes(cfg: Config, now: int, v: View, e: Event) {
    match e
    case Requested(marks) =>
      var found := Found(v);
      && found.Some? && Usable(cfg, now, found.value) && !found.value.state.LoggedOut?
      && (found.value.lastSeen < now - 10 || marks)
    case Redeemed(_) => Found(v).Some?
    case _ => false
  }

  predicate RowShowsLogout(v: View) {
    v.row.Some? ==> v.row.value.state.LoggedOut?
  }

  lemma EventKeepsEnd(cfg: Config, now: int, v: View, e: Event, t: int)
    requires EndsBy(v, t) && !Ends(v, e) && !e.Created?
    ensures EndsBy(Evolve(cfg, now, v, e), t)
  {
  }

  lemma EndingEnds(cfg: Config, now: int, v: View, e: Event)
    requires Ends(v, e)
    ensures EndsBy(Evolve(cfg, now, v, e), now) && LivesUntil(Evolve(cfg, now, v, e), now)
  {
  }

  lemma EventKeepsAlive(cfg: Config, now: int, v: View, e: Event)
    requires LivesUntil(v, now) && !e.Created? && (e.Redeemed? ==> TokensFor(now, e.user))
    ensures LivesUntil(Evolve(cfg, now, v, e), now)
  {
  }

  lemma EventKeepsOutOver(cfg: Config, now: int, v: View, e: Event)
    requires OutIsOver(v, now)
    ensures OutIsOver(Evolve(cfg, now, v, e), now)
  {
  }

  /** While the table shows a logout, an event either undoes it or leaves it. */
  lemma LogoutKeptIff(cfg: Config, now: int, v: View, e: Event)
    requires RowShowsLogout(v) && !e.Created?
    ensures RowShowsLogout(Evolve(cfg, now, v, e)) <==> !Undoes(cfg, now, v, e)
  {
  }

  lemma AcceptedLogoutShows(cfg: Config, now: int, v: View)
    requires Entered(cfg, now, v).1.Some?
    ensures RowShowsLogout(Evolve(cfg, now, v, LogoutRequested))
  {
  }

  // ---------------------------------------------------------------------------------------------
  // Main results, for every run and every step n of it

  function At(cfg: Config, s: State, steps: seq<Step>, n: nat, sid: string): View
    requires n <= |steps|
  {
    ViewOf(Exec(cfg, s, steps, n), sid)
  }

  function EventAt(cfg: Config, s: State, steps: seq<Step>, n: nat, sid: string): Event
    requires n < |steps|
  {
    EventOf(cfg, Exec(cfg, s, steps, n), steps[n], sid)
  }

  /** Step n ends the session for its user. */
  predicate EndsAt(cfg: Config, s: State, steps: seq<Step>, n: nat, sid: string) {
    n < |steps| && Ends(At(cfg, s, steps, n, sid), EventAt(cfg, s, steps, n, sid))
  }

  predicate UndoesAt(cfg: Config, s: State, steps: seq<Step>, n: nat, sid: string) {
    && n < |steps|
    && Undoes(cfg, Exec(cfg, s, steps, n).now, At(cfg, s, steps, n, sid), EventAt(cfg, s, steps, n, sid))
  }

  lemma NextView(cfg: Config, s: State, steps: seq<Step>, n: nat, sid: string)
    requires n < |steps|
    ensures At(cfg, s, steps, n + 1, sid)
         == Evolve(cfg, Exec(cfg, s, steps, n).now, At(cfg, s, steps, n, sid), EventAt(cfg, s, steps, n, sid))
    ensures Exec(cfg, s, steps, n).now <= Exec(cfg, s, steps, n + 1).now
  {
    SessionEvolves(cfg, Exec(cfg, s, steps, n), steps[n], sid);
    ApplyMovesOn(cfg, Exec(cfg, s, steps, n), steps[n]);
    hide Apply, Evolve, EventOf, ViewOf;
  }

  lemma RedemptionKeepsKnown(cfg: Config, s: State, req: Redemption)
    ensures DoRedeem(cfg, s, req).0.known == s.known
  {
    hide CheckCode, TokensFor, Promoted;
  }

  lemma KnownGrows(cfg: Config, s: State, step: Step)
    ensures s.known <= Apply(cfg, s, step).known
  {
    if step.Visit? || step.Logout? || step.Authorize? || step.Renew? || step.Federate? {
      EnterKeepsHistory(cfg, s, step.sid);
    }
    if step.Redeem? { RedemptionKeepsKnown(cfg, s, step.req); }
    hide DoRedeem, Enter, CheckLogin, CheckRenewal, CheckUpstreamUser, CheckUpstreamClient, ForcesMfa, Lifetime, ById;
  }

  lemma {:induction false} StaysKnown(cfg: Config, s: State, steps: seq<Step>, m: nat, n: nat)
    requires m <= n <= |steps|
    ensures Exec(cfg, s, steps, m).known <= Exec(cfg, s, steps, n).known
    decreases n
  {
    hide Apply;
    if m < n {
      StaysKnown(cfg, s, steps, m, n - 1);
      KnownGrows(cfg, Exec(cfg, s, steps, n - 1), steps[n - 1]);
    }
  }

  lemma EventFacts(cfg: Config, s: State, step: Step, sid: string)
    requires sid in s.known
    ensures var e := EventOf(cfg, s, step, sid); !e.Created? && (e.Redeemed? ==> TokensFor(s.now, e.user))
  {
    hide CheckCode, CheckLogin, CheckUpstreamUser, TokensFor;
  }

  lemma EventAtFacts(cfg: Config, s: State, steps: seq<Step>, m: nat, n: nat, sid: string)
    requires m <= n < |steps| && sid in Exec(cfg, s, steps, m).known
    ensures var e := EventAt(cfg, s, steps, n, sid);
            !e.Created? && (e.Redeemed? ==> TokensFor(Exec(cfg, s, steps, n).now, e.user))
  {
    hide Exec, EventOf, TokensFor;
    StaysKnown(cfg, s, steps, m, n);
    EventFacts(cfg, Exec(cfg, s, steps, n), steps[n], sid);
  }

  lemma EndsLater(v: View, t: int, u: int)
    requires EndsBy(v, t) && t <= u
    ensures EndsBy(v, u)
  {
  }

  lemma {:induction false} NoEndingKeepsEnd(cfg: Config, s: State, steps: seq<Step>, m: nat, n: nat, sid: string,
                                            t: int)
    requires m <= n <= |steps| && sid in Exec(cfg, s, steps, m).known && EndsBy(At(cfg, s, steps, m, sid), t)
    requires forall i :: m <= i < n && EndsAt(cfg, s, steps, i, sid) ==> Exec(cfg, s, steps, i).now <= t
    ensures EndsBy(At(cfg, s, steps, n, sid), t)
    decreases n
  {
    hide Exec, At, EventAt, Evolve, EndsBy, Ends;
    if m < n {
      NoEndingKeepsEnd(cfg, s, steps, m, n - 1, sid, t);
      NextView(cfg, s, steps, n - 1, sid);
      EventAtFacts(cfg, s, steps, m, n - 1, sid);
      var now, v, e := Exec(cfg, s, steps, n - 1).now, At(cfg, s, steps, n - 1, sid),
          EventAt(cfg, s, steps, n - 1, sid);
      if Ends(v, e) {
        EndingEnds(cfg, now, v, e);
        EndsLater(At(cfg, s, steps, n, sid), now, t);
      } else {
        EventKeepsEnd(cfg, now, v, e, t);
      }
    }
  }

  lemma {:induction false} AliveWithinSecond(cfg: Config, s: State, steps: seq<Step>, i: nat, n: nat, sid: string)
    requires i < n <= |steps| && EndsAt(cfg, s, steps, i, sid) && sid in Exec(cfg, s, steps, i).known
    requires Exec(cfg, s, steps, n).now == Exec(cfg, s, steps, i).now
    ensures LivesUntil(At(cfg, s, steps, n, sid), Exec(cfg, s, steps, n).now)
    decreases n
  {
    hide Exec, At, EventAt, Evolve, LivesUntil, Ends;
    var now, v, e := Exec(cfg, s, steps, n - 1).now, At(cfg, s, steps, n - 1, sid), EventAt(cfg, s, steps, n - 1, sid);
    NextView(cfg, s, steps, n - 1, sid);
    ExecMovesOn(cfg, s, steps, i, n - 1);
    if i < n - 1 {
      AliveWithinSecond(cfg, s, steps, i, n - 1, sid);
      EventAtFacts(cfg, s, steps, i, n - 1, sid);
      EventKeepsAlive(cfg, now, v, e);
    } else {
      EndingEnds(cfg, now, v, e);
    }
  }

  lemma EntersIffUsable(cfg: Config, s: State, sid: string)
    ensures Enter(cfg, s, sid).1.Some? <==>
              Found(ViewOf(s, sid)).Some? && Usable(cfg, s.now, Found(ViewOf(s, sid)).value)
  {
  }

  /** The session is there and has not timed out. */
  predicate SeenRecently(cfg: Config, s: State, sid: string) {
    var found := FindSession(s, sid).1;
    found.Some? && found.value.lastSeen >= s.now - cfg.sessionTimeout
  }

  lemma EntersOnlyIfAlive(cfg: Config, s: State, sid: string, t: int)
    requires EndsBy(ViewOf(s, sid), t) && t < s.now
    ensures Enter(cfg, s, sid).1.None?
  {
  }

  lemma EntersIfAlive(cfg: Config, s: State, sid: string)
    requires LivesUntil(ViewOf(s, sid), s.now)
    ensures Enter(cfg, s, sid).1.Some? <==> SeenRecently(cfg, s, sid)
  {
  }

  /** Step i ends the session for its user in the second that is the present after n steps. */
  predicate EndedAgain(cfg: Config, s: State, steps: seq<Step>, i: nat, n: nat, sid: string)
    requires i <= n <= |steps|
  {
    EndsAt(cfg, s, steps, i, sid) && Exec(cfg, s, steps, i).now == Exec(cfg, s, steps, n).now
  }

  /**
   A session all of whose copies expire by some time lets somebody in at a later time exactly when its
   user's sessions have been ended again in that very second, which sets its expiry to the present.
   */
  lemma OnlyEndingRevives(cfg: Config, s: State, steps: seq<Step>, k: nat, n: nat, sid: string, t: int)
    requires k <= n <= |steps| && sid in Exec(cfg, s, steps, k).known
    requires EndsBy(At(cfg, s, steps, k, sid), t) && t < Exec(cfg, s, steps, n).now
    ensures Enter(cfg, Exec(cfg, s, steps, n), sid).1.Some? <==>
              && (exists i :: k <= i < n && EndedAgain(cfg, s, steps, i, n, sid))
              && SeenRecently(cfg, Exec(cfg, s, steps, n), sid)
  {
    hide Exec, Enter, EndsAt, ViewOf, SeenRecently, EndsBy, LivesUntil;
    var now := Exec(cfg, s, steps, n).now;
    if i :| k <= i < n && EndedAgain(cfg, s, steps, i, n, sid) {
      StaysKnown(cfg, s, steps, k, i);
      AliveWithinSecond(cfg, s, steps, i, n, sid);
      EntersIfAlive(cfg, Exec(cfg, s, steps, n), sid);
    } else {
      forall i | k <= i < n && EndsAt(cfg, s, steps, i, sid) ensures Exec(cfg, s, steps, i).now <= now - 1 {
        ExecMovesOn(cfg, s, steps, i, n);
        assert !EndedAgain(cfg, s, steps, i, n, sid);
      }
      EndsLater(At(cfg, s, steps, k, sid), t, now - 1);
      NoEndingKeepsEnd(cfg, s, steps, k, n, sid, now - 1);
      EntersOnlyIfAlive(cfg, Exec(cfg, s, steps, n), sid, now - 1);
    }
  }

  lemma StoredIsKnown(cfg: Config, s: State, steps: seq<Step>, n: nat, sid: string)
    requires Start(s) && n <= |steps| && Found(At(cfg, s, steps, n, sid)).Some?
    ensures sid in Exec(cfg, s, steps, n).known
  {
    ExecKeepsInv(cfg, s, steps, n);
  }

  /**
   After the sessions of a user have been ended, an ended session lets somebody in at a later time exactly
   when the sessions of its user are ended again in that same second, and it has not timed out.
   */
  lemma EndedSessionEntersIff(cfg: Config, s: State, steps: seq<Step>, m: nat, n: nat, sid: string)
    requires Start(s) && m < n <= |steps| && EndsAt(cfg, s, steps, m, sid)
    requires Exec(cfg, s, steps, m).now < Exec(cfg, s, steps, n).now
    ensures Enter(cfg, Exec(cfg, s, steps, n), sid).1.Some? <==>
              && (exists i :: m < i < n && EndedAgain(cfg, s, steps, i, n, sid))
              && SeenRecently(cfg, Exec(cfg, s, steps, n), sid)
  {
    hide Exec, Enter, EventAt, Evolve, SeenRecently, EndsBy, LivesUntil, ViewOf, Start;
    StoredIsKnown(cfg, s, steps, m, sid);
    NextView(cfg, s, steps, m, sid);
    EndingEnds(cfg, Exec(cfg, s, steps, m).now, At(cfg, s, steps, m, sid), EventAt(cfg, s, steps, m, sid));
    StaysKnown(cfg, s, steps, m, m + 1);
    OnlyEndingRevives(cfg, s, steps, m + 1, n, sid, Exec(cfg, s, steps, m).now);
  }

  /** Step n is a logout request of the session, and it is accepted. */
  predicate LogsOutAt(cfg: Config, s: State, steps: seq<Step>, n: nat, sid: string) {
    n < |steps| && steps[n] == Logout(sid) && Enter(cfg, Exec(cfg, s, steps, n), sid).1.Some?
  }

  lemma LogoutEvent(cfg: Config, s: State, steps: seq<Step>, m: nat, sid: string)
    requires Start(s) && LogsOutAt(cfg, s, steps, m, sid)
    ensures sid in Exec(cfg, s, steps, m).known && RowShowsLogout(At(cfg, s, steps, m + 1, sid))
  {
    var t := Exec(cfg, s, steps, m);
    EnterAsView(cfg, t, sid, sid);
    EntersIffUsable(cfg, t, sid);
    StoredIsKnown(cfg, s, steps, m, sid);
    NextView(cfg, s, steps, m, sid);
    AcceptedLogoutShows(cfg, t.now, At(cfg, s, steps, m, sid));
    hide Exec, Enter, Entered, Evolve, ViewOf, Start;
  }

  lemma {:induction false} LogoutKept(cfg: Config, s: State, steps: seq<Step>, m: nat, n: nat, sid: string)
    requires m <= n <= |steps| && sid in Exec(cfg, s, steps, m).known && RowShowsLogout(At(cfg, s, steps, m, sid))
    requires forall i :: m <= i < n ==> !UndoesAt(cfg, s, steps, i, sid)
    ensures RowShowsLogout(At(cfg, s, steps, n, sid))
    decreases n
  {
    hide Exec, At, EventAt, Evolve, RowShowsLogout, Undoes;
    if m < n {
      LogoutKept(cfg, s, steps, m, n - 1, sid);
      NextView(cfg, s, steps, n - 1, sid);
      EventAtFacts(cfg, s, steps, m, n - 1, sid);
      assert !UndoesAt(cfg, s, steps, n - 1, sid);
      LogoutKeptIff(cfg, Exec(cfg, s, steps, n - 1).now, At(cfg, s, steps, n - 1, sid),
          EventAt(cfg, s, steps, n - 1, sid));
    }
  }

  /**
   The table goes on showing an accepted logout exactly as long as nothing saves the session anew: no
   request that finds its cached copy usable more than 10 s after it was last seen, or marks it for the
   second factor, and no redemption of a code issued for it.
   */
  lemma LogoutSticksIff(cfg: Config, s: State, steps: seq<Step>, m: nat, n: nat, sid: string)
    requires Start(s) && m < n <= |steps| && LogsOutAt(cfg, s, steps, m, sid)
    ensures (forall i :: m < i <= n ==> RowShowsLogout(At(cfg, s, steps, i, sid)))
       <==> (forall i :: m < i < n ==> !UndoesAt(cfg, s, steps, i, sid))
  {
    hide Exec, EventAt, Evolve, RowShowsLogout, Undoes, ViewOf, Start, Enter;
    LogoutEvent(cfg, s, steps, m, sid);
    StaysKnown(cfg, s, steps, m, m + 1);
    if forall i :: m < i < n ==> !UndoesAt(cfg, s, steps, i, sid) {
      forall i | m < i <= n ensures RowShowsLogout(At(cfg, s, steps, i, sid)) {
        LogoutKept(cfg, s, steps, m + 1, i, sid);
      }
    } else {
      var i :| m < i < n && UndoesAt(cfg, s, steps, i, sid);
      NextView(cfg, s, steps, i, sid);
      EventAtFacts(cfg, s, steps, m, i, sid);
      if RowShowsLogout(At(cfg, s, steps, i, sid)) {
        LogoutKeptIff(cfg, Exec(cfg, s, steps, i).now, At(cfg, s, steps, i, sid), EventAt(cfg, s, steps, i, sid));
      }
      assert !RowShowsLogout(At(cfg, s, steps, i, sid)) || !RowShowsLogout(At(cfg, s, steps, i + 1, sid));
    }
  }

  lemma {:induction false} OutIsAlwaysOver(cfg: Config, s: State, steps: seq<Step>, n: nat, sid: string)
    requires Start(s) && n <= |steps|
    ensures OutIsOver(At(cfg, s, steps, n, sid), Exec(cfg, s, steps, n).now)
  {
    hide Apply, EventOf, Evolve;
    if n != 0 {
      OutIsAlwaysOver(cfg, s, steps, n - 1, sid);
      NextView(cfg, s, steps, n - 1, sid);
      hide Exec, ViewOf;
      EventKeepsOutOver(cfg, Exec(cfg, s, steps, n - 1).now, At(cfg, s, steps, n - 1, sid),
          EventAt(cfg, s, steps, n - 1, sid));
    }
  }

  /**
   A logout that has not been undone takes effect with the loss of the cached copy: from the next second on
   nobody is let in, whatever is redeemed, but for a repeated ending of the user's sessions.
   */
  lemma LogoutTakesEffect(cfg: Config, s: State, steps: seq<Step>, m: nat, k: nat, n: nat, sid: string)
    requires Start(s) && m < k <= n <= |steps| && LogsOutAt(cfg, s, steps, m, sid)
    requires forall i :: m < i < k ==> !UndoesAt(cfg, s, steps, i, sid)
    requires sid !in Exec(cfg, s, steps, k).cache && Exec(cfg, s, steps, k).now < Exec(cfg, s, steps, n).now
    ensures Enter(cfg, Exec(cfg, s, steps, n), sid).1.Some? <==>
              && (exists i :: k <= i < n && EndedAgain(cfg, s, steps, i, n, sid))
              && SeenRecently(cfg, Exec(cfg, s, steps, n), sid)
  {
    hide Exec, Enter, EventAt, Evolve, SeenRecently, LivesUntil, Start, Undoes, EndsAt;
    LogoutEvent(cfg, s, steps, m, sid);
    StaysKnown(cfg, s, steps, m, m + 1);
    StaysKnown(cfg, s, steps, m, k);
    LogoutKept(cfg, s, steps, m + 1, k, sid);
    OutIsAlwaysOver(cfg, s, steps, k, sid);
    OnlyEndingRevives(cfg, s, steps, k, n, sid, Exec(cfg, s, steps, k).now);
  }

  // ---------------------------------------------------------------------------------------------
  // Ending all sessions

  /** The cache holds a live copy of a session whose row has expired or is gone. */
  predicate OutlivesItsRow(s: State, sid: string) {
    && sid in s.cache && s.cache[sid].exp > s.now
    && (sid in s.rows ==> s.rows[sid].exp <= s.now)
  }

  /** Ending all sessions ends every copy of a session, except of one whose cached copy outlives its row. */
  lemma EndingAllReachesIff(cfg: Config, s: State, sid: string)
    ensures var t := Apply(cfg, s, EndAllSessions);
            && (EndsBy(ViewOf(t, sid), s.now) <==> !OutlivesItsRow(s, sid))
            && t.now == s.now && t.known == s.known && t.rows.Keys == s.rows.Keys
            && (sid in s.rows ==>
                  t.rows[sid] == s.rows[sid].(exp := if s.rows[sid].exp > s.now then s.now else s.rows[sid].exp))
            && (sid in t.cache ==> sid in s.cache && t.cache[sid] == s.cache[sid])
  {
  }

  /** Ending the sessions of a user sets the expiry of each of them to the present and drops it from the cache. */
  lemma EndingForUserReaches(cfg: Config, s: State, uid: string, sid: string)
    ensures var t := Apply(cfg, s, EndSessionsOf(uid));
            var own := sid in s.rows && s.rows[sid].userId == Some(uid);
            && t.rows.Keys == s.rows.Keys
            && (sid in s.rows ==> t.rows[sid] == if own then s.rows[sid].(exp := s.now) else s.rows[sid])
            && (sid in t.cache <==> sid in s.cache && !own)
            && (sid in t.cache ==> t.cache[sid] == s.cache[sid])
  {
  }

  lemma EndAllKeeps(cfg: Config, s: State, steps: seq<Step>, m: nat, sid: string)
    requires m < |steps| && steps[m] == EndAllSessions && !OutlivesItsRow(Exec(cfg, s, steps, m), sid)
    ensures EndsBy(At(cfg, s, steps, m + 1, sid), Exec(cfg, s, steps, m).now)
    ensures Exec(cfg, s, steps, m + 1).known == Exec(cfg, s, steps, m).known
  {
    EndingAllReachesIff(cfg, Exec(cfg, s, steps, m), sid);
    assert Exec(cfg, s, steps, m + 1) == Apply(cfg, Exec(cfg, s, steps, m), steps[m]);
    hide Exec, Apply, ViewOf, OutlivesItsRow, EndsBy;
  }

  /**
   After all sessions have been ended, a session whose cached copy did not outlive its row lets somebody in at a
   later time exactly when the sessions of its user are ended again in that second, and it has not timed out.
   */
  lemma AllEndedEntersIff(cfg: Config, s: State, steps: seq<Step>, m: nat, n: nat, sid: string)
    requires m < n <= |steps| && steps[m] == EndAllSessions && sid in Exec(cfg, s, steps, m).known
    requires !OutlivesItsRow(Exec(cfg, s, steps, m), sid)
    requires Exec(cfg, s, steps, m).now < Exec(cfg, s, steps, n).now
    ensures Enter(cfg, Exec(cfg, s, steps, n), sid).1.Some? <==>
              && (exists i :: m < i < n && EndedAgain(cfg, s, steps, i, n, sid))
              && SeenRecently(cfg, Exec(cfg, s, steps, n), sid)
  {
    hide Exec, Enter, SeenRecently, EndsBy, ViewOf, OutlivesItsRow;
    EndAllKeeps(cfg, s, steps, m, sid);
    OnlyEndingRevives(cfg, s, steps, m + 1, n, sid, Exec(cfg, s, steps, m).now);
  }

  lemma EnteredIsCached(cfg: Config, s: State, sid: string)
    requires Enter(cfg, s, sid).1.Some?
    ensures var (t, entered) := Enter(cfg, s, sid);
            && t.now == s.now && sid in t.cache && t.cache[sid] == entered.value
            && Usable(cfg, s.now, entered.value) && entered.value.lastSeen >= s.now - 10
  {
  }

  lemma LogoutOutlivesRow(cfg: Config, s: State, sid: string)
    requires Enter(cfg, s, sid).1.Some?
    ensures var t, session := Apply(cfg, s, Logout(sid)), Enter(cfg, s, sid).1.value;
            && t.now == s.now && sid in t.cache && t.cache[sid] == session
            && (sid in t.rows ==> t.rows[sid].exp <= t.now)
            && Usable(cfg, s.now, session) && session.lastSeen >= s.now - 10
  {
    hide Enter, Usable;
    EnteredIsCached(cfg, s, sid);
    assert Apply(cfg, s, Logout(sid)) == LogOut(Enter(cfg, s, sid).0, sid);
    hide Apply;
  }

  lemma EndAllKeepsCached(cfg: Config, s: State, sid: string)
    requires sid in s.cache && (sid in s.rows ==> s.rows[sid].exp <= s.now)
    ensures var t := Apply(cfg, s, EndAllSessions);
            t.now == s.now && sid in t.cache && t.cache[sid] == s.cache[sid]
  {
  }

  lemma EntersAsCached(cfg: Config, s: State, sid: string)
    requires sid in s.cache && Usable(cfg, s.now, s.cache[sid]) && s.cache[sid].lastSeen >= s.now - 10
    ensures Enter(cfg, s, sid).1 == Some(s.cache[sid])
  {
  }

  /**
   A logout shields a session from this: whoever logs out first is let in with the same session right after all
   sessions have been ended.
   */
  lemma LogoutOutlivesEndAll(cfg: Config, s: State, sid: string)
    requires Enter(cfg, s, sid).1.Some?
    ensures var t := Apply(cfg, Apply(cfg, s, Logout(sid)), EndAllSessions);
            Enter(cfg, t, sid).1 == Enter(cfg, s, sid).1
  {
    hide Apply, Enter;
    LogoutOutlivesRow(cfg, s, sid);
    var t := Apply(cfg, s, Logout(sid));
    EndAllKeepsCached(cfg, t, sid);
    EntersAsCached(cfg, Apply(cfg, t, EndAllSessions), sid);
  }
}
