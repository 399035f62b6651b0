/**
 How long the record of a device code lasts, and what a poll is told therefore. A record lasts until its
 lifetime ends, its user declines, it is spent, or it is lost; being told access_denied does not end it.
 */
module DeviceRecords {
  import opened Wrappers
  import opened DeviceGrant

  predicate Stored(cfg: Config, s: State, dc: string) {
    UserCode(cfg, dc) in s.codes && s.codes[UserCode(cfg, dc)].deviceCode == dc
  }

  function RecordOf(cfg: Config, s: State, dc: string): Code
    requires Stored(cfg, s, dc)
  {
    s.codes[UserCode(cfg, dc)]
  }

  predicate NoFaults(faults: Faults) {
    !faults.noUser && !faults.noClient && !faults.noInsert && !faults.noTokens
  }

  /**
   The step loses the record: the cache drops it, another code takes its place, or a poll spends it without
   yielding tokens because of a fault of the database.
   */
  predicate Loses(cfg: Config, s: State, step: Step, dc: string) {
    match step
    case Evict(userCode) => userCode == UserCode(cfg, dc)
    case Request(_, _, _, other) => Enabled(cfg, s, step) && UserCode(cfg, other) == UserCode(cfg, dc)
    case Poll(payload, faults) =>
      && payload.deviceCode == Some(dc) && AnswerPoll(cfg, s, payload, faults).1 == ServerError
      && Stored(cfg, s, dc) && ((!faults.noUser && !faults.noClient) || Struck(cfg, RecordOf(cfg, s, dc), s.now))
    case _ => false
  }

  predicate SameRequest(a: Code, b: Code) {
    a.clientId == b.clientId && a.clientSecret == b.clientSecret && a.exp == b.exp && a.scopes == b.scopes
  }

  /** What a step does to a record in its lifetime. */
  predicate Lasts(cfg: Config, s: State, step: Step, dc: string)
    requires dc in s.history
  {
    var t := Apply(cfg, s, step);
    && dc in t.history
    && (if Stored(cfg, s, dc) && RecordOf(cfg, s, dc).exp >= s.now then
          && (Stored(cfg, t, dc) <==> !t.history[dc].declined && t.history[dc].grants == 0 && !Loses(cfg, s, step, dc))
          && (Stored(cfg, t, dc) ==> SameRequest(RecordOf(cfg, t, dc), RecordOf(cfg, s, dc)))
        else Stored(cfg, t, dc) ==> Stored(cfg, s, dc))
  }

  lemma RequestLasts(cfg: Config, s: State, step: Step, dc: string)
    requires Inv(cfg, s) && dc in s.history && step.Request?
    ensures Lasts(cfg, s, step, dc)
  {
    if Stored(cfg, s, dc) { assert CodeInv(cfg, s, UserCode(cfg, dc)); }
  }

  lemma VerifyLasts(cfg: Config, s: State, step: Step, dc: string)
    requires Inv(cfg, s) && dc in s.history && step.Verify?
    ensures Lasts(cfg, s, step, dc)
  {
    if Stored(cfg, s, dc) { assert CodeInv(cfg, s, UserCode(cfg, dc)); }
    if step.userCode in s.codes { assert CodeInv(cfg, s, step.userCode); }
  }

  lemma OwnPollLasts(cfg: Config, s: State, step: Step, dc: string)
    requires Inv(cfg, s) && dc in s.history && step.Poll? && step.payload.deviceCode == Some(dc)
    ensures Lasts(cfg, s, step, dc)
  {
    hide Early, EarlyPolls;
    if Stored(cfg, s, dc) { assert CodeInv(cfg, s, UserCode(cfg, dc)); }
    assert HistoryInv(cfg, s, dc);
  }

  /** A poll with another device code leaves the record alone while it lives. */
  lemma OtherPollFrame(cfg: Config, s: State, payload: TokenRequest, faults: Faults, dc: string)
    requires payload.deviceCode != Some(dc)
    ensures var codes, key := AnswerPoll(cfg, s, payload, faults).0, UserCode(cfg, dc);
            if Stored(cfg, s, dc) && RecordOf(cfg, s, dc).exp >= s.now then key in codes && codes[key] == s.codes[key]
            else key in codes && codes[key].deviceCode == dc ==> Stored(cfg, s, dc)
  {
    hide Early;
  }

  lemma OtherPollLasts(cfg: Config, s: State, step: Step, dc: string)
    requires Inv(cfg, s) && dc in s.history && step.Poll? && step.payload.deviceCode != Some(dc)
    ensures Lasts(cfg, s, step, dc)
  {
    OtherPollFrame(cfg, s, step.payload, step.faults, dc);
    if Stored(cfg, s, dc) { assert CodeInv(cfg, s, UserCode(cfg, dc)); }
    hide AnswerPoll, Inv, UserCode, EarlyPolls;
  }

  lemma OtherStepLasts(cfg: Config, s: State, step: Step, dc: string)
    requires Inv(cfg, s) && dc in s.history && (step.Evict? || step.Tick?)
    ensures Lasts(cfg, s, step, dc)
  {
    if Stored(cfg, s, dc) { assert CodeInv(cfg, s, UserCode(cfg, dc)); }
  }

  lemma StepLasts(cfg: Config, s: State, step: Step, dc: string)
    requires Inv(cfg, s) && dc in s.history
    ensures Lasts(cfg, s, step, dc)
  {
    hide Inv, Lasts;
    if step.Request? {
      RequestLasts(cfg, s, step, dc);
    } else if step.Verify? {
      VerifyLasts(cfg, s, step, dc);
    } else if step.Poll? {
      if step.payload.deviceCode == Some(dc) {
        OwnPollLasts(cfg, s, step, dc);
      } else {
        OtherPollLasts(cfg, s, step, dc);
      }
    } else {
      OtherStepLasts(cfg, s, step, dc);
    }
  }

  // ---------------------------------------------------------------------------------------------
  // Main results, for every run and every step n of it

  /** Step r creates the device code. */
  predicate RequestedAt(cfg: Config, s: State, steps: seq<Step>, r: nat, dc: string) {
    r < |steps| && steps[r].Request? && steps[r].deviceCode == dc && Enabled(cfg, Exec(cfg, s, steps, r), steps[r])
  }

  predicate LosesAt(cfg: Config, s: State, steps: seq<Step>, i: nat, dc: string) {
    i < |steps| && Loses(cfg, Exec(cfg, s, steps, i), steps[i], dc)
  }

  /** Nobody has declined the code, it has yielded no tokens, and its record has not been lost. */
  predicate Valid(cfg: Config, s: State, steps: seq<Step>, r: nat, n: nat, dc: string)
    requires n <= |steps|
  {
    var t := Exec(cfg, s, steps, n);
    && dc in t.history && !t.history[dc].declined && t.history[dc].grants == 0
    && forall i :: r < i < n ==> !LosesAt(cfg, s, steps, i, dc)
  }

  predicate Kept(cfg: Config, s: State, steps: seq<Step>, r: nat, n: nat, dc: string)
    requires n <= |steps| && RequestedAt(cfg, s, steps, r, dc)
  {
    var t := Exec(cfg, s, steps, n);
    && dc in t.history
    && (Stored(cfg, t, dc) <==> Valid(cfg, s, steps, r, n, dc))
    && (Stored(cfg, t, dc) ==> SameRequest(RecordOf(cfg, t, dc), NewCode(cfg, Exec(cfg, s, steps, r), steps[r])))
  }

  lemma RequestStores(cfg: Config, s: State, step: Step)
    requires step.Request? && Enabled(cfg, s, step)
    ensures var t, dc := Apply(cfg, s, step), step.deviceCode;
            && dc in t.history && t.history[dc] == History([s.now], None, false, 0, 0, false)
            && Stored(cfg, t, dc) && RecordOf(cfg, t, dc) == NewCode(cfg, s, step)
  {
  }

  lemma KeptAtFirst(cfg: Config, s: State, steps: seq<Step>, r: nat, dc: string)
    requires RequestedAt(cfg, s, steps, r, dc)
    ensures Kept(cfg, s, steps, r, r + 1, dc)
  {
    RequestStores(cfg, Exec(cfg, s, steps, r), steps[r]);
    assert Exec(cfg, s, steps, r + 1) == Apply(cfg, Exec(cfg, s, steps, r), steps[r]);
    hide Apply, Exec, Loses, Stored;
  }

  lemma KeptNext(cfg: Config, s: State, steps: seq<Step>, r: nat, n: nat, dc: string)
    requires r < n < |steps| && RequestedAt(cfg, s, steps, r, dc) && Kept(cfg, s, steps, r, n, dc)
    requires Inv(cfg, Exec(cfg, s, steps, n))
    requires Exec(cfg, s, steps, n).now <= NewCode(cfg, Exec(cfg, s, steps, r), steps[r]).exp
    ensures Kept(cfg, s, steps, r, n + 1, dc)
  {
    var t := Exec(cfg, s, steps, n);
    assert Exec(cfg, s, steps, n + 1) == Apply(cfg, t, steps[n]);
    hide Apply, Exec, Loses, Stored, Inv, NewCode, Enabled;
    StepLasts(cfg, t, steps[n], dc);
    ApplyGrows(cfg, t, steps[n], dc);
    assert LosesAt(cfg, s, steps, n, dc) <==> Loses(cfg, t, steps[n], dc);
  }

  lemma TimePasses(cfg: Config, s: State, steps: seq<Step>, n: nat)
    requires n < |steps|
    ensures Exec(cfg, s, steps, n).now <= Exec(cfg, s, steps, n + 1).now
  {
  }

  /**
   In its lifetime a record is stored exactly as long as nobody has declined it, it is unspent, and no step has
   lost it.
   */
  lemma {:induction false} StoredIffValid(cfg: Config, s: State, steps: seq<Step>, r: nat, n: nat, dc: string)
    requires Init(s) && r < n <= |steps| && RequestedAt(cfg, s, steps, r, dc)
    requires Exec(cfg, s, steps, n).now <= Exec(cfg, s, steps, r).now + cfg.lifetime * SECOND
    ensures Kept(cfg, s, steps, r, n, dc)
    decreases n
  {
    if n == r + 1 {
      KeptAtFirst(cfg, s, steps, r, dc);
    } else {
      TimePasses(cfg, s, steps, n - 1);
      hide Exec, Kept, Enabled;
      StoredIffValid(cfg, s, steps, r, n - 1, dc);
      ExecKeepsInv(cfg, s, steps, n - 1);
      KeptNext(cfg, s, steps, r, n - 1, dc);
    }
  }

  /** The client's own id and secret, as at the request. */
  predicate Identifies(payload: TokenRequest, request: Step)
    requires request.Request?
  {
    payload.clientId == Some(request.clientId) && payload.clientSecret == request.clientSecret
  }

  /** The tokens of a code are for the user of the latest Accept and the scopes of the record. */
  lemma TokensAnswerIs(cfg: Config, s: State, payload: TokenRequest, faults: Faults, dc: string)
    requires Inv(cfg, s) && payload.deviceCode == Some(dc) && AnswerPoll(cfg, s, payload, faults).1.Tokens?
    ensures Stored(cfg, s, dc) && dc in s.history && s.history[dc].accepted.Some?
    ensures AnswerPoll(cfg, s, payload, faults).1
         == Tokens(s.history[dc].accepted.value, RecordOf(cfg, s, dc).scopes)
  {
    hide Early;
    if UserCode(cfg, dc) in s.codes { assert CodeInv(cfg, s, UserCode(cfg, dc)); }
  }

  lemma TokensAnswerIff(cfg: Config, s: State, payload: TokenRequest, faults: Faults, dc: string)
    requires Inv(cfg, s) && dc in s.history && payload.deviceCode == Some(dc)
    ensures AnswerPoll(cfg, s, payload, faults).1.Tokens? <==>
              && Stored(cfg, s, dc)
              && var code := RecordOf(cfg, s, dc);
                 && code.exp >= s.now && payload.clientId == Some(code.clientId)
                     && payload.clientSecret == code.clientSecret
                 && s.history[dc].accepted.Some? && NoFaults(faults)
  {
    assert HistoryInv(cfg, s, dc);
    if Stored(cfg, s, dc) { assert CodeInv(cfg, s, UserCode(cfg, dc)); }
    hide Early;
  }

  /** Being in its lifetime, as the record of the code tells. */
  predicate InLifetime(cfg: Config, s: State, steps: seq<Step>, r: nat, n: nat)
    requires r < |steps| && n <= |steps|
  {
    Exec(cfg, s, steps, n).now <= Exec(cfg, s, steps, r).now + cfg.lifetime * SECOND
  }

  lemma {:induction false} StoredExpires(cfg: Config, s: State, steps: seq<Step>, r: nat, n: nat, dc: string)
    requires Init(s) && r < n <= |steps| && RequestedAt(cfg, s, steps, r, dc)
    ensures dc in Exec(cfg, s, steps, n).history && |Exec(cfg, s, steps, n).history[dc].times| > 0
    ensures Exec(cfg, s, steps, n).history[dc].times[0] == Exec(cfg, s, steps, r).now
  {
    RequestStores(cfg, Exec(cfg, s, steps, r), steps[r]);
    assert Exec(cfg, s, steps, r + 1) == Apply(cfg, Exec(cfg, s, steps, r), steps[r]);
    hide Apply, Exec, Stored;
    HistoryGrows(cfg, s, steps, r + 1, n, dc);
  }

  /**
   A poll gets tokens exactly when it comes in the lifetime of a code that somebody has accepted, nobody has
   declined, is unspent and not lost, with the id and secret of its request, and without a fault. The tokens
   are for the user who accepted last, and for the scopes of the request.
   */
  lemma TokensIff(cfg: Config, s: State, steps: seq<Step>, r: nat, n: nat, dc: string)
    requires Init(s) && r < n < |steps| && RequestedAt(cfg, s, steps, r, dc)
    requires steps[n].Poll? && steps[n].payload.deviceCode == Some(dc)
    ensures Grants(cfg, s, steps, n, dc) <==>
              && InLifetime(cfg, s, steps, r, n) && Valid(cfg, s, steps, r, n, dc)
              && Exec(cfg, s, steps, n).history[dc].accepted.Some?
              && Identifies(steps[n].payload, steps[r]) && NoFaults(steps[n].faults)
    ensures Grants(cfg, s, steps, n, dc) ==>
              PollAnswer(cfg, s, steps, n, dc) == Some(Tokens(Exec(cfg, s, steps, n).history[dc].accepted.value,
                                                              steps[r].scopes))
  {
    var t := Exec(cfg, s, steps, n);
    ExecKeepsInv(cfg, s, steps, n);
    StoredExpires(cfg, s, steps, r, n, dc);
    TokensAnswerIff(cfg, t, steps[n].payload, steps[n].faults, dc);
    if Stored(cfg, t, dc) { assert CodeInv(cfg, t, UserCode(cfg, dc)); }
    if InLifetime(cfg, s, steps, r, n) { StoredIffValid(cfg, s, steps, r, n, dc); }
    assert PollAnswer(cfg, s, steps, n, dc) == Some(AnswerPoll(cfg, t, steps[n].payload, steps[n].faults).1);
    hide Exec, AnswerPoll, Inv, Stored, Valid, Enabled;
    if Grants(cfg, s, steps, n, dc) { TokensAnswerIs(cfg, t, steps[n].payload, steps[n].faults, dc); }
  }

  /** Every refusal of a poll, by the record that it finds under its user code. */
  lemma PollRefusals(cfg: Config, s: State, payload: TokenRequest, faults: Faults, dc: string)
    requires payload.deviceCode == Some(dc) && |dc| >= cfg.userCodeLength
    ensures var reply, key := AnswerPoll(cfg, s, payload, faults).1, dc[..cfg.userCodeLength];
            var live := key in s.codes && s.codes[key].exp >= s.now;
            var own := live && payload.clientId == Some(s.codes[key].clientId);
            var proved := own && s.codes[key].deviceCode == dc && s.codes[key].clientSecret == payload.clientSecret;
            && (reply == ExpiredToken <==> !live)
            && (reply == InvalidRequest <==> live && !own)
            && (reply == UnauthorizedClient <==> own && !proved)
            && (reply == ServerError <==> proved && s.codes[key].verifiedBy.Some? && !NoFaults(faults))
            && (reply.Tokens? <==> proved && s.codes[key].verifiedBy.Some? && NoFaults(faults))
            && (reply in {Pending, SlowDown, AccessDenied} <==> proved && s.codes[key].verifiedBy.None?)
  {
    hide Early;
  }

  /** A poll without a device code, or with one that is too short. */
  lemma MalformedPolls(cfg: Config, s: State, payload: TokenRequest, faults: Faults)
    ensures payload.deviceCode.None? ==> AnswerPoll(cfg, s, payload, faults) == (s.codes, InvalidRequest)
    ensures AnswerPoll(cfg, s, payload, faults).1 == Aborted
       <==> payload.deviceCode.Some? && |payload.deviceCode.value| < cfg.userCodeLength
  {
    hide Early;
  }

  lemma StoredMeans(cfg: Config, s: State, dc: string)
    requires Inv(cfg, s) && Stored(cfg, s, dc)
    ensures |dc| >= cfg.userCodeLength && dc[..cfg.userCodeLength] in s.codes && dc in s.history
    ensures RecordOf(cfg, s, dc) == s.codes[dc[..cfg.userCodeLength]]
    ensures RecordOf(cfg, s, dc).verifiedBy == s.history[dc].accepted
  {
    assert CodeInv(cfg, s, UserCode(cfg, dc));
  }

  lemma RequestIsLong(cfg: Config, s: State, steps: seq<Step>, r: nat, dc: string)
    requires RequestedAt(cfg, s, steps, r, dc)
    ensures |dc| >= cfg.userCodeLength
  {
  }

  /**
   What a poll with a code in its lifetime is told, at any point of any run: while the code is valid, a foreign id is
   an invalid request and a wrong secret unauthorised; a rightful poll is told to wait until somebody has accepted. A
   code that has been declined, spent or lost is told that it has expired, or, if another code has taken its
   place, that it is not its own.
   */
  lemma PollAnswers(cfg: Config, s: State, steps: seq<Step>, r: nat, n: nat, dc: string)
    requires Init(s) && r < n < |steps| && RequestedAt(cfg, s, steps, r, dc) && InLifetime(cfg, s, steps, r, n)
    requires steps[n].Poll? && steps[n].payload.deviceCode == Some(dc)
    ensures var t, payload, request := Exec(cfg, s, steps, n), steps[n].payload, steps[r];
            var reply := AnswerPoll(cfg, t, payload, steps[n].faults).1;
            var own := payload.clientId == Some(request.clientId);
            if Valid(cfg, s, steps, r, n, dc) then
              && (reply == InvalidRequest <==> !own)
              && (reply == UnauthorizedClient <==> own && payload.clientSecret != request.clientSecret)
              && (reply in {Pending, SlowDown, AccessDenied} <==>
                    Identifies(payload, request) && t.history[dc].accepted.None?)
              && (reply == ServerError <==>
                    Identifies(payload, request) && t.history[dc].accepted.Some? && !NoFaults(steps[n].faults))
              && reply != ExpiredToken
            else
              && |dc| >= cfg.userCodeLength
              && var key := dc[..cfg.userCodeLength];
                 var taken := key in t.codes && t.codes[key].exp >= t.now;
                 && (reply == ExpiredToken <==> !taken)
                 && (reply == InvalidRequest <==> taken && payload.clientId != Some(t.codes[key].clientId))
                 && (reply == UnauthorizedClient <==> taken && payload.clientId == Some(t.codes[key].clientId))
  {
    var t := Exec(cfg, s, steps, n);
    StoredIffValid(cfg, s, steps, r, n, dc);
    RequestIsLong(cfg, s, steps, r, dc);
    ExecKeepsInv(cfg, s, steps, n);
    PollRefusals(cfg, t, steps[n].payload, steps[n].faults, dc);
    if Stored(cfg, t, dc) { StoredMeans(cfg, t, dc); }
    hide Exec, AnswerPoll, Inv, Valid, Enabled;
  }

  /** A user code that is no longer in its lifetime, or unknown, has nothing to decide on; any other has. */
  lemma DecisionAnswers(s: State, userCode: string, user: string, decision: Decision)
    ensures var (codes, reply) := AnswerVerify(s, userCode, user, decision);
            if userCode in s.codes && s.codes[userCode].exp >= s.now then
              var code := s.codes[userCode];
              && (decision.Accept? ==>
                    reply == Accepted(code.deviceCode) && codes == s.codes[userCode := code.(verifiedBy := Some(user))])
              && (decision.Decline? ==> reply == Declined(code.deviceCode) && codes == s.codes - {userCode})
              && (decision.Ask? ==> reply == Scopes(code.scopes) && codes == s.codes)
            else reply == NoSuchCode && codes == s.codes - {userCode}
  {
  }

  lemma DeniedMeans(cfg: Config, s: State, payload: TokenRequest, faults: Faults, dc: string)
    requires Inv(cfg, s) && payload.deviceCode == Some(dc) && AnswerPoll(cfg, s, payload, faults).1 == AccessDenied
    ensures Stored(cfg, s, dc) && dc in s.history && s.history[dc].accepted.None?
    ensures Stored(cfg, Apply(cfg, s, Poll(payload, faults)), dc)
  {
    if UserCode(cfg, dc) in s.codes { assert CodeInv(cfg, s, UserCode(cfg, dc)); }
    hide Early;
  }

  lemma {:induction false} TimeGoesOn(cfg: Config, s: State, steps: seq<Step>, m: nat, n: nat)
    requires m <= n <= |steps|
    ensures Exec(cfg, s, steps, m).now <= Exec(cfg, s, steps, n).now
    decreases n
  {
    hide Apply;
    if m < n {
      TimeGoesOn(cfg, s, steps, m, n - 1);
      TimePasses(cfg, s, steps, n - 1);
    }
  }

  /** A record that is stored after m steps has not been lost until then. */
  lemma NoLossBeforeDenial(cfg: Config, s: State, steps: seq<Step>, r: nat, m: nat, n: nat, dc: string)
    requires Init(s) && r < m < n <= |steps| && RequestedAt(cfg, s, steps, r, dc) && InLifetime(cfg, s, steps, r, n)
    requires Stored(cfg, Exec(cfg, s, steps, m + 1), dc)
    ensures Valid(cfg, s, steps, m, n, dc) <==> Valid(cfg, s, steps, r, n, dc)
  {
    hide Apply, Exec, Stored, LosesAt, Init, Enabled;
    TimeGoesOn(cfg, s, steps, m + 1, n);
    StoredIffValid(cfg, s, steps, r, m + 1, dc);
  }

  /**
   Access denied is not final. Whatever happens in between, a later poll gets tokens under exactly the
   conditions of any other code: the record is still there after the denial, and nobody had accepted before.
   */
  lemma DeniedCodeSucceedsIff(cfg: Config, s: State, steps: seq<Step>, r: nat, m: nat, n: nat, dc: string)
    requires Init(s) && r < m < n < |steps| && RequestedAt(cfg, s, steps, r, dc)
    requires PollAnswer(cfg, s, steps, m, dc) == Some(AccessDenied)
    requires steps[n].Poll? && steps[n].payload.deviceCode == Some(dc)
    ensures Stored(cfg, Exec(cfg, s, steps, m + 1), dc)
    ensures dc in Exec(cfg, s, steps, m).history && Exec(cfg, s, steps, m).history[dc].accepted.None?
    ensures Grants(cfg, s, steps, n, dc) <==>
              && InLifetime(cfg, s, steps, r, n) && Valid(cfg, s, steps, m, n, dc)
              && Exec(cfg, s, steps, n).history[dc].accepted.Some?
              && Identifies(steps[n].payload, steps[r]) && NoFaults(steps[n].faults)
  {
    var t := Exec(cfg, s, steps, m);
    ExecKeepsInv(cfg, s, steps, m);
    DeniedMeans(cfg, t, steps[m].payload, steps[m].faults, dc);
    assert Exec(cfg, s, steps, m + 1) == Apply(cfg, t, steps[m]);
    hide Apply, AnswerPoll, Inv, Stored, Enabled;
    TokensIff(cfg, s, steps, r, n, dc);
    if InLifetime(cfg, s, steps, r, n) {
      NoLossBeforeDenial(cfg, s, steps, r, m, n, dc);
    }
  }

  // ---------------------------------------------------------------------------------------------
  // A client that does not wait at all

  predicate PollsAtOnce(steps: seq<Step>, n: nat)
    requires n <= |steps|
  {
    && n > 0 && steps[0].Request?
    && forall i :: 1 <= i < n ==>
         steps[i].Poll? && steps[i].payload == TokenRequest(Some(steps[0].deviceCode), Some(steps[0].clientId),
             steps[0].clientSecret)
  }

  predicate Warned(cfg: Config, s: State, request: Step, t: State, polls: nat)
    requires request.Request?
  {
    && t.now == s.now && Stored(cfg, t, request.deviceCode)
    && RecordOf(cfg, t, request.deviceCode) == NewCode(cfg, s, request).(warnings := polls % 256)
  }

  lemma OneMorePoll(cfg: Config, s: State, request: Step, t: State, polls: nat, faults: Faults)
    requires request.Request? && |request.deviceCode| >= cfg.userCodeLength && cfg.interval >= 1
    requires Warned(cfg, s, request, t, polls)
    ensures var payload := TokenRequest(Some(request.deviceCode), Some(request.clientId), request.clientSecret);
            && AnswerPoll(cfg, t, payload, faults).1 == (if (polls + 1) % 256 >= 3 then AccessDenied else SlowDown)
            && Warned(cfg, s, request, Apply(cfg, t, Poll(payload, faults)), polls + 1)
  {
  }

  lemma {:induction false} PolledAtOnce(cfg: Config, s: State, steps: seq<Step>, n: nat)
    requires Init(s) && 0 < n <= |steps| && PollsAtOnce(steps, n)
    requires |steps[0].deviceCode| >= cfg.userCodeLength && cfg.interval >= 1
    ensures Warned(cfg, s, steps[0], Exec(cfg, s, steps, n), n - 1)
  {
    assert Exec(cfg, s, steps, 0) == s;
    assert Exec(cfg, s, steps, n) == Apply(cfg, Exec(cfg, s, steps, n - 1), steps[n - 1]);
    hide Exec;
    if n == 1 {
      RequestStores(cfg, s, steps[0]);
    } else {
      hide Apply, Warned, Init;
      PolledAtOnce(cfg, s, steps, n - 1);
      OneMorePoll(cfg, s, steps[0], Exec(cfg, s, steps, n - 1), n - 2, steps[n - 1].faults);
    }
  }

  /**
   The warning counter wraps around: of the polls of a client that never waits, those whose number is 0, 1 or 2
   modulo 256 are told slow_down, the 256th as well as the first, and all others access_denied.
   */
  lemma WarningsWrapAround(cfg: Config, s: State, steps: seq<Step>, n: nat)
    requires Init(s) && 0 < n < |steps| && PollsAtOnce(steps, n + 1)
    requires |steps[0].deviceCode| >= cfg.userCodeLength && cfg.interval >= 1
    ensures PollAnswer(cfg, s, steps, n, steps[0].deviceCode) == Some(if n % 256 >= 3 then AccessDenied else SlowDown)
  {
    hide Exec, Apply, Warned, Init;
    PolledAtOnce(cfg, s, steps, n);
    OneMorePoll(cfg, s, steps[0], Exec(cfg, s, steps, n), n - 1, steps[n].faults);
    hide AnswerPoll;
  }
}
