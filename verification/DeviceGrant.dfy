/**
 The device authorization grant (RFC 8628 sections 3.3 to 3.5): the request for a code, the user's
 decision, the polling of the device, and the loop of the polling client. Times are nanoseconds.
 */
module DeviceGrant {
  import opened Wrappers
  import Text

  const SECOND: int := 1_000_000_000
  const TOLERANCE: int := 500_000_000

  datatype Config = Config(interval: nat, lifetime: nat, userCodeLength: nat)

  datatype Code = Code(clientId: string, deviceCode: string, verifiedBy: Option<string>, exp: int, lastPoll: int,
                       scopes: Option<string>, clientSecret: Option<string>, warnings: nat)

  /** What has been observed about one device code. */
  datatype History = History(
    times: seq<int>,          // its creation, and every poll answered pending, slow_down or access_denied
    accepted: Option<string>, // the user of the most recent Accept
    declined: bool,
    grants: nat,              // token sets handed out
    slowDowns: nat,           // slow_down answers
    ended: bool)              // a poll got an answer after which the client stops

  datatype State = State(codes: map<string, Code>, now: int, history: map<string, History>)

  datatype Decision = Accept | Decline | Ask

  /** The faults a poll can meet in the database once the user has accepted. */
  datatype Faults = Faults(noUser: bool, noClient: bool, noInsert: bool, noTokens: bool)

  datatype TokenRequest = TokenRequest(deviceCode: Option<string>, clientId: Option<string>,
      clientSecret: Option<string>)

  /** A registered client; a secret that is stored but cannot be decrypted is `Unreadable`. */
  datatype Secret = Unreadable | Readable(secret: Option<string>)

  datatype Client = Client(id: string, enabled: bool, deviceFlow: bool, scopes: string, secret: Secret)

  datatype Refusal = UnknownClient | Disabled | FlowNotAllowed | InvalidScope | WrongSecret

  datatype Step =
    | Request(clientId: string, clientSecret: Option<string>, scopes: Option<string>, deviceCode: string)
    | Verify(userCode: string, user: string, decision: Decision)
    | Poll(payload: TokenRequest, faults: Faults)
    | Evict(userCode: string)     // the cache runs full
    | Tick(nanos: nat)

  datatype Reply =
    | Done | Created
    | Accepted(deviceCode: string) | Declined(deviceCode: string) | Scopes(scopes: Option<string>) | NoSuchCode
    | Pending | SlowDown | AccessDenied | ExpiredToken | InvalidRequest | UnauthorizedClient | ServerError
    | Tokens(user: string, scopes: Option<string>)
    | Aborted     // the device code is shorter than a user code

  /** The first characters of the device code, under which the record is cached. */
  function UserCode(cfg: Config, deviceCode: string): string {
    if |deviceCode| < cfg.userCodeLength then deviceCode else deviceCode[..cfg.userCodeLength]
  }

  /** An expired record is deleted when it is looked up. */
  function Find(s: State, userCode: string): (map<string, Code>, Option<Code>) {
    if userCode !in s.codes then (s.codes, None)
    else if s.codes[userCode].exp < s.now then (s.codes - {userCode}, None)
    else (s.codes, Some(s.codes[userCode]))
  }

  predicate Early(cfg: Config, previous: int, now: int) {
    now - cfg.interval * SECOND + TOLERANCE < previous
  }

  /** The counter is a u8 and wraps around. */
  function Bump(warnings: nat): nat {
    (warnings + 1) % 256
  }

  function Polled(cfg: Config, code: Code, now: int): (Code, Reply) {
    if !Early(cfg, code.lastPoll, now) then (code.(lastPoll := now), Pending)
    else
      (code.(lastPoll := now, warnings := Bump(code.warnings)),
       if Bump(code.warnings) >= 3 then AccessDenied else SlowDown)
  }

  /** Whether the third early poll has deleted the record before the verification is looked at. */
  predicate Struck(cfg: Config, code: Code, now: int) {
    Early(cfg, code.lastPoll, now) && Bump(code.warnings) >= 3
  }

  function AnswerPoll(cfg: Config, s: State, poll: TokenRequest, faults: Faults): (map<string, Code>, Reply) {
    if poll.deviceCode.None? then (s.codes, InvalidRequest)
    else if |poll.deviceCode.value| < cfg.userCodeLength then (s.codes, Aborted)
    else
      var key := UserCode(cfg, poll.deviceCode.value);
      var (codes, found) := Find(s, key);
      match found
      case None => (codes, ExpiredToken)
      case Some(code) =>
        if Some(code.clientId) != poll.clientId then (codes, InvalidRequest)
        else if code.deviceCode != poll.deviceCode.value then (codes, UnauthorizedClient)
        else if code.clientSecret != poll.clientSecret then (codes, UnauthorizedClient)
        else if code.verifiedBy.None? then
          var (saved, reply) := Polled(cfg, code, s.now);
          (codes[key := saved], reply)
        else if faults.noUser || faults.noClient then
          (if Struck(cfg, code, s.now) then codes - {key} else codes, ServerError)
        else
          (codes - {key},
           if faults.noInsert || faults.noTokens then ServerError else Tokens(code.verifiedBy.value, code.scopes))
  }

  function AnswerVerify(s: State, userCode: string, user: string, decision: Decision): (map<string, Code>, Reply) {
    var (codes, found) := Find(s, userCode);
    match found
    case None => (codes, NoSuchCode)
    case Some(code) =>
      match decision
      case Accept => (codes[userCode := code.(verifiedBy := Some(user))], Accepted(code.deviceCode))
      case Decline => (codes - {userCode}, Declined(code.deviceCode))
      case Ask => (codes, Scopes(code.scopes))
  }

  function NewCode(cfg: Config, s: State, step: Step): Code
    requires step.Request?
  {
    Code(step.clientId, step.deviceCode, None, s.now + cfg.lifetime * SECOND, s.now, step.scopes, step.clientSecret, 0)
  }

  function Answer(cfg: Config, s: State, step: Step): (map<string, Code>, Reply) {
    match step
    case Request(_, _, _, deviceCode) => (s.codes[UserCode(cfg, deviceCode) := NewCode(cfg, s, step)], Created)
    case Verify(userCode, user, decision) => AnswerVerify(s, userCode, user, decision)
    case Poll(payload, faults) => AnswerPoll(cfg, s, payload, faults)
    case Evict(userCode) => (s.codes - {userCode}, Done)
    case Tick(_) => (s.codes, Done)
  }

  /** The history of one code after a poll, from the answer alone. */
  function AfterPoll(h: History, now: int, reply: Reply): History {
    match reply
    case Pending => h.(times := h.times + [now])
    case SlowDown => h.(times := h.times + [now], slowDowns := h.slowDowns + 1)
    case AccessDenied => h.(times := h.times + [now], ended := true)
    case Tokens(_, _) => h.(grants := h.grants + 1, ended := true)
    case _ => h.(ended := true)
  }

  /** The history after a step, from the step and its answer alone. */
  function Record(s: State, step: Step, reply: Reply): map<string, History> {
    match step
    case Request(_, _, _, deviceCode) => s.history[deviceCode := History([s.now], None, false, 0, 0, false)]
    case Verify(_, user, _) =>
      (match reply
       case Accepted(dc) =>
         if dc in s.history then s.history[dc := s.history[dc].(accepted := Some(user))] else s.history
       case Declined(dc) => if dc in s.history then s.history[dc := s.history[dc].(declined := true)] else s.history
       case _ => s.history)
    case Poll(payload, _) =>
      var dc := payload.deviceCode;
      if dc.Some? && dc.value in s.history
      then s.history[dc.value := AfterPoll(s.history[dc.value], s.now, reply)] else s.history
    case _ => s.history
  }

  /** Device codes are random: a new one has never been seen. */
  predicate Enabled(cfg: Config, s: State, step: Step) {
    step.Request? ==> step.deviceCode !in s.history && |step.deviceCode| >= cfg.userCodeLength
  }

  function Apply(cfg: Config, s: State, step: Step): State {
    if !Enabled(cfg, s, step) then s
    else
      var (codes, reply) := Answer(cfg, s, step);
      State(codes, if step.Tick? then s.now + step.nanos else s.now, Record(s, step, reply))
  }

  /** The state after the first n steps of a run; a step that is not enabled does not happen. */
  function Exec(cfg: Config, s: State, steps: seq<Step>, n: nat): State
    requires n <= |steps|
  {
    if n == 0 then s else Apply(cfg, Exec(cfg, s, steps, n - 1), steps[n - 1])
  }

  predicate Init(s: State) {
    s.codes == map[] && s.history == map[]
  }

  /** How many of the recorded polls came too soon after the one before. */
  function EarlyPolls(cfg: Config, times: seq<int>): nat {
    if |times| <= 1 then 0
    else EarlyPolls(cfg, times[..|times| - 1])
         + if times[|times| - 1] - times[|times| - 2] < cfg.interval * 1_000_000_000 - 500_000_000 then 1 else 0
  }

  predicate ScopesAllowed(client: Client, scope: Option<string>) {
    scope.Some? ==> forall part :: part in Text.Split(scope.value, ' ') ==> Text.Contains(client.scopes, part)
  }

  /**
   A client may start the flow when it is known, enabled and registered for it, asks for its scopes only, and
   knows its secret.
   */
  predicate MayStart(client: Option<Client>, scope: Option<string>, secret: Option<string>) {
    && client.Some? && client.value.enabled && client.value.deviceFlow && ScopesAllowed(client.value, scope)
    && (client.value.secret.Readable? ==> client.value.secret.secret == secret)
  }

  // ---------------------------------------------------------------------------------------------
  // The handlers

  class DeviceServer {
    const cfg: Config
    var codes: map<string, Code>
    var now: int
    ghost var history: map<string, History>

    ghost function Contents(): State
      reads this
    {
      State(codes, now, history)
    }

    /** `DeviceAuthCode::find`. */
    method FindCode(userCode: string) returns (code: Option<Code>)
      modifies this`codes
      ensures (codes, code) == Find(old(Contents()), userCode)
    {
      if userCode !in codes { return None; }
      if codes[userCode].exp < now {
        codes := codes - {userCode};
        return None;
      }
      code := Some(codes[userCode]);
    }

    /** `post_device_auth`, after the rate limit. */
    method PostDeviceAuth(client: Option<Client>, scope: Option<string>, secret: Option<string>, deviceCode: string)
      returns (refusal: Option<Refusal>)
      requires deviceCode !in history && |deviceCode| >= cfg.userCodeLength
      modifies this
      ensures refusal.None? <==> MayStart(client, scope, secret)
      ensures refusal == Some(UnknownClient) <==> client.None?
      ensures refusal == Some(Disabled) <==> client.Some? && !client.value.enabled
      ensures refusal == Some(FlowNotAllowed) <==> client.Some? && client.value.enabled && !client.value.deviceFlow
      ensures refusal == Some(InvalidScope) <==>
                client.Some? && client.value.enabled && client.value.deviceFlow && !ScopesAllowed(client.value, scope)
      ensures refusal == Some(WrongSecret) <==>
                client.Some? && client.value.enabled && client.value.deviceFlow && ScopesAllowed(client.value, scope)
                && client.value.secret.Readable? && client.value.secret.secret != secret
      ensures Contents() == if refusal.Some? then old(Contents())
                            else Apply(cfg, old(Contents()), Request(client.value.id, secret, scope, deviceCode))
    {
      if client.None? { return Some(UnknownClient); }
      var c := client.value;
      if !c.enabled { return Some(Disabled); }
      if !c.deviceFlow { return Some(FlowNotAllowed); }
      if scope.Some? {
        var parts := Text.Split(scope.value, ' ');
        for i := 0 to |parts|
          invariant forall k :: 0 <= k < i ==> Text.Contains(c.scopes, parts[k])
        {
          if !Text.Contains(c.scopes, parts[i]) { return Some(InvalidScope); }
        }
      }
      if c.secret.Readable? && c.secret.secret != secret { return Some(WrongSecret); }
      var code := Code(c.id, deviceCode, None, now + cfg.lifetime * SECOND, now, scope, secret, 0);
      codes := codes[UserCode(cfg, deviceCode) := code];
      refusal := None;
      history := Record(old(Contents()), Request(c.id, secret, scope, deviceCode), Created);
    }

    method HandlePoll(poll: TokenRequest, faults: Faults) returns (reply: Reply)
      modifies this`codes
      ensures (codes, reply) == AnswerPoll(cfg, old(Contents()), poll, faults)
    {
      if poll.deviceCode.None? { return InvalidRequest; }
      var deviceCode := poll.deviceCode.value;
      if |deviceCode| < cfg.userCodeLength { return Aborted; }
      var key := deviceCode[..cfg.userCodeLength];
      var found := FindCode(key);
      if found.None? { return ExpiredToken; }
      var code := found.value;
      if Some(code.clientId) != poll.clientId { return InvalidRequest; }
      if code.deviceCode != deviceCode { return UnauthorizedClient; }
      if code.clientSecret != poll.clientSecret { return UnauthorizedClient; }

      ghost var before := codes;
      var error := Pending;
      var threshold := now - cfg.interval * SECOND + TOLERANCE;
      if threshold < code.lastPoll {
        code := code.(warnings := (code.warnings + 1) % 256);
        if code.warnings >= 3 {
          error := AccessDenied;
          codes := codes - {key};
        } else {
          error := SlowDown;
        }
      }

      if code.verifiedBy.Some? {
        if faults.noUser { return ServerError; }
        if faults.noClient { return ServerError; }
        codes := codes - {key};
        assert codes == before - {key};
        if faults.noInsert { return ServerError; }
        if faults.noTokens { return ServerError; }
        return Tokens(code.verifiedBy.value, code.scopes);
      }

      code := code.(lastPoll := now);
      codes := codes[key := code];
      reply := error;
      assert codes == before[key := code];
    }

    /** `grant_type_device_code`. */
    method GrantTypeDeviceCode(poll: TokenRequest, faults: Faults) returns (reply: Reply)
      modifies this
      ensures Contents() == Apply(cfg, old(Contents()), Poll(poll, faults))
      ensures reply == Answer(cfg, old(Contents()), Poll(poll, faults)).1
    {
      reply := HandlePoll(poll, faults);
      history := Record(old(Contents()), Poll(poll, faults), reply);
    }

    /** `post_device_verify`, for a user with an authenticated session. */
    method PostDeviceVerify(userCode: string, user: string, decision: Decision) returns (reply: Reply)
      modifies this
      ensures Contents() == Apply(cfg, old(Contents()), Verify(userCode, user, decision))
      ensures reply == Answer(cfg, old(Contents()), Verify(userCode, user, decision)).1
    {
      var found := FindCode(userCode);
      if found.None? {
        reply := NoSuchCode;
      } else {
        var code := found.value;
        match decision
        case Accept =>
          codes := codes[userCode := code.(verifiedBy := Some(user))];
          reply := Accepted(code.deviceCode);
        case Decline =>
          codes := codes - {userCode};
          reply := Declined(code.deviceCode);
        case Ask =>
          reply := Scopes(code.scopes);
      }
      history := Record(old(Contents()), Verify(userCode, user, decision), reply);
    }
  }

  // ---------------------------------------------------------------------------------------------
  // What every step keeps

  /** A stored record agrees with what has been observed about its device code. */
  predicate CodeInv(cfg: Config, s: State, key: string)
    requires key in s.codes
  {
    var code := s.codes[key];
    && code.deviceCode in s.history && key == UserCode(cfg, code.deviceCode)
    && var h := s.history[code.deviceCode];
       && h.grants == 0 && !h.declined && h.accepted == code.verifiedBy
       && |h.times| > 0 && h.times[|h.times| - 1] == code.lastPoll
       && code.exp == h.times[0] + cfg.lifetime * SECOND
       && code.warnings == EarlyPolls(cfg, h.times) % 256
  }

  predicate HistoryInv(cfg: Config, s: State, dc: string)
    requires dc in s.history
  {
    var h := s.history[dc];
    && h.grants <= 1 && |dc| >= cfg.userCodeLength && |h.times| > 0 && h.times[|h.times| - 1] <= s.now
    && (forall i :: 0 < i < |h.times| ==> h.times[i] <= h.times[0] + cfg.lifetime * SECOND)
  }

  predicate Inv(cfg: Config, s: State) {
    && (forall key :: key in s.codes ==> CodeInv(cfg, s, key))
    && (forall dc :: dc in s.history ==> HistoryInv(cfg, s, dc))
  }

  /** Records whose device code's history is untouched stay consistent. */
  lemma FrameCodeInv(cfg: Config, s: State, t: State, key: string)
    requires key in s.codes && key in t.codes && t.codes[key] == s.codes[key] && CodeInv(cfg, s, key)
    requires s.codes[key].deviceCode in t.history
    requires t.history[s.codes[key].deviceCode] == s.history[s.codes[key].deviceCode]
    ensures CodeInv(cfg, t, key)
  {
  }

  lemma RequestKeepsInv(cfg: Config, s: State, step: Step)
    requires Inv(cfg, s) && Enabled(cfg, s, step) && step.Request?
    ensures Inv(cfg, Apply(cfg, s, step))
  {
    var t := Apply(cfg, s, step);
    forall key | key in t.codes ensures CodeInv(cfg, t, key) {
      if key != UserCode(cfg, step.deviceCode) { FrameCodeInv(cfg, s, t, key); }
    }
  }

  lemma VerifyKeepsCodeInv(cfg: Config, s: State, step: Step, key: string)
    requires step.Verify? && key in s.codes && CodeInv(cfg, s, key) && key in Apply(cfg, s, step).codes
    requires step.userCode in s.codes ==> CodeInv(cfg, s, step.userCode)
    ensures CodeInv(cfg, Apply(cfg, s, step), key)
  {
  }

  lemma VerifyKeepsInv(cfg: Config, s: State, step: Step)
    requires Inv(cfg, s) && step.Verify?
    ensures Inv(cfg, Apply(cfg, s, step))
  {
    var t := Apply(cfg, s, step);
    assert t.codes.Keys <= s.codes.Keys && t.history.Keys == s.history.Keys && t.now == s.now;
    forall key | key in t.codes ensures CodeInv(cfg, t, key) {
      VerifyKeepsCodeInv(cfg, s, step, key);
    }
    forall dc | dc in t.history ensures HistoryInv(cfg, t, dc) {
      assert HistoryInv(cfg, s, dc);
      assert t.history[dc].times == s.history[dc].times && t.history[dc].grants == s.history[dc].grants;
    }
  }

  lemma PollApplied(cfg: Config, s: State, step: Step, dc: string)
    requires step.Poll? && step.payload.deviceCode == Some(dc) && dc in s.history
    ensures var (codes, reply) := AnswerPoll(cfg, s, step.payload, step.faults);
            Apply(cfg, s, step) == State(codes, s.now, s.history[dc := AfterPoll(s.history[dc], s.now, reply)])
  {
    hide AnswerPoll, AfterPoll;
  }

  predicate Recorded(reply: Reply) {
    reply.Pending? || reply.SlowDown? || reply.AccessDenied?
  }

  lemma AfterPollKeeps(h: History, now: int, reply: Reply)
    ensures var after := AfterPoll(h, now, reply);
            && after.accepted == h.accepted && after.declined == h.declined
            && (!reply.Tokens? ==> after.grants == h.grants)
            && after.times == if Recorded(reply) then h.times + [now] else h.times
  {
  }

  /** A poll with another device code leaves a stored record alone; one with its own may update it while it is open. */
  lemma PollOnCode(cfg: Config, s: State, payload: TokenRequest, faults: Faults, key: string)
    requires key in s.codes && key == UserCode(cfg, s.codes[key].deviceCode)
              && key in AnswerPoll(cfg, s, payload, faults).0
    ensures var after, reply := AnswerPoll(cfg, s, payload, faults).0[key], AnswerPoll(cfg, s, payload, faults).1;
            if payload.deviceCode == Some(s.codes[key].deviceCode) && Recorded(reply)
            then s.codes[key].verifiedBy.None? && (after, reply) == Polled(cfg, s.codes[key], s.now)
            else after == s.codes[key]
    ensures payload.deviceCode == Some(s.codes[key].deviceCode) ==> !AnswerPoll(cfg, s, payload, faults).1.Tokens?
  {
    hide Early;
  }

  lemma NextEarlyPolls(cfg: Config, times: seq<int>, now: int)
    requires |times| > 0
    ensures EarlyPolls(cfg, times + [now])
         == EarlyPolls(cfg, times) + if Early(cfg, times[|times| - 1], now) then 1 else 0
  {
    assert (times + [now])[..|times|] == times;
    hide Early;
  }

  lemma OwnPollKeepsCodeInv(cfg: Config, s: State, step: Step, key: string)
    requires step.Poll? && key in s.codes && CodeInv(cfg, s, key) && key in Apply(cfg, s, step).codes
    requires step.payload.deviceCode == Some(s.codes[key].deviceCode)
    ensures CodeInv(cfg, Apply(cfg, s, step), key)
  {
    hide AnswerPoll, Apply, Early, EarlyPolls, UserCode, AfterPoll;
    var dc := s.codes[key].deviceCode;
    var reply := AnswerPoll(cfg, s, step.payload, step.faults).1;
    PollApplied(cfg, s, step, dc);
    PollOnCode(cfg, s, step.payload, step.faults, key);
    NextEarlyPolls(cfg, s.history[dc].times, s.now);
    AfterPollKeeps(s.history[dc], s.now, reply);
  }

  lemma PollKeepsCodeInv(cfg: Config, s: State, step: Step, key: string)
    requires step.Poll? && key in s.codes && CodeInv(cfg, s, key) && key in Apply(cfg, s, step).codes
    ensures CodeInv(cfg, Apply(cfg, s, step), key)
  {
    PollOnCode(cfg, s, step.payload, step.faults, key);
    if step.payload.deviceCode == Some(s.codes[key].deviceCode) {
      OwnPollKeepsCodeInv(cfg, s, step, key);
    } else {
      hide AnswerPoll, EarlyPolls;
      FrameCodeInv(cfg, s, Apply(cfg, s, step), key);
    }
  }

  lemma AnswerGrants(cfg: Config, s: State, payload: TokenRequest, faults: Faults, dc: string)
    requires Inv(cfg, s) && payload.deviceCode == Some(dc)
    ensures var reply := AnswerPoll(cfg, s, payload, faults).1;
            && (reply.Pending? || reply.SlowDown? || reply.AccessDenied? || reply.Tokens? || reply.ServerError? ==>
                  && dc in s.history && s.history[dc].grants == 0 && !s.history[dc].declined
                  && UserCode(cfg, dc) in s.codes && s.codes[UserCode(cfg, dc)].deviceCode == dc
                  && |s.history[dc].times| > 0 && s.now <= s.history[dc].times[0] + cfg.lifetime * SECOND)
            && (reply.Tokens? ==> s.history[dc].accepted == Some(reply.user))
  {
    var key := UserCode(cfg, dc);
    if key in s.codes { assert CodeInv(cfg, s, key); }
  }

  lemma PollKeepsHistoryInv(cfg: Config, s: State, step: Step, dc: string)
    requires step.Poll? && Inv(cfg, s) && dc in s.history && HistoryInv(cfg, s, dc)
    ensures HistoryInv(cfg, Apply(cfg, s, step), dc)
  {
    if step.payload.deviceCode == Some(dc) {
      AnswerGrants(cfg, s, step.payload, step.faults, dc);
    }
    hide AnswerPoll, Inv, UserCode;
  }

  lemma PollKeepsInv(cfg: Config, s: State, step: Step)
    requires Inv(cfg, s) && step.Poll?
    ensures Inv(cfg, Apply(cfg, s, step))
  {
    var t := Apply(cfg, s, step);
    forall key | key in t.codes ensures CodeInv(cfg, t, key) {
      assert CodeInv(cfg, s, key);
      PollKeepsCodeInv(cfg, s, step, key);
    }
    forall dc | dc in t.history ensures HistoryInv(cfg, t, dc) {
      assert HistoryInv(cfg, s, dc);
      PollKeepsHistoryInv(cfg, s, step, dc);
    }
  }

  lemma ApplyKeepsInv(cfg: Config, s: State, step: Step)
    requires Inv(cfg, s)
    ensures Inv(cfg, Apply(cfg, s, step))
  {
    if Enabled(cfg, s, step) {
      match step
      case Request(_, _, _, _) => RequestKeepsInv(cfg, s, step);
      case Verify(_, _, _) => VerifyKeepsInv(cfg, s, step);
      case Poll(_, _) => PollKeepsInv(cfg, s, step);
      case _ =>
        var t := Apply(cfg, s, step);
        forall key | key in t.codes ensures CodeInv(cfg, t, key) { FrameCodeInv(cfg, s, t, key); }
        forall dc | dc in t.history ensures HistoryInv(cfg, t, dc) { assert HistoryInv(cfg, s, dc); }
    }
  }

  lemma {:induction false} ExecKeepsInv(cfg: Config, s: State, steps: seq<Step>, n: nat)
    requires Init(s) && n <= |steps|
    ensures Inv(cfg, Exec(cfg, s, steps, n))
  {
    if n != 0 {
      ExecKeepsInv(cfg, s, steps, n - 1);
      ApplyKeepsInv(cfg, Exec(cfg, s, steps, n - 1), steps[n - 1]);
    }
  }

  // ---------------------------------------------------------------------------------------------
  // Main results, for every run and every step n of it

  /** The answer to a poll with the given device code at step n, or nothing if step n is none. */
  function PollAnswer(cfg: Config, s: State, steps: seq<Step>, n: nat, dc: string): Option<Reply> {
    if n < |steps| && steps[n].Poll? && steps[n].payload.deviceCode == Some(dc)
    then Some(Answer(cfg, Exec(cfg, s, steps, n), steps[n]).1) else None
  }

  predicate Grants(cfg: Config, s: State, steps: seq<Step>, n: nat, dc: string) {
    var answer := PollAnswer(cfg, s, steps, n, dc);
    answer.Some? && answer.value.Tokens?
  }

  /**
   A token set goes to the user of the most recent Accept of that very device code, within its
   lifetime, and only if the code has never been declined and has never yielded a token set before.
   */
  lemma TokensOnlyAfterAccept(cfg: Config, s: State, steps: seq<Step>, n: nat, dc: string)
    requires Init(s) && Grants(cfg, s, steps, n, dc)
    ensures var t := Exec(cfg, s, steps, n);
            && dc in t.history && t.history[dc].grants == 0 && !t.history[dc].declined
            && t.history[dc].accepted == Some(PollAnswer(cfg, s, steps, n, dc).value.user)
            && |t.history[dc].times| > 0 && t.now <= t.history[dc].times[0] + cfg.lifetime * SECOND
  {
    ExecKeepsInv(cfg, s, steps, n);
    AnswerGrants(cfg, Exec(cfg, s, steps, n), steps[n].payload, steps[n].faults, dc);
  }

  predicate Grows(a: History, b: History) {
    a.grants <= b.grants && (a.declined ==> b.declined) && a.times <= b.times
  }

  lemma ApplyGrows(cfg: Config, s: State, step: Step, dc: string)
    requires dc in s.history
    ensures dc in Apply(cfg, s, step).history && Grows(s.history[dc], Apply(cfg, s, step).history[dc])
    ensures s.now <= Apply(cfg, s, step).now
  {
  }

  lemma {:induction false} HistoryGrows(cfg: Config, s: State, steps: seq<Step>, m: nat, n: nat, dc: string)
    requires m <= n <= |steps| && dc in Exec(cfg, s, steps, m).history
    ensures dc in Exec(cfg, s, steps, n).history
    ensures Grows(Exec(cfg, s, steps, m).history[dc], Exec(cfg, s, steps, n).history[dc])
    decreases n
  {
    hide Apply;
    if m < n {
      HistoryGrows(cfg, s, steps, m, n - 1, dc);
      ApplyGrows(cfg, Exec(cfg, s, steps, n - 1), steps[n - 1], dc);
    }
  }

  /** A device code yields at most one token set. */
  lemma TokensAtMostOnce(cfg: Config, s: State, steps: seq<Step>, m: nat, n: nat, dc: string)
    requires Init(s) && m < n && Grants(cfg, s, steps, m, dc)
    ensures !Grants(cfg, s, steps, n, dc)
  {
    TokensOnlyAfterAccept(cfg, s, steps, m, dc);
    assert Exec(cfg, s, steps, m + 1) == Apply(cfg, Exec(cfg, s, steps, m), steps[m]);
    assert Exec(cfg, s, steps, m + 1).history[dc].grants == 1;
    if Grants(cfg, s, steps, n, dc) {
      TokensOnlyAfterAccept(cfg, s, steps, n, dc);
      HistoryGrows(cfg, s, steps, m + 1, n, dc);
    }
  }

  /**
   After a Decline a poll is told that the code has expired or is not its own: no tokens, and no access_denied
   either.
   */
  lemma AfterDecline(cfg: Config, s: State, steps: seq<Step>, m: nat, n: nat, dc: string)
    requires Init(s) && m < n < |steps| && steps[m].Verify?
    requires Answer(cfg, Exec(cfg, s, steps, m), steps[m]).1 == Declined(dc)
    requires PollAnswer(cfg, s, steps, n, dc).Some?
    ensures PollAnswer(cfg, s, steps, n, dc).value in {ExpiredToken, UnauthorizedClient, InvalidRequest}
  {
    var a, b := Exec(cfg, s, steps, m), Exec(cfg, s, steps, n);
    ExecKeepsInv(cfg, s, steps, m);
    ExecKeepsInv(cfg, s, steps, n);
    assert CodeInv(cfg, a, steps[m].userCode) && HistoryInv(cfg, a, dc);
    assert Exec(cfg, s, steps, m + 1) == Apply(cfg, a, steps[m]);
    assert Exec(cfg, s, steps, m + 1).history[dc].declined;
    HistoryGrows(cfg, s, steps, m + 1, n, dc);
    hide Exec, Apply;
    AnswerGrants(cfg, b, steps[n].payload, steps[n].faults, dc);
  }

  /** The stored record a poll with correct credentials meets. */
  predicate Meets(cfg: Config, s: State, payload: TokenRequest) {
    && payload.deviceCode.Some? && |payload.deviceCode.value| >= cfg.userCodeLength
    && UserCode(cfg, payload.deviceCode.value) in s.codes
    && var code := s.codes[UserCode(cfg, payload.deviceCode.value)];
       && code.deviceCode == payload.deviceCode.value && code.exp >= s.now
       && payload.clientId == Some(code.clientId) && payload.clientSecret == code.clientSecret
  }

  function ByHistory(cfg: Config, times: seq<int>, now: int): Reply
    requires |times| > 0
  {
    if now - times[|times| - 1] >= cfg.interval * 1_000_000_000 - 500_000_000 then Pending
    else if EarlyPolls(cfg, times + [now]) % 256 >= 3 then AccessDenied
    else SlowDown
  }

  lemma PolledWhileOpen(cfg: Config, s: State, payload: TokenRequest, faults: Faults)
    requires Meets(cfg, s, payload) && s.codes[UserCode(cfg, payload.deviceCode.value)].verifiedBy.None?
    ensures AnswerPoll(cfg, s, payload, faults).1
         == Polled(cfg, s.codes[UserCode(cfg, payload.deviceCode.value)], s.now).1
  {
  }

  lemma PollByHistory(cfg: Config, s: State, payload: TokenRequest, faults: Faults, dc: string)
    requires payload.deviceCode == Some(dc) && Meets(cfg, s, payload) && CodeInv(cfg, s, UserCode(cfg, dc))
    requires dc in s.history && s.history[dc].accepted.None?
    ensures |s.history[dc].times| > 0
    ensures AnswerPoll(cfg, s, payload, faults).1 == ByHistory(cfg, s.history[dc].times, s.now)
    ensures Apply(cfg, s, Poll(payload, faults)).history[dc].times == s.history[dc].times + [s.now]
  {
    var times := s.history[dc].times;
    assert (times + [s.now])[..|times|] == times;
    PolledWhileOpen(cfg, s, payload, faults);
    hide AnswerPoll, EarlyPolls, Meets;
    assert Answer(cfg, s, Poll(payload, faults)) == AnswerPoll(cfg, s, payload, faults);
    NextEarlyPolls(cfg, times, s.now);
  }

  /**
   While nobody has accepted, the answer to a poll is given by the times of the polls before it: pending
   when on time; otherwise access_denied exactly when the number of early polls so far, this one
   included, is at least 3 modulo 256, and slow_down if not.
   */
  lemma PollHistory(cfg: Config, s: State, steps: seq<Step>, n: nat, dc: string)
    requires Init(s) && PollAnswer(cfg, s, steps, n, dc).Some? && Meets(cfg, Exec(cfg, s, steps, n), steps[n].payload)
    requires dc in Exec(cfg, s, steps, n).history && Exec(cfg, s, steps, n).history[dc].accepted.None?
    ensures var t := Exec(cfg, s, steps, n);
            var times := t.history[dc].times;
            && |times| > 0
            && PollAnswer(cfg, s, steps, n, dc) == Some(ByHistory(cfg, times, t.now))
            && Exec(cfg, s, steps, n + 1).history[dc].times == times + [t.now]
  {
    var t := Exec(cfg, s, steps, n);
    ExecKeepsInv(cfg, s, steps, n);
    assert CodeInv(cfg, t, UserCode(cfg, dc));
    PollByHistory(cfg, t, steps[n].payload, steps[n].faults, dc);
    assert Exec(cfg, s, steps, n + 1) == Apply(cfg, t, steps[n]);
    hide Exec, Inv, CodeInv, AnswerPoll, ByHistory, Meets;
  }
}
