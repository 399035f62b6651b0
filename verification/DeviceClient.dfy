/**
 The device grant together with its polling client (RFC 8628 section 3.5): a client that waits out its
 interval, and the waiting loop of the client library.
 */
module DeviceClient {
  import opened Wrappers
  import opened DeviceGrant

  /** How long the client waits before its next poll, after the slow_down answers it has had. */
  function WaitFor(interval: nat, slowDowns: nat): nat {
    interval * Pow2(slowDowns)
  }

  /** Nobody but the client polls with its device code, and it keeps to its waiting time and stops when told to. */
  predicate PacedStep(cfg: Config, s: State, step: Step, dc: string) {
    step.Poll? && step.payload.deviceCode == Some(dc) ==>
      && dc in s.history && !s.history[dc].ended && |s.history[dc].times| > 0
      && s.now >= s.history[dc].times[|s.history[dc].times| - 1]
          + WaitFor(cfg.interval, s.history[dc].slowDowns) * SECOND
  }

  /** The recorded polls of a client that was never slowed down lie an interval apart. */
  predicate OnTime(cfg: Config, h: History) {
    && h.slowDowns == 0 && EarlyPolls(cfg, h.times) == 0
    && forall i :: 0 <= i < |h.times| ==> h.times[i] >= h.times[0] + i * (cfg.interval * SECOND)
  }

  lemma FirstWait(cfg: Config, h: History)
    requires OnTime(cfg, h)
    ensures WaitFor(cfg.interval, h.slowDowns) == cfg.interval
  {
  }

  lemma PacedPollOnTime(cfg: Config, s: State, step: Step, dc: string)
    requires Inv(cfg, s) && dc in s.history && OnTime(cfg, s.history[dc]) && PacedStep(cfg, s, step, dc)
    requires step.Poll? && step.payload.deviceCode == Some(dc)
    ensures var reply := AnswerPoll(cfg, s, step.payload, step.faults).1;
            !reply.SlowDown? && !reply.AccessDenied?
            && (reply.Pending? ==> OnTime(cfg, s.history[dc].(times := s.history[dc].times + [s.now])))
  {
    var h := s.history[dc];
    var key := UserCode(cfg, dc);
    assert WaitFor(cfg.interval, 0) == cfg.interval;
    if key in s.codes { assert CodeInv(cfg, s, key); }
    var times := h.times + [s.now];
    assert times[..|h.times|] == h.times;
    var last := |h.times| - 1;
    assert h.times[last] >= h.times[0] + last * (cfg.interval * SECOND);
    assert last * (cfg.interval * SECOND) + cfg.interval * SECOND == (last + 1) * (cfg.interval * SECOND);
  }

  lemma OnTimeIgnoresTheRest(cfg: Config, h: History)
    ensures forall g: History :: g.times == h.times && g.slowDowns == h.slowDowns ==> OnTime(cfg, g) == OnTime(cfg, h)
  {
  }

  lemma ApplyKeepsOnTime(cfg: Config, s: State, step: Step, dc: string)
    requires Inv(cfg, s) && PacedStep(cfg, s, step, dc) && (dc in s.history ==> OnTime(cfg, s.history[dc]))
    ensures dc in Apply(cfg, s, step).history ==> OnTime(cfg, Apply(cfg, s, step).history[dc])
  {
    if step.Poll? && step.payload.deviceCode == Some(dc) {
      PacedPollOnTime(cfg, s, step, dc);
      hide AnswerPoll, OnTime;
      OnTimeIgnoresTheRest(cfg, s.history[dc]);
    } else {
      var t := Apply(cfg, s, step);
      hide Answer;
      if dc in t.history && dc in s.history {
        assert t.history[dc].times == s.history[dc].times && t.history[dc].slowDowns == s.history[dc].slowDowns;
      }
    }
  }

  lemma {:induction false} PacedRunOnTime(cfg: Config, s: State, steps: seq<Step>, n: nat, dc: string)
    requires Init(s) && n <= |steps| && forall i :: 0 <= i < n ==> PacedStep(cfg, Exec(cfg, s, steps, i), steps[i], dc)
    ensures dc in Exec(cfg, s, steps, n).history ==> OnTime(cfg, Exec(cfg, s, steps, n).history[dc])
  {
    hide Apply, PacedStep, OnTime;
    if n != 0 {
      PacedRunOnTime(cfg, s, steps, n - 1, dc);
      ExecKeepsInv(cfg, s, steps, n - 1);
      hide Inv;
      ApplyKeepsOnTime(cfg, Exec(cfg, s, steps, n - 1), steps[n - 1], dc);
    }
  }

  lemma PollsFitLifetime(cfg: Config, s: State, dc: string)
    requires Inv(cfg, s) && dc in s.history && OnTime(cfg, s.history[dc])
    ensures |s.history[dc].times| > 0 && (|s.history[dc].times| - 1) * cfg.interval <= cfg.lifetime
  {
    assert HistoryInv(cfg, s, dc);
    var times := s.history[dc].times;
    var last := |times| - 1;
    assert times[last] >= times[0] + last * (cfg.interval * SECOND);
    assert last * (cfg.interval * SECOND) == (last * cfg.interval) * SECOND;
  }

  lemma PacedStepIsServed(cfg: Config, s: State, step: Step, dc: string)
    requires Inv(cfg, s) && PacedStep(cfg, s, step, dc) && (dc in s.history ==> OnTime(cfg, s.history[dc]))
    ensures step.Poll? && step.payload.deviceCode == Some(dc) ==>
              !Answer(cfg, s, step).1.SlowDown? && !Answer(cfg, s, step).1.AccessDenied?
    ensures dc in s.history ==>
              && WaitFor(cfg.interval, s.history[dc].slowDowns) == cfg.interval
              && |s.history[dc].times| > 0 && (|s.history[dc].times| - 1) * cfg.interval <= cfg.lifetime
  {
    hide Inv, OnTime, AnswerPoll, WaitFor;
    if dc in s.history {
      PollsFitLifetime(cfg, s, dc);
      FirstWait(cfg, s.history[dc]);
    }
    if step.Poll? && step.payload.deviceCode == Some(dc) {
      PacedPollOnTime(cfg, s, step, dc);
    }
  }

  /**
   Server, users and one client together: a client that waits out its interval is never told slow_down
   or access_denied, its waiting time never changes, and its recorded polls fit into the lifetime of
   the code.
   */
  lemma PacedClientIsServed(cfg: Config, s: State, steps: seq<Step>, n: nat, dc: string)
    requires Init(s) && n < |steps|
    requires forall i :: 0 <= i <= n ==> PacedStep(cfg, Exec(cfg, s, steps, i), steps[i], dc)
    ensures PollAnswer(cfg, s, steps, n, dc) != Some(SlowDown) && PollAnswer(cfg, s, steps, n, dc) != Some(AccessDenied)
    ensures var t := Exec(cfg, s, steps, n);
            dc in t.history ==>
              && WaitFor(cfg.interval, t.history[dc].slowDowns) == cfg.interval
              && |t.history[dc].times| > 0 && (|t.history[dc].times| - 1) * cfg.interval <= cfg.lifetime
  {
    hide Apply, PacedStep, OnTime, WaitFor, AnswerPoll, EarlyPolls;
    PacedRunOnTime(cfg, s, steps, n, dc);
    ExecKeepsInv(cfg, s, steps, n);
    hide Inv;
    PacedStepIsServed(cfg, Exec(cfg, s, steps, n), steps[n], dc);
    hide Exec;
  }

  /** How often the device code has been polled with during the first n steps. */
  function Polls(steps: seq<Step>, n: nat, dc: string): nat
    requires n <= |steps|
  {
    if n == 0 then 0
    else Polls(steps, n - 1, dc) + if steps[n - 1].Poll? && steps[n - 1].payload.deviceCode == Some(dc) then 1 else 0
  }

  /** The polls that the history of a client that is never slowed down accounts for. */
  function Accounted(h: History): int {
    |h.times| - 1 + if h.ended then 1 else 0
  }

  lemma StepAccounted(cfg: Config, s: State, step: Step, dc: string)
    requires Inv(cfg, s) && PacedStep(cfg, s, step, dc) && (dc in s.history ==> OnTime(cfg, s.history[dc]))
    ensures var polled := step.Poll? && step.payload.deviceCode == Some(dc);
            var after := Apply(cfg, s, step).history;
            if dc in s.history then
              dc in after && Accounted(after[dc]) >= Accounted(s.history[dc]) + (if polled then 1 else 0)
            else !polled && (dc in after ==> Accounted(after[dc]) >= 0)
  {
    if step.Poll? && step.payload.deviceCode == Some(dc) {
      PacedPollOnTime(cfg, s, step, dc);
    }
    hide AnswerPoll, AnswerVerify, Inv, OnTime;
  }

  lemma {:induction false} PollsAccounted(cfg: Config, s: State, steps: seq<Step>, n: nat, dc: string)
    requires Init(s) && n <= |steps| && forall i :: 0 <= i < n ==> PacedStep(cfg, Exec(cfg, s, steps, i), steps[i], dc)
    ensures var t := Exec(cfg, s, steps, n);
            if dc in t.history then Polls(steps, n, dc) <= Accounted(t.history[dc]) else Polls(steps, n, dc) == 0
  {
    hide Apply, PacedStep, OnTime, Accounted;
    if n != 0 {
      PollsAccounted(cfg, s, steps, n - 1, dc);
      ExecKeepsInv(cfg, s, steps, n - 1);
      hide Inv;
      PacedRunOnTime(cfg, s, steps, n - 1, dc);
      StepAccounted(cfg, Exec(cfg, s, steps, n - 1), steps[n - 1], dc);
    }
  }

  lemma QuotientBound(k: int, interval: nat, lifetime: nat)
    requires interval > 0 && k * interval <= lifetime
    ensures k <= lifetime / interval
  {
    var excess := (lifetime / interval + 1 - k) * interval;
    assert excess == lifetime / interval * interval + interval - k * interval;
  }

  /** The loop of a paced client ends: it polls at most lifetime / interval + 1 times. */
  lemma PacedClientStops(cfg: Config, s: State, steps: seq<Step>, n: nat, dc: string)
    requires Init(s) && n <= |steps| && cfg.interval > 0
    requires forall i :: 0 <= i < n ==> PacedStep(cfg, Exec(cfg, s, steps, i), steps[i], dc)
    ensures Polls(steps, n, dc) <= cfg.lifetime / cfg.interval + 1
  {
    hide Exec, Inv, PacedStep, OnTime;
    var t := Exec(cfg, s, steps, n);
    PollsAccounted(cfg, s, steps, n, dc);
    PacedRunOnTime(cfg, s, steps, n, dc);
    ExecKeepsInv(cfg, s, steps, n);
    if dc in t.history {
      PollsFitLifetime(cfg, t, dc);
      QuotientBound(|t.history[dc].times| - 1, cfg.interval, cfg.lifetime);
    }
  }

  function SlowDowns(replies: seq<Reply>): nat {
    if replies == [] then 0
    else SlowDowns(replies[..|replies| - 1]) + if replies[|replies| - 1].SlowDown? then 1 else 0
  }

  /** `wait_for_token` against any answers: how long it sleeps before each poll, and the answer it stops at. */
  method WaitForToken(interval: nat, replies: seq<Reply>) returns (waits: seq<nat>, result: Option<Reply>)
    ensures |waits| <= |replies|
    ensures forall i :: 0 <= i < |waits| ==> waits[i] == interval * Pow2(SlowDowns(replies[..i]))
    ensures forall i :: 0 <= i < |waits| - 1 ==> replies[i].Pending? || replies[i].SlowDown?
    ensures result.Some? ==> |waits| > 0 && result.value == replies[|waits| - 1]
                             && !result.value.Pending? && !result.value.SlowDown?
    ensures result.None? ==> |waits| == |replies|
    ensures result.None? ==> forall i :: 0 <= i < |replies| ==> replies[i].Pending? || replies[i].SlowDown?
  {
    var waitFor := interval;
    waits := [];
    assert replies[..0] == [];
    while |waits| < |replies|
      invariant |waits| <= |replies| && waitFor == WaitFor(interval, SlowDowns(replies[..|waits|]))
      invariant forall i :: 0 <= i < |waits| ==> waits[i] == WaitFor(interval, SlowDowns(replies[..i]))
      invariant forall i :: 0 <= i < |waits| ==> replies[i].Pending? || replies[i].SlowDown?
    {
      var reply := replies[|waits|];
      assert replies[..|waits| + 1][..|waits|] == replies[..|waits|];
      waits := waits + [waitFor];
      match reply
      case Pending =>
      case SlowDown => waitFor := waitFor * 2;
      case _ => return waits, Some(reply);
    }
    result := None;
  }
}
