/**
 The delay of login answers: the running mean of successful logins, the counter of failed logins per
 IP address, and the ladder of penalties and blocks that failed logins climb. Times are milliseconds.
 */
module LoginDelay {
  import opened Wrappers

  const DEFAULT_LOGIN_TIME: nat := 2000

  /** The outcome of one login request that took `elapsed` up to here, or the loss of the cached login time. */
  datatype Login =
    | Success(ip: Option<string>, at: int, elapsed: nat, hashed: bool)
    | Failure(ip: Option<string>, at: int, elapsed: nat, delayed: bool)
    | Forgotten

  datatype State = State(loginTime: Option<nat>, failed: map<string, nat>)

  datatype Rung = Wait(ms: nat) | Block(secs: nat)

  datatype Response =
    | Passed
    | Rejected                // the error, without any delay
    | Delayed(sleep: nat)     // the error, after this delay
    | Blacklisted(secs: nat)  // the error at once, and no access for this long

  function Ladder(failedLogins: nat): Rung {
    if failedLogins >= 25 then Block(86400)
    else if failedLogins > 20 then Wait(failedLogins * 20_000)
    else if failedLogins == 20 then Block(3600)
    else if failedLogins > 15 then Wait(failedLogins * 15_000)
    else if failedLogins == 15 then Block(900)
    else if failedLogins > 10 then Wait(failedLogins * 10_000)
    else if failedLogins == 10 then Block(600)
    else if failedLogins > 7 then Wait(failedLogins * 5_000)
    else if failedLogins == 7 then Block(60)
    else if failedLogins >= 5 then Wait(failedLogins * 3_000)
    else if failedLogins >= 3 then Wait(failedLogins * 2_000)
    else Wait(0)
  }

  function Mean(s: State): nat {
    if s.loginTime.Some? then s.loginTime.value else DEFAULT_LOGIN_TIME
  }

  function Failures(s: State, ip: Option<string>): nat {
    if ip.Some? && ip.value in s.failed then s.failed[ip.value] else 0
  }

  /** The number that the ladder sees: without an IP address, every failure counts as the first. */
  function Counted(s: State, ip: Option<string>): nat {
    if ip.Some? then Failures(s, ip) + 1 else 1
  }

  function Apply(s: State, login: Login): State {
    match login
    case Success(ip, _, elapsed, hashed) =>
      State(if hashed then Some((Mean(s) + elapsed) / 2) else s.loginTime,
            if ip.Some? then s.failed - {ip.value} else s.failed)
    case Failure(ip, _, _, delayed) =>
      if delayed && ip.Some? then s.(failed := s.failed[ip.value := Failures(s, ip) + 1]) else s
    case Forgotten => s.(loginTime := None)
  }

  function Answer(s: State, login: Login): Response {
    match login
    case Success(_, _, _, _) => Passed
    case Forgotten => Passed
    case Failure(ip, _, elapsed, delayed) =>
      if !delayed then Rejected
      else
        match Ladder(Counted(s, ip))
        case Block(secs) => Blacklisted(secs)
        case Wait(ms) => Delayed((if elapsed < Mean(s) then Mean(s) - elapsed else 0) + ms)
  }

  /** The state after the first n logins of a run. */
  function Exec(s: State, logins: seq<Login>, n: nat): State
    requires n <= |logins|
  {
    if n == 0 then s else Apply(Exec(s, logins, n - 1), logins[n - 1])
  }

  class DelayHandler {
    var loginTime: Option<nat>      // in the cache
    var failed: map<string, nat>    // of the worker that tracks IP addresses

    function Contents(): State
      reads this
    {
      State(loginTime, failed)
    }

    /** The `LoginCheck` message of the worker that tracks IP addresses. */
    method LoginCheck(ip: string) returns (counter: nat)
      modifies this`failed
      ensures counter == Failures(old(Contents()), Some(ip)) + 1
      ensures failed == old(failed)[ip := counter]
    {
      if ip in failed {
        counter := failed[ip] + 1;
      } else {
        counter := 1;
      }
      failed := failed[ip := counter];
    }

    /** `handle_login_delay`. */
    method HandleLoginDelay(login: Login) returns (response: Response)
      requires !login.Forgotten?
      modifies this
      ensures Contents() == Apply(old(Contents()), login)
      ensures response == Answer(old(Contents()), login)
    {
      var successTime := if loginTime.Some? then loginTime.value else 2000;
      match login
      case Success(ip, _, elapsed, hashed) =>
        if ip.Some? { failed := failed - {ip.value}; }
        if hashed { loginTime := Some((successTime + elapsed) / 2); }
        response := Passed;
      case Failure(ip, _, elapsed, delayed) =>
        if !delayed { return Rejected; }
        var failedLogins := 1;
        if ip.Some? { failedLogins := LoginCheck(ip.value); }
        var sleepTimeMedian := 0;
        if elapsed < successTime { sleepTimeMedian := successTime - elapsed; }
        if failedLogins >= 25 {
          response := Blacklisted(86400);
        } else if failedLogins > 20 {
          response := Delayed(sleepTimeMedian + failedLogins * 20_000);
        } else if failedLogins == 20 {
          response := Blacklisted(3600);
        } else if failedLogins > 15 {
          response := Delayed(sleepTimeMedian + failedLogins * 15_000);
        } else if failedLogins == 15 {
          response := Blacklisted(900);
        } else if failedLogins > 10 {
          response := Delayed(sleepTimeMedian + failedLogins * 10_000);
        } else if failedLogins == 10 {
          response := Blacklisted(600);
        } else if failedLogins > 7 {
          response := Delayed(sleepTimeMedian + failedLogins * 5_000);
        } else if failedLogins == 7 {
          response := Blacklisted(60);
        } else if failedLogins >= 5 {
          response := Delayed(sleepTimeMedian + failedLogins * 3_000);
        } else if failedLogins >= 3 {
          response := Delayed(sleepTimeMedian + failedLogins * 2_000);
        } else {
          response := Delayed(sleepTimeMedian);
        }
    }
  }

  // ---------------------------------------------------------------------------------------------
  // The running mean

  /** The durations of the logins from k to n that hashed a password, in order. */
  function Durations(logins: seq<Login>, k: nat, n: nat): seq<nat>
    requires k <= n <= |logins|
  {
    if n == k then []
    else
      Durations(logins, k, n - 1)
      + if logins[n - 1].Success? && logins[n - 1].hashed then [logins[n - 1].elapsed] else []
  }

  /** The cached login time is not lost between k and n. */
  predicate Remembered(logins: seq<Login>, k: nat, n: nat)
    requires k <= n <= |logins|
  {
    forall i :: k <= i < n ==> !logins[i].Forgotten?
  }

  /** The sum of 2^i * ds[i]. */
  function WeightedSum(ds: seq<nat>): nat {
    if ds == [] then 0
    else WeightedSum(ds[..|ds| - 1]) + Pow2(|ds| - 1) * ds[|ds| - 1]
  }

  lemma QuotientIs(a: int, b: nat, q: int, r: nat)
    requires b > 0 && a == b * q + r && r < b
    ensures a / b == q
  {
    var d := a / b - q;
    assert b * d == r - a % b;
    assert b * (d - 1) == b * d - b && b * (d + 1) == b * d + b;
  }

  /** Halving a quotient: no rounding is lost that the exact quotient would not lose. */
  lemma HalvedQuotient(a: nat, p: nat, d: nat)
    requires p >= 1
    ensures (a / p + d) / 2 == (a + p * d) / (2 * p)
  {
    var q, r := a / p, a % p;
    var h, e := (q + d) / 2, (q + d) % 2;
    assert a == p * q + r;
    assert a + p * d == p * (q + d) + r;
    assert p * (q + d) == p * (2 * h + e) == (2 * p) * h + p * e;
    var rest := p * e + r;
    assert 0 <= rest < 2 * p by {
      if e == 0 { assert p * e == 0; } else { assert p * e == p; }
    }
    QuotientIs(a + p * d, 2 * p, h, rest);
  }

  /** The running mean of durations, as it is kept up to date. */
  function RunningMean(start: nat, ds: seq<nat>): nat {
    if ds == [] then start else (RunningMean(start, ds[..|ds| - 1]) + ds[|ds| - 1]) / 2
  }

  lemma {:induction false} RunningMeanIsExact(start: nat, ds: seq<nat>)
    ensures RunningMean(start, ds) == (start + WeightedSum(ds)) / Pow2(|ds|)
  {
    if ds != [] {
      var k := |ds| - 1;
      RunningMeanIsExact(start, ds[..k]);
      HalvedQuotient(start + WeightedSum(ds[..k]), Pow2(k), ds[k]);
    }
  }

  lemma {:induction false} MeanOfRun(s: State, logins: seq<Login>, k: nat, n: nat)
    requires k <= n <= |logins| && Remembered(logins, k, n)
    ensures Mean(Exec(s, logins, n)) == RunningMean(Mean(Exec(s, logins, k)), Durations(logins, k, n))
    decreases n
  {
    if n != k {
      MeanOfRun(s, logins, k, n - 1);
      var login, ds := logins[n - 1], Durations(logins, k, n - 1);
      assert (ds + [login.elapsed])[..|ds|] == ds && ds + [] == ds;
    }
  }

  /**
   However many logins there have been since some point, the stored time is exactly the quotient of the
   weighted sum of their durations: rounding never accumulates, and failures and passwordless logins leave
   no trace, as long as the cache does not lose it.
   */
  lemma MeanIsExact(s: State, logins: seq<Login>, k: nat, n: nat)
    requires k <= n <= |logins| && Remembered(logins, k, n)
    ensures var ds := Durations(logins, k, n);
            Mean(Exec(s, logins, n)) == (Mean(Exec(s, logins, k)) + WeightedSum(ds)) / Pow2(|ds|)
  {
    hide Exec, Mean, Durations, WeightedSum, Pow2, Remembered;
    MeanOfRun(s, logins, k, n);
    RunningMeanIsExact(Mean(Exec(s, logins, k)), Durations(logins, k, n));
  }

  /** After the loss the mean starts from two seconds again. */
  lemma MeanAfterLoss(s: State, logins: seq<Login>, k: nat, n: nat)
    requires 0 < k <= n <= |logins| && logins[k - 1].Forgotten? && Remembered(logins, k, n)
    ensures var ds := Durations(logins, k, n);
            Mean(Exec(s, logins, n)) == (2000 + WeightedSum(ds)) / Pow2(|ds|)
  {
    assert Mean(Exec(s, logins, k)) == DEFAULT_LOGIN_TIME;
    hide Exec, Mean, Durations, WeightedSum, Pow2, Remembered;
    MeanIsExact(s, logins, k, n);
  }

  lemma {:induction false} WeightedSumOfConstant(ds: seq<nat>, d: nat)
    requires forall i :: 0 <= i < |ds| ==> ds[i] == d
    ensures WeightedSum(ds) == (Pow2(|ds|) - 1) * d
  {
    if ds != [] {
      var k := |ds| - 1;
      WeightedSumOfConstant(ds[..k], d);
      assert (Pow2(k) - 1) * d + Pow2(k) * d == (2 * Pow2(k) - 1) * d;
    }
  }

  lemma QuotientOfSmall(x: int, p: int)
    requires p >= 1
    ensures x / p == 0 <==> 0 <= x < p
    ensures x / p == -1 <==> -p <= x < 0
  {
    assert x == p * (x / p) + x % p;
    if 0 <= x < p { QuotientIs(x, p, 0, x); }
    if -p <= x < 0 { QuotientIs(x, p, -1, x + p); }
  }

  lemma ConstantQuotient(start: nat, p: int, d: nat)
    requires p >= 1
    ensures var mean := (start + (p - 1) * d) / p;
            (mean == d <==> 0 <= start - d < p) && (mean == d - 1 <==> -p <= start - d < 0)
  {
    var x := start - d;
    assert start + (p - 1) * d == p * d + x;
    assert p * (d + x / p) == p * d + p * (x / p);
    QuotientIs(p * d + x, p, d + x / p, x % p);
    QuotientOfSmall(x, p);
  }

  /**
   When all logins take the same time d, the difference to the start is halved away: d is reached from above, d
   - 1 from below.
   */
  lemma MeanConverges(s: State, logins: seq<Login>, k: nat, n: nat, d: nat)
    requires k <= n <= |logins| && Remembered(logins, k, n)
    requires forall i :: 0 <= i < |Durations(logins, k, n)| ==> Durations(logins, k, n)[i] == d
    ensures var p: int := Pow2(|Durations(logins, k, n)|);
            var start, mean := Mean(Exec(s, logins, k)), Mean(Exec(s, logins, n));
            && (mean == d <==> 0 <= start - d < p)
            && (mean == d - 1 <==> -p <= start - d < 0)
  {
    hide Exec, Mean, Durations, WeightedSum, Pow2, Remembered;
    var ds := Durations(logins, k, n);
    MeanIsExact(s, logins, k, n);
    WeightedSumOfConstant(ds, d);
    ConstantQuotient(Mean(Exec(s, logins, k)), Pow2(|ds|), d);
  }

  // ---------------------------------------------------------------------------------------------
  // The counter of failures

  predicate FailureOf(login: Login, ip: string) {
    login.Failure? && login.delayed && login.ip == Some(ip)
  }

  predicate SuccessOf(login: Login, ip: string) {
    login.Success? && login.ip == Some(ip)
  }

  function CountFailures(logins: seq<Login>, from: nat, to: nat, ip: string): nat
    requires from <= to <= |logins|
  {
    if from == to then 0
    else CountFailures(logins, from, to - 1, ip) + if FailureOf(logins[to - 1], ip) then 1 else 0
  }

  /** The counter of an IP address is the number of its delayed failures since its last success. */
  lemma {:induction false} CounterIsFailuresSinceSuccess(s: State, logins: seq<Login>, k: nat, n: nat, ip: string)
    requires k <= n <= |logins| && (k == 0 || SuccessOf(logins[k - 1], ip))
    requires forall i :: k <= i < n ==> !SuccessOf(logins[i], ip)
    ensures Failures(Exec(s, logins, n), Some(ip))
         == CountFailures(logins, k, n, ip) + if k == 0 then Failures(s, Some(ip)) else 0
    decreases n
  {
    if k < n {
      CounterIsFailuresSinceSuccess(s, logins, k, n - 1, ip);
    }
  }

  // ---------------------------------------------------------------------------------------------
  // The ladder

  /**
   Blocks come exactly at the 7th, 10th, 15th, 20th and every failure from the 25th, and a block never is shorter
   than one for fewer failures.
   */
  lemma BlocksGrow(s: State, t: State, a: Login, b: Login)
    requires a.Failure? && a.delayed && b.Failure? && b.delayed && Counted(s, a.ip) <= Counted(t, b.ip)
    ensures Answer(t, b).Blacklisted? <==> Counted(t, b.ip) in {7, 10, 15, 20} || Counted(t, b.ip) >= 25
    ensures Answer(s, a).Blacklisted? && Answer(t, b).Blacklisted? ==> Answer(s, a).secs <= Answer(t, b).secs
  {
  }

  /** For how many seconds so many failures block, if they do. */
  predicate BlockedFor(failures: nat, secs: nat) {
    match failures
    case 7 => secs == 60
    case 10 => secs == 600
    case 15 => secs == 900
    case 20 => secs == 3600
    case _ => failures >= 25 && secs == 86400
  }

  /** The penalty for so many failures that do not block. */
  function Penalty(failures: nat): nat {
    if failures <= 2 then 0
    else if failures <= 4 then failures * 2_000
    else if failures <= 6 then failures * 3_000
    else if failures <= 9 then failures * 5_000
    else if failures <= 14 then failures * 10_000
    else if failures <= 19 then failures * 15_000
    else failures * 20_000
  }

  lemma DelayedAnswer(s: State, login: Login)
    requires login.Failure? && login.delayed
    ensures var response, failures := Answer(s, login), Counted(s, login.ip);
            && (forall secs: nat :: response == Blacklisted(secs) <==> BlockedFor(failures, secs))
            && (response.Blacklisted? <==> failures in {7, 10, 15, 20} || failures >= 25)
            && (!response.Blacklisted? ==>
                  response == Delayed((if login.elapsed < Mean(s) then Mean(s) - login.elapsed else 0)
                                      + Penalty(failures)))
  {
  }

  /**
   In every run the answer to a delayed failure is decided by the number of delayed failures of its address
   since the last success, this one included: a block at 7, 10, 15, 20 and from 25 on, of that many seconds, and
   otherwise the rest of the mean login time and the penalty for that number.
   */
  lemma AnswerByFailures(s: State, logins: seq<Login>, k: nat, n: nat, ip: string)
    requires k <= n < |logins| && (k == 0 || SuccessOf(logins[k - 1], ip)) && FailureOf(logins[n], ip)
    requires forall i :: k <= i < n ==> !SuccessOf(logins[i], ip)
    ensures var t := Exec(s, logins, n);
            var response, mean, elapsed := Answer(t, logins[n]), Mean(t), logins[n].elapsed;
            var failures := CountFailures(logins, k, n + 1, ip) + if k == 0 then Failures(s, Some(ip)) else 0;
            && (forall secs: nat :: response == Blacklisted(secs) <==> BlockedFor(failures, secs))
            && (response.Blacklisted? <==> failures in {7, 10, 15, 20} || failures >= 25)
            && (!response.Blacklisted? ==>
                  response == Delayed((if elapsed < mean then mean - elapsed else 0) + Penalty(failures)))
  {
    CounterIsFailuresSinceSuccess(s, logins, k, n, ip);
    assert CountFailures(logins, k, n + 1, ip) == CountFailures(logins, k, n, ip) + 1;
    hide Exec, CountFailures, Answer, BlockedFor, Penalty, Mean;
    DelayedAnswer(Exec(s, logins, n), logins[n]);
  }

  /** Only failures are answered with an error, and only those that ask for it are delayed or block. */
  lemma OtherAnswers(s: State, login: Login)
    ensures Answer(s, login).Passed? <==> !login.Failure?
    ensures Answer(s, login).Rejected? <==> login.Failure? && !login.delayed
    ensures login.Failure? && login.delayed && login.ip.None? ==>
              Answer(s, login) == Delayed(if login.elapsed < Mean(s) then Mean(s) - login.elapsed else 0)
  {
  }

  /** Between blocks the penalty never gets smaller. */
  lemma PenaltiesGrow(m: nat, n: nat)
    requires m <= n && Ladder(m).Wait? && Ladder(n).Wait?
    ensures Ladder(m).ms <= Ladder(n).ms
  {
  }

  /** How long a caller is busy with one login, from its start to the end of its answer or block. */
  function Busy(s: State, login: Login): nat
    requires !login.Forgotten?
  {
    match Answer(s, login)
    case Delayed(sleep) => login.elapsed + sleep
    case Blacklisted(secs) => login.elapsed + secs * 1000
    case _ => login.elapsed
  }

  /** Unless it blocks, a delayed failure takes the mean login time, or as long as it took, plus its penalty. */
  lemma DelayedAnswerTime(s: State, login: Login)
    requires login.Failure? && login.delayed && Ladder(Counted(s, login.ip)).Wait?
    ensures Busy(s, login) == (if login.elapsed < Mean(s) then Mean(s) else login.elapsed)
              + Ladder(Counted(s, login.ip)).ms
  {
  }

  function LeastCost(failedLogins: nat): nat {
    match Ladder(failedLogins)
    case Block(secs) => secs * 1000
    case Wait(ms) => ms
  }

  /** What the first n consecutive failures cost at least. */
  function LeastTime(n: nat): nat {
    if n == 0 then 0 else LeastTime(n - 1) + LeastCost(n)
  }

  lemma LeastTimeOfTen()
    ensures LeastTime(10) == 792_000
  {
    assert LeastTime(2) == 0 && LeastTime(4) == 14_000 && LeastTime(6) == 47_000 && LeastTime(8) == 147_000;
  }

  lemma LeastTimeOfTwentyFour()
    ensures LeastTime(24) == 8_642_000
  {
    LeastTimeOfTen();
    assert LeastTime(12) == 1_022_000 && LeastTime(14) == 1_292_000 && LeastTime(16) == 2_432_000;
    assert LeastTime(18) == 2_957_000 && LeastTime(20) == 6_842_000 && LeastTime(22) == 7_702_000;
  }

  /** From the 25th failure on, every further one costs a day. */
  lemma {:induction false} LeastTimeClosedForm(n: nat)
    requires n >= 24
    ensures LeastTime(n) == 8_642_000 + (n - 24) * 86_400_000
  {
    if n == 24 { LeastTimeOfTwentyFour(); } else { LeastTimeClosedForm(n - 1); }
  }

  /** The last delayed failure of the IP address before the n-th login of the run. */
  function LastFailure(logins: seq<Login>, n: nat, ip: string): (i: Option<nat>)
    requires n <= |logins|
    ensures i.Some? ==> i.value < n && FailureOf(logins[i.value], ip)
  {
    if n == 0 then None
    else if FailureOf(logins[n - 1], ip) then Some(n - 1)
    else LastFailure(logins, n - 1, ip)
  }

  /** The caller at the IP address never succeeds, and waits out every answer and every block before trying again. */
  predicate WaitsOut(s: State, logins: seq<Login>, n: nat, ip: string)
    requires n <= |logins|
  {
    forall j :: 0 <= j < n ==>
      && !SuccessOf(logins[j], ip)
      && (FailureOf(logins[j], ip) && LastFailure(logins, j, ip).Some? ==>
            var i := LastFailure(logins, j, ip).value;
            logins[j].at >= logins[i].at + Busy(Exec(s, logins, i), logins[i]))
  }

  lemma BusyAtLeast(s: State, login: Login)
    requires login.Failure? && login.delayed
    ensures Busy(s, login) >= LeastCost(Counted(s, login.ip))
  {
  }

  lemma {:induction false} CounterStandsStill(s: State, logins: seq<Login>, i: nat, n: nat, ip: string)
    requires i < n <= |logins| && LastFailure(logins, n, ip) == Some(i)
    requires forall j :: 0 <= j < n ==> !SuccessOf(logins[j], ip)
    ensures Failures(Exec(s, logins, n), Some(ip)) == Failures(Exec(s, logins, i), Some(ip)) + 1
    decreases n
  {
    if i != n - 1 { CounterStandsStill(s, logins, i, n - 1, ip); }
  }

  lemma NextTry(s: State, logins: seq<Login>, n: nat, ip: string, earliest: int)
    requires n < |logins| && WaitsOut(s, logins, n + 1, ip) && FailureOf(logins[n], ip)
              && LastFailure(logins, n, ip).Some?
    requires var tries := Failures(Exec(s, logins, n), Some(ip));
             tries >= 1 && logins[LastFailure(logins, n, ip).value].at >= earliest + LeastTime(tries - 1)
    ensures var tries := Failures(Exec(s, logins, n + 1), Some(ip));
            tries >= 1 && logins[n].at >= earliest + LeastTime(tries - 1)
  {
    var i := LastFailure(logins, n, ip).value;
    CounterStandsStill(s, logins, i, n, ip);
    BusyAtLeast(Exec(s, logins, i), logins[i]);
    hide Busy, LeastCost;
  }

  lemma WaitsOutBefore(s: State, logins: seq<Login>, n: nat, ip: string)
    requires 0 < n <= |logins| && WaitsOut(s, logins, n, ip)
    ensures WaitsOut(s, logins, n - 1, ip) && !SuccessOf(logins[n - 1], ip)
    ensures forall i :: 0 <= i < n ==> !SuccessOf(logins[i], ip)
  {
    hide Exec, LastFailure, FailureOf, SuccessOf, Busy;
  }

  lemma LastFailureIs(logins: seq<Login>, n: nat, ip: string)
    requires n < |logins| && FailureOf(logins[n], ip)
    ensures LastFailure(logins, n + 1, ip) == Some(n)
  {
  }

  lemma {:induction false} NoFailureSoFar(logins: seq<Login>, n: nat, ip: string)
    requires n <= |logins| && LastFailure(logins, n, ip).None?
    ensures CountFailures(logins, 0, n, ip) == 0
  {
    if n != 0 { NoFailureSoFar(logins, n - 1, ip); }
  }

  lemma FirstTry(s: State, logins: seq<Login>, first: nat, ip: string)
    requires first < |logins| && Failures(s, Some(ip)) == 0 && FailureOf(logins[first], ip)
    requires LastFailure(logins, first, ip).None? && forall i :: 0 <= i < first + 1 ==> !SuccessOf(logins[i], ip)
    ensures LastFailure(logins, first + 1, ip) == Some(first) && Failures(Exec(s, logins, first + 1), Some(ip)) == 1
  {
    CounterIsFailuresSinceSuccess(s, logins, 0, first, ip);
    NoFailureSoFar(logins, first, ip);
    hide CountFailures;
  }

  lemma NoTry(s: State, logins: seq<Login>, n: nat, ip: string)
    requires n < |logins| && !FailureOf(logins[n], ip) && !SuccessOf(logins[n], ip)
    ensures LastFailure(logins, n + 1, ip) == LastFailure(logins, n, ip)
    ensures Failures(Exec(s, logins, n + 1), Some(ip)) == Failures(Exec(s, logins, n), Some(ip))
  {
  }

  lemma LeastTimeOfNone()
    ensures LeastTime(0) == 0
  {
  }

  /** The caller has tried, no earlier than the least time of its failures but one after its first. */
  predicate TriesTakeTime(s: State, logins: seq<Login>, first: nat, n: nat, ip: string)
    requires first < n <= |logins| && FailureOf(logins[first], ip)
  {
    var last, tries := LastFailure(logins, n, ip), Failures(Exec(s, logins, n), Some(ip));
    last.Some? && tries >= 1 && logins[last.value].at >= logins[first].at + LeastTime(tries - 1)
  }

  lemma FirstTryTakesTime(s: State, logins: seq<Login>, first: nat, ip: string)
    requires first < |logins| && Failures(s, Some(ip)) == 0 && FailureOf(logins[first], ip)
    requires LastFailure(logins, first, ip).None? && forall i :: 0 <= i < first + 1 ==> !SuccessOf(logins[i], ip)
    ensures TriesTakeTime(s, logins, first, first + 1, ip)
  {
    hide Exec, Failures;
    FirstTry(s, logins, first, ip);
    LeastTimeOfNone();
    hide LeastTime, LastFailure;
  }

  lemma NextLoginTakesTime(s: State, logins: seq<Login>, first: nat, n: nat, ip: string)
    requires first < n < |logins| && FailureOf(logins[first], ip) && TriesTakeTime(s, logins, first, n, ip)
    requires WaitsOut(s, logins, n + 1, ip) && !SuccessOf(logins[n], ip)
    ensures TriesTakeTime(s, logins, first, n + 1, ip)
  {
    hide Exec, WaitsOut, LeastTime, Failures, LastFailure, SuccessOf;
    if FailureOf(logins[n], ip) {
      LastFailureIs(logins, n, ip);
      NextTry(s, logins, n, ip, logins[first].at);
    } else {
      NoTry(s, logins, n, ip);
    }
  }

  /**
   Whatever others do meanwhile, a caller that starts with a clean counter, keeps failing and waits out
   each answer and block starts its n-th attempt no earlier than the least time of n - 1 failures after
   its first.
   */
  lemma {:induction false} GuessingTakesTime(s: State, logins: seq<Login>, first: nat, n: nat, ip: string)
    requires first < n <= |logins| && Failures(s, Some(ip)) == 0 && WaitsOut(s, logins, n, ip)
    requires FailureOf(logins[first], ip) && LastFailure(logins, first, ip).None?
    ensures TriesTakeTime(s, logins, first, n, ip)
    decreases n
  {
    hide Exec, WaitsOut, TriesTakeTime, Failures, FailureOf, SuccessOf, LastFailure;
    WaitsOutBefore(s, logins, n, ip);
    if n - 1 == first {
      FirstTryTakesTime(s, logins, first, ip);
    } else {
      GuessingTakesTime(s, logins, first, n - 1, ip);
      NextLoginTakesTime(s, logins, first, n - 1, ip);
    }
  }
}
