/**
 The nightly warning about passwords that expire soon: each run notifies the users whose password
 expires between 9 and 10 days later. Times are whole seconds.
 */
module ExpiryWarnings {
  import opened Wrappers

  const DAY: int := 86_400

  datatype User = User(email: string, passwordExpires: Option<int>)

  /** A run at this time warns about this expiry. */
  predicate Warns(run: int, exp: int) {
    run + 9 * DAY < exp <= run + 10 * DAY
  }

  predicate IsDue(user: User, run: int) {
    user.passwordExpires.Some? && Warns(run, user.passwordExpires.value)
  }

  /** How many mails a run sends to a user that the table holds so many times. */
  function MailsTo(users: seq<User>, run: int, user: User): nat {
    if IsDue(user, run) then multiset(users)[user] else 0
  }

  /** One run of `password_expiry_checker`. */
  method CheckPasswords(users: seq<User>, now: int) returns (notified: seq<User>)
    ensures forall user :: multiset(notified)[user] == MailsTo(users, now, user)
  {
    var lower := now + 9 * DAY;
    var upper := now + 10 * DAY;
    notified := [];
    for i := 0 to |users|
      invariant forall user :: multiset(notified)[user] == MailsTo(users[..i], now, user)
    {
      assert users[..i + 1] == users[..i] + [users[i]];
      var user := users[i];
      if user.passwordExpires.Some? && user.passwordExpires.value <= upper && user.passwordExpires.value > lower {
        notified := notified + [user];
      }
    }
    assert users[..|users|] == users;
  }

  /** How many of the runs warn about an expiry. */
  function Warnings(runs: seq<int>, exp: int): nat {
    if runs == [] then 0
    else Warnings(runs[..|runs| - 1], exp) + if Warns(runs[|runs| - 1], exp) then 1 else 0
  }

  predicate Ascending(runs: seq<int>) {
    forall i :: 0 <= i < |runs| - 1 ==> runs[i] < runs[i + 1]
  }

  predicate GapsAtMost(runs: seq<int>, gap: int) {
    forall i :: 0 <= i < |runs| - 1 ==> runs[i + 1] - runs[i] <= gap
  }

  predicate GapsAtLeast(runs: seq<int>, gap: int) {
    forall i :: 0 <= i < |runs| - 1 ==> runs[i + 1] - runs[i] >= gap
  }

  /** The expiries that the runs are responsible for. */
  predicate Covered(runs: seq<int>, exp: int)
    requires runs != []
  {
    runs[0] + 9 * DAY < exp <= runs[|runs| - 1] + 10 * DAY
  }

  lemma {:induction false} FirstBelowLast(runs: seq<int>, i: nat)
    requires Ascending(runs) && 0 < i < |runs|
    ensures runs[0] < runs[i]
  {
    if i > 1 { FirstBelowLast(runs, i - 1); }
  }

  lemma {:induction false} NoWarningOutside(runs: seq<int>, exp: int)
    requires runs != [] && Ascending(runs) && !Covered(runs, exp)
    ensures Warnings(runs, exp) == 0
  {
    if |runs| > 1 {
      var last := |runs| - 1;
      FirstBelowLast(runs, last);
      NoWarningOutside(runs[..last], exp);
    }
  }

  /** Runs at most a day apart miss no expiry they are responsible for. */
  lemma {:induction false} NobodyMissed(runs: seq<int>, exp: int)
    requires runs != [] && GapsAtMost(runs, DAY) && Covered(runs, exp)
    ensures Warnings(runs, exp) >= 1
  {
    var last := |runs| - 1;
    if !Warns(runs[last], exp) {
      assert last > 0;
      assert runs[last] - runs[last - 1] <= DAY;
      NobodyMissed(runs[..last], exp);
    }
  }

  /** Runs at least a day apart warn about no expiry twice. */
  lemma {:induction false} NobodyWarnedTwice(runs: seq<int>, exp: int)
    requires GapsAtLeast(runs, DAY)
    ensures Warnings(runs, exp) <= 1
  {
    if |runs| > 1 {
      var last := |runs| - 1;
      assert GapsAtLeast(runs[..last], DAY);
      if Warns(runs[last], exp) {
        assert runs[last] - runs[last - 1] >= DAY;
        assert Ascending(runs[..last]);
        NoWarningOutside(runs[..last], exp);
      } else {
        NobodyWarnedTwice(runs[..last], exp);
      }
    }
  }

  /** With runs exactly a day apart, the windows tile time. */
  lemma DailyRunsWarnOnce(runs: seq<int>, exp: int)
    requires runs != [] && GapsAtMost(runs, DAY) && GapsAtLeast(runs, DAY)
    ensures Warnings(runs, exp) == if Covered(runs, exp) then 1 else 0
  {
    if Covered(runs, exp) {
      NobodyMissed(runs, exp);
      NobodyWarnedTwice(runs, exp);
    } else {
      NoWarningOutside(runs, exp);
    }
  }

  lemma {:induction false} WarnedBy(runs: seq<int>, exp: int, i: nat)
    requires i < |runs| && Warns(runs[i], exp)
    ensures Warnings(runs, exp) >= 1
  {
    if i < |runs| - 1 { WarnedBy(runs[..|runs| - 1], exp, i); }
  }

  lemma {:induction false} WarnedByBoth(runs: seq<int>, exp: int, i: nat)
    requires i + 1 < |runs| && Warns(runs[i], exp) && Warns(runs[i + 1], exp)
    ensures Warnings(runs, exp) >= 2
  {
    var last := |runs| - 1;
    if i + 1 < last { WarnedByBoth(runs[..last], exp, i); } else { WarnedBy(runs[..last], exp, i); }
  }

  lemma {:induction false} LaterRuns(runs: seq<int>, i: nat, k: nat)
    requires Ascending(runs) && i <= k < |runs|
    ensures runs[i] <= runs[k]
  {
    if i < k { LaterRuns(runs, i, k - 1); }
  }

  lemma {:induction false} NotWarnedInGap(runs: seq<int>, exp: int, i: nat)
    requires i + 1 < |runs| && Ascending(runs) && runs[i] + 10 * DAY < exp <= runs[i + 1] + 9 * DAY
    ensures Warnings(runs, exp) == 0
  {
    var last := |runs| - 1;
    if i + 1 < last {
      LaterRuns(runs, i + 1, last);
      NotWarnedInGap(runs[..last], exp, i);
    } else {
      NoWarningOutside(runs[..last], exp);
    }
  }

  /** Only runs exactly a day apart warn everybody exactly once. */
  lemma EverybodyOnceIffDaily(runs: seq<int>)
    requires runs != [] && Ascending(runs)
    ensures (forall exp :: Covered(runs, exp) ==> Warnings(runs, exp) == 1)
              <==> (GapsAtMost(runs, DAY) && GapsAtLeast(runs, DAY))
  {
    if GapsAtMost(runs, DAY) && GapsAtLeast(runs, DAY) {
      forall exp | Covered(runs, exp) ensures Warnings(runs, exp) == 1 {
        DailyRunsWarnOnce(runs, exp);
      }
    } else {
      var i :| 0 <= i < |runs| - 1 && runs[i + 1] - runs[i] != DAY;
      var exp := runs[i] + 10 * DAY + if runs[i + 1] - runs[i] > DAY then 1 else 0;
      LaterRuns(runs, 0, i);
      LaterRuns(runs, i + 1, |runs| - 1);
      assert Covered(runs, exp);
      if runs[i + 1] - runs[i] > DAY {
        NotWarnedInGap(runs, exp, i);
      } else {
        WarnedByBoth(runs, exp, i);
      }
    }
  }
}
