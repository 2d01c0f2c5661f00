/** The life of one alarm over many ticks, with restarts after any of them. */
module AlarmLife {
  /** What one tick means for one alarm: whether its object was read, whether it
      breached, the duration in force, the clock, and whether the process restarts
      right after the tick. Times are in nanoseconds; 0 is the zero time. */
  datatype Beat = Beat(read: bool, breaching: bool, duration: int, now: int, restart: bool)

  datatype Life = Absent | Pending(since: int) | Up(since: int)

  function Next(b: Beat, s: Life): Life {
    if !b.breaching then Absent
    else if s.Up? then s
    else
      var since := if s.Pending? && s.since != 0 then s.since else b.now;
      if b.now - since >= b.duration then Up(since) else Pending(since)
  }

  /** Only active alarms survive a restart, without their breach window. */
  function AfterRestart(s: Life, restart: bool): Life {
    if !restart then s else if s.Up? then Up(0) else Absent
  }

  /** One beat and the restart that may follow it. */
  function Onward(b: Beat, s: Life): Life {
    AfterRestart(Next(b, s), b.restart)
  }

  /** The alarm before beat n. */
  function At(bs: seq<Beat>, n: nat): Life
    requires n <= |bs|
  {
    if n == 0 then Absent else Onward(bs[n - 1], At(bs, n - 1))
  }

  /** The states ls follow the beats at step i. */
  predicate Carries(bs: seq<Beat>, ls: seq<Life>, i: nat)
    requires i < |bs| < |ls|
  {
    ls[i + 1] == Onward(bs[i], ls[i])
  }

  lemma {:induction false} CarriedAlong(bs: seq<Beat>, ls: seq<Life>, n: nat)
    requires n <= |bs| < |ls| && ls[0] == Absent
    requires forall i: nat :: i < n ==> Carries(bs, ls, i)
    ensures ls[n] == At(bs, n)
  {
    if n > 0 {
      CarriedAlong(bs, ls, n - 1);
      assert Carries(bs, ls, n - 1);
    }
  }

  predicate Raises(bs: seq<Beat>, n: nat)
    requires n < |bs|
  {
    !At(bs, n).Up? && Next(bs[n], At(bs, n)).Up?
  }

  predicate Clears(bs: seq<Beat>, n: nat)
    requires n < |bs|
  {
    At(bs, n).Up? && bs[n].read && !bs[n].breaching
  }

  /** Breaching objects were read, and the clock is never at the zero time. */
  ghost predicate Sane(bs: seq<Beat>) {
    forall i :: 0 <= i < |bs| ==> (bs[i].breaching ==> bs[i].read) && bs[i].now != 0
  }

  ghost predicate ClockRuns(bs: seq<Beat>) {
    forall i, j :: 0 <= i <= j < |bs| ==> bs[i].now <= bs[j].now
  }

  /** The active alarms are those that were active and still breach, plus the raised ones. */
  lemma ActiveLaw(bs: seq<Beat>, n: nat)
    requires n < |bs|
    ensures At(bs, n + 1).Up? <==> (At(bs, n).Up? && bs[n].breaching) || Raises(bs, n)
    ensures Raises(bs, n) ==> bs[n].breaching
  {}

  // ----- when an alarm is active -----

  /** The object breached at every beat from m to n. */
  ghost predicate Block(bs: seq<Beat>, m: nat, n: nat) {
    m <= n < |bs| && forall i :: m <= i <= n ==> bs[i].breaching
  }

  ghost predicate NoRestart(bs: seq<Beat>, m: nat, n: nat) {
    n <= |bs| && forall i :: m <= i < n ==> !bs[i].restart
  }

  /** A block from m on, without a restart before n, lasting the duration in force at n. */
  ghost predicate Backed(bs: seq<Beat>, m: nat, n: nat) {
    Block(bs, m, n) && NoRestart(bs, m, n) && bs[n].now - bs[m].now >= bs[n].duration
  }

  ghost predicate Window(bs: seq<Beat>, m: nat, n: nat) {
    m < n <= |bs| && Block(bs, m, n - 1) && NoRestart(bs, m, n) && At(bs, n) == Pending(bs[m].now)
  }

  /** A pending window opened at some beat and was never interrupted since. */
  lemma {:induction false} PendingHasWindow(bs: seq<Beat>, n: nat)
    requires Sane(bs) && n <= |bs| && At(bs, n).Pending?
    ensures exists m: nat :: Window(bs, m, n)
  {
    if At(bs, n - 1).Pending? {
      PendingHasWindow(bs, n - 1);
      var m: nat :| Window(bs, m, n - 1);
      assert Window(bs, m, n);
    } else {
      assert Window(bs, n - 1, n);
    }
  }

  lemma RaiseIsBacked(bs: seq<Beat>, n: nat)
    requires Sane(bs) && n < |bs| && Raises(bs, n)
    ensures exists m: nat :: Backed(bs, m, n)
  {
    if At(bs, n).Pending? {
      PendingHasWindow(bs, n);
      var m: nat :| Window(bs, m, n);
      assert Backed(bs, m, n);
    } else {
      assert Backed(bs, n, n);
    }
  }

  /** The alarm came up at some beat j, backed by a block from m on that has gone on to n. */
  ghost predicate Sustained(bs: seq<Beat>, m: nat, j: nat, n: nat) {
    Block(bs, m, n) && j <= n && Backed(bs, m, j)
  }

  /** The object has breached without a break up to beat n, and at some beat since it first
      did, with no restart before that, the breach had lasted for the duration in force. */
  ghost predicate Due(bs: seq<Beat>, n: nat) {
    exists m: nat, j: nat :: Sustained(bs, m, j, n)
  }

  lemma {:induction false} ActiveIsSustained(bs: seq<Beat>, n: nat)
    requires Sane(bs) && n < |bs| && At(bs, n + 1).Up?
    ensures exists m: nat, j: nat :: Sustained(bs, m, j, n)
  {
    ActiveLaw(bs, n);
    if Raises(bs, n) {
      RaiseIsBacked(bs, n);
      var m: nat :| Backed(bs, m, n);
      assert Sustained(bs, m, n, n);
    } else {
      ActiveIsSustained(bs, n - 1);
      var m: nat, j: nat :| Sustained(bs, m, j, n - 1);
      assert Sustained(bs, m, j, n);
    }
  }

  /** In an uninterrupted block the alarm is up, or pending since its start at the latest. */
  lemma {:induction false} BlockIsTracked(bs: seq<Beat>, m: nat, n: nat)
    requires Sane(bs) && ClockRuns(bs) && Block(bs, m, n) && NoRestart(bs, m, n)
    ensures var s := Next(bs[n], At(bs, n)); s.Up? || (s.Pending? && s.since <= bs[m].now)
    decreases n
  {
    if m < n {
      BlockIsTracked(bs, m, n - 1);
    } else if At(bs, n).Pending? {
      PendingHasWindow(bs, n);
      var w: nat :| Window(bs, w, n);
      assert bs[w].now <= bs[n].now;
    }
  }

  lemma {:induction false} SustainedIsActive(bs: seq<Beat>, m: nat, j: nat, n: nat)
    requires Sane(bs) && ClockRuns(bs) && Sustained(bs, m, j, n)
    ensures At(bs, n + 1).Up?
    decreases n
  {
    if j < n {
      SustainedIsActive(bs, m, j, n - 1);
    } else {
      BlockIsTracked(bs, m, n);
    }
  }

  lemma UpExactly(bs: seq<Beat>, n: nat)
    requires Sane(bs) && ClockRuns(bs) && n < |bs|
    ensures At(bs, n + 1).Up? <==> Due(bs, n)
  {
    if At(bs, n + 1).Up? {
      ActiveIsSustained(bs, n);
    }
    if m: nat, j: nat :| Sustained(bs, m, j, n) {
      SustainedIsActive(bs, m, j, n);
    }
  }

  // ----- raises and clears alternate -----

  /** An active alarm was raised, and has stayed active since. */
  lemma {:induction false} ActiveWasRaised(bs: seq<Beat>, n: nat) returns (m: nat)
    requires n <= |bs| && At(bs, n).Up?
    ensures m < n && Raises(bs, m)
    ensures forall i :: m < i < n ==> bs[i].breaching
  {
    ActiveLaw(bs, n - 1);
    if Raises(bs, n - 1) {
      m := n - 1;
    } else {
      m := ActiveWasRaised(bs, n - 1);
    }
  }

  lemma ClearFollowsRaise(bs: seq<Beat>, n: nat)
    requires n < |bs| && Clears(bs, n)
    ensures exists m: nat :: m < n && Raises(bs, m) && forall i :: m <= i < n ==> !Clears(bs, i)
  {
    var m := ActiveWasRaised(bs, n);
    assert !Clears(bs, m);
  }

  lemma {:induction false} StaysUp(bs: seq<Beat>, m: nat, n: nat)
    requires m <= n <= |bs| && At(bs, m).Up? && forall i :: m <= i < n ==> bs[i].breaching
    ensures At(bs, n).Up?
    decreases n
  {
    if m < n {
      StaysUp(bs, m, n - 1);
    }
  }

  lemma RaisesAreSeparated(bs: seq<Beat>, m: nat, n: nat)
    requires Sane(bs) && m < n < |bs| && Raises(bs, m) && Raises(bs, n)
    ensures exists j :: m < j < n && (Clears(bs, j) || !bs[j].read)
  {
    ActiveLaw(bs, m);
    var j := m + 1;
    while j < n && bs[j].breaching
      invariant m < j <= n && forall i :: m < i < j ==> bs[i].breaching
    {
      j := j + 1;
    }
    StaysUp(bs, m + 1, j);
    assert j < n && (Clears(bs, j) || !bs[j].read);
  }

  // ----- restarts only delay -----

  /** u is s without any restart. */
  ghost predicate Unbroken(bs: seq<Beat>, us: seq<Beat>) {
    |us| == |bs| && forall i :: 0 <= i < |bs| ==> us[i] == bs[i].(restart := false)
  }

  /** What the interrupted history knows, the other knows at least as well. */
  predicate Lags(s: Life, u: Life) {
    match s
    case Absent => true
    case Pending(since) => u.Up? || (u.Pending? && u.since <= since)
    case Up(_) => u.Up?
  }

  lemma {:induction false} PendingSinceBefore(bs: seq<Beat>, n: nat)
    requires Sane(bs) && ClockRuns(bs) && n < |bs| && At(bs, n).Pending?
    ensures At(bs, n).since != 0 && At(bs, n).since <= bs[n].now
  {
    PendingHasWindow(bs, n);
    var w: nat :| Window(bs, w, n);
    assert bs[w].now <= bs[n].now;
  }

  lemma {:induction false} RunLags(bs: seq<Beat>, us: seq<Beat>, n: nat)
    requires Sane(bs) && ClockRuns(bs) && Unbroken(bs, us) && n <= |bs|
    ensures Lags(At(bs, n), At(us, n))
  {
    if n > 0 {
      RunLags(bs, us, n - 1);
      if At(us, n - 1).Pending? {
        assert us[n - 1] == bs[n - 1].(restart := false);
        SameClock(bs, us);
        PendingSinceBefore(us, n - 1);
      }
      if At(bs, n - 1).Pending? {
        PendingSinceBefore(bs, n - 1);
      }
    }
  }

  lemma SameClock(bs: seq<Beat>, us: seq<Beat>)
    requires Sane(bs) && ClockRuns(bs) && Unbroken(bs, us)
    ensures Sane(us) && ClockRuns(us)
  {}

  lemma {:induction false} StaysInStep(bs: seq<Beat>, us: seq<Beat>, m: nat, n: nat)
    requires Sane(bs) && ClockRuns(bs) && Unbroken(bs, us)
    requires m <= n < |bs| && At(bs, m).Up? && forall i :: m <= i < n ==> bs[i].breaching
    ensures At(bs, n).Up? && At(us, n).Up?
    ensures At(bs, n + 1).Up? <==> bs[n].breaching
    ensures At(us, n + 1).Up? <==> bs[n].breaching
    ensures Clears(bs, n) <==> Clears(us, n)
  {
    StaysUp(bs, m, n);
    RunLags(bs, us, n);
  }
}
