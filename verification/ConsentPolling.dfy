/** Waiting for a consent: polling until a verdict, with a grace period for FAILED answers. */
module ConsentPolling {
  import opened Wrappers

  /** What one status check gives; `Error` is a check that raised. */
  datatype Poll = Active | Revoked | Expired | Failed | Pending | Attention | Other(status: string) | Error

  datatype Answer = Status(poll: Poll) | TimedOut

  // ---------------------------------------------------------------- The verdict, declared

  /** The clock at the i-th poll: it only moves by sleeping. */
  function At(i: nat, interval: real): real {
    i as real * interval
  }

  predicate IsFinal(poll: Poll) {
    poll.Active? || poll.Revoked? || poll.Expired?
  }

  /** From poll `j` to poll `i` nothing but FAILED was answered; failed checks do not count. */
  predicate FailedRun(polls: nat -> Poll, j: nat, i: nat) {
    && j <= i && polls(j).Failed? && polls(i).Failed?
    && forall k: nat :: j <= k <= i ==> polls(k).Failed? || polls(k).Error?
  }

  predicate FailedFor(polls: nat -> Poll, j: nat, i: nat, interval: real, grace: real) {
    FailedRun(polls, j, i) && At(i, interval) - At(j, interval) >= grace
  }

  /** A FAILED that has stood for the whole grace period. */
  ghost predicate Persists(polls: nat -> Poll, i: nat, interval: real, grace: real) {
    exists j :: FailedFor(polls, j, i, interval, grace)
  }

  ghost predicate Decides(polls: nat -> Poll, i: nat, interval: real, grace: real) {
    IsFinal(polls(i)) || Persists(polls, i, interval, grace)
  }

  /** Poll `i` decides, and no earlier one did. */
  ghost predicate FirstDecision(polls: nat -> Poll, i: nat, interval: real, grace: real) {
    Decides(polls, i, interval, grace) && forall k: nat :: k < i ==> !Decides(polls, k, interval, grace)
  }

  /** The polls made if none decides: the least number of intervals that fills the timeout. */
  predicate FillsTimeout(n: nat, timeout: real, interval: real) {
    At(n, interval) >= timeout && (n > 0 ==> At(n - 1, interval) < timeout)
  }

  /** The first deciding poll within the timeout gives its status; without one, the timeout runs out. */
  ghost predicate IsVerdict(polls: nat -> Poll, timeout: real, interval: real, grace: real, answer: Answer, made: nat) {
    match answer
    case Status(poll) =>
      && made > 0 && At(made - 1, interval) < timeout
      && FirstDecision(polls, made - 1, interval, grace) && poll == polls(made - 1)
    case TimedOut =>
      && FillsTimeout(made, timeout, interval)
      && forall i: nat :: i < made ==> !Decides(polls, i, interval, grace)
  }

  // ---------------------------------------------------------------- The loop

  /** Where the current run of FAILED answers began, after `i` polls. */
  function FirstFailed(polls: nat -> Poll, i: nat): Option<nat> {
    if i == 0 then None
    else
      var before := FirstFailed(polls, i - 1);
      match polls(i - 1)
      case Error => before
      case Failed => if before.None? then Some(i - 1) else before
      case _ => None
  }

  lemma {:induction false} FirstFailedStartsTheRun(polls: nat -> Poll, i: nat)
    ensures FirstFailed(polls, i).Some? ==>
              var j := FirstFailed(polls, i).value;
              && j < i && polls(j).Failed?
              && (forall k: nat :: j <= k < i ==> polls(k).Failed? || polls(k).Error?)
    ensures forall j: nat :: j < i && polls(j).Failed? && (forall k: nat :: j <= k < i ==> polls(k).Failed? || polls(k).Error?) ==>
              FirstFailed(polls, i).Some? && FirstFailed(polls, i).value <= j
  {
    if i > 0 { FirstFailedStartsTheRun(polls, i - 1); }
  }

  lemma {:induction false} LaterIsLater(j: nat, k: nat, interval: real)
    requires j <= k && interval > 0.0
    ensures At(j, interval) <= At(k, interval)
  {
    if j < k { LaterIsLater(j, k - 1, interval); }
  }

  /** At a FAILED answer, the run the loop remembers decides whether the failure persists. */
  lemma RunDecides(polls: nat -> Poll, i: nat, interval: real, grace: real)
    requires interval > 0.0 && polls(i).Failed?
    ensures FirstFailed(polls, i + 1).Some?
    ensures Persists(polls, i, interval, grace) <==>
            At(i, interval) - At(FirstFailed(polls, i + 1).value, interval) >= grace
  {
    FirstFailedStartsTheRun(polls, i + 1);
    var start := FirstFailed(polls, i + 1).value;
    if At(i, interval) - At(start, interval) >= grace {
      assert FailedFor(polls, start, i, interval, grace);
    }
    if j :| FailedFor(polls, j, i, interval, grace) {
      LaterIsLater(start, j, interval);
    }
  }

  lemma OnlyFailuresPersist(polls: nat -> Poll, i: nat, interval: real, grace: real)
    requires !polls(i).Failed?
    ensures !Persists(polls, i, interval, grace)
  {
  }

  /** However the checks answer or fail, the loop ends: with the first poll that decides, if one within the
      timeout does, and its status; else with a timeout, after exactly the polls that fill it. */
  method WaitForCompletion(polls: nat -> Poll, timeout: real, interval: real, grace: real)
    returns (answer: Answer, made: nat)
    requires interval > 0.0
    ensures IsVerdict(polls, timeout, interval, grace, answer, made)
  {
    var elapsed := 0.0;
    var lastStatus := Pending;
    var firstFailedAt: Option<real> := None;
    ghost var bound := if timeout <= 0.0 then 0 else (timeout / interval).Floor + 1;
    made := 0;
    while elapsed < timeout
      invariant elapsed == At(made, interval)
      invariant firstFailedAt ==
                match FirstFailed(polls, made) case None => None case Some(j) => Some(At(j, interval))
      invariant forall i: nat :: i < made ==> !Decides(polls, i, interval, grace)
      invariant made > 0 ==> At(made - 1, interval) < timeout
      decreases bound - made
    {
      Bounded(made, timeout, interval);
      var status := polls(made);
      made := made + 1;
      if status.Error? {
        OnlyFailuresPersist(polls, made - 1, interval, grace);
        elapsed := elapsed + interval;
        continue;
      }
      lastStatus := status;
      if status.Active? { return Status(status), made; }
      if status.Revoked? || status.Expired? { return Status(status), made; }
      if status.Failed? {
        if firstFailedAt.None? {
          firstFailedAt := Some(elapsed);
        }
        RunDecides(polls, made - 1, interval, grace);
        if elapsed - firstFailedAt.value >= grace { return Status(status), made; }
      } else {
        OnlyFailuresPersist(polls, made - 1, interval, grace);
        firstFailedAt := None;
      }
      elapsed := elapsed + interval;
    }
    return TimedOut, made;
  }

  lemma Bounded(i: nat, timeout: real, interval: real)
    requires interval > 0.0 && At(i, interval) < timeout
    ensures timeout > 0.0 && i < (timeout / interval).Floor + 1
  {
    assert At(i, interval) >= 0.0;
    var quotient := timeout / interval;
    assert quotient * interval == timeout;
    assert (quotient - i as real) * interval == timeout - At(i, interval);
    PositiveFactor(quotient - i as real, interval);
  }

  lemma PositiveFactor(x: real, y: real)
    requires x * y > 0.0 && y > 0.0
    ensures x > 0.0
  {
  }

  // ---------------------------------------------------------------- The verdict is one

  lemma EarlierIsLess(j: nat, k: nat, interval: real)
    requires interval > 0.0 && At(j, interval) < At(k, interval)
    ensures j < k
  {
    if k <= j { LaterIsLater(k, j, interval); }
  }

  lemma FillsOnce(m: nat, n: nat, timeout: real, interval: real)
    requires interval > 0.0 && FillsTimeout(m, timeout, interval) && FillsTimeout(n, timeout, interval)
    ensures m == n
  {
    if m > 0 { EarlierIsLess(m - 1, n, interval); }
    if n > 0 { EarlierIsLess(n - 1, m, interval); }
  }

  lemma AStatusExcludesATimeout(polls: nat -> Poll, timeout: real, interval: real, grace: real, status: Poll, m: nat, n: nat)
    requires interval > 0.0
    requires IsVerdict(polls, timeout, interval, grace, Status(status), m)
    ensures !IsVerdict(polls, timeout, interval, grace, TimedOut, n)
  {
    if FillsTimeout(n, timeout, interval) {
      EarlierIsLess(m - 1, n, interval);
    }
  }

  /** The declared verdict leaves no choice: the statuses, the timeout, the interval and the grace period
      determine the answer and the number of polls. */
  lemma VerdictIsUnique(polls: nat -> Poll, timeout: real, interval: real, grace: real,
                        a: Answer, m: nat, b: Answer, n: nat)
    requires interval > 0.0
    requires IsVerdict(polls, timeout, interval, grace, a, m)
    requires IsVerdict(polls, timeout, interval, grace, b, n)
    ensures a == b && m == n
  {
    if a.Status? && b.Status? {
      assert !(m - 1 < n - 1) && !(n - 1 < m - 1);
    } else if a.Status? {
      AStatusExcludesATimeout(polls, timeout, interval, grace, a.poll, m, n);
    } else if b.Status? {
      AStatusExcludesATimeout(polls, timeout, interval, grace, b.poll, n, m);
    } else {
      FillsOnce(m, n, timeout, interval);
    }
  }
}
