/** When a Mureka task is polled, and which poll a recovered task is due for. */
module PollSchedule {

  const MUREKA_POLL_TIMEOUT_MS: nat := 600_000

  function Elapsed(submittedAtMs: int, nowMs: int): nat { if nowMs - submittedAtMs > 0 then nowMs - submittedAtMs else 0 }

  function ResolveMurekaPollDelayMs(submittedAtMs: int, nowMs: int): nat {
    if Elapsed(submittedAtMs, nowMs) < 60_000 then 5_000 else 10_000
  }

  /** The attempt number of the next poll, in closed form. */
  function ResolveRecoveryPollAttempt(submittedAtMs: int, nowMs: int): nat {
    var elapsed := Elapsed(submittedAtMs, nowMs);
    if elapsed < 60_000 then elapsed / 5_000 + 1 else 13 + (elapsed - 60_000) / 10_000
  }

  /** When poll n happens, counted from the submission: each poll schedules the next one. */
  function PollTime(submittedAtMs: int, n: nat): nat {
    if n == 0 then 0
    else
      var previous := PollTime(submittedAtMs, n - 1);
      previous + ResolveMurekaPollDelayMs(submittedAtMs, submittedAtMs + previous)
  }

  lemma {:induction false} PollTimeClosed(submittedAtMs: int, n: nat)
    ensures PollTime(submittedAtMs, n) == if n <= 12 then 5_000 * n else 60_000 + 10_000 * (n - 12)
  {
    if n > 0 {
      PollTimeClosed(submittedAtMs, n - 1);
    }
  }

  /** The closed form is the least poll that is still ahead. */
  lemma RecoveryAttemptIsNextPoll(submittedAtMs: int, nowMs: int, n: nat)
    ensures n == ResolveRecoveryPollAttempt(submittedAtMs, nowMs) <==> IsNextPoll(submittedAtMs, nowMs, n)
  {
    var elapsed := Elapsed(submittedAtMs, nowMs);
    var least := ResolveRecoveryPollAttempt(submittedAtMs, nowMs);
    forall m: nat ensures PollTime(submittedAtMs, m) == if m <= 12 then 5_000 * m else 60_000 + 10_000 * (m - 12) {
      PollTimeClosed(submittedAtMs, m);
    }
    assert least > 0 && PollTime(submittedAtMs, least) > elapsed >= PollTime(submittedAtMs, least - 1);
    if n < least {
      assert PollTime(submittedAtMs, n) <= PollTime(submittedAtMs, least - 1);
    } else if n > least {
      assert PollTime(submittedAtMs, least) > elapsed;
    }
  }

  ghost predicate IsNextPoll(submittedAtMs: int, nowMs: int, n: nat) {
    PollTime(submittedAtMs, n) > Elapsed(submittedAtMs, nowMs)
    && forall m: nat :: m < n ==> PollTime(submittedAtMs, m) <= Elapsed(submittedAtMs, nowMs)
  }

  /** Polls on schedule stop at number 66: the next one would come after the timeout. */
  lemma PollsWithinTimeout(submittedAtMs: int, n: nat)
    ensures PollTime(submittedAtMs, n) <= MUREKA_POLL_TIMEOUT_MS <==> n <= 66
  {
    PollTimeClosed(submittedAtMs, n);
  }
}
