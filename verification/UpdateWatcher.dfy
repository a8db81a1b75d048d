/** The watcher that waits for a game update to finish and then restarts the container.
    The status calls, the clock and the cancellation are a history indexed by poll; what
    the watcher does is proved against that whole history, for every history. */
module UpdateWatcher {
  import opened Options

  const SECOND := 1_000_000_000   // nanoseconds
  const POLL_INTERVAL := 10 * SECOND
  const APPEAR_GRACE := 2 * 60 * SECOND
  const MAX_WAIT := 30 * 60 * SECOND

  /** One poll: the running-task count (None when the call failed), the clock read after
      it, and whether the sleep that follows is cancelled. */
  datatype Poll = Poll(tasks: Option<int>, clock: int, cancelled: bool)

  /** Every completed sleep lasts at least the interval asked for. */
  ghost predicate Ticking(start: int, poll: nat -> Poll) {
    start <= poll(0).clock
    && forall i: nat :: !poll(i).cancelled ==> poll(i).clock + POLL_INTERVAL <= poll(i + 1).clock
  }

  predicate Busy(p: Poll) {
    p.tasks.Some? && p.tasks.value > 0
  }

  predicate Idle(p: Poll) {
    p.tasks.Some? && p.tasks.value <= 0
  }

  ghost predicate SeenBy(poll: nat -> Poll, n: nat) {
    exists i: nat :: i <= n && Busy(poll(i))
  }

  /** The update finished: a poll found tasks running and a later one, n, finds none. */
  ghost predicate Cleared(poll: nat -> Poll, n: nat) {
    Idle(poll(n)) && SeenBy(poll, n)
  }

  ghost predicate NeverAppeared(start: int, poll: nat -> Poll, n: nat) {
    !SeenBy(poll, n) && poll(n).clock - start >= APPEAR_GRACE
  }

  ghost predicate CappedOut(start: int, poll: nat -> Poll, n: nat) {
    poll(n).clock - start >= MAX_WAIT
  }

  /** Poll n is a reason to restart. */
  ghost predicate Decides(start: int, poll: nat -> Poll, n: nat) {
    Cleared(poll, n) || NeverAppeared(start, poll, n) || CappedOut(start, poll, n)
  }

  /** Poll n is the first that decides or is cancelled: no restart comes late or early. */
  ghost predicate EndsAt(start: int, poll: nat -> Poll, n: nat) {
    (Decides(start, poll, n) || poll(n).cancelled)
    && forall i: nat :: i < n ==> !Decides(start, poll, i) && !poll(i).cancelled
  }

  /** Tasks were found running and are gone, or a whole grace period has found none. */
  ghost predicate Justified(start: int, poll: nat -> Poll, n: nat) {
    (exists i: nat :: i < n && Busy(poll(i)) && Idle(poll(n)))
    || (poll(n).clock - start >= APPEAR_GRACE && forall i: nat :: i <= n ==> !Busy(poll(i)))
  }

  class Container {
    var restarts: nat

    constructor ()
      ensures restarts == 0
    {
      restarts := 0;
    }

    method Restart(failure: Option<Error>) returns (err: Option<Error>)
      modifies this
      ensures restarts == old(restarts) + 1 && err == failure
    {
      restarts := restarts + 1;
      err := failure;
    }
  }

  const CANCELLED := Error(false, "context canceled")
  const MOST_POLLS: nat := 181

  lemma {:induction false} ClockAdvances(start: int, poll: nat -> Poll, n: nat)
    requires Ticking(start, poll) && forall i: nat :: i < n ==> !poll(i).cancelled
    ensures poll(n).clock >= start + n * POLL_INTERVAL
  {
    if n > 0 { ClockAdvances(start, poll, n - 1); }
  }

  lemma CapIsReached(start: int, poll: nat -> Poll, n: nat)
    requires Ticking(start, poll) && forall i: nat :: i < n ==> !poll(i).cancelled
    ensures n >= MOST_POLLS - 1 ==> CappedOut(start, poll, n)
  {
    ClockAdvances(start, poll, n);
  }

  lemma SeenOneMore(poll: nat -> Poll, n: nat)
    ensures SeenBy(poll, n) <==> Busy(poll(n)) || (n > 0 && SeenBy(poll, n - 1))
  {}

  /** The loop's tests at poll n, from whether a task was seen before it. */
  lemma PollDecides(start: int, poll: nat -> Poll, n: nat)
    requires Ticking(start, poll) && forall i: nat :: i < n ==> !poll(i).cancelled
    ensures
      var p, seen := poll(n), n > 0 && SeenBy(poll, n - 1);
      (SeenBy(poll, n) <==> (p.tasks.Some? && p.tasks.value > 0) || seen)
      && (Decides(start, poll, n) <==>
           (p.tasks.Some? && p.tasks.value <= 0 && seen)
           || (!SeenBy(poll, n) && p.clock - start >= APPEAR_GRACE)
           || p.clock - start >= MAX_WAIT)
      && (n >= MOST_POLLS - 1 ==> p.clock - start >= MAX_WAIT)
  {
    SeenOneMore(poll, n);
    CapIsReached(start, poll, n);
  }

  lemma EarlyRestartIsJustified(start: int, poll: nat -> Poll, n: nat)
    requires Decides(start, poll, n)
    ensures CappedOut(start, poll, n) || Justified(start, poll, n)
  {}

  /** Tasks were running at some poll before n. */
  ghost predicate RanBefore(poll: nat -> Poll, n: nat) {
    exists i: nat :: i < n && poll(i).tasks.Some? && poll(i).tasks.value > 0
  }

  /** When a poll decides, in full: an answer of no tasks after an answer of some, two minutes
      in which no answer was of any, or thirty minutes. A failed status call is no answer. */
  lemma DecidesExactly(start: int, poll: nat -> Poll, n: nat)
    ensures
      var p := poll(n);
      var runs := p.tasks.Some? && p.tasks.value > 0;
      Decides(start, poll, n) <==>
        (p.tasks.Some? && p.tasks.value <= 0 && RanBefore(poll, n))
        || (!runs && !RanBefore(poll, n) && p.clock - start >= 120_000_000_000)
        || p.clock - start >= 1_800_000_000_000
  {
    if RanBefore(poll, n) {
      var i: nat :| i < n && poll(i).tasks.Some? && poll(i).tasks.value > 0;
      assert Busy(poll(i)) && i <= n;
    }
    if Busy(poll(n)) { assert n <= n; }
  }

  lemma RestartAfterRunning(start: int, poll: nat -> Poll, n: nat)
    requires Decides(start, poll, n)
    ensures poll(n).clock - start < 1_800_000_000_000 && RanBefore(poll, n) ==>
              poll(n).tasks.Some? && poll(n).tasks.value <= 0
  {
    DecidesExactly(start, poll, n);
  }

  /** Ends at the first deciding or cancelled poll, restarting once in the first case and
      never in the second; a restart before the cap is justified by what the polls found. */
  method WaitForUpdateThenRestart(container: Container, start: int, poll: nat -> Poll, restartError: Option<Error>)
    returns (polls: nat, err: Option<Error>)
    requires Ticking(start, poll)
    modifies container
    ensures 0 < polls <= MOST_POLLS && EndsAt(start, poll, polls - 1)
    ensures container.restarts == old(container.restarts) + if Decides(start, poll, polls - 1) then 1 else 0
    ensures container.restarts > old(container.restarts) ==> CappedOut(start, poll, polls - 1) || Justified(start, poll, polls - 1)
    ensures container.restarts > old(container.restarts)
            && poll(polls - 1).clock - start < 1_800_000_000_000 && RanBefore(poll, polls - 1) ==>
              poll(polls - 1).tasks.Some? && poll(polls - 1).tasks.value <= 0
    ensures err == if Decides(start, poll, polls - 1) then restartError else Some(CANCELLED)
  {
    hide RanBefore, Justified, Decides, SeenBy, CappedOut, Ticking;
    var seenTask := false;
    polls := 0;
    while true
      invariant forall i: nat :: i < polls ==> !Decides(start, poll, i) && !poll(i).cancelled
      invariant seenTask <==> polls > 0 && SeenBy(poll, polls - 1)
      invariant container.restarts == old(container.restarts)
      invariant polls < MOST_POLLS
      decreases MOST_POLLS - polls
    {
      ghost var n := polls;
      var p := poll(polls);
      polls := polls + 1;
      PollDecides(start, poll, n);
      if p.tasks.Some? {
        if p.tasks.value > 0 {
          seenTask := true;
        } else if seenTask {
          break;
        }
      }
      var elapsed := p.clock - start;
      if !seenTask && elapsed >= APPEAR_GRACE { break; }
      if elapsed >= MAX_WAIT { break; }
      if p.cancelled { return polls, Some(CANCELLED); }
    }
    EarlyRestartIsJustified(start, poll, polls - 1);
    RestartAfterRunning(start, poll, polls - 1);
    err := container.Restart(restartError);
  }

  /** A failed status call never ends the wait of an update that was seen running. */
  lemma ErrorsAreNotClears(start: int, poll: nat -> Poll, n: nat)
    requires poll(n).tasks == None && RanBefore(poll, n)
    requires poll(n).clock - start < 1_800_000_000_000
    ensures !Decides(start, poll, n)
  {
    DecidesExactly(start, poll, n);
  }

  /** Nor does it count for or against one that was not: dropping every answer of a history
      that never finds a task changes neither when nor why the wait ends. */
  lemma SilenceIsNoTask(start: int, poll: nat -> Poll, silent: nat -> Poll, n: nat)
    requires forall i: nat :: silent(i) == poll(i).(tasks := None)
    requires forall i: nat :: i <= n ==> !Busy(poll(i))
    ensures EndsAt(start, poll, n) <==> EndsAt(start, silent, n)
    ensures Decides(start, poll, n) <==> Decides(start, silent, n)
  {}

  /** Without cancellation, and with no task found, the thirteenth poll ends the wait. */
  lemma QuietUpdateEndsByGrace(start: int, poll: nat -> Poll, n: nat)
    requires Ticking(start, poll) && forall i: nat :: i < n ==> !poll(i).cancelled
    requires forall i: nat :: i <= n ==> !Busy(poll(i))
    ensures n >= 12 ==> NeverAppeared(start, poll, n)
    ensures EndsAt(start, poll, n) ==> n <= 12
  {
    ClockAdvances(start, poll, n);
    if n > 12 {
      ClockAdvances(start, poll, 12);
      EndedByGrace(start, poll);
    }
  }

  lemma EndedByGrace(start: int, poll: nat -> Poll)
    requires poll(12).clock >= start + 12 * POLL_INTERVAL && forall i: nat :: i <= 12 ==> !Busy(poll(i))
    ensures Decides(start, poll, 12)
  {}

  /** The bound is attained: exact sleeps and a task that never clears take every poll. */
  lemma MostPollsIsAttained(start: int, poll: nat -> Poll)
    requires forall i: nat :: Busy(poll(i)) && poll(i).clock == start + i * POLL_INTERVAL && !poll(i).cancelled
    ensures Ticking(start, poll) && EndsAt(start, poll, MOST_POLLS - 1)
  {}
}
