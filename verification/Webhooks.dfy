/**
 Delivery of one webhook (organizations/webhooks.py lines 16-17 and 66-118,
 organizations/tasks.py).

 A job reads the delivery row, POSTs, and then saves what it computed from the copy it read.
 `Machine` runs any number of jobs and beats against one row; `Limits` says how many jobs may
 be running and outstanding at once. An attempt that ends in an exception the code does not
 catch saves nothing and is counted as a crash.
 */
module Webhooks {
  import opened Basics

  const RETRY_DELAYS: seq<int> := [60, 300, 1800, 7200, 21600]
  const MAX_ATTEMPTS := 5
  const BEAT_LIMIT := 50

  datatype Status = Pending | Success | Failed

  datatype Delivery = Delivery(status: Status, attemptCount: nat, nextRetryAt: Option<int>)

  datatype Attempt = Responded(code: int) | NetworkError | Crash

  function RetryDelay(attempts: nat): int
    requires 1 <= attempts < MAX_ATTEMPTS
  {
    RETRY_DELAYS[Min(attempts - 1, |RETRY_DELAYS| - 1)]
  }

  /** The lookup stays inside the table and never reaches its last entry. */
  lemma DelayTable()
    ensures RetryDelay(1) == 60 && RetryDelay(2) == 300 && RetryDelay(3) == 1800 && RetryDelay(4) == 7200
    ensures forall n | 1 <= n < MAX_ATTEMPTS :: RetryDelay(n) < RETRY_DELAYS[|RETRY_DELAYS| - 1]
  {
    var t := RETRY_DELAYS;
    assert t[0] == 60 && t[1] == 300 && t[2] == 1800 && t[3] == 7200 && t[4] == 21600;
  }

  function ScheduleRetry(d: Delivery, now: int): Delivery
    requires d.attemptCount >= 1
  {
    if d.attemptCount >= MAX_ATTEMPTS then d.(status := Failed, nextRetryAt := None)
    else d.(status := Failed, nextRetryAt := Some(now + RetryDelay(d.attemptCount)))
  }

  /** The row a finished attempt saves, computed from the copy the job read. */
  function Saved(copy: Delivery, attempt: Attempt, now: int): Delivery
    requires !attempt.Crash?
  {
    var d := copy.(attemptCount := copy.attemptCount + 1);
    match attempt
    case Responded(code) =>
      if 200 <= code < 300 then d.(status := Success, nextRetryAt := None) else ScheduleRetry(d, now)
    case NetworkError => ScheduleRetry(d, now)
  }

  /** The receiver took the delivery. */
  predicate Took(attempt: Attempt) {
    attempt.Responded? && 200 <= attempt.code <= 299
  }

  /** Seconds until the next attempt after this many. */
  function Wait(attempts: int): int {
    if attempts == 1 then 60 else if attempts == 2 then 300 else if attempts == 3 then 1800 else 7200
  }

  /**
   What an attempt leaves: success exactly for an answer from 200 to 299; otherwise a failure, with
   one attempt more and, below five, a retry 60, 300, 1800 or 7200 seconds later.
   */
  lemma AttemptDecides(copy: Delivery, attempt: Attempt, now: int)
    requires !attempt.Crash?
    ensures var d := Saved(copy, attempt, now);
            && d.attemptCount == copy.attemptCount + 1
            && (d.status == Success <==> Took(attempt))
            && (d.status == Failed <==> !Took(attempt))
            && d.nextRetryAt == (if Took(attempt) || d.attemptCount >= 5 then None else Some(now + Wait(d.attemptCount)))
            && (attempt == Responded(503) ==> d.status == Failed) && (attempt == Responded(204) ==> d.status == Success)
  {
    if copy.attemptCount + 1 < MAX_ATTEMPTS {
      DelayTable();
      hide RetryDelay;
    }
  }

  /** The filter of the periodic beat. */
  predicate Due(d: Delivery, now: int) {
    && d.status == Failed
    && d.nextRetryAt.Some? && d.nextRetryAt.value <= now
    && d.attemptCount < MAX_ATTEMPTS
  }

  /** The beat takes up what failed from the end of its wait on, fewer than five attempts in, and nothing else. */
  lemma DueAfterWait(copy: Delivery, attempt: Attempt, saved: int, now: int)
    requires !attempt.Crash?
    ensures Due(Saved(copy, attempt, saved), now) <==>
            !Took(attempt) && copy.attemptCount + 1 < 5 && now >= saved + Wait(copy.attemptCount + 1)
  {
    AttemptDecides(copy, attempt, saved);
    hide Saved;
  }

  class WebhookDelivery {
    var status: Status
    var attemptCount: nat
    var nextRetryAt: Option<int>

    constructor ()
      ensures Stored() == Delivery(Pending, 0, None)
    {
      status, attemptCount, nextRetryAt := Pending, 0, None;
    }

    function Stored(): Delivery
      reads this
    {
      Delivery(status, attemptCount, nextRetryAt)
    }

    method ScheduleRetryInPlace(now: int)
      requires attemptCount >= 1
      modifies this
      ensures Stored() == ScheduleRetry(old(Stored()), now)
    {
      if attemptCount >= MAX_ATTEMPTS {
        status := Failed;
        nextRetryAt := None;
        return;
      }
      var delay := RETRY_DELAYS[Min(attemptCount - 1, |RETRY_DELAYS| - 1)];
      status := Failed;
      nextRetryAt := Some(now + delay);
    }

    method PostDelivery(attempt: Attempt, now: int)
      requires !attempt.Crash?
      modifies this
      ensures Stored() == Saved(old(Stored()), attempt, now)
      ensures status == Success <==> attempt.Responded? && 200 <= attempt.code < 300
    {
      attemptCount := attemptCount + 1;
      match attempt
      case Responded(code) =>
        if 200 <= code < 300 {
          status := Success;
          nextRetryAt := None;
        } else {
          ScheduleRetryInPlace(now);
        }
      case NetworkError =>
        ScheduleRetryInPlace(now);
    }
  }

  datatype Webhook = Webhook(isActive: bool, events: set<string>)

  predicate Listens(hook: Webhook, event: string) {
    hook.isActive && (event in hook.events || "*" in hook.events)
  }

  /** One delivery, and one job for it, per listening webhook of an organization whose plan has webhooks. */
  method EnqueueEvent(organizationExists: bool, webhooksEntitled: bool, hooks: seq<Webhook>, event: string)
      returns (ids: seq<nat>, rows: seq<Delivery>, jobs: seq<nat>)
    ensures jobs == ids && |rows| == |ids|
    ensures forall k | 0 <= k < |rows| :: rows[k] == Enqueued(0).row
    ensures !organizationExists || !webhooksEntitled ==> ids == []
    ensures organizationExists && webhooksEntitled ==>
              forall i: nat :: i in ids <==>
                i < |hooks| && hooks[i].isActive && (event in hooks[i].events || "*" in hooks[i].events)
    ensures forall i, j | 0 <= i < j < |ids| :: ids[i] < ids[j]
  {
    ids, rows, jobs := [], [], [];
    if !organizationExists || !webhooksEntitled {
      return;
    }
    for i := 0 to |hooks|
      invariant jobs == ids && |rows| == |ids|
      invariant forall k | 0 <= k < |rows| :: rows[k] == Enqueued(0).row
      invariant forall j: nat :: j in ids <==> j < i && Listens(hooks[j], event)
      invariant forall j, k | 0 <= j < k < |ids| :: ids[j] < ids[k]
    {
      if !hooks[i].isActive || (event !in hooks[i].events && "*" !in hooks[i].events) {
        continue;
      }
      forall j | 0 <= j < |ids| ensures ids[j] < i {
        assert ids[j] in ids;
      }
      rows := rows + [Delivery(Pending, 0, None)];
      ids := ids + [i];
      jobs := jobs + [i];
    }
  }

  function DueIds(rows: seq<Delivery>, now: int): (ids: seq<nat>)
    ensures forall i | 0 <= i < |ids| :: ids[i] < |rows| && Due(rows[ids[i]], now)
    ensures forall i, j | 0 <= i < j < |ids| :: ids[i] < ids[j]
    ensures forall k | 0 <= k < |rows| && Due(rows[k], now) :: k in ids
  {
    if rows == [] then []
    else
      var n := |rows| - 1;
      var front := DueIds(rows[..n], now);
      assert forall i | 0 <= i < |front| :: rows[..n][front[i]] == rows[front[i]];
      if Due(rows[n], now) then front + [n] else front
  }

  /** The beat queues one job for each of the first fifty due rows, and no other. */
  method RetryPendingWebhooks(rows: seq<Delivery>, now: int) returns (queued: seq<nat>, count: nat)
    ensures queued == DueIds(rows, now)[..Min(BEAT_LIMIT, |DueIds(rows, now)|)]
    ensures count == |queued| <= 50
    ensures count < 50 ==> forall k | 0 <= k < |rows| && Due(rows[k], now) :: k in queued
  {
    var due := DueIds(rows, now);
    due := due[..Min(BEAT_LIMIT, |due|)];
    queued, count := [], 0;
    for i := 0 to |due|
      invariant queued == due[..i] && count == i
    {
      queued := queued + [due[i]];
      count := count + 1;
    }
  }

  // ------------------------------------------------------------- the machine

  datatype Limits = Limits(running: nat, outstanding: nat)

  datatype Machine = Machine(
    row: Delivery,
    queued: nat,
    running: seq<Delivery>,
    clock: int,
    postTimes: seq<int>,
    crashes: nat)

  datatype Step = Tick(seconds: nat) | Beat | StartJob | FinishJob(job: nat, attempt: Attempt)

  /** `enqueue_event` creates the row and queues the first job. */
  function Enqueued(clock: int): Machine {
    Machine(Delivery(Pending, 0, None), 1, [], clock, [], 0)
  }

  function Outstanding(m: Machine): nat {
    m.queued + |m.running|
  }

  predicate Enabled(limits: Limits, m: Machine, step: Step) {
    match step
    case Tick(_) => true
    case Beat => Due(m.row, m.clock) && Outstanding(m) < limits.outstanding
    case StartJob => m.queued > 0 && (m.row.status == Success || |m.running| < limits.running)
    case FinishJob(job, _) => job < |m.running|
  }

  function Next(limits: Limits, m: Machine, step: Step): Machine
    requires Enabled(limits, m, step)
  {
    match step
    case Tick(seconds) => m.(clock := m.clock + seconds)
    case Beat => m.(queued := m.queued + 1)
    case StartJob =>
      if m.row.status == Success then m.(queued := m.queued - 1)
      else m.(queued := m.queued - 1, running := m.running + [m.row], postTimes := m.postTimes + [m.clock])
    case FinishJob(job, attempt) =>
      var left := m.(running := RemoveAt(m.running, job));
      if attempt.Crash? then left.(crashes := m.crashes + 1)
      else left.(row := Saved(m.running[job], attempt, m.clock))
  }

  function Execute(limits: Limits, m: Machine, steps: seq<Step>): Option<Machine>
    decreases |steps|
  {
    if steps == [] then Some(m)
    else if !Enabled(limits, m, steps[0]) then None
    else Execute(limits, Next(limits, m, steps[0]), steps[1..])
  }

  // ---------------------------------------------------- one job at a time

  predicate RowShape(d: Delivery) {
    match d.status
    case Pending => d.attemptCount == 0 && d.nextRetryAt.None?
    case Success => d.nextRetryAt.None?
    case Failed => d.attemptCount >= 1 && (d.nextRetryAt.Some? <==> d.attemptCount < MAX_ATTEMPTS)
  }

  lemma SavedHasShape(copy: Delivery, attempt: Attempt, now: int)
    requires !attempt.Crash?
    ensures RowShape(Saved(copy, attempt, now))
    ensures Saved(copy, attempt, now).attemptCount == copy.attemptCount + 1
  {
  }

  /** Jobs of this delivery cannot overlap. */
  predicate OneAtATime(limits: Limits) {
    limits.outstanding >= 1 && (limits.running == 1 || limits.outstanding == 1)
  }

  predicate Serial(limits: Limits, m: Machine) {
    && OneAtATime(limits)
    && RowShape(m.row)
    && |m.running| <= 1
    && (m.running != [] ==> m.running[0] == m.row && m.row.status != Success)
    && |m.postTimes| == m.row.attemptCount + |m.running| + m.crashes
    && Outstanding(m) <= limits.outstanding
    && (m.row.attemptCount >= MAX_ATTEMPTS ==>
          m.row.attemptCount + Outstanding(m) <= MAX_ATTEMPTS - 1 + limits.outstanding)
  }

  lemma SerialStep(limits: Limits, m: Machine, step: Step)
    requires Serial(limits, m) && Enabled(limits, m, step)
    ensures Serial(limits, Next(limits, m, step))
  {
    if step.FinishJob? && !step.attempt.Crash? {
      SavedHasShape(m.running[0], step.attempt, m.clock);
    }
  }

  lemma {:induction false} SerialRun(limits: Limits, m: Machine, steps: seq<Step>, n: Machine)
    requires Serial(limits, m) && Execute(limits, m, steps) == Some(n)
    ensures Serial(limits, n)
    decreases |steps|
  {
    if steps != [] {
      SerialStep(limits, m, steps[0]);
      SerialRun(limits, Next(limits, m, steps[0]), steps[1..], n);
    }
  }

  /**
   When jobs of one delivery never overlap and at most Q are outstanding, it is POSTed at most
   MAX_ATTEMPTS - 1 + Q times besides crashed attempts; a failed row waits for a retry exactly
   while it has fewer than five attempts.
   */
  lemma {:induction false} SerialPostBound(limits: Limits, clock: int, steps: seq<Step>, m: Machine)
    requires OneAtATime(limits)
    requires Execute(limits, Enqueued(clock), steps) == Some(m)
    ensures |m.postTimes| <= MAX_ATTEMPTS - 1 + limits.outstanding + m.crashes
    ensures m.row.status == Failed ==> (m.row.nextRetryAt.Some? <==> m.row.attemptCount < MAX_ATTEMPTS)
  {
    SerialRun(limits, Enqueued(clock), steps, m);
  }

  /** When nothing is outstanding the delivery succeeded, failed for good, waits for the beat, or only crashed. */
  lemma {:induction false} SerialQuiescence(limits: Limits, clock: int, steps: seq<Step>, m: Machine)
    requires OneAtATime(limits)
    requires Execute(limits, Enqueued(clock), steps) == Some(m)
    requires Outstanding(m) == 0
    ensures || m.row.status == Success
            || (m.row.status == Failed && m.row.attemptCount >= MAX_ATTEMPTS)
            || (m.row.status == Failed && m.row.nextRetryAt.Some? && Due(m.row, m.row.nextRetryAt.value))
            || (m.row.status == Pending && m.crashes > 0)
  {
    SerialRun(limits, Enqueued(clock), steps, m);
    FirstJobCrashed(limits, Enqueued(clock), steps, m);
  }

  lemma {:induction false} FirstJobCrashed(limits: Limits, m: Machine, steps: seq<Step>, n: Machine)
    requires Execute(limits, m, steps) == Some(n)
    requires m.row.status != Pending || Outstanding(m) > 0 || m.crashes > 0
    ensures n.row.status != Pending || Outstanding(n) > 0 || n.crashes > 0
    decreases |steps|
  {
    if steps != [] {
      FirstJobCrashed(limits, Next(limits, m, steps[0]), steps[1..], n);
    }
  }

  /** Success is final: no later job POSTs and the row does not change. */
  lemma {:induction false} SuccessIsFinal(limits: Limits, m: Machine, steps: seq<Step>, n: Machine)
    requires Serial(limits, m) && m.row.status == Success
    requires Execute(limits, m, steps) == Some(n)
    ensures n.row == m.row && n.postTimes == m.postTimes
    decreases |steps|
  {
    if steps != [] {
      SerialStep(limits, m, steps[0]);
      SuccessIsFinal(limits, Next(limits, m, steps[0]), steps[1..], n);
    }
  }

  // -------------------------------------------------------- what success means

  /** Some attempt of the run was taken by the receiver. */
  predicate SomeTook(steps: seq<Step>) {
    exists i | 0 <= i < |steps| :: steps[i].FinishJob? && Took(steps[i].attempt)
  }

  /** Without an answer from 200 to 299 a row does not become a success. */
  lemma {:induction false} SuccessWasTaken(limits: Limits, m: Machine, steps: seq<Step>, n: Machine)
    requires Execute(limits, m, steps) == Some(n) && n.row.status == Success && m.row.status != Success
    ensures SomeTook(steps)
    decreases |steps|
  {
    if steps != [] {
      var next := Next(limits, m, steps[0]);
      if next.row.status == Success {
        AttemptDecides(m.running[steps[0].job], steps[0].attempt, m.clock);
        assert steps[0].FinishJob? && Took(steps[0].attempt);
      } else {
        SuccessWasTaken(limits, next, steps[1..], n);
        var i :| 0 <= i < |steps[1..]| && steps[1..][i].FinishJob? && Took(steps[1..][i].attempt);
        assert steps[i + 1].FinishJob?;
      }
    }
  }

  /** A delivery reads success only if the receiver answered 200 to 299 in its run. */
  lemma {:induction false} SuccessNeedsAcceptance(limits: Limits, clock: int, steps: seq<Step>, m: Machine)
    requires Execute(limits, Enqueued(clock), steps) == Some(m) && m.row.status == Success
    ensures exists i | 0 <= i < |steps| ::
              steps[i].FinishJob? && steps[i].attempt.Responded? && 200 <= steps[i].attempt.code <= 299
  {
    SuccessWasTaken(limits, Enqueued(clock), steps, m);
  }

  lemma {:induction false} TakenIsKept(limits: Limits, m: Machine, steps: seq<Step>, n: Machine)
    requires Serial(limits, m) && Execute(limits, m, steps) == Some(n) && SomeTook(steps)
    ensures n.row.status == Success
    decreases |steps|
  {
    var next := Next(limits, m, steps[0]);
    SerialStep(limits, m, steps[0]);
    if steps[0].FinishJob? && Took(steps[0].attempt) {
      AttemptDecides(m.running[steps[0].job], steps[0].attempt, m.clock);
      SuccessIsFinal(limits, next, steps[1..], n);
    } else {
      var i :| 0 <= i < |steps| && steps[i].FinishJob? && Took(steps[i].attempt);
      assert steps[1..][i - 1] == steps[i];
      TakenIsKept(limits, next, steps[1..], n);
    }
  }

  /** When jobs cannot overlap, a delivery reads success exactly if the receiver took it once. */
  lemma {:induction false} SuccessIffTaken(limits: Limits, clock: int, steps: seq<Step>, m: Machine)
    requires OneAtATime(limits) && Execute(limits, Enqueued(clock), steps) == Some(m)
    ensures m.row.status == Success <==>
            exists i | 0 <= i < |steps| ::
              steps[i].FinishJob? && steps[i].attempt.Responded? && 200 <= steps[i].attempt.code <= 299
  {
    if m.row.status == Success {
      SuccessNeedsAcceptance(limits, clock, steps, m);
    }
    if i :| 0 <= i < |steps| && steps[i].FinishJob? && Took(steps[i].attempt) {
      TakenIsKept(limits, Enqueued(clock), steps, m);
    }
  }

  // ---------------------------------------------------------------- timing

  predicate Spaced(times: seq<int>) {
    |times| <= MAX_ATTEMPTS && forall k | 0 < k < |times| :: times[k] >= times[k - 1] + RetryDelay(k)
  }

  predicate Timely(m: Machine) {
    && m.crashes == 0
    && Spaced(m.postTimes)
    && (m.postTimes != [] ==> m.postTimes[|m.postTimes| - 1] <= m.clock)
    && (m.postTimes != [] && m.running == [] && m.row.nextRetryAt.Some? ==>
          |m.postTimes| < MAX_ATTEMPTS
          && m.row.nextRetryAt.value >= m.postTimes[|m.postTimes| - 1] + RetryDelay(|m.postTimes|))
    && (m.queued > 0 && m.postTimes != [] ==> Due(m.row, m.clock))
  }

  lemma TimelyStep(limits: Limits, m: Machine, step: Step)
    requires limits.outstanding == 1 && Serial(limits, m) && Timely(m) && Enabled(limits, m, step)
    requires Next(limits, m, step).crashes == 0
    ensures Timely(Next(limits, m, step))
  {
  }

  lemma {:induction false} CrashesGrow(limits: Limits, m: Machine, steps: seq<Step>, n: Machine)
    requires Execute(limits, m, steps) == Some(n)
    ensures m.crashes <= n.crashes
    decreases |steps|
  {
    if steps != [] {
      CrashesGrow(limits, Next(limits, m, steps[0]), steps[1..], n);
    }
  }

  lemma {:induction false} TimelyRun(limits: Limits, m: Machine, steps: seq<Step>, n: Machine)
    requires limits.outstanding == 1 && Serial(limits, m) && Timely(m)
    requires Execute(limits, m, steps) == Some(n) && n.crashes == 0
    ensures Timely(n)
    decreases |steps|
  {
    if steps != [] {
      var next := Next(limits, m, steps[0]);
      CrashesGrow(limits, next, steps[1..], n);
      SerialStep(limits, m, steps[0]);
      TimelyStep(limits, m, steps[0]);
      TimelyRun(limits, next, steps[1..], n);
    }
  }

  function DelaySum(n: nat): int
    requires n <= |RETRY_DELAYS|
  {
    if n == 0 then 0 else DelaySum(n - 1) + RETRY_DELAYS[n - 1]
  }

  lemma {:induction false} SpacedSum(times: seq<int>, n: nat)
    requires Spaced(times) && n < |times|
    ensures times[n] >= times[0] + DelaySum(n)
  {
    if n > 0 {
      SpacedSum(times, n - 1);
    }
  }

  /** With one outstanding job and no crash, the POSTs keep the whole retry schedule: at most five, delays apart. */
  lemma {:induction false} RetrySchedule(limits: Limits, clock: int, steps: seq<Step>, m: Machine, n: nat)
    requires limits.outstanding == 1
    requires Execute(limits, Enqueued(clock), steps) == Some(m) && m.crashes == 0
    requires n < |m.postTimes|
    ensures |m.postTimes| <= MAX_ATTEMPTS
    ensures m.postTimes[n] >= m.postTimes[0] + DelaySum(n)
  {
    TimelyRun(limits, Enqueued(clock), steps, m);
    SpacedSum(m.postTimes, n);
  }

  /** Nothing happens any more to a delivery at rest that succeeded or failed for good. */
  lemma {:induction false} EndIsFinal(limits: Limits, m: Machine, steps: seq<Step>, n: Machine)
    requires limits.outstanding == 1 && Serial(limits, m) && m.running == []
    requires m.row.status == Success || m.row.attemptCount >= MAX_ATTEMPTS
    requires Execute(limits, m, steps) == Some(n)
    ensures n.row == m.row && n.postTimes == m.postTimes
    decreases |steps|
  {
    if steps != [] {
      SerialStep(limits, m, steps[0]);
      EndIsFinal(limits, Next(limits, m, steps[0]), steps[1..], n);
    }
  }

  /**
   With one outstanding job and no crash a delivery ends within five POSTs: after the fifth, once
   its job is done, it succeeded or failed for good, and no later step changes that or POSTs.
   */
  lemma {:induction false} EndsWithinFive(limits: Limits, clock: int, steps: seq<Step>, m: Machine, later: seq<Step>, n: Machine)
    requires limits.outstanding == 1
    requires Execute(limits, Enqueued(clock), steps) == Some(m) && m.crashes == 0
    requires |m.postTimes| >= MAX_ATTEMPTS && m.running == []
    requires Execute(limits, m, later) == Some(n)
    ensures |m.postTimes| == MAX_ATTEMPTS
    ensures m.row.status == Success || (m.row.status == Failed && m.row.nextRetryAt.None?)
    ensures n.row == m.row && n.postTimes == m.postTimes
  {
    SerialRun(limits, Enqueued(clock), steps, m);
    EndIsFinal(limits, m, later, n);
  }

  // ------------------------------------------------------ overlapping jobs

  /** POSTs that one unfinished attempt made from count `r` can still lead to. */
  function Weight(q: nat, r: nat): nat
    decreases MAX_ATTEMPTS - r
  {
    if r + 1 >= MAX_ATTEMPTS then 0 else q * (1 + Weight(q, r + 1))
  }

  function RunningWeight(q: nat, running: seq<Delivery>): nat {
    if running == [] then 0 else Weight(q, running[0].attemptCount) + RunningWeight(q, running[1..])
  }

  /** POSTs still possible before the row's attempt count is next written. */
  function EpochWeight(q: nat, m: Machine): int {
    if m.row.attemptCount >= MAX_ATTEMPTS then m.queued
    else (q - |m.running|) * (1 + Weight(q, m.row.attemptCount))
  }

  function Potential(q: nat, m: Machine): int {
    |m.postTimes| + RunningWeight(q, m.running) + EpochWeight(q, m)
  }

  lemma {:induction false} RunningWeightConcat(q: nat, a: seq<Delivery>, b: seq<Delivery>)
    ensures RunningWeight(q, a + b) == RunningWeight(q, a) + RunningWeight(q, b)
  {
    if a == [] {
      assert a + b == b;
    } else {
      assert (a + b)[1..] == a[1..] + b;
      RunningWeightConcat(q, a[1..], b);
    }
  }

  lemma {:induction false} RunningWeightRemove(q: nat, s: seq<Delivery>, i: nat)
    requires i < |s|
    ensures RunningWeight(q, s) == RunningWeight(q, RemoveAt(s, i)) + Weight(q, s[i].attemptCount)
  {
    assert s == s[..i] + ([s[i]] + s[i + 1..]);
    RunningWeightConcat(q, s[..i], [s[i]] + s[i + 1..]);
    RunningWeightConcat(q, [s[i]], s[i + 1..]);
    RunningWeightConcat(q, s[..i], s[i + 1..]);
  }

  lemma {:induction false} WeightShrinks(q: nat, r: nat)
    ensures Weight(q, r) <= Weight(q, 0)
    decreases r
  {
    if r > 0 {
      WeightShrinks(q, r - 1);
      WeightStep(q, r - 1);
    }
  }

  lemma {:induction false} WeightStep(q: nat, r: nat)
    ensures Weight(q, r + 1) <= Weight(q, r)
    decreases MAX_ATTEMPTS - r
  {
    if r + 2 < MAX_ATTEMPTS {
      WeightStep(q, r + 1);
      Scale(q, 1 + Weight(q, r + 2), 1 + Weight(q, r + 1));
    }
  }

  lemma Scale(k: int, a: int, b: int)
    requires a <= b && k >= 0
    ensures k * a <= k * b
  {
  }

  lemma PotentialStart(q: nat, limits: Limits, m: Machine)
    requires Outstanding(m) <= q && Enabled(limits, m, StartJob)
    ensures Potential(q, Next(limits, m, StartJob)) <= Potential(q, m)
  {
    if m.row.status != Success {
      RunningWeightConcat(q, m.running, [m.row]);
      var n := Next(limits, m, StartJob);
      var w := 1 + Weight(q, m.row.attemptCount);
      assert |n.running| == |m.running| + 1;
      assert (q - (|m.running| + 1)) * w == (q - |m.running|) * w - w;
    }
  }

  lemma {:induction false} PotentialCrash(q: nat, limits: Limits, m: Machine, job: nat)
    requires job < |m.running|
    ensures Potential(q, Next(limits, m, FinishJob(job, Crash))) <= Potential(q, m) + (1 + Weight(q, 0))
  {
    RunningWeightRemove(q, m.running, job);
    WeightShrinks(q, m.row.attemptCount);
    var w := 1 + Weight(q, m.row.attemptCount);
    hide Weight, RunningWeight;
    Distribute(q - |m.running|, 1, w);
  }

  /** Saving opens a new epoch, which the weight of the finished attempt pays for. */
  lemma PotentialSave(q: nat, limits: Limits, m: Machine, job: nat, attempt: Attempt)
    requires Outstanding(m) <= q && job < |m.running| && !attempt.Crash?
    ensures Potential(q, Next(limits, m, FinishJob(job, attempt))) <= Potential(q, m)
  {
    var n := Next(limits, m, FinishJob(job, attempt));
    var r := m.running[job].attemptCount;
    RunningWeightRemove(q, m.running, job);
    SavedHasShape(m.running[job], attempt, m.clock);
    assert EpochWeight(q, n) <= EpochWeight(q, m) + Weight(q, r) by {
      if r + 1 >= MAX_ATTEMPTS {
        Scale(q - |m.running|, 1, 1 + Weight(q, m.row.attemptCount));
      } else {
        assert EpochWeight(q, m) >= 0 by {
          Scale(q - |m.running|, 0, 1 + Weight(q, m.row.attemptCount));
        }
        ScaleLeft(q - |n.running|, q, 1 + Weight(q, r + 1));
      }
    }
  }

  lemma PotentialStep(limits: Limits, m: Machine, step: Step)
    requires Outstanding(m) <= limits.outstanding && Enabled(limits, m, step)
    ensures var q, n := limits.outstanding, Next(limits, m, step);
            && Outstanding(n) <= q
            && Potential(q, n) <= Potential(q, m) + (n.crashes - m.crashes) * (1 + Weight(q, 0))
  {
    Distribute(0, 0, 1 + Weight(limits.outstanding, 0));
    Distribute(1, 0, 1 + Weight(limits.outstanding, 0));
    hide Weight, RunningWeight;
    match step
    case Tick(_) =>
    case Beat =>
    case StartJob => PotentialStart(limits.outstanding, limits, m);
    case FinishJob(job, attempt) =>
      if attempt.Crash? {
        PotentialCrash(limits.outstanding, limits, m, job);
      } else {
        PotentialSave(limits.outstanding, limits, m, job, attempt);
      }
  }

  lemma ScaleLeft(a: int, b: int, w: nat)
    requires a <= b
    ensures a * w <= b * w
  {
  }

  lemma {:induction false} PotentialRun(limits: Limits, m: Machine, steps: seq<Step>, n: Machine)
    requires Outstanding(m) <= limits.outstanding && Execute(limits, m, steps) == Some(n)
    ensures var q := limits.outstanding;
            && Outstanding(n) <= q
            && Potential(q, n) <= Potential(q, m) + (n.crashes - m.crashes) * (1 + Weight(q, 0))
    decreases |steps|
  {
    if steps != [] {
      var mid := Next(limits, m, steps[0]);
      PotentialStep(limits, m, steps[0]);
      PotentialRun(limits, mid, steps[1..], n);
      var w := 1 + Weight(limits.outstanding, 0);
      assert (n.crashes - mid.crashes) * w + (mid.crashes - m.crashes) * w == (n.crashes - m.crashes) * w;
    }
  }

  /** POSTs one job can set off when up to `q` jobs overlap. */
  function PostsPerJob(q: nat): nat {
    1 + Weight(q, 0)
  }

  lemma PostsPerJobIs(q: nat)
    ensures PostsPerJob(q) == 1 + q * (1 + q * (1 + q * (1 + q)))
  {
    assert Weight(q, 4) == 0;
    assert Weight(q, 3) == q * (1 + 0);
    assert Weight(q, 2) == q * (1 + q);
    assert Weight(q, 1) == q * (1 + q * (1 + q));
  }

  lemma PotentialCovers(q: nat, m: Machine)
    requires Outstanding(m) <= q
    ensures |m.postTimes| <= Potential(q, m)
  {
    Scale(q - |m.running|, 0, 1 + Weight(q, m.row.attemptCount));
  }

  /**
   However jobs overlap, Q outstanding jobs lead to at most Q * PostsPerJob(Q), that is
   Q + Q^2 + ... + Q^5, POSTs; every crash can set off one such tree more.
   */
  lemma {:induction false} OverlappingPostBound(limits: Limits, clock: int, steps: seq<Step>, m: Machine)
    requires limits.outstanding >= 1
    requires Execute(limits, Enqueued(clock), steps) == Some(m)
    ensures |m.postTimes| <= (limits.outstanding + m.crashes) * PostsPerJob(limits.outstanding)
  {
    var q := limits.outstanding;
    PotentialRun(limits, Enqueued(clock), steps, m);
    PotentialCovers(q, m);
    assert Potential(q, Enqueued(clock)) == q * PostsPerJob(q);
    Distribute(q, m.crashes, PostsPerJob(q));
  }

  lemma Distribute(a: int, b: int, w: int)
    ensures (a + b) * w == a * w + b * w
  {
  }

  lemma {:induction false} ExecuteTwice(limits: Limits, m: Machine, first: seq<Step>, mid: Machine, second: seq<Step>)
    requires Execute(limits, m, first) == Some(mid)
    ensures Execute(limits, m, first + second) == Execute(limits, mid, second)
    decreases |first|
  {
    if first == [] {
      assert first + second == second;
    } else {
      assert (first + second)[1..] == first[1..] + second;
      ExecuteTwice(limits, Next(limits, m, first[0]), first[1..], mid, second);
    }
  }

  lemma {:induction false} StepByStep(limits: Limits, m: Machine, step: Step, n: Machine, rest: seq<Step>)
    requires Enabled(limits, m, step) && Next(limits, m, step) == n
    ensures Execute(limits, m, [step] + rest) == Execute(limits, n, rest)
  {
    assert ([step] + rest)[1..] == rest;
  }

  // ------------------------------------------- how far the serial bound goes

  /** A failed delivery at rest, waiting for the beat. */
  predicate Resting(m: Machine) {
    && m.queued == 0 && m.running == []
    && m.row.status == Failed && RowShape(m.row) && m.row.attemptCount < MAX_ATTEMPTS
  }

  /** Two beats before the first of their jobs saves: both jobs read the same row and POST. */
  lemma TwoJobsRead(limits: Limits, m: Machine) returns (steps: seq<Step>, n: Machine)
    requires limits.running >= 2 && limits.outstanding >= 2 && Resting(m)
    ensures Execute(limits, m, steps) == Some(n)
    ensures n.row == m.row && n.queued == 0 && n.running == [m.row, m.row]
    ensures |n.postTimes| == |m.postTimes| + 2 && n.crashes == m.crashes
  {
    var wait := WaitUntilDue(limits, m);
    var due := Next(limits, m, wait);
    var m1 := due.(queued := 1);
    var m2 := due.(queued := 2);
    var m3 := m1.(running := [m.row], postTimes := due.postTimes + [due.clock]);
    n := due.(running := [m.row, m.row], postTimes := m3.postTimes + [due.clock]);
    hide RowShape;
    StepByStep(limits, m3, StartJob, n, []);
    steps := [StartJob] + [];
    StepByStep(limits, m2, StartJob, m3, steps);
    steps := [StartJob] + steps;
    StepByStep(limits, m1, Beat, m2, steps);
    steps := [Beat] + steps;
    StepByStep(limits, due, Beat, m1, steps);
    steps := [Beat] + steps;
    StepByStep(limits, m, wait, due, steps);
    steps := [wait] + steps;
  }

  lemma {:induction false} OneStep(limits: Limits, m: Machine, step: Step, n: Machine)
    requires Enabled(limits, m, step) && Next(limits, m, step) == n
    ensures Execute(limits, m, [step]) == Some(n)
  {
    StepByStep(limits, m, step, n, []);
    assert [step] + [] == [step];
  }

  /** One retry becomes two POSTs. */
  lemma DoubledRetry(limits: Limits, m: Machine) returns (steps: seq<Step>, n: Machine)
    requires limits.running >= 2 && limits.outstanding >= 2 && Resting(m) && m.row.attemptCount + 1 < MAX_ATTEMPTS
    ensures Execute(limits, m, steps) == Some(n) && Resting(n)
    ensures n.row.attemptCount == m.row.attemptCount + 1
    ensures |n.postTimes| == |m.postTimes| + 2 && n.crashes == m.crashes
  {
    var fail := FinishJob(0, NetworkError);
    var start, both := TwoJobsRead(limits, m);
    var saved := Saved(m.row, NetworkError, both.clock);
    var one := both.(row := saved, running := [m.row]);
    n := both.(row := saved, running := []);
    SavedHasShape(m.row, NetworkError, both.clock);
    hide Saved, RowShape;
    assert RemoveAt(both.running, 0) == [m.row] && RemoveAt(one.running, 0) == [];
    OneStep(limits, one, fail, n);
    StepByStep(limits, both, fail, one, [fail]);
    ExecuteTwice(limits, m, start, both, [fail] + [fail]);
    steps := start + ([fail] + [fail]);
  }

  lemma WaitUntilDue(limits: Limits, m: Machine) returns (wait: Step)
    requires Resting(m)
    ensures wait.Tick? && Enabled(limits, m, wait)
    ensures var due := Next(limits, m, wait); due == m.(clock := due.clock) && Due(m.row, due.clock)
  {
    var at := m.row.nextRetryAt.value;
    wait := Tick(if at > m.clock then at - m.clock else 0);
  }

  /** Every beat queues one more job while the row is due. */
  lemma {:induction false} BeatsQueue(limits: Limits, m: Machine, k: nat) returns (steps: seq<Step>)
    requires Due(m.row, m.clock) && Outstanding(m) + k <= limits.outstanding
    ensures Execute(limits, m, steps) == Some(m.(queued := m.queued + k))
    decreases k
  {
    steps := [];
    if k > 0 {
      var rest := BeatsQueue(limits, m.(queued := m.queued + 1), k - 1);
      StepByStep(limits, m, Beat, m.(queued := m.queued + 1), rest);
      steps := [Beat] + rest;
    }
  }

  /** Jobs already queued POST one after the other, also once the row has failed for good. */
  lemma {:induction false} QueuedJobsPost(limits: Limits, m: Machine) returns (steps: seq<Step>, n: Machine)
    requires limits.running >= 1 && m.running == [] && m.row.status == Failed
    ensures Execute(limits, m, steps) == Some(n)
    ensures |n.postTimes| == |m.postTimes| + m.queued && n.crashes == m.crashes
    decreases m.queued
  {
    steps, n := [], m;
    if m.queued > 0 {
      var fail := FinishJob(0, NetworkError);
      var started := m.(queued := m.queued - 1, running := [m.row], postTimes := m.postTimes + [m.clock]);
      var finished := started.(running := [], row := Saved(m.row, NetworkError, m.clock));
      SavedHasShape(m.row, NetworkError, m.clock);
      assert RemoveAt(started.running, 0) == [];
      var rest;
      rest, n := QueuedJobsPost(limits, finished);
      StepByStep(limits, started, fail, finished, rest);
      StepByStep(limits, m, StartJob, started, [fail] + rest);
      steps := [StartJob] + ([fail] + rest);
    }
  }

  lemma FirstFailure(limits: Limits) returns (steps: seq<Step>, n: Machine)
    requires limits.running >= 1
    ensures Execute(limits, Enqueued(0), steps) == Some(n)
    ensures Resting(n) && n.row.attemptCount == 1 && |n.postTimes| == 1 && n.crashes == 0
  {
    var fail := FinishJob(0, NetworkError);
    var m1 := Enqueued(0).(queued := 0, running := [Delivery(Pending, 0, None)], postTimes := [0]);
    n := m1.(running := [], row := Saved(Delivery(Pending, 0, None), NetworkError, 0));
    SavedHasShape(Delivery(Pending, 0, None), NetworkError, 0);
    assert RemoveAt(m1.running, 0) == [];
    StepByStep(limits, m1, fail, n, []);
    StepByStep(limits, Enqueued(0), StartJob, m1, [fail] + []);
    steps := [StartJob] + ([fail] + []);
  }

  /** First POST and three doubled retries. */
  lemma SevenPosts(limits: Limits) returns (steps: seq<Step>, m: Machine)
    requires limits.running >= 2 && limits.outstanding >= 2
    ensures Execute(limits, Enqueued(0), steps) == Some(m) && Resting(m)
    ensures |m.postTimes| == 7 && m.crashes == 0
  {
    var more;
    steps, m := FirstFailure(limits);
    for i := 0 to 3
      invariant Execute(limits, Enqueued(0), steps) == Some(m) && Resting(m)
      invariant m.row.attemptCount == i + 1 && |m.postTimes| == 2 * i + 1 && m.crashes == 0
    {
      var before := m;
      more, m := DoubledRetry(limits, before);
      ExecuteTwice(limits, Enqueued(0), steps, before, more);
      steps := steps + more;
    }
  }

  /** Once two jobs may overlap, Q outstanding jobs can make 7 + Q POSTs without a crash. */
  lemma OverlapExceedsSerialBound(limits: Limits) returns (steps: seq<Step>, n: Machine)
    requires limits.running >= 2 && limits.outstanding >= 2
    ensures Execute(limits, Enqueued(0), steps) == Some(n)
    ensures n.crashes == 0 && |n.postTimes| == 7 + limits.outstanding
  {
    var start, m := SevenPosts(limits);
    var wait := WaitUntilDue(limits, m);
    var due := Next(limits, m, wait);
    var beats := BeatsQueue(limits, due, limits.outstanding);
    var full := due.(queued := limits.outstanding);
    var posts;
    posts, n := QueuedJobsPost(limits, full);
    ExecuteTwice(limits, due, beats, full, posts);
    StepByStep(limits, m, wait, due, beats + posts);
    ExecuteTwice(limits, Enqueued(0), start, m, [wait] + (beats + posts));
    steps := start + ([wait] + (beats + posts));
  }

  /** Q outstanding jobs never lead to more than MAX_ATTEMPTS - 1 + Q POSTs, crashed ones aside. */
  ghost predicate SerialBoundHolds(limits: Limits) {
    forall clock, steps, m :: Execute(limits, Enqueued(clock), steps) == Some(m) ==>
      |m.postTimes| <= MAX_ATTEMPTS - 1 + limits.outstanding + m.crashes
  }

  /** The bound MAX_ATTEMPTS - 1 + Q holds of all runs exactly when jobs cannot overlap. */
  lemma SerialBoundIff(limits: Limits)
    requires limits.running >= 1 && limits.outstanding >= 1
    ensures SerialBoundHolds(limits) <==> OneAtATime(limits)
  {
    if OneAtATime(limits) {
      forall clock, steps, m | Execute(limits, Enqueued(clock), steps) == Some(m)
        ensures |m.postTimes| <= MAX_ATTEMPTS - 1 + limits.outstanding + m.crashes
      {
        SerialPostBound(limits, clock, steps, m);
      }
    } else {
      var steps, m := OverlapExceedsSerialBound(limits);
    }
  }

  // ------------------------------------------------- when success is final

  /** In every run, once the row reads success no later step changes it or POSTs. */
  ghost predicate SuccessIsKept(limits: Limits) {
    forall clock, before, m, later, n ::
      Execute(limits, Enqueued(clock), before) == Some(m) && m.row.status == Success
      && Execute(limits, m, later) == Some(n)
      ==> n.row == m.row && n.postTimes == m.postTimes
  }

  /** Two jobs read the failed row; the first one to finish reports success. */
  lemma SuccessBesideStaleJob(limits: Limits) returns (steps: seq<Step>, n: Machine, stale: Delivery)
    requires limits.running >= 2 && limits.outstanding >= 2
    ensures Execute(limits, Enqueued(0), steps) == Some(n)
    ensures n.row.status == Success && n.running == [stale] && n.queued == 0
    ensures stale.attemptCount == 1
  {
    var done := FinishJob(0, Responded(200));
    var first, m := FirstFailure(limits);
    var start, both := TwoJobsRead(limits, m);
    stale := m.row;
    n := Next(limits, both, done);
    assert RemoveAt(both.running, 0) == [m.row];
    OneStep(limits, both, done, n);
    ExecuteTwice(limits, m, start, both, [done]);
    ExecuteTwice(limits, Enqueued(0), first, m, start + [done]);
    steps := first + (start + [done]);
  }

  /** A stale failure brings the delivery back, and its retry is POSTed. */
  lemma StaleFailurePosts(limits: Limits, m: Machine, stale: Delivery) returns (steps: seq<Step>, n: Machine)
    requires limits.running >= 2 && limits.outstanding >= 2
    requires m.running == [stale] && m.queued == 0 && stale.attemptCount == 1
    ensures Execute(limits, m, steps) == Some(n)
    ensures n.row.status == Failed && |n.postTimes| == |m.postTimes| + 1
  {
    var fail := FinishJob(0, NetworkError);
    var failed := Next(limits, m, fail);
    assert RemoveAt(m.running, 0) == [];
    SavedHasShape(stale, NetworkError, m.clock);
    var wait := WaitUntilDue(limits, failed);
    var due := Next(limits, failed, wait);
    var queued := due.(queued := 1);
    n := Next(limits, queued, StartJob);
    OneStep(limits, queued, StartJob, n);
    StepByStep(limits, due, Beat, queued, [StartJob]);
    StepByStep(limits, failed, wait, due, [Beat] + [StartJob]);
    StepByStep(limits, m, fail, failed, [wait] + ([Beat] + [StartJob]));
    steps := [fail] + ([wait] + ([Beat] + [StartJob]));
  }

  /** Whenever jobs can overlap, a stale failure can overwrite a success, and the receiver is POSTed again. */
  lemma OverlapUndoesSuccess(limits: Limits) returns (before: seq<Step>, m: Machine, later: seq<Step>, n: Machine)
    requires limits.running >= 2 && limits.outstanding >= 2
    ensures Execute(limits, Enqueued(0), before) == Some(m) && m.row.status == Success
    ensures Execute(limits, m, later) == Some(n) && n.row.status == Failed && |n.postTimes| > |m.postTimes|
  {
    var stale;
    before, m, stale := SuccessBesideStaleJob(limits);
    later, n := StaleFailurePosts(limits, m, stale);
  }

  /** Success is final in every run exactly when jobs of one delivery cannot overlap. */
  lemma SuccessIsKeptIff(limits: Limits)
    requires limits.running >= 1 && limits.outstanding >= 1
    ensures SuccessIsKept(limits) <==> OneAtATime(limits)
  {
    if OneAtATime(limits) {
      forall clock, before, m, later, n |
        Execute(limits, Enqueued(clock), before) == Some(m) && m.row.status == Success
        && Execute(limits, m, later) == Some(n)
        ensures n.row == m.row && n.postTimes == m.postTimes
      {
        SerialRun(limits, Enqueued(clock), before, m);
        SuccessIsFinal(limits, m, later, n);
      }
    } else {
      var before, m, later, n := OverlapUndoesSuccess(limits);
    }
  }
}
