/** `DefaultIntentStatusPoller`: polls the status of a payment intent with a
    growing delay until the status is no longer "requires action", publishing
    every fetched status in `state`, and lets its owner pause, resume, cancel
    or force an extra fetch.

    Coroutines are modelled as jobs that advance one step at a time: a step
    runs a job from one suspension point (its launch, the backoff delay, the
    wait on the pause channel) to the next. The network is a script of fetch
    results, consumed in order, as the test suite's fake repository does.
    Time is not modelled: delays are recorded as numbers. */
module IntentStatusPoller {
  import opened Wrappers
  import Suspension

  /** `StripeIntent.Status`. */
  datatype Status =
    | Canceled
    | Processing
    | RequiresAction
    | RequiresCapture
    | RequiresConfirmation
    | RequiresPaymentMethod
    | Succeeded

  /** `IntentStatusPollingConfig`. */
  datatype PollingConfig = PollingConfig(clientSecret: string, maxRetries: int)

  /** The result of one fetch: `None` when the fetch failed or the intent
      carried no status. */
  type FetchResult = Option<Status>

  // ---------------------------------------------------------------------
  // Backoff
  // ---------------------------------------------------------------------

  /** `calculateDelayInMillis`: (1 + attempt)^2 whole seconds, in
      milliseconds. */
  function DelayMillis(attempt: int): (ms: int)
    ensures 1 <= attempt ==> 4000 <= ms
  {
    assert 1 <= attempt ==> 2 * 2 <= (1 + attempt) * (1 + attempt);
    (1 + attempt) * (1 + attempt) * 1000
  }

  /** The first delays are 4, 9 and 16 seconds. */
  lemma DelaySchedule()
    ensures DelayMillis(1) == 4000 && DelayMillis(2) == 9000 && DelayMillis(3) == 16000
  {
  }

  /** Every delay is at least four seconds, and a later attempt always waits
      strictly longer. */
  lemma DelayGrowsWithAttempt(a: int, b: int)
    requires 1 <= a < b
    ensures 4000 <= DelayMillis(a) < DelayMillis(b)
  {
    var x, y := 1 + a, 1 + b;
    assert y * y - x * x == (y - x) * (y + x);
    assert (y - x) * (y + x) > 0;
    assert x * x >= 4 by {
      assert x * x - 4 == (x - 2) * (x + 2);
    }
  }

  // ---------------------------------------------------------------------
  // Fetching
  // ---------------------------------------------------------------------

  /** The `i`-th result a script delivers: a script that has run out makes
      the repository throw, and a throw reads as `None`. */
  function NthFetch(script: seq<FetchResult>, i: nat): FetchResult
  {
    if i < |script| then script[i] else None
  }

  /** `fetchIntentStatus` against the scripted repository: the next result
      and the rest of the script. */
  function Fetch(script: seq<FetchResult>): (r: (FetchResult, seq<FetchResult>))
    ensures r.0 == NthFetch(script, 0)
    ensures r.1 == if |script| == 0 then [] else script[1..]
  {
    if |script| == 0 then (None, []) else (script[0], script[1..])
  }

  /** A fetch consumes exactly one result: what the script delivers next,
      after the fetch, is what it would have delivered one fetch later; an
      exhausted script keeps failing. */
  lemma FetchConsumesOne(script: seq<FetchResult>)
    ensures forall i: nat :: NthFetch(Fetch(script).1, i) == NthFetch(script, i + 1)
    ensures |script| == 0 ==> Fetch(script).0.None? && Fetch(script).1 == []
  {
  }

  // ---------------------------------------------------------------------
  // The polling loop on its own
  // ---------------------------------------------------------------------

  /** The trace of an uninterrupted loop: the values written to `state`, the
      delays waited before each fetch, and what is left of the script. */
  datatype LoopRun = LoopRun(writes: seq<FetchResult>, delays: seq<int>, rest: seq<FetchResult>)

  /** `performPolling` from attempt `attempt` on, with nobody pausing or
      cancelling: it fetches after each delay, writes the result, stops on
      anything but "requires action", and gives up after `maxRetries`
      attempts. */
  function PerformPolling(maxRetries: int, attempt: int, script: seq<FetchResult>): (run: LoopRun)
    decreases if attempt <= maxRetries then maxRetries - attempt + 1 else 0
    ensures |run.delays| == |run.writes|
    ensures |run.writes| <= if attempt <= maxRetries then maxRetries - attempt + 1 else 0
    ensures attempt <= maxRetries ==> |run.writes| >= 1
    ensures forall i :: 0 <= i < |run.writes| ==> run.writes[i] == NthFetch(script, i)
    ensures forall i :: 0 <= i < |run.writes| - 1 ==> run.writes[i] == Some(RequiresAction)
    ensures 0 < |run.writes| < maxRetries - attempt + 1 ==> run.writes[|run.writes| - 1] != Some(RequiresAction)
  {
    if attempt > maxRetries then
      LoopRun([], [], script)
    else
      var fetched := Fetch(script);
      var status := fetched.0;
      if status != Some(RequiresAction) then
        LoopRun([status], [DelayMillis(attempt)], fetched.1)
      else
        var run := PerformPolling(maxRetries, attempt + 1, fetched.1);
        var writes := [status] + run.writes;
        var delays := [DelayMillis(attempt)] + run.delays;
        assert forall i :: 1 <= i < |writes| ==> writes[i] == run.writes[i - 1] == NthFetch(script, i);
        LoopRun(writes, delays, run.rest)
  }

  /** One turn of the loop: a delay, a fetch, and then either the end of the
      loop or the rest of it from the next attempt. */
  lemma PerformPollingUnfold(maxRetries: int, attempt: int, script: seq<FetchResult>)
    requires attempt <= maxRetries
    ensures var run := PerformPolling(maxRetries, attempt, script);
      var fetched := Fetch(script);
      var inner := PerformPolling(maxRetries, attempt + 1, fetched.1);
      && (fetched.0 != Some(RequiresAction) || attempt + 1 > maxRetries ==>
            run.writes == [fetched.0] && run.delays == [DelayMillis(attempt)])
      && (fetched.0 == Some(RequiresAction) ==>
            run.writes == [fetched.0] + inner.writes && run.delays == [DelayMillis(attempt)] + inner.delays)
  {
  }

  /** Before its `i`-th fetch (counting from 0) the loop waits the delay of
      attempt `attempt + i`. */
  lemma {:induction false} PerformPollingDelay(maxRetries: int, attempt: int, script: seq<FetchResult>, i: int)
    requires 0 <= i < |PerformPolling(maxRetries, attempt, script).delays|
    decreases i
    ensures PerformPolling(maxRetries, attempt, script).delays[i] == DelayMillis(attempt + i)
  {
    var run := PerformPolling(maxRetries, attempt, script);
    assert attempt <= maxRetries;
    var fetched := Fetch(script);
    if i > 0 {
      assert fetched.0 == Some(RequiresAction);
      var inner := PerformPolling(maxRetries, attempt + 1, fetched.1);
      assert run.delays == [DelayMillis(attempt)] + inner.delays;
      PerformPollingDelay(maxRetries, attempt + 1, fetched.1, i - 1);
      assert attempt + 1 + (i - 1) == attempt + i;
    }
  }

  /** The loop waits (1 + k)^2 seconds before attempt k. */
  lemma PerformPollingDelays(maxRetries: int, attempt: int, script: seq<FetchResult>)
    ensures var run := PerformPolling(maxRetries, attempt, script);
      forall i :: 0 <= i < |run.delays| ==> run.delays[i] == DelayMillis(attempt + i)
  {
    forall i | 0 <= i < |PerformPolling(maxRetries, attempt, script).delays| {
      PerformPollingDelay(maxRetries, attempt, script, i);
    }
  }

  // ---------------------------------------------------------------------
  // The poller
  // ---------------------------------------------------------------------

  /** Where a polling job is. */
  datatype Phase =
    | Launched                              // launched, not yet run
    | Sleeping(attempt: int)                // in the backoff delay before `attempt`
    | Waiting(attempt: int, channel: nat)   // blocked on the pause channel
    | Released(attempt: int)                // its wait has ended; not yet run again
    | Finished                              // `performPolling` has returned
    | Cancelled

  predicate Active(ph: Phase)
  {
    !ph.Finished? && !ph.Cancelled?
  }

  /** The poller and its surroundings. `writes` logs every value written to
      `state`, `delays` every delay waited out, and `jobs` every job ever
      launched; `pollingJob` is the job handle (an index into `jobs`). */
  datatype Poller = Poller(
    config: PollingConfig,
    script: seq<FetchResult>,
    state: FetchResult,
    writes: seq<FetchResult>,
    delays: seq<int>,
    suspender: Suspension.Suspender,
    jobs: seq<Phase>,
    pollingJob: Option<nat>)

  /** The last value written, or the initial `null`. */
  function LastWrite(writes: seq<FetchResult>): FetchResult
  {
    if |writes| == 0 then None else writes[|writes| - 1]
  }

  predicate PhaseValid(config: PollingConfig, nextChannel: nat, ph: Phase)
  {
    match ph
    case Sleeping(a) => 1 <= a <= config.maxRetries
    case Waiting(a, c) => 1 <= a <= config.maxRetries && c < nextChannel
    case Released(a) => 1 <= a <= config.maxRetries
    case _ => true
  }

  /** The invariant of the poller: `state` holds the last value written,
      the job handle names a launched job, and every job's attempt counter
      and channel are in range. */
  predicate Valid(p: Poller)
  {
    && Suspension.Valid(p.suspender)
    && p.state == LastWrite(p.writes)
    && (p.pollingJob.Some? ==> p.pollingJob.value < |p.jobs|)
    && forall i :: 0 <= i < |p.jobs| ==> PhaseValid(p.config, p.suspender.nextChannel, p.jobs[i])
  }

  /** A new poller: `state` is null, nothing is running or paused. */
  function NewPoller(config: PollingConfig, script: seq<FetchResult>): (p: Poller)
    ensures Valid(p)
    ensures p.state.None? && p.writes == [] && p.jobs == [] && p.pollingJob.None?
    ensures p.suspender.channel.None?
  {
    Poller(config, script, None, [], [], Suspension.Initial, [], None)
  }

  /** `startPolling`: launches a new job and overwrites the job handle,
      whether or not an earlier job is still running. */
  function StartPolling(p: Poller): (r: Poller)
    ensures Valid(p) ==> Valid(r)
    ensures r.jobs == p.jobs + [Launched] && r.pollingJob == Some(|p.jobs|)
    ensures r == p.(jobs := r.jobs, pollingJob := r.pollingJob)
  {
    p.(jobs := p.jobs + [Launched], pollingJob := Some(|p.jobs|))
  }

  /** `cancel`: cancels the job the handle names, if it is still running,
      and clears the handle. Every other job is left alone. */
  function Cancel(p: Poller): (r: Poller)
    ensures Valid(p) ==> Valid(r)
    ensures r.pollingJob.None?
    ensures |r.jobs| == |p.jobs|
    ensures forall i :: 0 <= i < |p.jobs| && r.jobs[i] != p.jobs[i] ==>
      p.pollingJob == Some(i) && Active(p.jobs[i]) && r.jobs[i] == Cancelled
    ensures p.pollingJob.Some? && p.pollingJob.value < |p.jobs| && Active(p.jobs[p.pollingJob.value]) ==>
      r.jobs[p.pollingJob.value] == Cancelled
    ensures r == p.(jobs := r.jobs, pollingJob := None)
  {
    match p.pollingJob
    case None => p
    case Some(h) =>
      if h < |p.jobs| && Active(p.jobs[h]) then p.(jobs := p.jobs[h := Cancelled], pollingJob := None)
      else p.(pollingJob := None)
  }

  /** `pausePolling`: installs a fresh pause channel. */
  function PausePolling(p: Poller): (r: Poller)
    ensures Valid(p) ==> Valid(r)
    ensures r.suspender.channel.Some?
    ensures forall i :: 0 <= i < |p.jobs| && p.jobs[i].Waiting? && p.jobs[i].channel < p.suspender.nextChannel ==>
      r.suspender.channel != Some(p.jobs[i].channel)
    ensures r == p.(suspender := r.suspender)
  {
    p.(suspender := Suspension.Suspend(p.suspender))
  }

  /** The channel each job is blocked on, if any. */
  function WaitingOn(jobs: seq<Phase>): (w: seq<Option<nat>>)
    ensures |w| == |jobs|
    ensures forall i :: 0 <= i < |jobs| ==> w[i] == if jobs[i].Waiting? then Some(jobs[i].channel) else None
  {
    seq(|jobs|, i requires 0 <= i < |jobs| => if jobs[i].Waiting? then Some(jobs[i].channel) else None)
  }

  /** `resumePolling`: releases the first job blocked on the current pause
      channel. With no channel, or no job blocked on it, nothing happens:
      the signal is not kept for later. */
  function ResumePolling(p: Poller): (r: Poller)
    ensures Valid(p) ==> Valid(r)
    ensures |r.jobs| == |p.jobs|
    ensures r == p.(jobs := r.jobs)
    ensures (p.suspender.channel.None? || forall i :: 0 <= i < |p.jobs| ==> !(p.jobs[i].Waiting? && Some(p.jobs[i].channel) == p.suspender.channel)) ==>
      r == p
    ensures forall i :: 0 <= i < |p.jobs| && r.jobs[i] != p.jobs[i] ==>
      && p.jobs[i].Waiting?
      && Some(p.jobs[i].channel) == p.suspender.channel
      && r.jobs[i] == Released(p.jobs[i].attempt)
    ensures forall k ::
      (&& 0 <= k < |p.jobs| && p.jobs[k].Waiting? && Some(p.jobs[k].channel) == p.suspender.channel
       && (forall i :: 0 <= i < k ==> !(p.jobs[i].Waiting? && Some(p.jobs[i].channel) == p.suspender.channel)))
      ==> r.jobs[k] == Released(p.jobs[k].attempt)
  {
    var w := WaitingOn(p.jobs);
    var k := Suspension.ResumeTarget(p.suspender, w);
    if k == -1 then p
    else
      assert w[k] == Some(p.jobs[k].channel);
      p.(jobs := p.jobs[k := Released(p.jobs[k].attempt)])
  }

  /** `forcePoll`: one fetch, returned to the caller; `state`, the jobs and
      the pause channel are untouched. */
  function ForcePoll(p: Poller): (r: (FetchResult, Poller))
    ensures r.0 == NthFetch(p.script, 0)
    ensures r.1 == p.(script := r.1.script)
    ensures forall i: nat :: NthFetch(r.1.script, i) == NthFetch(p.script, i + 1)
    ensures Valid(p) ==> Valid(r.1)
  {
    var (status, rest) := Fetch(p.script);
    (status, p.(script := rest))
  }

  /** The loop condition `attemptedRetries <= maxRetries`, followed by the
      start of the delay. */
  function LoopHead(p: Poller, j: nat, attempt: int): (r: Poller)
    requires j < |p.jobs|
    ensures Valid(p) && 1 <= attempt ==> Valid(r)
    ensures r == p.(jobs := r.jobs) && |r.jobs| == |p.jobs|
    ensures forall i :: 0 <= i < |p.jobs| && i != j ==> r.jobs[i] == p.jobs[i]
    ensures r.jobs[j].Sleeping? <==> attempt <= p.config.maxRetries
    ensures r.jobs[j].Sleeping? ==> r.jobs[j].attempt == attempt
    ensures !r.jobs[j].Sleeping? ==> r.jobs[j] == Finished
  {
    p.(jobs := p.jobs[j := if attempt <= p.config.maxRetries then Sleeping(attempt) else Finished])
  }

  /** A fetch, its write to `state`, and the decision to go on: anything
      but "requires action" calls `cancel` and leaves the loop. */
  function FetchAndDecide(p: Poller, j: nat, attempt: int): (r: Poller)
    requires j < |p.jobs|
    ensures Valid(p) && 1 <= attempt ==> Valid(r)
    ensures r.config == p.config && r.delays == p.delays && r.suspender == p.suspender && |r.jobs| == |p.jobs|
    ensures r.writes == p.writes + [NthFetch(p.script, 0)] && r.state == NthFetch(p.script, 0)
    ensures forall i: nat :: NthFetch(r.script, i) == NthFetch(p.script, i + 1)
    ensures r.state != Some(RequiresAction) ==> r.jobs[j] == Finished && r.pollingJob.None?
    ensures r.state == Some(RequiresAction) ==>
      || (r.jobs[j] == Sleeping(attempt + 1) && attempt + 1 <= p.config.maxRetries)
      || (r.jobs[j] == Finished && attempt + 1 > p.config.maxRetries)
    ensures forall i :: 0 <= i < |p.jobs| && i != j && r.jobs[i] != p.jobs[i] ==> r.jobs[i] == Cancelled
    ensures (&& r.state != Some(RequiresAction) && p.pollingJob.Some? && p.pollingJob.value != j
             && p.pollingJob.value < |p.jobs| && Active(p.jobs[p.pollingJob.value]))
      ==> r.jobs[p.pollingJob.value] == Cancelled
    ensures r.state == Some(RequiresAction) ==>
      r.pollingJob == p.pollingJob && forall i :: 0 <= i < |p.jobs| && i != j ==> r.jobs[i] == p.jobs[i]
    ensures forall i :: 0 <= i < |p.jobs| && i != j && p.pollingJob != Some(i) ==> r.jobs[i] == p.jobs[i]
  {
    var (status, rest) := Fetch(p.script);
    var written := p.(script := rest, state := status, writes := p.writes + [status]);
    if status != Some(RequiresAction) then
      var cancelled := Cancel(written);
      cancelled.(jobs := cancelled.jobs[j := Finished])
    else
      LoopHead(written, j, attempt + 1)
  }

  predicate HasAttempt(ph: Phase)
  {
    ph.Sleeping? || ph.Waiting? || ph.Released?
  }

  /** Runs job `j` up to its next suspension point. At most one value is
      written, and it is the next fetch result; the job's attempt counter
      moves only by one, and only after a "requires action" result; a job
      that wrote anything else has finished; the only other job that can
      change is the one the handle names, cancelled by the `cancel` of a job
      that has just written something other than "requires action". */
  function Step(p: Poller, j: nat): (r: Poller)
    ensures Valid(p) ==> Valid(r)
    ensures r.config == p.config && |r.jobs| == |p.jobs|
    ensures r.writes == p.writes || (r.writes == p.writes + [NthFetch(p.script, 0)] && r.state == NthFetch(p.script, 0))
    ensures r.writes != p.writes ==> forall i: nat :: NthFetch(r.script, i) == NthFetch(p.script, i + 1)
    ensures r.writes == p.writes ==> r.script == p.script && r.state == p.state
    ensures j < |p.jobs| && r.writes != p.writes && r.state != Some(RequiresAction) ==> r.jobs[j] == Finished && r.pollingJob.None?
    ensures j < |p.jobs| && HasAttempt(p.jobs[j]) && HasAttempt(r.jobs[j]) ==>
      || (r.jobs[j].attempt == p.jobs[j].attempt && r.writes == p.writes)
      || (r.jobs[j].attempt == p.jobs[j].attempt + 1 && r.writes == p.writes + [Some(RequiresAction)])
    ensures forall i :: 0 <= i < |p.jobs| && i != j && r.jobs[i] != p.jobs[i] ==> r.jobs[i] == Cancelled
    ensures forall i :: 0 <= i < |p.jobs| && i != j && r.jobs[i] != p.jobs[i] ==>
      p.pollingJob == Some(i) && r.writes != p.writes && r.state != Some(RequiresAction)
    ensures j < |p.jobs| && !Active(p.jobs[j]) ==> r == p
  {
    if j >= |p.jobs| then p
    else
      match p.jobs[j]
      case Launched => LoopHead(p, j, 1)
      case Sleeping(a) =>
        var slept := p.(delays := p.delays + [DelayMillis(a)]);
        (match Suspension.WaitIfSuspended(p.suspender)
         case Proceed => FetchAndDecide(slept, j, a)
         case Block(c) => slept.(jobs := p.jobs[j := Waiting(a, c)]))
      case Waiting(_, _) => p
      case Released(a) => FetchAndDecide(p.(suspender := Suspension.CompleteWait(p.suspender)), j, a)
      case Finished => p
      case Cancelled => p
  }
}
