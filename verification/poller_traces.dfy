/** Runs of the intent-status poller under a sequence of events: the owner's
    calls (`startPolling`, `pausePolling`, `resumePolling`, `cancel`,
    `forcePoll`) interleaved with steps of the polling jobs, in any order a
    scheduler could choose. */
module PollerTraces {
  import opened Wrappers
  import opened Seqs
  import P = IntentStatusPoller
  import Suspension

  datatype Event =
    | StartPolling
    | Step(job: nat)
    | PausePolling
    | ResumePolling
    | Cancel
    | ForcePoll

  function Apply(p: P.Poller, e: Event): P.Poller
  {
    match e
    case StartPolling => P.StartPolling(p)
    case Step(j) => P.Step(p, j)
    case PausePolling => P.PausePolling(p)
    case ResumePolling => P.ResumePolling(p)
    case Cancel => P.Cancel(p)
    case ForcePoll => P.ForcePoll(p).1
  }

  /** The poller after the events, in order. Every run keeps the poller's
      invariant, so `state` always holds the last value written. */
  function Run(p: P.Poller, events: seq<Event>): (r: P.Poller)
    decreases |events|
    ensures P.Valid(p) ==> P.Valid(r) && r.state == P.LastWrite(r.writes)
    ensures r.config == p.config && |r.jobs| >= |p.jobs|
  {
    if |events| == 0 then p else Run(Apply(p, events[0]), events[1..])
  }

  /** `n` steps of job `j`. */
  function Steps(j: nat, n: nat): (events: seq<Event>)
    ensures |events| == n
    ensures forall k :: 0 <= k < n ==> events[k] == Step(j)
  {
    if n == 0 then [] else [Step(j)] + Steps(j, n - 1)
  }

  lemma {:induction false} RunAppend(p: P.Poller, a: seq<Event>, b: seq<Event>)
    decreases |a|
    ensures Run(p, a + b) == Run(Run(p, a), b)
  {
    if |a| == 0 {
      assert a + b == b;
    } else {
      assert (a + b)[1..] == a[1..] + b;
      RunAppend(Apply(p, a[0]), a[1..], b);
    }
  }

  // ---------------------------------------------------------------------
  // The loop alone agrees with the pure loop
  // ---------------------------------------------------------------------

  lemma {:induction false} StepsOfStoppedJob(p: P.Poller, j: nat, n: nat)
    requires j < |p.jobs| && !P.Active(p.jobs[j])
    ensures Run(p, Steps(j, n)) == p
  {
    if n > 0 {
      assert Steps(j, n)[1..] == Steps(j, n - 1);
      StepsOfStoppedJob(p, j, n - 1);
    }
  }

  lemma RunSteps(p: P.Poller, j: nat, n: nat)
    requires n > 0
    ensures Run(p, Steps(j, n)) == Run(P.Step(p, j), Steps(j, n - 1))
  {
    assert Steps(j, n)[1..] == Steps(j, n - 1);
  }

  /** One step of a sleeping job while the poller is not paused: one delay,
      one fetch, and either the next attempt's delay or the end of the job. */
  lemma StepWhileNotPaused(p: P.Poller, j: nat, a: int)
    requires j < |p.jobs| && p.jobs[j] == P.Sleeping(a)
    requires p.suspender.channel.None?
    ensures var q := P.Step(p, j);
      var fetched := P.Fetch(p.script);
      && q.config == p.config
      && q.writes == p.writes + [fetched.0]
      && q.delays == p.delays + [P.DelayMillis(a)]
      && q.script == fetched.1
      && q.suspender == p.suspender
      && |q.jobs| == |p.jobs|
      && (fetched.0 == Some(P.RequiresAction) && a + 1 <= p.config.maxRetries ==> q.jobs[j] == P.Sleeping(a + 1))
      && (fetched.0 != Some(P.RequiresAction) || a + 1 > p.config.maxRetries ==> !P.Active(q.jobs[j]))
  {
  }

  /** The last step of a job stepped on its own: it fetches once and the
      job ends, as does the pure loop. */
  lemma SteppingAloneLast(p: P.Poller, j: nat, a: int, n: nat)
    requires j < |p.jobs| && p.jobs[j] == P.Sleeping(a) && a <= p.config.maxRetries
    requires p.suspender.channel.None? && n >= 1
    requires P.Fetch(p.script).0 != Some(P.RequiresAction) || a + 1 > p.config.maxRetries
    ensures var q := Run(p, Steps(j, n));
      var run := P.PerformPolling(p.config.maxRetries, a, p.script);
      && q.writes == p.writes + run.writes
      && q.delays == p.delays + run.delays
      && !P.Active(q.jobs[j])
  {
    RunSteps(p, j, n);
    StepWhileNotPaused(p, j, a);
    P.PerformPollingUnfold(p.config.maxRetries, a, p.script);
    StepsOfStoppedJob(P.Step(p, j), j, n - 1);
  }

  /** The first step of a job stepped on its own after a "requires action"
      result: the job sleeps before the next attempt, and the pure loop goes
      on from that attempt. */
  lemma SteppingAloneFirst(p: P.Poller, j: nat, a: int, n: nat) returns (q1: P.Poller)
    requires j < |p.jobs| && p.jobs[j] == P.Sleeping(a) && a + 1 <= p.config.maxRetries
    requires p.suspender.channel.None? && n >= 1
    requires P.Fetch(p.script).0 == Some(P.RequiresAction)
    ensures var fetched := P.Fetch(p.script);
      var run := P.PerformPolling(p.config.maxRetries, a, p.script);
      var inner := P.PerformPolling(p.config.maxRetries, a + 1, fetched.1);
      && Run(p, Steps(j, n)) == Run(q1, Steps(j, n - 1))
      && j < |q1.jobs| && q1.jobs[j] == P.Sleeping(a + 1)
      && q1.suspender.channel.None? && q1.config == p.config && q1.script == fetched.1
      && q1.writes == p.writes + [fetched.0]
      && q1.delays == p.delays + [P.DelayMillis(a)]
      && run.writes == [fetched.0] + inner.writes
      && run.delays == [P.DelayMillis(a)] + inner.delays
  {
    q1 := P.Step(p, j);
    RunSteps(p, j, n);
    StepWhileNotPaused(p, j, a);
    P.PerformPollingUnfold(p.config.maxRetries, a, p.script);
  }

  /** A job stepped on its own, with the poller not paused, does exactly what
      the pure loop does from the same attempt. */
  lemma {:induction false} SteppingAlone(p: P.Poller, j: nat, a: int, n: nat)
    requires j < |p.jobs| && p.jobs[j] == P.Sleeping(a) && a <= p.config.maxRetries
    requires p.suspender.channel.None?
    requires n >= p.config.maxRetries - a + 1
    decreases n
    ensures var q := Run(p, Steps(j, n));
      var run := P.PerformPolling(p.config.maxRetries, a, p.script);
      && q.writes == p.writes + run.writes
      && q.delays == p.delays + run.delays
      && !P.Active(q.jobs[j])
  {
    var fetched := P.Fetch(p.script);
    if fetched.0 != Some(P.RequiresAction) || a + 1 > p.config.maxRetries {
      SteppingAloneLast(p, j, a, n);
    } else {
      var inner := P.PerformPolling(p.config.maxRetries, a + 1, fetched.1);
      var q1 := SteppingAloneFirst(p, j, a, n);
      SteppingAlone(q1, j, a + 1, n - 1);
      AppendAssoc(p.writes, [fetched.0], inner.writes);
      AppendAssoc(p.delays, [P.DelayMillis(a)], inner.delays);
    }
  }

  /** Starting a new poller and letting its job run undisturbed writes to
      `state` exactly the values of the pure loop, after exactly its delays. */
  lemma PollingAloneAgreesWithLoop(config: P.PollingConfig, script: seq<P.FetchResult>, n: nat)
    requires n >= config.maxRetries
    ensures var q := Run(P.NewPoller(config, script), [StartPolling, Step(0)] + Steps(0, n));
      var run := P.PerformPolling(config.maxRetries, 1, script);
      && q.writes == run.writes
      && q.delays == run.delays
      && q.state == P.LastWrite(run.writes)
      && !P.Active(q.jobs[0])
  {
    var p0 := P.NewPoller(config, script);
    var p2 := Run(p0, [StartPolling, Step(0)]);
    RunAppend(p0, [StartPolling, Step(0)], Steps(0, n));
    assert p2 == P.Step(P.StartPolling(p0), 0);
    if config.maxRetries >= 1 {
      assert p2.jobs[0] == P.Sleeping(1);
      SteppingAlone(p2, 0, 1, n);
    } else {
      assert !P.Active(p2.jobs[0]);
      StepsOfStoppedJob(p2, 0, n);
    }
  }

  // ---------------------------------------------------------------------
  // Pausing and resuming
  // ---------------------------------------------------------------------

  /** A pause channel is installed and no job has a completed wait pending. */
  predicate Paused(p: P.Poller)
  {
    && p.suspender.channel.Some?
    && forall i :: 0 <= i < |p.jobs| ==> !p.jobs[i].Released?
  }

  lemma ApplyWhilePaused(p: P.Poller, e: Event)
    requires Paused(p) && !e.ResumePolling?
    ensures Paused(Apply(p, e))
    ensures Apply(p, e).writes == p.writes && Apply(p, e).state == p.state
  {
  }

  /** While paused, no value is written to `state`, whatever the owner and
      the scheduler do, until a resume. */
  lemma {:induction false} NoWritesWhilePaused(p: P.Poller, events: seq<Event>)
    requires Paused(p)
    requires forall k :: 0 <= k < |events| ==> !events[k].ResumePolling?
    decreases |events|
    ensures Run(p, events).writes == p.writes && Run(p, events).state == p.state
  {
    if |events| > 0 {
      ApplyWhilePaused(p, events[0]);
      NoWritesWhilePaused(Apply(p, events[0]), events[1..]);
    }
  }

  /** A job that finishes its delay while paused blocks without fetching. */
  lemma PauseBlocksAtCheckpoint(p: P.Poller, j: nat)
    requires j < |p.jobs| && p.jobs[j].Sleeping? && p.suspender.channel.Some?
    ensures var q := P.Step(p, j);
      q.writes == p.writes && q.jobs[j] == P.Waiting(p.jobs[j].attempt, p.suspender.channel.value)
  {
  }

  /** A resume that reaches the first job waiting on the current channel
      lets it go on: its next step clears the channel and fetches. */
  lemma ResumeReachesWaiter(p: P.Poller, j: nat)
    requires j < |p.jobs| && p.jobs[j].Waiting? && p.suspender.channel == Some(p.jobs[j].channel)
    requires forall i :: 0 <= i < j ==> !(p.jobs[i].Waiting? && p.suspender.channel == Some(p.jobs[i].channel))
    ensures var q := P.Step(P.ResumePolling(p), j);
      && q.writes == p.writes + [P.NthFetch(p.script, 0)]
      && q.state == P.NthFetch(p.script, 0)
      && q.suspender.channel.None?
  {
    var w := P.WaitingOn(p.jobs);
    var k := Suspension.ResumeTarget(p.suspender, w);
    assert w[j] == p.suspender.channel;
    assert k == j;
  }

  /** A resume with no job waiting on the current channel is dropped, not
      kept: a job reaching the checkpoint afterwards still blocks. */
  lemma ResumeIsNotLatched(p: P.Poller, j: nat)
    requires j < |p.jobs| && p.jobs[j].Sleeping? && p.suspender.channel.Some?
    requires forall i :: 0 <= i < |p.jobs| ==> !(p.jobs[i].Waiting? && p.suspender.channel == Some(p.jobs[i].channel))
    ensures P.ResumePolling(p) == p
    ensures var q := P.Step(P.ResumePolling(p), j);
      q.writes == p.writes && q.jobs[j].Waiting?
  {
  }

  /** A job stays blocked on a channel that is no longer the current one
      whatever happens next, unless it is cancelled: a second pause while
      the loop waits strands it. */
  lemma {:induction false} StrandedWaiter(p: P.Poller, j: nat, a: int, c: nat, events: seq<Event>)
    requires P.Valid(p) && j < |p.jobs|
    requires p.jobs[j] == P.Waiting(a, c) || p.jobs[j] == P.Cancelled
    requires p.jobs[j].Waiting? ==> p.suspender.channel != Some(c)
    requires c < p.suspender.nextChannel
    decreases |events|
    ensures Run(p, events).jobs[j] == P.Waiting(a, c) || Run(p, events).jobs[j] == P.Cancelled
  {
    if |events| > 0 {
      var q := Apply(p, events[0]);
      assert |q.jobs| >= |p.jobs|;
      assert q.suspender.nextChannel >= p.suspender.nextChannel;
      if events[0].ResumePolling? && p.jobs[j].Waiting? {
        assert q.jobs[j] == p.jobs[j];
      }
      StrandedWaiter(q, j, a, c, events[1..]);
    }
  }

  // ---------------------------------------------------------------------
  // Cancelling
  // ---------------------------------------------------------------------

  lemma CancelIsIdempotent(p: P.Poller)
    ensures P.Cancel(P.Cancel(p)) == P.Cancel(p)
    ensures P.Cancel(p).pollingJob.None?
  {
  }

  predicate NoActiveJob(p: P.Poller)
  {
    forall i :: 0 <= i < |p.jobs| ==> !P.Active(p.jobs[i])
  }

  lemma ApplyWithoutActiveJob(p: P.Poller, e: Event)
    requires NoActiveJob(p) && !e.StartPolling?
    ensures NoActiveJob(Apply(p, e)) && Apply(p, e).writes == p.writes
  {
  }

  /** After `cancel`, when the cancelled job was the only one running, no
      value is written again until polling is started anew. */
  lemma {:induction false} CancelStopsWrites(p: P.Poller, events: seq<Event>)
    requires forall i :: 0 <= i < |p.jobs| && P.Active(p.jobs[i]) ==> p.pollingJob == Some(i)
    requires forall k :: 0 <= k < |events| ==> !events[k].StartPolling?
    ensures Run(P.Cancel(p), events).writes == p.writes
  {
    NoActiveRunHasNoWrites(P.Cancel(p), events);
  }

  lemma {:induction false} NoActiveRunHasNoWrites(p: P.Poller, events: seq<Event>)
    requires NoActiveJob(p)
    requires forall k :: 0 <= k < |events| ==> !events[k].StartPolling?
    decreases |events|
    ensures Run(p, events).writes == p.writes
  {
    if |events| > 0 {
      ApplyWithoutActiveJob(p, events[0]);
      NoActiveRunHasNoWrites(Apply(p, events[0]), events[1..]);
    }
  }

  // ---------------------------------------------------------------------
  // Scenarios of the test suite
  // ---------------------------------------------------------------------

  const TestConfig: P.PollingConfig := P.PollingConfig("secret", 10)

  /** A first fetch that succeeds: `state` goes from null to succeeded after
      the first delay. */
  lemma SuccessOnFirstPoll()
    ensures var p := P.NewPoller(TestConfig, [Some(P.Succeeded)]);
      var q := Run(p, [StartPolling, Step(0), Step(0)]);
      && p.state == None
      && q.writes == [Some(P.Succeeded)]
      && q.delays == [4000]
      && q.jobs[0] == P.Finished
  {
    var p := P.NewPoller(TestConfig, [Some(P.Succeeded)]);
    var q1 := P.StartPolling(p);
    var q2 := P.Step(q1, 0);
    var q3 := P.Step(q2, 0);
    assert Run(p, [StartPolling, Step(0), Step(0)]) == Run(q3, []);
  }

  /** "Requires action" keeps the loop going: `state` goes null, requires
      action, succeeded, after delays of 4 and 9 seconds. */
  lemma ContinuesOnRequiresAction()
    ensures var p := P.NewPoller(TestConfig, [Some(P.RequiresAction), Some(P.Succeeded)]);
      var q := Run(p, [StartPolling, Step(0), Step(0), Step(0)]);
      && p.state == None
      && q.writes == [Some(P.RequiresAction), Some(P.Succeeded)]
      && q.delays == [4000, 9000]
      && q.jobs[0] == P.Finished
  {
    var p := P.NewPoller(TestConfig, [Some(P.RequiresAction), Some(P.Succeeded)]);
    var q1 := P.StartPolling(p);
    var q2 := P.Step(q1, 0);
    var q3 := P.Step(q2, 0);
    assert q3.jobs[0] == P.Sleeping(2);
    var q4 := P.Step(q3, 0);
    assert Run(p, [StartPolling, Step(0), Step(0), Step(0)]) == Run(q4, []);
  }

  /** Cancelling after the first "requires action" stops all writes. */
  lemma CancelAfterFirstResult()
    ensures var p := P.NewPoller(TestConfig, [Some(P.RequiresAction), Some(P.RequiresAction)]);
      var q := Run(p, [StartPolling, Step(0), Step(0), Cancel, Step(0)]);
      && q.writes == [Some(P.RequiresAction)]
      && q.jobs[0] == P.Cancelled
      && q.pollingJob.None?
  {
    var p := P.NewPoller(TestConfig, [Some(P.RequiresAction), Some(P.RequiresAction)]);
    var q1 := P.StartPolling(p);
    var q2 := P.Step(q1, 0);
    var q3 := P.Step(q2, 0);
    var q4 := P.Cancel(q3);
    var q5 := P.Step(q4, 0);
    assert Run(p, [StartPolling, Step(0), Step(0), Cancel, Step(0)]) == Run(q5, []);
  }

  /** Pausing after the first "requires action" holds back the next fetch
      until a resume; then "succeeded" is written. */
  lemma PauseHoldsUntilResume()
    ensures var p := P.NewPoller(TestConfig, [Some(P.RequiresAction), Some(P.Succeeded)]);
      var paused := Run(p, [StartPolling, Step(0), Step(0), PausePolling, Step(0), Step(0)]);
      var resumed := Run(paused, [ResumePolling, Step(0)]);
      && paused.writes == [Some(P.RequiresAction)]
      && resumed.writes == [Some(P.RequiresAction), Some(P.Succeeded)]
  {
    var p := P.NewPoller(TestConfig, [Some(P.RequiresAction), Some(P.Succeeded)]);
    var q1 := P.StartPolling(p);
    var q2 := P.Step(q1, 0);
    var q3 := P.Step(q2, 0);
    var q4 := P.PausePolling(q3);
    var q5 := P.Step(q4, 0);
    assert q5.jobs[0] == P.Waiting(2, 0);
    var q6 := P.Step(q5, 0);
    assert Run(p, [StartPolling, Step(0), Step(0), PausePolling, Step(0), Step(0)]) == Run(q6, []);
    var q7 := P.ResumePolling(q6);
    assert q7.jobs[0] == P.Released(2) by {
      assert P.WaitingOn(q6.jobs)[0] == Some(0);
    }
    var q8 := P.Step(q7, 0);
    assert Run(q6, [ResumePolling, Step(0)]) == Run(q8, []);
  }

  /** `startPolling` does not stop a running job: after starting twice and
      cancelling, the first job still polls and writes. */
  lemma RestartOrphansRunningJob()
    ensures var p := P.NewPoller(TestConfig, [Some(P.RequiresAction), Some(P.RequiresAction)]);
      var q := Run(p, [StartPolling, StartPolling, Cancel, Step(0), Step(0)]);
      && q.pollingJob.None?
      && q.jobs[1] == P.Cancelled
      && q.writes == [Some(P.RequiresAction)]
  {
    var p := P.NewPoller(TestConfig, [Some(P.RequiresAction), Some(P.RequiresAction)]);
    var q1 := P.StartPolling(p);
    var q2 := P.StartPolling(q1);
    var q3 := P.Cancel(q2);
    var q4 := P.Step(q3, 0);
    var q5 := P.Step(q4, 0);
    assert Run(p, [StartPolling, StartPolling, Cancel, Step(0), Step(0)]) == Run(q5, []);
  }

  /** A job that finishes calls `cancel`, which cancels the job the handle
      names: after starting twice, the first job's result cancels the second
      job before it has fetched anything. */
  lemma FinishingJobCancelsNewerJob()
    ensures var p := P.NewPoller(TestConfig, [Some(P.Succeeded)]);
      var q := Run(p, [StartPolling, StartPolling, Step(1), Step(0), Step(0)]);
      && q.writes == [Some(P.Succeeded)]
      && q.jobs[0] == P.Finished
      && q.jobs[1] == P.Cancelled
      && q.pollingJob.None?
  {
    var p := P.NewPoller(TestConfig, [Some(P.Succeeded)]);
    var q1 := P.StartPolling(p);
    var q2 := P.StartPolling(q1);
    var q3 := P.Step(q2, 1);
    assert q3.jobs[1] == P.Sleeping(1);
    var q4 := P.Step(q3, 0);
    var q5 := P.Step(q4, 0);
    assert Run(p, [StartPolling, StartPolling, Step(1), Step(0), Step(0)]) == Run(q5, []);
  }

  /** A pause that arrives after a resume has released a job, but before
      that job runs on, is lost: the job clears the pause channel on its way
      out of the checkpoint and fetches anyway. */
  lemma PauseAfterResumeIsLost()
    ensures var p := P.NewPoller(TestConfig, [Some(P.Succeeded)]);
      var repaused := Run(p, [StartPolling, Step(0), PausePolling, Step(0), ResumePolling, PausePolling]);
      var q := Run(repaused, [Step(0)]);
      && repaused.suspender.channel.Some?
      && repaused.writes == []
      && q.writes == [Some(P.Succeeded)]
      && q.suspender.channel.None?
  {
    var p := P.NewPoller(TestConfig, [Some(P.Succeeded)]);
    var q1 := P.StartPolling(p);
    var q2 := P.Step(q1, 0);
    var q3 := P.PausePolling(q2);
    var q4 := P.Step(q3, 0);
    assert q4.jobs[0] == P.Waiting(1, 0);
    var q5 := P.ResumePolling(q4);
    assert q5.jobs[0] == P.Released(1) by {
      assert P.WaitingOn(q4.jobs)[0] == Some(0);
    }
    var q6 := P.PausePolling(q5);
    assert Run(p, [StartPolling, Step(0), PausePolling, Step(0), ResumePolling, PausePolling]) == Run(q6, []);
    var q7 := P.Step(q6, 0);
    assert Run(q6, [Step(0)]) == Run(q7, []);
  }
}
