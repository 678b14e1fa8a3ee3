/** What the worker pool guarantees over every run: each job answered exactly once, a shutdown that
    ends, and when a Submit can panic. */
module PoolGuarantees {
  import opened Pool

  lemma {:induction false} RunKeeps(ps: Processors, s: State, steps: seq<Step>, last: State)
    requires Inv(ps, s) && Reaches(ps, s, steps, last)
    ensures Inv(ps, last)
    decreases |steps|
  {
    if steps != [] {
      StepKeeps(ps, s, steps[0]);
      RunKeeps(ps, Take(ps, s, steps[0]), steps[1..], last);
    }
  }

  // ----- exactly once

  /** The five places a submitted job can be in. */
  ghost predicate Deciding(s: State, t: nat) { SubmitAt(s, t, Selecting) || SubmitAt(s, t, Parked) }

  ghost predicate Refused(s: State, t: nat) {
    SubmitAt(s, t, Refusing) || SubmitAt(s, t, RejectionSent) || SubmitAt(s, t, Rejected)
  }

  ghost predicate Queued(s: State, t: nat) { SubmitAt(s, t, Enqueued) && t in s.queue }

  ghost predicate InProcess(s: State, t: nat) { SubmitAt(s, t, Enqueued) && Held(s, t) }

  ghost predicate Done(s: State, t: nat) {
    SubmitAt(s, t, Enqueued) && Answered(s, t)
  }

  function Count(b: bool): nat { if b then 1 else 0 }

  /** At any time a job is in exactly one place, its channel has carried at most one value, and a
      closed channel has carried exactly the refusal or what its own processing returned. */
  lemma ExactlyOnce(ps: Processors, s: State, t: nat)
    requires Inv(ps, s) && t < |s.submissions|
    ensures Count(Deciding(s, t)) + Count(Refused(s, t)) + Count(Queued(s, t)) + Count(InProcess(s, t)) + Count(Done(s, t)) == 1
    ensures |s.submissions[t].channel.sent| <= 1
    ensures s.submissions[t].channel.closed && Refused(s, t) ==>
      s.submissions[t].channel.sent == [NotAccepted(s.submissions[t].job.id)]
    ensures s.submissions[t].channel.closed && !Refused(s, t) ==>
      t in s.results && s.submissions[t].channel.sent == [s.results[t]] && MayReturn(ps, s.submissions[t].job, s.results[t])
  {
    assert SubmissionInv(s, t);
    if i :| 0 <= i < |s.queue| && s.queue[i] == t {
      assert QueuedInv(s, s.queue[i]);
    }
    if w: nat :| Holds(s, w, t) {
      assert WorkerInv(s, w);
    }
    if t in s.results {
      assert ResultInv(ps, s, t);
    }
  }

  /** A job is processed at most once: its result never changes. */
  lemma ProcessedOnce(ps: Processors, s: State, step: Step, t: nat)
    requires Inv(ps, s) && Enabled(ps, s, step) && t in s.results
    ensures t in Take(ps, s, step).results && Take(ps, s, step).results[t] == s.results[t]
  {
    if step.WorkerProcess? {
      assert WorkerInv(s, step.w);
    }
  }

  /** Jobs leave the queue in the order they entered it, each once. */
  lemma FirstInFirstOut(ps: Processors, s: State)
    requires Inv(ps, s)
    ensures s.served <= s.accepted && s.accepted[|s.served|..] == s.queue && |s.queue| <= s.capacity
    ensures forall i, j :: 0 <= i < j < |s.served| ==> s.served[i] != s.served[j]
  {
    assert forall i :: 0 <= i < |s.served| ==> s.served[i] == s.accepted[i];
  }

  /** Jobs in the queue's whole history and then the parked senders: the line that callers stand in. */
  function Line(s: State): seq<nat> { s.accepted + s.parked }

  /** No step changes the order of the line: senders that had to sleep are let in in the order they
      came, and before any later one.  Only the cancellation sends the sleepers away. */
  lemma LineKept(ps: Processors, s: State, step: Step)
    requires Inv(ps, s) && Enabled(ps, s, step)
    ensures step.SubmitEnqueue? || step.SubmitPark? ==> Line(Take(ps, s, step)) == Line(s) + [step.ticket]
    ensures step.ShutdownCancel? ==> Line(Take(ps, s, step)) == s.accepted
    ensures !step.SubmitEnqueue? && !step.SubmitPark? && !step.ShutdownCancel? ==> Line(Take(ps, s, step)) == Line(s)
  {
    if step.WorkerReceive? && s.parked != [] {
      assert s.parked[0] in s.parked;
      assert s.parked == [s.parked[0]] + s.parked[1..];
    }
  }

  /** The worker's send never waits: a computed result always finds its channel empty and open. */
  lemma SendNeverBlocks(ps: Processors, s: State, w: nat)
    requires Inv(ps, s) && !s.panicked && w < |s.workers| && s.workers[w].Computed?
    ensures Enabled(ps, s, WorkerSend(w)) && Waiting(s.submissions[s.workers[w].ticket])
  {
    assert WorkerInv(s, w);
  }

  // ----- shutdown

  function Weight(w: Worker): nat {
    match w
    case Exited => 0
    case Idle => 1
    case Sent(_) => 2
    case Computed(_, _) => 3
    case Processing(_) => 4
  }

  function TotalWeight(workers: seq<Worker>): nat {
    if workers == [] then 0 else TotalWeight(workers[..|workers| - 1]) + Weight(workers[|workers| - 1])
  }

  /** Work left: jobs to come, busy workers, live workers. */
  function Remaining(s: State): nat { 5 * (|s.queue| + |s.parked|) + TotalWeight(s.workers) }

  lemma {:induction false} WeightUpdate(workers: seq<Worker>, w: nat, next: Worker)
    requires w < |workers|
    ensures TotalWeight(workers[w := next]) == TotalWeight(workers) - Weight(workers[w]) + Weight(next)
  {
    var n := |workers| - 1;
    if w == n {
      assert workers[w := next][..n] == workers[..n];
    } else {
      WeightUpdate(workers[..n], w, next);
      assert workers[w := next][..n] == workers[..n][w := next];
    }
  }

  predicate WorkerStep(step: Step) {
    step.WorkerReceive? || step.WorkerProcess? || step.WorkerSend? || step.WorkerCloseResult? || step.WorkerExit?
  }

  /** Every worker step uses up work, and once the queue is closed no other step adds any. */
  lemma StepsUseUpWork(ps: Processors, s: State, step: Step)
    requires Enabled(ps, s, step)
    ensures WorkerStep(step) ==> Remaining(Take(ps, s, step)) < Remaining(s)
    ensures !WorkerStep(step) && QueueClosed(s) ==> Remaining(Take(ps, s, step)) == Remaining(s)
  {
    if WorkerStep(step) {
      WeightUpdate(s.workers, step.w, Take(ps, s, step).workers[step.w]);
    }
  }

  /** Once the queue is closed a worker can always move until all have exited. */
  lemma ShutdownProgress(ps: Processors, s: State, w: nat) returns (step: Step)
    requires Inv(ps, s) && QueueClosed(s) && !s.panicked
    requires w < |s.workers| && !s.workers[w].Exited?
    ensures WorkerStep(step) && Enabled(ps, s, step)
  {
    assert WorkerInv(s, w);
    match s.workers[w]
    case Idle =>
      step := if s.queue == [] then WorkerExit(w) else WorkerReceive(w);
    case Processing(t) => step := WorkerProcess(w, Default(s.submissions[t].job));
    case Computed(_, _) => step := WorkerSend(w);
    case Sent(_) => step := WorkerCloseResult(w);
  }

  /** From every closed state the workers alone can finish, in no more steps than there is work
      left, whatever order they move in; then Shutdown can return. */
  lemma {:induction false} ShutdownCompletes(ps: Processors, s: State) returns (steps: seq<Step>, last: State)
    requires Inv(ps, s) && s.shutdown.Closed? && !s.panicked
    ensures Reaches(ps, s, steps, last) && |steps| <= Remaining(s)
    ensures forall k :: 0 <= k < |steps| ==> WorkerStep(steps[k])
    ensures Enabled(ps, last, ShutdownReturn)
    decreases Remaining(s)
  {
    if w :| 0 <= w < |s.workers| && !s.workers[w].Exited? {
      var step := ShutdownProgress(ps, s, w);
      StepKeeps(ps, s, step);
      StepsUseUpWork(ps, s, step);
      var next := Take(ps, s, step);
      assert next.shutdown == s.shutdown && !next.panicked;
      var more, end := ShutdownCompletes(ps, next);
      steps, last := [step] + more, end;
      assert steps[1..] == more;
    } else {
      steps, last := [], s;
    }
  }

  /** And no run of worker steps alone is longer, so every schedule that keeps them moving ends. */
  lemma {:induction false} WorkersMustFinish(ps: Processors, s: State, steps: seq<Step>, last: State)
    requires Reaches(ps, s, steps, last)
    requires forall k :: 0 <= k < |steps| ==> WorkerStep(steps[k])
    ensures |steps| + Remaining(last) <= Remaining(s)
    decreases |steps|
  {
    if steps != [] {
      StepsUseUpWork(ps, s, steps[0]);
      WorkersMustFinish(ps, Take(ps, s, steps[0]), steps[1..], last);
    }
  }

  /** When Shutdown returns every accepted job has been answered, and stays so. */
  lemma ReturnedMeansAnswered(ps: Processors, s: State, t: nat)
    requires Inv(ps, s) && s.shutdown.Returned? && 0 < |s.workers| && t in s.accepted
    ensures Done(s, t)
  {
    assert SubmissionInv(s, t);
    assert WorkerInv(s, 0);
  }

  lemma {:induction false} WorkersStay(ps: Processors, s: State, steps: seq<Step>, last: State)
    requires Reaches(ps, s, steps, last)
    ensures |last.workers| == |s.workers|
    decreases |steps|
  {
    if steps != [] {
      WorkersStay(ps, Take(ps, s, steps[0]), steps[1..], last);
    }
  }

  /** Over every run of every pool: when Shutdown has returned, each job that was accepted has
      its one result on a closed channel. */
  lemma ShutdownAnswersAll(ps: Processors, workerCount: int, queueSize: int, cpus: nat, steps: seq<Step>, last: State, t: nat)
    requires 0 < cpus && Reaches(ps, Started(workerCount, queueSize, cpus), steps, last)
    requires last.shutdown.Returned? && t in last.accepted
    ensures Done(last, t)
  {
    var start := Started(workerCount, queueSize, cpus);
    StartedInv(ps, workerCount, queueSize, cpus);
    RunKeeps(ps, start, steps, last);
    WorkersStay(ps, start, steps, last);
    ReturnedMeansAnswered(ps, last, t);
  }

  lemma ClosedStepAcceptsNothing(ps: Processors, s: State, step: Step)
    requires Inv(ps, s) && QueueClosed(s) && Enabled(ps, s, step)
    ensures Take(ps, s, step).accepted == s.accepted && QueueClosed(Take(ps, s, step))
  {
  }

  /** After Shutdown has closed the queue no job is accepted any more. */
  lemma {:induction false} NothingAcceptedLater(ps: Processors, s: State, steps: seq<Step>, last: State)
    requires Inv(ps, s) && QueueClosed(s) && Reaches(ps, s, steps, last)
    ensures last.accepted == s.accepted && QueueClosed(last)
    decreases |steps|
  {
    if steps != [] {
      StepKeeps(ps, s, steps[0]);
      ClosedStepAcceptsNothing(ps, s, steps[0]);
      NothingAcceptedLater(ps, Take(ps, s, steps[0]), steps[1..], last);
    }
  }

  // ----- progress, whether the pool is open or shutting down

  predicate SomeBusy(s: State) { exists w :: 0 <= w < |s.workers| && Busy(s.workers[w]) }

  /** As long as a job is queued or a worker is busy, some worker can move. */
  lemma Progress(ps: Processors, s: State) returns (step: Step)
    requires Inv(ps, s) && !s.panicked && 0 < |s.workers|
    requires s.queue != [] || SomeBusy(s)
    ensures WorkerStep(step) && !step.WorkerExit? && Enabled(ps, s, step)
  {
    if w :| 0 <= w < |s.workers| && Busy(s.workers[w]) {
      assert WorkerInv(s, w);
      match s.workers[w]
      case Processing(t) => step := WorkerProcess(w, Default(s.submissions[t].job));
      case Computed(_, _) => step := WorkerSend(w);
      case Sent(_) => step := WorkerCloseResult(w);
    } else {
      assert WorkerInv(s, 0);
      step := WorkerReceive(0);
    }
  }

  /** Nor does it matter which worker: each one can serve whenever there is a job, can go on with the
      one it has whatever its processor returns, and can leave a closed empty queue. */
  lemma EveryWorkerMoves(ps: Processors, s: State, w: nat, result: JobResult)
    requires Inv(ps, s) && !s.panicked && w < |s.workers|
    ensures s.workers[w].Idle? && s.queue != [] ==> Enabled(ps, s, WorkerReceive(w))
    ensures s.workers[w].Idle? && s.queue == [] && QueueClosed(s) ==> Enabled(ps, s, WorkerExit(w))
    ensures s.workers[w].Processing? ==> s.workers[w].ticket < |s.submissions|
    ensures s.workers[w].Processing? && MayReturn(ps, s.submissions[s.workers[w].ticket].job, result) ==>
      Enabled(ps, s, WorkerProcess(w, result))
    ensures s.workers[w].Computed? ==> Enabled(ps, s, WorkerSend(w))
    ensures s.workers[w].Sent? ==> Enabled(ps, s, WorkerCloseResult(w))
  {
    assert WorkerInv(s, w);
  }

  /** The job has been taken over by the pool: queued, at a worker, answered, or parked before it. */
  ghost predicate Taken(s: State, t: nat) { t in s.accepted || t in s.parked }

  lemma WorkersKeepJobs(ps: Processors, s: State, step: Step)
    requires Inv(ps, s) && Enabled(ps, s, step) && WorkerStep(step)
    ensures forall t :: Taken(s, t) ==> Taken(Take(ps, s, step), t)
    ensures |Take(ps, s, step).workers| == |s.workers| && !Take(ps, s, step).panicked
    ensures Take(ps, s, step).shutdown == s.shutdown
  {
    if step.WorkerReceive? && s.parked != [] {
      assert s.parked[0] in s.parked;
      assert s.parked == [s.parked[0]] + s.parked[1..];
    }
  }

  /** Nothing is left to do: every job that was taken over has its answer on a closed channel. */
  lemma NothingLeft(ps: Processors, s: State, t: nat)
    requires Inv(ps, s) && s.queue == [] && !SomeBusy(s)
    ensures s.parked == [] && (Taken(s, t) ==> Done(s, t))
  {
    if Taken(s, t) {
      assert SubmissionInv(s, t);
    }
  }

  /** From every such state, open or closed, the workers alone answer every job that was accepted or
      is waiting to be, in no more steps than there is work left. */
  lemma {:induction false} WorkersAnswerAll(ps: Processors, s: State) returns (steps: seq<Step>, last: State)
    requires Inv(ps, s) && !s.panicked && 0 < |s.workers|
    ensures Reaches(ps, s, steps, last) && |steps| <= Remaining(s)
    ensures forall k :: 0 <= k < |steps| ==> WorkerStep(steps[k])
    ensures last.queue == [] && last.parked == [] && !SomeBusy(last)
    ensures forall t :: Taken(s, t) ==> Done(last, t)
    ensures forall t :: t in last.accepted ==> Done(last, t)
    decreases Remaining(s)
  {
    if s.queue != [] || SomeBusy(s) {
      var step := Progress(ps, s);
      StepKeeps(ps, s, step);
      StepsUseUpWork(ps, s, step);
      WorkersKeepJobs(ps, s, step);
      var more, end := WorkersAnswerAll(ps, Take(ps, s, step));
      steps, last := [step] + more, end;
      assert steps[1..] == more;
    } else {
      steps, last := [], s;
      forall t ensures s.parked == [] && (Taken(s, t) ==> Done(s, t)) {
        NothingLeft(ps, s, t);
      }
    }
  }

  /** So it is in every state a started pool reaches without a panic. */
  lemma StartedPoolAnswers(ps: Processors, workerCount: int, queueSize: int, cpus: nat, steps: seq<Step>, s: State)
    returns (more: seq<Step>, last: State)
    requires 0 < cpus && Reaches(ps, Started(workerCount, queueSize, cpus), steps, s) && !s.panicked
    ensures Reaches(ps, s, more, last) && |more| <= Remaining(s) && forall k :: 0 <= k < |more| ==> WorkerStep(more[k])
    ensures last.parked == [] && forall t :: Taken(s, t) ==> Done(last, t)
  {
    var start := Started(workerCount, queueSize, cpus);
    StartedInv(ps, workerCount, queueSize, cpus);
    RunKeeps(ps, start, steps, s);
    WorkersStay(ps, start, steps, s);
    more, last := WorkersAnswerAll(ps, s);
  }

  /** A call of Submit is never stuck: an open pool with room takes the job and does nothing else, a
      full one puts the caller to sleep, a cancelled one can refuse, and a refusal is always carried
      to its end. */
  lemma SubmitNeverStuck(ps: Processors, s: State, t: nat)
    requires Inv(ps, s) && !s.panicked
    ensures SubmitAt(s, t, Selecting) && !ContextDone(s) ==>
      (if |s.queue| < s.capacity then Enabled(ps, s, SubmitEnqueue(t)) else Enabled(ps, s, SubmitPark(t)))
    ensures SubmitAt(s, t, Selecting) && !ContextDone(s) && |s.queue| < s.capacity ==>
      !Enabled(ps, s, SubmitPark(t)) && !Enabled(ps, s, SubmitReject(t)) && !Enabled(ps, s, SubmitPanic(t))
    ensures SubmitAt(s, t, Selecting) && ContextDone(s) ==> Enabled(ps, s, SubmitReject(t))
    ensures SubmitAt(s, t, Refusing) ==> Enabled(ps, s, SubmitReject(t))
    ensures SubmitAt(s, t, RejectionSent) ==> Enabled(ps, s, SubmitCloseResult(t))
  {
  }

  /** A pool starts with the workers and the room that were asked for, or with two workers a
      processor and a thousand places. */
  lemma StartedSizes(workerCount: int, queueSize: int, cpus: nat)
    ensures var s := Started(workerCount, queueSize, cpus);
      && (0 < workerCount ==> |s.workers| == workerCount) && (workerCount <= 0 ==> |s.workers| == cpus + cpus)
      && (0 < queueSize ==> s.capacity == queueSize) && (queueSize <= 0 ==> s.capacity == 1000)
      && (forall w :: 0 <= w < |s.workers| ==> s.workers[w] == Idle) && s.shutdown == NotCalled && !s.panicked
  {
  }

  // ----- the panic

  ghost predicate SomeSelecting(s: State) {
    exists t :: 0 <= t < |s.submissions| && SubmitAt(s, t, Selecting)
  }

  /** A Submit has yet to evaluate its select while the channel is closed: it may pick the send. */
  ghost predicate Exposed(s: State) {
    QueueClosed(s) && SomeSelecting(s)
  }

  lemma SelectingBefore(ps: Processors, s: State, step: Step, t: nat)
    requires Enabled(ps, s, step) && !step.SubmitCall?
    requires SubmitAt(Take(ps, s, step), t, Selecting)
    ensures SubmitAt(s, t, Selecting)
  {
  }

  /** The panic can happen next exactly in an exposed state, and a state that is not exposed
      becomes so exactly by calling Submit after the close or by closing under a Submit that has
      not evaluated its select.  One that was asleep in it when the context was cancelled is
      committed to the refusal, and never panics. */
  lemma PanicExactly(ps: Processors, s: State, step: Step)
    requires !s.panicked
    ensures Exposed(s) <==> exists t :: Enabled(ps, s, SubmitPanic(t))
    ensures !Exposed(s) && Enabled(ps, s, step) ==>
      (Exposed(Take(ps, s, step)) <==>
        (step.SubmitCall? && QueueClosed(s)) || (step.ShutdownClose? && SomeSelecting(s)))
  {
    if t :| 0 <= t < |s.submissions| && SubmitAt(s, t, Selecting) && QueueClosed(s) {
      assert Enabled(ps, s, SubmitPanic(t));
    }
    if !Exposed(s) && Enabled(ps, s, step) {
      BecomesExposed(ps, s, step);
    }
  }

  lemma BecomesExposed(ps: Processors, s: State, step: Step)
    requires !Exposed(s) && Enabled(ps, s, step)
    ensures Exposed(Take(ps, s, step)) <==>
      (step.SubmitCall? && QueueClosed(s)) || (step.ShutdownClose? && SomeSelecting(s))
  {
    var n := Take(ps, s, step);
    if step.SubmitCall? {
      assert SubmitAt(n, |s.submissions|, Selecting);
    } else {
      forall t | 0 <= t < |n.submissions| && SubmitAt(n, t, Selecting) ensures SubmitAt(s, t, Selecting) {
        SelectingBefore(ps, s, step, t);
      }
      if step.ShutdownClose? && SomeSelecting(s) {
        var t :| 0 <= t < |s.submissions| && SubmitAt(s, t, Selecting);
        assert SubmitAt(n, t, Selecting);
      }
    }
  }

  /** No state of the run is exposed. */
  ghost predicate NeverExposed(ps: Processors, s: State, steps: seq<Step>)
    decreases |steps|
  {
    !Exposed(s) && (steps == [] || (Enabled(ps, s, steps[0]) ==> NeverExposed(ps, Take(ps, s, steps[0]), steps[1..])))
  }

  lemma {:induction false} NoExposureNoPanic(ps: Processors, s: State, steps: seq<Step>, last: State)
    requires !s.panicked && Reaches(ps, s, steps, last) && NeverExposed(ps, s, steps)
    ensures !last.panicked
    decreases |steps|
  {
    if steps != [] {
      PanicExactly(ps, s, steps[0]);
      NoExposureNoPanic(ps, Take(ps, s, steps[0]), steps[1..], last);
    }
  }

  /** Once cancelled, a Submit that was parked is refused, and so it is not exposed again. */
  lemma ParkedIsRefused(ps: Processors, s: State, t: nat)
    requires Inv(ps, s) && s.shutdown.NotCalled? && SubmitAt(s, t, Parked)
    ensures Refused(Wake(s), t) && !Enabled(ps, Wake(s).(shutdown := Closed), SubmitPanic(t))
  {
  }

  /** Submit's comment promises an error result once the context is cancelled; a call after the
      close can panic instead, in every pool and for every job. */
  lemma LateSubmitCanPanic(ps: Processors, workerCount: int, queueSize: int, cpus: nat, job: Job) returns (steps: seq<Step>, last: State)
    ensures Reaches(ps, Started(workerCount, queueSize, cpus), steps, last) && last.panicked
  {
    var s0 := Started(workerCount, queueSize, cpus);
    var s1 := Take(ps, s0, ShutdownCancel);
    var s2 := Take(ps, s1, ShutdownClose);
    var s3 := Take(ps, s2, SubmitCall(job));
    last := Take(ps, s3, SubmitPanic(0));
    steps := [ShutdownCancel] + ([ShutdownClose] + ([SubmitCall(job)] + ([SubmitPanic(0)] + [])));
    StepBefore(ps, s3, SubmitPanic(0), [], last);
    StepBefore(ps, s2, SubmitCall(job), [SubmitPanic(0)] + [], last);
    StepBefore(ps, s1, ShutdownClose, [SubmitCall(job)] + ([SubmitPanic(0)] + []), last);
    StepBefore(ps, s0, ShutdownCancel, [ShutdownClose] + ([SubmitCall(job)] + ([SubmitPanic(0)] + [])), last);
  }

  lemma StepBefore(ps: Processors, s: State, step: Step, more: seq<Step>, last: State)
    requires Enabled(ps, s, step) && Reaches(ps, Take(ps, s, step), more, last)
    ensures Reaches(ps, s, [step] + more, last)
  {
    assert ([step] + more)[1..] == more;
  }
}
