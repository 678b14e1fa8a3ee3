/** The worker pool as a system of atomic steps: goroutines calling Submit, the workers, and one
    goroutine calling Shutdown, in any interleaving.

    A state holds the real objects only: the queue channel with the senders parked on it, the result
    channel of every job, and where each goroutine stands.  `accepted` and `served` are the order in
    which jobs entered and left the queue, `results` what the processors returned. */
module Pool {
  import opened Wrappers

  datatype JobType = Issue | Verify | Other(name: string)

  datatype Job = Job(id: string, kind: JobType, payload: string)

  datatype JobResult =
    | Data(jobId: string, data: string)
    | Failed(jobId: string, error: string)
    | NotAccepted(jobId: string)
    | UnknownType(jobId: string, name: string)

  /** A result channel of capacity one: what was sent on it, and whether it is closed. */
  datatype Channel = Channel(sent: seq<JobResult>, closed: bool)

  /** Where a call of Submit stands: before its select, asleep in it, past the send, past the
      cancelled case, or done with the refusal. */
  datatype Submitting = Selecting | Parked | Enqueued | Refusing | RejectionSent | Rejected

  /** One call of Submit; its position in the state identifies the job. */
  datatype Submission = Submission(job: Job, at: Submitting, channel: Channel)

  datatype Worker =
    | Idle
    | Processing(ticket: nat)
    | Computed(ticket: nat, result: JobResult)
    | Sent(ticket: nat)
    | Exited

  datatype Shutdown = NotCalled | Cancelled | Closed | Returned

  /** The job types with a registered processor, which may return anything at all. */
  datatype Processors = Processors(registered: set<JobType>)

  datatype State = State(
    capacity: nat,
    submissions: seq<Submission>,
    queue: seq<nat>,
    parked: seq<nat>,
    workers: seq<Worker>,
    shutdown: Shutdown,
    panicked: bool,
    accepted: seq<nat>,
    served: seq<nat>,
    results: map<nat, JobResult>)

  // ----- process

  function Default(job: Job): JobResult {
    match job.kind
    case Issue => Data(job.id, "issued (no processor registered)")
    case Verify => Data(job.id, "verified (no processor registered)")
    case Other(name) => UnknownType(job.id, name)
  }

  predicate MayReturn(ps: Processors, job: Job, result: JobResult) {
    job.kind in ps.registered || result == Default(job)
  }

  // ----- steps

  datatype Step =
    | SubmitCall(job: Job)
    | SubmitEnqueue(ticket: nat)
    | SubmitPark(ticket: nat)       // neither case of the select is ready
    | SubmitPanic(ticket: nat)      // the select picks the send, and the channel is closed
    | SubmitReject(ticket: nat)     // the select picks the cancelled context, or was woken by it
    | SubmitCloseResult(ticket: nat)
    | WorkerReceive(w: nat)
    | WorkerProcess(w: nat, result: JobResult)
    | WorkerSend(w: nat)
    | WorkerCloseResult(w: nat)
    | WorkerExit(w: nat)
    | ShutdownCancel
    | ShutdownClose
    | ShutdownReturn

  predicate QueueClosed(s: State) { s.shutdown.Closed? || s.shutdown.Returned? }

  predicate ContextDone(s: State) { !s.shutdown.NotCalled? }

  predicate SubmitAt(s: State, ticket: nat, at: Submitting) {
    ticket < |s.submissions| && s.submissions[ticket].at == at
  }

  predicate Enabled(ps: Processors, s: State, step: Step) {
    !s.panicked &&
    match step
    case SubmitCall(_) => true
    case SubmitEnqueue(t) => SubmitAt(s, t, Selecting) && !QueueClosed(s) && |s.queue| < s.capacity
    case SubmitPark(t) => SubmitAt(s, t, Selecting) && !ContextDone(s) && |s.queue| == s.capacity
    case SubmitPanic(t) => SubmitAt(s, t, Selecting) && QueueClosed(s)
    case SubmitReject(t) => (SubmitAt(s, t, Selecting) && ContextDone(s)) || SubmitAt(s, t, Refusing)
    case SubmitCloseResult(t) => SubmitAt(s, t, RejectionSent)
    case WorkerReceive(w) => w < |s.workers| && s.workers[w].Idle? && s.queue != []
    case WorkerProcess(w, result) =>
      && w < |s.workers| && s.workers[w].Processing? && s.workers[w].ticket < |s.submissions|
      && MayReturn(ps, s.submissions[s.workers[w].ticket].job, result)
    case WorkerSend(w) =>
      && w < |s.workers| && s.workers[w].Computed? && s.workers[w].ticket < |s.submissions|
      && |s.submissions[s.workers[w].ticket].channel.sent| < 1 // room in the channel: the send does not block
    case WorkerCloseResult(w) => w < |s.workers| && s.workers[w].Sent? && s.workers[w].ticket < |s.submissions|
    case WorkerExit(w) => w < |s.workers| && s.workers[w].Idle? && s.queue == [] && QueueClosed(s)
    case ShutdownCancel => s.shutdown.NotCalled?
    case ShutdownClose => s.shutdown.Cancelled?
    case ShutdownReturn => s.shutdown.Closed? && forall i :: 0 <= i < |s.workers| ==> s.workers[i].Exited?
  }

  function SetSubmission(s: State, t: nat, sub: Submission): State
    requires t < |s.submissions|
  {
    s.(submissions := s.submissions[t := sub])
  }

  function SendOn(c: Channel, r: JobResult): Channel { c.(sent := c.sent + [r]) }

  /** The job enters the queue. */
  function Enter(s: State, t: nat): State
    requires t < |s.submissions|
  {
    SetSubmission(s, t, s.submissions[t].(at := Enqueued)).(queue := s.queue + [t], accepted := s.accepted + [t])
  }

  /** A worker takes the oldest job. */
  function Leave(s: State, w: nat): State
    requires w < |s.workers| && s.queue != []
  {
    s.(workers := s.workers[w := Processing(s.queue[0])], queue := s.queue[1..], served := s.served + [s.queue[0]])
  }

  function ParkedLongest(s: State): Option<nat> {
    if s.parked == [] then None else Some(s.parked[0])
  }

  /** A receive makes room, which the runtime gives at once to the sender parked longest. */
  function Admit(s: State): State {
    match ParkedLongest(s)
    case Some(t) => if t < |s.submissions| then Enter(s.(parked := s.parked[1..]), t) else s
    case None => s
  }

  function Woken(sub: Submission): Submission {
    if sub.at.Parked? then sub.(at := Refusing) else sub
  }

  /** Cancelling commits every parked Submit to its other case. */
  function Wake(s: State): State {
    s.(submissions := seq(|s.submissions|, t requires 0 <= t < |s.submissions| => Woken(s.submissions[t])),
       parked := [], shutdown := Cancelled)
  }

  function Take(ps: Processors, s: State, step: Step): State
    requires Enabled(ps, s, step)
  {
    match step
    case SubmitCall(job) => s.(submissions := s.submissions + [Submission(job, Selecting, Channel([], false))])
    case SubmitEnqueue(t) => Enter(s, t)
    case SubmitPark(t) => SetSubmission(s, t, s.submissions[t].(at := Parked)).(parked := s.parked + [t])
    case SubmitPanic(t) => s.(panicked := true)
    case SubmitReject(t) =>
      var sub := s.submissions[t];
      SetSubmission(s, t, sub.(at := RejectionSent, channel := SendOn(sub.channel, NotAccepted(sub.job.id))))
    case SubmitCloseResult(t) =>
      var sub := s.submissions[t];
      SetSubmission(s, t, sub.(at := Rejected, channel := sub.channel.(closed := true)))
    case WorkerReceive(w) => Admit(Leave(s, w))
    case WorkerProcess(w, result) =>
      var t := s.workers[w].ticket;
      s.(workers := s.workers[w := Computed(t, result)], results := s.results[t := result])
    case WorkerSend(w) =>
      var t := s.workers[w].ticket;
      var sub := s.submissions[t];
      SetSubmission(s, t, sub.(channel := SendOn(sub.channel, s.workers[w].result))).(workers := s.workers[w := Sent(t)])
    case WorkerCloseResult(w) =>
      var t := s.workers[w].ticket;
      var sub := s.submissions[t];
      SetSubmission(s, t, sub.(channel := sub.channel.(closed := true))).(workers := s.workers[w := Idle])
    case WorkerExit(w) => s.(workers := s.workers[w := Exited])
    case ShutdownCancel => Wake(s)
    case ShutdownClose => s.(shutdown := Closed)
    case ShutdownReturn => s.(shutdown := Returned)
  }

  /** NewPool and Start: `cpus` workers per two when no count is given, 1000 places by default. */
  function Started(workerCount: int, queueSize: int, cpus: nat): State {
    var workers := if workerCount <= 0 then cpus * 2 else workerCount;
    State(if queueSize <= 0 then 1000 else queueSize, [], [], [], seq(workers, _ => Idle), NotCalled, false, [], [], map[])
  }

  ghost predicate Reaches(ps: Processors, s: State, steps: seq<Step>, last: State)
    decreases |steps|
  {
    if steps == [] then s == last
    else Enabled(ps, s, steps[0]) && Reaches(ps, Take(ps, s, steps[0]), steps[1..], last)
  }

  // ----- the invariant

  predicate Busy(w: Worker) { w.Processing? || w.Computed? || w.Sent? }

  ghost predicate Holds(s: State, w: nat, t: nat) {
    w < |s.workers| && Busy(s.workers[w]) && s.workers[w].ticket == t
  }

  ghost predicate Held(s: State, t: nat) {
    exists w: nat :: Holds(s, w, t)
  }

  predicate Waiting(sub: Submission) { sub.channel == Channel([], false) }

  /** The processor's result has been sent and the channel closed. */
  predicate Answered(s: State, t: nat)
    requires t < |s.submissions|
  {
    t in s.results && s.submissions[t].channel == Channel([s.results[t]], true)
  }

  ghost predicate SubmissionInv(s: State, t: nat)
    requires t < |s.submissions|
  {
    var sub := s.submissions[t];
    match sub.at
    case Selecting => Waiting(sub)
    case Parked => Waiting(sub)
    case Refusing => Waiting(sub)
    case RejectionSent => sub.channel == Channel([NotAccepted(sub.job.id)], false)
    case Rejected => sub.channel == Channel([NotAccepted(sub.job.id)], true)
    case Enqueued => t in s.queue || Held(s, t) || Answered(s, t)
  }

  ghost predicate WorkerInv(s: State, w: nat)
    requires w < |s.workers|
  {
    var worker := s.workers[w];
    (Busy(worker) ==>
      && SubmitAt(s, worker.ticket, Enqueued) && worker.ticket !in s.queue
      && var sub := s.submissions[worker.ticket];
        match worker
        case Processing(_) => Waiting(sub) && worker.ticket !in s.results
        case Computed(_, result) => Waiting(sub) && worker.ticket in s.results && s.results[worker.ticket] == result
        case Sent(_) => worker.ticket in s.results && sub.channel == Channel([s.results[worker.ticket]], false)
        case _ => true)
    && (worker.Exited? ==> QueueClosed(s) && s.queue == [])
  }

  ghost predicate QueuedInv(s: State, t: nat) {
    SubmitAt(s, t, Enqueued) && Waiting(s.submissions[t]) && t !in s.results
  }

  ghost predicate Distinct(ts: seq<nat>) {
    forall i, j :: 0 <= i < j < |ts| ==> ts[i] != ts[j]
  }

  ghost predicate QueueInv(s: State) {
    && |s.queue| <= s.capacity && 0 < s.capacity
    && (forall i :: 0 <= i < |s.queue| ==> QueuedInv(s, s.queue[i]))
    && s.accepted == s.served + s.queue && Distinct(s.accepted)
    && (forall t: nat :: t in s.accepted <==> SubmitAt(s, t, Enqueued))
  }

  /** The parked senders, each once. */
  ghost predicate ParkedInv(s: State) {
    Distinct(s.parked) && forall t: nat :: t in s.parked <==> SubmitAt(s, t, Parked)
  }

  ghost predicate ResultInv(ps: Processors, s: State, t: nat) {
    SubmitAt(s, t, Enqueued) && t in s.results && MayReturn(ps, s.submissions[t].job, s.results[t])
  }

  /** What holds also in the middle of a receive. */
  ghost predicate Core(ps: Processors, s: State) {
    && QueueInv(s) && ParkedInv(s)
    && (forall t :: 0 <= t < |s.submissions| ==> SubmissionInv(s, t))
    && (forall w :: 0 <= w < |s.workers| ==> WorkerInv(s, w))
    && (forall v: nat, w: nat, t: nat :: Holds(s, v, t) && Holds(s, w, t) ==> v == w)
    && (forall t :: t in s.results ==> ResultInv(ps, s, t))
    && (s.shutdown.Returned? ==> forall w :: 0 <= w < |s.workers| ==> s.workers[w].Exited?)
  }

  /** Senders are parked only on a full queue before the cancellation. */
  ghost predicate Inv(ps: Processors, s: State) {
    Core(ps, s) && (s.parked != [] ==> |s.queue| == s.capacity && s.shutdown.NotCalled?)
  }

  // ----- every step keeps the invariant

  lemma StartedInv(ps: Processors, workerCount: int, queueSize: int, cpus: nat)
    ensures Inv(ps, Started(workerCount, queueSize, cpus))
  {
    var s := Started(workerCount, queueSize, cpus);
    assert QueueInv(s) && ParkedInv(s);
    forall w | 0 <= w < |s.workers| ensures s.workers[w] == Idle && WorkerInv(s, w) {
    }
    assert forall w: nat, t: nat :: !Holds(s, w, t);
  }

  /** A submission changes that is not in the queue and at no worker, before and after. */
  lemma OutsideKeeps(ps: Processors, s: State, n: State, t: nat)
    requires Core(ps, s) && t <= |s.submissions|
    requires |n.submissions| == if t == |s.submissions| then t + 1 else |s.submissions|
    requires n == s.(submissions := n.submissions, parked := n.parked, panicked := n.panicked)
    requires forall u :: 0 <= u < |s.submissions| && u != t ==> n.submissions[u] == s.submissions[u]
    requires !SubmitAt(s, t, Enqueued) && !SubmitAt(n, t, Enqueued)
    requires t < |n.submissions| ==> SubmissionInv(n, t)
    requires ParkedInv(n)
    ensures Core(ps, n)
  {
    assert forall w: nat, u: nat :: Holds(n, w, u) <==> Holds(s, w, u);
    forall u: nat ensures SubmitAt(n, u, Enqueued) <==> SubmitAt(s, u, Enqueued) {
    }
    forall u | 0 <= u < |n.submissions| ensures SubmissionInv(n, u) {
      if u != t {
        assert n.submissions[u] == s.submissions[u];
        assert SubmissionInv(s, u) && (Held(s, u) ==> Held(n, u));
      }
    }
    forall w | 0 <= w < |n.workers| ensures WorkerInv(n, w) {
      assert WorkerInv(s, w);
    }
    forall i | 0 <= i < |n.queue| ensures QueuedInv(n, n.queue[i]) {
      assert QueuedInv(s, s.queue[i]);
    }
    forall u | u in n.results ensures ResultInv(ps, n, u) {
      assert ResultInv(ps, s, u);
    }
  }

  lemma SubmitStepKeeps(ps: Processors, s: State, step: Step)
    requires Inv(ps, s) && Enabled(ps, s, step)
    requires step.SubmitCall? || step.SubmitReject? || step.SubmitCloseResult?
    ensures Inv(ps, Take(ps, s, step))
  {
    var n := Take(ps, s, step);
    var t := if step.SubmitCall? then |s.submissions| else step.ticket;
    if t < |s.submissions| {
      assert SubmissionInv(s, t);
    }
    forall u: nat ensures SubmitAt(n, u, Parked) <==> SubmitAt(s, u, Parked) {
    }
    OutsideKeeps(ps, s, n, t);
  }

  lemma PanicKeeps(ps: Processors, s: State, t: nat)
    requires Inv(ps, s) && Enabled(ps, s, SubmitPanic(t))
    ensures Inv(ps, Take(ps, s, SubmitPanic(t)))
  {
    var n := Take(ps, s, SubmitPanic(t));
    assert SubmissionInv(s, t);
    forall u: nat ensures SubmitAt(n, u, Parked) <==> SubmitAt(s, u, Parked) {
    }
    OutsideKeeps(ps, s, n, t);
  }

  lemma ParkKeeps(ps: Processors, s: State, t: nat)
    requires Inv(ps, s) && Enabled(ps, s, SubmitPark(t))
    ensures Inv(ps, Take(ps, s, SubmitPark(t)))
  {
    var n := Take(ps, s, SubmitPark(t));
    assert SubmissionInv(s, t) && t !in s.parked;
    forall u: nat ensures u in n.parked <==> SubmitAt(n, u, Parked) {
      assert u in n.parked <==> u in s.parked || u == t;
    }
    OutsideKeeps(ps, s, n, t);
  }

  /** A job enters the queue from its select. */
  lemma EnterKeeps(ps: Processors, s: State, t: nat)
    requires Core(ps, s) && SubmitAt(s, t, Selecting) && |s.queue| < s.capacity && !QueueClosed(s)
    ensures Core(ps, Enter(s, t))
  {
    var n := Enter(s, t);
    assert SubmissionInv(s, t) && t !in s.accepted && t !in s.parked;
    forall u | u in s.results ensures SubmitAt(s, u, Enqueued) {
      assert ResultInv(ps, s, u);
    }
    Entered(s, n, t);
    assert forall w: nat, u: nat :: Holds(n, w, u) <==> Holds(s, w, u);
    forall u | 0 <= u < |n.submissions| ensures SubmissionInv(n, u) {
      assert SubmissionInv(s, u) && (Held(s, u) ==> Held(n, u));
    }
    forall w | 0 <= w < |n.workers| ensures WorkerInv(n, w) {
      assert WorkerInv(s, w);
    }
    forall u | u in n.results ensures ResultInv(ps, n, u) {
      assert ResultInv(ps, s, u);
    }
  }

  lemma Entered(s: State, n: State, t: nat)
    requires QueueInv(s) && SubmitAt(s, t, Selecting) && Waiting(s.submissions[t]) && |s.queue| < s.capacity
    requires t !in s.accepted && t !in s.results && n == Enter(s, t)
    ensures QueueInv(n)
    ensures forall u :: u in n.queue <==> u in s.queue || u == t
  {
    assert n.queue[|s.queue|] == t && forall i :: 0 <= i < |s.queue| ==> n.queue[i] == s.queue[i];
    assert n.accepted[|s.accepted|] == t && forall i :: 0 <= i < |s.accepted| ==> n.accepted[i] == s.accepted[i];
    forall i | 0 <= i < |n.queue| ensures QueuedInv(n, n.queue[i]) {
      if i < |s.queue| {
        assert QueuedInv(s, s.queue[i]);
        assert s.queue[i] in s.accepted;
      }
    }
  }

  lemma EnqueueKeeps(ps: Processors, s: State, t: nat)
    requires Inv(ps, s) && Enabled(ps, s, SubmitEnqueue(t))
    ensures Inv(ps, Take(ps, s, SubmitEnqueue(t)))
  {
    EnterKeeps(ps, s, t);
  }

  lemma LeaveKeeps(ps: Processors, s: State, w: nat)
    requires Core(ps, s) && w < |s.workers| && s.workers[w].Idle? && s.queue != []
    ensures Core(ps, Leave(s, w))
  {
    var n := Leave(s, w);
    var t := s.queue[0];
    assert QueuedInv(s, s.queue[0]);
    Left(s, n, w);
    forall v: nat, u: nat | Holds(n, v, u) ensures if v == w then u == t else Holds(s, v, u) && u != t {
      if v != w {
        assert WorkerInv(s, v);
      }
    }
    assert Holds(n, w, t);
    forall u | 0 <= u < |n.submissions| ensures SubmissionInv(n, u) {
      assert SubmissionInv(s, u);
      if v: nat :| Holds(s, v, u) {
        assert Holds(n, v, u);
      }
    }
    forall v | 0 <= v < |n.workers| ensures WorkerInv(n, v) {
      assert WorkerInv(s, v);
    }
    forall u | u in n.results ensures ResultInv(ps, n, u) {
      assert ResultInv(ps, s, u);
    }
  }

  lemma Left(s: State, n: State, w: nat)
    requires QueueInv(s) && w < |s.workers| && s.queue != [] && n == Leave(s, w)
    ensures QueueInv(n)
    ensures forall u :: u in s.queue <==> u in n.queue || u == s.queue[0]
    ensures s.queue[0] !in n.queue
  {
    HeadOnce(s.served, s.queue);
    forall i | 0 <= i < |n.queue| ensures QueuedInv(n, n.queue[i]) {
      assert QueuedInv(s, s.queue[i + 1]);
    }
  }

  lemma HeadOnce(served: seq<nat>, queue: seq<nat>)
    requires Distinct(served + queue) && queue != []
    ensures (served + [queue[0]]) + queue[1..] == served + queue
    ensures forall u :: u in queue <==> u in queue[1..] || u == queue[0]
    ensures queue[0] !in queue[1..]
  {
    assert queue == [queue[0]] + queue[1..];
    forall i | 0 <= i < |queue[1..]| ensures queue[1..][i] != queue[0] {
      assert (served + queue)[|served|] == queue[0] && (served + queue)[|served| + 1 + i] == queue[1..][i];
    }
  }

  /** A parked sender goes back to its select, which has room for it now. */
  lemma UnparkKeeps(ps: Processors, s: State)
    requires Core(ps, s) && s.parked != []
    ensures SubmitAt(s, s.parked[0], Parked)
    ensures Core(ps, SetSubmission(s, s.parked[0], s.submissions[s.parked[0]].(at := Selecting)).(parked := s.parked[1..]))
  {
    var t := s.parked[0];
    assert t in s.parked;
    var n := SetSubmission(s, t, s.submissions[t].(at := Selecting)).(parked := s.parked[1..]);
    assert SubmissionInv(s, t);
    assert s.parked == [t] + n.parked;
    assert forall i :: 0 <= i < |n.parked| ==> n.parked[i] == s.parked[i + 1];
    forall u: nat ensures u in n.parked <==> SubmitAt(n, u, Parked) {
      assert u in s.parked <==> u in n.parked || u == t;
    }
    OutsideKeeps(ps, s, n, t);
  }

  lemma AdmitKeeps(ps: Processors, s: State)
    requires Core(ps, s) && !QueueClosed(s) && s.parked != [] && |s.queue| < s.capacity
    ensures Core(ps, Admit(s)) && |Admit(s).queue| == |s.queue| + 1 && Admit(s).shutdown == s.shutdown
  {
    var t := s.parked[0];
    UnparkKeeps(ps, s);
    var mid := SetSubmission(s, t, s.submissions[t].(at := Selecting)).(parked := s.parked[1..]);
    EnterKeeps(ps, mid, t);
    SameEntry(s, mid, t);
  }

  lemma SameEntry(s: State, mid: State, t: nat)
    requires s.parked != [] && t == s.parked[0] && t < |s.submissions|
    requires mid == SetSubmission(s, t, s.submissions[t].(at := Selecting)).(parked := s.parked[1..])
    ensures Enter(mid, t) == Admit(s)
  {
    assert mid.submissions[t := s.submissions[t].(at := Enqueued)] == s.submissions[t := s.submissions[t].(at := Enqueued)];
  }

  lemma ReceiveKeeps(ps: Processors, s: State, w: nat)
    requires Inv(ps, s) && Enabled(ps, s, WorkerReceive(w))
    ensures Inv(ps, Take(ps, s, WorkerReceive(w)))
  {
    LeaveKeeps(ps, s, w);
    if s.parked != [] {
      AdmitKeeps(ps, Leave(s, w));
    }
  }

  lemma ProcessKeeps(ps: Processors, s: State, w: nat, result: JobResult)
    requires Inv(ps, s) && Enabled(ps, s, WorkerProcess(w, result))
    ensures Inv(ps, Take(ps, s, WorkerProcess(w, result)))
  {
    var n := Take(ps, s, WorkerProcess(w, result));
    var t := s.workers[w].ticket;
    assert WorkerInv(s, w) && Holds(s, w, t);
    assert forall v: nat, u: nat :: Holds(n, v, u) <==> Holds(s, v, u);
    forall i | 0 <= i < |n.queue| ensures QueuedInv(n, n.queue[i]) {
      assert QueuedInv(s, s.queue[i]);
    }
    forall u | 0 <= u < |n.submissions| ensures SubmissionInv(n, u) {
      assert SubmissionInv(s, u) && (Held(s, u) ==> Held(n, u));
    }
    forall v | 0 <= v < |n.workers| ensures WorkerInv(n, v) {
      assert WorkerInv(s, v);
      if v != w && Busy(s.workers[v]) {
        assert Holds(s, v, s.workers[v].ticket);
      }
    }
    forall u | u in n.results ensures ResultInv(ps, n, u) {
      assert u in s.results ==> ResultInv(ps, s, u);
    }
  }

  /** The channel of the ticket a worker holds changes, and the worker moves on. */
  lemma HeldKeeps(ps: Processors, s: State, w: nat, worker: Worker, channel: Channel)
    requires Core(ps, s) && w < |s.workers| && Busy(s.workers[w]) && s.workers[w].ticket < |s.submissions|
    requires !worker.Exited? && (Busy(worker) ==> worker.ticket == s.workers[w].ticket)
    requires var t := s.workers[w].ticket;
      var n := SetSubmission(s, t, s.submissions[t].(channel := channel)).(workers := s.workers[w := worker]);
      WorkerInv(n, w) && (worker.Idle? ==> Answered(n, t))
    ensures var t := s.workers[w].ticket;
      Core(ps, SetSubmission(s, t, s.submissions[t].(channel := channel)).(workers := s.workers[w := worker]))
  {
    var t := s.workers[w].ticket;
    var n := SetSubmission(s, t, s.submissions[t].(channel := channel)).(workers := s.workers[w := worker]);
    assert WorkerInv(s, w) && Holds(s, w, t);
    forall v: nat, u: nat ensures Holds(n, v, u) <==> Holds(s, v, u) && (v == w ==> Busy(worker)) {
    }
    forall u: nat, at: Submitting ensures SubmitAt(n, u, at) <==> SubmitAt(s, u, at) {
    }
    forall i | 0 <= i < |n.queue| ensures QueuedInv(n, n.queue[i]) {
      assert QueuedInv(s, s.queue[i]);
    }
    forall u | 0 <= u < |n.submissions| ensures SubmissionInv(n, u) {
      assert SubmissionInv(s, u);
      if u != t && Held(s, u) {
        var v: nat :| Holds(s, v, u);
        assert Holds(n, v, u);
      }
      assert u == t && Busy(worker) ==> Holds(n, w, t);
    }
    forall v | 0 <= v < |n.workers| ensures WorkerInv(n, v) {
      if v != w {
        assert WorkerInv(s, v);
        assert Busy(s.workers[v]) ==> Holds(s, v, s.workers[v].ticket);
      }
    }
    forall u | u in n.results ensures ResultInv(ps, n, u) {
      assert ResultInv(ps, s, u);
    }
  }

  lemma SendKeeps(ps: Processors, s: State, w: nat)
    requires Inv(ps, s) && Enabled(ps, s, WorkerSend(w))
    ensures Inv(ps, Take(ps, s, WorkerSend(w)))
  {
    var t := s.workers[w].ticket;
    assert WorkerInv(s, w);
    HeldKeeps(ps, s, w, Sent(t), SendOn(s.submissions[t].channel, s.workers[w].result));
  }

  lemma CloseResultKeeps(ps: Processors, s: State, w: nat)
    requires Inv(ps, s) && Enabled(ps, s, WorkerCloseResult(w))
    ensures Inv(ps, Take(ps, s, WorkerCloseResult(w)))
  {
    var t := s.workers[w].ticket;
    assert WorkerInv(s, w);
    HeldKeeps(ps, s, w, Idle, s.submissions[t].channel.(closed := true));
  }

  lemma ExitKeeps(ps: Processors, s: State, step: Step)
    requires Inv(ps, s) && Enabled(ps, s, step)
    requires step.WorkerExit? || step.ShutdownClose? || step.ShutdownReturn?
    ensures Inv(ps, Take(ps, s, step))
  {
    var n := Take(ps, s, step);
    assert forall v: nat, u: nat :: Holds(n, v, u) <==> Holds(s, v, u);
    forall i | 0 <= i < |n.queue| ensures QueuedInv(n, n.queue[i]) {
      assert QueuedInv(s, s.queue[i]);
    }
    forall u | 0 <= u < |n.submissions| ensures SubmissionInv(n, u) {
      assert SubmissionInv(s, u) && (Held(s, u) ==> Held(n, u));
    }
    forall v | 0 <= v < |n.workers| ensures WorkerInv(n, v) {
      assert WorkerInv(s, v);
    }
    forall u | u in n.results ensures ResultInv(ps, n, u) {
      assert ResultInv(ps, s, u);
    }
  }

  lemma CancelKeeps(ps: Processors, s: State)
    requires Inv(ps, s) && s.shutdown.NotCalled?
    ensures Inv(ps, Wake(s))
  {
    var n := Wake(s);
    assert forall v: nat, u: nat :: Holds(n, v, u) <==> Holds(s, v, u);
    forall u: nat ensures SubmitAt(n, u, Enqueued) <==> SubmitAt(s, u, Enqueued) {
    }
    forall i | 0 <= i < |n.queue| ensures QueuedInv(n, n.queue[i]) {
      assert QueuedInv(s, s.queue[i]);
    }
    forall u | 0 <= u < |n.submissions| ensures SubmissionInv(n, u) {
      assert SubmissionInv(s, u) && (Held(s, u) ==> Held(n, u));
    }
    forall v | 0 <= v < |n.workers| ensures WorkerInv(n, v) {
      assert WorkerInv(s, v);
    }
    forall u | u in n.results ensures ResultInv(ps, n, u) {
      assert ResultInv(ps, s, u);
    }
  }

  lemma StepKeeps(ps: Processors, s: State, step: Step)
    requires Inv(ps, s) && Enabled(ps, s, step)
    ensures Inv(ps, Take(ps, s, step))
  {
    match step
    case SubmitEnqueue(t) => EnqueueKeeps(ps, s, t);
    case SubmitPark(t) => ParkKeeps(ps, s, t);
    case SubmitPanic(t) => PanicKeeps(ps, s, t);
    case WorkerReceive(w) => ReceiveKeeps(ps, s, w);
    case WorkerProcess(w, result) => ProcessKeeps(ps, s, w, result);
    case WorkerSend(w) => SendKeeps(ps, s, w);
    case WorkerCloseResult(w) => CloseResultKeeps(ps, s, w);
    case WorkerExit(_) => ExitKeeps(ps, s, step);
    case ShutdownCancel => CancelKeeps(ps, s);
    case ShutdownClose => ExitKeeps(ps, s, step);
    case ShutdownReturn => ExitKeeps(ps, s, step);
    case _ => SubmitStepKeeps(ps, s, step);
  }
}
