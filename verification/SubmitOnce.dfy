/**
 * Submitting one generation to a vendor at most once: any number of workers run jobs for the
 * same record, each as a sequence of database and vendor steps, interleaved in any order.
 */
module SubmitOnce {
  import opened Wrappers

  datatype Vendor = Suno | Mureka

  datatype Status = Pending | Processing | Completed | PartialSuccess | Failed

  datatype Submission = Queued | Dispatching | Submitted | SubmitUnknown | SubmitFailed

  /** A record starts with a placeholder id; a real one comes from the vendor. */
  datatype TaskId = Placeholder | Real(id: nat)

  datatype Record = Record(status: Status, state: Submission, task: TaskId, attempt: Option<nat>)

  datatype Rejection = Capacity | Terminal

  /** One claim and its POST as the vendor sees it; the claim's index stands for its random id. */
  datatype Attempt = Attempt(sent: bool, accepted: Option<nat>, rejection: Option<Rejection>)

  datatype Reply = Accepted | Rejected(why: Rejection) | Ambiguous

  datatype Worker =
    | Idle
    | Loaded(snapshot: Record, job: nat, recovered: Option<nat>)
    | Preparing(job: nat)
    | Claiming(job: nat)
    | Claimed(attempt: nat, job: nat)
    | Posted(attempt: nat, job: nat)
    | Replied(attempt: nat, job: nat, reply: Reply, task: nat)
    | Persisting(owner: Option<nat>, job: nat, task: nat, own: bool)
    | Marking(owner: Option<nat>)
    | Releasing(attempt: nat, thenFail: bool)
    | Failing(attempt: nat)

  /** `payloads` holds the accepted id saved on a job whose database write failed. */
  datatype State = State(vendor: Vendor, record: Record, attempts: seq<Attempt>, workers: map<nat, Worker>, payloads: map<nat, nat>)

  datatype Step =
    | Load(worker: nat, job: nat, sees: bool)
    | Decide(worker: nat)
    | Prepare(worker: nat, ok: bool, last: bool)
    | Claim(worker: nat)
    | Send(worker: nat)
    | Accept(attempt: nat, task: nat)
    | Answer(worker: nat, reply: Reply)
    | Handle(worker: nat, last: bool)
    | Persist(worker: nat)
    | GiveUp(worker: nat, saved: bool, last: bool)
    | MarkUnknown(worker: nat)
    | Release(worker: nat)
    | FailAttempt(worker: nat)
    | Callback(attempt: nat)
    | FailQueued
    | FailGeneration
    | SetStatus(status: Status)
    | Crash(worker: nat)

  // ----- conditional updates of the record -----

  function Dispatched(r: Record, a: nat): Option<Record> {
    if r.state == Queued && r.status == Pending && r.task == Placeholder
    then Some(r.(state := Dispatching, attempt := Some(a))) else None
  }

  predicate PersistHits(v: Vendor, r: Record, owner: Option<nat>) {
    match v
    case Suno =>
      if owner.Some? then ((r.state == Dispatching || r.state == SubmitUnknown) && r.attempt == owner) || r.state == Queued
      else r.task == Placeholder
    case Mureka =>
      (owner.Some? ==> r.attempt == owner) && r.state != SubmitFailed
  }

  function Persisted(v: Vendor, r: Record, owner: Option<nat>, task: nat): Option<Record> {
    if PersistHits(v, r, owner)
    then Some(r.(task := Real(task), state := Submitted, status := if v == Suno then Pending else Processing)) else None
  }

  function Released(r: Record, a: nat): Record {
    if r.state == Dispatching && r.attempt == Some(a) then r.(state := Queued) else r
  }

  function MarkedUnknown(v: Vendor, r: Record, owner: Option<nat>): Record {
    var open := if owner.None? && v == Suno then r.state == Dispatching else r.state == Dispatching || r.state == SubmitUnknown;
    if open && (owner.Some? ==> r.attempt == owner) then r.(state := SubmitUnknown) else r
  }

  function AttemptFailed(v: Vendor, r: Record, a: nat): Record {
    if r.attempt == Some(a) && (if v == Suno then r.state == Dispatching || r.state == Queued else r.status != Completed && r.status != PartialSuccess)
    then r.(status := Failed, state := SubmitFailed) else r
  }

  /** Failing before any claim of one's own: preflight errors, poll results, timeouts. */
  function GenerationFailed(v: Vendor, r: Record): Record {
    if (if v == Suno then r.status == Pending && (r.state == Queued || r.state == Dispatching) else r.status != Completed && r.status != PartialSuccess)
    then r.(status := Failed, state := SubmitFailed) else r
  }

  /** The reconciler's way to fail a record that was never submitted. */
  function QueuedFailed(v: Vendor, r: Record): Record {
    if r.status == Pending && r.task == Placeholder
    then r.(status := Failed, state := if v == Suno then r.state else SubmitFailed) else r
  }

  // ----- what a job does with the record it read -----

  datatype Action = Done | PersistRecovered(task: nat) | MarkOrphan | Submit

  datatype MurekaAction = NoopTerminal(refundIfFailed: bool) | PollOnly(task: TaskId) | WaitSubmitUnknown | MarkOrphanDispatching | SubmitNow

  function ResolveMurekaMusicGenerateAction(r: Record, recovered: Option<nat>): MurekaAction {
    if r.status == Completed || r.status == Failed || r.status == PartialSuccess then NoopTerminal(r.status == Failed)
    else if recovered.Some? then PollOnly(Real(recovered.value))
    else if r.state == SubmitUnknown then WaitSubmitUnknown
    else if r.state == Dispatching then MarkOrphanDispatching
    else if r.state == Submitted || r.task.Real? then PollOnly(r.task)
    else SubmitNow
  }

  function MurekaDecision(r: Record, recovered: Option<nat>): Action {
    match ResolveMurekaMusicGenerateAction(r, recovered)
    case NoopTerminal(_) => Done
    case PollOnly(task) => if recovered.Some? && task == Real(recovered.value) then PersistRecovered(recovered.value) else Done
    case WaitSubmitUnknown => Done
    case MarkOrphanDispatching => MarkOrphan
    case SubmitNow => Submit
  }

  function SunoDecision(r: Record, recovered: Option<nat>): Action {
    if r.status == Completed || r.status == Failed then Done
    else if recovered.Some? then PersistRecovered(recovered.value)
    else if r.state == Submitted || r.task.Real? then Done
    else if r.state == SubmitUnknown then Done
    else if r.state == Dispatching then MarkOrphan
    else if r.state == SubmitFailed then Done
    else Submit
  }

  function Decision(v: Vendor, r: Record, recovered: Option<nat>): Action {
    if v == Suno then SunoDecision(r, recovered) else MurekaDecision(r, recovered)
  }

  /** An open record with no id from the vendor, no accepted id at hand, and no submission under way. */
  predicate LooksUnsubmitted(v: Vendor, r: Record, recovered: Option<nat>) {
    && recovered.None? && r.task == Placeholder && r.status != Completed && r.status != Failed
    && (v == Mureka ==> r.status != PartialSuccess) && (r.state == Queued || (v == Mureka && r.state == SubmitFailed))
  }

  lemma SubmitExactlyWhenUnsubmitted(v: Vendor, r: Record, recovered: Option<nat>)
    ensures Decision(v, r, recovered) == Submit <==> LooksUnsubmitted(v, r, recovered)
  {
  }

  // ----- steps -----

  function At(s: State, w: nat): Worker { if w in s.workers then s.workers[w] else Idle }

  function Go(s: State, w: nat, worker: Worker): State { s.(workers := s.workers[w := worker]) }

  function Write(s: State, r: Record): State { s.(record := r) }

  /** The job's data may be older than the record it then reads. */
  function LoadStep(s: State, w: nat, job: nat, sees: bool): State {
    if At(s, w) != Idle then s
    else Go(s, w, Loaded(s.record, job, if sees && job in s.payloads then Some(s.payloads[job]) else None))
  }

  function DecideStep(s: State, w: nat): State {
    match At(s, w)
    case Loaded(r, job, recovered) =>
      Go(s, w, match Decision(s.vendor, r, recovered)
               case Done => Idle
               case PersistRecovered(task) => Persisting(r.attempt, job, task, false)
               case MarkOrphan => Marking(r.attempt)
               case Submit => Preparing(job))
    case _ => s
  }

  function PrepareStep(s: State, w: nat, ok: bool, last: bool): State {
    match At(s, w)
    case Preparing(job) =>
      if ok then Go(s, w, Claiming(job))
      else Go(if last then Write(s, GenerationFailed(s.vendor, s.record)) else s, w, Idle)
    case _ => s
  }

  function ClaimStep(s: State, w: nat): State {
    match At(s, w)
    case Claiming(job) =>
      (match Dispatched(s.record, |s.attempts|)
       case None => Go(s, w, Idle)
       case Some(r) => Go(Write(s, r).(attempts := s.attempts + [Attempt(false, None, None)]), w, Claimed(|s.attempts|, job)))
    case _ => s
  }

  function SendStep(s: State, w: nat): State {
    match At(s, w)
    case Claimed(a, job) =>
      if a >= |s.attempts| then s
      else Go(s.(attempts := s.attempts[a := s.attempts[a].(sent := true)]), w, Posted(a, job))
    case _ => s
  }

  /** The vendor takes a POST on, at any time after it was sent, unless it turned it down. */
  function AcceptStep(s: State, a: nat, task: nat): State {
    if a < |s.attempts| && s.attempts[a].sent && s.attempts[a].accepted.None? && s.attempts[a].rejection.None?
    then s.(attempts := s.attempts[a := s.attempts[a].(accepted := Some(task))]) else s
  }

  /** A definite answer is true of the vendor; anything else is ambiguous. */
  function AnswerStep(s: State, w: nat, reply: Reply): State {
    match At(s, w)
    case Posted(a, job) =>
      if a >= |s.attempts| then s
      else if reply.Accepted? && s.attempts[a].accepted.Some? then Go(s, w, Replied(a, job, Accepted, s.attempts[a].accepted.value))
      else if reply.Rejected? && s.attempts[a].accepted.None? then
        Go(s.(attempts := s.attempts[a := s.attempts[a].(rejection := Some(reply.why))]), w, Replied(a, job, reply, 0))
      else Go(s, w, Replied(a, job, Ambiguous, 0))
    case _ => s
  }

  function HandleStep(s: State, w: nat, last: bool): State {
    match At(s, w)
    case Replied(a, job, reply, task) =>
      Go(s, w, match reply
               case Accepted => Persisting(Some(a), job, task, true)
               case Ambiguous => Marking(Some(a))
               case Rejected(why) =>
                 if why == Terminal || (last && s.vendor == Mureka) then Failing(a) else Releasing(a, last))
    case _ => s
  }

  /** A write that matches no row is fine when a real id is already there (Suno), else it is tried again. */
  function PersistStep(s: State, w: nat): State {
    match At(s, w)
    case Persisting(owner, job, task, own) =>
      (match Persisted(s.vendor, s.record, owner, task)
       case Some(r) => Go(Write(s, r), w, Idle)
       case None => if s.vendor == Suno && s.record.task.Real? then Go(s, w, Idle) else s)
    case _ => s
  }

  function GiveUpStep(s: State, w: nat, saved: bool, last: bool): State {
    match At(s, w)
    case Persisting(owner, job, task, own) =>
      var kept := if own && saved then s.(payloads := s.payloads[job := task]) else s;
      Go(kept, w, if (if s.vendor == Suno then last else own) then Marking(owner) else Idle)
    case _ => s
  }

  function MarkStep(s: State, w: nat): State {
    match At(s, w)
    case Marking(owner) => Go(Write(s, MarkedUnknown(s.vendor, s.record, owner)), w, Idle)
    case _ => s
  }

  function ReleaseStep(s: State, w: nat): State {
    match At(s, w)
    case Releasing(a, thenFail) => Go(Write(s, Released(s.record, a)), w, if thenFail then Failing(a) else Idle)
    case _ => s
  }

  function FailStep(s: State, w: nat): State {
    match At(s, w)
    case Failing(a) => Go(Write(s, AttemptFailed(s.vendor, s.record, a)), w, Idle)
    case _ => s
  }

  /** A signed Suno callback names the id of a POST the vendor took on. */
  function CallbackStep(s: State, a: nat): State {
    if s.vendor == Suno && a < |s.attempts| && s.attempts[a].accepted.Some? && s.record.task == Placeholder
       && (s.record.state == Dispatching || s.record.state == SubmitUnknown)
    then Write(s, s.record.(task := Real(s.attempts[a].accepted.value), state := Submitted)) else s
  }

  function Next(s: State, step: Step): State {
    match step
    case Load(w, job, sees) => LoadStep(s, w, job, sees)
    case Decide(w) => DecideStep(s, w)
    case Prepare(w, ok, last) => PrepareStep(s, w, ok, last)
    case Claim(w) => ClaimStep(s, w)
    case Send(w) => SendStep(s, w)
    case Accept(a, task) => AcceptStep(s, a, task)
    case Answer(w, reply) => AnswerStep(s, w, reply)
    case Handle(w, last) => HandleStep(s, w, last)
    case Persist(w) => PersistStep(s, w)
    case GiveUp(w, saved, last) => GiveUpStep(s, w, saved, last)
    case MarkUnknown(w) => MarkStep(s, w)
    case Release(w) => ReleaseStep(s, w)
    case FailAttempt(w) => FailStep(s, w)
    case Callback(a) => CallbackStep(s, a)
    case FailQueued => Write(s, QueuedFailed(s.vendor, s.record))
    case FailGeneration => if s.vendor == Mureka then Write(s, GenerationFailed(s.vendor, s.record)) else s
    case SetStatus(status) => Write(s, s.record.(status := status))
    case Crash(w) => Go(s, w, Idle)
  }

  function Run(s: State, steps: seq<Step>): State
    decreases |steps|
  {
    if |steps| == 0 then s else Run(Next(s, steps[0]), steps[1..])
  }

  // ----- the invariant -----

  /** The vendor took on the latest attempt, under this id. */
  ghost predicate IsAccepted(attempts: seq<Attempt>, task: nat) {
    |attempts| > 0 && attempts[|attempts| - 1].accepted == Some(task)
  }

  ghost predicate RejectedFor(attempts: seq<Attempt>, a: nat, why: Rejection) {
    a < |attempts| && attempts[a].rejection == Some(why)
  }

  ghost predicate AttemptsOk(attempts: seq<Attempt>) {
    && (forall a :: 0 <= a < |attempts| && attempts[a].accepted.Some? ==> attempts[a].sent && attempts[a].rejection.None?)
    && (forall a :: 0 <= a < |attempts| - 1 ==> attempts[a].rejection == Some(Capacity))
  }

  ghost predicate RecordOk(attempts: seq<Attempt>, r: Record) {
    && r.attempt == (if |attempts| == 0 then None else Some(|attempts| - 1))
    && (r.state == Queued ==> |attempts| == 0 || attempts[|attempts| - 1].rejection == Some(Capacity))
    && (r.task.Real? ==> IsAccepted(attempts, r.task.id))
    && (r.state == Submitted ==> r.task.Real?)
  }

  ghost predicate WorkerOk(attempts: seq<Attempt>, worker: Worker) {
    match worker
    case Loaded(_, _, recovered) => recovered.Some? ==> IsAccepted(attempts, recovered.value)
    case Claimed(a, _) => a < |attempts| && !attempts[a].sent && attempts[a].rejection.None?
    case Posted(a, _) => a < |attempts| && attempts[a].sent && attempts[a].rejection.None?
    case Replied(a, _, reply, task) =>
      a < |attempts| && (reply.Accepted? ==> IsAccepted(attempts, task)) && (reply.Rejected? ==> RejectedFor(attempts, a, reply.why))
    case Persisting(_, _, task, _) => IsAccepted(attempts, task)
    case Releasing(a, _) => RejectedFor(attempts, a, Capacity)
    case _ => true
  }

  /** The attempt a worker alone may POST or wait for. */
  function Owned(worker: Worker): Option<nat> {
    match worker
    case Claimed(a, _) => Some(a)
    case Posted(a, _) => Some(a)
    case _ => None
  }

  ghost predicate WorkersOk(s: State) {
    && (forall w :: w in s.workers ==> WorkerOk(s.attempts, s.workers[w]))
    && (forall v, w :: v in s.workers && w in s.workers && v != w && Owned(s.workers[v]).Some? ==> Owned(s.workers[v]) != Owned(s.workers[w]))
  }

  ghost predicate PayloadsOk(s: State) { forall job :: job in s.payloads ==> IsAccepted(s.attempts, s.payloads[job]) }

  ghost predicate Inv(s: State) { AttemptsOk(s.attempts) && RecordOk(s.attempts, s.record) && WorkersOk(s) && PayloadsOk(s) }

  ghost predicate Start(s: State) {
    s.record == Record(Pending, Queued, Placeholder, None) && s.attempts == [] && s.workers == map[] && s.payloads == map[]
  }

  // ----- changes that keep it -----

  lemma GoKeepsInv(s: State, w: nat, worker: Worker)
    requires Inv(s) && WorkerOk(s.attempts, worker)
    requires Owned(worker).Some? ==> Owned(worker) == Owned(At(s, w))
    ensures Inv(Go(s, w, worker))
  {
  }

  lemma WriteKeepsInv(s: State, r: Record)
    requires Inv(s) && RecordOk(s.attempts, r)
    ensures Inv(Write(s, r))
  {
  }

  lemma AtOk(s: State, w: nat)
    requires Inv(s)
    ensures WorkerOk(s.attempts, At(s, w))
  {
  }

  /** A claim only goes through when every earlier POST was turned down for capacity. */
  lemma ClaimKeepsInv(s: State, w: nat)
    requires Inv(s)
    ensures Inv(ClaimStep(s, w))
    ensures |ClaimStep(s, w).attempts| > |s.attempts| ==> forall a :: 0 <= a < |s.attempts| ==> s.attempts[a].rejection == Some(Capacity)
  {
    var after := ClaimStep(s, w);
    if |after.attempts| == |s.attempts| {
      if At(s, w).Claiming? { GoKeepsInv(s, w, Idle); }
    } else {
      forall task | IsAccepted(s.attempts, task) ensures false {}
      forall v | v in after.workers ensures WorkerOk(after.attempts, after.workers[v]) {
        if v != w { assert WorkerOk(s.attempts, s.workers[v]); }
      }
      forall v | v in s.workers && Owned(s.workers[v]).Some? ensures Owned(s.workers[v]).value < |s.attempts| {
        assert WorkerOk(s.attempts, s.workers[v]);
      }
    }
  }

  lemma SendKeepsInv(s: State, w: nat)
    requires Inv(s)
    ensures Inv(SendStep(s, w))
  {
  }

  lemma AcceptKeepsInv(s: State, a: nat, task: nat)
    requires Inv(s)
    ensures Inv(AcceptStep(s, a, task))
  {
  }

  lemma AnswerKeepsInv(s: State, w: nat, reply: Reply)
    requires Inv(s)
    ensures Inv(AnswerStep(s, w, reply))
  {
    AtOk(s, w);
    if At(s, w).Posted? {
      var a := At(s, w).attempt;
      assert a == |s.attempts| - 1;
      if reply.Rejected? && s.attempts[a].accepted.None? {
        RejectKeepsInv(s, w, reply.why);
      } else {
        GoKeepsInv(s, w, At(AnswerStep(s, w, reply), w));
      }
    }
  }

  lemma RejectKeepsInv(s: State, w: nat, why: Rejection)
    requires Inv(s) && At(s, w).Posted? && At(s, w).attempt == |s.attempts| - 1
    requires s.attempts[|s.attempts| - 1].accepted.None?
    ensures Inv(AnswerStep(s, w, Rejected(why)))
  {
    var after := AnswerStep(s, w, Rejected(why));
    assert WorkerOk(s.attempts, s.workers[w]);
    forall v | v in after.workers ensures WorkerOk(after.attempts, after.workers[v]) {
      if v != w {
        assert WorkerOk(s.attempts, s.workers[v]);
        assert Owned(s.workers[v]) != Owned(s.workers[w]);
      }
    }
  }

  lemma LocalKeepsInv(s: State, w: nat, job: nat, sees: bool, last: bool)
    requires Inv(s)
    ensures Inv(LoadStep(s, w, job, sees)) && Inv(DecideStep(s, w)) && Inv(HandleStep(s, w, last))
  {
    AtOk(s, w);
    if At(s, w).Idle? { GoKeepsInv(s, w, At(LoadStep(s, w, job, sees), w)); }
    if At(s, w).Loaded? {
      GoKeepsInv(s, w, At(DecideStep(s, w), w));
    }
    if At(s, w).Replied? { GoKeepsInv(s, w, At(HandleStep(s, w, last), w)); }
  }

  lemma PersistKeepsInv(s: State, w: nat)
    requires Inv(s)
    ensures Inv(PersistStep(s, w))
  {
  }

  lemma GiveUpKeepsInv(s: State, w: nat, saved: bool, last: bool)
    requires Inv(s)
    ensures Inv(GiveUpStep(s, w, saved, last))
  {
  }

  lemma PrepareKeepsInv(s: State, w: nat, ok: bool, last: bool)
    requires Inv(s)
    ensures Inv(PrepareStep(s, w, ok, last))
  {
    AtOk(s, w);
    if At(s, w).Preparing? {
      if ok {
        GoKeepsInv(s, w, Claiming(At(s, w).job));
      } else {
        WriteThenGo(s, w, if last then GenerationFailed(s.vendor, s.record) else s.record, Idle);
      }
    }
  }

  lemma WriteThenGo(s: State, w: nat, r: Record, worker: Worker)
    requires Inv(s) && RecordOk(s.attempts, r) && WorkerOk(s.attempts, worker)
    requires Owned(worker).Some? ==> Owned(worker) == Owned(At(s, w))
    ensures Inv(Go(Write(s, r), w, worker))
  {
    hide RecordOk;
    WriteKeepsInv(s, r);
    GoKeepsInv(Write(s, r), w, worker);
  }

  lemma CloseKeepsInv(s: State, w: nat)
    requires Inv(s)
    ensures Inv(MarkStep(s, w)) && Inv(ReleaseStep(s, w)) && Inv(FailStep(s, w))
  {
    AtOk(s, w);
    match At(s, w)
    case Marking(owner) => WriteThenGo(s, w, MarkedUnknown(s.vendor, s.record, owner), Idle);
    case Releasing(a, thenFail) => WriteThenGo(s, w, Released(s.record, a), if thenFail then Failing(a) else Idle);
    case Failing(a) => WriteThenGo(s, w, AttemptFailed(s.vendor, s.record, a), Idle);
    case _ =>
  }

  lemma OutsideKeepsInv(s: State, status: Status)
    requires Inv(s)
    ensures Inv(Write(s, QueuedFailed(s.vendor, s.record))) && Inv(Write(s, GenerationFailed(s.vendor, s.record)))
    ensures Inv(Write(s, s.record.(status := status)))
  {
  }

  lemma CallbackKeepsInv(s: State, a: nat)
    requires Inv(s)
    ensures Inv(CallbackStep(s, a))
  {
  }

  /** What a worker does to the record, to its POST and to its own plans. */
  predicate WorkerStep(step: Step) {
    step.Decide? || step.Claim? || step.Send? || step.Answer? || step.Handle? || step.Persist? || step.GiveUp?
  }

  lemma WorkerStepKeepsInv(s: State, step: Step)
    requires Inv(s) && WorkerStep(step)
    ensures Inv(Next(s, step))
  {
    hide Inv;
    hide DecideStep;
    hide ClaimStep;
    hide SendStep;
    hide AnswerStep;
    hide HandleStep;
    hide PersistStep;
    hide GiveUpStep;
    match step
    case Decide(w) => LocalKeepsInv(s, w, 0, false, false);
    case Claim(w) => ClaimKeepsInv(s, w);
    case Send(w) => SendKeepsInv(s, w);
    case Answer(w, reply) => AnswerKeepsInv(s, w, reply);
    case Handle(w, last) => LocalKeepsInv(s, w, 0, false, last);
    case Persist(w) => PersistKeepsInv(s, w);
    case GiveUp(w, saved, last) => GiveUpKeepsInv(s, w, saved, last);
  }

  lemma StepKeepsInv(s: State, step: Step)
    requires Inv(s)
    ensures Inv(Next(s, step))
  {
    hide Inv;
    if WorkerStep(step) {
      WorkerStepKeepsInv(s, step);
    } else {
      OtherStepKeepsInv(s, step);
    }
    hide Next;
  }

  lemma OtherStepKeepsInv(s: State, step: Step)
    requires Inv(s) && !WorkerStep(step)
    ensures Inv(Next(s, step))
  {
    hide Inv;
    hide LoadStep;
    hide PrepareStep;
    hide AcceptStep;
    hide MarkStep;
    hide ReleaseStep;
    hide FailStep;
    hide CallbackStep;
    hide QueuedFailed;
    hide GenerationFailed;
    match step
    case Load(w, job, sees) => LocalKeepsInv(s, w, job, sees, false);
    case Prepare(w, ok, last) => PrepareKeepsInv(s, w, ok, last);
    case Accept(a, task) => AcceptKeepsInv(s, a, task);
    case MarkUnknown(w) => CloseKeepsInv(s, w);
    case Release(w) => CloseKeepsInv(s, w);
    case FailAttempt(w) => CloseKeepsInv(s, w);
    case Callback(a) => CallbackKeepsInv(s, a);
    case FailQueued => OutsideKeepsInv(s, Pending);
    case FailGeneration => OutsideKeepsInv(s, Pending);
    case SetStatus(status) => OutsideKeepsInv(s, status);
    case Crash(w) => GoKeepsInv(s, w, Idle);
  }

  lemma {:induction false} RunKeepsInv(s: State, steps: seq<Step>)
    requires Inv(s)
    ensures Inv(Run(s, steps))
    decreases |steps|
  {
    hide Inv;
    if |steps| > 0 {
      StepKeepsInv(s, steps[0]);
      RunKeepsInv(Next(s, steps[0]), steps[1..]);
    }
  }

  // ----- main results -----

  predicate PossiblyAccepted(a: Attempt) { a.sent && a.rejection.None? }

  predicate InFlight(s: State, w: nat) { w in s.workers && s.workers[w].Posted? }

  /**
   * However workers, crashes, retries and re-enqueues interleave: of all POSTs at most the last one
   * was possibly taken on, every other one was turned down for capacity, and no two are in flight.
   */
  lemma AtMostOnePossiblyAccepted(start: State, steps: seq<Step>)
    requires Start(start)
    ensures var s := Run(start, steps);
      && (forall i :: 0 <= i < |s.attempts| - 1 ==> s.attempts[i].rejection == Some(Capacity) && !PossiblyAccepted(s.attempts[i]))
      && (forall v, w :: InFlight(s, v) && InFlight(s, w) ==> v == w)
  {
    RunKeepsInv(start, steps);
    var s := Run(start, steps);
    forall v, w | InFlight(s, v) && InFlight(s, w) ensures v == w {
      assert WorkerOk(s.attempts, s.workers[v]) && WorkerOk(s.attempts, s.workers[w]);
      assert Owned(s.workers[v]) == Owned(s.workers[w]);
    }
  }

  /** A POST leaves only when every earlier POST of the record was turned down for capacity. */
  lemma PostOnlyAfterCapacityRejections(start: State, steps: seq<Step>, w: nat)
    requires Start(start)
    ensures var s := Run(start, steps); var after := SendStep(s, w);
      after != s ==>
        && At(s, w).Claimed? && At(s, w).attempt == |s.attempts| - 1 && !s.attempts[|s.attempts| - 1].sent
        && forall a :: 0 <= a < |s.attempts| - 1 ==> s.attempts[a].rejection == Some(Capacity)
  {
    RunKeepsInv(start, steps);
    var s := Run(start, steps);
    AtOk(s, w);
  }

  lemma StepKeepsTask(s: State, step: Step)
    requires Inv(s) && s.record.task.Real?
    ensures Next(s, step).record.task == s.record.task
  {
  }

  lemma {:induction false} RunKeepsTask(s: State, steps: seq<Step>)
    requires Inv(s) && s.record.task.Real?
    ensures Run(s, steps).record.task == s.record.task
    decreases |steps|
  {
    hide Inv;
    if |steps| > 0 {
      StepKeepsTask(s, steps[0]);
      StepKeepsInv(s, steps[0]);
      RunKeepsTask(Next(s, steps[0]), steps[1..]);
    }
  }

  lemma {:induction false} RunConcat(s: State, first: seq<Step>, second: seq<Step>)
    ensures Run(s, first + second) == Run(Run(s, first), second)
    decreases |first|
  {
    hide Next;
    if |first| == 0 {
      assert first + second == second;
    } else {
      assert (first + second)[1..] == first[1..] + second;
      RunConcat(Next(s, first[0]), first[1..], second);
    }
  }

  /**
   * A submitted record carries the id of the one POST the vendor took on, and no later persist,
   * recovery, retry or callback changes it.
   */
  lemma SubmittedTaskIsStable(start: State, steps: seq<Step>, later: seq<Step>)
    requires Start(start) && Run(start, steps).record.state == Submitted
    ensures var s := Run(start, steps);
      && s.record.task.Real? && |s.attempts| > 0 && s.attempts[|s.attempts| - 1].accepted == Some(s.record.task.id)
      && Run(start, steps + later).record.task == s.record.task
  {
    RunKeepsInv(start, steps);
    RunKeepsTask(Run(start, steps), later);
    RunConcat(start, steps, later);
  }

  lemma StepKeepsAccepted(s: State, step: Step, a: nat)
    requires Inv(s) && a < |s.attempts| && s.attempts[a].accepted.Some?
    ensures a < |Next(s, step).attempts| && Next(s, step).attempts[a].accepted == s.attempts[a].accepted
  {
  }

  lemma {:induction false} RunKeepsAccepted(s: State, steps: seq<Step>, a: nat)
    requires Inv(s) && a < |s.attempts| && s.attempts[a].accepted.Some?
    ensures a < |Run(s, steps).attempts| && Run(s, steps).attempts[a].accepted == s.attempts[a].accepted
    decreases |steps|
  {
    hide Inv;
    if |steps| > 0 {
      StepKeepsAccepted(s, steps[0], a);
      StepKeepsInv(s, steps[0]);
      RunKeepsAccepted(Next(s, steps[0]), steps[1..], a);
    }
  }

  /** Once the vendor took a POST on, there is never another claim or POST for the record. */
  lemma AcceptedPostIsTheLast(start: State, steps: seq<Step>, later: seq<Step>, a: nat)
    requires Start(start) && a < |Run(start, steps).attempts| && Run(start, steps).attempts[a].accepted.Some?
    ensures a == |Run(start, steps).attempts| - 1 && |Run(start, steps + later).attempts| == |Run(start, steps).attempts|
  {
    RunKeepsInv(start, steps);
    RunKeepsAccepted(Run(start, steps), later, a);
    RunConcat(start, steps, later);
    RunKeepsInv(start, steps + later);
  }
}
