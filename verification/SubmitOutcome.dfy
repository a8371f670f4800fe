/** What one submit job makes of its record, for every record it may read and every reply it may hear. */
module SubmitOutcome {
  import opened Wrappers
  import opened SubmitOnce
  import opened SubmitJob

  // ----- what a job decides -----

  /** Still open as far as the vendor's worker is concerned. */
  ghost predicate StillOpen(v: Vendor, r: Record) { r.status != Completed && r.status != Status.Failed && (v == Mureka ==> r.status != PartialSuccess) }

  /** A claim is on record, and no id. */
  ghost predicate LooksOrphaned(v: Vendor, r: Record) { r.state == Dispatching && (v == Suno ==> r.task == Placeholder) }

  /**
   * A closed record is left alone; an accepted id saved on the job is written; a claim nobody
   * answers for is marked; and a POST is considered only for an unsubmitted record.
   */
  lemma DecidesExactly(v: Vendor, r: Record, recovered: Option<nat>)
    ensures Decision(v, r, recovered)
      == if !StillOpen(v, r) then Done
         else if recovered.Some? then PersistRecovered(recovered.value)
         else if LooksOrphaned(v, r) then MarkOrphan
         else if LooksUnsubmitted(v, r, None) then Submit
         else Done
  {
  }

  function SavedId(s: State, job: nat): Option<nat> { if job in s.payloads then Some(s.payloads[job]) else None }

  /** Record, vendor attempts and job data after an execution; the worker is free again. */
  ghost predicate Leaves(after: State, w: nat, r: Record, attempts: seq<Attempt>, payloads: map<nat, nat>) {
    after.record == r && after.attempts == attempts && after.payloads == payloads && At(after, w) == Idle
  }

  ghost predicate Unchanged(s: State, w: nat, after: State) { Leaves(after, w, s.record, s.attempts, s.payloads) }

  lemma Decided(s: State, w: nat, job: nat, x: Script)
    requires At(s, w) == Idle
    ensures var d := DecideStep(LoadStep(s, w, job, true), w);
      && d.record == s.record && d.attempts == s.attempts && d.payloads == s.payloads && d.vendor == s.vendor
      && At(d, w) == match Decision(s.vendor, s.record, SavedId(s, job))
                     case Done => Idle
                     case PersistRecovered(task) => Persisting(s.record.attempt, job, task, false)
                     case MarkOrphan => Marking(s.record.attempt)
                     case Submit => Preparing(job)
  {
    var loaded := LoadStep(s, w, job, true);
    assert At(loaded, w) == Loaded(s.record, job, SavedId(s, job));
    hide LoadStep;
    hide Decision;
  }

  /** From a place past the POST, only saving and the last write are left. */
  lemma PastPost(d: State, w: nat, x: Script)
    requires LastWriteLeft(At(d, w)) || At(d, w).Persisting?
    ensures Post(ClaimStep(PrepareStep(d, w, x.prepared, x.last), w), w, x) == d
  {
    PostDone(d, w, x);
  }

  /** A job with nothing to decide does nothing. */
  lemma DoneJob(s: State, w: nat, job: nat, x: Script)
    requires At(s, w) == Idle && Decision(s.vendor, s.record, SavedId(s, job)) == Done
    ensures Unchanged(s, w, Job(s, w, job, x))
  {
    Decided(s, w, job, x);
    var d := DecideStep(LoadStep(s, w, job, true), w);
    hide LoadStep;
    hide DecideStep;
    PastPost(d, w, x);
    SaveDone(d, w, x);
    EndOf(d, w);
    hide Post;
    hide Save;
    hide End;
    assert Begin(s, w, job, x) == ClaimStep(PrepareStep(d, w, x.prepared, x.last), w);
  }

  /** An orphaned claim closes the record to automatic POSTs, and makes none. */
  lemma OrphanJob(s: State, w: nat, job: nat, x: Script)
    requires At(s, w) == Idle && StillOpen(s.vendor, s.record) && SavedId(s, job) == None && LooksOrphaned(s.vendor, s.record)
    ensures Leaves(Job(s, w, job, x), w, s.record.(state := SubmitUnknown), s.attempts, s.payloads)
  {
    DecidesExactly(s.vendor, s.record, None);
    Decided(s, w, job, x);
    var d := DecideStep(LoadStep(s, w, job, true), w);
    hide LoadStep;
    hide DecideStep;
    PastPost(d, w, x);
    SaveDone(d, w, x);
    hide Post;
    hide Save;
    assert Begin(s, w, job, x) == ClaimStep(PrepareStep(d, w, x.prepared, x.last), w);
  }

  /** The record takes an id from the vendor. */
  ghost function WithId(v: Vendor, r: Record, task: nat): Record {
    r.(task := Real(task), state := Submitted, status := if v == Suno then Pending else Processing)
  }

  // ----- a POST -----

  /** The job considers a POST, and everything that can fail locally went well. */
  ghost predicate Submits(s: State, w: nat, job: nat) {
    At(s, w) == Idle && SavedId(s, job) == None && LooksUnsubmitted(s.vendor, s.record, None)
  }

  /** A local failure makes no POST; on the last try it fails the record, for Suno only if it is still pending. */
  lemma UnpreparedJob(s: State, w: nat, job: nat, x: Script)
    requires Submits(s, w, job) && !x.prepared
    ensures Leaves(Job(s, w, job, x), w,
                   if x.last && (s.vendor == Suno ==> s.record.status == Pending) then s.record.(status := Status.Failed, state := SubmitFailed) else s.record,
                   s.attempts, s.payloads)
  {
    SubmitExactlyWhenUnsubmitted(s.vendor, s.record, None);
    Decided(s, w, job, x);
    var d := DecideStep(LoadStep(s, w, job, true), w);
    hide LoadStep;
    hide DecideStep;
    hide Decision;
    var b := ClaimStep(PrepareStep(d, w, x.prepared, x.last), w);
    assert At(b, w) == Idle;
    PostDone(b, w, x);
    SaveDone(b, w, x);
    EndOf(b, w);
    hide Post;
    hide Save;
    hide End;
    assert Begin(s, w, job, x) == b;
  }

  ghost predicate Claimable(r: Record) { r.state == Queued && r.status == Pending && r.task == Placeholder }

  /** Where the worker stands after the claim. */
  lemma ClaimedBegin(s: State, w: nat, job: nat, x: Script)
    requires Submits(s, w, job) && x.prepared
    ensures var b := Begin(s, w, job, x);
      && b.payloads == s.payloads && b.vendor == s.vendor
      && if Claimable(s.record) then
           At(b, w) == Claimed(|s.attempts|, job) && b.record == s.record.(state := Dispatching, attempt := Some(|s.attempts|))
           && b.attempts == s.attempts + [Attempt(false, None, None)]
         else At(b, w) == Idle && b.record == s.record && b.attempts == s.attempts
  {
    SubmitExactlyWhenUnsubmitted(s.vendor, s.record, None);
    Decided(s, w, job, x);
    var d := DecideStep(LoadStep(s, w, job, true), w);
    hide LoadStep;
    hide DecideStep;
    hide Decision;
    hide LooksUnsubmitted;
    assert Begin(s, w, job, x) == ClaimStep(PrepareStep(d, w, true, x.last), w);
  }

  /** A record that cannot be claimed is left alone. */
  lemma UnclaimedJob(s: State, w: nat, job: nat, x: Script)
    requires Submits(s, w, job) && x.prepared && !Claimable(s.record)
    ensures Unchanged(s, w, Job(s, w, job, x))
  {
    ClaimedBegin(s, w, job, x);
    var b := Begin(s, w, job, x);
    hide Begin;
    PostDone(b, w, x);
    SaveDone(b, w, x);
    EndOf(b, w);
    hide Post;
    hide Save;
    hide End;
  }

  ghost predicate Posts(s: State, w: nat, job: nat, x: Script) { Submits(s, w, job) && x.prepared && Claimable(s.record) }

  /** The definite answers are true of the vendor; any other is ambiguous. */
  ghost predicate HearsAccepted(x: Script) { x.reply == Accepted && x.takes.Some? }

  ghost predicate HearsRejected(x: Script, why: Rejection) { x.reply == Rejected(why) && x.takes.None? }

  /** The one new POST, as the vendor sees it. */
  ghost function NewPost(x: Script): Attempt { Attempt(true, x.takes, if x.takes.None? && x.reply.Rejected? then Some(x.reply.why) else None) }

  ghost predicate SameRest(a: State, b: State) { a.record == b.record && a.payloads == b.payloads && a.vendor == b.vendor }

  lemma SentTo(b: State, w: nat, a: nat, job: nat, x: Script)
    requires At(b, w) == Claimed(a, job) && a < |b.attempts| && b.attempts[a] == Attempt(false, None, None)
    ensures var took := VendorTakes(SendStep(b, w), w, x);
      At(took, w) == Posted(a, job) && SameRest(took, b) && took.attempts == b.attempts[a := Attempt(true, x.takes, None)]
  {
    var sent := SendStep(b, w);
    assert At(sent, w) == Posted(a, job) && SameRest(sent, b) && sent.attempts == b.attempts[a := Attempt(true, None, None)];
    hide SendStep;
  }

  lemma AnsweredTo(t: State, w: nat, a: nat, job: nat, x: Script)
    requires At(t, w) == Posted(a, job) && a < |t.attempts| && t.attempts[a] == Attempt(true, x.takes, None)
    ensures var p := HandleStep(AnswerStep(t, w, x.reply), w, x.last);
      && SameRest(p, t) && p.attempts == t.attempts[a := NewPost(x)]
      && At(p, w) == if HearsAccepted(x) then Persisting(Some(a), job, x.takes.value, true)
                     else if HearsRejected(x, Terminal) || (HearsRejected(x, Capacity) && x.last && t.vendor == Mureka) then Failing(a)
                     else if HearsRejected(x, Capacity) then Releasing(a, x.last)
                     else Marking(Some(a))
  {
    var answered := AnswerStep(t, w, x.reply);
    assert SameRest(answered, t) && answered.attempts == t.attempts[a := NewPost(x)];
    assert At(answered, w) == Replied(a, job, if HearsAccepted(x) || (x.takes.None? && x.reply.Rejected?) then x.reply else Ambiguous,
                                      if HearsAccepted(x) then x.takes.value else 0);
    hide AnswerStep;
  }

  lemma PostedTo(s: State, w: nat, job: nat, x: Script)
    requires Posts(s, w, job, x)
    ensures var a := |s.attempts|;
      var p := Post(Begin(s, w, job, x), w, x);
      && p.record == s.record.(state := Dispatching, attempt := Some(a)) && p.attempts == s.attempts + [NewPost(x)]
      && p.payloads == s.payloads && p.vendor == s.vendor
      && At(p, w) == if HearsAccepted(x) then Persisting(Some(a), job, x.takes.value, true)
                     else if HearsRejected(x, Terminal) || (HearsRejected(x, Capacity) && x.last && s.vendor == Mureka) then Failing(a)
                     else if HearsRejected(x, Capacity) then Releasing(a, x.last)
                     else Marking(Some(a))
  {
    var a := |s.attempts|;
    ClaimedBegin(s, w, job, x);
    var b := Begin(s, w, job, x);
    hide Begin;
    hide Submits;
    SentTo(b, w, a, job, x);
    AnsweredTo(VendorTakes(SendStep(b, w), w, x), w, a, job, x);
    hide SendStep;
    hide VendorTakes;
    hide AnswerStep;
    hide HandleStep;
    assert (s.attempts + [Attempt(false, None, None)])[a := Attempt(true, x.takes, None)][a := NewPost(x)] == s.attempts + [NewPost(x)];
  }

  // ----- after the POST -----

  /** A rejection fails the record, or for want of capacity puts it back in the queue until the last try. */
  lemma RejectedJob(s: State, w: nat, job: nat, x: Script)
    requires Posts(s, w, job, x) && (HearsRejected(x, Terminal) || HearsRejected(x, Capacity))
    ensures Leaves(Job(s, w, job, x), w,
                   if HearsRejected(x, Capacity) && !x.last then s.record.(attempt := Some(|s.attempts|))
                   else s.record.(attempt := Some(|s.attempts|), status := Status.Failed, state := SubmitFailed),
                   s.attempts + [NewPost(x)], s.payloads)
  {
    PostedTo(s, w, job, x);
    var p := Post(Begin(s, w, job, x), w, x);
    hide Begin;
    hide Post;
    hide Submits;
    SaveDone(p, w, x);
    hide Save;
  }

  /** An answer that settles nothing closes the record to automatic POSTs. */
  lemma AmbiguousJob(s: State, w: nat, job: nat, x: Script)
    requires Posts(s, w, job, x) && !HearsAccepted(x) && !(x.reply.Rejected? && x.takes.None?)
    ensures Leaves(Job(s, w, job, x), w, s.record.(attempt := Some(|s.attempts|), state := SubmitUnknown), s.attempts + [NewPost(x)], s.payloads)
  {
    PostedTo(s, w, job, x);
    var p := Post(Begin(s, w, job, x), w, x);
    hide Begin;
    hide Post;
    SaveDone(p, w, x);
    hide Save;
  }

  /** A failed database write keeps the id on the job, if that works, and closes the record: Mureka at once, Suno on the last try. */
  ghost function Unsaved(v: Vendor, r: Record, last: bool): Record { if v == Mureka || last then r.(state := SubmitUnknown) else r }

  lemma SavedOwn(p: State, w: nat, a: nat, job: nat, task: nat, x: Script)
    requires At(p, w) == Persisting(Some(a), job, task, true) && p.record.state == Dispatching && p.record.attempt == Some(a)
    ensures var after := End(Save(p, w, x), w);
      if Reached(p.vendor, x.failures) then Leaves(after, w, WithId(p.vendor, p.record, task), p.attempts, p.payloads)
      else Leaves(after, w, Unsaved(p.vendor, p.record, x.last), p.attempts, if x.saved then p.payloads[job := task] else p.payloads)
  {
    ReachedExactly(p.vendor, x.failures);
    hide PersistReaches;
    hide Reached;
    EndOf(Save(p, w, x), w);
    hide End;
  }

  /** An accepted POST submits the record under its id, or keeps the id for later when the database cannot be reached. */
  lemma AcceptedJob(s: State, w: nat, job: nat, x: Script)
    requires Posts(s, w, job, x) && HearsAccepted(x)
    ensures var claimed := s.record.(state := Dispatching, attempt := Some(|s.attempts|));
      var task := x.takes.value;
      if Reached(s.vendor, x.failures) then Leaves(Job(s, w, job, x), w, WithId(s.vendor, claimed, task), s.attempts + [NewPost(x)], s.payloads)
      else Leaves(Job(s, w, job, x), w, Unsaved(s.vendor, claimed, x.last), s.attempts + [NewPost(x)], if x.saved then s.payloads[job := task] else s.payloads)
  {
    PostedTo(s, w, job, x);
    var p := Post(Begin(s, w, job, x), w, x);
    hide Begin;
    hide Post;
    hide Reached;
    hide End;
    hide Save;
    hide Submits;
    SavedOwn(p, w, |s.attempts|, job, x.takes.value, x);
  }

  /** Three tries for Suno, one for Mureka; a try beyond the listed failures works. */
  ghost predicate Reached(v: Vendor, failures: seq<bool>) {
    if v == Mureka then |failures| == 0 || !failures[0]
    else |failures| < 3 || !failures[0] || !failures[1] || !failures[2]
  }

  lemma ReachedExactly(v: Vendor, failures: seq<bool>)
    ensures PersistReaches(v, failures) <==> Reached(v, failures)
  {
    if Reached(v, failures) && v == Suno {
      var i := if |failures| < 3 then |failures| else if !failures[0] then 0 else if !failures[1] then 1 else 2;
      assert !FailsAt(failures, i);
    }
    assert FailsAt(failures, 0) == (|failures| > 0 && failures[0]);
  }

  // ----- an id saved on the job -----

  /** The record is still open for an id, and for no other attempt's. */
  ghost predicate TakesId(v: Vendor, r: Record, owner: Option<nat>) {
    if v == Mureka then r.state != SubmitFailed && (owner.Some? ==> r.attempt == owner)
    else if owner.Some? then r.state == Queued || ((r.state == Dispatching || r.state == SubmitUnknown) && r.attempt == owner)
    else r.task == Placeholder
  }

  /** A later execution writes a saved id without any POST; when it cannot, Suno closes an unsubmitted record on the last try. */
  lemma RecoveredJob(s: State, w: nat, job: nat, x: Script)
    requires At(s, w) == Idle && StillOpen(s.vendor, s.record) && SavedId(s, job).Some?
    ensures var r, task := s.record, SavedId(s, job).value;
      Leaves(Job(s, w, job, x), w,
             if Reached(s.vendor, x.failures) && TakesId(s.vendor, r, r.attempt) then WithId(s.vendor, r, task)
             else if s.vendor == Suno && x.last && !(Reached(Suno, x.failures) && r.task.Real?)
                     && (r.state == Dispatching || (r.state == SubmitUnknown && r.attempt.Some?)) then r.(state := SubmitUnknown)
             else r,
             s.attempts, s.payloads)
  {
    DecidesExactly(s.vendor, s.record, SavedId(s, job));
    Decided(s, w, job, x);
    var d := DecideStep(LoadStep(s, w, job, true), w);
    hide LoadStep;
    hide DecideStep;
    hide Decision;
    PastPost(d, w, x);
    assert Begin(s, w, job, x) == ClaimStep(PrepareStep(d, w, x.prepared, x.last), w);
    hide Begin;
    hide Post;
    ReachedExactly(s.vendor, x.failures);
    hide PersistReaches;
    hide Reached;
    EndOf(Save(d, w, x), w);
    hide End;
  }

  // ----- conditional writes, whatever other workers did meanwhile -----

  /** A claim hits exactly a queued, pending record without an id. */
  lemma ClaimHits(s: State, w: nat, job: nat)
    requires At(s, w) == Claiming(job)
    ensures var a := |s.attempts|;
      ClaimStep(s, w) == if Claimable(s.record)
        then Go(Write(s, s.record.(state := Dispatching, attempt := Some(a))).(attempts := s.attempts + [Attempt(false, None, None)]), w, Claimed(a, job))
        else Go(s, w, Idle)
  {
  }

  /** An id is written exactly to a record that takes it; Suno is content with any id already there, else the write is tried again. */
  lemma IdHits(s: State, w: nat, owner: Option<nat>, job: nat, task: nat, own: bool)
    requires At(s, w) == Persisting(owner, job, task, own)
    ensures PersistStep(s, w) == if TakesId(s.vendor, s.record, owner) then Go(Write(s, WithId(s.vendor, s.record, task)), w, Idle)
                                 else if s.vendor == Suno && s.record.task.Real? then Go(s, w, Idle)
                                 else s
  {
  }

  /** Only a claim, and no other worker's, becomes unknown. */
  lemma UnknownHits(s: State, w: nat, owner: Option<nat>)
    requires At(s, w) == Marking(owner)
    ensures MarkStep(s, w)
      == Go(Write(s, if s.record.state == Dispatching && (owner.None? || s.record.attempt == owner) then s.record.(state := SubmitUnknown) else s.record), w, Idle)
  {
  }

  /** Only the worker's own claim goes back to the queue. */
  lemma ReleaseHits(s: State, w: nat, a: nat, fail: bool)
    requires At(s, w) == Releasing(a, fail)
    ensures ReleaseStep(s, w)
      == Go(Write(s, if s.record.state == Dispatching && s.record.attempt == Some(a) then s.record.(state := Queued) else s.record), w, if fail then Failing(a) else Idle)
  {
  }

  /** Only the worker's own claim fails: for Suno while it is not submitted or unknown, for Mureka while no result is there. */
  lemma FailureHits(s: State, w: nat, a: nat)
    requires At(s, w) == Failing(a)
    ensures var r := s.record;
      FailStep(s, w) == Go(Write(s, if r.attempt == Some(a) && (if s.vendor == Suno then r.state == Dispatching || r.state == Queued else r.status != Completed && r.status != PartialSuccess)
                                    then r.(status := Status.Failed, state := SubmitFailed) else r), w, Idle)
  {
  }

  /** A worker that gives up saving keeps an id of its own on its job, if that works; Suno marks on the last try, Mureka an id of its own. */
  lemma GivesUp(s: State, w: nat, owner: Option<nat>, job: nat, task: nat, own: bool, saved: bool, last: bool)
    requires At(s, w) == Persisting(owner, job, task, own)
    ensures GiveUpStep(s, w, saved, last) == Go(s.(payloads := if own && saved then s.payloads[job := task] else s.payloads), w,
                                                if (s.vendor == Suno && last) || (s.vendor == Mureka && own) then Marking(owner) else Idle)
  {
  }

  /** A local failure on the last try fails the record; for Suno only while it is pending and not submitted. */
  lemma PreparationFails(s: State, w: nat, job: nat, last: bool)
    requires At(s, w) == Preparing(job)
    ensures var r := s.record;
      PrepareStep(s, w, false, last)
        == Go(Write(s, if last && (if s.vendor == Suno then r.status == Pending && (r.state == Queued || r.state == Dispatching) else r.status != Completed && r.status != PartialSuccess)
                       then r.(status := Status.Failed, state := SubmitFailed) else r), w, Idle)
  {
  }

  /** A callback binds an id, and only one the vendor accepted, exactly to a Suno record without an id whose POST may have been accepted. */
  lemma CallbackHits(s: State, a: nat)
    ensures var r := s.record;
      CallbackStep(s, a) == if s.vendor == Suno && a < |s.attempts| && s.attempts[a].accepted.Some? && r.task == Placeholder
                               && (r.state == Dispatching || r.state == SubmitUnknown)
                            then Write(s, r.(task := Real(s.attempts[a].accepted.value), state := Submitted)) else s
  {
  }

  /** From outside a record is failed only while it was never submitted, or for Mureka while no result is there. */
  lemma OutsideHits(s: State, status: Status)
    ensures var r := s.record;
      && (Next(s, FailQueued) == if r.status == Pending && r.task == Placeholder
                                 then Write(s, r.(status := Status.Failed, state := if s.vendor == Suno then r.state else SubmitFailed)) else s)
      && (Next(s, FailGeneration) == if s.vendor == Mureka && r.status != Completed && r.status != PartialSuccess
                                     then Write(s, r.(status := Status.Failed, state := SubmitFailed)) else s)
      && Next(s, SetStatus(status)).record == r.(status := status)
  {
  }

  /** Among closed Mureka records exactly the failed ones are refunded. */
  lemma ClosedMureka(r: Record, recovered: Option<nat>)
    requires !StillOpen(Mureka, r)
    ensures ResolveMurekaMusicGenerateAction(r, recovered) == NoopTerminal(r.status == Status.Failed)
  {
  }

  // ----- how a submission moves -----

  /** Where a submission can go; only a recorded claim becomes unknown, and unknown never returns to the queue. */
  ghost predicate MayMove(was: Submission, now: Submission) {
    || now == was || now == Submitted || now == SubmitFailed
    || (was == Queued && now == Dispatching)
    || (was == Dispatching && (now == Queued || now == SubmitUnknown))
  }

  /** Every step moves the submission along these lines; a submitted one only stays or fails. */
  lemma StepMovesSubmission(s: State, step: Step)
    ensures MayMove(s.record.state, Next(s, step).record.state)
    ensures s.record.state == Submitted ==> Next(s, step).record.state == Submitted || Next(s, step).record.state == SubmitFailed
  {
  }
}
