/** The submit job as it runs: one execution over the record row, the vendor and the job's data. */
module SubmitJob {
  import opened Wrappers
  import opened SubmitOnce

  const DB_PERSIST_ATTEMPTS: nat := 3

  /** Everything one execution meets: preflight, the vendor's verdict and reply, and database failures. */
  datatype Script = Script(last: bool, prepared: bool, takes: Option<nat>, reply: Reply, failures: seq<bool>, saved: bool)

  /** Some try of the persist loop reaches the database. */
  predicate Reaches(failures: seq<bool>) { exists i :: 0 <= i < DB_PERSIST_ATTEMPTS && !FailsAt(failures, i) }

  predicate FailsAt(failures: seq<bool>, i: nat) { i < |failures| && failures[i] }

  /** Mureka tries once, Suno up to three times. */
  predicate PersistReaches(v: Vendor, failures: seq<bool>) { if v == Suno then Reaches(failures) else !FailsAt(failures, 0) }

  function Begin(s: State, w: nat, job: nat, x: Script): State {
    ClaimStep(PrepareStep(DecideStep(LoadStep(s, w, job, true), w), w, x.prepared, x.last), w)
  }

  function VendorTakes(s: State, w: nat, x: Script): State {
    if At(s, w).Posted? && x.takes.Some? then AcceptStep(s, At(s, w).attempt, x.takes.value) else s
  }

  function Post(s: State, w: nat, x: Script): State { HandleStep(AnswerStep(VendorTakes(SendStep(s, w), w, x), w, x.reply), w, x.last) }

  function Save(s: State, w: nat, x: Script): State {
    GiveUpStep(if PersistReaches(s.vendor, x.failures) then PersistStep(s, w) else s, w, x.saved, x.last)
  }

  function End(s: State, w: nat): State { FailStep(ReleaseStep(MarkStep(s, w), w), w) }

  /** One uninterrupted execution of the job. */
  function Job(s: State, w: nat, job: nat, x: Script): State { End(Save(Post(Begin(s, w, job, x), w, x), w, x), w) }

  /** From these places nothing but the last write is left, and none of these concern the POST or the persist. */
  predicate LastWriteLeft(worker: Worker) { worker.Idle? || worker.Marking? || worker.Releasing? || worker.Failing? }

  lemma PostDone(s: State, w: nat, x: Script)
    requires LastWriteLeft(At(s, w)) || At(s, w).Persisting?
    ensures Post(s, w, x) == s
  {
  }

  lemma SaveDone(s: State, w: nat, x: Script)
    requires LastWriteLeft(At(s, w))
    ensures Save(s, w, x) == s
  {
  }

  lemma EndOf(s: State, w: nat)
    ensures At(s, w) == Idle ==> End(s, w) == s
    ensures At(s, w).Marking? ==> End(s, w).(workers := s.workers) == Write(s, MarkedUnknown(s.vendor, s.record, At(s, w).owner)) && At(End(s, w), w) == Idle
  {
  }

  lemma Then(s: State, steps: seq<Step>, step: Step) returns (more: seq<Step>)
    ensures Run(s, more) == Next(Run(s, steps), step)
  {
    hide Next;
    more := steps + [step];
    RunConcat(s, steps, [step]);
    assert [step][1..] == [];
  }

  lemma BeginIsRun(s: State, w: nat, job: nat, x: Script) returns (steps: seq<Step>)
    ensures Run(s, steps) == Begin(s, w, job, x)
  {
    hide LoadStep;
    hide DecideStep;
    hide PrepareStep;
    hide ClaimStep;
    steps := [];
    assert Run(s, steps) == s;
    hide Run;
    steps := Then(s, steps, Load(w, job, true));
    steps := Then(s, steps, Decide(w));
    steps := Then(s, steps, Prepare(w, x.prepared, x.last));
    steps := Then(s, steps, Claim(w));
  }

  lemma PostIsRun(s: State, steps: seq<Step>, w: nat, x: Script) returns (more: seq<Step>)
    ensures Run(s, more) == Post(Run(s, steps), w, x)
  {
    hide Run;
    hide SendStep;
    hide AcceptStep;
    hide AnswerStep;
    hide HandleStep;
    more := Then(s, steps, Send(w));
    var sent := Run(s, more);
    if At(sent, w).Posted? && x.takes.Some? {
      more := Then(s, more, Accept(At(sent, w).attempt, x.takes.value));
    }
    more := Then(s, more, Answer(w, x.reply));
    more := Then(s, more, Handle(w, x.last));
  }

  lemma SaveIsRun(s: State, steps: seq<Step>, w: nat, x: Script) returns (more: seq<Step>)
    ensures Run(s, more) == End(Save(Run(s, steps), w, x), w)
  {
    hide Run;
    hide PersistStep;
    hide GiveUpStep;
    hide MarkStep;
    hide ReleaseStep;
    hide FailStep;
    hide PersistReaches;
    more := steps;
    if PersistReaches(Run(s, steps).vendor, x.failures) {
      more := Then(s, more, Persist(w));
    }
    more := Then(s, more, GiveUp(w, x.saved, x.last));
    more := Then(s, more, MarkUnknown(w));
    more := Then(s, more, Release(w));
    more := Then(s, more, FailAttempt(w));
  }

  /** An execution is a run of the step machine, so everything proved of runs holds of it. */
  lemma JobIsRun(s: State, w: nat, job: nat, x: Script) returns (steps: seq<Step>)
    ensures Run(s, steps) == Job(s, w, job, x)
  {
    hide Run;
    hide Begin;
    hide Post;
    hide Save;
    hide End;
    steps := BeginIsRun(s, w, job, x);
    steps := PostIsRun(s, steps, w, x);
    steps := SaveIsRun(s, steps, w, x);
  }

  class Desk {
    const vendor: Vendor
    var record: Record
    var attempts: seq<Attempt>
    var payloads: map<nat, nat>

    function View(): State
      reads this
    {
      State(vendor, record, attempts, map[], payloads)
    }

    constructor (s: State)
      ensures View() == s.(workers := map[])
    {
      vendor, record, attempts, payloads := s.vendor, s.record, s.attempts, s.payloads;
    }

    // ----- conditional updates -----

    method ClaimDispatching() returns (claimed: Option<nat>)
      modifies this`record, this`attempts
      ensures match Dispatched(old(record), |old(attempts)|)
              case None => claimed == None && record == old(record) && attempts == old(attempts)
              case Some(r) => claimed == Some(|old(attempts)|) && record == r && attempts == old(attempts) + [Attempt(false, None, None)]
    {
      if record.state != Queued || record.status != Pending || record.task != Placeholder {
        return None;
      }
      var a := |attempts|;
      record := record.(state := Dispatching, attempt := Some(a));
      attempts := attempts + [Attempt(false, None, None)];
      return Some(a);
    }

    /** One conditional write of an accepted id. */
    method TryPersist(owner: Option<nat>, task: nat) returns (ok: bool)
      modifies this`record
      ensures record == (if PersistHits(vendor, old(record), owner) then Persisted(vendor, old(record), owner, task).value else old(record))
      ensures ok <==> PersistHits(vendor, old(record), owner) || (vendor == Suno && old(record).task.Real?)
    {
      if PersistHits(vendor, record, owner) {
        record := record.(task := Real(task), state := Submitted, status := if vendor == Suno then Pending else Processing);
        return true;
      }
      return vendor == Suno && record.task.Real?;
    }

    /** The persist loop: tries again after a failed query and after a write that matched nothing. */
    method PersistProviderTaskId(owner: Option<nat>, task: nat, failures: seq<bool>) returns (ok: bool)
      modifies this`record
      ensures ok <==> PersistReaches(vendor, failures) && (PersistHits(vendor, old(record), owner) || (vendor == Suno && old(record).task.Real?))
      ensures record == (if PersistReaches(vendor, failures) && PersistHits(vendor, old(record), owner)
                         then Persisted(vendor, old(record), owner, task).value else old(record))
    {
      var tries := if vendor == Suno then DB_PERSIST_ATTEMPTS else 1;
      var i := 0;
      while i < tries
        invariant 0 <= i <= tries && record == old(record)
        invariant forall k :: 0 <= k < i ==>
          FailsAt(failures, k) || !(PersistHits(vendor, record, owner) || (vendor == Suno && record.task.Real?))
      {
        if !FailsAt(failures, i) {
          ok := TryPersist(owner, task);
          if ok {
            return;
          }
        }
        i := i + 1;
      }
      return false;
    }

    method MarkSubmitUnknown(owner: Option<nat>)
      modifies this`record
      ensures record == MarkedUnknown(vendor, old(record), owner)
    {
      var orphan := owner.None? && vendor == Suno;
      if (record.state == Dispatching || (record.state == SubmitUnknown && !orphan)) && (owner.None? || record.attempt == owner) {
        record := record.(state := SubmitUnknown);
      }
    }

    method ReleaseToQueued(a: nat)
      modifies this`record
      ensures record == Released(old(record), a)
    {
      if record.state == Dispatching && record.attempt == Some(a) {
        record := record.(state := Queued);
      }
    }

    method TransitionFailed(a: nat)
      modifies this`record
      ensures record == AttemptFailed(vendor, old(record), a)
    {
      record := AttemptFailed(vendor, record, a);
    }

    // ----- the job -----

    method ProcessMusicGenerateJob(job: nat, x: Script)
      modifies this
      ensures View() == Job(old(View()), 0, job, x).(workers := map[])
    {
      ghost var s := View();
      var snapshot := record;
      var recovered := if job in payloads then Some(payloads[job]) else None;
      ghost var loaded := LoadStep(s, 0, job, true);
      ghost var decided := DecideStep(loaded, 0);
      ghost var prepared := PrepareStep(decided, 0, x.prepared, x.last);
      ghost var b := ClaimStep(prepared, 0);
      assert b == Begin(s, 0, job, x) && decided.(workers := map[]) == s;
      match Decision(vendor, snapshot, recovered)
      case Done =>
        assert b == decided && At(b, 0) == Idle;
        PostDone(b, 0, x);
        SaveDone(b, 0, x);
      case MarkOrphan =>
        assert b == decided && At(b, 0) == Marking(snapshot.attempt);
        PostDone(b, 0, x);
        SaveDone(b, 0, x);
        MarkSubmitUnknown(snapshot.attempt);
      case PersistRecovered(task) =>
        assert b == decided && At(b, 0) == Persisting(snapshot.attempt, job, task, false);
        PostDone(b, 0, x);
        hide Begin;
        hide Post;
        hide Save;
        hide End;
        SaveTaskId(snapshot.attempt, job, task, false, x, b);
      case Submit =>
        assert At(decided, 0) == Preparing(job);
        hide LoadStep;
        hide DecideStep;
        hide Begin;
        hide Post;
        hide Save;
        hide End;
        PrepareAndSubmit(job, x, decided);
    }

    /** Everything that can fail locally comes before the claim. */
    method PrepareAndSubmit(job: nat, x: Script, ghost decided: State)
      requires decided.(workers := map[]) == View() && At(decided, 0) == Preparing(job)
      modifies this
      ensures View() == End(Save(Post(ClaimStep(PrepareStep(decided, 0, x.prepared, x.last), 0), 0, x), 0, x), 0).(workers := map[])
    {
      hide Post;
      hide Save;
      ghost var prepared := PrepareStep(decided, 0, x.prepared, x.last);
      ghost var b := ClaimStep(prepared, 0);
      if !x.prepared {
        assert At(b, 0) == Idle;
        PostDone(b, 0, x);
        SaveDone(b, 0, x);
        if x.last {
          record := GenerationFailed(vendor, record);
        }
        return;
      }
      assert At(prepared, 0) == Claiming(job);
      var claimed := ClaimDispatching();
      assert b.(workers := map[]) == View();
      if claimed.None? {
        assert At(b, 0) == Idle;
        PostDone(b, 0, x);
        SaveDone(b, 0, x);
        return;
      }
      assert At(b, 0) == Claimed(claimed.value, job);
      hide End;
      hide ClaimStep;
      PostOnce(claimed.value, job, x, b);
    }

    /** The one vendor call of the claim, and its four outcomes. */
    method PostOnce(a: nat, job: nat, x: Script, ghost b: State)
      requires a < |attempts| && b.(workers := map[]) == View() && At(b, 0) == Claimed(a, job)
      modifies this
      ensures View() == End(Save(Post(b, 0, x), 0, x), 0).(workers := map[])
    {
      hide Save;
      hide End;
      attempts := attempts[a := attempts[a].(sent := true)];
      if x.takes.Some? && attempts[a].accepted.None? && attempts[a].rejection.None? {
        attempts := attempts[a := attempts[a].(accepted := x.takes)];
      }
      ghost var posted := VendorTakes(SendStep(b, 0), 0, x);
      assert posted.(workers := map[]) == View() && At(posted, 0) == Posted(a, job);
      assert HandleStep(AnswerStep(posted, 0, x.reply), 0, x.last) == Post(b, 0, x);
      hide SendStep;
      hide VendorTakes;
      hide Post;
      HandleAnswer(a, job, x, posted);
    }

    method HandleAnswer(a: nat, job: nat, x: Script, ghost posted: State)
      requires a < |attempts| && posted.(workers := map[]) == View() && At(posted, 0) == Posted(a, job)
      modifies this
      ensures View() == End(Save(HandleStep(AnswerStep(posted, 0, x.reply), 0, x.last), 0, x), 0).(workers := map[])
    {
      hide Save;
      hide End;
      ghost var handled := HandleStep(AnswerStep(posted, 0, x.reply), 0, x.last);
      if x.reply.Accepted? && attempts[a].accepted.Some? {
        var task := attempts[a].accepted.value;
        assert At(handled, 0) == Persisting(Some(a), job, task, true) && handled.(workers := map[]) == View();
        SaveTaskId(Some(a), job, task, true, x, handled);
        return;
      }
      var rejected := x.reply.Rejected? && attempts[a].accepted.None?;
      if rejected {
        attempts := attempts[a := attempts[a].(rejection := Some(x.reply.why))];
      }
      assert handled.(workers := map[]) == View();
      assert At(handled, 0) == HandleRejection(a, rejected, x);
      hide HandleStep;
      hide AnswerStep;
      SaveDone(handled, 0, x);
      FinishRejected(a, rejected, x, handled);
    }

    function HandleRejection(a: nat, rejected: bool, x: Script): Worker {
      if !rejected then Marking(Some(a))
      else if x.reply.Rejected? && x.reply.why == Capacity && !(x.last && vendor == Mureka) then Releasing(a, x.last)
      else Failing(a)
    }

    method FinishRejected(a: nat, rejected: bool, x: Script, ghost handled: State)
      requires handled.(workers := map[]) == View() && At(handled, 0) == HandleRejection(a, rejected, x)
      modifies this`record
      ensures View() == End(handled, 0).(workers := map[])
    {
      if !rejected {
        MarkSubmitUnknown(Some(a));
      } else if x.reply.Rejected? && x.reply.why == Capacity && !(x.last && vendor == Mureka) {
        ReleaseToQueued(a);
        if x.last {
          TransitionFailed(a);
        }
      } else {
        TransitionFailed(a);
      }
    }

    /** Write the accepted id; when that keeps failing, keep it on the job and stop automatic POSTs. */
    method SaveTaskId(owner: Option<nat>, job: nat, task: nat, own: bool, x: Script, ghost p: State)
      requires p.(workers := map[]) == View() && At(p, 0) == Persisting(owner, job, task, own)
      modifies this
      ensures View() == End(Save(p, 0, x), 0).(workers := map[])
    {
      hide PersistReaches;
      hide PersistHits;
      ghost var saved := Save(p, 0, x);
      EndOf(saved, 0);
      hide End;
      var ok := PersistProviderTaskId(owner, task, x.failures);
      if ok {
        return;
      }
      if own && x.saved {
        payloads := payloads[job := task];
      }
      if if vendor == Suno then x.last else own {
        MarkSubmitUnknown(owner);
      }
    }
  }
}
