// What the certificate job manager guarantees in every reachable state, for
// every interleaving of runs, revocations, failed writes, crashes and boots.

module CertificateTheorems {
  import opened Outcomes
  import opened Text
  import opened CertificateDomains
  import opened CertificateJobs
  import opened CertificateInvariant
  import opened CertificatePreservation

  ghost predicate Reachable(u: Unicode, s: State) {
    exists events :: Legal(u, Initial, events) && s == Run(u, Initial, events)
  }

  lemma ReachableInv(u: Unicode, s: State)
    requires Conforms(u) && Reachable(u, s)
    ensures Inv(u, s)
  {
    var events :| Legal(u, Initial, events) && s == Run(u, Initial, events);
    InvInitial(u);
    RunPreserves(u, Initial, events);
  }

  lemma {:induction false} RunSnoc(u: Unicode, s: State, events: seq<Event>, e: Event)
    requires Legal(u, s, events) && Enabled(Run(u, s, events), e)
    ensures Legal(u, s, events + [e]) && Run(u, s, events + [e]) == Step(u, Run(u, s, events), e)
    decreases events
  {
    if events == [] {
      assert [e][1..] == [];
    } else {
      assert (events + [e])[1..] == events[1..] + [e];
      RunSnoc(u, Step(u, s, events[0]), events[1..], e);
    }
  }

  lemma ReachableStep(u: Unicode, s: State, e: Event)
    requires Reachable(u, s) && Enabled(s, e)
    ensures Reachable(u, Step(u, s, e))
  {
    var events :| Legal(u, Initial, events) && s == Run(u, Initial, events);
    RunSnoc(u, Initial, events, e);
  }

  // ------------------------------------------------------------ crash safety

  /** Both files of the job are on disk and stem from the answer to the attempt it records. */
  ghost predicate Backed(s: State, id: JobId, job: Job) {
    && (id, job.attempt) in s.history.returned
    && var output := s.history.returned[(id, job.attempt)];
    && id in s.chains && s.chains[id] == output.certificate
    && id in s.keys && s.keys[id] == output.privateKey
    && job.notBefore == Some(output.notBefore) && job.notAfter == Some(output.notAfter)
  }

  /** Neither the state file nor the memory runs ahead of the certificate files, and no
      acknowledged job is ever lost, whether the process is up or down. */
  lemma CrashSafety(u: Unicode, s: State, id: JobId)
    requires Conforms(u) && Reachable(u, s)
    ensures id in DiskJobs(s) && Settled(DiskJobs(s)[id].status) ==> Backed(s, id, DiskJobs(s)[id])
    ensures id in s.jobs && Settled(s.jobs[id].status) ==> Backed(s, id, s.jobs[id])
    ensures id in s.history.acknowledged ==> id in DiskJobs(s) && (s.up ==> id in s.jobs)
  {
    ReachableInv(u, s);
    assert JobOk(u, s, DiskJobs(s), id) && JobOk(u, s, s.jobs, id) && RecordOk(s, id);
    if s.up { assert LinkOk(s, id); }
  }

  // ------------------------------------------------------- mutual exclusion

  predicate InIssuance(s: State, id: JobId) {
    id in s.jobs && (s.jobs[id].status.Validating? || s.jobs[id].status.Finalizing?)
  }

  /** The one-slot channel serialises issuance: at most one job is validating or finalizing. */
  lemma OneIssuanceAtATime(u: Unicode, s: State, a: JobId, b: JobId)
    requires Conforms(u) && Reachable(u, s) && InIssuance(s, a) && InIssuance(s, b)
    ensures a == b
  {
    ReachableInv(u, s);
    var t1 := IssuanceHoldsSlot(u, s, a);
    var t2 := IssuanceHoldsSlot(u, s, b);
    assert t1 == t2;
  }

  lemma IssuanceHoldsSlot(u: Unicode, s: State, id: JobId) returns (tid: nat)
    requires Inv(u, s) && InIssuance(s, id)
    ensures Critical(s, tid) && Runs(s, tid, id)
  {
    assert JobCovered(s, id);
    tid :| Runs(s, tid, id);
    assert ThreadOk(s, tid);
  }

  /** The slot is never lost: while a run exists, some run can take a step. */
  lemma RunsNeverStuck(u: Unicode, s: State)
    requires Conforms(u) && Reachable(u, s) && s.up && s.threads != map[]
    ensures exists e :: OfRun(e) && Enabled(s, e)
  {
    ReachableInv(u, s);
    var tid :| tid in s.threads;
    if s.work == 1 {
      tid :| Critical(s, tid);
    } else {
      assert !Critical(s, tid);
    }
    assert ThreadOk(s, tid);
    var e := match s.threads[tid].pc
      case AwaitSlot => Acquire(tid)
      case LoopTest(_) => Begin(tid, 0, true)
      case ReadInputs(_) => ReadJob(tid)
      case Issuing(_, _) => IssuerReturns(tid, Err(""))
      case WritingChain(_, _) => WriteChain(tid, true)
      case WritingKey(_, _) => WriteKey(tid, true)
      case MarkingIssued(_, _) => Finish(tid, 0, true)
      case MarkingFailed(_, _) => Finish(tid, 0, true)
      case Sleeping(_) => Wake(tid)
      case Releasing => Release(tid);
    assert OfRun(e) && Enabled(s, e);
  }

  /** Three events are enabled under a condition that the code does not test: a run that
      reads its job finds it, a run that leaves holds the slot, and a revocation that
      commits finds its job.  The program counters alone imply these conditions. */
  lemma GuardsFollow(u: Unicode, s: State, tid: nat, rid: nat, now: int, saved: bool)
    requires Conforms(u) && Reachable(u, s)
    ensures Running(s, tid) && s.threads[tid].pc.ReadInputs? ==> Enabled(s, ReadJob(tid))
    ensures Running(s, tid) && s.threads[tid].pc.Releasing? ==> Enabled(s, Release(tid))
    ensures s.up && rid in s.revokers && s.revokers[rid].Committing? ==> Enabled(s, RevokeCommit(rid, now, saved))
  {
    ReachableInv(u, s);
    assert ThreadOk(s, tid) && RevokerOk(s, rid);
    if Running(s, tid) && s.threads[tid].pc.Releasing? { assert Critical(s, tid); }
  }

  // ------------------------------------------------------------------- edges

  /** The edges of the job life cycle, with all that they change in the record. */
  predicate Edge(a: Job, b: Job) {
    || b == a
    || StartsAttempt(a, b)
    || (InProgress(a) && b == a.(status := Finalizing, updatedAt := b.updatedAt))
    || (InProgress(a) && EndsAttempt(a, b))
    || (Settled(a.status) && IsRevocation(a, b))
  }

  predicate InProgress(job: Job) { job.status.Validating? || job.status.Finalizing? }

  predicate StartsAttempt(a: Job, b: Job) {
    && a.status.Pending? && b.attempt <= b.maxAttempts
    && b == a.(status := Validating, attempt := a.attempt + 1, error := NoError, updatedAt := b.updatedAt)
  }

  predicate EndsAttempt(a: Job, b: Job) {
    || (b.notBefore.Some? && b.notAfter.Some?
        && b == a.(status := Issued, notBefore := b.notBefore, notAfter := b.notAfter, error := NoError,
                   updatedAt := b.updatedAt))
    || (a.attempt < a.maxAttempts && b == a.(status := Pending, error := b.error, updatedAt := b.updatedAt))
    || (a.attempt == a.maxAttempts && b == a.(status := Failed, error := b.error, updatedAt := b.updatedAt))
  }

  predicate IsRevocation(a: Job, b: Job) {
    && b.revokedAt == Some(b.updatedAt)
    && b == a.(status := Revoked, revokedAt := b.revokedAt, updatedAt := b.updatedAt, error := NoError)
  }

  predicate JobSteps(s: State, t: State, id: JobId) {
    && (id in s.jobs ==> id in t.jobs && Edge(s.jobs[id], t.jobs[id]))
    && (id !in s.jobs && id in t.jobs ==> t.jobs[id].status.Pending? && t.jobs[id].attempt == 0)
  }

  /** The events that touch a job record. */
  predicate Touches(e: Event) { e.Start? || e.Begin? || e.Callback? || e.Finish? || e.RevokeCommit? }

  predicate SameRecords(s: State, t: State) { t.up == s.up && t.jobs == s.jobs && t.disk == s.disk }

  lemma RunTouchesNothing(u: Unicode, s: State, e: Event)
    requires Enabled(s, e) && OfRun(e) && !Touches(e)
    ensures SameRecords(s, Step(u, s, e))
  {
    match e
    case Acquire(tid) => assert SameRecords(s, AcquireSection(s, tid));
    case ReadJob(tid) => assert SameRecords(s, ReadSection(s, tid));
    case IssuerReturns(tid, answer) => assert SameRecords(s, IssuerSection(s, tid, answer));
    case WriteChain(tid, ok) => assert SameRecords(s, WriteChainSection(s, tid, ok));
    case WriteKey(tid, ok) => assert SameRecords(s, WriteKeySection(s, tid, ok));
    case Wake(tid) => assert SameRecords(s, WakeSection(s, tid));
    case Release(tid) => assert SameRecords(s, ReleaseSection(s, tid));
  }

  lemma OthersTouchNothing(u: Unicode, s: State, e: Event)
    requires Enabled(s, e) && !Touches(e) && !e.Crash? && !e.Boot?
    ensures SameRecords(s, Step(u, s, e))
  {
    if OfRun(e) {
      RunTouchesNothing(u, s, e);
    } else {
      match e
      case RevokeCheck(rid, id) => assert SameRecords(s, RevokeCheckSection(s, rid, id));
      case RevokeRead(rid) => assert SameRecords(s, RevokeReadSection(s, rid));
      case RevokeIssuer(rid, ok) => assert SameRecords(s, RevokeIssuerSection(s, rid, ok));
      case Close =>
    }
  }

  /** `t` differs from `s` by one replaced record, written out if `saved`. */
  predicate Replaces(s: State, t: State, id: JobId, saved: bool) {
    && t.up == s.up && t.disk == (if saved then Some(Persisted(t.jobs)) else s.disk)
    && id in s.jobs && id in t.jobs && t.jobs == s.jobs[id := t.jobs[id]]
  }

  /** The effect of one of the five touching events on the records. */
  predicate Touch(s: State, t: State, id: JobId, saved: bool) {
    || SameRecords(s, t)
    || (Replaces(s, t, id, saved) && Edge(s.jobs[id], t.jobs[id]))
  }

  lemma UpdateTouches(s: State, id: JobId, change: Change, now: int, saved: bool, tid: nat, pc: RunPc)
    requires Running(s, tid) && id in s.jobs
    requires Edge(s.jobs[id], Apply(change, s.jobs[id]).(updatedAt := now))
    ensures Touch(s, SetPc(Update(s, id, change, now, saved), tid, pc), id, saved)
    ensures Touch(s, Update(s, id, change, now, saved), id, saved)
  {
  }

  lemma RunTouches(u: Unicode, s: State, e: Event)
    requires Enabled(s, e) && (e.Begin? || e.Callback? || e.Finish?)
    requires ThreadOk(s, e.tid)
    ensures Touch(s, Step(u, s, e), s.threads[e.tid].id, e.saved)
  {
    match e
    case Begin(tid, now, saved) => BeginTouches(s, tid, now, saved);
    case Callback(tid, status, now, saved) => CallbackTouches(s, tid, status, now, saved);
    case Finish(tid, now, saved) => FinishTouches(s, tid, now, saved);
  }

  lemma BeginTouches(s: State, tid: nat, now: int, saved: bool)
    requires Running(s, tid) && s.threads[tid].pc.LoopTest? && ThreadOk(s, tid)
    ensures Touch(s, BeginSection(s, tid, now, saved), s.threads[tid].id, saved)
  {
    var Thread(id, LoopTest(attempt)) := s.threads[tid];
    if attempt <= s.max { UpdateTouches(s, id, ToValidating(attempt), now, saved, tid, ReadInputs(attempt)); }
  }

  lemma CallbackTouches(s: State, tid: nat, status: Status, now: int, saved: bool)
    requires Running(s, tid) && s.threads[tid].pc.Issuing? && ThreadOk(s, tid)
    ensures Touch(s, CallbackSection(s, tid, status, now, saved), s.threads[tid].id, saved)
  {
    UpdateTouches(s, s.threads[tid].id, ToFinalizing, now, saved, tid, s.threads[tid].pc);
  }

  lemma FinishTouches(s: State, tid: nat, now: int, saved: bool)
    requires Running(s, tid) && ThreadOk(s, tid)
    requires s.threads[tid].pc.MarkingIssued? || s.threads[tid].pc.MarkingFailed?
    ensures Touch(s, FinishSection(s, tid, now, saved), s.threads[tid].id, saved)
  {
    var Thread(id, pc) := s.threads[tid];
    if pc.MarkingIssued? {
      UpdateTouches(s, id, ToIssued(pc.output), now, saved, tid, Releasing);
    } else {
      var change := ToRetryOrFailed(pc.error, pc.attempt == s.max);
      UpdateTouches(s, id, change, now, saved, tid, AfterFailure(s, pc.attempt));
    }
  }

  lemma RevokeTouches(s: State, rid: nat, now: int, saved: bool)
    requires s.up && rid in s.revokers && RevokerOk(s, rid)
    ensures Touch(s, RevokeCommitSection(s, rid, now, saved), s.revokers[rid].id, saved)
  {
  }

  /** Start leaves the state alone but for what observers have seen, or creates a job. */
  lemma StartShape(u: Unicode, s: State, request: IssueRequest, tid: nat, now: int, saved: bool)
    ensures var (t, answer) := StartSection(u, s, request, tid, now, saved);
            var id := JobId(TrimSpace(request.idempotencyKey));
            if Created(answer) then
              saved && id !in s.jobs && t == CreateSection(s, id, answer.value.job.(idempotencyKey := id.key), tid)
              && answer.value.job.status.Pending? && answer.value.job.attempt == 0
            else t == s.(history := t.history)
  {
  }

  lemma StartTouches(u: Unicode, s: State, request: IssueRequest, tid: nat, now: int, saved: bool)
    requires s.up
    ensures var (t, answer) := StartSection(u, s, request, tid, now, saved);
            if Created(answer) then saved && Creates(s, t, JobId(TrimSpace(request.idempotencyKey)))
            else SameRecords(s, t)
  {
    StartShape(u, s, request, tid, now, saved);
    var answer := StartSection(u, s, request, tid, now, saved).1;
    if Created(answer) {
      var id := JobId(TrimSpace(request.idempotencyKey));
      CreateTouches(s, id, answer.value.job.(idempotencyKey := id.key), tid);
    }
  }

  predicate Created(answer: Result<StartAnswer, StartError>) { answer.Ok? && answer.value.created }

  predicate Creates(s: State, t: State, id: JobId) {
    && t.up && t.disk == Some(Persisted(t.jobs)) && id !in s.jobs && id in t.jobs
    && t.jobs == s.jobs[id := t.jobs[id]] && t.jobs[id].status.Pending? && t.jobs[id].attempt == 0
  }

  lemma CreateTouches(s: State, id: JobId, job: Job, tid: nat)
    requires s.up && id !in s.jobs && job.status.Pending? && job.attempt == 0
    ensures Creates(s, CreateSection(s, id, job, tid), id)
  {
  }

  /** `update` checks no status, yet within one process every job only ever
      follows the edges of its life cycle. */
  lemma OnlyLegalEdges(u: Unicode, s: State, e: Event, id: JobId)
    requires Conforms(u) && Reachable(u, s) && Enabled(s, e) && !e.Crash? && !e.Boot?
    ensures JobSteps(s, Step(u, s, e), id)
  {
    ReachableInv(u, s);
    EdgesFollow(u, s, e, id);
  }

  /** Any event inside one process leaves the records alone, changes one or creates one. */
  lemma StepTouches(u: Unicode, s: State, e: Event) returns (id: JobId, saved: bool)
    requires Inv(u, s) && Enabled(s, e) && !e.Crash? && !e.Boot?
    ensures Moved(s, Step(u, s, e), id, saved)
    ensures Touches(e) ==> saved == e.saved
  {
    id, saved := JobId(""), false;
    if !Touches(e) {
      OthersTouchNothing(u, s, e);
    } else if e.RevokeCommit? {
      assert RevokerOk(s, e.rid);
      id, saved := s.revokers[e.rid].id, e.saved;
      RevokeTouches(s, e.rid, e.now, e.saved);
    } else if e.Start? {
      id, saved := JobId(TrimSpace(e.request.idempotencyKey)), e.saved;
      StartTouches(u, s, e.request, e.tid, e.now, e.saved);
    } else {
      assert ThreadOk(s, e.tid);
      id, saved := s.threads[e.tid].id, e.saved;
      RunTouches(u, s, e);
    }
  }

  predicate Moved(s: State, t: State, id: JobId, saved: bool) {
    s.up && (Touch(s, t, id, saved) || Creates(s, t, id))
  }

  lemma EdgesFollow(u: Unicode, s: State, e: Event, id: JobId)
    requires Inv(u, s) && Enabled(s, e) && !e.Crash? && !e.Boot?
    ensures JobSteps(s, Step(u, s, e), id) && Step(u, s, e).up
  {
    var touched, saved := StepTouches(u, s, e);
    MovedSteps(s, Step(u, s, e), touched, saved, id);
  }

  lemma MovedSteps(s: State, t: State, touched: JobId, saved: bool, id: JobId)
    requires Moved(s, t, touched, saved)
    ensures JobSteps(s, t, id) && t.up
  {
  }

  // ---------------------------------------------------------------- restarts

  /** What becomes of a job `a` in memory with image `d` on disk: what is settled on disk
      is settled in memory and comes back as it stands there; all else comes back failed. */
  predicate Restarted(a: Job, d: Job, b: Job) {
    && b.domains == a.domains
    && b.status == (if Settled(d.status) then d.status else Failed)
    && (Settled(d.status) ==> b == d && Settled(a.status) && b.attempt == a.attempt)
    && (d.status.Revoked? ==> a.status.Revoked?)
  }

  /** Whatever writes have failed, a crash and a boot keep every job.  An unfinished or
      failed job comes back failed, and an issued one never comes back revoked. */
  lemma RestartEdges(u: Unicode, s: State, max: int, now: int, saved: bool)
    requires Conforms(u) && Reachable(u, s) && s.up && (saved || !NeedsRewrite(DiskJobs(s)))
    ensures var t := BootSection(CrashSection(s), max, now, saved);
            && t.up && t.jobs.Keys == s.jobs.Keys == DiskJobs(s).Keys
            && forall id | id in s.jobs :: Restarted(s.jobs[id], DiskJobs(s)[id], t.jobs[id])
  {
    ReachableInv(u, s);
    var t := BootSection(CrashSection(s), max, now, saved);
    assert t.jobs == Loaded(DiskJobs(s), now);
    forall id ensures id in s.jobs <==> id in DiskJobs(s) { assert LinkOk(s, id); }
    forall id | id in s.jobs ensures Restarted(s.jobs[id], DiskJobs(s)[id], t.jobs[id]) {
      assert LinkOk(s, id);
      RestartedJob(s.jobs[id], DiskJobs(s)[id], now);
    }
  }

  lemma RestartedJob(a: Job, d: Job, now: int)
    requires Lags(d, a)
    ensures Restarted(a, d, Interrupted(d, now))
  {
  }

  /** Every write of the event succeeds. */
  predicate Saved(e: Event) { Touches(e) || e.Boot? ==> e.saved }

  /** With working writes the disk is the image of the memory. */
  ghost predicate InSync(s: State) {
    Persisted(DiskJobs(s)) == DiskJobs(s) && (s.up ==> DiskJobs(s) == Persisted(s.jobs))
  }

  lemma PersistedTwice(jobs: Jobs)
    ensures Persisted(Persisted(jobs)) == Persisted(jobs)
  {
  }

  lemma SavedInSync(s: State, jobs: Jobs)
    requires s.disk == Some(Persisted(jobs)) && s.jobs == jobs
    ensures InSync(s)
  {
    PersistedTwice(jobs);
  }

  lemma LoadedUnchanged(jobs: Jobs, now: int)
    requires !NeedsRewrite(jobs)
    ensures Loaded(jobs, now) == jobs
  {
  }

  lemma SyncKept(u: Unicode, s: State, e: Event)
    requires Inv(u, s) && InSync(s) && Enabled(s, e) && Saved(e)
    ensures InSync(Step(u, s, e))
  {
    if e.Boot? {
      BootInSync(s, e.max, e.now);
    } else if !Touches(e) {
      if !e.Crash? { OthersTouchNothing(u, s, e); }
    } else {
      var id, saved := StepTouches(u, s, e);
      MovedInSync(s, Step(u, s, e), id);
    }
  }

  lemma BootInSync(s: State, max: int, now: int)
    requires InSync(s) && !s.up
    ensures InSync(BootSection(s, max, now, true))
  {
    var t := BootSection(s, max, now, true);
    if NeedsRewrite(DiskJobs(s)) {
      SavedInSync(t, t.jobs);
    } else {
      LoadedUnchanged(DiskJobs(s), now);
    }
  }

  lemma MovedInSync(s: State, t: State, id: JobId)
    requires InSync(s) && Moved(s, t, id, true)
    ensures InSync(t)
  {
    if !SameRecords(s, t) {
      SavedInSync(t, t.jobs);
    }
  }

  predicate AllSaved(events: seq<Event>) { forall e | e in events :: Saved(e) }

  lemma {:induction false} RunInSync(u: Unicode, s: State, events: seq<Event>)
    requires Conforms(u) && Inv(u, s) && InSync(s) && Legal(u, s, events) && AllSaved(events)
    ensures InSync(Run(u, s, events))
    decreases events
  {
    if events != [] {
      assert events[0] in events && forall e | e in events[1..] :: e in events;
      SyncKept(u, s, events[0]);
      StepPreserves(u, s, events[0]);
      RunInSync(u, Step(u, s, events[0]), events[1..]);
    }
  }

  predicate RestartEdge(a: Job, b: Job) {
    b.attempt == a.attempt && b.domains == a.domains && b.revokedAt == a.revokedAt
    && b.status == (if Unfinished(a.status) then Failed else a.status)
  }

  /** With working writes they only turn the unfinished jobs into failed ones. */
  lemma SavedRestart(u: Unicode, events: seq<Event>, max: int, now: int)
    requires Conforms(u) && Legal(u, Initial, events) && AllSaved(events) && Run(u, Initial, events).up
    ensures var s := Run(u, Initial, events);
            var t := BootSection(CrashSection(s), max, now, true);
            && t.jobs.Keys == s.jobs.Keys
            && forall id | id in s.jobs :: RestartEdge(s.jobs[id], t.jobs[id])
  {
    InvInitial(u);
    assert InSync(Initial);
    RunInSync(u, Initial, events);
    var s := Run(u, Initial, events);
    var t := BootSection(CrashSection(s), max, now, true);
    assert t.jobs == Loaded(Persisted(s.jobs), now);
  }

  // ------------------------------------------------------------ final states

  /** A job that has failed in memory stays failed for ever, even when no later
      write succeeds: the disk can only hold it as failed or as unfinished. */
  ghost predicate FailedForGood(s: State, id: JobId) {
    && id in DiskJobs(s) && !Settled(DiskJobs(s)[id].status)
    && (s.up ==> id in s.jobs && s.jobs[id].status.Failed?)
  }

  lemma MovedKeepsFailed(s: State, t: State, touched: JobId, saved: bool, id: JobId)
    requires FailedForGood(s, id) && Moved(s, t, touched, saved)
    ensures FailedForGood(t, id)
  {
  }

  lemma FailedKept(u: Unicode, s: State, e: Event, id: JobId)
    requires Inv(u, s) && FailedForGood(s, id) && Enabled(s, e)
    ensures FailedForGood(Step(u, s, e), id)
  {
    if !e.Crash? && !e.Boot? {
      var touched, saved := StepTouches(u, s, e);
      MovedKeepsFailed(s, Step(u, s, e), touched, saved, id);
    }
  }

  lemma {:induction false} FailedIsFinal(u: Unicode, s: State, events: seq<Event>, id: JobId)
    requires Conforms(u) && Inv(u, s) && FailedForGood(s, id) && Legal(u, s, events)
    ensures FailedForGood(Run(u, s, events), id)
    decreases events
  {
    if events != [] {
      FailedKept(u, s, events[0], id);
      StepPreserves(u, s, events[0]);
      FailedIsFinal(u, Step(u, s, events[0]), events[1..], id);
    }
  }

  lemma FailedFromMemory(u: Unicode, s: State, id: JobId)
    requires Conforms(u) && Reachable(u, s) && s.up && id in s.jobs && s.jobs[id].status.Failed?
    ensures Inv(u, s) && FailedForGood(s, id)
  {
    ReachableInv(u, s);
    assert LinkOk(s, id);
  }

  /** A revocation that reached the disk stays, whatever fails afterwards. */
  ghost predicate RevokedForGood(s: State, id: JobId) {
    && id in DiskJobs(s) && DiskJobs(s)[id].status.Revoked?
    && (s.up ==> id in s.jobs && s.jobs[id].status.Revoked?)
  }

  lemma MovedKeepsRevoked(s: State, t: State, touched: JobId, saved: bool, id: JobId)
    requires RevokedForGood(s, id) && Moved(s, t, touched, saved)
    ensures RevokedForGood(t, id)
  {
  }

  lemma RevokedKept(u: Unicode, s: State, e: Event, id: JobId)
    requires Inv(u, s) && RevokedForGood(s, id) && Enabled(s, e)
    ensures RevokedForGood(Step(u, s, e), id)
  {
    if !e.Crash? && !e.Boot? {
      var touched, saved := StepTouches(u, s, e);
      MovedKeepsRevoked(s, Step(u, s, e), touched, saved, id);
    }
  }

  lemma {:induction false} RevokedIsFinal(u: Unicode, s: State, events: seq<Event>, id: JobId)
    requires Conforms(u) && Inv(u, s) && RevokedForGood(s, id) && Legal(u, s, events)
    ensures RevokedForGood(Run(u, s, events), id)
    decreases events
  {
    if events != [] {
      RevokedKept(u, s, events[0], id);
      StepPreserves(u, s, events[0]);
      RevokedIsFinal(u, Step(u, s, events[0]), events[1..], id);
    }
  }

  // ------------------------------------------ revocations that are not saved

  /** Whether the event writes the state file. */
  predicate Writes(u: Unicode, s: State, e: Event)
    requires Enabled(s, e)
  {
    match e
    case Start(request, tid, now, saved) => Created(StartSection(u, s, request, tid, now, saved).1)
    case Begin(tid, _, saved) => saved && s.threads[tid].pc.attempt <= s.max
    case Callback(_, status, _, saved) => saved && status.Finalizing?
    case Finish(_, _, saved) => saved
    case RevokeCommit(_, _, saved) => saved
    case Boot(_, _, saved) => saved && NeedsRewrite(DiskJobs(s))
    case _ => false
  }

  /** Some event of the run writes the state file. */
  predicate WritesAlong(u: Unicode, s: State, events: seq<Event>)
    requires Legal(u, s, events)
    decreases events
  {
    events != [] && (Writes(u, s, events[0]) || WritesAlong(u, Step(u, s, events[0]), events[1..]))
  }

  predicate NoCrash(events: seq<Event>) { forall e | e in events :: !e.Crash? }

  /** The state file holds what it held, or else the image of the memory. */
  predicate Wrote(s: State, t: State, wrote: bool) { t.disk == if wrote then Some(Persisted(t.jobs)) else s.disk }

  lemma UpdateWrites(s: State, id: JobId, change: Change, now: int, saved: bool, tid: nat, pc: RunPc)
    requires Running(s, tid) && id in s.jobs
    ensures Wrote(s, Update(s, id, change, now, saved), saved)
    ensures Wrote(s, SetPc(Update(s, id, change, now, saved), tid, pc), saved)
  {
  }

  lemma RunWrites(u: Unicode, s: State, e: Event)
    requires Enabled(s, e) && (e.Begin? || e.Callback? || e.Finish?) && ThreadOk(s, e.tid)
    ensures Wrote(s, Step(u, s, e), Writes(u, s, e))
  {
    match e
    case Begin(tid, now, saved) =>
      var Thread(id, LoopTest(attempt)) := s.threads[tid];
      UpdateWrites(s, id, ToValidating(attempt), now, saved, tid, ReadInputs(attempt));
    case Callback(tid, status, now, saved) =>
      UpdateWrites(s, s.threads[tid].id, ToFinalizing, now, saved, tid, s.threads[tid].pc);
    case Finish(tid, now, saved) => FinishWrites(s, tid, now, saved);
  }

  lemma FinishWrites(s: State, tid: nat, now: int, saved: bool)
    requires Running(s, tid) && ThreadOk(s, tid)
    requires s.threads[tid].pc.MarkingIssued? || s.threads[tid].pc.MarkingFailed?
    ensures Wrote(s, FinishSection(s, tid, now, saved), saved)
  {
    var Thread(id, pc) := s.threads[tid];
    if pc.MarkingIssued? {
      UpdateWrites(s, id, ToIssued(pc.output), now, saved, tid, Releasing);
    } else {
      var change := ToRetryOrFailed(pc.error, pc.attempt == s.max);
      UpdateWrites(s, id, change, now, saved, tid, AfterFailure(s, pc.attempt));
    }
  }

  lemma StartWrites(u: Unicode, s: State, request: IssueRequest, tid: nat, now: int, saved: bool)
    ensures var (t, answer) := StartSection(u, s, request, tid, now, saved); Wrote(s, t, Created(answer))
  {
    StartShape(u, s, request, tid, now, saved);
  }

  lemma EventWrites(u: Unicode, s: State, e: Event)
    requires Inv(u, s) && Enabled(s, e) && !e.Crash? && !e.Boot?
    ensures Wrote(s, Step(u, s, e), Writes(u, s, e))
  {
    if !Touches(e) {
      OthersTouchNothing(u, s, e);
    } else if e.Start? {
      StartWrites(u, s, e.request, e.tid, e.now, e.saved);
    } else if !e.RevokeCommit? {
      assert ThreadOk(s, e.tid);
      RunWrites(u, s, e);
    }
  }

  ghost predicate RevokedOnDisk(s: State, id: JobId) { id in DiskJobs(s) && DiskJobs(s)[id].status.Revoked? }

  ghost predicate RevokedInMemory(s: State, id: JobId) { s.up && id in s.jobs && s.jobs[id].status.Revoked? }

  lemma RevokedMoves(s: State, t: State, id: JobId, wrote: bool)
    requires RevokedInMemory(s, id) && JobSteps(s, t, id) && t.up && Wrote(s, t, wrote)
    ensures RevokedInMemory(t, id) && (RevokedOnDisk(t, id) <==> RevokedOnDisk(s, id) || wrote)
  {
  }

  lemma RevokedStep(u: Unicode, s: State, e: Event, id: JobId)
    requires Inv(u, s) && RevokedInMemory(s, id) && Enabled(s, e) && !e.Crash?
    ensures RevokedInMemory(Step(u, s, e), id)
    ensures RevokedOnDisk(Step(u, s, e), id) <==> RevokedOnDisk(s, id) || Writes(u, s, e)
  {
    EdgesFollow(u, s, e, id);
    EventWrites(u, s, e);
    RevokedMoves(s, Step(u, s, e), id, Writes(u, s, e));
  }

  /** Within one process a revoked job stays revoked, and it is revoked on disk as soon as
      any event, of whatever job, writes the state file. */
  lemma {:induction false} RevokedAlong(u: Unicode, s: State, events: seq<Event>, id: JobId)
    requires Conforms(u) && Inv(u, s) && RevokedInMemory(s, id) && Legal(u, s, events) && NoCrash(events)
    ensures RevokedInMemory(Run(u, s, events), id)
    ensures RevokedOnDisk(Run(u, s, events), id) <==> RevokedOnDisk(s, id) || WritesAlong(u, s, events)
    decreases events
  {
    if events != [] {
      assert events[0] in events && forall e | e in events[1..] :: e in events;
      RevokedStep(u, s, events[0], id);
      StepPreserves(u, s, events[0]);
      RevokedAlong(u, Step(u, s, events[0]), events[1..], id);
    }
  }

  /** A revocation outlives a crash exactly when the state file held it before, or was
      written by the commit or by any later event before the crash. */
  lemma RevocationSurvivesIffWritten(u: Unicode, s: State, rid: nat, when: int, saved: bool,
                                     events: seq<Event>, max: int, now: int)
    requires Conforms(u) && Reachable(u, s) && Enabled(s, RevokeCommit(rid, when, saved))
    requires Legal(u, RevokeCommitSection(s, rid, when, saved), events) && NoCrash(events)
    ensures var r, id := RevokeCommitSection(s, rid, when, saved), s.revokers[rid].id;
            var t := BootSection(CrashSection(Run(u, r, events)), max, now, true);
            && RevokedInMemory(Run(u, r, events), id)
            && id in t.jobs && (t.jobs[id].status.Revoked? <==>
                 RevokedOnDisk(s, id) || saved || WritesAlong(u, r, events))
  {
    ReachableInv(u, s);
    var r, id := RevokeCommitSection(s, rid, when, saved), s.revokers[rid].id;
    RevokeCommitPreserves(u, s, rid, when, saved);
    RevokedAlong(u, r, events, id);
    var t := Run(u, r, events);
    RunPreserves(u, r, events);
    assert LinkOk(t, id);
    BootedRevoked(t, id, max, now);
  }

  lemma BootedRevoked(t: State, id: JobId, max: int, now: int)
    requires id in DiskJobs(t)
    ensures var b := BootSection(CrashSection(t), max, now, true);
            id in b.jobs && (b.jobs[id].status.Revoked? <==> RevokedOnDisk(t, id))
  {
    assert BootSection(CrashSection(t), max, now, true).jobs == Loaded(DiskJobs(t), now);
  }

  // ------------------------------------------------------------- idempotency

  /** Over whole runs, restarts included, an idempotency key starts one run at most,
      and no attempt counter passes its limit. */
  lemma OneRunPerKey(u: Unicode, s: State, id: JobId)
    requires Conforms(u) && Reachable(u, s)
    ensures s.history.starts[id] <= 1
    ensures id in s.jobs ==> s.jobs[id].attempt == 0 || s.jobs[id].attempt <= s.jobs[id].maxAttempts
    ensures id in s.jobs ==> (s.jobs[id].revokedAt.Some? <==> s.jobs[id].status.Revoked?)
  {
    ReachableInv(u, s);
    assert RecordOk(s, id) && JobOk(u, s, s.jobs, id);
  }

  predicate UsableKey(request: IssueRequest) {
    var key := TrimSpace(request.idempotencyKey);
    key != "" && ByteLength(key) <= 128
  }

  /** A replayed key returns the stored job iff the domains normalise to its list,
      and never starts anything. */
  lemma Replay(u: Unicode, s: State, request: IssueRequest, tid: nat, now: int, saved: bool)
    requires Conforms(u) && Reachable(u, s) && s.up && !s.closed && UsableKey(request)
    requires JobId(TrimSpace(request.idempotencyKey)) in s.jobs
    ensures var job := s.jobs[JobId(TrimSpace(request.idempotencyKey))];
            var (t, answer) := StartSection(u, s, request, tid, now, saved);
            && t.jobs == s.jobs && t.threads == s.threads && t.disk == s.disk
            && (answer.Ok? <==> NormalizeDomains(u, request.domains) == Ok(job.domains))
            && (answer.Ok? ==> answer.value == StartAnswer(PublicJob(job), false))
  {
    ReachableInv(u, s);
    var id := JobId(TrimSpace(request.idempotencyKey));
    assert JobOk(u, s, s.jobs, id);
    if NormalizeDomains(u, request.domains).Ok? {
      NormalizeDomainsIdempotent(u, request.domains);
      SameJoinedIsEquality(u, s.jobs[id].domains, NormalizeDomains(u, request.domains).value);
    }
  }

  /** In particular the order and the multiplicity of the domains do not matter. */
  lemma ReplayReordered(u: Unicode, s: State, first: IssueRequest, again: IssueRequest, tid: nat, now: int, saved: bool)
    requires Conforms(u) && Reachable(u, s) && s.up && !s.closed && UsableKey(again)
    requires TrimSpace(first.idempotencyKey) == TrimSpace(again.idempotencyKey)
    requires JobId(TrimSpace(again.idempotencyKey)) in s.jobs
    requires NormalizeDomains(u, first.domains) == Ok(s.jobs[JobId(TrimSpace(again.idempotencyKey))].domains)
    requires 0 < |again.domains| <= MAX_DOMAINS && forall d :: d in first.domains <==> d in again.domains
    ensures StartSection(u, s, again, tid, now, saved).1 ==
            Ok(StartAnswer(PublicJob(s.jobs[JobId(TrimSpace(again.idempotencyKey))]), false))
  {
    OrderInsensitive(u, first.domains, again.domains);
    Replay(u, s, again, tid, now, saved);
  }

  /** Renew reads the parent in one section and starts in another; in between
      anything may happen.  The job it returns has the parent's exact domains. */
  lemma RenewKeepsDomains(u: Unicode, before: State, parent: JobId, key: string,
                          s: State, tid: nat, now: int, saved: bool)
    requires Conforms(u) && Reachable(u, before) && parent in before.jobs && Reachable(u, s) && s.up
    ensures var request := RenewRequest(before.jobs[parent], key);
            var answer := StartSection(u, s, request, tid, now, saved).1;
            && (answer.Ok? ==> answer.value.job.domains == before.jobs[parent].domains)
            && (answer.Ok? && answer.value.created ==> answer.value.job.renewalOf == Some(parent))
            && (answer.Err? ==> !answer.error.BadDomains?)
  {
    ReachableInv(u, before);
    assert JobOk(u, before, before.jobs, parent);
    var request := RenewRequest(before.jobs[parent], key);
    assert request.domains == before.jobs[parent].domains;
    if UsableKey(request) && !s.closed && JobId(TrimSpace(key)) in s.jobs {
      Replay(u, s, request, tid, now, saved);
    }
  }

  // ------------------------------------------------------------------- Close

  /** Close marks the manager and then waits for the wait group: no run is left. */
  predicate CloseReturned(s: State) { s.up && s.closed && s.threads == map[] }

  /** When Close returns, every job is issued, failed or revoked, except exactly
      those whose attempt limit below one kept them from ever being tried. */
  lemma CloseLeavesNothingUnfinished(u: Unicode, s: State, id: JobId)
    requires Conforms(u) && Reachable(u, s) && CloseReturned(s) && id in s.jobs
    ensures Unfinished(s.jobs[id].status) <==> NeverTried(s, s.jobs[id])
    ensures s.max >= 1 ==> s.jobs[id].status.Issued? || s.jobs[id].status.Failed? || s.jobs[id].status.Revoked?
  {
    ReachableInv(u, s);
    assert JobCovered(s, id);
    assert !HasRun(s, id);
  }

  /** With any limit below one the exception does occur.  Configuration loading rejects such
      limits, so it takes a caller who builds the manager directly. */
  lemma CloseCanLeavePending(u: Unicode, domains: seq<string>, max: int) returns (s: State, id: JobId)
    requires Conforms(u) && NormalizeDomains(u, domains).Ok? && max < 1
    ensures Reachable(u, s) && CloseReturned(s) && s.max == max && id in s.jobs && s.jobs[id].status.Pending?
  {
    var started;
    started, id := StartWithoutAttempts(u, domains, max);
    s := RunWithoutAttempts(u, started, 0, id);
  }

  /** Close can return with an unfinished job under the limit. */
  ghost predicate CanLeaveUnfinished(u: Unicode, max: int) {
    exists s, id {:trigger Reachable(u, s), s.jobs[id]} ::
      Reachable(u, s) && CloseReturned(s) && s.max == max && id in s.jobs && Unfinished(s.jobs[id].status)
  }

  /** As soon as any list of domains is accepted, this is so exactly for the limits below one. */
  lemma CloseFinishesIffLimit(u: Unicode, domains: seq<string>, max: int)
    requires Conforms(u) && NormalizeDomains(u, domains).Ok?
    ensures CanLeaveUnfinished(u, max) <==> max < 1
  {
    if max < 1 {
      var s, id := CloseCanLeavePending(u, domains, max);
      assert Unfinished(s.jobs[id].status);
    }
    if CanLeaveUnfinished(u, max) {
      var s, id :| Reachable(u, s) && CloseReturned(s) && s.max == max && id in s.jobs && Unfinished(s.jobs[id].status);
      CloseLeavesNothingUnfinished(u, s, id);
    }
  }

  lemma StartWithoutAttempts(u: Unicode, domains: seq<string>, max: int) returns (s: State, id: JobId)
    requires Conforms(u) && NormalizeDomains(u, domains).Ok?
    ensures Reachable(u, s) && s.up && s.max == max && s.work == 0 && s.threads == map[0 := Thread(id, AwaitSlot)]
    ensures id in s.jobs && s.jobs[id].status.Pending?
  {
    assert Run(u, Initial, []) == Initial;
    var booted := BootSection(Initial, max, 0, true);
    ReachableStep(u, Initial, Boot(max, 0, true));
    var request := IssueRequest(domains, "k", None);
    TrimSpaceFixed("k");
    id := JobId("k");
    s := StartSection(u, booted, request, 0, 0, true).0;
    ReachableStep(u, booted, Start(request, 0, 0, true));
  }

  lemma RunWithoutAttempts(u: Unicode, s: State, tid: nat, id: JobId) returns (t: State)
    requires Reachable(u, s) && s.up && s.max < 1 && s.work == 0 && s.threads == map[tid := Thread(id, AwaitSlot)]
    requires id in s.jobs && s.jobs[id].status.Pending?
    ensures Reachable(u, t) && CloseReturned(t) && t.max == s.max && id in t.jobs && t.jobs[id].status.Pending?
  {
    ReachableStep(u, s, Acquire(tid));
    t := AcquireSection(s, tid);
    ReachableStep(u, t, Begin(tid, 0, true));
    t := BeginSection(t, tid, 0, true);
    ReachableStep(u, t, Release(tid));
    t := ReleaseSection(t, tid);
    ReachableStep(u, t, Close);
    t := t.(closed := true);
    assert t.threads == map[];
  }
}
