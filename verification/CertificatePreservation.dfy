// Every event of the certificate job manager preserves the invariant.

module CertificatePreservation {
  import opened Outcomes
  import opened Text
  import opened CertificateDomains
  import opened CertificateJobs
  import opened CertificateInvariant

  // -------------------------------------------------------------------- runs

  lemma UpdateMoves(s: State, id: JobId, change: Change, now: int, saved: bool)
    requires s.up && id in s.jobs
    ensures var t := Update(s, id, change, now, saved);
            && OnlyJob(s, t, id) && t.threads == s.threads && t.revokers == s.revokers && t.work == s.work
            && t.history == s.history && t.chains == s.chains && t.keys == s.keys
            && t.jobs[id] == Apply(change, s.jobs[id]).(updatedAt := now)
  {
  }

  /** The changed job suits the program counter that the run moves to. */
  ghost predicate Suits(u: Unicode, s: State, id: JobId, change: Change, now: int, pc: RunPc) {
    id in s.jobs ==>
      var job := Apply(change, s.jobs[id]).(updatedAt := now);
      && PcOk(s, id, job, pc) && JobShape(u, id, job) && FilesMatch(s, job)
      && job.maxAttempts == s.jobs[id].maxAttempts
  }

  /** An update of the run's job followed by a move of its program counter. */
  lemma UpdateAndMove(u: Unicode, s: State, tid: nat, id: JobId, change: Change, now: int, saved: bool, pc: RunPc)
    requires Inv(u, s) && s.up && Runs(s, tid, id)
    requires !s.threads[tid].pc.AwaitSlot? && !pc.AwaitSlot?
    requires id in s.jobs ==> Unfinished(s.jobs[id].status)
    requires Suits(u, s, id, change, now, pc)
    ensures Inv(u, SetPc(Update(s, id, change, now, saved), tid, pc))
  {
    var r := Update(s, id, change, now, saved);
    var t := SetPc(r, tid, pc);
    assert ThreadOk(s, tid);
    UpdateMoves(s, id, change, now, saved);
    var job := t.jobs[id];
    assert FilesKept(s, t, id);
    PcKept(s, t, id, job, pc);
    assert ThreadOk(t, tid) && JobOk(u, t, t.jobs, id);
    ThreadMoves(u, s, t, tid, id);
  }

  lemma BeginPreserves(u: Unicode, s: State, tid: nat, now: int, saved: bool)
    requires Inv(u, s) && Running(s, tid) && s.threads[tid].pc.LoopTest?
    ensures Inv(u, BeginSection(s, tid, now, saved))
  {
    var Thread(id, LoopTest(attempt)) := s.threads[tid];
    assert Runs(s, tid, id);
    assert ThreadOk(s, tid) && JobOk(u, s, s.jobs, id);
    if attempt > s.max {
      PcMoves(u, s, SetPc(s, tid, Releasing), tid, id);
    } else {
      UpdateAndMove(u, s, tid, id, ToValidating(attempt), now, saved, ReadInputs(attempt));
    }
  }

  lemma IssuedPreserves(u: Unicode, s: State, tid: nat, now: int, saved: bool)
    requires Inv(u, s) && Running(s, tid) && s.threads[tid].pc.MarkingIssued?
    ensures Inv(u, FinishSection(s, tid, now, saved))
  {
    var Thread(id, MarkingIssued(attempt, output)) := s.threads[tid];
    IssuedSuits(u, s, tid, id, attempt, output, now);
    FinishIssued(s, tid, id, attempt, output, now, saved);
    UpdateAndMove(u, s, tid, id, ToIssued(output), now, saved, Releasing);
  }

  lemma IssuedSuits(u: Unicode, s: State, tid: nat, id: JobId, attempt: nat, output: IssueOutput, now: int)
    requires Inv(u, s) && tid in s.threads && s.threads[tid] == Thread(id, MarkingIssued(attempt, output))
    ensures id in s.jobs && Unfinished(s.jobs[id].status) && Runs(s, tid, id)
    ensures Suits(u, s, id, ToIssued(output), now, Releasing)
  {
    assert ThreadOk(s, tid) && JobOk(u, s, s.jobs, id);
    IssuedJob(u, s, id, s.jobs[id], attempt, output, now);
  }

  lemma IssuedJob(u: Unicode, s: State, id: JobId, job: Job, attempt: nat, output: IssueOutput, now: int)
    requires PcOk(s, id, job, MarkingIssued(attempt, output)) && JobShape(u, id, job)
    ensures var next := Apply(ToIssued(output), job).(updatedAt := now);
            && PcOk(s, id, next, Releasing) && JobShape(u, id, next) && FilesMatch(s, next)
            && next.maxAttempts == job.maxAttempts
  {
  }

  lemma FinishIssued(s: State, tid: nat, id: JobId, attempt: nat, output: IssueOutput, now: int, saved: bool)
    requires Running(s, tid) && s.threads[tid] == Thread(id, MarkingIssued(attempt, output))
    ensures FinishSection(s, tid, now, saved) == SetPc(Update(s, id, ToIssued(output), now, saved), tid, Releasing)
  {
  }

  lemma FinishFailed(s: State, tid: nat, id: JobId, attempt: nat, error: JobError, now: int, saved: bool)
    requires Running(s, tid) && s.threads[tid] == Thread(id, MarkingFailed(attempt, error))
    ensures FinishSection(s, tid, now, saved)
         == SetPc(Update(s, id, ToRetryOrFailed(error, attempt == s.max), now, saved), tid, AfterFailure(s, attempt))
  {
  }

  lemma FailedPreserves(u: Unicode, s: State, tid: nat, now: int, saved: bool)
    requires Inv(u, s) && Running(s, tid) && s.threads[tid].pc.MarkingFailed?
    ensures Inv(u, FinishSection(s, tid, now, saved))
  {
    var Thread(id, MarkingFailed(attempt, error)) := s.threads[tid];
    FailedSuits(u, s, tid, id, attempt, error, now);
    FinishFailed(s, tid, id, attempt, error, now, saved);
    UpdateAndMove(u, s, tid, id, ToRetryOrFailed(error, attempt == s.max), now, saved, AfterFailure(s, attempt));
  }

  lemma FailedSuits(u: Unicode, s: State, tid: nat, id: JobId, attempt: nat, error: JobError, now: int)
    requires Inv(u, s) && tid in s.threads && s.threads[tid] == Thread(id, MarkingFailed(attempt, error))
    ensures id in s.jobs && Unfinished(s.jobs[id].status) && Runs(s, tid, id)
    ensures Suits(u, s, id, ToRetryOrFailed(error, attempt == s.max), now, AfterFailure(s, attempt))
  {
    assert ThreadOk(s, tid) && JobOk(u, s, s.jobs, id);
    FailedJob(u, s, id, s.jobs[id], attempt, error, now);
  }

  function AfterFailure(s: State, attempt: nat): RunPc {
    if attempt < s.max then Sleeping(attempt) else LoopTest(attempt + 1)
  }

  lemma FailedJob(u: Unicode, s: State, id: JobId, job: Job, attempt: nat, error: JobError, now: int)
    requires InAttempt(s, job, attempt) && JobShape(u, id, job)
    ensures var next := Apply(ToRetryOrFailed(error, attempt == s.max), job).(updatedAt := now);
            && PcOk(s, id, next, AfterFailure(s, attempt)) && JobShape(u, id, next) && FilesMatch(s, next)
            && next.maxAttempts == job.maxAttempts
  {
  }

  lemma CallbackPreserves(u: Unicode, s: State, tid: nat, status: Status, now: int, saved: bool)
    requires Inv(u, s) && Running(s, tid) && s.threads[tid].pc.Issuing?
    ensures Inv(u, CallbackSection(s, tid, status, now, saved))
  {
    if status.Finalizing? {
      var Thread(id, pc) := s.threads[tid];
      CallbackSuits(u, s, tid, id, pc, now);
      UpdateAndMove(u, s, tid, id, ToFinalizing, now, saved, pc);
      var r := Update(s, id, ToFinalizing, now, saved);
      assert r.threads[tid := r.threads[tid].(pc := pc)] == r.threads;
    }
  }

  lemma CallbackSuits(u: Unicode, s: State, tid: nat, id: JobId, pc: RunPc, now: int)
    requires Inv(u, s) && tid in s.threads && s.threads[tid] == Thread(id, pc) && pc.Issuing?
    ensures id in s.jobs && Unfinished(s.jobs[id].status) && Runs(s, tid, id)
    ensures Suits(u, s, id, ToFinalizing, now, pc)
  {
    assert ThreadOk(s, tid) && JobOk(u, s, s.jobs, id);
  }

  /** A move of the program counter that leaves every job alone. */
  lemma PcMoves(u: Unicode, s: State, t: State, tid: nat, id: JobId)
    requires Inv(u, s) && s.up && Runs(s, tid, id)
    requires t == s.(threads := t.threads, chains := t.chains, keys := t.keys,
                     history := s.history.(returned := t.history.returned))
    requires Runs(t, tid, id) && t.threads == s.threads[tid := t.threads[tid]]
    requires !s.threads[tid].pc.AwaitSlot? && !t.threads[tid].pc.AwaitSlot?
    requires forall other {:trigger FilesKept(s, t, other)} | other != id :: FilesKept(s, t, other)
    requires FilesKept(s, t, id) || (id in s.jobs && Unfinished(s.jobs[id].status))
    requires id in s.jobs ==> PcOk(t, id, s.jobs[id], t.threads[tid].pc)
    ensures Inv(u, t)
  {
    assert ThreadOk(s, tid) && JobOk(u, s, s.jobs, id);
    assert t.jobs == s.jobs[id := t.jobs[id]];
    assert ThreadOk(t, tid) && JobOk(u, t, t.jobs, id);
    ThreadMoves(u, s, t, tid, id);
  }

  lemma ReadPreserves(u: Unicode, s: State, tid: nat)
    requires Inv(u, s) && Running(s, tid) && s.threads[tid].pc.ReadInputs? && s.threads[tid].id in s.jobs
    ensures Inv(u, ReadSection(s, tid))
  {
    assert ThreadOk(s, tid) && Runs(s, tid, s.threads[tid].id);
    PcMoves(u, s, ReadSection(s, tid), tid, s.threads[tid].id);
  }

  lemma WakePreserves(u: Unicode, s: State, tid: nat)
    requires Inv(u, s) && Running(s, tid) && s.threads[tid].pc.Sleeping?
    ensures Inv(u, WakeSection(s, tid))
  {
    assert ThreadOk(s, tid) && Runs(s, tid, s.threads[tid].id);
    PcMoves(u, s, WakeSection(s, tid), tid, s.threads[tid].id);
  }

  lemma IssuerPreserves(u: Unicode, s: State, tid: nat, answer: Result<IssueOutput, string>)
    requires Inv(u, s) && Running(s, tid) && s.threads[tid].pc.Issuing?
    ensures Inv(u, IssuerSection(s, tid, answer))
  {
    assert ThreadOk(s, tid) && Runs(s, tid, s.threads[tid].id);
    PcMoves(u, s, IssuerSection(s, tid, answer), tid, s.threads[tid].id);
  }

  lemma WriteChainPreserves(u: Unicode, s: State, tid: nat, ok: bool)
    requires Inv(u, s) && Running(s, tid) && s.threads[tid].pc.WritingChain?
    ensures Inv(u, WriteChainSection(s, tid, ok))
  {
    var Thread(id, pc) := s.threads[tid];
    assert ThreadOk(s, tid) && Runs(s, tid, id);
    var t := WriteChainSection(s, tid, ok);
    assert forall other | other != id :: FilesKept(s, t, other);
    assert PcOk(t, id, s.jobs[id], t.threads[tid].pc);
    PcMoves(u, s, t, tid, id);
  }

  lemma WriteKeyPreserves(u: Unicode, s: State, tid: nat, ok: bool)
    requires Inv(u, s) && Running(s, tid) && s.threads[tid].pc.WritingKey?
    ensures Inv(u, WriteKeySection(s, tid, ok))
  {
    var Thread(id, pc) := s.threads[tid];
    assert ThreadOk(s, tid) && Runs(s, tid, id);
    var t := WriteKeySection(s, tid, ok);
    assert forall other | other != id :: FilesKept(s, t, other);
    assert PcOk(t, id, s.jobs[id], t.threads[tid].pc);
    PcMoves(u, s, t, tid, id);
  }

  // ------------------------------------------------------------ the work slot

  lemma AcquirePreserves(u: Unicode, s: State, tid: nat)
    requires Inv(u, s) && Running(s, tid) && s.threads[tid].pc.AwaitSlot? && s.work < 1
    ensures Inv(u, AcquireSection(s, tid))
  {
    var t := AcquireSection(s, tid);
    var id := s.threads[tid].id;
    assert ThreadOk(s, tid) && JobOk(u, s, s.jobs, id);
    assert t.jobs == s.jobs[id := t.jobs[id]];
    JobMoves(u, s, t, id);
    DiskMoves(s, t, id);
    ThreadsMove(s, t, tid, id);
    AcquireSlot(s, t, tid);
    CoveredMoves(s, t, tid, id);
    HistoryMoves(s, t, id);
    RevokersMove(s, t, id);
  }

  lemma AcquireSlot(s: State, t: State, tid: nat)
    requires SlotOk(s) && s.work == 0 && t.work == 1 && tid in s.threads
    requires t.threads.Keys == s.threads.Keys && !t.threads[tid].pc.AwaitSlot?
    requires forall other | other in s.threads && other != tid :: t.threads[other] == s.threads[other]
    ensures SlotOk(t)
  {
    assert Critical(t, tid);
    forall other ensures Critical(t, other) ==> other == tid {
      assert !Critical(s, other);
      assert other in t.threads <==> other in s.threads;
    }
  }

  lemma ReleasePreserves(u: Unicode, s: State, tid: nat)
    requires Inv(u, s) && Running(s, tid) && s.threads[tid].pc.Releasing? && s.work > 0
    ensures Inv(u, ReleaseSection(s, tid))
  {
    var t := ReleaseSection(s, tid);
    JobsFrame(u, s, t, s.jobs);
    JobsFrame(u, s, t, DiskJobs(s));
    SameThreads(s, t);
    assert SlotOk(t) by {
      assert Critical(s, tid);
      assert forall other :: Critical(t, other) <==> Critical(s, other) && other != tid;
    }
    ReleaseCovered(s, t, tid);
    forall rid ensures RevokerOk(t, rid) { assert RevokerOk(s, rid); }
    OthersSame(s, t);
  }

  lemma ReleaseCovered(s: State, t: State, tid: nat)
    requires Covered(s) && ThreadsOk(s) && tid in s.threads && s.threads[tid].pc.Releasing?
    requires t.threads == s.threads - {tid} && t.jobs == s.jobs && t.max == s.max
    ensures Covered(t)
  {
    forall id ensures JobCovered(t, id) {
      assert JobCovered(s, id) && ThreadOk(s, tid);
      if HasRun(s, id) && id != s.threads[tid].id {
        var other :| Runs(s, other, id);
        assert Runs(t, other, id);
      }
    }
  }

  /** Goroutines may end, and the answers seen may grow, without touching the others. */
  lemma SameThreads(s: State, t: State)
    requires ThreadsOk(s) && t.jobs == s.jobs && t.max == s.max
    requires forall tid | tid in t.threads :: tid in s.threads && t.threads[tid] == s.threads[tid]
    requires forall id :: FilesKept(s, t, id)
    ensures ThreadsOk(t)
  {
    forall tid ensures ThreadOk(t, tid) {
      assert ThreadOk(s, tid);
      if tid in t.threads {
        var thread := s.threads[tid];
        PcKept(s, t, thread.id, s.jobs[thread.id], thread.pc);
      }
    }
    forall t1, t2 ensures Apart(t, t1, t2) { assert Apart(s, t1, t2); }
  }

  lemma OthersSame(s: State, t: State)
    requires HistoryOk(s) && RevokersOk(s) && DiskLink(s)
    requires t.jobs == s.jobs && t.disk == s.disk && t.history.starts == s.history.starts
    requires t.history.acknowledged <= s.history.acknowledged + s.jobs.Keys
    requires forall rid | rid in t.revokers :: RevokerOk(t, rid)
    ensures HistoryOk(t) && RevokersOk(t) && DiskLink(t)
  {
    forall id ensures RecordOk(t, id) && LinkOk(t, id) { assert RecordOk(s, id) && LinkOk(s, id); }
    forall rid ensures RevokerOk(t, rid) { }
  }

  /** Nothing but the history, the revocations in flight or the closed flag changes. */
  lemma SidePreserves(u: Unicode, s: State, t: State)
    requires Inv(u, s) && s.up
    requires t == s.(closed := t.closed, revokers := t.revokers, history := t.history)
    requires t.history == s.history.(acknowledged := t.history.acknowledged, accepted := t.history.accepted)
    requires t.history.acknowledged <= s.history.acknowledged + s.jobs.Keys
    requires forall rid | rid in t.revokers :: RevokerOk(t, rid)
    ensures Inv(u, t)
  {
    JobsFrame(u, s, t, s.jobs);
    JobsFrame(u, s, t, DiskJobs(s));
    SameThreads(s, t);
    assert SlotOk(t) by { assert forall other :: Critical(t, other) <==> Critical(s, other); }
    assert Covered(t) by {
      assert forall x, id :: Runs(s, x, id) <==> Runs(t, x, id);
      forall id ensures JobCovered(t, id) { assert JobCovered(s, id); }
    }
    OthersSame(s, t);
  }

  // -------------------------------------------------------------------- Start

  lemma StartPreserves(u: Unicode, s: State, request: IssueRequest, tid: nat, now: int, saved: bool)
    requires Conforms(u) && Inv(u, s) && s.up && tid !in s.threads
    ensures Inv(u, StartSection(u, s, request, tid, now, saved).0)
  {
    var (t, answer) := StartSection(u, s, request, tid, now, saved);
    if answer.Ok? {
      var id := JobId(TrimSpace(request.idempotencyKey));
      if answer.value.created {
        NormalizeDomainsIdempotent(u, request.domains);
        CreatePreserves(u, s, id, t.jobs[id], tid);
      } else {
        AcknowledgePreserves(u, s, t, id);
      }
    }
  }

  lemma AcknowledgePreserves(u: Unicode, s: State, t: State, id: JobId)
    requires Inv(u, s) && s.up && id in s.jobs
    requires t == s.(history := s.history.(acknowledged := s.history.acknowledged + {id}))
    ensures Inv(u, t)
  {
    forall rid ensures RevokerOk(t, rid) { assert RevokerOk(s, rid); }
    SidePreserves(u, s, t);
  }

  lemma CreatePreserves(u: Unicode, s: State, id: JobId, job: Job, tid: nat)
    requires Inv(u, s) && s.up && tid !in s.threads && id !in s.jobs
    requires JobShape(u, id, job) && job.status.Pending? && job.attempt == 0 && job.maxAttempts == s.max
    ensures Inv(u, CreateSection(s, id, job, tid))
  {
    var t := CreateSection(s, id, job, tid);
    StartJobs(u, s, t, id);
    StartThreads(s, t, tid, id);
    StartRest(s, t, id);
  }

  lemma StartJobs(u: Unicode, s: State, t: State, id: JobId)
    requires JobsOk(u, s, s.jobs) && id !in s.jobs && id in t.jobs && t.jobs == s.jobs[id := t.jobs[id]]
    requires t.disk == Some(Persisted(t.jobs)) && t.jobs[id].status.Pending? && JobShape(u, id, t.jobs[id])
    requires t.chains == s.chains && t.keys == s.keys && t.history.returned == s.history.returned
    ensures JobsOk(u, t, t.jobs) && JobsOk(u, t, DiskJobs(t)) && DiskLink(t)
  {
    forall other ensures JobOk(u, t, t.jobs, other) { assert JobOk(u, s, s.jobs, other); }
    PersistedOk(u, t, t.jobs);
    forall other ensures LinkOk(t, other) { }
  }

  lemma StartThreads(s: State, t: State, tid: nat, id: JobId)
    requires ThreadsOk(s) && SlotOk(s) && Covered(s) && tid !in s.threads && id !in s.jobs
    requires t.threads == s.threads[tid := Thread(id, AwaitSlot)]
    requires id in t.jobs && t.jobs == s.jobs[id := t.jobs[id]] && t.max == s.max && t.work == s.work
    requires t.jobs[id].maxAttempts == s.max && t.jobs[id].status.Pending? && t.jobs[id].attempt == 0
    requires t.chains == s.chains && t.keys == s.keys && t.history.returned == s.history.returned
    ensures ThreadsOk(t) && SlotOk(t) && Covered(t)
  {
    forall other ensures ThreadOk(t, other) {
      assert ThreadOk(s, other);
      if other in s.threads {
        var thread := s.threads[other];
        PcKept(s, t, thread.id, s.jobs[thread.id], thread.pc);
      }
    }
    forall t1, t2 ensures Apart(t, t1, t2) {
      assert Apart(s, t1, t2) && ThreadOk(s, t1) && ThreadOk(s, t2);
    }
    assert forall other :: Critical(t, other) <==> Critical(s, other);
    assert Runs(t, tid, id);
    forall other ensures JobCovered(t, other) {
      assert JobCovered(s, other);
      if HasRun(s, other) {
        var x :| Runs(s, x, other);
        assert Runs(t, x, other);
      }
    }
  }

  lemma StartRest(s: State, t: State, id: JobId)
    requires HistoryOk(s) && RevokersOk(s) && DiskLink(s) && id !in s.jobs
    requires id in t.jobs && t.jobs == s.jobs[id := t.jobs[id]] && t.disk == Some(Persisted(t.jobs))
    requires t.history.starts == s.history.starts + multiset{id}
    requires t.history.acknowledged == s.history.acknowledged + {id} && t.revokers == s.revokers
    ensures HistoryOk(t) && RevokersOk(t)
  {
    forall other ensures RecordOk(t, other) { assert RecordOk(s, other) && LinkOk(s, other); }
    forall rid ensures RevokerOk(t, rid) { assert RevokerOk(s, rid); }
  }

  // ------------------------------------------------------------------- Revoke

  lemma RevokeMoves(s: State, rid: nat, now: int, saved: bool)
    requires s.up && rid in s.revokers && s.revokers[rid].id in s.jobs
    ensures var t, id := RevokeCommitSection(s, rid, now, saved), s.revokers[rid].id;
            && OnlyJob(s, t, id) && t.threads == s.threads && t.work == s.work
            && t.revokers == s.revokers - {rid} && FilesKept(s, t, id)
  {
  }

  lemma RevokedJob(u: Unicode, s: State, t: State, id: JobId, now: int)
    requires JobOk(u, s, s.jobs, id) && FilesKept(s, t, id) && id in s.jobs && id in t.jobs
    requires Settled(s.jobs[id].status)
    requires t.jobs[id] == s.jobs[id].(status := Revoked, revokedAt := Some(now), updatedAt := now, error := NoError)
    ensures JobOk(u, t, t.jobs, id)
  {
  }

  lemma RevokeCommitPreserves(u: Unicode, s: State, rid: nat, now: int, saved: bool)
    requires Inv(u, s) && s.up && rid in s.revokers && s.revokers[rid].id in s.jobs
    ensures Inv(u, RevokeCommitSection(s, rid, now, saved))
  {
    var t := RevokeCommitSection(s, rid, now, saved);
    var id := s.revokers[rid].id;
    assert RevokerOk(s, rid) && JobOk(u, s, s.jobs, id);
    RevokeMoves(s, rid, now, saved);
    RevokedJob(u, s, t, id, now);
    JobMoves(u, s, t, id);
    DiskMoves(s, t, id);
    HistoryMoves(s, t, id);
    RevokersMove(s, t, id);
    RevokedThreads(s, t, id);
  }

  /** A settled job can only belong to a run that is already leaving. */
  lemma RevokedThreads(s: State, t: State, id: JobId)
    requires ThreadsOk(s) && SlotOk(s) && Covered(s) && OnlyJob(s, t, id)
    requires t.threads == s.threads && t.work == s.work && FilesKept(s, t, id)
    requires Settled(s.jobs[id].status) && Settled(t.jobs[id].status)
    requires t.jobs[id].maxAttempts == s.jobs[id].maxAttempts
    ensures ThreadsOk(t) && SlotOk(t) && Covered(t)
  {
    forall tid ensures ThreadOk(t, tid) {
      assert ThreadOk(s, tid);
      if tid in t.threads && s.threads[tid].id != id {
        var thread := s.threads[tid];
        assert FilesKept(s, t, thread.id);
        PcKept(s, t, thread.id, s.jobs[thread.id], thread.pc);
      }
    }
    forall t1, t2 ensures Apart(t, t1, t2) { assert Apart(s, t1, t2); }
    assert forall other :: Critical(t, other) <==> Critical(s, other);
    assert forall x, other :: Runs(s, x, other) <==> Runs(t, x, other);
    forall other ensures JobCovered(t, other) { assert JobCovered(s, other); }
  }

  lemma RevokersPreserve(u: Unicode, s: State, t: State)
    requires Inv(u, s) && s.up
    requires t == s.(revokers := t.revokers, history := s.history.(accepted := t.history.accepted))
    requires forall rid | rid in t.revokers ::
               var id := t.revokers[rid].id;
               (rid in s.revokers && id == s.revokers[rid].id) || (id in s.jobs && Settled(s.jobs[id].status))
    ensures Inv(u, t)
  {
    forall rid | rid in t.revokers ensures RevokerOk(t, rid) {
      assert RevokerOk(s, rid);
    }
    SidePreserves(u, s, t);
  }

  // ------------------------------------------------------------- crash, boot

  lemma CrashPreserves(u: Unicode, s: State)
    requires Inv(u, s)
    ensures Inv(u, CrashSection(s))
  {
    var t := CrashSection(s);
    JobsFrame(u, s, t, DiskJobs(s));
    forall id ensures JobOk(u, t, t.jobs, id) { }
    forall id ensures RecordOk(t, id) { assert RecordOk(s, id); }
    forall tid ensures ThreadOk(t, tid) && !Critical(t, tid) { }
    forall t1, t2 ensures Apart(t, t1, t2) { }
    forall rid ensures RevokerOk(t, rid) { }
  }

  lemma BootPreserves(u: Unicode, s: State, max: int, now: int, saved: bool)
    requires Inv(u, s) && !s.up
    ensures Inv(u, BootSection(s, max, now, saved))
  {
    var t := BootSection(s, max, now, saved);
    if t.up {
      BootJobs(u, s, t, now);
      BootRest(s, t, now);
    }
  }

  lemma LoadedOk(u: Unicode, s: State, jobs: Jobs, now: int)
    requires JobsOk(u, s, jobs)
    ensures JobsOk(u, s, Loaded(jobs, now))
  {
    forall id ensures JobOk(u, s, Loaded(jobs, now), id) {
      assert JobOk(u, s, jobs, id);
      if id in jobs {
        assert Interrupted(jobs[id], now).domains == jobs[id].domains;
      }
    }
  }

  lemma BootJobs(u: Unicode, s: State, t: State, now: int)
    requires JobsOk(u, s, DiskJobs(s)) && t.jobs == Loaded(DiskJobs(s), now)
    requires t.disk == s.disk || t.disk == Some(Persisted(t.jobs))
    requires t.chains == s.chains && t.keys == s.keys && t.history.returned == s.history.returned
    ensures JobsOk(u, t, t.jobs) && JobsOk(u, t, DiskJobs(t))
  {
    LoadedOk(u, s, DiskJobs(s), now);
    JobsFrame(u, s, t, t.jobs);
    if t.disk == s.disk {
      JobsFrame(u, s, t, DiskJobs(s));
    } else {
      PersistedOk(u, t, t.jobs);
    }
  }

  lemma BootRest(s: State, t: State, now: int)
    requires HistoryOk(s) && DownOk(s) && t.jobs == Loaded(DiskJobs(s), now)
    requires t.disk == s.disk || t.disk == Some(Persisted(t.jobs))
    requires t.history == s.history && t.threads == map[] && t.revokers == map[] && t.work == 0
    ensures HistoryOk(t) && ThreadsOk(t) && SlotOk(t) && RevokersOk(t) && DiskLink(t) && Covered(t)
  {
    forall id ensures RecordOk(t, id) { assert RecordOk(s, id); }
    forall tid ensures ThreadOk(t, tid) && !Critical(t, tid) { }
    forall t1, t2 ensures Apart(t, t1, t2) { }
    forall rid ensures RevokerOk(t, rid) { }
    forall id ensures LinkOk(t, id) && JobCovered(t, id) { }
  }

  // -------------------------------------------------------------- all events

  lemma InvInitial(u: Unicode)
    ensures Inv(u, Initial)
  {
    forall id ensures JobOk(u, Initial, map[], id) && RecordOk(Initial, id) { }
    forall tid ensures ThreadOk(Initial, tid) && !Critical(Initial, tid) { }
    forall t1, t2 ensures Apart(Initial, t1, t2) { }
    forall rid ensures RevokerOk(Initial, rid) { }
  }

  predicate OfRun(e: Event) {
    e.Acquire? || e.Begin? || e.ReadJob? || e.Callback? || e.IssuerReturns? || e.WriteChain? || e.WriteKey?
    || e.Finish? || e.Wake? || e.Release?
  }

  lemma RunStepPreserves(u: Unicode, s: State, e: Event)
    requires Inv(u, s) && Enabled(s, e) && OfRun(e)
    ensures Inv(u, Step(u, s, e))
  {
    match e
    case Acquire(tid) => AcquirePreserves(u, s, tid);
    case Begin(tid, now, saved) => BeginPreserves(u, s, tid, now, saved);
    case ReadJob(tid) => ReadPreserves(u, s, tid);
    case Callback(tid, status, now, saved) => CallbackPreserves(u, s, tid, status, now, saved);
    case IssuerReturns(tid, answer) => IssuerPreserves(u, s, tid, answer);
    case WriteChain(tid, ok) => WriteChainPreserves(u, s, tid, ok);
    case WriteKey(tid, ok) => WriteKeyPreserves(u, s, tid, ok);
    case Finish(tid, now, saved) =>
      if s.threads[tid].pc.MarkingIssued? {
        IssuedPreserves(u, s, tid, now, saved);
      } else {
        FailedPreserves(u, s, tid, now, saved);
      }
    case Wake(tid) => WakePreserves(u, s, tid);
    case Release(tid) => ReleasePreserves(u, s, tid);
  }

  /** The invariant is inductive: every event keeps it, whatever fails. */
  lemma StepPreserves(u: Unicode, s: State, e: Event)
    requires Conforms(u) && Inv(u, s) && Enabled(s, e)
    ensures Inv(u, Step(u, s, e))
  {
    if OfRun(e) {
      RunStepPreserves(u, s, e);
    } else if e.Start? {
      StartPreserves(u, s, e.request, e.tid, e.now, e.saved);
    } else {
      OtherStepPreserves(u, s, e);
    }
  }

  lemma OtherStepPreserves(u: Unicode, s: State, e: Event)
    requires Inv(u, s) && Enabled(s, e) && !OfRun(e) && !e.Start?
    ensures Inv(u, Step(u, s, e))
  {
    match e
    case RevokeCheck(rid, id) => CheckPreserves(u, s, rid, id);
    case RevokeRead(rid) => RevokeReadPreserves(u, s, rid);
    case RevokeIssuer(rid, ok) => RevokeIssuerPreserves(u, s, rid, ok);
    case RevokeCommit(rid, now, saved) => RevokeCommitPreserves(u, s, rid, now, saved);
    case Close => RevokersKeep(u, s);
    case Crash => CrashPreserves(u, s);
    case Boot(max, now, saved) => BootPreserves(u, s, max, now, saved);
  }

  lemma CheckPreserves(u: Unicode, s: State, rid: nat, id: JobId)
    requires Inv(u, s) && s.up && rid !in s.revokers
    ensures Inv(u, RevokeCheckSection(s, rid, id))
  {
    RevokersPreserve(u, s, RevokeCheckSection(s, rid, id));
  }

  lemma RevokeReadPreserves(u: Unicode, s: State, rid: nat)
    requires Inv(u, s) && s.up && rid in s.revokers
    ensures Inv(u, RevokeReadSection(s, rid))
  {
    RevokersPreserve(u, s, RevokeReadSection(s, rid));
  }

  lemma RevokeIssuerPreserves(u: Unicode, s: State, rid: nat, ok: bool)
    requires Inv(u, s) && s.up && rid in s.revokers
    ensures Inv(u, RevokeIssuerSection(s, rid, ok))
  {
    RevokersPreserve(u, s, RevokeIssuerSection(s, rid, ok));
  }

  lemma RevokersKeep(u: Unicode, s: State)
    requires Inv(u, s) && s.up
    ensures Inv(u, s.(closed := true))
  {
    var t := s.(closed := true);
    forall rid ensures RevokerOk(t, rid) { assert RevokerOk(s, rid); }
    SidePreserves(u, s, t);
  }

  lemma {:induction false} RunPreserves(u: Unicode, s: State, events: seq<Event>)
    requires Conforms(u) && Inv(u, s) && Legal(u, s, events)
    ensures Inv(u, Run(u, s, events))
    decreases events
  {
    if events != [] {
      StepPreserves(u, s, events[0]);
      RunPreserves(u, Step(u, s, events[0]), events[1..]);
    }
  }
}
