// The inductive invariant of the certificate job manager and its preservation
// by every event, in any interleaving and with any pattern of failed writes.

module CertificateInvariant {
  import opened Outcomes
  import opened Text
  import opened CertificateDomains
  import opened CertificateJobs

  ghost predicate JobShape(u: Unicode, id: JobId, job: Job) {
    && job.id == id
    && (job.attempt == 0 || job.attempt <= job.maxAttempts)
    && (job.revokedAt.Some? <==> job.status.Revoked?)
    && NormalList(u, job.domains)
  }

  /** Both files of a settled job stem from the answer to the attempt it records. */
  ghost predicate FilesMatch(s: State, job: Job) {
    Settled(job.status) ==>
      && (job.id, job.attempt) in s.history.returned
      && var output := s.history.returned[(job.id, job.attempt)];
      && job.id in s.chains && s.chains[job.id] == output.certificate
      && job.id in s.keys && s.keys[job.id] == output.privateKey
      && job.notBefore == Some(output.notBefore) && job.notAfter == Some(output.notAfter)
  }

  ghost predicate JobOk(u: Unicode, s: State, jobs: Jobs, id: JobId) {
    id in jobs ==> JobShape(u, id, jobs[id]) && FilesMatch(s, jobs[id])
  }

  ghost predicate JobsOk(u: Unicode, s: State, jobs: Jobs) {
    forall id {:trigger JobOk(u, s, jobs, id)} :: JobOk(u, s, jobs, id)
  }

  /** What the program counter of a run says about its job. */
  ghost predicate PcOk(s: State, id: JobId, job: Job, pc: RunPc) {
    match pc
    case AwaitSlot => job.status.Pending? && job.attempt == 0
    case LoopTest(a) =>
      && a >= 1 && job.attempt == a - 1
      && (if a > 1 && a > s.max then job.status.Failed? else job.status.Pending?)
    case ReadInputs(a) => job.status.Validating? && job.attempt == a && 1 <= a <= s.max
    case Issuing(a, domains) => InAttempt(s, job, a) && domains == job.domains
    case WritingChain(a, output) => InAttempt(s, job, a) && Answered(s, id, a, output)
    case WritingKey(a, output) =>
      InAttempt(s, job, a) && Answered(s, id, a, output) && id in s.chains && s.chains[id] == output.certificate
    case MarkingIssued(a, output) =>
      && InAttempt(s, job, a) && Answered(s, id, a, output)
      && id in s.chains && s.chains[id] == output.certificate
      && id in s.keys && s.keys[id] == output.privateKey
    case MarkingFailed(a, _) => InAttempt(s, job, a)
    case Sleeping(a) => job.status.Pending? && job.attempt == a && 1 <= a < s.max
    case Releasing => !Unfinished(job.status) || (s.max < 1 && job.status.Pending? && job.attempt == 0)
  }

  ghost predicate InAttempt(s: State, job: Job, a: nat) {
    (job.status.Validating? || job.status.Finalizing?) && job.attempt == a && 1 <= a <= s.max
  }

  ghost predicate Answered(s: State, id: JobId, a: nat, output: IssueOutput) {
    (id, a) in s.history.returned && s.history.returned[(id, a)] == output
  }

  ghost predicate ThreadOk(s: State, tid: nat) {
    tid in s.threads ==>
      var t := s.threads[tid];
      t.id in s.jobs && s.jobs[t.id].maxAttempts == s.max && PcOk(s, t.id, s.jobs[t.id], t.pc)
  }

  ghost predicate Apart(s: State, t1: nat, t2: nat) {
    t1 in s.threads && t2 in s.threads && t1 != t2 ==> s.threads[t1].id != s.threads[t2].id
  }

  ghost predicate ThreadsOk(s: State) {
    && (forall tid {:trigger ThreadOk(s, tid)} :: ThreadOk(s, tid))
    && (forall t1, t2 {:trigger Apart(s, t1, t2)} :: Apart(s, t1, t2))
  }

  ghost predicate Critical(s: State, tid: nat) { tid in s.threads && !s.threads[tid].pc.AwaitSlot? }

  /** The one-slot channel: it holds a token iff one run, and only one, is past it. */
  ghost predicate SlotOk(s: State) {
    && s.work <= 1
    && (s.work == 1 <==> exists tid :: Critical(s, tid))
    && (forall t1, t2 | Critical(s, t1) && Critical(s, t2) :: t1 == t2)
  }

  ghost predicate Runs(s: State, tid: nat, id: JobId) { tid in s.threads && s.threads[tid].id == id }

  ghost predicate HasRun(s: State, id: JobId) { exists tid :: Runs(s, tid, id) }

  /** A run that never entered its loop: the attempt limit is below one. */
  ghost predicate NeverTried(s: State, job: Job) {
    s.max < 1 && job.maxAttempts == s.max && job.status.Pending? && job.attempt == 0
  }

  ghost predicate JobCovered(s: State, id: JobId) {
    id in s.jobs && Unfinished(s.jobs[id].status) ==> HasRun(s, id) || NeverTried(s, s.jobs[id])
  }

  ghost predicate Covered(s: State) { forall id {:trigger JobCovered(s, id)} :: JobCovered(s, id) }

  /** The disk image may lag behind the memory, but never in what is settled. */
  ghost predicate LinkOk(s: State, id: JobId) {
    && (id in DiskJobs(s) <==> id in s.jobs)
    && (id in DiskJobs(s) ==> Lags(DiskJobs(s)[id], s.jobs[id]))
  }

  predicate Lags(image: Job, job: Job) {
    && image.domains == job.domains
    && (Settled(image.status) ==> Settled(job.status) && image.attempt == job.attempt)
    && (image.status.Revoked? ==> job.status.Revoked?)
  }

  ghost predicate DiskLink(s: State) { forall id {:trigger LinkOk(s, id)} :: LinkOk(s, id) }

  ghost predicate RevokerOk(s: State, rid: nat) {
    rid in s.revokers ==> s.revokers[rid].id in s.jobs && Settled(s.jobs[s.revokers[rid].id].status)
  }

  ghost predicate RevokersOk(s: State) { forall rid {:trigger RevokerOk(s, rid)} :: RevokerOk(s, rid) }

  ghost predicate RecordOk(s: State, id: JobId) {
    && s.history.starts[id] <= 1
    && (id in s.history.starts || id in s.history.acknowledged ==> id in DiskJobs(s))
  }

  ghost predicate HistoryOk(s: State) { forall id {:trigger RecordOk(s, id)} :: RecordOk(s, id) }

  ghost predicate DownOk(s: State) {
    s.jobs == map[] && s.threads == map[] && s.revokers == map[] && s.work == 0 && !s.closed
  }

  ghost predicate Inv(u: Unicode, s: State) {
    && JobsOk(u, s, DiskJobs(s)) && JobsOk(u, s, s.jobs)
    && ThreadsOk(s) && SlotOk(s) && RevokersOk(s) && HistoryOk(s)
    && (if s.up then DiskLink(s) && Covered(s) else DownOk(s))
  }

  // ------------------------------------------------------------ framing

  /** `t` keeps the files and issuer answers that `s` holds for `id`. */
  ghost predicate FilesKept(s: State, t: State, id: JobId) {
    && (id in s.chains ==> id in t.chains && t.chains[id] == s.chains[id])
    && (id in s.keys ==> id in t.keys && t.keys[id] == s.keys[id])
    && forall a | (id, a) in s.history.returned ::
         (id, a) in t.history.returned && t.history.returned[(id, a)] == s.history.returned[(id, a)]
  }

  /** From `s` to `t` only the record and the files of job `id` change. */
  ghost predicate OnlyJob(s: State, t: State, id: JobId) {
    && id in s.jobs && id in t.jobs && t.jobs == s.jobs[id := t.jobs[id]]
    && (t.disk == s.disk || t.disk == Some(Persisted(t.jobs)))
    && (forall other {:trigger FilesKept(s, t, other)} | other != id :: FilesKept(s, t, other))
    && s.up && t.up && t.max == s.max
    && t.history.starts == s.history.starts && t.history.acknowledged == s.history.acknowledged
  }

  /** Moreover, the only goroutine that moves is the run `tid` of that job. */
  ghost predicate OnlyThread(s: State, t: State, tid: nat, id: JobId) {
    && Runs(s, tid, id) && Runs(t, tid, id) && t.threads == s.threads[tid := t.threads[tid]]
    && t.revokers == s.revokers
    && OnlyJob(s, t, id)
  }

  lemma JobsFrame(u: Unicode, s: State, t: State, jobs: Jobs)
    requires JobsOk(u, s, jobs)
    requires forall id {:trigger FilesKept(s, t, id)} | id in jobs && Settled(jobs[id].status) :: FilesKept(s, t, id)
    ensures JobsOk(u, t, jobs)
  {
    forall id ensures JobOk(u, t, jobs, id) {
      assert JobOk(u, s, jobs, id);
      if id in jobs && Settled(jobs[id].status) { assert FilesKept(s, t, id); }
    }
  }

  lemma PersistedOk(u: Unicode, s: State, jobs: Jobs)
    requires JobsOk(u, s, jobs)
    ensures JobsOk(u, s, Persisted(jobs))
  {
    forall id ensures JobOk(u, s, Persisted(jobs), id) {
      assert JobOk(u, s, jobs, id);
    }
  }

  lemma JobMoves(u: Unicode, s: State, t: State, id: JobId)
    requires OnlyJob(s, t, id) && DiskLink(s)
    requires JobsOk(u, s, s.jobs) && JobsOk(u, s, DiskJobs(s))
    requires JobOk(u, t, t.jobs, id)
    requires FilesKept(s, t, id) || !Settled(s.jobs[id].status)
    ensures JobsOk(u, t, t.jobs) && JobsOk(u, t, DiskJobs(t))
  {
    forall other ensures JobOk(u, t, t.jobs, other) {
      assert JobOk(u, s, s.jobs, other);
      if other != id { assert FilesKept(s, t, other); }
    }
    if t.disk == s.disk {
      assert LinkOk(s, id);
      JobsFrame(u, s, t, DiskJobs(s));
    } else {
      PersistedOk(u, t, t.jobs);
    }
  }

  lemma DiskMoves(s: State, t: State, id: JobId)
    requires OnlyJob(s, t, id) && DiskLink(s)
    requires Lags(s.jobs[id], t.jobs[id])
    ensures DiskLink(t)
  {
    forall other ensures LinkOk(t, other) {
      assert LinkOk(s, other);
    }
  }

  lemma PcKept(s: State, t: State, id: JobId, job: Job, pc: RunPc)
    requires PcOk(s, id, job, pc) && FilesKept(s, t, id) && s.max == t.max
    ensures PcOk(t, id, job, pc)
  {
  }

  lemma ThreadsMove(s: State, t: State, tid: nat, id: JobId)
    requires ThreadsOk(s) && OnlyThread(s, t, tid, id) && ThreadOk(t, tid)
    ensures ThreadsOk(t)
  {
    forall other ensures ThreadOk(t, other) {
      if other != tid && other in t.threads {
        assert ThreadOk(s, other) && Apart(s, tid, other);
        var thread := s.threads[other];
        assert FilesKept(s, t, thread.id);
        PcKept(s, t, thread.id, s.jobs[thread.id], thread.pc);
      }
    }
    forall t1, t2 ensures Apart(t, t1, t2) {
      assert Apart(s, t1, t2);
    }
  }

  lemma RunsKept(s: State, t: State, tid: nat, id: JobId)
    requires OnlyThread(s, t, tid, id)
    ensures forall other :: HasRun(s, other) <==> HasRun(t, other)
  {
    assert forall x, other :: Runs(s, x, other) <==> Runs(t, x, other);
  }

  lemma CoveredMoves(s: State, t: State, tid: nat, id: JobId)
    requires Covered(s) && OnlyThread(s, t, tid, id)
    ensures Covered(t)
  {
    RunsKept(s, t, tid, id);
    forall other ensures JobCovered(t, other) {
      assert JobCovered(s, other);
      if other == id { assert Runs(t, tid, id); }
    }
  }

  lemma SlotMoves(s: State, t: State, tid: nat, id: JobId)
    requires SlotOk(s) && t.work == s.work && OnlyThread(s, t, tid, id)
    requires !s.threads[tid].pc.AwaitSlot? && !t.threads[tid].pc.AwaitSlot?
    ensures SlotOk(t)
  {
    assert forall other :: Critical(s, other) <==> Critical(t, other);
  }

  lemma HistoryMoves(s: State, t: State, id: JobId)
    requires HistoryOk(s) && DiskLink(s) && OnlyJob(s, t, id)
    ensures HistoryOk(t)
  {
    forall other ensures RecordOk(t, other) {
      assert RecordOk(s, other) && LinkOk(s, other);
    }
  }

  lemma RevokersMove(s: State, t: State, id: JobId)
    requires RevokersOk(s) && OnlyJob(s, t, id)
    requires forall rid | rid in t.revokers :: rid in s.revokers && t.revokers[rid].id == s.revokers[rid].id
    requires Settled(s.jobs[id].status) ==> Settled(t.jobs[id].status)
    ensures RevokersOk(t)
  {
    forall rid ensures RevokerOk(t, rid) {
      assert RevokerOk(s, rid);
    }
  }

  /** One step of a run that stays inside its critical section. */
  lemma ThreadMoves(u: Unicode, s: State, t: State, tid: nat, id: JobId)
    requires Inv(u, s) && OnlyThread(s, t, tid, id) && t.work == s.work
    requires !s.threads[tid].pc.AwaitSlot? && !t.threads[tid].pc.AwaitSlot?
    requires Unfinished(s.jobs[id].status) || (t.jobs[id] == s.jobs[id] && FilesKept(s, t, id))
    requires t.jobs[id].domains == s.jobs[id].domains
    requires ThreadOk(t, tid) && JobOk(u, t, t.jobs, id)
    ensures Inv(u, t)
  {
    JobMoves(u, s, t, id);
    DiskMoves(s, t, id);
    ThreadsMove(s, t, tid, id);
    SlotMoves(s, t, tid, id);
    CoveredMoves(s, t, tid, id);
    HistoryMoves(s, t, id);
    RevokersMove(s, t, id);
  }
}
