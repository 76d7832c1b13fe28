// The manager object of internal/certificates/manager.go.  Every method is one
// atomic section of the source, and one event of the machine of CertificateJobs:
// a valid object is always in a reachable state, so that whatever
// CertificateTheorems says of these holds of it between any two sections.

module CertificateManager {
  import opened Outcomes
  import opened Text
  import opened CertificateDomains
  import opened CertificateJobs
  import opened CertificateInvariant
  import opened CertificatePreservation
  import opened CertificateTheorems
  import opened CertificateRevocations

  /** The storage directory: state.json and certs/<id>/{fullchain,private-key}.pem. */
  class Storage {
    var state: Option<Jobs>
    var chains: map<JobId, string>
    var keys: map<JobId, string>

    constructor ()
      ensures state == None && chains == map[] && keys == map[]
    {
      state, chains, keys := None, map[], map[];
    }
  }

  /** NewManager on a storage that earlier processes may have left behind in the state
      `before`: it succeeds unless the unfinished jobs cannot be written back. */
  method NewManager(u: Unicode, storage: Storage, max: int, now: int, saved: bool, ghost before: State)
    returns (manager: Manager?)
    requires Conforms(u) && Reachable(u, before) && !before.up
    requires storage.state == before.disk && storage.chains == before.chains && storage.keys == before.keys
    modifies storage
    ensures manager == null <==> NeedsRewrite(DiskJobs(before)) && !saved
    ensures manager == null ==> storage.state == old(storage.state)
    ensures storage.chains == old(storage.chains) && storage.keys == old(storage.keys)
    ensures manager != null ==>
              && fresh(manager) && manager.u == u && manager.storage == storage && manager.max == max
              && manager.Valid() && manager.View() == BootSection(before, max, now, saved)
              && forall id | id in manager.jobs :: !Unfinished(manager.jobs[id].status)
  {
    ReachableInv(u, before);
    ReachableStep(u, before, Boot(max, now, saved));
    var m := new Manager(u, storage, max, before.history);
    var ok := m.Load(now, saved, before);
    manager := if ok then m else null;
  }

  class Manager {
    const u: Unicode
    const storage: Storage
    const max: int
    var jobs: Jobs
    var work: nat
    var closed: bool
    // The goroutines in flight, with the point each has reached.
    var threads: map<nat, Thread>
    var revokers: map<nat, RevokePc>
    ghost var history: History

    ghost function View(): State
      reads this, storage
    {
      State(true, max, closed, jobs, work, threads, revokers, storage.state, storage.chains, storage.keys, history)
    }

    /** Some run of events leads to the present state. */
    ghost predicate Valid()
      reads this, storage
    {
      Conforms(u) && Reachable(u, View())
    }

    /** The fields that NewManager sets before it loads the state file. */
    constructor (u: Unicode, storage: Storage, max: int, ghost history: History)
      ensures this.u == u && this.storage == storage && this.max == max
      ensures View() == State(true, max, false, map[], 0, map[], map[],
                              storage.state, storage.chains, storage.keys, history)
    {
      this.u, this.storage, this.max := u, storage, max;
      jobs, work, closed := map[], 0, false;
      threads, revokers := map[], map[];
      this.history := history;
    }

    method SaveLocked(ok: bool)
      modifies storage`state
      ensures View() == CertificateJobs.SaveLocked(old(View()), ok)
    {
      if ok {
        storage.state := Some(Persisted(jobs));
      }
    }

    /** load: every unfinished job becomes a failed one; the file is rewritten if any was. */
    method Load(now: int, saved: bool, ghost before: State) returns (ok: bool)
      requires !before.up && DownOk(before) && View() == before.(up := true, max := max)
      modifies this`jobs, storage`state
      ensures ok <==> !NeedsRewrite(DiskJobs(before)) || saved
      ensures ok ==> View() == BootSection(before, max, now, saved)
      ensures !ok ==> storage.state == old(storage.state)
    {
      if storage.state.None? {
        assert Loaded(map[], now) == map[];
        return true;
      }
      var stored := storage.state.value;
      var changed := LoadRecords(stored, now);
      if changed {
        SaveLocked(saved);
        return saved;
      }
      return true;
    }

    /** The loop of load over the decoded records. */
    method LoadRecords(stored: Jobs, now: int) returns (changed: bool)
      requires jobs == map[]
      modifies this`jobs
      ensures jobs == Loaded(stored, now) && (changed <==> NeedsRewrite(stored))
    {
      var pending := stored.Keys;
      changed := false;
      while pending != {}
        invariant pending <= stored.Keys && jobs.Keys == stored.Keys - pending
        invariant forall id | id in jobs :: jobs[id] == Interrupted(stored[id], now)
        invariant changed <==> exists id | id in jobs :: Unfinished(stored[id].status)
        decreases |pending|
      {
        var id :| id in pending;
        var job := stored[id];
        if Unfinished(job.status) {
          job := job.(status := Failed, error := RestartInterrupted, updatedAt := now);
          changed := true;
        }
        jobs := jobs[id := job];
        pending := pending - {id};
      }
    }

    /** Registers a new job, rolling back when it cannot be saved. */
    method Register(id: JobId, job: Job, tid: nat, saved: bool)
      requires id !in jobs && tid !in threads
      modifies this, storage
      ensures View() == if saved then CreateSection(old(View()), id, job, tid) else old(View())
    {
      ghost var before := jobs;
      jobs := jobs[id := job];
      SaveLocked(saved);
      if !saved {
        jobs := jobs - {id};
        assert jobs == before;
        return;
      }
      threads := threads[tid := Thread(id, AwaitSlot)];
      history := history.(acknowledged := history.acknowledged + {id}, starts := history.starts + multiset{id});
    }

    /** The section of Start under the lock, without what it means for the caller. */
    method StartLocked(request: IssueRequest, tid: nat, now: int, saved: bool)
      returns (answer: Result<StartAnswer, StartError>)
      requires tid !in threads
      modifies this, storage
      ensures (View(), answer) == StartSection(u, old(View()), request, tid, now, saved)
    {
      var domains := Normalize(u, request.domains);
      if domains.Err? {
        return Err(BadDomains(domains.error));
      }
      var key := TrimSpace(request.idempotencyKey);
      if key == "" || ByteLength(key) > 128 {
        return Err(BadKey);
      }
      var id := JobId(key);
      if closed {
        return Err(ManagerClosed);
      }
      if id in jobs {
        if !SameJoined(jobs[id].domains, domains.value) {
          return Err(DifferentDomains);
        }
        history := history.(acknowledged := history.acknowledged + {id});
        return Ok(StartAnswer(PublicJob(jobs[id]), false));
      }
      var job := NewJob(id, domains.value, request, max, now);
      Register(id, job, tid, saved);
      if !saved {
        return Err(NotSaved);
      }
      return Ok(StartAnswer(PublicJob(job), true));
    }

    /** Start; `tid` names the goroutine it may spawn.  An answered job has the requested
        domains in normal form and is already in the state file; an error changes nothing. */
    method Start(request: IssueRequest, tid: nat, now: int, saved: bool)
      returns (answer: Result<StartAnswer, StartError>)
      requires Valid() && tid !in threads
      modifies this, storage
      ensures Valid() && View() == Step(u, old(View()), CertificateJobs.Start(request, tid, now, saved))
      ensures answer == StartSection(u, old(View()), request, tid, now, saved).1
      ensures answer.Ok? ==>
                var id := JobId(TrimSpace(request.idempotencyKey));
                && id in jobs && answer.value.job == PublicJob(jobs[id])
                && NormalizeDomains(u, request.domains) == Ok(jobs[id].domains)
                && storage.state.Some? && id in storage.state.value
      ensures answer.Err? ==> View() == old(View())
    {
      ghost var before := View();
      answer := StartLocked(request, tid, now, saved);
      ReachableStep(u, before, CertificateJobs.Start(request, tid, now, saved));
      AnsweredJob(u, before, request, tid, now, saved);
    }

    /** update: read the record, mutate the copy, store it, save, ignore the outcome. */
    method Update(id: JobId, change: Change, now: int, saved: bool)
      modifies this, storage
      ensures View() == CertificateJobs.Update(old(View()), id, change, now, saved)
    {
      if id !in jobs {
        return;
      }
      var job := Apply(change, jobs[id]);
      job := job.(updatedAt := now);
      jobs := jobs[id := job];
      SaveLocked(saved);
    }

    /** A run takes the slot: nothing is being issued at that moment. */
    method AcquireSlot(tid: nat)
      requires Valid() && tid in threads && threads[tid].pc.AwaitSlot? && work < 1
      modifies this
      ensures Valid() && View() == Step(u, old(View()), Acquire(tid))
      ensures forall id :: !InIssuance(View(), id)
    {
      ghost var before := View();
      work := work + 1;
      threads := threads[tid := threads[tid].(pc := LoopTest(1))];
      ReachableStep(u, before, Acquire(tid));
      NothingIssuing(u, before);
      assert forall id :: InIssuance(View(), id) == InIssuance(before, id);
    }

    method BeginLocked(tid: nat, now: int, saved: bool)
      requires tid in threads && threads[tid].pc.LoopTest?
      modifies this, storage
      ensures View() == BeginSection(old(View()), tid, now, saved)
    {
      var Thread(id, LoopTest(attempt)) := threads[tid];
      if attempt > max {
        threads := threads[tid := Thread(id, Releasing)];
        return;
      }
      Update(id, ToValidating(attempt), now, saved);
      threads := threads[tid := Thread(id, ReadInputs(attempt))];
    }

    /** The loop test, and the update to validating: no other job is in issuance then. */
    method BeginAttempt(tid: nat, now: int, saved: bool)
      requires Valid() && tid in threads && threads[tid].pc.LoopTest?
      modifies this, storage
      ensures Valid() && View() == Step(u, old(View()), Begin(tid, now, saved))
      ensures Begun(View(), old(threads[tid].id), old(threads[tid].pc.attempt))
    {
      ghost var before := View();
      BeginLocked(tid, now, saved);
      ReachableStep(u, before, Begin(tid, now, saved));
      BegunAlone(u, before, tid, now, saved);
    }

    method ReadJobInputs(tid: nat)
      requires Valid() && tid in threads && threads[tid].pc.ReadInputs?
      modifies this
      ensures Valid() && old(Enabled(View(), ReadJob(tid))) && View() == Step(u, old(View()), ReadJob(tid))
    {
      GuardsFollow(u, View(), tid, 0, 0, false);
      ghost var before := View();
      var Thread(id, ReadInputs(attempt)) := threads[tid];
      threads := threads[tid := Thread(id, Issuing(attempt, jobs[id].domains))];
      ReachableStep(u, before, ReadJob(tid));
    }

    method Progress(tid: nat, status: Status, now: int, saved: bool)
      requires Valid() && tid in threads && threads[tid].pc.Issuing?
      modifies this, storage
      ensures Valid() && View() == Step(u, old(View()), Callback(tid, status, now, saved))
    {
      ghost var before := View();
      if status == Finalizing {
        Update(threads[tid].id, ToFinalizing, now, saved);
      }
      ReachableStep(u, before, Callback(tid, status, now, saved));
    }

    method IssuerAnswered(tid: nat, answer: Result<IssueOutput, string>)
      requires Valid() && tid in threads && threads[tid].pc.Issuing?
      modifies this
      ensures Valid() && View() == Step(u, old(View()), IssuerReturns(tid, answer))
    {
      ghost var before := View();
      var Thread(id, Issuing(attempt, _)) := threads[tid];
      match answer {
        case Err(text) =>
          threads := threads[tid := Thread(id, MarkingFailed(attempt, IssuerError(text)))];
        case Ok(output) =>
          threads := threads[tid := Thread(id, WritingChain(attempt, output))];
          history := history.(returned := history.returned[(id, attempt) := output]);
      }
      ReachableStep(u, before, IssuerReturns(tid, answer));
    }

    /** saveCertificate, up to the rename of fullchain.pem. */
    method WriteChain(tid: nat, ok: bool)
      requires Valid() && tid in threads && threads[tid].pc.WritingChain?
      modifies this, storage
      ensures Valid() && View() == Step(u, old(View()), CertificateJobs.WriteChain(tid, ok))
    {
      ghost var before := View();
      var Thread(id, WritingChain(attempt, output)) := threads[tid];
      if ok {
        storage.chains := storage.chains[id := output.certificate];
        threads := threads[tid := Thread(id, WritingKey(attempt, output))];
      } else {
        threads := threads[tid := Thread(id, MarkingFailed(attempt, ChainNotWritten))];
      }
      ReachableStep(u, before, CertificateJobs.WriteChain(tid, ok));
    }

    /** saveCertificate, the rename of private-key.pem: chain and key then stem from the
        same answer of the issuer. */
    method WriteKey(tid: nat, ok: bool)
      requires Valid() && tid in threads && threads[tid].pc.WritingKey?
      modifies this, storage
      ensures Valid() && View() == Step(u, old(View()), CertificateJobs.WriteKey(tid, ok))
      ensures ok ==>
                var Thread(id, WritingKey(attempt, output)) := old(threads[tid]);
                && (id, attempt) in history.returned && history.returned[(id, attempt)] == output
                && id in storage.chains && storage.chains[id] == output.certificate
                && id in storage.keys && storage.keys[id] == output.privateKey
    {
      ghost var before := View();
      var Thread(id, WritingKey(attempt, output)) := threads[tid];
      ChainWritten(u, before, tid);
      if ok {
        storage.keys := storage.keys[id := output.privateKey];
        threads := threads[tid := Thread(id, MarkingIssued(attempt, output))];
      } else {
        threads := threads[tid := Thread(id, MarkingFailed(attempt, KeyNotWritten))];
      }
      ReachableStep(u, before, CertificateJobs.WriteKey(tid, ok));
    }

    method FinishLocked(tid: nat, now: int, saved: bool)
      requires tid in threads && (threads[tid].pc.MarkingIssued? || threads[tid].pc.MarkingFailed?)
      modifies this, storage
      ensures View() == FinishSection(old(View()), tid, now, saved)
    {
      var Thread(id, pc) := threads[tid];
      if pc.MarkingIssued? {
        Update(id, ToIssued(pc.output), now, saved);
        threads := threads[tid := Thread(id, Releasing)];
      } else {
        Update(id, ToRetryOrFailed(pc.error, pc.attempt == max), now, saved);
        threads := threads[
          tid := Thread(id, if pc.attempt < max then Sleeping(pc.attempt) else LoopTest(pc.attempt + 1))];
      }
    }

    /** The update that ends an attempt: issued with both files behind the record, or
        failed at the last attempt, or pending. */
    method EndAttempt(tid: nat, now: int, saved: bool)
      requires Valid() && tid in threads && (threads[tid].pc.MarkingIssued? || threads[tid].pc.MarkingFailed?)
      modifies this, storage
      ensures Valid() && View() == Step(u, old(View()), Finish(tid, now, saved))
      ensures Ended(old(View()), View(), old(threads[tid].id), old(threads[tid].pc.MarkingIssued?))
    {
      ghost var before := View();
      FinishLocked(tid, now, saved);
      ReachableStep(u, before, Finish(tid, now, saved));
      AttemptEnded(u, before, tid, now, saved);
    }

    method Wake(tid: nat)
      requires Valid() && tid in threads && threads[tid].pc.Sleeping?
      modifies this
      ensures Valid() && View() == Step(u, old(View()), CertificateJobs.Wake(tid))
    {
      ghost var before := View();
      threads := threads[tid := threads[tid].(pc := LoopTest(threads[tid].pc.attempt + 1))];
      ReachableStep(u, before, CertificateJobs.Wake(tid));
    }

    /** The slot is given back, and the run leaves its job finished unless the limit kept
        it from trying. */
    method ReleaseSlot(tid: nat)
      requires Valid() && tid in threads && threads[tid].pc.Releasing?
      modifies this
      ensures Valid() && old(Enabled(View(), Release(tid))) && View() == Step(u, old(View()), Release(tid))
      ensures var id := old(threads[tid].id);
        && work == 0 && id in jobs && (Unfinished(jobs[id].status) ==> NeverTried(View(), jobs[id]))
    {
      GuardsFollow(u, View(), tid, 0, 0, false);
      ghost var before := View();
      work := work - 1;
      threads := threads - {tid};
      ReachableStep(u, before, Release(tid));
      LeftFinished(u, before, tid);
    }

    /** Renew, up to its call of Start. */
    method RenewCheck(id: JobId, key: string, force: bool, now: int, window: int)
      returns (request: Result<IssueRequest, RenewError>)
      ensures request == CertificateJobs.RenewCheck(View(), id, key, force, now, window)
    {
      if id !in jobs {
        return Err(JobMissing);
      }
      var current := PublicJob(jobs[id]);
      if current.status != Issued {
        return Err(NotIssued);
      }
      if !force && current.notAfter.Some? {
        var renewAt := current.notAfter.value - window;
        if now < renewAt {
          return Err(NotDue);
        }
      }
      return Ok(RenewRequest(current, key));
    }

    /** Revoke, first check: a revoked job is returned, an issued one goes on. */
    method RevokeCheck(rid: nat, id: JobId) returns (current: Option<Job>)
      requires Valid() && rid !in revokers
      modifies this
      ensures Valid() && View() == Step(u, old(View()), CertificateJobs.RevokeCheck(rid, id))
      ensures current == if id in jobs && Settled(jobs[id].status) then Some(PublicJob(jobs[id])) else None
    {
      ghost var before := View();
      ReachableStep(u, before, CertificateJobs.RevokeCheck(rid, id));
      if id !in jobs {
        return None;
      }
      var job := jobs[id];
      if job.status == Revoked {
        return Some(PublicJob(job));
      }
      if job.status != Issued {
        return None;
      }
      revokers := revokers[rid := ReadingChain(id)];
      return Some(PublicJob(job));
    }

    /** Revoke, second check and read: CertificatePEM.  In between nothing can have gone
        wrong: what is read is the chain of the attempt that the job records. */
    method RevokeRead(rid: nat) returns (certificate: Option<string>)
      requires Valid() && rid in revokers && revokers[rid].ReadingChain?
      modifies this
      ensures Valid() && View() == Step(u, old(View()), CertificateJobs.RevokeRead(rid))
      ensures var id := old(revokers[rid].id);
        && id in jobs && (id, jobs[id].attempt) in history.returned
        && certificate == Some(history.returned[(id, jobs[id].attempt)].certificate)
    {
      ghost var before := View();
      ReachableStep(u, before, CertificateJobs.RevokeRead(rid));
      var id := revokers[rid].id;
      if id !in jobs || (jobs[id].status != Issued && jobs[id].status != Revoked) || id !in storage.chains {
        certificate := None;
        revokers := revokers - {rid};
      } else {
        certificate := Some(storage.chains[id]);
        revokers := revokers[rid := CallingIssuer(id)];
      }
      RevokerFinds(u, before, rid);
    }

    method RevokeAnswered(rid: nat, ok: bool)
      requires Valid() && rid in revokers && revokers[rid].CallingIssuer?
      modifies this
      ensures Valid() && View() == Step(u, old(View()), RevokeIssuer(rid, ok))
      ensures jobs == old(jobs) && storage.state == old(storage.state)
      ensures if ok then rid in revokers && revokers[rid] == Committing(old(revokers[rid].id)) else rid !in revokers
    {
      ghost var before := View();
      history := Witnessed(history, revokers[rid].id, ok);
      if ok {
        revokers := revokers[rid := Committing(revokers[rid].id)];
      } else {
        revokers := revokers - {rid};
      }
      ReachableStep(u, before, RevokeIssuer(rid, ok));
    }

    /** The commit looks neither for the job nor at its status again, and need not: the job
        is still there, issued or already revoked, with its files. */
    method RevokeCommit(rid: nat, now: int, saved: bool) returns (job: Job)
      requires Valid() && rid in revokers && revokers[rid].Committing?
      modifies this, storage
      ensures Valid() && old(Enabled(View(), CertificateJobs.RevokeCommit(rid, now, saved)))
      ensures View() == Step(u, old(View()), CertificateJobs.RevokeCommit(rid, now, saved))
      ensures var id := old(revokers[rid].id);
        && id in jobs && job == PublicJob(jobs[id]) && job.revokedAt == Some(now)
        && Settled(old(jobs)[id].status) && IsRevocation(old(jobs)[id], jobs[id]) && Backed(View(), id, jobs[id])
        && id in history.accepted
    {
      GuardsFollow(u, View(), 0, rid, now, saved);
      RevokerFinds(u, View(), rid);
      RevokerConsented(u, View(), rid);
      ghost var before := View();
      var id := revokers[rid].id;
      job := jobs[id];
      job := job.(status := Revoked, revokedAt := Some(now), updatedAt := now, error := NoError);
      jobs := jobs[id := job];
      revokers := revokers - {rid};
      SaveLocked(saved);
      job := PublicJob(job);
      ReachableStep(u, before, CertificateJobs.RevokeCommit(rid, now, saved));
      CrashSafety(u, View(), id);
    }

    /** Close up to its wait for the runs; CloseLeavesNothingUnfinished is about what follows. */
    method Close()
      requires Valid()
      modifies this`closed
      ensures Valid() && View() == Step(u, old(View()), CertificateJobs.Close)
    {
      ghost var before := View();
      closed := true;
      ReachableStep(u, before, CertificateJobs.Close);
    }

    /** What holds between any two sections: one job at most is in issuance, every settled
        job has both its files, every acknowledged job is there and in the state file, every revoked
        job's revocation was accepted, and once a closed manager has no run left every job is finished. */
    lemma Guarantees(id: JobId, other: JobId)
      requires Valid()
      ensures InIssuance(View(), id) && InIssuance(View(), other) ==> id == other
      ensures id in jobs && Settled(jobs[id].status) ==> Backed(View(), id, jobs[id])
      ensures id in history.acknowledged ==> id in jobs && storage.state.Some? && id in storage.state.value
      ensures closed && threads == map[] && max >= 1 && id in jobs ==> !Unfinished(jobs[id].status)
      ensures RevokedIn(jobs, id) ==> id in history.accepted
    {
      ReachableConsent(u, View());
      assert JobConsented(View(), id);
      if InIssuance(View(), id) && InIssuance(View(), other) { OneIssuanceAtATime(u, View(), id, other); }
      CrashSafety(u, View(), id);
      if closed && threads == map[] && id in jobs { CloseLeavesNothingUnfinished(u, View(), id); }
    }
  }

  // ------------------------------------ what the sections mean in reachable states

  lemma AnsweredJob(u: Unicode, s: State, request: IssueRequest, tid: nat, now: int, saved: bool)
    requires Conforms(u) && Reachable(u, s) && s.up && tid !in s.threads
    ensures var (t, answer) := StartSection(u, s, request, tid, now, saved);
            var id := JobId(TrimSpace(request.idempotencyKey));
            && (answer.Ok? ==>
                  && id in t.jobs && answer.value.job == PublicJob(t.jobs[id])
                  && NormalizeDomains(u, request.domains) == Ok(t.jobs[id].domains) && id in DiskJobs(t))
            && (answer.Err? ==> t == s)
  {
    var (t, answer) := StartSection(u, s, request, tid, now, saved);
    var id := JobId(TrimSpace(request.idempotencyKey));
    if answer.Ok? && !answer.value.created {
      Replay(u, s, request, tid, now, saved);
      ReachableStep(u, s, Start(request, tid, now, saved));
      CrashSafety(u, t, id);
    }
  }

  lemma NothingIssuing(u: Unicode, s: State)
    requires Conforms(u) && Reachable(u, s) && s.up && s.work < 1
    ensures forall id :: !InIssuance(s, id)
  {
    ReachableInv(u, s);
    forall id ensures !InIssuance(s, id) {
      if InIssuance(s, id) { var tid := IssuanceHoldsSlot(u, s, id); }
    }
  }

  /** After the loop test the job is validating iff an attempt is left, and no other is in issuance. */
  ghost predicate Begun(s: State, id: JobId, attempt: nat) {
    && id in s.jobs && (InIssuance(s, id) <==> attempt <= s.max)
    && (attempt <= s.max ==> s.jobs[id].status.Validating? && s.jobs[id].attempt == attempt)
    && forall other | InIssuance(s, other) :: other == id
  }

  lemma BegunAlone(u: Unicode, s: State, tid: nat, now: int, saved: bool)
    requires Conforms(u) && Reachable(u, s) && Running(s, tid) && s.threads[tid].pc.LoopTest?
    ensures Begun(BeginSection(s, tid, now, saved), s.threads[tid].id, s.threads[tid].pc.attempt)
  {
    ReachableInv(u, s);
    OthersIdle(u, s, tid);
    assert ThreadOk(s, tid);
    var Thread(id, LoopTest(attempt)) := s.threads[tid];
    if attempt <= s.max {
      UpdateMoves(s, id, ToValidating(attempt), now, saved);
    }
    var t := BeginSection(s, tid, now, saved);
    assert forall other | other != id :: InIssuance(t, other) == InIssuance(s, other);
  }

  /** While one run is past the slot, no job but its own is in issuance. */
  lemma OthersIdle(u: Unicode, s: State, tid: nat)
    requires Inv(u, s) && Critical(s, tid)
    ensures forall other | InIssuance(s, other) :: other == s.threads[tid].id
  {
    forall other | InIssuance(s, other) ensures other == s.threads[tid].id {
      var holder := IssuanceHoldsSlot(u, s, other);
      assert holder == tid;
    }
  }

  lemma ChainWritten(u: Unicode, s: State, tid: nat)
    requires Conforms(u) && Reachable(u, s) && Running(s, tid) && s.threads[tid].pc.WritingKey?
    ensures var Thread(id, WritingKey(attempt, output)) := s.threads[tid];
            Answered(s, id, attempt, output) && id in s.chains && s.chains[id] == output.certificate
  {
    ReachableInv(u, s);
    assert ThreadOk(s, tid);
  }

  /** An attempt ends as an edge of the life cycle, and never as issued without the files. */
  ghost predicate Ended(s: State, t: State, id: JobId, issued: bool) {
    && id in s.jobs && id in t.jobs && EndsAttempt(s.jobs[id], t.jobs[id])
    && (t.jobs[id].status.Issued? <==> issued) && (issued ==> Backed(t, id, t.jobs[id]))
  }

  lemma AttemptEnded(u: Unicode, s: State, tid: nat, now: int, saved: bool)
    requires Conforms(u) && Reachable(u, s) && Enabled(s, Finish(tid, now, saved))
    ensures Ended(s, FinishSection(s, tid, now, saved), s.threads[tid].id, s.threads[tid].pc.MarkingIssued?)
  {
    var Thread(id, pc) := s.threads[tid];
    FinishedJob(u, s, tid, now, saved);
    ReachableStep(u, s, Finish(tid, now, saved));
    CrashSafety(u, FinishSection(s, tid, now, saved), id);
  }

  lemma FinishedJob(u: Unicode, s: State, tid: nat, now: int, saved: bool)
    requires Conforms(u) && Reachable(u, s) && Enabled(s, Finish(tid, now, saved))
    ensures var t, id := FinishSection(s, tid, now, saved), s.threads[tid].id;
            && id in s.jobs && id in t.jobs && EndsAttempt(s.jobs[id], t.jobs[id])
            && (t.jobs[id].status.Issued? <==> s.threads[tid].pc.MarkingIssued?)
  {
    ReachableInv(u, s);
    assert ThreadOk(s, tid);
    match s.threads[tid].pc
    case MarkingIssued(attempt, output) =>
      IssuedEnds(s, tid, s.threads[tid].id, attempt, output, now, saved);
    case MarkingFailed(attempt, error) =>
      FailedEnds(s, tid, s.threads[tid].id, attempt, error, now, saved);
  }

  lemma IssuedEnds(s: State, tid: nat, id: JobId, attempt: nat, output: IssueOutput, now: int, saved: bool)
    requires Running(s, tid) && s.threads[tid] == Thread(id, MarkingIssued(attempt, output)) && id in s.jobs
    ensures var t := FinishSection(s, tid, now, saved);
            id in t.jobs && EndsAttempt(s.jobs[id], t.jobs[id]) && t.jobs[id].status.Issued?
  {
    FinishIssued(s, tid, id, attempt, output, now, saved);
    UpdateMoves(s, id, ToIssued(output), now, saved);
  }

  lemma FailedEnds(s: State, tid: nat, id: JobId, attempt: nat, error: JobError, now: int, saved: bool)
    requires Running(s, tid) && s.threads[tid] == Thread(id, MarkingFailed(attempt, error)) && id in s.jobs
    requires s.jobs[id].attempt == attempt <= s.max == s.jobs[id].maxAttempts
    ensures var t := FinishSection(s, tid, now, saved);
            id in t.jobs && EndsAttempt(s.jobs[id], t.jobs[id]) && !t.jobs[id].status.Issued?
  {
    FinishFailed(s, tid, id, attempt, error, now, saved);
    UpdateMoves(s, id, ToRetryOrFailed(error, attempt == s.max), now, saved);
  }

  lemma LeftFinished(u: Unicode, s: State, tid: nat)
    requires Conforms(u) && Reachable(u, s) && Running(s, tid) && s.threads[tid].pc.Releasing?
    ensures var id := s.threads[tid].id;
            s.work == 1 && id in s.jobs && (Unfinished(s.jobs[id].status) ==> NeverTried(s, s.jobs[id]))
  {
    ReachableInv(u, s);
    assert ThreadOk(s, tid) && Critical(s, tid);
  }

  lemma RevokerConsented(u: Unicode, s: State, rid: nat)
    requires Conforms(u) && Reachable(u, s) && rid in s.revokers && s.revokers[rid].Committing?
    ensures s.revokers[rid].id in s.history.accepted
  {
    ReachableConsent(u, s);
    assert CallConsented(s, rid);
  }

  lemma RevokerFinds(u: Unicode, s: State, rid: nat)
    requires Conforms(u) && Reachable(u, s) && s.up && rid in s.revokers
    ensures var id := s.revokers[rid].id;
            id in s.jobs && Settled(s.jobs[id].status) && Backed(s, id, s.jobs[id])
  {
    ReachableInv(u, s);
    assert RevokerOk(s, rid);
    CrashSafety(u, s, s.revokers[rid].id);
  }
}
