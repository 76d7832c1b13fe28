// What comes of the operations of the certificate job manager
// (internal/certificates/manager.go): how a start, an attempt, a series of
// attempts and a renewal end.

module CertificateOutcomes {
  import opened Outcomes
  import opened Text
  import opened CertificateDomains
  import opened CertificateJobs
  import opened CertificateInvariant
  import opened CertificatePreservation
  import opened CertificateTheorems
  import opened CertificateRevocations

  // -------------------------------------------------------------------- Start

  /** A start creates a job exactly when the domains and the key are in order, the manager
      is open, the key is new and the save succeeds; the job waits for its first attempt,
      with one run of its own.  On a closed manager nothing happens. */
  lemma StartOutcome(u: Unicode, s: State, request: IssueRequest, tid: nat, now: int, saved: bool)
    requires Conforms(u) && Reachable(u, s) && s.up && tid !in s.threads
    ensures var (t, answer) := StartSection(u, s, request, tid, now, saved);
      var key := TrimSpace(request.idempotencyKey);
      var domains := NormalizeDomains(u, request.domains);
      && (Created(answer) <==> domains.Ok? && UsableKey(request) && !s.closed && JobId(key) !in s.jobs && saved)
      && (Created(answer) ==>
            && t.jobs == s.jobs[JobId(key) := t.jobs[JobId(key)]]
            && t.jobs[JobId(key)].domains == domains.value && t.jobs[JobId(key)].status == Pending
            && t.jobs[JobId(key)].maxAttempts == s.max && t.jobs[JobId(key)].renewalOf == request.renewalOf
            && t.threads == s.threads[tid := Thread(JobId(key), AwaitSlot)])
      && (s.closed ==> answer.Err? && t == s)
  {
    StartShape(u, s, request, tid, now, saved);
  }

  /** The event leaves a closed manager closed, without a new job or run. */
  predicate StaysClosed(s: State, t: State) {
    t.up && t.closed && t.jobs.Keys == s.jobs.Keys && t.threads.Keys <= s.threads.Keys
  }

  lemma UpdateStaysClosed(s: State, id: JobId, change: Change, now: int, saved: bool)
    requires s.up && s.closed
    ensures var t := Update(s, id, change, now, saved);
      t.up && t.closed && t.jobs.Keys == s.jobs.Keys && t.threads == s.threads
  {
  }

  lemma ClosedRunStep(u: Unicode, s: State, e: Event)
    requires s.up && s.closed && Enabled(s, e) && OfRun(e)
    ensures StaysClosed(s, Step(u, s, e))
  {
    if e.Begin? || e.Callback? || e.Finish? {
      ClosedUpdate(u, s, e);
    } else {
      ClosedMove(u, s, e);
    }
  }

  lemma ClosedUpdate(u: Unicode, s: State, e: Event)
    requires s.up && s.closed && Enabled(s, e) && (e.Begin? || e.Callback? || e.Finish?)
    ensures StaysClosed(s, Step(u, s, e))
  {
    match e
    case Begin(tid, now, saved) => ClosedBegin(s, tid, now, saved);
    case Callback(tid, _, now, saved) => UpdateStaysClosed(s, s.threads[tid].id, ToFinalizing, now, saved);
    case Finish(tid, now, saved) => ClosedFinish(s, tid, now, saved);
  }

  lemma ClosedMove(u: Unicode, s: State, e: Event)
    requires s.up && s.closed && Enabled(s, e) && OfRun(e) && !e.Begin? && !e.Callback? && !e.Finish?
    ensures StaysClosed(s, Step(u, s, e))
  {
    match e
    case Acquire(tid) => assert StaysClosed(s, AcquireSection(s, tid));
    case ReadJob(tid) => assert StaysClosed(s, ReadSection(s, tid));
    case IssuerReturns(tid, answer) => assert StaysClosed(s, IssuerSection(s, tid, answer));
    case WriteChain(tid, ok) => assert StaysClosed(s, WriteChainSection(s, tid, ok));
    case WriteKey(tid, ok) => assert StaysClosed(s, WriteKeySection(s, tid, ok));
    case Wake(tid) => assert StaysClosed(s, WakeSection(s, tid));
    case Release(tid) => assert StaysClosed(s, ReleaseSection(s, tid));
  }

  lemma ClosedBegin(s: State, tid: nat, now: int, saved: bool)
    requires s.up && s.closed && Enabled(s, Begin(tid, now, saved))
    ensures StaysClosed(s, BeginSection(s, tid, now, saved))
  {
    UpdateStaysClosed(s, s.threads[tid].id, ToValidating(s.threads[tid].pc.attempt), now, saved);
  }

  lemma ClosedFinish(s: State, tid: nat, now: int, saved: bool)
    requires s.up && s.closed && Enabled(s, Finish(tid, now, saved))
    ensures StaysClosed(s, FinishSection(s, tid, now, saved))
  {
    var Thread(id, pc) := s.threads[tid];
    if pc.MarkingIssued? {
      UpdateStaysClosed(s, id, ToIssued(pc.output), now, saved);
    } else {
      UpdateStaysClosed(s, id, ToRetryOrFailed(pc.error, pc.attempt == s.max), now, saved);
    }
  }

  lemma ClosedStart(u: Unicode, s: State, request: IssueRequest, tid: nat, now: int, saved: bool)
    requires s.closed
    ensures StartSection(u, s, request, tid, now, saved).1.Err? && StartSection(u, s, request, tid, now, saved).0 == s
  {
  }

  lemma ClosedStep(u: Unicode, s: State, e: Event)
    requires s.up && s.closed && Enabled(s, e) && !e.Crash?
    ensures StaysClosed(s, Step(u, s, e))
  {
    if OfRun(e) {
      ClosedRunStep(u, s, e);
    } else if e.Start? {
      ClosedStart(u, s, e.request, e.tid, e.now, e.saved);
    }
  }

  /** Once closed, a manager gets no new job and starts no new run until the process ends. */
  lemma {:induction false} ClosedForGood(u: Unicode, s: State, events: seq<Event>)
    requires s.up && s.closed && Legal(u, s, events) && NoCrash(events)
    ensures StaysClosed(s, Run(u, s, events))
    decreases events
  {
    if events != [] {
      assert events[0] in events && forall e | e in events[1..] :: e in events;
      ClosedStep(u, s, events[0]);
      ClosedForGood(u, Step(u, s, events[0]), events[1..]);
    }
  }

  // ------------------------------------------------------------------- attempts

  /** The run stands at this point of the attempt `a`. */
  ghost predicate At(u: Unicode, s: State, tid: nat, id: JobId, pc: RunPc) {
    Conforms(u) && Reachable(u, s) && s.up && tid in s.threads && s.threads[tid] == Thread(id, pc)
  }

  /** The end of an attempt: the job is issued exactly without an error, and otherwise
      failed at the last attempt and pending before; the run leaves, or goes on. */
  predicate EndsAs(s: State, t: State, tid: nat, id: JobId, a: nat, error: JobError) {
    && t.up && t.max == s.max
    && id in s.jobs && id in t.jobs && t.jobs == s.jobs[id := t.jobs[id]]
    && t.jobs[id].attempt == a && t.jobs[id].error == error
    && t.jobs[id].status == (if error.NoError? then Issued else if a == s.max then Failed else Pending)
    && tid in t.threads && t.threads[tid] ==
       Thread(id, if error.NoError? then Releasing else if a < s.max then Sleeping(a) else LoopTest(a + 1))
  }

  function FinishEvents(tid: nat, now: int, saved: bool): seq<Event> { [Finish(tid, now, saved)] + [] }

  function KeyEvents(tid: nat, keyOk: bool, now: int, saved: bool): seq<Event> {
    [WriteKey(tid, keyOk)] + FinishEvents(tid, now, saved)
  }

  function ChainEvents(tid: nat, chainOk: bool, keyOk: bool, now: int, saved: bool): seq<Event> {
    [WriteChain(tid, chainOk)] + if chainOk then KeyEvents(tid, keyOk, now, saved) else FinishEvents(tid, now, saved)
  }

  /** From the issuer's answer to the end of the attempt. */
  function AnswerEvents(tid: nat, answer: Result<IssueOutput, string>, chainOk: bool, keyOk: bool, now: int,
                        saved: bool)
    : seq<Event>
  {
    [IssuerReturns(tid, answer)] +
      if answer.Ok? then ChainEvents(tid, chainOk, keyOk, now, saved) else FinishEvents(tid, now, saved)
  }

  function AttemptEvents(tid: nat, answer: Result<IssueOutput, string>, chainOk: bool, keyOk: bool, now: int,
                         saved: bool): seq<Event>
  {
    [Begin(tid, now, saved)] + ([ReadJob(tid)] + AnswerEvents(tid, answer, chainOk, keyOk, now, saved))
  }

  lemma IssuedOn(u: Unicode, s: State, tid: nat, id: JobId, a: nat, output: IssueOutput, now: int, saved: bool)
    returns (t: State)
    requires At(u, s, tid, id, MarkingIssued(a, output))
    ensures Leads(u, s, FinishEvents(tid, now, saved), t) && EndsAs(s, t, tid, id, a, NoError)
    ensures t.chains == s.chains && t.keys == s.keys
    ensures t.jobs[id].notBefore == Some(output.notBefore) && t.jobs[id].notAfter == Some(output.notAfter)
  {
    ReachableInv(u, s);
    assert ThreadOk(s, tid);
    FinishIssued(s, tid, id, a, output, now, saved);
    UpdateMoves(s, id, ToIssued(output), now, saved);
    t := FinishSection(s, tid, now, saved);
    LeadsNowhere(u, t);
    LeadsOn(u, s, Finish(tid, now, saved), [], t);
  }

  lemma FailedOn(u: Unicode, s: State, tid: nat, id: JobId, a: nat, error: JobError, now: int, saved: bool)
    returns (t: State)
    requires At(u, s, tid, id, MarkingFailed(a, error)) && !error.NoError?
    ensures Leads(u, s, FinishEvents(tid, now, saved), t) && EndsAs(s, t, tid, id, a, error)
    ensures t.chains == s.chains && t.keys == s.keys
  {
    ReachableInv(u, s);
    assert ThreadOk(s, tid);
    FinishFailed(s, tid, id, a, error, now, saved);
    UpdateMoves(s, id, ToRetryOrFailed(error, a == s.max), now, saved);
    t := FinishSection(s, tid, now, saved);
    LeadsNowhere(u, t);
    LeadsOn(u, s, Finish(tid, now, saved), [], t);
  }

  lemma KeyOn(u: Unicode, s: State, tid: nat, id: JobId, a: nat, output: IssueOutput, keyOk: bool, now: int,
              saved: bool)
    returns (t: State)
    requires At(u, s, tid, id, WritingKey(a, output))
    ensures Leads(u, s, KeyEvents(tid, keyOk, now, saved), t)
    ensures EndsAs(s, t, tid, id, a, if keyOk then NoError else KeyNotWritten)
    ensures t.chains == s.chains && t.keys == if keyOk then s.keys[id := output.privateKey] else s.keys
    ensures keyOk ==> t.jobs[id].notBefore == Some(output.notBefore) && t.jobs[id].notAfter == Some(output.notAfter)
  {
    ReachableStep(u, s, WriteKey(tid, keyOk));
    var r := WriteKeySection(s, tid, keyOk);
    if keyOk {
      t := IssuedOn(u, r, tid, id, a, output, now, saved);
    } else {
      t := FailedOn(u, r, tid, id, a, KeyNotWritten, now, saved);
    }
    LeadsOn(u, s, WriteKey(tid, keyOk), FinishEvents(tid, now, saved), t);
  }

  lemma ChainOn(u: Unicode, s: State, tid: nat, id: JobId, a: nat, output: IssueOutput, chainOk: bool, keyOk: bool,
                now: int, saved: bool) returns (t: State)
    requires At(u, s, tid, id, WritingChain(a, output))
    ensures Leads(u, s, ChainEvents(tid, chainOk, keyOk, now, saved), t)
    ensures EndsAs(s, t, tid, id, a, if !chainOk then ChainNotWritten else if keyOk then NoError else KeyNotWritten)
    ensures t.chains == if chainOk then s.chains[id := output.certificate] else s.chains
    ensures t.keys == if chainOk && keyOk then s.keys[id := output.privateKey] else s.keys
    ensures chainOk && keyOk ==>
      t.jobs[id].notBefore == Some(output.notBefore) && t.jobs[id].notAfter == Some(output.notAfter)
  {
    ReachableStep(u, s, WriteChain(tid, chainOk));
    var r := WriteChainSection(s, tid, chainOk);
    if chainOk {
      t := KeyOn(u, r, tid, id, a, output, keyOk, now, saved);
      LeadsOn(u, s, WriteChain(tid, chainOk), KeyEvents(tid, keyOk, now, saved), t);
    } else {
      t := FailedOn(u, r, tid, id, a, ChainNotWritten, now, saved);
      LeadsOn(u, s, WriteChain(tid, chainOk), FinishEvents(tid, now, saved), t);
    }
  }

  function Verdict(answer: Result<IssueOutput, string>, chainOk: bool, keyOk: bool): JobError {
    match answer
    case Err(text) => IssuerError(text)
    case Ok(_) => if !chainOk then ChainNotWritten else if keyOk then NoError else KeyNotWritten
  }

  /** What the files of the job are after the answer and the two renames. */
  ghost predicate FilesFollow(s: State, t: State, id: JobId, answer: Result<IssueOutput, string>, chainOk: bool,
                              keyOk: bool)
  {
    && t.chains == (if answer.Ok? && chainOk then s.chains[id := answer.value.certificate] else s.chains)
    && t.keys == (if answer.Ok? && chainOk && keyOk then s.keys[id := answer.value.privateKey] else s.keys)
    && (answer.Ok? && chainOk && keyOk && id in t.jobs ==>
          t.jobs[id].notBefore == Some(answer.value.notBefore) && t.jobs[id].notAfter == Some(answer.value.notAfter))
  }

  /** From the issuer on, whether or not it has called back: the attempt ends issued exactly
      when the issuer answers with a certificate and both renames succeed. */
  lemma AnswerOutcome(u: Unicode, s: State, tid: nat, id: JobId, a: nat, domains: seq<string>,
                      answer: Result<IssueOutput, string>, chainOk: bool, keyOk: bool, now: int, saved: bool)
    returns (t: State)
    requires At(u, s, tid, id, Issuing(a, domains))
    ensures Leads(u, s, AnswerEvents(tid, answer, chainOk, keyOk, now, saved), t)
    ensures EndsAs(s, t, tid, id, a, Verdict(answer, chainOk, keyOk))
    ensures FilesFollow(s, t, id, answer, chainOk, keyOk)
  {
    ReachableStep(u, s, IssuerReturns(tid, answer));
    var r := IssuerSection(s, tid, answer);
    match answer
    case Ok(output) =>
      t := ChainOn(u, r, tid, id, a, output, chainOk, keyOk, now, saved);
      LeadsOn(u, s, IssuerReturns(tid, answer), ChainEvents(tid, chainOk, keyOk, now, saved), t);
    case Err(text) =>
      t := FailedOn(u, r, tid, id, a, IssuerError(text), now, saved);
      LeadsOn(u, s, IssuerReturns(tid, answer), FinishEvents(tid, now, saved), t);
  }

  /** A whole attempt with one left. */
  lemma AttemptOutcome(u: Unicode, s: State, tid: nat, id: JobId, a: nat,
                       answer: Result<IssueOutput, string>, chainOk: bool, keyOk: bool, now: int, saved: bool)
    returns (t: State)
    requires At(u, s, tid, id, LoopTest(a)) && a <= s.max
    ensures Leads(u, s, AttemptEvents(tid, answer, chainOk, keyOk, now, saved), t) && Reachable(u, t)
    ensures EndsAs(s, t, tid, id, a, Verdict(answer, chainOk, keyOk))
    ensures FilesFollow(s, t, id, answer, chainOk, keyOk)
  {
    var r := Prepared(u, s, tid, id, a, now, saved);
    t := ReadOutcome(u, r, tid, id, a, answer, chainOk, keyOk, now, saved);
    LeadsOn(u, s, Begin(tid, now, saved), [ReadJob(tid)] + AnswerEvents(tid, answer, chainOk, keyOk, now, saved), t);
    LeadsReach(u, s, AttemptEvents(tid, answer, chainOk, keyOk, now, saved), t);
    EndsFrom(s, r, t, tid, id, a, Verdict(answer, chainOk, keyOk));
  }

  lemma EndsFrom(s: State, r: State, t: State, tid: nat, id: JobId, a: nat, error: JobError)
    requires EndsAs(r, t, tid, id, a, error) && r.max == s.max
    requires id in s.jobs && id in r.jobs && r.jobs == s.jobs[id := r.jobs[id]]
    ensures EndsAs(s, t, tid, id, a, error)
  {
    assert r.jobs[id := t.jobs[id]] == s.jobs[id := t.jobs[id]];
  }

  lemma ReadOutcome(u: Unicode, s: State, tid: nat, id: JobId, a: nat,
                    answer: Result<IssueOutput, string>, chainOk: bool, keyOk: bool, now: int, saved: bool)
    returns (t: State)
    requires At(u, s, tid, id, ReadInputs(a)) && id in s.jobs
    ensures Leads(u, s, [ReadJob(tid)] + AnswerEvents(tid, answer, chainOk, keyOk, now, saved), t)
    ensures EndsAs(s, t, tid, id, a, Verdict(answer, chainOk, keyOk))
    ensures FilesFollow(s, t, id, answer, chainOk, keyOk)
  {
    ReachableStep(u, s, ReadJob(tid));
    t := AnswerOutcome(u, ReadSection(s, tid), tid, id, a, s.jobs[id].domains, answer, chainOk, keyOk, now, saved);
    LeadsOn(u, s, ReadJob(tid), AnswerEvents(tid, answer, chainOk, keyOk, now, saved), t);
  }

  lemma Prepared(u: Unicode, s: State, tid: nat, id: JobId, a: nat, now: int, saved: bool) returns (r: State)
    requires At(u, s, tid, id, LoopTest(a)) && a <= s.max
    ensures Enabled(s, Begin(tid, now, saved)) && r == BeginSection(s, tid, now, saved)
    ensures At(u, r, tid, id, ReadInputs(a))
    ensures id in s.jobs && id in r.jobs && r.jobs == s.jobs[id := r.jobs[id]]
    ensures r.chains == s.chains && r.keys == s.keys && r.max == s.max
  {
    ReachableInv(u, s);
    assert ThreadOk(s, tid);
    ReachableStep(u, s, Begin(tid, now, saved));
    UpdateMoves(s, id, ToValidating(a), now, saved);
    r := BeginSection(s, tid, now, saved);
  }

  lemma {:induction false} LeadsReach(u: Unicode, s: State, events: seq<Event>, t: State)
    requires Reachable(u, s) && Leads(u, s, events, t)
    ensures Reachable(u, t)
    decreases events
  {
    if events != [] {
      ReachableStep(u, s, events[0]);
      LeadsReach(u, Step(u, s, events[0]), events[1..], t);
    }
  }

  lemma {:induction false} LeadsBoth(u: Unicode, s: State, a: seq<Event>, r: State, b: seq<Event>, t: State)
    requires Leads(u, s, a, r) && Leads(u, r, b, t)
    ensures Leads(u, s, a + b, t)
    decreases a
  {
    if a == [] {
      assert a + b == b;
    } else {
      LeadsBoth(u, Step(u, s, a[0]), a[1..], r, b, t);
      LeadsOn(u, s, a[0], a[1..] + b, t);
      assert [a[0]] + (a[1..] + b) == a + b;
    }
  }

  /** One refusal with attempts left, and the sleep after it. */
  lemma RefusedOnce(u: Unicode, s: State, tid: nat, id: JobId, a: nat, now: int, saved: bool)
    returns (events: seq<Event>, t: State)
    requires At(u, s, tid, id, LoopTest(a)) && a < s.max
    ensures Leads(u, s, events, t) && Answers(events) == 1
    ensures At(u, t, tid, id, LoopTest(a + 1)) && t.max == s.max
  {
    events := AttemptEvents(tid, Err(""), true, true, now, saved);
    var r := AttemptOutcome(u, s, tid, id, a, Err(""), true, true, now, saved);
    ReachableStep(u, r, Wake(tid));
    t := WakeSection(r, tid);
    LeadsNowhere(u, t);
    LeadsOn(u, r, Wake(tid), [], t);
    LeadsBoth(u, s, events, r, [Wake(tid)] + [], t);
    AnswersOnce(tid, now, saved);
    AnswersAdd(events, [Wake(tid)] + []);
    events := events + ([Wake(tid)] + []);
  }

  /** An issuer that refuses every time is asked exactly as often as the limit allows: the
      attempts go on one by one, and only then is the job failed. */
  lemma {:induction false} RefusedUpToLimit(u: Unicode, s: State, tid: nat, id: JobId, a: nat, now: int, saved: bool)
    returns (events: seq<Event>, t: State)
    requires At(u, s, tid, id, LoopTest(a)) && 1 <= a <= s.max
    ensures Leads(u, s, events, t) && Answers(events) == s.max - a + 1
    ensures id in t.jobs && t.jobs[id].status.Failed? && t.jobs[id].attempt == s.max
    decreases s.max - a
  {
    if a == s.max {
      events := AttemptEvents(tid, Err(""), true, true, now, saved);
      t := AttemptOutcome(u, s, tid, id, a, Err(""), true, true, now, saved);
      AnswersOnce(tid, now, saved);
    } else {
      var first, r := RefusedOnce(u, s, tid, id, a, now, saved);
      var more;
      more, t := RefusedUpToLimit(u, r, tid, id, a + 1, now, saved);
      LeadsBoth(u, s, first, r, more, t);
      AnswersAdd(first, more);
      events := first + more;
    }
  }

  /** How often the issuer has answered. */
  function Answers(events: seq<Event>): nat {
    if events == [] then 0 else (if events[0].IssuerReturns? then 1 else 0) + Answers(events[1..])
  }

  lemma {:induction false} AnswersAdd(a: seq<Event>, b: seq<Event>)
    ensures Answers(a + b) == Answers(a) + Answers(b)
  {
    if a == [] {
      assert a + b == b;
    } else {
      assert (a + b)[1..] == a[1..] + b;
      AnswersAdd(a[1..], b);
    }
  }

  lemma AnswersOnce(tid: nat, now: int, saved: bool)
    ensures Answers(AttemptEvents(tid, Err(""), true, true, now, saved)) == 1 && Answers([Wake(tid)] + []) == 0
  {
    var last := [Finish(tid, now, saved)] + [];
    assert last[1..] == [] && ([IssuerReturns(tid, Err(""))] + last)[1..] == last;
    var answered := [IssuerReturns(tid, Err(""))] + last;
    assert ([ReadJob(tid)] + answered)[1..] == answered;
    assert ([Begin(tid, now, saved)] + ([ReadJob(tid)] + answered))[1..] == [ReadJob(tid)] + answered;
    assert Answers(last) == 0 && Answers(answered) == 1 && Answers([ReadJob(tid)] + answered) == 1;
    assert ([Wake(tid)] + [])[1..] == [];
  }

  // --------------------------------------------------------------------- Renew

  /** Renew goes on to Start exactly for an issued job that is due, measured by the end of
      validity in the issuer's own answer, or when it is forced; and then Start cannot object
      to the domains, and a job it answers has exactly those of the parent. */
  lemma RenewOutcome(u: Unicode, before: State, parent: JobId, key: string, force: bool, now: int, window: int,
                     s: State, tid: nat, saved: bool)
    requires Conforms(u) && Reachable(u, before) && Reachable(u, s) && s.up
    ensures var request := RenewCheck(before, parent, key, force, now, window);
      && (request.Ok? <==>
            && parent in before.jobs && before.jobs[parent].status.Issued?
            && (parent, before.jobs[parent].attempt) in before.history.returned
            && (force || now >= before.history.returned[(parent, before.jobs[parent].attempt)].notAfter - window))
      && (request.Ok? ==>
            var answer := StartSection(u, s, request.value, tid, now, saved).1;
            && (answer.Ok? ==> answer.value.job.domains == before.jobs[parent].domains)
            && (Created(answer) ==> answer.value.job.renewalOf == Some(parent))
            && (answer.Err? ==> !answer.error.BadDomains?))
  {
    CrashSafety(u, before, parent);
    if parent in before.jobs {
      ParentRequest(u, before, parent, key);
      RenewKeepsDomains(u, before, parent, key, s, tid, now, saved);
    }
  }

  lemma ParentRequest(u: Unicode, s: State, parent: JobId, key: string)
    requires Conforms(u) && Reachable(u, s) && parent in s.jobs
    ensures RenewRequest(PublicJob(s.jobs[parent]), key) == RenewRequest(s.jobs[parent], key)
    ensures s.jobs[parent].id == parent
  {
    ReachableInv(u, s);
    assert JobOk(u, s, s.jobs, parent);
  }
}
