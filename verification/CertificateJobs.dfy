// The certificate job manager of internal/certificates/manager.go as a state
// machine.  One event is one atomic action: a section under `mu`, one file
// rename, one answer of the issuer, one channel operation, a crash, or a boot.
// `saved` and `ok` tell whether the file operation of the event succeeded.

module CertificateJobs {
  import opened Outcomes
  import opened Text
  import opened CertificateDomains

  datatype Status = Pending | Validating | Finalizing | Issued | Failed | Revoked

  predicate Unfinished(status: Status) { status.Pending? || status.Validating? || status.Finalizing? }

  predicate Settled(status: Status) { status.Issued? || status.Revoked? }

  /** jobID: the truncated SHA-256 of the key, taken to be injective. */
  datatype JobId = JobId(key: string)

  datatype IssueRequest = IssueRequest(domains: seq<string>, idempotencyKey: string, renewalOf: Option<JobId>)

  datatype IssueOutput = IssueOutput(certificate: string, privateKey: string, notBefore: int, notAfter: int)

  /** What `error` can say; the texts themselves are not modelled. */
  datatype JobError = NoError | IssuerError(text: string) | ChainNotWritten | KeyNotWritten | RestartInterrupted

  datatype Job = Job(
    id: JobId, domains: seq<string>, status: Status, attempt: nat, maxAttempts: int,
    createdAt: int, updatedAt: int, notBefore: Option<int>, notAfter: Option<int>,
    error: JobError, renewalOf: Option<JobId>, revokedAt: Option<int>, idempotencyKey: string)

  type Jobs = map<JobId, Job>

  /** Where a goroutine executing `run` stands. */
  datatype RunPc =
    | AwaitSlot
    | LoopTest(attempt: nat)
    | ReadInputs(attempt: nat)
    | Issuing(attempt: nat, domains: seq<string>)
    | WritingChain(attempt: nat, output: IssueOutput)
    | WritingKey(attempt: nat, output: IssueOutput)
    | MarkingIssued(attempt: nat, output: IssueOutput)
    | MarkingFailed(attempt: nat, error: JobError)
    | Sleeping(attempt: nat)
    | Releasing

  datatype Thread = Thread(id: JobId, pc: RunPc)

  /** Where a call of `Revoke` stands after its first check. */
  datatype RevokePc = ReadingChain(id: JobId) | CallingIssuer(id: JobId) | Committing(id: JobId)

  /** What an outside observer has seen; no step reads it. */
  datatype History = History(
    acknowledged: set<JobId>, starts: multiset<JobId>, returned: map<(JobId, nat), IssueOutput>,
    accepted: set<JobId>)

  datatype State = State(
    up: bool, max: int, closed: bool, jobs: Jobs, work: nat,
    threads: map<nat, Thread>, revokers: map<nat, RevokePc>,
    disk: Option<Jobs>, chains: map<JobId, string>, keys: map<JobId, string>,
    history: History)

  datatype Event =
    | Start(request: IssueRequest, tid: nat, now: int, saved: bool)
    | Acquire(tid: nat)
    | Begin(tid: nat, now: int, saved: bool)
    | ReadJob(tid: nat)
    | Callback(tid: nat, status: Status, now: int, saved: bool)
    | IssuerReturns(tid: nat, answer: Result<IssueOutput, string>)
    | WriteChain(tid: nat, ok: bool)
    | WriteKey(tid: nat, ok: bool)
    | Finish(tid: nat, now: int, saved: bool)
    | Wake(tid: nat)
    | Release(tid: nat)
    | RevokeCheck(rid: nat, id: JobId)
    | RevokeRead(rid: nat)
    | RevokeIssuer(rid: nat, ok: bool)
    | RevokeCommit(rid: nat, now: int, saved: bool)
    | Close
    | Crash
    | Boot(max: int, now: int, saved: bool)

  // ------------------------------------------------------------- the sections

  /** The four closures that `run` hands to `update`. */
  datatype Change =
    | ToValidating(attempt: nat)
    | ToFinalizing
    | ToIssued(output: IssueOutput)
    | ToRetryOrFailed(error: JobError, last: bool)

  function Apply(change: Change, job: Job): Job {
    match change
    case ToValidating(attempt) => job.(attempt := attempt, status := Validating, error := NoError)
    case ToFinalizing => job.(status := Finalizing)
    case ToIssued(output) =>
      job.(status := Issued, notBefore := Some(output.notBefore), notAfter := Some(output.notAfter), error := NoError)
    case ToRetryOrFailed(error, last) => job.(error := error, status := if last then Failed else Pending)
  }

  /** The JSON image: the idempotency key is not written. */
  function Persisted(jobs: Jobs): Jobs {
    map id | id in jobs :: jobs[id].(idempotencyKey := "")
  }

  function SaveLocked(s: State, saved: bool): State {
    if saved then s.(disk := Some(Persisted(s.jobs))) else s
  }

  /** `update` looks at nothing but the presence of the job. */
  function Update(s: State, id: JobId, change: Change, now: int, saved: bool): State {
    if id !in s.jobs then s
    else SaveLocked(s.(jobs := s.jobs[id := Apply(change, s.jobs[id]).(updatedAt := now)]), saved)
  }

  datatype StartError = BadDomains(error: DomainsError) | BadKey | ManagerClosed | DifferentDomains | NotSaved

  datatype StartAnswer = StartAnswer(job: Job, created: bool)

  /** What callers get to see of a job. */
  function PublicJob(job: Job): Job { job.(idempotencyKey := "") }

  function NewJob(id: JobId, domains: seq<string>, request: IssueRequest, max: int, now: int): Job {
    Job(id, domains, Pending, 0, max, now, now, None, None, NoError, request.renewalOf, None,
        TrimSpace(request.idempotencyKey))
  }

  /** The new job is on disk and its goroutine counted before the lock is released. */
  function CreateSection(s: State, id: JobId, job: Job, tid: nat): State {
    SaveLocked(s.(jobs := s.jobs[id := job]), true)
    .(threads := s.threads[tid := Thread(id, AwaitSlot)],
      history := s.history.(acknowledged := s.history.acknowledged + {id},
                            starts := s.history.starts + multiset{id}))
  }

  function StartSection(u: Unicode, s: State, request: IssueRequest, tid: nat, now: int, saved: bool)
    : (State, Result<StartAnswer, StartError>)
  {
    var key := TrimSpace(request.idempotencyKey);
    var id := JobId(key);
    match NormalizeDomains(u, request.domains)
    case Err(e) => (s, Err(BadDomains(e)))
    case Ok(domains) =>
      if key == "" || ByteLength(key) > 128 then (s, Err(BadKey))
      else if s.closed then (s, Err(ManagerClosed))
      else if id in s.jobs then
        if !SameJoined(s.jobs[id].domains, domains) then (s, Err(DifferentDomains))
        else (s.(history := s.history.(acknowledged := s.history.acknowledged + {id})),
              Ok(StartAnswer(PublicJob(s.jobs[id]), false)))
      else if !saved then (s, Err(NotSaved))
      else
        var job := NewJob(id, domains, request, s.max, now);
        (CreateSection(s, id, job, tid), Ok(StartAnswer(PublicJob(job), true)))
  }

  /** The request that Renew builds from the parent it has read. */
  function RenewRequest(parent: Job, key: string): IssueRequest {
    IssueRequest(parent.domains, key, Some(parent.id))
  }

  datatype RenewError = JobMissing | NotIssued | NotDue

  /** The section of Renew before it calls Start; `window` is the time before the end of
      validity from which on a renewal is due. */
  function RenewCheck(s: State, id: JobId, key: string, force: bool, now: int, window: int)
    : Result<IssueRequest, RenewError>
  {
    if id !in s.jobs then Err(JobMissing)
    else if !s.jobs[id].status.Issued? then Err(NotIssued)
    else if !force && s.jobs[id].notAfter.Some? && now < s.jobs[id].notAfter.value - window then Err(NotDue)
    else Ok(RenewRequest(PublicJob(s.jobs[id]), key))
  }

  function Interrupted(job: Job, now: int): Job {
    if Unfinished(job.status) then
      job.(status := Failed, updatedAt := now, error := RestartInterrupted)
    else job
  }

  function Loaded(jobs: Jobs, now: int): Jobs {
    map id | id in jobs :: Interrupted(jobs[id], now)
  }

  predicate NeedsRewrite(jobs: Jobs) { exists id | id in jobs :: Unfinished(jobs[id].status) }

  function DiskJobs(s: State): Jobs { if s.disk.Some? then s.disk.value else map[] }

  /** NewManager: on a failed rewrite no manager comes into being. */
  function BootSection(s: State, max: int, now: int, saved: bool): State {
    if NeedsRewrite(DiskJobs(s)) && !saved then s
    else
      var jobs := Loaded(DiskJobs(s), now);
      s.(up := true, max := max, jobs := jobs,
         disk := if NeedsRewrite(DiskJobs(s)) then Some(Persisted(jobs)) else s.disk)
  }

  function CrashSection(s: State): State {
    s.(up := false, closed := false, jobs := map[], work := 0, threads := map[], revokers := map[])
  }

  function SetPc(s: State, tid: nat, pc: RunPc): State
    requires tid in s.threads
  {
    s.(threads := s.threads[tid := s.threads[tid].(pc := pc)])
  }

  predicate Running(s: State, tid: nat) { s.up && tid in s.threads }

  function AcquireSection(s: State, tid: nat): State
    requires Running(s, tid)
  {
    SetPc(s, tid, LoopTest(1)).(work := s.work + 1)
  }

  /** The loop test of `run`, then the first update of the attempt. */
  function BeginSection(s: State, tid: nat, now: int, saved: bool): State
    requires Running(s, tid) && s.threads[tid].pc.LoopTest?
  {
    var Thread(id, LoopTest(attempt)) := s.threads[tid];
    if attempt > s.max then SetPc(s, tid, Releasing)
    else SetPc(Update(s, id, ToValidating(attempt), now, saved), tid, ReadInputs(attempt))
  }

  function ReadSection(s: State, tid: nat): State
    requires Running(s, tid) && s.threads[tid].pc.ReadInputs? && s.threads[tid].id in s.jobs
  {
    var Thread(id, ReadInputs(attempt)) := s.threads[tid];
    SetPc(s, tid, Issuing(attempt, s.jobs[id].domains))
  }

  /** The issuer's progress callback; only "finalizing" has an effect. */
  function CallbackSection(s: State, tid: nat, status: Status, now: int, saved: bool): State
    requires Running(s, tid)
  {
    if status.Finalizing? then Update(s, s.threads[tid].id, ToFinalizing, now, saved) else s
  }

  function IssuerSection(s: State, tid: nat, answer: Result<IssueOutput, string>): State
    requires Running(s, tid) && s.threads[tid].pc.Issuing?
  {
    var Thread(id, Issuing(attempt, _)) := s.threads[tid];
    match answer
    case Err(text) => SetPc(s, tid, MarkingFailed(attempt, IssuerError(text)))
    case Ok(output) =>
      SetPc(s, tid, WritingChain(attempt, output))
      .(history := s.history.(returned := s.history.returned[(id, attempt) := output]))
  }

  function WriteChainSection(s: State, tid: nat, ok: bool): State
    requires Running(s, tid) && s.threads[tid].pc.WritingChain?
  {
    var Thread(id, WritingChain(attempt, output)) := s.threads[tid];
    if ok then SetPc(s, tid, WritingKey(attempt, output)).(chains := s.chains[id := output.certificate])
    else SetPc(s, tid, MarkingFailed(attempt, ChainNotWritten))
  }

  function WriteKeySection(s: State, tid: nat, ok: bool): State
    requires Running(s, tid) && s.threads[tid].pc.WritingKey?
  {
    var Thread(id, WritingKey(attempt, output)) := s.threads[tid];
    if ok then SetPc(s, tid, MarkingIssued(attempt, output)).(keys := s.keys[id := output.privateKey])
    else SetPc(s, tid, MarkingFailed(attempt, KeyNotWritten))
  }

  /** The update that ends an attempt. */
  function FinishSection(s: State, tid: nat, now: int, saved: bool): State
    requires Running(s, tid) && (s.threads[tid].pc.MarkingIssued? || s.threads[tid].pc.MarkingFailed?)
  {
    var Thread(id, pc) := s.threads[tid];
    if pc.MarkingIssued? then SetPc(Update(s, id, ToIssued(pc.output), now, saved), tid, Releasing)
    else SetPc(Update(s, id, ToRetryOrFailed(pc.error, pc.attempt == s.max), now, saved), tid,
               if pc.attempt < s.max then Sleeping(pc.attempt) else LoopTest(pc.attempt + 1))
  }

  function WakeSection(s: State, tid: nat): State
    requires Running(s, tid) && s.threads[tid].pc.Sleeping?
  {
    SetPc(s, tid, LoopTest(s.threads[tid].pc.attempt + 1))
  }

  function ReleaseSection(s: State, tid: nat): State
    requires Running(s, tid) && s.work > 0
  {
    s.(work := s.work - 1, threads := s.threads - {tid})
  }

  function RevokeCheckSection(s: State, rid: nat, id: JobId): State {
    if id in s.jobs && s.jobs[id].status.Issued? then s.(revokers := s.revokers[rid := ReadingChain(id)]) else s
  }

  function RevokeReadSection(s: State, rid: nat): State
    requires rid in s.revokers
  {
    var id := s.revokers[rid].id;
    if id in s.jobs && Settled(s.jobs[id].status) && id in s.chains
    then s.(revokers := s.revokers[rid := CallingIssuer(id)])
    else s.(revokers := s.revokers - {rid})
  }

  /** The issuer has answered a revocation of the job. */
  function Witnessed(history: History, id: JobId, ok: bool): History {
    history.(accepted := history.accepted + if ok then {id} else {})
  }

  function RevokeIssuerSection(s: State, rid: nat, ok: bool): State
    requires rid in s.revokers
  {
    var id := s.revokers[rid].id;
    s.(revokers := if ok then s.revokers[rid := Committing(id)] else s.revokers - {rid},
       history := Witnessed(s.history, id, ok))
  }

  /** The commit does not look at the status again. */
  function RevokeCommitSection(s: State, rid: nat, now: int, saved: bool): State
    requires rid in s.revokers && s.revokers[rid].id in s.jobs
  {
    var id := s.revokers[rid].id;
    SaveLocked(s.(revokers := s.revokers - {rid},
                  jobs := s.jobs[id := s.jobs[id].(status := Revoked, revokedAt := Some(now), updatedAt := now,
                                                   error := NoError)]), saved)
  }

  // -------------------------------------------------------------- the machine

  predicate Enabled(s: State, e: Event) {
    match e
    case Start(_, tid, _, _) => s.up && tid !in s.threads
    case Acquire(tid) => Running(s, tid) && s.threads[tid].pc.AwaitSlot? && s.work < 1
    case Begin(tid, _, _) => Running(s, tid) && s.threads[tid].pc.LoopTest?
    case ReadJob(tid) => Running(s, tid) && s.threads[tid].pc.ReadInputs? && s.threads[tid].id in s.jobs
    case Callback(tid, _, _, _) => Running(s, tid) && s.threads[tid].pc.Issuing?
    case IssuerReturns(tid, _) => Running(s, tid) && s.threads[tid].pc.Issuing?
    case WriteChain(tid, _) => Running(s, tid) && s.threads[tid].pc.WritingChain?
    case WriteKey(tid, _) => Running(s, tid) && s.threads[tid].pc.WritingKey?
    case Finish(tid, _, _) => Running(s, tid) && (s.threads[tid].pc.MarkingIssued? || s.threads[tid].pc.MarkingFailed?)
    case Wake(tid) => Running(s, tid) && s.threads[tid].pc.Sleeping?
    case Release(tid) => Running(s, tid) && s.threads[tid].pc.Releasing? && s.work > 0
    case RevokeCheck(rid, _) => s.up && rid !in s.revokers
    case RevokeRead(rid) => s.up && rid in s.revokers && s.revokers[rid].ReadingChain?
    case RevokeIssuer(rid, _) => s.up && rid in s.revokers && s.revokers[rid].CallingIssuer?
    case RevokeCommit(rid, _, _) =>
      s.up && rid in s.revokers && s.revokers[rid].Committing? && s.revokers[rid].id in s.jobs
    case Close => s.up
    case Crash => s.up
    case Boot(_, _, _) => !s.up
  }

  function Step(u: Unicode, s: State, e: Event): State
    requires Enabled(s, e)
  {
    match e
    case Start(request, tid, now, saved) => StartSection(u, s, request, tid, now, saved).0
    case Acquire(tid) => AcquireSection(s, tid)
    case Begin(tid, now, saved) => BeginSection(s, tid, now, saved)
    case ReadJob(tid) => ReadSection(s, tid)
    case Callback(tid, status, now, saved) => CallbackSection(s, tid, status, now, saved)
    case IssuerReturns(tid, answer) => IssuerSection(s, tid, answer)
    case WriteChain(tid, ok) => WriteChainSection(s, tid, ok)
    case WriteKey(tid, ok) => WriteKeySection(s, tid, ok)
    case Finish(tid, now, saved) => FinishSection(s, tid, now, saved)
    case Wake(tid) => WakeSection(s, tid)
    case Release(tid) => ReleaseSection(s, tid)
    case RevokeCheck(rid, id) => RevokeCheckSection(s, rid, id)
    case RevokeRead(rid) => RevokeReadSection(s, rid)
    case RevokeIssuer(rid, ok) => RevokeIssuerSection(s, rid, ok)
    case RevokeCommit(rid, now, saved) => RevokeCommitSection(s, rid, now, saved)
    case Close => s.(closed := true)
    case Crash => CrashSection(s)
    case Boot(max, now, saved) => BootSection(s, max, now, saved)
  }

  /** No process yet, empty storage. */
  const Initial: State :=
    State(false, 0, false, map[], 0, map[], map[], None, map[], map[], History({}, multiset{}, map[], {}))

  predicate Legal(u: Unicode, s: State, events: seq<Event>)
    decreases events
  {
    events == [] || (Enabled(s, events[0]) && Legal(u, Step(u, s, events[0]), events[1..]))
  }

  /** The state after a whole run. */
  function Run(u: Unicode, s: State, events: seq<Event>): State
    requires Legal(u, s, events)
    decreases events
  {
    if events == [] then s else Run(u, Step(u, s, events[0]), events[1..])
  }
}
