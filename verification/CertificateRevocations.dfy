// What a revocation rests on (internal/certificates/manager.go:202-234): no job is
// ever revoked without the issuer's consent, and with it the revocation goes through.

module CertificateRevocations {
  import opened Outcomes
  import opened Text
  import opened CertificateDomains
  import opened CertificateJobs
  import opened CertificateInvariant
  import opened CertificatePreservation
  import opened CertificateTheorems

  // ------------------------------------------------------------ only with consent

  predicate RevokedIn(jobs: Jobs, id: JobId) { id in jobs && jobs[id].status.Revoked? }

  ghost predicate JobConsented(s: State, id: JobId) {
    RevokedIn(s.jobs, id) || RevokedIn(DiskJobs(s), id) ==> id in s.history.accepted
  }

  ghost predicate CallConsented(s: State, rid: nat) {
    rid in s.revokers && s.revokers[rid].Committing? ==> s.revokers[rid].id in s.history.accepted
  }

  /** Every revoked job, and every revocation that is about to commit, has been accepted. */
  ghost predicate Consented(s: State) {
    && (forall id {:trigger JobConsented(s, id)} :: JobConsented(s, id))
    && (forall rid {:trigger CallConsented(s, rid)} :: CallConsented(s, rid))
  }

  /** The events of the revocation calls. */
  predicate OfRevoke(e: Event) { e.RevokeCheck? || e.RevokeRead? || e.RevokeIssuer? || e.RevokeCommit? }

  /** Revocation calls and what the issuer has accepted stay as they are. */
  predicate SameCalls(s: State, t: State) {
    t.revokers == s.revokers && t.history.accepted == s.history.accepted
  }

  /** Moreover no job is newly revoked. */
  ghost predicate Quiet(s: State, t: State) {
    SameCalls(s, t) && forall id {:trigger RevokedIn(t.jobs, id)} :: RevokedIn(t.jobs, id) ==> RevokedIn(s.jobs, id)
  }

  lemma UpdateIsQuiet(s: State, id: JobId, change: Change, now: int, saved: bool)
    ensures Quiet(s, Update(s, id, change, now, saved))
  {
    if id in s.jobs { ChangeIsQuiet(s.jobs, id, change, now); }
  }

  lemma ChangeIsQuiet(jobs: Jobs, id: JobId, change: Change, now: int)
    requires id in jobs
    ensures var next := jobs[id := Apply(change, jobs[id]).(updatedAt := now)];
      forall other :: RevokedIn(next, other) ==> RevokedIn(jobs, other)
  {
  }

  lemma SetPcIsQuiet(s: State, t: State, tid: nat, pc: RunPc)
    requires Quiet(s, t) && tid in t.threads
    ensures Quiet(s, SetPc(t, tid, pc))
  {
  }

  lemma FinishIsQuiet(s: State, tid: nat, now: int, saved: bool)
    requires Running(s, tid) && (s.threads[tid].pc.MarkingIssued? || s.threads[tid].pc.MarkingFailed?)
    ensures Quiet(s, FinishSection(s, tid, now, saved))
  {
    var Thread(id, pc) := s.threads[tid];
    if pc.MarkingIssued? {
      UpdateIsQuiet(s, id, ToIssued(pc.output), now, saved);
    } else {
      UpdateIsQuiet(s, id, ToRetryOrFailed(pc.error, pc.attempt == s.max), now, saved);
    }
  }

  lemma BeginIsQuiet(s: State, tid: nat, now: int, saved: bool)
    requires Running(s, tid) && s.threads[tid].pc.LoopTest?
    ensures Quiet(s, BeginSection(s, tid, now, saved))
  {
    var Thread(id, LoopTest(attempt)) := s.threads[tid];
    UpdateIsQuiet(s, id, ToValidating(attempt), now, saved);
  }

  lemma UpdatesAreQuiet(u: Unicode, s: State, e: Event)
    requires Enabled(s, e) && (e.Begin? || e.Callback? || e.Finish?)
    ensures Quiet(s, Step(u, s, e))
  {
    match e
    case Begin(tid, now, saved) => BeginIsQuiet(s, tid, now, saved);
    case Callback(tid, _, now, saved) => UpdateIsQuiet(s, s.threads[tid].id, ToFinalizing, now, saved);
    case Finish(tid, now, saved) => FinishIsQuiet(s, tid, now, saved);
  }

  predicate Still(s: State, t: State) { SameCalls(s, t) && t.jobs == s.jobs }

  lemma MovesAreQuiet(u: Unicode, s: State, e: Event)
    requires Enabled(s, e) && OfRun(e) && !e.Begin? && !e.Callback? && !e.Finish?
    ensures Still(s, Step(u, s, e))
  {
    match e
    case Acquire(tid) => assert Still(s, AcquireSection(s, tid));
    case ReadJob(tid) => assert Still(s, ReadSection(s, tid));
    case IssuerReturns(tid, answer) => assert Still(s, IssuerSection(s, tid, answer));
    case WriteChain(tid, ok) => assert Still(s, WriteChainSection(s, tid, ok));
    case WriteKey(tid, ok) => assert Still(s, WriteKeySection(s, tid, ok));
    case Wake(tid) => assert Still(s, WakeSection(s, tid));
    case Release(tid) => assert Still(s, ReleaseSection(s, tid));
  }

  lemma StartIsQuiet(u: Unicode, s: State, request: IssueRequest, tid: nat, now: int, saved: bool)
    ensures Quiet(s, StartSection(u, s, request, tid, now, saved).0)
  {
    StartShape(u, s, request, tid, now, saved);
  }

  lemma StillIsQuiet(s: State, t: State)
    requires Still(s, t)
    ensures Quiet(s, t)
  {
  }

  /** Nothing but the calls themselves and a crash touches the calls, and nothing but a
      commit revokes. */
  lemma OthersAreQuiet(u: Unicode, s: State, e: Event)
    requires Enabled(s, e) && !OfRevoke(e) && !e.Crash? && !e.Boot?
    ensures Quiet(s, Step(u, s, e))
  {
    if e.Begin? || e.Callback? || e.Finish? {
      UpdatesAreQuiet(u, s, e);
    } else if e.Start? {
      StartIsQuiet(u, s, e.request, e.tid, e.now, e.saved);
    } else {
      if OfRun(e) { MovesAreQuiet(u, s, e); }
      StillIsQuiet(s, Step(u, s, e));
    }
  }

  lemma ConsentMoves(s: State, t: State, wrote: bool)
    requires Consented(s) && Quiet(s, t) && Wrote(s, t, wrote)
    ensures Consented(t)
  {
    forall id ensures JobConsented(t, id) { assert JobConsented(s, id); }
    forall rid ensures CallConsented(t, rid) { assert CallConsented(s, rid); }
  }

  lemma CommitKeepsConsent(s: State, rid: nat, now: int, saved: bool)
    requires Consented(s) && Enabled(s, RevokeCommit(rid, now, saved))
    ensures Consented(RevokeCommitSection(s, rid, now, saved))
  {
    var t := RevokeCommitSection(s, rid, now, saved);
    assert CallConsented(s, rid);
    forall id ensures JobConsented(t, id) { assert JobConsented(s, id); }
    forall other ensures CallConsented(t, other) { assert CallConsented(s, other); }
  }

  /** A step of a call before its commit. */
  lemma CallKeepsConsent(s: State, t: State, rid: nat)
    requires Consented(s) && t == s.(revokers := t.revokers, history := s.history.(accepted := t.history.accepted))
    requires s.history.accepted <= t.history.accepted
    requires forall other | other in t.revokers && other != rid ::
               other in s.revokers && t.revokers[other] == s.revokers[other]
    requires CallConsented(t, rid)
    ensures Consented(t)
  {
    forall id ensures JobConsented(t, id) { assert JobConsented(s, id); }
    forall other ensures CallConsented(t, other) { assert CallConsented(s, other); }
  }

  lemma RevokeKeepsConsent(u: Unicode, s: State, e: Event)
    requires Consented(s) && Enabled(s, e) && OfRevoke(e)
    ensures Consented(Step(u, s, e))
  {
    match e
    case RevokeCheck(rid, id) => CallKeepsConsent(s, RevokeCheckSection(s, rid, id), rid);
    case RevokeRead(rid) => CallKeepsConsent(s, RevokeReadSection(s, rid), rid);
    case RevokeIssuer(rid, ok) => CallKeepsConsent(s, RevokeIssuerSection(s, rid, ok), rid);
    case RevokeCommit(rid, now, saved) => CommitKeepsConsent(s, rid, now, saved);
  }

  lemma CrashKeepsConsent(s: State)
    requires Consented(s)
    ensures Consented(CrashSection(s))
  {
    var t := CrashSection(s);
    forall id ensures JobConsented(t, id) { assert JobConsented(s, id); }
    forall rid ensures CallConsented(t, rid) { }
  }

  lemma BootKeepsConsent(s: State, max: int, now: int, saved: bool)
    requires Consented(s)
    ensures Consented(BootSection(s, max, now, saved))
  {
    var t := BootSection(s, max, now, saved);
    forall id ensures JobConsented(t, id) { assert JobConsented(s, id); }
    forall rid ensures CallConsented(t, rid) { assert CallConsented(s, rid); }
  }

  lemma StepKeepsConsent(u: Unicode, s: State, e: Event)
    requires Inv(u, s) && Consented(s) && Enabled(s, e)
    ensures Consented(Step(u, s, e))
  {
    if e.Crash? {
      CrashKeepsConsent(s);
    } else if e.Boot? {
      BootKeepsConsent(s, e.max, e.now, e.saved);
    } else if OfRevoke(e) {
      RevokeKeepsConsent(u, s, e);
    } else {
      OthersAreQuiet(u, s, e);
      EventWrites(u, s, e);
      ConsentMoves(s, Step(u, s, e), Writes(u, s, e));
    }
  }

  lemma {:induction false} RunKeepsConsent(u: Unicode, s: State, events: seq<Event>)
    requires Conforms(u) && Inv(u, s) && Consented(s) && Legal(u, s, events)
    ensures Consented(Run(u, s, events))
    decreases events
  {
    if events != [] {
      StepKeepsConsent(u, s, events[0]);
      StepPreserves(u, s, events[0]);
      RunKeepsConsent(u, Step(u, s, events[0]), events[1..]);
    }
  }

  /** The event in which the issuer accepts the revocation of the job. */
  predicate Accepts(s: State, e: Event, id: JobId) {
    e.RevokeIssuer? && e.ok && e.rid in s.revokers && s.revokers[e.rid].id == id
  }

  predicate AcceptsAlong(u: Unicode, s: State, events: seq<Event>, id: JobId)
    requires Legal(u, s, events)
    decreases events
  {
    events != [] && (Accepts(s, events[0], id) || AcceptsAlong(u, Step(u, s, events[0]), events[1..], id))
  }

  lemma StepAccepts(u: Unicode, s: State, e: Event, id: JobId)
    requires Enabled(s, e)
    ensures id in Step(u, s, e).history.accepted <==> id in s.history.accepted || Accepts(s, e, id)
  {
    if !OfRevoke(e) && !e.Crash? && !e.Boot? { OthersAreQuiet(u, s, e); }
  }

  lemma {:induction false} AcceptedIffEvent(u: Unicode, s: State, events: seq<Event>, id: JobId)
    requires Legal(u, s, events)
    ensures id in Run(u, s, events).history.accepted <==> id in s.history.accepted || AcceptsAlong(u, s, events, id)
    decreases events
  {
    if events != [] {
      StepAccepts(u, s, events[0], id);
      AcceptedIffEvent(u, Step(u, s, events[0]), events[1..], id);
    }
  }

  lemma ReachableConsent(u: Unicode, s: State)
    requires Conforms(u) && Reachable(u, s)
    ensures Consented(s)
  {
    var events :| Legal(u, Initial, events) && s == Run(u, Initial, events);
    InvInitial(u);
    RunKeepsConsent(u, Initial, events);
  }

  /** In every run a job is revoked, in memory or in the state file, only after an event in
      which the issuer has accepted that, and so is every revocation about to commit. */
  lemma RevokedOnlyWithConsent(u: Unicode, events: seq<Event>, id: JobId, rid: nat)
    requires Conforms(u) && Legal(u, Initial, events)
    ensures var s := Run(u, Initial, events);
      && (RevokedIn(s.jobs, id) || RevokedIn(DiskJobs(s), id) ==> AcceptsAlong(u, Initial, events, id))
      && (rid in s.revokers && s.revokers[rid].Committing? ==>
            AcceptsAlong(u, Initial, events, s.revokers[rid].id))
  {
    var s := Run(u, Initial, events);
    ReachableConsent(u, s);
    assert JobConsented(s, id) && CallConsented(s, rid);
    AcceptedIffEvent(u, Initial, events, id);
    if rid in s.revokers { AcceptedIffEvent(u, Initial, events, s.revokers[rid].id); }
  }

  // ------------------------------------------------------- with consent, always

  /** The steps of a call: an issued job goes to reading and then to the issuer. */
  lemma CheckStartsCall(s: State, rid: nat, id: JobId)
    requires s.up && rid !in s.revokers
    ensures var t := RevokeCheckSection(s, rid, id);
      if id in s.jobs && s.jobs[id].status.Issued? then t.revokers == s.revokers[rid := ReadingChain(id)]
      else t == s
  {
  }

  lemma ReadReachesIssuer(u: Unicode, s: State, rid: nat)
    requires Conforms(u) && Reachable(u, s) && Enabled(s, RevokeRead(rid))
    ensures RevokeReadSection(s, rid).revokers == s.revokers[rid := CallingIssuer(s.revokers[rid].id)]
  {
    ReachableInv(u, s);
    var id := s.revokers[rid].id;
    assert RevokerOk(s, rid) && JobOk(u, s, s.jobs, id);
  }

  /** The answer decides: acceptance leaves the commit as the only way on, refusal ends the
      call with every record and the state file as they were. */
  lemma AnswerDecides(u: Unicode, s: State, rid: nat, ok: bool, now: int, saved: bool)
    requires Conforms(u) && Reachable(u, s) && Enabled(s, RevokeIssuer(rid, ok))
    ensures var t := RevokeIssuerSection(s, rid, ok);
      && t.jobs == s.jobs && t.disk == s.disk
      && (Enabled(t, RevokeCommit(rid, now, saved)) <==> ok)
      && (ok ==> t.revokers[rid].id == s.revokers[rid].id)
      && (!ok ==> rid !in t.revokers)
  {
    ReachableInv(u, s);
    assert RevokerOk(s, rid);
  }

  /** The event belongs to this revocation call. */
  predicate OfCall(e: Event, rid: nat) { OfRevoke(e) && e.rid == rid }

  /** A call stands where it is while the others go on. */
  lemma CallStays(u: Unicode, s: State, e: Event, rid: nat)
    requires Enabled(s, e) && !OfCall(e, rid) && !e.Crash? && rid in s.revokers && s.up
    ensures var t := Step(u, s, e); rid in t.revokers && t.revokers[rid] == s.revokers[rid]
  {
    if !OfRevoke(e) { OthersAreQuiet(u, s, e); }
  }

  /** An accepted revocation can commit whatever other events come first, and its commit
      revokes the job. */
  lemma {:induction false} AcceptedIsRevoked(u: Unicode, s: State, rid: nat, events: seq<Event>, now: int, saved: bool)
    requires Conforms(u) && Inv(u, s) && s.up && rid in s.revokers && s.revokers[rid].Committing?
    requires Legal(u, s, events) && NoCrash(events) && forall e | e in events :: !OfCall(e, rid)
    ensures var t, id := Run(u, s, events), s.revokers[rid].id;
      && Enabled(t, RevokeCommit(rid, now, saved))
      && var r := RevokeCommitSection(t, rid, now, saved);
      && RevokedIn(r.jobs, id) && r.jobs[id].revokedAt == Some(now) && (saved ==> RevokedIn(DiskJobs(r), id))
    decreases events
  {
    if events == [] {
      assert RevokerOk(s, rid);
    } else {
      var e := events[0];
      assert e in events && forall x | x in events[1..] :: x in events;
      CallStays(u, s, e, rid);
      EdgesFollow(u, s, e, s.revokers[rid].id);
      StepPreserves(u, s, e);
      AcceptedIsRevoked(u, Step(u, s, e), rid, events[1..], now, saved);
    }
  }

  /** The run from `s` is legal and ends in `t`. */
  ghost predicate Leads(u: Unicode, s: State, events: seq<Event>, t: State) {
    Legal(u, s, events) && Run(u, s, events) == t
  }

  lemma LeadsOn(u: Unicode, s: State, e: Event, events: seq<Event>, t: State)
    requires Enabled(s, e) && Leads(u, Step(u, s, e), events, t)
    ensures Leads(u, s, [e] + events, t)
  {
    assert ([e] + events)[1..] == events;
  }

  lemma LeadsNowhere(u: Unicode, s: State)
    ensures Leads(u, s, [], s)
  {
  }

  /** The events of one call that the issuer accepts. */
  function CallEvents(rid: nat, id: JobId, now: int, saved: bool): seq<Event> {
    [RevokeCheck(rid, id)] + ([RevokeRead(rid)] + ([RevokeIssuer(rid, true)] + ([RevokeCommit(rid, now, saved)] + [])))
  }

  /** On an issued job they can run through, and then the job is revoked. */
  lemma RevocationRunsThrough(u: Unicode, s: State, rid: nat, id: JobId, now: int, saved: bool) returns (t: State)
    requires Conforms(u) && Reachable(u, s) && s.up && rid !in s.revokers && id in s.jobs && s.jobs[id].status.Issued?
    ensures Leads(u, s, CallEvents(rid, id, now, saved), t)
    ensures id in t.jobs && t.jobs == s.jobs[id := t.jobs[id]] && rid !in t.revokers
    ensures IsRevocation(s.jobs[id], t.jobs[id]) && t.jobs[id].revokedAt == Some(now)
  {
    var s1 := RevokeCheckSection(s, rid, id);
    ReachableStep(u, s, RevokeCheck(rid, id));
    t := ReadOn(u, s1, rid, id, now, saved);
    LeadsOn(u, s, RevokeCheck(rid, id),
            [RevokeRead(rid)] + ([RevokeIssuer(rid, true)] + ([RevokeCommit(rid, now, saved)] + [])), t);
  }

  lemma ReadOn(u: Unicode, s: State, rid: nat, id: JobId, now: int, saved: bool) returns (t: State)
    requires Conforms(u) && Reachable(u, s) && s.up && rid in s.revokers && s.revokers[rid] == ReadingChain(id)
    ensures Leads(u, s, [RevokeRead(rid)] + ([RevokeIssuer(rid, true)] + ([RevokeCommit(rid, now, saved)] + [])), t)
    ensures id in s.jobs && id in t.jobs && t.jobs == s.jobs[id := t.jobs[id]] && rid !in t.revokers
    ensures IsRevocation(s.jobs[id], t.jobs[id]) && t.jobs[id].revokedAt == Some(now)
  {
    ReadReachesIssuer(u, s, rid);
    ReachableStep(u, s, RevokeRead(rid));
    t := AskOn(u, RevokeReadSection(s, rid), rid, id, now, saved);
    LeadsOn(u, s, RevokeRead(rid), [RevokeIssuer(rid, true)] + ([RevokeCommit(rid, now, saved)] + []), t);
  }

  lemma AskOn(u: Unicode, s: State, rid: nat, id: JobId, now: int, saved: bool) returns (t: State)
    requires Conforms(u) && Reachable(u, s) && s.up && rid in s.revokers && s.revokers[rid] == CallingIssuer(id)
    ensures Leads(u, s, [RevokeIssuer(rid, true)] + ([RevokeCommit(rid, now, saved)] + []), t)
    ensures id in s.jobs && id in t.jobs && t.jobs == s.jobs[id := t.jobs[id]] && rid !in t.revokers
    ensures IsRevocation(s.jobs[id], t.jobs[id]) && t.jobs[id].revokedAt == Some(now)
  {
    AnswerDecides(u, s, rid, true, now, saved);
    var r := RevokeIssuerSection(s, rid, true);
    CommitRevokes(r, rid, now, saved);
    t := RevokeCommitSection(r, rid, now, saved);
    LeadsNowhere(u, t);
    LeadsOn(u, r, RevokeCommit(rid, now, saved), [], t);
    LeadsOn(u, s, RevokeIssuer(rid, true), [RevokeCommit(rid, now, saved)] + [], t);
  }

  lemma CommitRevokes(s: State, rid: nat, now: int, saved: bool)
    requires rid in s.revokers && s.revokers[rid].id in s.jobs
    ensures var t, id := RevokeCommitSection(s, rid, now, saved), s.revokers[rid].id;
      id in t.jobs && t.jobs == s.jobs[id := t.jobs[id]] && rid !in t.revokers
      && IsRevocation(s.jobs[id], t.jobs[id]) && t.jobs[id].revokedAt == Some(now)
  {
  }
}
