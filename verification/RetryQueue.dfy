// The retry queue for failed deliveries (internal/honeypot/client.go): a bounded
// buffer with a JSON lines file behind it, and a drain in three phases
// (snapshot, delivery without the lock, commit) that runs while other
// goroutines enqueue.

module RetryQueue {
  import opened Outcomes
  import opened BoundedLog

  /** One queued batch of events.  `batch` stands for the events and tells apart
      the calls of DeliverOrQueue they come from. */
  datatype Delivery = Delivery(batch: nat, queuedAt: int, attempts: nat, lastError: string)

  /** How the delivery of one selected entry ends: the context was already
      cancelled, or Deliver succeeded or failed. */
  datatype Outcome = Cancelled | Delivered | Failed(error: string)

  datatype DrainResult = DrainResult(attempted: nat, delivered: nat, retained: nat, dropped: nat)

  // ------------------------------------------------------------ one drain

  /** The second phase after some of the selected entries. */
  datatype Progress = Progress(retained: seq<Delivery>, result: DrainResult)

  const START := Progress([], DrainResult(0, 0, 0, 0))

  function Deliver(p: Progress, delivery: Delivery, outcome: Outcome, maxAttempts: int): Progress {
    match outcome
    case Cancelled => p.(retained := p.retained + [delivery])
    case Delivered =>
      p.(result := p.result.(attempted := p.result.attempted + 1, delivered := p.result.delivered + 1))
    case Failed(error) =>
      var tried := delivery.(attempts := delivery.attempts + 1, lastError := error);
      if maxAttempts > 0 && tried.attempts >= maxAttempts then
        p.(result := p.result.(attempted := p.result.attempted + 1, dropped := p.result.dropped + 1))
      else
        Progress(p.retained + [tried],
                 p.result.(attempted := p.result.attempted + 1, retained := p.result.retained + 1))
  }

  function DeliverAll(selected: seq<Delivery>, outcomes: seq<Outcome>, maxAttempts: int): Progress
    requires |selected| == |outcomes|
  {
    if selected == [] then START
    else
      var n := |selected| - 1;
      Deliver(DeliverAll(selected[..n], outcomes[..n], maxAttempts), selected[n], outcomes[n], maxAttempts)
  }

  function SelectedCount(available: nat, limit: int): nat {
    if limit <= 0 || limit > available then available else limit
  }

  function Committed(entries: seq<Delivery>, selected: nat, retained: seq<Delivery>): seq<Delivery> {
    if |entries| < selected then retained else retained + entries[selected..]
  }

  /** maxAttempts as Client.Drain passes it on. */
  function EffectiveAttempts(configured: int): (m: nat)
    ensures m >= 1
  {
    if configured <= 0 then 5 else configured
  }

  function Cancellations(outcomes: seq<Outcome>): nat {
    if outcomes == [] then 0
    else Cancellations(outcomes[..|outcomes| - 1]) + if outcomes[|outcomes| - 1].Cancelled? then 1 else 0
  }

  /** Every attempt is accounted for once, and the entries kept are those that
      failed below the limit together with those never tried. */
  lemma {:induction false} DrainIsConserved(selected: seq<Delivery>, outcomes: seq<Outcome>, maxAttempts: int)
    requires |selected| == |outcomes|
    ensures var p := DeliverAll(selected, outcomes, maxAttempts);
      && p.result.attempted == p.result.delivered + p.result.retained + p.result.dropped
      && p.result.attempted == |selected| - Cancellations(outcomes)
      && |p.retained| == p.result.retained + Cancellations(outcomes)
      && |p.retained| <= |selected|
  {
    if selected != [] {
      var n := |selected| - 1;
      DrainIsConserved(selected[..n], outcomes[..n], maxAttempts);
    }
  }

  /** What the outcome at a position means for its entry. */
  predicate FailsBelow(d: Delivery, outcome: Outcome, maxAttempts: int) {
    outcome.Failed? && (maxAttempts <= 0 || d.attempts + 1 < maxAttempts)
  }

  predicate FailsAtLimit(d: Delivery, outcome: Outcome, maxAttempts: int) {
    outcome.Failed? && 0 < maxAttempts <= d.attempts + 1
  }

  /** A retained entry: untouched when its turn was cancelled, and with one more attempt and
      the new error when it failed below the limit. */
  predicate KeptAs(before: Delivery, outcome: Outcome, maxAttempts: int, after: Delivery) {
    || (outcome.Cancelled? && after == before)
    || (FailsBelow(before, outcome, maxAttempts)
        && after == before.(attempts := before.attempts + 1, lastError := outcome.error))
  }

  predicate Ascending(positions: seq<nat>) { forall i, j | 0 <= i < j < |positions| :: positions[i] < positions[j] }

  ghost function DeliveredAt(outcomes: seq<Outcome>): set<nat> {
    set i: nat | i < |outcomes| && outcomes[i].Delivered?
  }

  ghost function AttemptedAt(outcomes: seq<Outcome>): set<nat> {
    set i: nat | i < |outcomes| && !outcomes[i].Cancelled?
  }

  ghost function DroppedAt(selected: seq<Delivery>, outcomes: seq<Outcome>, maxAttempts: int): set<nat>
    requires |selected| == |outcomes|
  {
    set i: nat | i < |outcomes| && FailsAtLimit(selected[i], outcomes[i], maxAttempts)
  }

  ghost function FailedBelowAt(selected: seq<Delivery>, outcomes: seq<Outcome>, maxAttempts: int): set<nat>
    requires |selected| == |outcomes|
  {
    set i: nat | i < |outcomes| && FailsBelow(selected[i], outcomes[i], maxAttempts)
  }

  ghost function CancelledAt(outcomes: seq<Outcome>): set<nat> {
    set i: nat | i < |outcomes| && outcomes[i].Cancelled?
  }

  /** The positions retained are, in order, exactly those cancelled and those that failed
      below the limit. */
  ghost predicate RetainedAt(selected: seq<Delivery>, outcomes: seq<Outcome>, maxAttempts: int,
                             retained: seq<Delivery>, positions: seq<nat>)
    requires |selected| == |outcomes|
  {
    && |positions| == |retained| && Ascending(positions)
    && (set i | i in positions) == CancelledAt(outcomes) + FailedBelowAt(selected, outcomes, maxAttempts)
    && forall j {:trigger positions[j]} | 0 <= j < |positions| ::
         positions[j] < |selected| && KeptAs(selected[positions[j]], outcomes[positions[j]], maxAttempts, retained[j])
  }

  function IfThen(holds: bool, n: nat): set<nat> { if holds then {n} else {} }

  lemma PlacesSnoc(selected: seq<Delivery>, outcomes: seq<Outcome>, maxAttempts: int, d: Delivery, o: Outcome)
    requires |selected| == |outcomes|
    ensures var n, s, all := |outcomes|, selected + [d], outcomes + [o];
      && AttemptedAt(all) == AttemptedAt(outcomes) + IfThen(!o.Cancelled?, n)
      && DeliveredAt(all) == DeliveredAt(outcomes) + IfThen(o.Delivered?, n)
      && CancelledAt(all) == CancelledAt(outcomes) + IfThen(o.Cancelled?, n)
      && DroppedAt(s, all, maxAttempts)
         == DroppedAt(selected, outcomes, maxAttempts) + IfThen(FailsAtLimit(d, o, maxAttempts), n)
      && FailedBelowAt(s, all, maxAttempts)
         == FailedBelowAt(selected, outcomes, maxAttempts) + IfThen(FailsBelow(d, o, maxAttempts), n)
  {
  }

  lemma CountSnoc(places: set<nat>, holds: bool, n: nat)
    requires n !in places
    ensures |places + IfThen(holds, n)| == |places| + if holds then 1 else 0
  {
    if holds { assert places + IfThen(holds, n) == places + {n}; } else { assert places + {} == places; }
  }

  lemma AscendingSnoc(positions: seq<nat>, n: nat)
    requires Ascending(positions) && forall j | 0 <= j < |positions| :: positions[j] < n
    ensures Ascending(positions + [n])
    ensures (set i | i in positions + [n]) == (set i | i in positions) + {n}
  {
  }

  lemma RetainedSnoc(selected: seq<Delivery>, outcomes: seq<Outcome>, maxAttempts: int, p: Progress,
                     positions: seq<nat>, d: Delivery, o: Outcome) returns (more: seq<nat>)
    requires |selected| == |outcomes| && RetainedAt(selected, outcomes, maxAttempts, p.retained, positions)
    ensures RetainedAt(selected + [d], outcomes + [o], maxAttempts, Deliver(p, d, o, maxAttempts).retained, more)
  {
    var n, s, all, after := |selected|, selected + [d], outcomes + [o], Deliver(p, d, o, maxAttempts).retained;
    PlacesSnoc(selected, outcomes, maxAttempts, d, o);
    AscendingSnoc(positions, n);
    more := if o.Cancelled? || FailsBelow(d, o, maxAttempts) then positions + [n] else positions;
    assert (set i | i in more) == CancelledAt(all) + FailedBelowAt(s, all, maxAttempts);
    forall j | 0 <= j < |more| ensures more[j] < |s| && KeptAs(s[more[j]], all[more[j]], maxAttempts, after[j]) {
      if j < |positions| { assert more[j] == positions[j] && after[j] == p.retained[j]; }
    }
  }

  /** The counts alone. */
  ghost predicate Counted(selected: seq<Delivery>, outcomes: seq<Outcome>, maxAttempts: int, result: DrainResult)
    requires |selected| == |outcomes|
  {
    && result.attempted == |AttemptedAt(outcomes)|
    && result.delivered == |DeliveredAt(outcomes)|
    && result.dropped == |DroppedAt(selected, outcomes, maxAttempts)|
    && result.retained == |FailedBelowAt(selected, outcomes, maxAttempts)|
  }

  lemma CountedSnoc(selected: seq<Delivery>, outcomes: seq<Outcome>, maxAttempts: int, p: Progress,
                    d: Delivery, o: Outcome)
    requires |selected| == |outcomes| && Counted(selected, outcomes, maxAttempts, p.result)
    ensures Counted(selected + [d], outcomes + [o], maxAttempts, Deliver(p, d, o, maxAttempts).result)
  {
    var n := |selected|;
    PlacesSnoc(selected, outcomes, maxAttempts, d, o);
    CountSnoc(AttemptedAt(outcomes), !o.Cancelled?, n);
    CountSnoc(DeliveredAt(outcomes), o.Delivered?, n);
    CountSnoc(DroppedAt(selected, outcomes, maxAttempts), FailsAtLimit(d, o, maxAttempts), n);
    CountSnoc(FailedBelowAt(selected, outcomes, maxAttempts), FailsBelow(d, o, maxAttempts), n);
  }

  lemma LastApart<T>(s: seq<T>)
    requires s != []
    ensures s == s[..|s| - 1] + [s[|s| - 1]]
  {
  }

  /** Delivered entries leave, failed ones stay until the limit, and the counts say so: the
      positions retained are exactly those cancelled, unchanged, and those that failed below
      the limit, with one more attempt and the new error. */
  lemma {:induction false} DrainAccounts(selected: seq<Delivery>, outcomes: seq<Outcome>, maxAttempts: int)
    returns (positions: seq<nat>)
    requires |selected| == |outcomes|
    ensures var p := DeliverAll(selected, outcomes, maxAttempts);
      && Counted(selected, outcomes, maxAttempts, p.result)
      && RetainedAt(selected, outcomes, maxAttempts, p.retained, positions)
  {
    if selected == [] {
      positions := [];
      NothingAt(maxAttempts);
    } else {
      var n := |selected| - 1;
      var front, early := selected[..n], outcomes[..n];
      var before := DrainAccounts(front, early, maxAttempts);
      positions := AccountsOn(front, early, maxAttempts, before, selected[n], outcomes[n]);
      LastApart(selected);
      LastApart(outcomes);
    }
  }

  lemma NothingAt(maxAttempts: int)
    ensures Counted([], [], maxAttempts, START.result) && RetainedAt([], [], maxAttempts, [], [])
  {
    assert DeliveredAt([]) == {} && AttemptedAt([]) == {} && CancelledAt([]) == {};
    assert DroppedAt([], [], maxAttempts) == {} && FailedBelowAt([], [], maxAttempts) == {};
  }

  lemma AccountsOn(selected: seq<Delivery>, outcomes: seq<Outcome>, maxAttempts: int, positions: seq<nat>,
                   d: Delivery, o: Outcome) returns (more: seq<nat>)
    requires |selected| == |outcomes|
    requires var p := DeliverAll(selected, outcomes, maxAttempts);
      && Counted(selected, outcomes, maxAttempts, p.result)
      && RetainedAt(selected, outcomes, maxAttempts, p.retained, positions)
    ensures var p := Deliver(DeliverAll(selected, outcomes, maxAttempts), d, o, maxAttempts);
      && Counted(selected + [d], outcomes + [o], maxAttempts, p.result)
      && RetainedAt(selected + [d], outcomes + [o], maxAttempts, p.retained, more)
  {
    var p := DeliverAll(selected, outcomes, maxAttempts);
    CountedSnoc(selected, outcomes, maxAttempts, p, d, o);
    more := RetainedSnoc(selected, outcomes, maxAttempts, p, positions, d, o);
  }

  /** While s entries of `old` are being delivered, `more` is enqueued, which trims
      k entries: the commit keeps the retained entries and then everything from
      position s + k on, in order.  The branch for a queue shorter than its
      snapshot is never taken. */
  lemma CommitKeepsTheRest(queued: seq<Delivery>, more: seq<Delivery>, max: nat, s: nat, retained: seq<Delivery>)
    requires s <= |queued| <= max && |retained| <= s
    ensures var k := if |queued| + |more| > max then |queued| + |more| - max else 0;
      var now := PushAll(queued, more, max);
      && s <= |now|
      && Committed(now, s, retained) == retained + (queued + more)[s + k..]
      && |Committed(now, s, retained)| <= max
  {
    PushAllIsLast(queued, more, max);
    var all := queued + more;
    var k := if |all| > max then |all| - max else 0;
    assert LastOf(queued, max) == queued;
    assert LastOf(all, max) == all[k..];
    assert all[k..][s..] == all[s + k..];
  }

  /** Nothing is lost or reordered exactly when the queue did not overflow. */
  lemma CommitLosesNothingIffNoOverflow(queued: seq<Delivery>, more: seq<Delivery>, max: nat, s: nat,
                                        retained: seq<Delivery>)
    requires s <= |queued| <= max && |retained| <= s
    ensures Committed(PushAll(queued, more, max), s, retained) == retained + queued[s..] + more
        <==> |queued| + |more| <= max
  {
    CommitKeepsTheRest(queued, more, max, s, retained);
    var kept := Committed(PushAll(queued, more, max), s, retained);
    assert (queued + more)[s..] == queued[s..] + more;
    if |queued| + |more| > max {
      assert |kept| < |retained + queued[s..] + more|;
    } else {
      assert retained + (queued + more)[s + 0..] == retained + queued[s..] + more;
    }
  }

  // ------------------------------------------------------------ the system

  /** A drain between its snapshot and its commit: `start` is the place of the
      snapshot in the file, `done` the number of entries delivered so far. */
  datatype Drain = Drain(start: nat, selected: seq<Delivery>, done: nat, progress: Progress)

  /** Queue, file and drain, and for the statements about whole runs the batches
      of all delivery attempts in order and the number of interrupted drains. */
  datatype System = System(
    entries: seq<Delivery>, file: seq<Delivery>, max: nat, drain: Option<Drain>,
    next: nat, waiting: set<nat>, tried: seq<nat>, interrupted: nat)

  /** Send is the first attempt of DeliverOrQueue and Queue its call of Enqueue. */
  datatype Event =
    | Send(delivered: bool)
    | Queue(batch: nat, at: int, error: string)
    | Begin(limit: int)
    | Attempt(outcome: Outcome)
    | Commit
    | Restart(max: int)

  function QueueMax(configured: int): (m: nat)
    ensures m >= 1
  {
    if configured <= 0 then 10000 else configured
  }

  predicate Enabled(s: System, e: Event) {
    match e
    case Send(_) => true
    case Queue(b, _, _) => b in s.waiting
    case Begin(_) => s.drain.None?
    case Attempt(_) => s.drain.Some? && s.drain.value.done < |s.drain.value.selected|
    case Commit => s.drain.Some? && s.drain.value.done == |s.drain.value.selected|
    case Restart(_) => true
  }

  function SendStep(s: System, delivered: bool): System {
    s.(tried := s.tried + [s.next], next := s.next + 1,
       waiting := if delivered then s.waiting else s.waiting + {s.next})
  }

  function QueueStep(s: System, b: nat, at: int, error: string): System {
    var d := Delivery(b, at, 1, error);
    s.(entries := Push(s.entries, d, s.max), file := s.file + [d], waiting := s.waiting - {b})
  }

  function BeginStep(s: System, limit: int): System
    requires |s.entries| <= |s.file|
  {
    var count := SelectedCount(|s.entries|, limit);
    s.(drain := Some(Drain(|s.file| - |s.entries|, s.entries[..count], 0, START)))
  }

  function AttemptStep(s: System, outcome: Outcome, maxAttempts: nat): System
    requires Enabled(s, Attempt(outcome))
  {
    var d := s.drain.value;
    var delivery := d.selected[d.done];
    s.(drain := Some(d.(done := d.done + 1, progress := Deliver(d.progress, delivery, outcome, maxAttempts))),
       tried := if outcome.Cancelled? then s.tried else s.tried + [delivery.batch])
  }

  function CommitStep(s: System): System
    requires Enabled(s, Commit)
  {
    var kept := Committed(s.entries, |s.drain.value.selected|, s.drain.value.progress.retained);
    s.(entries := kept, file := kept, drain := None)
  }

  function RestartStep(s: System, max: int): System {
    s.(entries := PushAll([], s.file, QueueMax(max)), max := QueueMax(max), drain := None, waiting := {},
       interrupted := s.interrupted + if s.drain.Some? then 1 else 0)
  }

  function Step(s: System, e: Event, maxAttempts: nat): System
    requires Enabled(s, e) && |s.entries| <= |s.file|
  {
    match e
    case Send(ok) => SendStep(s, ok)
    case Queue(b, at, error) => QueueStep(s, b, at, error)
    case Begin(limit) => BeginStep(s, limit)
    case Attempt(outcome) => AttemptStep(s, outcome, maxAttempts)
    case Commit => CommitStep(s)
    case Restart(max) => RestartStep(s, max)
  }

  function Initial(max: int): System {
    System([], [], QueueMax(max), None, 0, {}, [], 0)
  }

  ghost predicate Reaches(s: System, events: seq<Event>, maxAttempts: nat, t: System)
    decreases |events|
  {
    if events == [] then s == t
    else
      && Enabled(s, events[0]) && |s.entries| <= |s.file|
      && Reaches(Step(s, events[0], maxAttempts), events[1..], maxAttempts, t)
  }

  // ------------------------------------------------------------ the invariant

  function Tries(s: System, batch: nat): nat { multiset(s.tried)[batch] }

  function Larger(a: int, b: int): int { if a > b then a else b }

  predicate EntryOk(d: Delivery, next: nat, waiting: set<nat>, maxAttempts: nat) {
    d.batch < next && d.batch !in waiting && 1 <= d.attempts <= Larger(maxAttempts - 1, 1)
  }

  predicate AllOk(ds: seq<Delivery>, next: nat, waiting: set<nat>, maxAttempts: nat) {
    forall i {:trigger ds[i]} | 0 <= i < |ds| :: EntryOk(ds[i], next, waiting, maxAttempts)
  }

  predicate Distinct(ds: seq<Delivery>) {
    forall i, j {:trigger ds[i], ds[j]} | 0 <= i < j < |ds| :: ds[i].batch != ds[j].batch
  }

  /** Whether the file line i belongs to an entry the current drain has dealt with. */
  predicate DealtWith(drain: Option<Drain>, i: int) {
    drain.Some? && drain.value.start <= i < drain.value.start + drain.value.done
  }

  /** The attempts on record fall behind the attempts made by the drain in flight
      and by drains that never committed, and by no more. */
  predicate OnRecord(tried: seq<nat>, d: Delivery, slack: nat) {
    multiset(tried)[d.batch] <= d.attempts + slack
  }

  predicate FileOnRecord(s: System) {
    forall i {:trigger s.file[i]} | 0 <= i < |s.file| ::
      OnRecord(s.tried, s.file[i], s.interrupted + if DealtWith(s.drain, i) then 1 else 0)
  }

  ghost predicate Bounded(tried: seq<nat>, next: nat, waiting: set<nat>, bound: nat) {
    && (forall b: nat {:trigger multiset(tried)[b]} :: multiset(tried)[b] <= bound)
    && (forall b: nat {:trigger multiset(tried)[b]} | b >= next :: multiset(tried)[b] == 0)
    && (forall b: nat {:trigger multiset(tried)[b]} | b in waiting :: multiset(tried)[b] <= 1)
    && (forall b: nat | b in waiting :: b < next)
  }

  predicate FromSelected(d: Drain, batch: nat)
    requires d.done <= |d.selected|
  {
    exists i {:trigger d.selected[i]} | 0 <= i < d.done :: d.selected[i].batch == batch
  }

  predicate DrainOk(s: System, d: Drain, maxAttempts: nat) {
    && d.done <= |d.selected|
    && d.start + |d.selected| <= |s.file|
    && d.selected == s.file[d.start..d.start + |d.selected|]
    && |d.selected| <= |s.entries| && |s.file| - |s.entries| >= d.start
    && |d.progress.retained| <= d.done
    && AllOk(d.progress.retained, s.next, s.waiting, maxAttempts)
    && Distinct(d.progress.retained)
    && (forall r {:trigger d.progress.retained[r]} | 0 <= r < |d.progress.retained| ::
          && OnRecord(s.tried, d.progress.retained[r], s.interrupted)
          && FromSelected(d, d.progress.retained[r].batch))
  }

  ghost predicate Inv(s: System, maxAttempts: nat) {
    && s.max >= 1
    && s.entries == LastOf(s.file, s.max)
    && Distinct(s.file)
    && AllOk(s.file, s.next, s.waiting, maxAttempts)
    && FileOnRecord(s)
    && Bounded(s.tried, s.next, s.waiting, Larger(maxAttempts, 2) + s.interrupted)
    && (s.drain.Some? ==> DrainOk(s, s.drain.value, maxAttempts))
  }

  lemma TriedGrows(tried: seq<nat>, b: nat)
    ensures forall c: nat :: multiset(tried + [b])[c] == multiset(tried)[c] + if c == b then 1 else 0
  {
  }

  lemma SendPreserves(s: System, delivered: bool, maxAttempts: nat)
    requires Inv(s, maxAttempts) && maxAttempts >= 1
    ensures Inv(SendStep(s, delivered), maxAttempts)
  {
    var t := SendStep(s, delivered);
    TriedGrows(s.tried, s.next);
    assert forall d: Delivery :: EntryOk(d, s.next, s.waiting, maxAttempts) ==>
      EntryOk(d, t.next, t.waiting, maxAttempts);
    assert forall d: Delivery, k: nat :: d.batch < s.next && OnRecord(s.tried, d, k) ==> OnRecord(t.tried, d, k);
    assert AllOk(t.file, t.next, t.waiting, maxAttempts);
    assert FileOnRecord(t);
  }

  lemma QueueKeepsRecords(s: System, b: nat, at: int, error: string, maxAttempts: nat)
    requires Inv(s, maxAttempts) && maxAttempts >= 1 && b in s.waiting
    ensures var t := QueueStep(s, b, at, error);
      && Distinct(t.file) && AllOk(t.file, t.next, t.waiting, maxAttempts) && FileOnRecord(t)
  {
    var t := QueueStep(s, b, at, error);
    var n := |s.file|;
    forall i | 0 <= i < n
      ensures EntryOk(t.file[i], t.next, t.waiting, maxAttempts) && t.file[i].batch != b
      ensures OnRecord(t.tried, t.file[i], t.interrupted + if DealtWith(t.drain, i) then 1 else 0)
    {
      assert t.file[i] == s.file[i];
    }
    assert EntryOk(t.file[n], t.next, t.waiting, maxAttempts);
    assert multiset(s.tried)[b] <= 1;
    assert OnRecord(t.tried, t.file[n], t.interrupted);
  }

  lemma QueueKeepsDrain(s: System, d: Drain, b: nat, at: int, error: string, maxAttempts: nat)
    requires DrainOk(s, d, maxAttempts) && s.entries == LastOf(s.file, s.max)
    requires Push(s.entries, Delivery(b, at, 1, error), s.max)
          == LastOf(s.file + [Delivery(b, at, 1, error)], s.max)
    ensures DrainOk(QueueStep(s, b, at, error), d, maxAttempts)
  {
    var t := QueueStep(s, b, at, error);
    assert t.file[d.start..d.start + |d.selected|] == d.selected;
    forall r | 0 <= r < |d.progress.retained|
      ensures EntryOk(d.progress.retained[r], t.next, t.waiting, maxAttempts)
    {
      assert EntryOk(d.progress.retained[r], s.next, s.waiting, maxAttempts);
    }
  }

  lemma QueuePreserves(s: System, b: nat, at: int, error: string, maxAttempts: nat)
    requires Inv(s, maxAttempts) && maxAttempts >= 1 && b in s.waiting
    ensures Inv(QueueStep(s, b, at, error), maxAttempts)
  {
    PushTracksFile(s.file, Delivery(b, at, 1, error), s.max);
    QueueKeepsRecords(s, b, at, error, maxAttempts);
    if s.drain.Some? { QueueKeepsDrain(s, s.drain.value, b, at, error, maxAttempts); }
  }

  lemma BeginPreserves(s: System, limit: int, maxAttempts: nat)
    requires Inv(s, maxAttempts) && s.drain.None?
    ensures Inv(BeginStep(s, limit), maxAttempts)
  {
    var t := BeginStep(s, limit);
    var d := t.drain.value;
    assert s.entries == s.file[d.start..];
    assert s.entries[..|d.selected|] == s.file[d.start..d.start + |d.selected|];
    assert FileOnRecord(t);
  }

  lemma AttemptKeepsRecords(s: System, outcome: Outcome, maxAttempts: nat)
    requires Distinct(s.file) && FileOnRecord(s) && Enabled(s, Attempt(outcome))
    requires DrainOk(s, s.drain.value, maxAttempts)
    ensures FileOnRecord(AttemptStep(s, outcome, maxAttempts))
  {
    var t := AttemptStep(s, outcome, maxAttempts);
    var d := s.drain.value;
    var at := d.start + d.done;
    TriedGrows(s.tried, s.file[at].batch);
    forall i | 0 <= i < |t.file|
      ensures OnRecord(t.tried, t.file[i], t.interrupted + if DealtWith(t.drain, i) then 1 else 0)
    {
      assert OnRecord(s.tried, s.file[i], s.interrupted + if DealtWith(s.drain, i) then 1 else 0);
      assert i != at ==> s.file[i].batch != s.file[at].batch;
    }
  }

  /** The entry being tried is on record and is not among those already retained. */
  lemma RetainedApart(s: System, d: Drain, maxAttempts: nat, r: int)
    requires Distinct(s.file) && DrainOk(s, d, maxAttempts) && d.done < |d.selected|
    requires 0 <= r < |d.progress.retained|
    ensures d.progress.retained[r].batch != d.selected[d.done].batch
  {
    assert OnRecord(s.tried, d.progress.retained[r], s.interrupted);
    var i :| 0 <= i < d.done && d.selected[i].batch == d.progress.retained[r].batch;
    assert d.selected[i] == s.file[d.start + i] && d.selected[d.done] == s.file[d.start + d.done];
  }

  /** What DrainOk asks of one retained entry. */
  predicate Keeps(s: System, d: Drain, x: Delivery, maxAttempts: nat)
    requires d.done <= |d.selected|
  {
    EntryOk(x, s.next, s.waiting, maxAttempts) && OnRecord(s.tried, x, s.interrupted) && FromSelected(d, x.batch)
  }

  predicate KeepsAll(s: System, d: Drain, xs: seq<Delivery>, maxAttempts: nat)
    requires d.done <= |d.selected|
  {
    Distinct(xs) && forall r {:trigger xs[r]} | 0 <= r < |xs| :: Keeps(s, d, xs[r], maxAttempts)
  }

  lemma EarlierSelected(d: Drain, d': Drain, batch: nat)
    requires d.done <= d'.done <= |d'.selected| && d'.selected == d.selected && FromSelected(d, batch)
    ensures FromSelected(d', batch)
  {
    var i :| 0 <= i < d.done && d.selected[i].batch == batch;
    assert d'.selected[i].batch == batch;
  }

  /** An entry retained before the attempt. */
  lemma KeptBefore(s: System, outcome: Outcome, maxAttempts: nat, r: int)
    requires Distinct(s.file) && Enabled(s, Attempt(outcome)) && DrainOk(s, s.drain.value, maxAttempts)
    requires 0 <= r < |s.drain.value.progress.retained|
    ensures var t, x := AttemptStep(s, outcome, maxAttempts), s.drain.value.progress.retained[r];
      x.batch != s.drain.value.selected[s.drain.value.done].batch && Keeps(t, t.drain.value, x, maxAttempts)
  {
    var d, x := s.drain.value, s.drain.value.progress.retained[r];
    RetainedApart(s, d, maxAttempts, r);
    TriedGrows(s.tried, d.selected[d.done].batch);
    assert OnRecord(s.tried, x, s.interrupted) && FromSelected(d, x.batch);
    EarlierSelected(d, AttemptStep(s, outcome, maxAttempts).drain.value, x.batch);
  }

  /** The entry of the attempt itself, when it is retained. */
  lemma KeptNow(s: System, outcome: Outcome, maxAttempts: nat)
    requires FileOnRecord(s) && AllOk(s.file, s.next, s.waiting, maxAttempts)
    requires maxAttempts >= 1 && Enabled(s, Attempt(outcome)) && DrainOk(s, s.drain.value, maxAttempts)
    ensures var t, d := AttemptStep(s, outcome, maxAttempts), s.drain.value;
      var before, after := d.progress.retained, t.drain.value.progress.retained;
      after == before || (exists x :: after == before + [x] && x.batch == d.selected[d.done].batch
                                      && Keeps(t, t.drain.value, x, maxAttempts))
  {
    var t, d := AttemptStep(s, outcome, maxAttempts), s.drain.value;
    var e, after := d.selected[d.done], t.drain.value.progress.retained;
    assert e == s.file[d.start + d.done];
    assert OnRecord(s.tried, e, s.interrupted) && EntryOk(e, s.next, s.waiting, maxAttempts);
    TriedGrows(s.tried, e.batch);
    assert t.drain.value.selected[d.done].batch == e.batch;
    if after != d.progress.retained {
      var x := after[|after| - 1];
      assert after == d.progress.retained + [x] && Keeps(t, t.drain.value, x, maxAttempts);
    }
  }

  lemma KeepsOneMore(s: System, d: Drain, before: seq<Delivery>, x: Delivery, maxAttempts: nat)
    requires d.done <= |d.selected| && KeepsAll(s, d, before, maxAttempts) && Keeps(s, d, x, maxAttempts)
    requires forall r {:trigger before[r]} | 0 <= r < |before| :: before[r].batch != x.batch
    ensures KeepsAll(s, d, before + [x], maxAttempts)
  {
  }

  lemma AttemptKeepsDrain(s: System, outcome: Outcome, maxAttempts: nat)
    requires Distinct(s.file) && FileOnRecord(s) && AllOk(s.file, s.next, s.waiting, maxAttempts)
    requires maxAttempts >= 1 && Enabled(s, Attempt(outcome)) && DrainOk(s, s.drain.value, maxAttempts)
    ensures var t := AttemptStep(s, outcome, maxAttempts); DrainOk(t, t.drain.value, maxAttempts)
  {
    var t, d := AttemptStep(s, outcome, maxAttempts), s.drain.value;
    var before, after := d.progress.retained, t.drain.value.progress.retained;
    forall r | 0 <= r < |before|
      ensures before[r].batch != d.selected[d.done].batch && Keeps(t, t.drain.value, before[r], maxAttempts)
    {
      KeptBefore(s, outcome, maxAttempts, r);
    }
    KeptNow(s, outcome, maxAttempts);
    if after != before {
      KeepsOneMore(t, t.drain.value, before, after[|before|], maxAttempts);
    }
    DrainStays(s, t, maxAttempts);
  }

  /** The drain has dealt with one more entry and keeps what it may keep. */
  lemma DrainStays(s: System, t: System, maxAttempts: nat)
    requires s.drain.Some? && t.drain.Some? && DrainOk(s, s.drain.value, maxAttempts)
    requires t.file == s.file && t.entries == s.entries
    requires var d, d' := s.drain.value, t.drain.value;
      && d'.start == d.start && d'.selected == d.selected && d'.done == d.done + 1 <= |d.selected|
      && |d'.progress.retained| <= d'.done && KeepsAll(t, d', d'.progress.retained, maxAttempts)
    ensures DrainOk(t, t.drain.value, maxAttempts)
  {
  }

  lemma AttemptPreserves(s: System, outcome: Outcome, maxAttempts: nat)
    requires Inv(s, maxAttempts) && maxAttempts >= 1 && Enabled(s, Attempt(outcome))
    ensures Inv(AttemptStep(s, outcome, maxAttempts), maxAttempts)
  {
    var d := s.drain.value;
    var e := s.file[d.start + d.done];
    assert e == d.selected[d.done];
    assert OnRecord(s.tried, e, s.interrupted) && EntryOk(e, s.next, s.waiting, maxAttempts);
    TriedGrows(s.tried, e.batch);
    AttemptKeepsRecords(s, outcome, maxAttempts);
    AttemptKeepsDrain(s, outcome, maxAttempts);
  }

  /** A drain commits the retained entries and the end of the file that was neither
      selected nor trimmed. */
  lemma CommitForm(s: System, maxAttempts: nat)
    requires s.entries == LastOf(s.file, s.max) && Enabled(s, Commit) && DrainOk(s, s.drain.value, maxAttempts)
    ensures |s.file| - |s.entries| + |s.drain.value.selected| <= |s.file|
    ensures CommitStep(s).file
         == s.drain.value.progress.retained + s.file[|s.file| - |s.entries| + |s.drain.value.selected|..]
  {
    var n := |s.file| - |s.entries|;
    assert s.entries == s.file[n..];
    assert s.file[n..][|s.drain.value.selected|..] == s.file[n + |s.drain.value.selected|..];
  }

  /** The end of the file that a commit keeps. */
  lemma RestIsOk(s: System, from: nat, maxAttempts: nat)
    requires Distinct(s.file) && AllOk(s.file, s.next, s.waiting, maxAttempts) && FileOnRecord(s)
    requires from <= |s.file| && s.drain.Some? && s.drain.value.start + s.drain.value.done <= from
    ensures var rest := s.file[from..];
      && Distinct(rest) && AllOk(rest, s.next, s.waiting, maxAttempts)
      && forall i {:trigger rest[i]} | 0 <= i < |rest| :: OnRecord(s.tried, rest[i], s.interrupted)
  {
    var rest := s.file[from..];
    forall i | 0 <= i < |rest|
      ensures EntryOk(rest[i], s.next, s.waiting, maxAttempts) && OnRecord(s.tried, rest[i], s.interrupted)
    {
      assert rest[i] == s.file[from + i];
    }
    forall i, j | 0 <= i < j < |rest| ensures rest[i].batch != rest[j].batch {
      assert rest[i] == s.file[from + i] && rest[j] == s.file[from + j];
    }
  }

  /** No retained entry occurs behind the selected ones. */
  lemma RestIsApart(s: System, d: Drain, maxAttempts: nat, from: nat, r: int, i: int)
    requires Distinct(s.file) && DrainOk(s, d, maxAttempts) && d.start + d.done <= from
    requires 0 <= r < |d.progress.retained| && from <= i < |s.file|
    ensures d.progress.retained[r].batch != s.file[i].batch
  {
    assert OnRecord(s.tried, d.progress.retained[r], s.interrupted);
    var k :| 0 <= k < d.done && d.selected[k].batch == d.progress.retained[r].batch;
    assert d.selected[k] == s.file[d.start + k];
  }

  lemma CommitPreserves(s: System, maxAttempts: nat)
    requires Inv(s, maxAttempts) && Enabled(s, Commit)
    ensures Inv(CommitStep(s), maxAttempts)
  {
    CommitForm(s, maxAttempts);
    var t, d := CommitStep(s), s.drain.value;
    var from := |s.file| - |s.entries| + |d.selected|;
    var kept, rest := d.progress.retained, s.file[from..];
    RestIsOk(s, from, maxAttempts);
    forall r, i | 0 <= r < |kept| && 0 <= i < |rest| ensures kept[r].batch != rest[i].batch {
      RestIsApart(s, d, maxAttempts, from, r, from + i);
    }
    Concatenated(s, kept, rest, maxAttempts);
    CommittedOk(s, t, maxAttempts);
  }

  lemma CommittedOk(s: System, t: System, maxAttempts: nat)
    requires Inv(s, maxAttempts) && t == s.(entries := t.file, file := t.file, drain := None)
    requires |t.file| <= s.max && Distinct(t.file) && AllOk(t.file, s.next, s.waiting, maxAttempts)
    requires forall r {:trigger t.file[r]} | 0 <= r < |t.file| :: OnRecord(s.tried, t.file[r], s.interrupted)
    ensures Inv(t, maxAttempts)
  {
    assert FileOnRecord(t);
  }

  lemma Concatenated(s: System, a: seq<Delivery>, b: seq<Delivery>, maxAttempts: nat)
    requires Distinct(a) && Distinct(b) && AllOk(a, s.next, s.waiting, maxAttempts)
    requires AllOk(b, s.next, s.waiting, maxAttempts)
    requires forall r, i {:trigger a[r], b[i]} | 0 <= r < |a| && 0 <= i < |b| :: a[r].batch != b[i].batch
    requires forall r {:trigger a[r]} | 0 <= r < |a| :: OnRecord(s.tried, a[r], s.interrupted)
    requires forall r {:trigger b[r]} | 0 <= r < |b| :: OnRecord(s.tried, b[r], s.interrupted)
    ensures Distinct(a + b) && AllOk(a + b, s.next, s.waiting, maxAttempts)
    ensures forall r {:trigger (a + b)[r]} | 0 <= r < |a + b| :: OnRecord(s.tried, (a + b)[r], s.interrupted)
  {
  }

  lemma RestartPreserves(s: System, max: int, maxAttempts: nat)
    requires Inv(s, maxAttempts)
    ensures Inv(RestartStep(s, max), maxAttempts)
  {
    var t := RestartStep(s, max);
    LoadedIsLast(s.file, QueueMax(max));
    assert FileOnRecord(t);
  }

  lemma StepPreserves(s: System, e: Event, maxAttempts: nat)
    requires Inv(s, maxAttempts) && maxAttempts >= 1 && Enabled(s, e)
    ensures Inv(Step(s, e, maxAttempts), maxAttempts)
  {
    match e
    case Send(ok) => SendPreserves(s, ok, maxAttempts);
    case Queue(b, at, error) => QueuePreserves(s, b, at, error, maxAttempts);
    case Begin(limit) => BeginPreserves(s, limit, maxAttempts);
    case Attempt(outcome) => AttemptPreserves(s, outcome, maxAttempts);
    case Commit => CommitPreserves(s, maxAttempts);
    case Restart(max) => RestartPreserves(s, max, maxAttempts);
  }

  lemma {:induction false} RunPreserves(s: System, events: seq<Event>, maxAttempts: nat, t: System)
    requires Inv(s, maxAttempts) && maxAttempts >= 1 && Reaches(s, events, maxAttempts, t)
    ensures Inv(t, maxAttempts)
    decreases |events|
  {
    if events != [] {
      StepPreserves(s, events[0], maxAttempts);
      RunPreserves(Step(s, events[0], maxAttempts), events[1..], maxAttempts, t);
    }
  }

  // ------------------------------------------------------------ whole runs

  /** In every run the queue stays within its bound and equals the end of its
      file, and no batch is queued twice.  A batch is tried at most max(M, 2) times,
      and once more for every drain that a restart cut off before its commit. */
  lemma RunIsBounded(max: int, events: seq<Event>, configured: int, t: System, batch: nat)
    requires Reaches(Initial(max), events, EffectiveAttempts(configured), t)
    ensures |t.entries| <= t.max && t.entries == LastOf(t.file, t.max) && Distinct(t.file)
    ensures Tries(t, batch) <= Larger(EffectiveAttempts(configured), 2) + t.interrupted
  {
    RunPreserves(Initial(max), events, EffectiveAttempts(configured), t);
  }

  // ------------------------------------------- a drain among other goroutines

  predicate BesideDrain(events: seq<Event>) {
    forall e | e in events :: e.Send? || e.Queue? || e.Attempt?
  }

  function OutcomesOf(events: seq<Event>): seq<Outcome> {
    if events == [] then []
    else Seen(events[0]) + OutcomesOf(events[1..])
  }

  function Seen(e: Event): seq<Outcome> { if e.Attempt? then [e.outcome] else [] }

  /** The drain in flight works on `selected` and has seen these outcomes. */
  predicate Has(drain: Option<Drain>, selected: seq<Delivery>, outcomes: seq<Outcome>, maxAttempts: nat) {
    && drain.Some? && drain.value.selected == selected
    && drain.value.done == |outcomes| <= |selected|
    && drain.value.progress == DeliverAll(selected[..|outcomes|], outcomes, maxAttempts)
  }

  lemma OneOutcome(s: System, outcome: Outcome, maxAttempts: nat,
                   selected: seq<Delivery>, outcomes: seq<Outcome>)
    requires Has(s.drain, selected, outcomes, maxAttempts) && Enabled(s, Attempt(outcome))
    ensures Has(AttemptStep(s, outcome, maxAttempts).drain, selected, outcomes + [outcome], maxAttempts)
  {
    var n := |outcomes|;
    assert selected[..n + 1][..n] == selected[..n];
    assert (outcomes + [outcome])[..n] == outcomes;
  }

  lemma BesideStep(s: System, e: Event, maxAttempts: nat, selected: seq<Delivery>, outcomes: seq<Outcome>)
    requires Enabled(s, e) && |s.entries| <= |s.file| && (e.Send? || e.Queue? || e.Attempt?)
    requires Has(s.drain, selected, outcomes, maxAttempts)
    ensures var t := Step(s, e, maxAttempts);
      && s.file <= t.file && t.max == s.max
      && Has(t.drain, selected, outcomes + Seen(e), maxAttempts)
  {
    assert outcomes + [] == outcomes;
    if e.Attempt? { OneOutcome(s, e.outcome, maxAttempts, selected, outcomes); }
  }

  lemma Reassociate(a: seq<Outcome>, b: seq<Outcome>, c: seq<Outcome>)
    ensures a + b + c == a + (b + c)
  {
  }

  lemma {:induction false} DrainInFlight(s: System, events: seq<Event>, maxAttempts: nat, t: System,
                                         selected: seq<Delivery>, outcomes: seq<Outcome>)
    requires BesideDrain(events) && Reaches(s, events, maxAttempts, t)
    requires Has(s.drain, selected, outcomes, maxAttempts)
    ensures s.file <= t.file && t.max == s.max
    ensures Has(t.drain, selected, outcomes + OutcomesOf(events), maxAttempts)
    decreases |events|
  {
    if events == [] {
      assert outcomes + OutcomesOf(events) == outcomes;
    } else {
      var e, rest := events[0], events[1..];
      assert e in events;
      assert BesideDrain(rest) by { assert forall x | x in rest :: x in events; }
      BesideStep(s, e, maxAttempts, selected, outcomes);
      DrainInFlight(Step(s, e, maxAttempts), rest, maxAttempts, t, selected, outcomes + Seen(e));
      Reassociate(outcomes, Seen(e), OutcomesOf(rest));
    }
  }

  /** The end of the queue behind the snapshot, seen from the moment of the snapshot. */
  lemma RestOfQueue(file: seq<Delivery>, before: seq<Delivery>, max: nat, n: nat)
    requires before <= file && n <= |LastOf(before, max)|
    ensures var all := LastOf(before, max) + file[|before|..];
      var k := if |all| > max then |all| - max else 0;
      && n <= |LastOf(file, max)| && n + k <= |all|
      && LastOf(file, max)[n..] == all[n + k..]
  {
    var was := LastOf(before, max);
    var all := was + file[|before|..];
    var k := if |all| > max then |all| - max else 0;
    assert file == before + file[|before|..];
    assert before == before[..|before| - |was|] + was;
    assert file[|before| - |was|..] == all;
    assert LastOf(file, max) == all[k..];
    assert all[k..][n..] == all[n + k..];
  }

  /** The commit in t of a drain whose snapshot was taken in s: if the file has grown by
      `more` and this trimmed k entries, the queue and the file become what the drain
      retained, followed by the snapshot queue and `more` from position |selected| + k on. */
  predicate CommitsTo(s: System, t: System, selected: seq<Delivery>, retained: seq<Delivery>)
    requires Enabled(t, Commit)
  {
    && s.file <= t.file
    && var all := s.entries + t.file[|s.file|..];
    && var k := if |all| > s.max then |all| - s.max else 0;
    && |selected| + k <= |all|
    && CommitStep(t).entries == retained + all[|selected| + k..]
    && CommitStep(t).file == CommitStep(t).entries
    && |CommitStep(t).entries| <= s.max
  }

  /** A drain with any number of enqueues between its snapshot and its commit. */
  lemma DrainCommits(s: System, limit: int, events: seq<Event>, maxAttempts: nat, t: System)
    requires Inv(s, maxAttempts) && maxAttempts >= 1 && s.drain.None? && BesideDrain(events)
    requires Reaches(BeginStep(s, limit), events, maxAttempts, t) && Enabled(t, Commit)
    ensures |OutcomesOf(events)| == SelectedCount(|s.entries|, limit)
    ensures var selected := s.entries[..SelectedCount(|s.entries|, limit)];
      CommitsTo(s, t, selected, DeliverAll(selected, OutcomesOf(events), maxAttempts).retained)
  {
    var selected := s.entries[..SelectedCount(|s.entries|, limit)];
    BeginHas(s, limit, maxAttempts);
    DrainInFlight(BeginStep(s, limit), events, maxAttempts, t, selected, []);
    assert [] + OutcomesOf(events) == OutcomesOf(events);
    QueueInRun(s, limit, events, maxAttempts, t);
    FinalCommit(s, t, selected, OutcomesOf(events), maxAttempts);
  }

  lemma FinalCommit(s: System, t: System, selected: seq<Delivery>, outcomes: seq<Outcome>, maxAttempts: nat)
    requires s.entries == LastOf(s.file, s.max) && t.entries == LastOf(t.file, t.max)
    requires s.file <= t.file && t.max == s.max && selected <= s.entries
    requires Has(t.drain, selected, outcomes, maxAttempts) && Enabled(t, Commit)
    ensures |outcomes| == |selected|
    ensures CommitsTo(s, t, selected, DeliverAll(selected, outcomes, maxAttempts).retained)
  {
    RestOfQueue(t.file, s.file, s.max, |selected|);
    CommitOf(t, selected, outcomes, maxAttempts);
  }

  lemma BeginHas(s: System, limit: int, maxAttempts: nat)
    requires |s.entries| <= |s.file|
    ensures Has(BeginStep(s, limit).drain, s.entries[..SelectedCount(|s.entries|, limit)], [], maxAttempts)
  {
  }

  lemma QueueInRun(s: System, limit: int, events: seq<Event>, maxAttempts: nat, t: System)
    requires Inv(s, maxAttempts) && maxAttempts >= 1 && s.drain.None?
    requires Reaches(BeginStep(s, limit), events, maxAttempts, t)
    ensures t.entries == LastOf(t.file, t.max)
  {
    BeginPreserves(s, limit, maxAttempts);
    RunPreserves(BeginStep(s, limit), events, maxAttempts, t);
  }

  lemma CommitOf(t: System, selected: seq<Delivery>, outcomes: seq<Outcome>, maxAttempts: nat)
    requires Has(t.drain, selected, outcomes, maxAttempts) && Enabled(t, Commit)
    requires |selected| <= |t.entries| <= t.max
    ensures |outcomes| == |selected|
    ensures CommitStep(t).entries == CommitStep(t).file
         == DeliverAll(selected, outcomes, maxAttempts).retained + t.entries[|selected|..]
    ensures |CommitStep(t).entries| <= t.max
  {
    assert selected[..|selected|] == selected;
    DrainIsConserved(selected, outcomes, maxAttempts);
  }

  // ------------------------------------------------------------ the class

  class FailedQueue {
    var entries: seq<Delivery>
    const max: nat
    const persistent: bool
    var file: seq<Delivery>

    ghost predicate Valid()
      reads this
    {
      |entries| <= max && (persistent ==> entries == LastOf(file, max))
    }

    /** NewFailedQueue and load; without a path the file stays empty. */
    constructor (configured: int, persistent: bool, file: seq<Delivery>)
      ensures Valid() && this.persistent == persistent && this.file == file
      ensures max == QueueMax(configured)
      ensures entries == if persistent then LastOf(file, max) else []
    {
      max := QueueMax(configured);
      this.persistent := persistent;
      this.file := file;
      entries := [];
      new;
      if persistent {
        for i := 0 to |file|
          invariant max == QueueMax(configured) && this.persistent == persistent && this.file == file
          invariant entries == PushAll([], file[..i], max)
        {
          assert file[..i + 1][..i] == file[..i];
          entries := entries + [file[i]];
          if |entries| > max {
            entries := MoveDown(entries, |entries| - max);
            entries := entries[..max];
          }
        }
        assert file[..|file|] == file;
        LoadedIsLast(file, max);
      }
    }

    /** A delivery without a time (zero) is stamped with `now`. */
    method Enqueue(delivery: Delivery, now: int)
      requires Valid()
      modifies this
      ensures Valid()
      ensures var stamped := if delivery.queuedAt == 0 then delivery.(queuedAt := now) else delivery;
        && entries == Push(old(entries), stamped, max)
        && file == if persistent then old(file) + [stamped] else old(file)
    {
      ghost var before := file;
      var stamped := delivery;
      if stamped.queuedAt == 0 {
        stamped := stamped.(queuedAt := now);
      }
      entries := entries + [stamped];
      if |entries| > max {
        entries := MoveDown(entries, |entries| - max);
        entries := entries[..max];
      }
      if persistent {
        file := file + [stamped];
        PushTracksFile(before, stamped, max);
      }
    }

    method Snapshot(limit: int) returns (selected: seq<Delivery>)
      ensures selected == entries[..SelectedCount(|entries|, limit)]
    {
      var count := limit;
      if count <= 0 || count > |entries| {
        count := |entries|;
      }
      selected := entries[..count];
    }

    method Commit(selected: nat, retained: seq<Delivery>)
      requires Valid() && |retained| <= selected <= max
      modifies this
      ensures Valid() && entries == Committed(old(entries), selected, retained)
      ensures file == if persistent then entries else old(file)
    {
      if |entries| < selected {
        entries := retained;
      } else {
        entries := retained + entries[selected..];
      }
      if persistent {
        file := entries;
      }
    }

    /** A drain that no other goroutine interrupts. */
    method Drain(limit: int, maxAttempts: int, outcomes: seq<Outcome>) returns (result: DrainResult)
      requires Valid() && |outcomes| == SelectedCount(|entries|, limit)
      modifies this
      ensures Valid()
      ensures var n := SelectedCount(|old(entries)|, limit);
        var p := DeliverAll(old(entries)[..n], outcomes, maxAttempts);
        && result == p.result
        && entries == p.retained + old(entries)[n..]
        && file == if persistent then entries else old(file)
    {
      var selected := Snapshot(limit);
      var retained;
      retained, result := DeliverSelected(selected, outcomes, maxAttempts);
      DrainIsConserved(selected, outcomes, maxAttempts);
      Commit(|selected|, retained);
    }
  }

  /** The delivery loop, outside the lock. */
  method DeliverSelected(selected: seq<Delivery>, outcomes: seq<Outcome>, maxAttempts: int)
    returns (retained: seq<Delivery>, result: DrainResult)
    requires |selected| == |outcomes|
    ensures Progress(retained, result) == DeliverAll(selected, outcomes, maxAttempts)
    ensures result.attempted == result.delivered + result.retained + result.dropped
  {
    retained, result := [], DrainResult(0, 0, 0, 0);
    for i := 0 to |selected|
      invariant Progress(retained, result) == DeliverAll(selected[..i], outcomes[..i], maxAttempts)
    {
      assert selected[..i + 1][..i] == selected[..i] && outcomes[..i + 1][..i] == outcomes[..i];
      var delivery := selected[i];
      if outcomes[i].Cancelled? {
        retained := retained + [delivery];
        continue;
      }
      delivery := delivery.(attempts := delivery.attempts + 1);
      result := result.(attempted := result.attempted + 1);
      if outcomes[i].Delivered? {
        result := result.(delivered := result.delivered + 1);
        continue;
      }
      delivery := delivery.(lastError := outcomes[i].error);
      if maxAttempts > 0 && delivery.attempts >= maxAttempts {
        result := result.(dropped := result.dropped + 1);
        continue;
      }
      result := result.(retained := result.retained + 1);
      retained := retained + [delivery];
    }
    assert selected[..|selected|] == selected && outcomes[..|selected|] == outcomes;
    DrainIsConserved(selected, outcomes, maxAttempts);
  }
}
