// How often a batch is tried over whole runs of the retry queue
// (internal/honeypot/client.go): the bound of RetryQueue.RunIsBounded is exact.

module RetryBounds {
  import opened Outcomes
  import opened BoundedLog
  import opened RetryQueue

  /** Some run from the empty queue leads to the state. */
  ghost predicate Reached(max: int, maxAttempts: nat, t: System) {
    exists events :: Reaches(Initial(max), events, maxAttempts, t)
  }

  lemma {:induction false} ReachesSnoc(s: System, events: seq<Event>, maxAttempts: nat, t: System, e: Event)
    requires Reaches(s, events, maxAttempts, t) && Enabled(t, e) && |t.entries| <= |t.file|
    ensures Reaches(s, events + [e], maxAttempts, Step(t, e, maxAttempts))
    decreases |events|
  {
    if events == [] {
      assert [e][1..] == [];
      assert [] + [e] == [e];
    } else {
      assert (events + [e])[1..] == events[1..] + [e];
      ReachesSnoc(Step(s, events[0], maxAttempts), events[1..], maxAttempts, t, e);
    }
  }

  lemma ReachedInv(max: int, maxAttempts: nat, s: System)
    requires maxAttempts >= 1 && Reached(max, maxAttempts, s)
    ensures Inv(s, maxAttempts)
  {
    var events :| Reaches(Initial(max), events, maxAttempts, s);
    RunPreserves(Initial(max), events, maxAttempts, s);
  }

  lemma ReachedStep(max: int, maxAttempts: nat, s: System, e: Event)
    requires maxAttempts >= 1 && Reached(max, maxAttempts, s) && Enabled(s, e)
    ensures |s.entries| <= |s.file| && Reached(max, maxAttempts, Step(s, e, maxAttempts))
  {
    ReachedInv(max, maxAttempts, s);
    var events :| Reaches(Initial(max), events, maxAttempts, s);
    ReachesSnoc(Initial(max), events, maxAttempts, s, e);
  }

  // --------------------------------------------------------- one failing batch

  /** The entry of a batch after `a` attempts on record. */
  function Refused(a: nat): Delivery { Delivery(0, 7, a, "") }

  function Zeros(n: nat): (zeros: seq<nat>)
    ensures |zeros| == n
  {
    if n == 0 then [] else Zeros(n - 1) + [0]
  }

  lemma {:induction false} ZerosCount(n: nat)
    ensures multiset(Zeros(n))[0] == n
  {
    if n > 0 { ZerosCount(n - 1); }
  }

  /** Only this batch in the queue, with `a` attempts on record, `n` attempts made and
      `k` drains cut off. */
  function Alone(max: int, a: nat, n: nat, k: nat): System {
    System([Refused(a)], [Refused(a)], QueueMax(max), None, 1, {}, Zeros(n), k)
  }

  /** A drain of it that has made its one attempt, without success. */
  function TriedAgain(max: int, a: nat, n: nat, k: nat, maxAttempts: nat): System {
    var p := Deliver(START, Refused(a), Failed(""), maxAttempts);
    Alone(max, a, n + 1, k).(drain := Some(Drain(0, [Refused(a)], 1, p)))
  }

  lemma AloneReached(max: int, maxAttempts: nat)
    requires maxAttempts >= 1
    ensures Reached(max, maxAttempts, Alone(max, 1, 1, 0))
  {
    var s := Initial(max);
    assert Reaches(s, [], maxAttempts, s);
    ReachedStep(max, maxAttempts, s, Send(false));
    var sent := SendStep(s, false);
    ReachedStep(max, maxAttempts, sent, Queue(0, 7, ""));
    assert Push([], Refused(1), QueueMax(max)) == [Refused(1)];
    assert sent.waiting == {0} && {0} - {0} == {};
    assert Zeros(1) == Zeros(0) + [0];
    assert QueueStep(sent, 0, 7, "") == Alone(max, 1, 1, 0);
  }

  lemma TriedAgainReached(max: int, a: nat, n: nat, k: nat, maxAttempts: nat)
    requires maxAttempts >= 1 && Reached(max, maxAttempts, Alone(max, a, n, k))
    ensures Reached(max, maxAttempts, TriedAgain(max, a, n, k, maxAttempts))
  {
    var s := Alone(max, a, n, k);
    ReachedStep(max, maxAttempts, s, Begin(0));
    var t := BeginStep(s, 0);
    assert t.drain.value.selected == [Refused(a)];
    ReachedStep(max, maxAttempts, t, Attempt(Failed("")));
    assert AttemptStep(t, Failed(""), maxAttempts) == TriedAgain(max, a, n, k, maxAttempts);
  }

  /** Below the limit the commit puts one more attempt on record. */
  lemma OneMoreOnRecord(max: int, a: nat, n: nat, k: nat, maxAttempts: nat)
    requires maxAttempts >= 1 && Reached(max, maxAttempts, Alone(max, a, n, k)) && a + 1 < maxAttempts
    ensures Reached(max, maxAttempts, Alone(max, a + 1, n + 1, k))
  {
    TriedAgainReached(max, a, n, k, maxAttempts);
    var t := TriedAgain(max, a, n, k, maxAttempts);
    ReachedStep(max, maxAttempts, t, Commit);
    assert Committed([Refused(a)], 1, [Refused(a + 1)]) == [Refused(a + 1)];
    assert CommitStep(t) == Alone(max, a + 1, n + 1, k);
  }

  /** A restart before the commit forgets the attempt. */
  lemma OneMoreCutOff(max: int, a: nat, n: nat, k: nat, maxAttempts: nat)
    requires maxAttempts >= 1 && Reached(max, maxAttempts, Alone(max, a, n, k))
    ensures Reached(max, maxAttempts, Alone(max, a, n + 1, k + 1))
  {
    TriedAgainReached(max, a, n, k, maxAttempts);
    var t := TriedAgain(max, a, n, k, maxAttempts);
    ReachedStep(max, maxAttempts, t, Restart(max));
    LoadedIsLast([Refused(a)], QueueMax(max));
    assert RestartStep(t, max) == Alone(max, a, n + 1, k + 1);
  }

  lemma {:induction false} OnRecordReached(max: int, a: nat, maxAttempts: nat)
    requires maxAttempts >= 1 && 1 <= a <= Larger(maxAttempts - 1, 1)
    ensures Reached(max, maxAttempts, Alone(max, a, a, 0))
  {
    if a == 1 {
      AloneReached(max, maxAttempts);
    } else {
      OnRecordReached(max, a - 1, maxAttempts);
      OneMoreOnRecord(max, a - 1, a - 1, 0, maxAttempts);
    }
  }

  lemma {:induction false} CutOffReached(max: int, a: nat, k: nat, maxAttempts: nat)
    requires maxAttempts >= 1 && 1 <= a <= Larger(maxAttempts - 1, 1)
    ensures Reached(max, maxAttempts, Alone(max, a, a + k, k))
  {
    if k == 0 {
      OnRecordReached(max, a, maxAttempts);
    } else {
      CutOffReached(max, a, k - 1, maxAttempts);
      OneMoreCutOff(max, a, a + (k - 1), k - 1, maxAttempts);
    }
  }

  // ------------------------------------------------------------ the exact bound

  /** For every capacity, every limit M and every number k of drains cut off, a run with
      exactly k of them tries a batch exactly max(M, 2) + k times. */
  lemma BoundIsAttained(max: int, maxAttempts: nat, k: nat) returns (events: seq<Event>, t: System)
    requires maxAttempts >= 1
    ensures Reaches(Initial(max), events, maxAttempts, t)
    ensures t.interrupted == k && Tries(t, 0) == Larger(maxAttempts, 2) + k
  {
    var a := Larger(maxAttempts - 1, 1);
    CutOffReached(max, a, k, maxAttempts);
    TriedAgainReached(max, a, a + k, k, maxAttempts);
    t := TriedAgain(max, a, a + k, k, maxAttempts);
    ZerosCount(a + k + 1);
    events :| Reaches(Initial(max), events, maxAttempts, t);
  }

  /** Some run with exactly k drains cut off tries a batch more than `bound` times. */
  ghost predicate Exceeds(max: int, maxAttempts: nat, k: nat, bound: nat) {
    exists t, batch: nat {:trigger Reached(max, maxAttempts, t), Tries(t, batch)} ::
      Reached(max, maxAttempts, t) && t.interrupted == k && Tries(t, batch) > bound
  }

  /** max(M, 2) + k is the least bound there is. */
  lemma BoundIsExact(max: int, configured: int, k: nat, bound: nat)
    ensures Exceeds(max, EffectiveAttempts(configured), k, bound)
        <==> bound < Larger(EffectiveAttempts(configured), 2) + k
  {
    var m := EffectiveAttempts(configured);
    if bound < Larger(m, 2) + k {
      var events, t := BoundIsAttained(max, m, k);
      assert Reached(max, m, t) && Tries(t, 0) > bound;
    }
    if Exceeds(max, m, k, bound) {
      var t, batch: nat :| Reached(max, m, t) && t.interrupted == k && Tries(t, batch) > bound;
      var events :| Reaches(Initial(max), events, m, t);
      RunIsBounded(max, events, configured, t, batch);
    }
  }

  /** So every batch stays within max(M, 2) exactly when no drain is cut off ... */
  lemma WithinLimitIffUninterrupted(max: int, configured: int, k: nat)
    ensures !Exceeds(max, EffectiveAttempts(configured), k, Larger(EffectiveAttempts(configured), 2)) <==> k == 0
  {
    BoundIsExact(max, configured, k, Larger(EffectiveAttempts(configured), 2));
  }

  /** ... and without that the limit itself is passed exactly when it is one, because the
      attempt before queueing is not compared with it. */
  lemma LimitIsPassedIffOne(max: int, configured: int)
    ensures Exceeds(max, EffectiveAttempts(configured), 0, EffectiveAttempts(configured)) <==> configured == 1
  {
    BoundIsExact(max, configured, 0, EffectiveAttempts(configured));
  }

  lemma UninterruptedTries(max: int, events: seq<Event>, configured: int, t: System, batch: nat)
    requires Reaches(Initial(max), events, EffectiveAttempts(configured), t) && t.interrupted == 0
    ensures Tries(t, batch) <= Larger(EffectiveAttempts(configured), 2)
  {
    RunIsBounded(max, events, configured, t, batch);
  }

  /** Restarts while no drain is in flight do not count. */
  function CutOff(s: System, events: seq<Event>, maxAttempts: nat, t: System): nat
    requires Reaches(s, events, maxAttempts, t)
    decreases |events|
  {
    if events == [] then 0
    else
      (if events[0].Restart? && s.drain.Some? then 1 else 0)
      + CutOff(Step(s, events[0], maxAttempts), events[1..], maxAttempts, t)
  }

  lemma {:induction false} InterruptedIsCutOff(s: System, events: seq<Event>, maxAttempts: nat, t: System)
    requires Reaches(s, events, maxAttempts, t)
    ensures t.interrupted == s.interrupted + CutOff(s, events, maxAttempts, t)
    decreases |events|
  {
    if events != [] {
      InterruptedIsCutOff(Step(s, events[0], maxAttempts), events[1..], maxAttempts, t);
    }
  }

  // ------------------------------------------------------- a drain that is cut off

  /** The same queue, file and first attempts, but no drain. */
  ghost predicate Untraced(s: System, plain: System) {
    plain.drain == None && plain == s.(drain := None, tried := plain.tried)
  }

  /** The events of the other goroutines. */
  function Others(events: seq<Event>): seq<Event> {
    if events == [] then []
    else if events[0].Attempt? then Others(events[1..])
    else [events[0]] + Others(events[1..])
  }

  lemma UntracedStep(s: System, plain: System, e: Event, maxAttempts: nat)
    requires Untraced(s, plain) && Enabled(s, e) && |s.entries| <= |s.file|
    requires e.Send? || e.Queue? || e.Attempt?
    ensures if e.Attempt? then Untraced(Step(s, e, maxAttempts), plain)
            else Enabled(plain, e) && Untraced(Step(s, e, maxAttempts), Step(plain, e, maxAttempts))
  {
  }

  lemma {:induction false} UntracedRun(s: System, plain: System, events: seq<Event>, maxAttempts: nat, t: System)
    returns (end: System)
    requires Untraced(s, plain) && BesideDrain(events) && Reaches(s, events, maxAttempts, t)
    ensures Reaches(plain, Others(events), maxAttempts, end) && Untraced(t, end)
    decreases |events|
  {
    if events == [] {
      end := plain;
    } else {
      var e, rest := events[0], events[1..];
      assert e in events;
      assert BesideDrain(rest) by { assert forall x | x in rest :: x in events; }
      UntracedStep(s, plain, e, maxAttempts);
      if e.Attempt? {
        end := UntracedRun(Step(s, e, maxAttempts), plain, rest, maxAttempts, t);
      } else {
        end := UntracedRun(Step(s, e, maxAttempts), Step(plain, e, maxAttempts), rest, maxAttempts, t);
        assert ([e] + Others(rest))[1..] == Others(rest);
      }
    }
  }

  /** A drain that a restart cuts off before its commit, wherever it stands and whatever
      it has delivered, leaves no trace: queue and file are as if only the other
      goroutines had run, and only the attempts it made remain made. */
  lemma InterruptedDrainIsForgotten(s: System, limit: int, events: seq<Event>, maxAttempts: nat, t: System, max: int)
    returns (plain: System)
    requires |s.entries| <= |s.file| && s.drain.None? && BesideDrain(events)
    requires Reaches(BeginStep(s, limit), events, maxAttempts, t)
    ensures Reaches(s, Others(events), maxAttempts, plain)
    ensures RestartStep(t, max) == RestartStep(plain, max).(tried := t.tried, interrupted := s.interrupted + 1)
  {
    plain := UntracedRun(BeginStep(s, limit), s, events, maxAttempts, t);
    DrainStaysInFlight(BeginStep(s, limit), events, maxAttempts, t);
  }

  lemma {:induction false} DrainStaysInFlight(s: System, events: seq<Event>, maxAttempts: nat, t: System)
    requires s.drain.Some? && BesideDrain(events) && Reaches(s, events, maxAttempts, t)
    ensures t.drain.Some? && t.interrupted == s.interrupted
    decreases |events|
  {
    if events != [] {
      assert events[0] in events;
      assert BesideDrain(events[1..]) by { assert forall x | x in events[1..] :: x in events; }
      DrainStaysInFlight(Step(s, events[0], maxAttempts), events[1..], maxAttempts, t);
    }
  }
}
