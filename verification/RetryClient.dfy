// Client.DeliverOrQueue and Client.Drain of internal/honeypot/client.go on a queue
// object: every section is one event of the machine of RetryQueue, so that what is
// proved of its runs holds of the object.

module RetryClient {
  import opened Outcomes
  import opened BoundedLog
  import opened RetryQueue
  import opened RetryBounds

  class Client {
    const queue: FailedQueue
    /** MaxAttempts as configured. */
    const configured: int
    /** The capacity of the first queue that ever wrote to the file. */
    ghost const first: int
    ghost var system: System

    ghost function Limit(): nat { EffectiveAttempts(configured) }

    /** Some run of the machine leads to the present queue; without a path the file of
        the machine stands for none. */
    ghost predicate Valid()
      reads this, queue
    {
      && queue.Valid() && Reached(first, Limit(), system)
      && system.max == queue.max && system.entries == queue.entries
      && (queue.persistent ==> system.file == queue.file)
    }

    /** A client on a queue just loaded from the file that an earlier process, stopped at
        any point, has left behind. */
    constructor (queue: FailedQueue, configured: int, max: int, ghost first: int, ghost before: System)
      requires queue.Valid() && queue.max == QueueMax(max)
      requires Reached(first, EffectiveAttempts(configured), before)
      requires before.file == if queue.persistent then queue.file else []
      requires !queue.persistent ==> queue.entries == []
      ensures Valid() && this.queue == queue && this.configured == configured
      ensures system == RestartStep(before, max)
    {
      this.queue, this.configured, this.first := queue, configured, first;
      system := RestartStep(before, max);
      new;
      LoadedIsLast(before.file, queue.max);
      ReachedStep(first, Limit(), before, Restart(max));
    }

    /** The first attempt of DeliverOrQueue has ended; its events get a number of their own. */
    ghost method Sent(delivered: bool)
      requires Valid()
      modifies this`system
      ensures Valid() && system == SendStep(old(system), delivered)
    {
      ReachedStep(first, Limit(), system, Send(delivered));
      system := SendStep(system, delivered);
    }

    /** The call of Enqueue that follows a failed first attempt. */
    method Enqueue(batch: nat, now: int, error: string)
      requires Valid() && batch in system.waiting
      modifies this`system, queue
      ensures Valid() && system == QueueStep(old(system), batch, now, error)
    {
      ReachedInv(first, Limit(), system);
      ReachedStep(first, Limit(), system, Queue(batch, now, error));
      queue.Enqueue(Delivery(batch, now, 1, error), now);
      system := QueueStep(system, batch, now, error);
    }

    /** The first phase of Drain. */
    method BeginDrain(limit: int) returns (selected: seq<Delivery>)
      requires Valid() && system.drain.None?
      modifies this`system
      ensures Valid() && |old(system).entries| <= |old(system).file| && system == BeginStep(old(system), limit)
      ensures selected == system.drain.value.selected == queue.entries[..SelectedCount(|queue.entries|, limit)]
    {
      ReachedStep(first, Limit(), system, Begin(limit));
      selected := queue.Snapshot(limit);
      system := BeginStep(system, limit);
    }

    /** One turn of the delivery loop has ended. */
    ghost method Attempted(outcome: Outcome)
      requires Valid() && Enabled(system, Attempt(outcome))
      modifies this`system
      ensures Valid() && system == AttemptStep(old(system), outcome, Limit())
    {
      ReachedStep(first, Limit(), system, Attempt(outcome));
      system := AttemptStep(system, outcome, Limit());
    }

    /** The last phase of Drain. */
    method CommitDrain(selected: nat, retained: seq<Delivery>)
      requires Valid() && Enabled(system, Commit)
      requires selected == |system.drain.value.selected| && retained == system.drain.value.progress.retained
      modifies this`system, queue
      ensures Valid() && old(Enabled(system, Commit)) && system == CommitStep(old(system))
    {
      ReachedInv(first, Limit(), system);
      ReachedStep(first, Limit(), system, Commit);
      queue.Commit(selected, retained);
      system := CommitStep(system);
    }

    /** DeliverOrQueue when no other goroutine comes between its two steps. */
    method DeliverOrQueue(delivered: bool, batch: nat, now: int, error: string)
      requires Valid() && batch == system.next
      modifies this`system, queue
      ensures Valid()
      ensures var sent := SendStep(old(system), delivered);
        system == if delivered then sent else QueueStep(sent, batch, now, error)
      ensures queue.entries == if delivered then old(queue.entries)
                               else Push(old(queue.entries), Delivery(batch, now, 1, error), queue.max)
    {
      Sent(delivered);
      if delivered {
        return;
      }
      Enqueue(batch, now, error);
    }

    /** Drain when no other goroutine comes between its phases. */
    method Drain(limit: int, outcomes: seq<Outcome>) returns (result: DrainResult)
      requires Valid() && system.drain.None? && |outcomes| == SelectedCount(|queue.entries|, limit)
      modifies this`system, queue
      ensures Valid() && system.drain.None? && system.interrupted == old(system.interrupted)
      ensures var n := SelectedCount(|old(queue.entries)|, limit);
        var p := DeliverAll(old(queue.entries)[..n], outcomes, Limit());
        result == p.result && queue.entries == p.retained + old(queue.entries)[n..]
    {
      var maxAttempts := if configured <= 0 then 5 else configured;
      var selected := BeginDrain(limit);
      var retained;
      retained, result := DeliverSelected(selected, outcomes, maxAttempts);
      AllAttempted(selected, outcomes);
      assert selected[..|outcomes|] == selected;
      CommitDrain(|selected|, retained);
    }

    ghost method AllAttempted(selected: seq<Delivery>, outcomes: seq<Outcome>)
      requires Valid() && Has(system.drain, selected, [], Limit()) && |outcomes| == |selected|
      modifies this`system
      ensures Valid() && Has(system.drain, selected, outcomes, Limit())
      ensures system.interrupted == old(system.interrupted)
    {
      for i := 0 to |outcomes|
        invariant Valid() && Has(system.drain, selected, outcomes[..i], Limit())
        invariant system.interrupted == old(system.interrupted)
      {
        assert outcomes[..i + 1] == outcomes[..i] + [outcomes[i]];
        OneOutcome(system, outcomes[i], Limit(), selected, outcomes[..i]);
        Attempted(outcomes[i]);
      }
      assert outcomes[..|outcomes|] == outcomes;
    }

    /** What holds between any two sections, whatever processes came before. */
    lemma Guarantees(batch: nat)
      requires Valid()
      ensures |queue.entries| <= queue.max && RetryQueue.Distinct(queue.entries)
      ensures Tries(system, batch) <= Larger(Limit(), 2) + system.interrupted
      ensures system.drain.Some? ==> |system.drain.value.selected| <= |queue.entries|
    {
      ReachedInv(first, Limit(), system);
      assert Bounded(system.tried, system.next, system.waiting, Larger(Limit(), 2) + system.interrupted);
      var n := |system.file| - |system.entries|;
      assert forall i | 0 <= i < |queue.entries| :: queue.entries[i] == system.file[n + i];
    }
  }
}
