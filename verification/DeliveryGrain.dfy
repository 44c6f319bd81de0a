/** The promises at a coarser grain: with `require_resync` and the last drain each undivided, none of them
    needs a condition on the run. */
module DeliveryGrain {
  import opened DeliveryProtocol
  import opened DeliveryWakeup
  import opened DeliveryTransit
  import opened DeliveryFence

  /** Between raising the flag and attempting the wake. */
  predicate InsideResync(pc: Pc) {
    pc.BumpGeneration? || pc.SendWake?
  }

  /** From its swap on, a `require_resync` runs to its end; so does the last drain. */
  ghost predicate Undivided(states: seq<State>, acts: seq<Action>) {
    && IsRun(states, acts)
    && (forall k, i :: 0 <= k < |acts| && 0 <= i < |states[k].calls| && InsideResync(states[k].calls[i].pc) ==>
          acts[k].Advance? && acts[k].call == i)
    && (forall k :: 0 <= k < |acts| && states[k].worker.DrainingLast? ==> acts[k].Work?)
  }

  /** A call gets to bump the generation only by raising the flag in the step before. */
  lemma JustRaised(s: State, a: Action, i: nat)
    requires Enabled(s, a) && i < |Next(s, a).calls| && Next(s, a).calls[i].pc.BumpGeneration?
    requires i < |s.calls| && s.calls[i].pc.BumpGeneration? ==> a.Advance? && a.call == i
    ensures Next(s, a).flag
  {
  }

  lemma UndividedRunsAreClean(states: seq<State>, acts: seq<Action>)
    requires Undivided(states, acts)
    ensures NoLateBump(states, acts) && NoWakeIsDrained(states, acts)
  {
    forall k | 0 <= k < |acts|
      ensures !LateBump(states[k], acts[k])
    {
      if k > 0 && acts[k].Advance? && states[k].calls[acts[k].call].pc.BumpGeneration? {
        assert states[k] == Next(states[k - 1], acts[k - 1]);
        JustRaised(states[k - 1], acts[k - 1], acts[k].call);
      }
    }
  }

  /** Undivided, every run keeps every promise: the worker never falls asleep on a pending resync, and
      whatever a returned `send` said has been said, is on its way, or is made up for by a resync. */
  lemma UndividedDeliveryIsSafe(states: seq<State>, acts: seq<Action>, n: nat)
    requires Undivided(states, acts) && n <= |acts|
    ensures !Stranded(states[n])
    ensures forall i :: 0 <= i < |states[n].calls| && states[n].calls[i].pc == Returned ==>
              Delivered(states[n], i) || Waiting(states[n], i) || Excused(states[n], i)
    ensures EmittedFenced(states[n].emitted)
  {
    UndividedRunsAreClean(states, acts);
    ThePendingResyncWakesTheWorker(states, acts, n);
    FencedAlongRun(states, acts, n);
    forall i | 0 <= i < |states[n].calls| && states[n].calls[i].pc == Returned
      ensures Delivered(states[n], i) || Waiting(states[n], i) || Excused(states[n], i)
    {
      NoInvalidationIsLost(states, acts, n, i);
    }
  }
}
