/** The promises of delivery while no generation is bumped late.

    `require_resync` raises the flag and bumps the generation in separate accesses, so the worker can clear the
    flag in between. Without that, no invalidation is lost and the fence stands. `DeliveryLosses` and
    `DeliveryGenerations` say exactly what holds in every run; these are what follows. */
module DeliveryFence {
  import opened Options
  import opened DashboardHints
  import opened DeliveryProtocol
  import opened DeliveryBatches
  import opened DeliveryWakeup
  import opened DeliveryTransit
  import opened DeliveryGenerations
  import opened DeliveryLosses

  ghost predicate NoLateBump(states: seq<State>, acts: seq<Action>) {
    IsRun(states, acts) && NoLateBumpIn(states, acts, 0, |acts|)
  }

  ghost predicate EmittedFenced(emitted: seq<Emission>) {
    forall k :: 0 <= k < |emitted| ==> MovesOnWithResync(emitted, k)
  }

  lemma MovesOnStays(before: seq<Emission>, after: seq<Emission>, k: nat)
    requires before <= after && k < |before| && MovesOnWithResync(before, k)
    ensures MovesOnWithResync(after, k)
  {
    assert after[..k + 1] == before[..k + 1];
  }

  lemma {:induction false} FencedAlongRun(states: seq<State>, acts: seq<Action>, n: nat)
    requires NoLateBump(states, acts) && n <= |acts|
    ensures EmittedFenced(states[n].emitted)
    decreases n
  {
    if n > 0 {
      var s, a := states[n - 1], acts[n - 1];
      FencedAlongRun(states, acts, n - 1);
      if Emits(s, a) {
        TheFenceExactly(states, acts, n - 1);
        forall k | 0 <= k < |s.emitted|
          ensures MovesOnWithResync(states[n].emitted, k)
        {
          MovesOnStays(s.emitted, states[n].emitted, k);
        }
      } else {
        EmittedStays(s, a);
      }
    }
  }

  /** Generation fence: over a run, emissions never go back a generation, the first emission of a new
      generation is the resync that answers the overflow, and after it nothing tagged earlier appears. */
  lemma NothingStaleFollowsAResync(states: seq<State>, acts: seq<Action>, n: nat, j: nat, k: nat)
    requires NoLateBump(states, acts) && n <= |acts| && j < k < |states[n].emitted|
    ensures var e := states[n].emitted;
            && (forall q :: q in e[k].items ==> q.generation == e[k].generation && q.generation >= e[j].generation)
            && (e[j].generation < e[k].generation ==>
                  exists m :: j < m <= k && IsResync(e[m].delta) && e[m - 1].generation < e[m].generation)
            && e[k].generation <= states[n].generation
  {
    FencedAlongRun(states, acts, n);
    GenerationsNeverGoBack(states, acts, n, j, k);
    GenerationsNeverGoBack(states, acts, n, k, k);
    var e := states[n].emitted;
    if e[j].generation < e[k].generation {
      var m := FirstOfGeneration(e, j, k);
      assert MovesOnWithResync(e, m);
    }
  }

  lemma {:induction false} FirstOfGeneration(e: seq<Emission>, j: nat, k: nat) returns (m: nat)
    requires j < k < |e| && e[j].generation < e[k].generation
    ensures j < m <= k && e[m - 1].generation < e[m].generation
    decreases k
  {
    m := k;
    if e[k - 1].generation >= e[k].generation {
      m := FirstOfGeneration(e, j, k - 1);
    }
  }

  /** At the final check an unflagged batch is of the current generation throughout. */
  lemma TheFinalCheckSeesOneGeneration(states: seq<State>, acts: seq<Action>, n: nat)
    requires NoLateBump(states, acts) && n <= |acts|
    requires states[n].worker.FinalCheck? && !states[n].flag
    ensures forall q :: q in states[n].worker.batch.items ==> q.generation == states[n].generation
  {
    TheFinalCheckExactly(states, acts, n);
  }

  /** The step that appended an emission. */
  lemma {:induction false} EmissionStep(states: seq<State>, acts: seq<Action>, n: nat, j: nat) returns (k: nat)
    requires IsRun(states, acts) && n <= |acts| && j < |states[n].emitted|
    ensures k < n && Emits(states[k], acts[k]) && |states[k].emitted| == j
    ensures states[k].worker.emission == states[n].emitted[j]
    decreases n
  {
    k := n - 1;
    assert states[n] == Next(states[k], acts[k]);
    if Emits(states[k], acts[k]) && |states[k].emitted| == j {
      EmissionSetsTheFence(states[k], states[k].worker.emission);
    } else {
      EmittedGrows(states, acts, k, n);
      OneEmission(states[k], acts[k]);
      k := EmissionStep(states, acts, n - 1, j);
    }
  }

  lemma OneEmission(s: State, a: Action)
    requires Enabled(s, a)
    ensures |Next(s, a).emitted| == |s.emitted| + if Emits(s, a) then 1 else 0
  {
  }

  /** Consecutive emissions are consecutive emission steps. */
  lemma ConsecutiveSteps(states: seq<State>, acts: seq<Action>, m: nat, n: nat)
    requires IsRun(states, acts) && m < |acts| && n < |acts| && Emits(states[m], acts[m]) && Emits(states[n], acts[n])
    requires |states[n].emitted| == |states[m].emitted| + 1
    ensures LastEmission(states, acts, n) == Some(m)
  {
    OneEmission(states[m], acts[m]);
    if n <= m {
      EmittedGrows(states, acts, n, m);
    }
    var last := LastEmission(states, acts, n);
    if last.Some? && last.value != m {
      OneEmission(states[last.value], acts[last.value]);
      EmittedGrows(states, acts, m + 1, last.value);
      EmittedGrows(states, acts, last.value + 1, n);
    }
  }

  lemma {:induction false} SomeFirstRead(states: seq<State>, acts: seq<Action>, m: nat, n: nat) returns (r: nat)
    requires |states| == |acts| + 1 && m < n < |acts| && Reads(states[n], acts[n])
    ensures FirstRead(states, acts, m, r)
    decreases n
  {
    if k :| m < k < n && Reads(states[k], acts[k]) {
      r := SomeFirstRead(states, acts, m, k);
    } else {
      r := n;
    }
  }

  /** The delta that did not fit one batch opens the next one, unless a resync replaces it. */
  lemma TheParkedItemOpensTheNextBatch(states: seq<State>, acts: seq<Action>, m: nat, n: nat, q: Queued)
    requires NoLateBump(states, acts) && m <= n <= |acts|
    requires states[m].worker.Emitting? && states[m].deferred == Some(q)
    requires |states[n].emitted| > |states[m].emitted| + 1
    ensures var next := states[n].emitted[|states[m].emitted| + 1];
            IsResync(next.delta) || (next.items != [] && next.items[0] == q)
  {
    var j := |states[m].emitted|;
    var first := EmissionStep(states, acts, n, j);
    var second := EmissionStep(states, acts, n, j + 1);
    ConsecutiveSteps(states, acts, first, second);
    ParkedUntilEmitted(states, acts, m, first);
    HeldSinceRead(states, acts, second);
    ReadAfterStart(states, acts, second);
    var r := SomeFirstRead(states, acts, first, LastRead(states, acts, second));
    TheParkedItemExactly(states, acts, first, r, second, q);
  }

  /** A delta that is being emitted, and what is parked behind it, stay until it is out. */
  lemma ParkedUntilEmitted(states: seq<State>, acts: seq<Action>, m: nat, n: nat)
    requires IsRun(states, acts) && m <= |acts| && n < |acts| && states[m].worker.Emitting?
    requires Emits(states[n], acts[n]) && |states[n].emitted| == |states[m].emitted|
    ensures m <= n && states[n].deferred == states[m].deferred
  {
    if n < m {
      OneEmission(states[n], acts[n]);
      EmittedGrows(states, acts, n + 1, m);
    } else {
      forall j | m <= j < n
        ensures !Emits(states[j], acts[j])
      {
        OneEmission(states[j], acts[j]);
        EmittedGrows(states, acts, m, j);
        EmittedGrows(states, acts, j + 1, n);
      }
      EmittingStays(states, acts, m, n);
    }
  }

  /** No lost invalidation: whenever a `send` has returned, its hints are in a delta emitted since it
      began, or still on their way, or a resync has been emitted since, is owed, or is pending. */
  lemma NoInvalidationIsLost(states: seq<State>, acts: seq<Action>, n: nat, i: nat)
    requires NoLateBump(states, acts) && n <= |acts|
    requires i < |states[n].calls| && states[n].calls[i].pc == Returned
    ensures Delivered(states[n], i) || Waiting(states[n], i) || Excused(states[n], i)
  {
    UnaccountedMeansLost(states, acts, n, i);
    if k :| 0 <= k < n && LostSince(states, acts, k, n, i) {
      ALossNeedsALateBump(states, acts, k, i);
      assert false;
    }
  }

  /** Once the worker has caught up, every returned `send` has reached the reader. */
  lemma CaughtUpMeansDelivered(states: seq<State>, acts: seq<Action>, n: nat, i: nat)
    requires NoLateBump(states, acts) && n <= |acts|
    requires i < |states[n].calls| && states[n].calls[i].pc == Returned
    requires states[n].worker.AtTop? && states[n].deferred.None? && states[n].queue == [] && !states[n].flag
    ensures exists k :: states[n].calls[i].began <= k < |states[n].emitted|
              && (Covers(states[n].emitted[k].delta, states[n].calls[i].hint)
                  || IsResync(states[n].emitted[k].delta))
  {
    NoInvalidationIsLost(states, acts, n, i);
    assert !Waiting(states[n], i);
  }
}
