/** Left to itself the worker comes to rest, and everything a returned `send` said has then been told. */
module DeliveryProgress {
  import opened Options
  import opened DeliveryProtocol
  import opened DeliveryOrder
  import opened DeliveryWakeup
  import opened DeliveryTransit
  import opened DeliveryGenerations
  import opened DeliveryLosses

  /** Nothing left to take: the worker blocks on the channel. */
  predicate Blocks(s: State) {
    s.worker.AtTop? && s.deferred.None? && |s.queue| == 0
  }

  function Rank(w: Worker): nat {
    match w
    case AtTop => 0
    case Emitting(_) => 1
    case DrainingLast(_) => 2
    case FinalCheck(_) => 3
    case Conflating(_) => 4
    case LoadingGeneration(_) => 5
    case DrainingFirst(_) => 6
    case Took(_) => 7
  }

  /** How many steps the worker can take at most before it blocks: eight for each item, and its current turn. */
  function StepsLeft(s: State): nat {
    8 * (|s.queue| + |Parked(s.deferred)|) + Rank(s.worker)
  }

  lemma WorkGetsOn(s: State)
    requires Enabled(s, Work) && DeferredFits(s)
    ensures StepsLeft(Worked(s)) < StepsLeft(s) && DeferredFits(Worked(s)) && Worked(s).calls == s.calls
  {
  }

  /** The worker left alone until it blocks. */
  function WorkedOut(s: State): State
    requires DeferredFits(s)
    decreases StepsLeft(s)
  {
    if Blocks(s) then s
    else
      WorkGetsOn(s);
      WorkedOut(Worked(s))
  }

  ghost predicate AllReturned(s: State) {
    forall i :: 0 <= i < |s.calls| ==> s.calls[i].pc == Returned
  }

  /** Without a wake to come, the worker's own steps bring none. */
  lemma NotWokenByWork(s: State)
    requires DeferredFits(s) && AllReturned(s) && Enabled(s, Work) && Awake(Worked(s))
    ensures Awake(s)
  {
    assert Worked(s).calls == s.calls;
  }

  /** With every call returned, the worker left alone comes to rest, with no resync left pending, if and only
      if its wake was assured to begin with. */
  lemma {:induction false} RestsExactlyWhenAwake(s: State)
    requires DeferredFits(s) && AllReturned(s)
    ensures AtRest(WorkedOut(s)) <==> Awake(s)
    ensures WorkedOut(s).calls == s.calls
    decreases StepsLeft(s)
  {
    if !Blocks(s) {
      WorkGetsOn(s);
      RestsExactlyWhenAwake(Worked(s));
      if Awake(s) {
        AwakeByWork(s);
      } else if Awake(Worked(s)) {
        NotWokenByWork(s);
      }
    }
  }

  /** A run goes on by the worker's steps alone until the worker blocks, within the steps it has left. */
  lemma {:induction false} RunOut(states: seq<State>, acts: seq<Action>) returns (all: seq<State>, done: seq<Action>)
    requires IsRun(states, acts) && DeferredFits(states[|acts|])
    ensures IsRun(all, done) && states <= all && acts <= done
    ensures forall k :: |acts| <= k < |done| ==> done[k] == Work
    ensures |done| <= |acts| + StepsLeft(states[|acts|]) && all[|done|] == WorkedOut(states[|acts|])
    decreases StepsLeft(states[|acts|])
  {
    var s := states[|acts|];
    all, done := states, acts;
    if !Blocks(s) {
      WorkGetsOn(s);
      assert IsRun(states + [Worked(s)], acts + [Work]);
      all, done := RunOut(states + [Worked(s)], acts + [Work]);
    }
  }

  /** Eventual delivery: from any reachable state with every call returned and the wake assured, the worker
      alone comes to rest within eight steps an item, and every call has then been told, except those lost
      for good. */
  lemma EverythingIsToldInTheEnd(states: seq<State>, acts: seq<Action>) returns (all: seq<State>, done: seq<Action>)
    requires IsRun(states, acts) && AllReturned(states[|acts|]) && Awake(states[|acts|])
    ensures IsRun(all, done) && states <= all && acts <= done
    ensures forall k :: |acts| <= k < |done| ==> done[k] == Work
    ensures |done| <= |acts| + StepsLeft(states[|acts|])
    ensures AtRest(all[|done|]) && all[|done|].calls == states[|acts|].calls
    ensures forall i :: 0 <= i < |all[|done|].calls| ==>
              (Told(all[|done|], i) <==> !exists k :: 0 <= k < |done| && LostSince(all, done, k, |done|, i))
  {
    var s := states[|acts|];
    OrderedAlongRun(states, acts, |acts|);
    RestsExactlyWhenAwake(s);
    all, done := RunOut(states, acts);
    forall i | 0 <= i < |s.calls|
      ensures Told(all[|done|], i) <==> !exists k :: 0 <= k < |done| && LostSince(all, done, k, |done|, i)
    {
      CaughtUpExactly(all, done, |done|, i);
    }
  }

  /** So where no bump came late and no wake was drained, everything said has been told in the end. */
  lemma CleanRunsTellEverything(states: seq<State>, acts: seq<Action>) returns (all: seq<State>, done: seq<Action>)
    requires NoWakeIsDrained(states, acts) && NoLateBumpIn(states, acts, 0, |acts|) && AllReturned(states[|acts|])
    ensures IsRun(all, done) && states <= all && acts <= done
    ensures forall k :: |acts| <= k < |done| ==> done[k] == Work
    ensures |done| <= |acts| + StepsLeft(states[|acts|]) && all[|done|].calls == states[|acts|].calls
    ensures forall i :: 0 <= i < |all[|done|].calls| ==> Told(all[|done|], i)
  {
    AwakeAlongRun(states, acts, |acts|);
    all, done := EverythingIsToldInTheEnd(states, acts);
    forall k | 0 <= k < |done|
      ensures !LateBump(all[k], done[k])
    {
      assert k < |acts| ==> all[k] == states[k] && done[k] == acts[k];
    }
    forall k, i | 0 <= k < |done| && LostSince(all, done, k, |done|, i)
      ensures false
    {
      ALossNeedsALateBump(all, done, k, i);
    }
  }
}
