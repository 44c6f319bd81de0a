/** The two interleavings that the promises of `DeliveryWakeup` and `DeliveryFence` exclude, as runs. */
module DeliveryRaces {
  import opened Options
  import opened DashboardHints
  import opened DeliveryProtocol
  import opened DeliveryPaths
  import opened DeliveryWakeup
  import opened DeliveryTransit
  import opened DeliveryFence
  import opened DeliveryGenerations

  // ---------- A wake drained with the backlog strands the worker ----------

  /** The worker left alone until it has finished its last drain and emitted the marker. */
  function DrainOut(s: State): State
    requires s.worker.DrainingLast? || s.worker.Emitting?
    decreases s.worker.DrainingLast?, s.deferred.Some?, |s.queue|
  {
    if s.worker.Emitting? then Worked(s) else DrainOut(Worked(s))
  }

  /** Left alone in its last drain, the worker ends up asleep on a pending resync exactly when the flag
      was raised again during the drain and no wake for it is still to come. */
  lemma {:induction false} TheLastDrainStrandsIffFlagged(s: State)
    requires s.worker.DrainingLast?
    ensures Reaches(s, DrainOut(s))
    ensures Stranded(DrainOut(s)) <==> s.flag && !WakeComing(s)
    ensures DrainOut(s).calls == s.calls
    decreases s.deferred.Some?, |s.queue|
  {
    ReachesSelf(s);
    ReachesStep(s, s, Work);
    var t := Worked(s);
    assert t.calls == s.calls && t.flag == s.flag;
    assert WakeComing(t) <==> WakeComing(s);
    if t.worker.DrainingLast? {
      TheLastDrainStrandsIffFlagged(t);
      ReachesTransitive(s, t, DrainOut(t));
    } else {
      ReachesStep(s, t, Work);
      assert DrainOut(t) == Worked(t) && DrainOut(s) == DrainOut(t);
      assert WakeComing(Worked(t)) <==> WakeComing(s);
    }
  }

  /** Asleep, with every call returned or about to read the raised flag. */
  ghost predicate Asleep(s: State) {
    && s.worker.AtTop? && s.deferred.None? && s.queue == [] && s.flag
    && forall i :: 0 <= i < |s.calls| ==> s.calls[i].pc == Returned || s.calls[i].pc == LoadFlag
  }

  /** Nothing wakes a stranded worker: every later `send` is turned away and nothing is emitted again. */
  lemma {:induction false} AsleepForever(states: seq<State>, acts: seq<Action>, m: nat, n: nat)
    requires IsRun(states, acts) && m <= n <= |acts| && Asleep(states[m])
    ensures Asleep(states[n]) && states[n].emitted == states[m].emitted && states[n].enqueued == states[m].enqueued
    decreases n - m
  {
    if m < n {
      AsleepForever(states, acts, m, n - 1);
      assert states[n] == Next(states[n - 1], acts[n - 1]);
    }
  }

  /** A worker with one delta in hand, about to make its final check. */
  lemma OneInHand(h: Hint) returns (s: State)
    ensures Reaches(INIT, s) && s.calls == [Call(h, 0, Returned)]
    ensures s.worker.FinalCheck? && s.queue == [] && s.deferred == None && !s.flag
  {
    ReachesSelf(INIT);
    s := QuietSend(INIT, INIT, h, 1);
    s := Step(INIT, s, Work);
    s := Step(INIT, s, Work);
    s := Step(INIT, s, Work);
    s := Step(INIT, s, Work);
  }

  /** Such a run exists: one delta in the worker's hand, then one overflow before and one after the
      final check. */
  lemma AWakeCanBeDrained(h: Hint)
    ensures exists states: seq<State>, acts :: IsRun(states, acts) && Asleep(states[|acts|])
  {
    var s := FlaggedAgain(h);
    TheLastDrainStrandsIffFlagged(s);
    ReachesTransitive(INIT, s, DrainOut(s));
    assert Asleep(DrainOut(s));
    ReachedByRun(DrainOut(s));
  }

  lemma FlaggedAgain(h: Hint) returns (s: State)
    ensures Reaches(INIT, s) && s.worker.DrainingLast? && s.flag
    ensures forall i :: 0 <= i < |s.calls| ==> s.calls[i].pc == Returned
  {
    var done := Call(h, 0, Returned);
    s := OneInHand(h);
    s := QuietRaise(INIT, s, h);
    s := QuietFinish(INIT, s, 1);
    assert s.calls[1].pc == Returned && s.calls[0] == done;
    s := Step(INIT, s, Work);
    assert s.worker.DrainingLast? && |s.queue| == 1;
    s := QuietRaise(INIT, s, h);
    s := QuietFinish(INIT, s, 2);
  }

  // ---------- A generation bumped late loses a delta for good ----------

  /** Everything is at rest: the worker has caught up and every call has returned. */
  ghost predicate CaughtUp(s: State) {
    && s.worker.AtTop? && s.deferred.None? && s.queue == [] && !s.flag
    && forall i :: 0 <= i < |s.calls| ==> s.calls[i].pc == Returned
  }

  /** The call returned, all is at rest, and its hint is neither out, nor on its way, nor made up for. */
  ghost predicate Lost(s: State, i: nat, hint: Hint) {
    && CaughtUp(s)
    && i < |s.calls| && s.calls[i].hint == hint
    && !Delivered(s, i) && !Waiting(s, i) && !Excused(s, i)
  }

  /** A run in which `lost` is sent, its `send` returns, everything comes to rest, and no delta emitted
      since says what it said, nor asks for a resync: its generation was bumped after the worker had
      cleared the flag, and the late wake was swallowed by a batch of the new generation. */
  lemma ALateBumpCanLoseADelta(h: Hint, lost: Hint, other: Hint)
    requires !Covers(other, lost) && !other.resyncRequired
    ensures exists states: seq<State>, acts :: IsRun(states, acts) && Lost(states[|acts|], 2, lost)
  {
    var s := LoseADelta(h, lost, other);
    assert Lost(s, 2, lost);
    ReachedByRun(s);
  }

  lemma LoseADelta(h: Hint, lost: Hint, other: Hint) returns (s: State)
    ensures Reaches(INIT, s) && CaughtUp(s)
    ensures |s.calls| == 4 && s.calls[2] == Call(lost, 1, Returned)
    ensures |s.emitted| == 2 && s.emitted[1].delta == other
    ensures s.emitted[0].generation == 0 && s.emitted[1].generation == 1
  {
    s := ClearBeforeTheBump(h);
    s := QuietSend(INIT, s, lost, 1);
    s := Step(INIT, s, Advance(1, None));
    s := QuietSend(INIT, s, other, 1);
    s := Step(INIT, s, Advance(1, None));
    assert s.calls == [Call(h, 0, Returned), Call(h, 0, Returned), Call(lost, 1, Returned), Call(other, 1, Returned)];
    var q, r := Queued(2, lost, 1, 0, 1), Queued(3, other, 1, 1, 2);
    assert s.queue == [Delta(q), Delta(r), Wake];
    s := SwallowTheWake(s, q, r);
  }

  /** The worker answers a raised flag and comes back to the top while `require_resync` still has the
      generation to bump. */
  lemma ClearBeforeTheBump(h: Hint) returns (s: State)
    ensures Reaches(INIT, s)
    ensures s.calls == [Call(h, 0, Returned), Call(h, 0, BumpGeneration(0))]
    ensures s.worker.AtTop? && s.deferred.None? && s.queue == [] && !s.flag && s.generation == 0
    ensures |s.emitted| == 1 && s.emitted[0].generation == 0 && |s.enqueued| == 1 && s.permits == DELIVERY_BYTES
  {
    ReachesSelf(INIT);
    s := QuietSend(INIT, INIT, h, 1);
    s := Step(INIT, s, Work);
    s := QuietRaise(INIT, s, h);
    assert s.calls == [Call(h, 0, Returned), Call(h, 0, BumpGeneration(0))];
    assert s.queue == [] && s.worker.Took?;
    s := Step(INIT, s, Work);
    s := Step(INIT, s, Work);
    s := Step(INIT, s, Work);
    s := Step(INIT, s, Work);
    s := Step(INIT, s, Work);
    s := Step(INIT, s, Work);
  }

  lemma SwallowTheWake(s: State, q: Queued, r: Queued) returns (t: State)
    requires Reaches(INIT, s) && s.worker.AtTop? && s.deferred.None? && !s.flag
    requires s.queue == [Delta(q), Delta(r), Wake]
    requires q.generation != s.generation && r.generation == s.generation && r.size == 1
    ensures Reaches(INIT, t) && t.calls == s.calls
    ensures t.worker.AtTop? && t.deferred.None? && t.queue == [] && !t.flag
    ensures t.emitted == s.emitted + [Emission(r.hint, [r], s.generation)]
  {
    t := Step(INIT, s, Work);
    t := Step(INIT, t, Work);
    t := Step(INIT, t, Work);
    assert t.queue == [Delta(r), Wake] && t.worker.AtTop?;
    t := Step(INIT, t, Work);
    t := Step(INIT, t, Work);
    t := Step(INIT, t, Work);
    assert t.queue == [Wake] && t.worker == Conflating(Batch(r.hint, [r], 1, s.generation));
    t := Step(INIT, t, Work);
    t := Step(INIT, t, Work);
    t := Step(INIT, t, Work);
    t := Step(INIT, t, Work);
  }

  // ---------- What else a late bump can do ----------

  /** The same run goes on to a new generation without a resync. */
  lemma ALateBumpMovesTheFence(h: Hint, other: Hint)
    requires !other.resyncRequired
    ensures exists states: seq<State>, acts :: IsRun(states, acts) && !EmittedFenced(states[|acts|].emitted)
  {
    var s := LoseADelta(h, h, other);
    assert !MovesOnWithResync(s.emitted, 1);
    ReachedByRun(s);
  }

  /** The worker with a batch of generation 0 that it has just read, and a bump still to come. */
  lemma BatchBeforeTheBump(h: Hint) returns (s: State)
    ensures Reaches(INIT, s) && !s.flag && s.generation == 0 && s.deferred.None? && |s.queue| == 0
    ensures |s.calls| == 3 && s.calls[1] == Call(h, 0, BumpGeneration(0)) && |s.emitted| == 1
    ensures s.worker == Conflating(Batch(h, [Queued(2, h, 1, 0, 1)], 1, 0)) && s.permits == DELIVERY_BYTES
    ensures |s.enqueued| == 2
  {
    s := ClearBeforeTheBump(h);
    s := QuietSend(INIT, s, h, 1);
    s := Step(INIT, s, Work);
    s := Step(INIT, s, Work);
    s := Step(INIT, s, Work);
  }

  /** A batch can pass the final check in a generation that is no longer current. */
  lemma ALateBumpPassesTheFinalCheck(h: Hint)
    ensures exists s :: Reaches(INIT, s) && PassesOutdated(s)
  {
    var s := BatchBeforeTheBump(h);
    s := Step(INIT, s, Advance(1, None));
    s := Step(INIT, s, Work);
    assert PassesOutdated(s);
  }

  predicate PassesOutdated(s: State) {
    s.worker.FinalCheck? && !s.flag && s.worker.batch.generation != s.generation
  }

  /** `q` was parked at `s`, and at `t` the next delta is about to go out without it. */
  predicate LeftBehind(s: State, q: Queued, t: State) {
    && s.worker.Emitting? && s.deferred == Some(q)
    && t.worker.Emitting? && |t.emitted| == |s.emitted| + 1
    && !IsResync(t.worker.emission.delta) && !First(t.worker.emission.items, q)
  }

  /** A parked item can be rejected with no resync in its place. */
  lemma ALateBumpRejectsTheParkedItem(h: Hint)
    requires !h.resyncRequired
    ensures exists states: seq<State>, acts: seq<Action>, m: nat, q: Queued ::
              IsRun(states, acts) && m <= |acts| && LeftBehind(states[m], q, states[|acts|])
  {
    var s, q := ParkBeforeTheBump(h);
    var t := RejectAfterTheBump(s, h, q);
    RunThrough(s, t);
    var states, acts, m: nat :| IsRun(states, acts) && m <= |acts| && states[m] == s && states[|acts|] == t;
    assert LeftBehind(states[m], q, states[|acts|]);
  }

  lemma ParkBeforeTheBump(h: Hint) returns (s: State, q: Queued)
    ensures Reaches(INIT, s) && !s.flag && s.generation == 0 && |s.queue| == 0 && q.generation == 0
    ensures s.deferred == Some(q) && s.worker.Emitting?
    ensures s.permits == DELIVERY_BYTES - q.size && q.size < DELIVERY_BYTES
    ensures |s.calls| == 4 && s.calls[1] == Call(h, 0, BumpGeneration(0))
  {
    s := BatchBeforeTheBump(h);
    s := QuietSend(INIT, s, h, BATCH_BYTES);
    q := s.queue[0].queued;
    s := Step(INIT, s, Work);
    s := Step(INIT, s, Work);
  }

  lemma RejectAfterTheBump(s: State, h: Hint, q: Queued) returns (t: State)
    requires !s.flag && s.generation == 0 && |s.queue| == 0 && q.generation == 0 && !h.resyncRequired
    requires s.deferred == Some(q) && s.worker.Emitting?
    requires s.permits == DELIVERY_BYTES - q.size && q.size < DELIVERY_BYTES
    requires |s.calls| == 4 && s.calls[1].pc == BumpGeneration(0)
    ensures Reaches(s, t) && LeftBehind(s, q, t)
  {
    ReachesSelf(s);
    t := Step(s, s, Work);
    t := Step(s, t, Advance(1, None));
    t := QuietSend(s, t, h, 1);
    t := RejectParked(s, t, q);
    t := EmitAlone(s, t);
  }

  /** The worker takes up a parked item of a retired generation and drops it. */
  lemma RejectParked(from: State, s: State, q: Queued) returns (t: State)
    requires Reaches(from, s) && s.worker.AtTop? && s.deferred == Some(q) && !s.flag && q.generation != s.generation
    ensures Reaches(from, t) && t == s.(deferred := None, permits := s.permits + q.size)
  {
    t := Step(from, s, Work);
    t := Step(from, t, Work);
    t := Step(from, t, Work);
  }

  /** The worker takes the one queued delta, of the current generation, up to its emission. */
  lemma EmitAlone(from: State, s: State) returns (t: State)
    requires Reaches(from, s) && s.worker.AtTop? && s.deferred.None? && !s.flag
    requires |s.queue| == 1 && s.queue[0].Delta? && s.queue[0].queued.generation == s.generation
    ensures Reaches(from, t) && t.emitted == s.emitted
    ensures t.worker == Emitting(Emission(s.queue[0].queued.hint, [s.queue[0].queued], s.generation))
  {
    t := Step(from, s, Work);
    t := Step(from, t, Work);
    t := Step(from, t, Work);
    t := Step(from, t, Work);
    t := Step(from, t, Work);
  }
}
