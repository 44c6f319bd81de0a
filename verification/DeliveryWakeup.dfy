/** The worker is never left asleep on a pending resync, and every cleared flag is answered.

    `require_resync` may run to its end while the worker drains for the last time. Its wake is then
    drained with the backlog, and that is the only way to lose one; `DeliveryRaces` shows such a run. */
module DeliveryWakeup {
  import opened Options
  import opened DashboardHints
  import opened DeliveryProtocol

  /** A wake attempted during the last drain for a flag raised since that drain began. */
  predicate WakeIsDrained(s: State, a: Action) {
    && a.Advance? && a.call < |s.calls| && s.calls[a.call].pc.SendWake?
    && s.worker.DrainingLast? && s.flag
  }

  ghost predicate NoWakeIsDrained(states: seq<State>, acts: seq<Action>) {
    IsRun(states, acts) && forall k :: 0 <= k < |acts| ==> !WakeIsDrained(states[k], acts[k])
  }

  /** Some `require_resync` has raised the flag and has its wake still to send. */
  ghost predicate WakeComing(s: State) {
    exists i :: 0 <= i < |s.calls| && (s.calls[i].pc.BumpGeneration? || s.calls[i].pc.SendWake?)
  }

  /** The worker will look at the flag again before it can block. */
  predicate WillLook(s: State) {
    match s.worker
    case AtTop => s.deferred.Some?
    case Took(_) => true
    case DrainingFirst(_) => true
    case LoadingGeneration(first) => first.Delta? ==> first.queued.generation == s.generation
    case Conflating(_) => true
    case FinalCheck(_) => true
    case DrainingLast(_) => false
    case Emitting(_) => s.deferred.Some?
  }

  ghost predicate Awake(s: State) {
    && DeferredFits(s)
    && (s.flag ==> WakeComing(s) || (!s.worker.DrainingLast? && (s.queue != [] || WillLook(s))))
  }

  lemma AwakeByWork(s: State)
    requires Awake(s) && Enabled(s, Work)
    ensures Awake(Worked(s))
  {
    if WakeComing(s) {
      assert Worked(s).calls == s.calls;
    }
  }

  lemma AwakeByAdvance(s: State, i: nat, size: Option<nat>)
    requires Awake(s) && Enabled(s, Advance(i, size)) && !WakeIsDrained(s, Advance(i, size))
    ensures Awake(Advanced(s, i, size))
  {
    var t := Advanced(s, i, size);
    if t.flag {
      if s.calls[i].pc.SwapFlag? || s.calls[i].pc.BumpGeneration? {
        assert t.calls[i].pc.BumpGeneration? || t.calls[i].pc.SendWake?;
      } else if s.calls[i].pc.SendWake? {
        assert t.queue != [];
      } else if WakeComing(s) {
        var j :| 0 <= j < |s.calls| && (s.calls[j].pc.BumpGeneration? || s.calls[j].pc.SendWake?);
        assert t.calls[j] == s.calls[j];
      }
    }
  }

  lemma AwakeByAction(s: State, a: Action)
    requires Awake(s) && Enabled(s, a) && !WakeIsDrained(s, a)
    ensures Awake(Next(s, a))
  {
    match a
    case Begin(hint) =>
      if WakeComing(s) {
        var j :| 0 <= j < |s.calls| && (s.calls[j].pc.BumpGeneration? || s.calls[j].pc.SendWake?);
        assert Next(s, a).calls[j] == s.calls[j];
      }
    case Advance(i, size) => AwakeByAdvance(s, i, size);
    case Work => AwakeByWork(s);
  }

  lemma {:induction false} AwakeAlongRun(states: seq<State>, acts: seq<Action>, n: nat)
    requires NoWakeIsDrained(states, acts) && n <= |acts|
    ensures Awake(states[n])
    decreases n
  {
    if n > 0 {
      AwakeAlongRun(states, acts, n - 1);
      AwakeByAction(states[n - 1], acts[n - 1]);
    }
  }

  /** The worker blocks here with nothing queued or parked, a resync pending, and no wake coming. */
  ghost predicate Stranded(s: State) {
    s.worker.AtTop? && s.deferred.None? && s.queue == [] && s.flag && !WakeComing(s)
  }

  /** Wake-up: unless a wake was drained with the backlog, a worker about to block while a resync is
      pending finds an item queued or on its way. */
  lemma ThePendingResyncWakesTheWorker(states: seq<State>, acts: seq<Action>, n: nat)
    requires NoWakeIsDrained(states, acts) && n <= |acts|
    ensures !Stranded(states[n])
  {
    AwakeAlongRun(states, acts, n);
  }

  /** The step drains the only wake there was for a pending resync. */
  ghost predicate LosesTheWake(s: State, a: Action) {
    && WakeIsDrained(s, a)
    && forall i :: 0 <= i < |s.calls| && i != a.call ==> !s.calls[i].pc.BumpGeneration? && !s.calls[i].pc.SendWake?
  }

  /** In any reachable state, a step puts a pending resync to sleep if and only if it attempts a wake
      during the last drain with no other wake still to come. */
  lemma AwakeUntilTheWakeIsDrained(s: State, a: Action)
    requires Awake(s) && Enabled(s, a)
    ensures !Awake(Next(s, a)) <==> LosesTheWake(s, a)
  {
    var t := Next(s, a);
    if WakeIsDrained(s, a) {
      assert t.worker.DrainingLast? && t.flag && t.calls == s.calls[a.call := t.calls[a.call]];
      assert t.calls[a.call].pc == Returned;
      if j :| 0 <= j < |s.calls| && j != a.call && (s.calls[j].pc.BumpGeneration? || s.calls[j].pc.SendWake?) {
        assert t.calls[j] == s.calls[j];
        assert WakeComing(t);
      }
    } else {
      AwakeByAction(s, a);
    }
  }

  /** In every run, a worker that blocks on a pending resync was put there by a step that drained the only
      wake, and has been without one since. */
  lemma {:induction false} StrandedMeansDrained(states: seq<State>, acts: seq<Action>, n: nat)
    requires IsRun(states, acts) && n <= |acts|
    ensures !Awake(states[n]) <==> exists k :: 0 <= k < n && AsleepSince(states, acts, k, n)
    ensures Stranded(states[n]) ==> !Awake(states[n])
    decreases n
  {
    if n > 0 && !Awake(states[n]) {
      if Awake(states[n - 1]) {
        AwakeUntilTheWakeIsDrained(states[n - 1], acts[n - 1]);
        assert AsleepSince(states, acts, n - 1, n);
      } else {
        StrandedMeansDrained(states, acts, n - 1);
        var k :| 0 <= k < n - 1 && AsleepSince(states, acts, k, n - 1);
        assert AsleepSince(states, acts, k, n);
      }
    }
    if Stranded(states[n]) {
      assert !Awake(states[n]);
    }
  }

  ghost predicate AsleepSince(states: seq<State>, acts: seq<Action>, k: nat, n: nat)
    requires |states| == |acts| + 1 && k < n <= |acts|
  {
    LosesTheWake(states[k], acts[k]) && forall m :: k < m <= n ==> !Awake(states[m])
  }

  /** A marker is on its way out: the worker has cleared the flag, or took a wake, and owes a resync. */
  predicate MarkerOwed(w: Worker) {
    match w
    case AtTop => false
    case Took(first) => first == Wake
    case DrainingFirst(_) => true
    case LoadingGeneration(first) => first == Wake
    case Conflating(b) => IsResync(b.delta)
    case FinalCheck(b) => IsResync(b.delta)
    case DrainingLast(_) => true
    case Emitting(e) => IsResync(e.delta)
  }

  lemma OwedUntilEmitted(s: State, a: Action)
    requires MarkerOwed(s.worker) && Enabled(s, a)
    ensures var t := Next(s, a);
            || (t.emitted == s.emitted && MarkerOwed(t.worker))
            || (|t.emitted| == |s.emitted| + 1 && t.emitted[..|s.emitted|] == s.emitted
                && IsResync(t.emitted[|s.emitted|].delta))
  {
  }

  /** Emissions are only ever appended. */
  lemma {:induction false} EmittedGrows(states: seq<State>, acts: seq<Action>, m: nat, n: nat)
    requires IsRun(states, acts) && m <= n <= |acts|
    ensures states[m].emitted <= states[n].emitted
    decreases n - m
  {
    if m < n {
      EmittedGrows(states, acts, m, n - 1);
      assert states[n] == Next(states[n - 1], acts[n - 1]);
    }
  }

  /** Since the emissions `before`: a marker is still owed, or the first one after them is a resync. */
  ghost predicate OwedSince(before: seq<Emission>, s: State) {
    || (s.emitted == before && MarkerOwed(s.worker))
    || (|before| < |s.emitted| && IsResync(s.emitted[|before|].delta))
  }

  lemma EmittedGrowsByAction(s: State, a: Action)
    requires Enabled(s, a)
    ensures s.emitted <= Next(s, a).emitted
  {
  }

  lemma OwedByAction(before: seq<Emission>, s: State, a: Action)
    requires OwedSince(before, s) && Enabled(s, a)
    ensures OwedSince(before, Next(s, a))
  {
    if s.emitted == before && MarkerOwed(s.worker) {
      OwedUntilEmitted(s, a);
    } else {
      EmittedGrowsByAction(s, a);
    }
  }

  lemma {:induction false} OwedAlongRun(states: seq<State>, acts: seq<Action>, m: nat, n: nat)
    requires IsRun(states, acts) && m <= n <= |acts| && MarkerOwed(states[m].worker)
    ensures OwedSince(states[m].emitted, states[n])
    decreases n - m
  {
    if m < n {
      OwedAlongRun(states, acts, m, n - 1);
      var s, a := states[n - 1], acts[n - 1];
      assert states[n] == Next(s, a);
      OwedByAction(states[m].emitted, s, a);
    }
  }

  /** Whoever clears the flag answers it: the first delta emitted after a clear asks for a resync, and says
      that the dashboard changed. */
  lemma EveryClearIsAnswered(states: seq<State>, acts: seq<Action>, m: nat, n: nat)
    requires IsRun(states, acts) && m < n <= |acts|
    requires states[m].flag && !states[m + 1].flag
    requires |states[m].emitted| < |states[n].emitted|
    ensures var first := states[n].emitted[|states[m].emitted|].delta; first.resyncRequired && first.dashboardChanged
  {
    assert states[m + 1] == Next(states[m], acts[m]);
    assert states[m + 1].emitted == states[m].emitted && MarkerOwed(states[m + 1].worker);
    OwedAlongRun(states, acts, m + 1, n);
  }
}
