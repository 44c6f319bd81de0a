/** What an emission says: just what its items say, and a resync only where one was asked for. */
module DeliveryContent {
  import opened Options
  import opened DashboardHints
  import opened DeliveryProtocol
  import opened DeliveryBatches
  import opened DeliveryWakeup
  import opened DeliveryGenerations

  /** The moves of all items, one item after the other. */
  function AllMoves(items: seq<Queued>): seq<Event> {
    if |items| == 0 then [] else AllMoves(items[..|items| - 1]) + items[|items| - 1].hint.moves
  }

  ghost predicate SomeNames(items: seq<Queued>, id: string) {
    exists j :: 0 <= j < |items| && id in items[j].hint.changedSessionIds
  }

  ghost predicate SomeNamesGoal(items: seq<Queued>, id: string) {
    exists j :: 0 <= j < |items| && id in items[j].hint.goalChangedIds
  }

  ghost predicate SomeAsks(items: seq<Queued>) {
    exists j :: 0 <= j < |items| && items[j].hint.resyncRequired
  }

  ghost predicate SomeChanges(items: seq<Queued>) {
    exists j :: 0 <= j < |items| && items[j].hint.dashboardChanged
  }

  /** Sessions, goals and moves are those of the items. */
  ghost predicate SaysJust(delta: Hint, items: seq<Queued>) {
    && (forall id :: id in delta.changedSessionIds <==> SomeNames(items, id))
    && (forall id :: id in delta.goalChangedIds <==> SomeNamesGoal(items, id))
    && delta.moves == AllMoves(items)
  }

  lemma {:induction false} MergeAllSaysJust(base: Hint, items: seq<Queued>)
    requires base.changedSessionIds == {} && base.goalChangedIds == {} && base.moves == []
    ensures SaysJust(MergeAll(base, items), items)
    ensures MergeAll(base, items).resyncRequired <==> base.resyncRequired || SomeAsks(items)
    ensures MergeAll(base, items).dashboardChanged <==> base.dashboardChanged || SomeChanges(items)
  {
    if |items| > 0 {
      var front, last := items[..|items| - 1], items[|items| - 1];
      MergeAllSaysJust(base, front);
      assert forall j :: 0 <= j < |front| ==> front[j] == items[j];
      forall id
        ensures SomeNames(items, id) <==> SomeNames(front, id) || id in last.hint.changedSessionIds
        ensures SomeNamesGoal(items, id) <==> SomeNamesGoal(front, id) || id in last.hint.goalChangedIds
      {
        assert items[|items| - 1] == last;
      }
      assert SomeAsks(items) <==> SomeAsks(front) || last.hint.resyncRequired;
      assert SomeChanges(items) <==> SomeChanges(front) || last.hint.dashboardChanged;
    }
  }

  /** In every run, an emission names just the sessions and goals its items name, and carries their moves in
      the items' order. */
  lemma AnEmissionSaysJustWhatItsItemsSay(states: seq<State>, acts: seq<Action>, n: nat, k: nat)
    requires IsRun(states, acts) && n <= |acts| && k < |states[n].emitted|
    ensures SaysJust(states[n].emitted[k].delta, states[n].emitted[k].items)
  {
    BatchesAreBuilt(states, acts, n);
    MergeAllSaysJust(MARKER, states[n].emitted[k].items);
    MergeAllSaysJust(EMPTY, states[n].emitted[k].items);
  }

  // ---------- When an emission is a resync ----------

  /** The step clears the flag, or takes a wake. */
  predicate AsksForResync(s: State, a: Action)
    requires Enabled(s, a)
  {
    (s.flag && !Next(s, a).flag) || (!Next(s, a).worker.AtTop? && s.worker.AtTop? && Next(s, a).worker == Took(Wake))
  }

  /** The worker is building on nothing but deltas. */
  ghost predicate Plain(s: State) {
    match s.worker
    case AtTop => true
    case Took(first) => first.Delta?
    case LoadingGeneration(first) => first.Delta?
    case Conflating(b) => b.delta == MergeAll(EMPTY, b.items)
    case FinalCheck(b) => b.delta == MergeAll(EMPTY, b.items)
    case Emitting(e) => e.delta == MergeAll(EMPTY, e.items)
    case _ => false
  }

  lemma PlainStep(s: State, a: Action)
    requires Enabled(s, a) && Plain(s) && !Emits(s, a) && !AsksForResync(s, a)
    ensures Plain(Next(s, a))
  {
    match a
    case Begin(_) =>
    case Advance(i, size) => AdvanceFrame(s, i, size);
    case Work => PlainWork(s);
  }

  lemma PlainWork(s: State)
    requires Enabled(s, Work) && Plain(s) && !s.worker.Emitting? && !AsksForResync(s, Work)
    ensures Plain(Worked(s))
  {
    match s.worker
    case LoadingGeneration(first) => MergeOne(first.queued);
    case Conflating(b) =>
      if |s.queue| > 0 && s.queue[0].Delta? {
        var more := Conflated(b, s.queue[0].queued);
        assert more.items[..|b.items|] == b.items;
      }
    case _ =>
  }

  lemma {:induction false} PlainAlong(states: seq<State>, acts: seq<Action>, a: nat, n: nat)
    requires IsRun(states, acts) && a <= n <= |acts| && Plain(states[a])
    requires forall j :: a <= j < n ==> !Emits(states[j], acts[j]) && !AsksForResync(states[j], acts[j])
    ensures Plain(states[n])
    decreases n
  {
    if a < n {
      PlainAlong(states, acts, a, n - 1);
      PlainStep(states[n - 1], acts[n - 1]);
    }
  }

  /** Since the worker started on the delta emitted by step `n`, it has cleared the flag or taken a wake. */
  ghost predicate Asked(states: seq<State>, acts: seq<Action>, n: nat)
    requires IsRun(states, acts) && n <= |acts|
  {
    exists k :: Start(states, acts, n) <= k < n && AsksForResync(states[k], acts[k])
  }

  /** In every run, an emission asks for a resync if and only if the worker cleared the flag or took a wake
      for it, or one of its items asks; likewise for its dashboard flag. */
  lemma AResyncIsEmittedExactlyWhenAsked(states: seq<State>, acts: seq<Action>, n: nat)
    requires IsRun(states, acts) && n < |acts| && Emits(states[n], acts[n])
    ensures var e := states[n].worker.emission;
            && (e.delta.resyncRequired <==> Asked(states, acts, n) || SomeAsks(e.items))
            && (e.delta.dashboardChanged <==> Asked(states, acts, n) || SomeChanges(e.items))
  {
    var s, a := states[n], Start(states, acts, n);
    ReadAfterStart(states, acts, n);
    BatchesAreBuilt(states, acts, n);
    MergeAllSaysJust(MARKER, s.worker.emission.items);
    MergeAllSaysJust(EMPTY, s.worker.emission.items);
    if k :| a <= k < n && AsksForResync(states[k], acts[k]) {
      AskedIsOwed(states[k], acts[k]);
      OwedUntil(states, acts, k + 1, n);
    } else {
      PlainAlong(states, acts, a, n);
    }
  }

  lemma AskedIsOwed(s: State, a: Action)
    requires Enabled(s, a) && AsksForResync(s, a)
    ensures MarkerOwed(Next(s, a).worker)
  {
  }

  lemma {:induction false} OwedUntil(states: seq<State>, acts: seq<Action>, k: nat, n: nat)
    requires IsRun(states, acts) && k <= n <= |acts| && MarkerOwed(states[k].worker)
    requires forall j :: k <= j < n ==> !Emits(states[j], acts[j])
    ensures MarkerOwed(states[n].worker)
    decreases n
  {
    if k < n {
      OwedUntil(states, acts, k, n - 1);
      OwedStays(states[n - 1], acts[n - 1]);
    }
  }

  lemma OwedStays(s: State, a: Action)
    requires Enabled(s, a) && MarkerOwed(s.worker) && !Emits(s, a)
    ensures MarkerOwed(Next(s, a).worker)
  {
    match a
    case Begin(_) =>
    case Advance(i, size) => AdvanceFrame(s, i, size);
    case Work => OwedByWork(s);
  }

  lemma OwedByWork(s: State)
    requires Enabled(s, Work) && MarkerOwed(s.worker) && !s.worker.Emitting?
    ensures MarkerOwed(Worked(s).worker)
  {
  }
}
