/** What each emitted batch holds: the merge of its items, all of one generation, within the byte cap. */
module DeliveryBatches {
  import opened Options
  import opened DashboardHints
  import opened DeliveryProtocol

  /** The delta that says nothing: what `merge_from` leaves unchanged. */
  const EMPTY := Hint({}, {}, [], false, false)

  function MergeAll(base: Hint, items: seq<Queued>): Hint {
    if |items| == 0 then base else Merge(MergeAll(base, items[..|items| - 1]), items[|items| - 1].hint)
  }

  function TotalSize(items: seq<Queued>): nat {
    if |items| == 0 then 0 else TotalSize(items[..|items| - 1]) + items[|items| - 1].size
  }

  /** A batch is the merge of its items, on top of a marker or of nothing; items share its generation,
      and their bytes fit the cap unless there is only one. */
  ghost predicate WellBuilt(delta: Hint, items: seq<Queued>, generation: nat) {
    && (delta == MergeAll(MARKER, items) || (items != [] && delta == MergeAll(EMPTY, items)))
    && (forall k :: 0 <= k < |items| ==> items[k].generation == generation && items[k].size > 0)
    && (TotalSize(items) <= BATCH_BYTES || |items| == 1)
  }

  ghost predicate BatchBuilt(b: Batch) {
    WellBuilt(b.delta, b.items, b.generation) && b.pending == TotalSize(b.items)
  }

  /** A parked item is one that would have taken the batch over the cap. */
  ghost predicate ParkedForRoom(s: State, items: seq<Queued>, generation: nat) {
    s.deferred.Some? ==>
      && s.deferred.value.generation == generation
      && items != [] && TotalSize(items) + s.deferred.value.size > BATCH_BYTES
  }

  ghost predicate HandBuilt(s: State) {
    match s.worker
    case Took(first) => PositiveItem(first)
    case DrainingFirst(first) => PositiveItem(first)
    case LoadingGeneration(first) => PositiveItem(first)
    case Conflating(b) => BatchBuilt(b)
    case FinalCheck(b) => BatchBuilt(b) && ParkedForRoom(s, b.items, b.generation)
    case Emitting(e) =>
      && WellBuilt(e.delta, e.items, e.generation)
      && ParkedForRoom(s, e.items, e.generation)
    case _ => true
  }

  predicate PositiveItem(item: Item) {
    item.Delta? ==> item.queued.size > 0
  }

  predicate PositiveCall(pc: Pc) {
    match pc
    case RecheckFlag(_, n) => n > 0
    case RecheckGeneration(_, n) => n > 0
    case Enqueue(_, n) => n > 0
    case _ => true
  }

  ghost predicate Built(s: State) {
    && DeferredFits(s)
    && HandBuilt(s)
    && (forall i :: 0 <= i < |s.calls| ==> PositiveCall(s.calls[i].pc))
    && (forall k :: 0 <= k < |s.queue| ==> PositiveItem(s.queue[k]))
    && (s.deferred.Some? ==> s.deferred.value.size > 0)
    && (forall k :: 0 <= k < |s.emitted| ==>
          WellBuilt(s.emitted[k].delta, s.emitted[k].items, s.emitted[k].generation))
  }

  lemma {:induction false} EmptyOnlyWhenZero(items: seq<Queued>)
    requires forall k :: 0 <= k < |items| ==> items[k].size > 0
    ensures TotalSize(items) == 0 <==> items == []
  {
    if |items| > 0 {
      assert items[|items| - 1].size > 0;
    }
  }

  lemma MergeOne(q: Queued)
    ensures MergeAll(EMPTY, [q]) == q.hint && TotalSize([q]) == q.size
  {
    assert [q][..0] == [];
    assert Merge(EMPTY, q.hint) == q.hint;
  }

  lemma ConflateStep(b: Batch, q: Queued)
    requires BatchBuilt(b) && q.generation == b.generation && q.size > 0
    requires b.pending > 0 ==> b.pending + q.size <= BATCH_BYTES
    ensures BatchBuilt(Conflated(b, q))
  {
    var c := Conflated(b, q);
    assert c.items[..|c.items| - 1] == b.items;
    EmptyOnlyWhenZero(b.items);
  }

  lemma BuiltByConflating(s: State, b: Batch)
    requires Built(s) && s.worker == Conflating(b)
    ensures Built(Worked(s))
  {
    if b.pending < BATCH_BYTES && s.queue != [] && s.queue[0].Delta? {
      var q := s.queue[0].queued;
      assert PositiveItem(s.queue[0]);
      if q.generation == b.generation {
        if b.pending > 0 && b.pending + q.size > BATCH_BYTES {
          EmptyOnlyWhenZero(b.items);
        } else {
          ConflateStep(b, q);
        }
      }
    }
  }

  lemma BuiltByLoading(s: State, first: Item)
    requires Built(s) && s.worker == LoadingGeneration(first)
    ensures Built(Worked(s))
  {
    if first.Delta? {
      MergeOne(first.queued);
    }
  }

  lemma BuiltByEmitting(s: State, e: Emission)
    requires Built(s) && s.worker == Emitting(e)
    ensures Built(Worked(s))
  {
    assert Worked(s).emitted == s.emitted + [e];
  }

  lemma BuiltByWork(s: State)
    requires Built(s) && Enabled(s, Work)
    ensures Built(Worked(s))
  {
    match s.worker
    case LoadingGeneration(first) => BuiltByLoading(s, first);
    case Conflating(b) => BuiltByConflating(s, b);
    case Emitting(e) => BuiltByEmitting(s, e);
    case _ =>
  }

  lemma BuiltByAdvance(s: State, i: nat, size: Option<nat>)
    requires Built(s) && Enabled(s, Advance(i, size))
    ensures Built(Advanced(s, i, size))
  {
    AdvanceFrame(s, i, size);
    AdvanceStaysPositive(s, i, size);
    BuiltAfter(s, i, Advanced(s, i, size));
  }

  lemma AdvanceStaysPositive(s: State, i: nat, size: Option<nat>)
    requires Enabled(s, Advance(i, size)) && PositiveCall(s.calls[i].pc)
    ensures PositiveCall(Advanced(s, i, size).calls[i].pc)
  {
  }

  lemma BuiltAfter(s: State, i: nat, t: State)
    requires Built(s) && i < |s.calls| && t.worker == s.worker && t.deferred == s.deferred && t.emitted == s.emitted
    requires |t.calls| == |s.calls| && t.calls == s.calls[i := t.calls[i]] && PositiveCall(t.calls[i].pc)
    requires t.queue == s.queue || exists item :: PositiveItem(item) && t.queue == s.queue + [item]
    ensures Built(t)
  {
  }

  lemma BuiltByAction(s: State, a: Action)
    requires Built(s) && Enabled(s, a)
    ensures Built(Next(s, a))
  {
    match a
    case Begin(hint) => assert PositiveCall(LoadFlag);
    case Advance(i, size) => BuiltByAdvance(s, i, size);
    case Work => BuiltByWork(s);
  }

  lemma {:induction false} BatchesAreBuilt(states: seq<State>, acts: seq<Action>, n: nat)
    requires IsRun(states, acts) && n <= |acts|
    ensures Built(states[n])
    decreases n
  {
    if n > 0 {
      BatchesAreBuilt(states, acts, n - 1);
      BuiltByAction(states[n - 1], acts[n - 1]);
    }
  }

  lemma {:induction false} MergeAllCovers(base: Hint, items: seq<Queued>, k: nat)
    requires k < |items|
    ensures Covers(MergeAll(base, items), items[k].hint)
  {
    var last := |items| - 1;
    MergeCovers(MergeAll(base, items[..last]), items[last].hint);
    if k < last {
      MergeAllCovers(base, items[..last], k);
      CoversTransitive(MergeAll(base, items), MergeAll(base, items[..last]), items[k].hint);
    }
  }

  /** Every batch ever emitted says all that each of its items said, holds one generation only, and
      either fits the byte cap or carries a single delta; an item parked behind a batch did not fit it. */
  lemma EmittedBatches(states: seq<State>, acts: seq<Action>, n: nat, k: nat)
    requires IsRun(states, acts) && n <= |acts| && k < |states[n].emitted|
    ensures var e := states[n].emitted[k];
            && (forall j :: 0 <= j < |e.items| ==>
                  Covers(e.delta, e.items[j].hint) && e.items[j].generation == e.generation)
            && (TotalSize(e.items) <= 256 * 1024 || |e.items| == 1)
            && (e.items == [] ==> e.delta.resyncRequired && e.delta.dashboardChanged)
  {
    BatchesAreBuilt(states, acts, n);
    var e := states[n].emitted[k];
    forall j | 0 <= j < |e.items|
      ensures Covers(e.delta, e.items[j].hint)
    {
      MergeAllCovers(if e.delta == MergeAll(MARKER, e.items) then MARKER else EMPTY, e.items, j);
    }
  }

  lemma ParkedItemDidNotFit(states: seq<State>, acts: seq<Action>, n: nat)
    requires IsRun(states, acts) && n <= |acts|
    requires states[n].worker.Emitting? && states[n].deferred.Some?
    ensures TotalSize(states[n].worker.emission.items) + states[n].deferred.value.size > BATCH_BYTES
  {
    BatchesAreBuilt(states, acts, n);
  }
}
