/** Order and exactly-once: what is emitted follows enqueue order and never repeats. */
module DeliveryOrder {
  import opened Options
  import opened DeliveryProtocol

  /** Every item merged into an emitted batch, in emission order. */
  function EmittedItems(emitted: seq<Emission>): seq<Queued> {
    if |emitted| == 0 then []
    else EmittedItems(emitted[..|emitted| - 1]) + emitted[|emitted| - 1].items
  }

  /** Emitted items followed by everything still live. */
  function Trail(s: State): seq<Queued> {
    EmittedItems(s.emitted) + Live(s)
  }

  /** No `send` has overflowed yet. */
  predicate NoOverflow(s: State) {
    s.generation == 0 && forall i :: 0 <= i < |s.calls| ==> !s.calls[i].pc.BumpGeneration?
  }

  /** `xs` is a duplicate-free subsequence of `ys`: tickets index `ys` and strictly increase. */
  ghost predicate Picks(xs: seq<Queued>, ys: seq<Queued>) {
    && (forall k :: 0 <= k < |xs| ==> xs[k].ticket < |ys| && xs[k] == ys[xs[k].ticket])
    && (forall j, k :: 0 <= j < k < |xs| ==> xs[j].ticket < xs[k].ticket)
  }

  /** Without an overflow nothing is dropped, so no tag is stale and no drain is under way. */
  ghost predicate Calm(s: State) {
    && !s.flag
    && !s.worker.DrainingFirst? && !s.worker.DrainingLast?
    && (forall k :: 0 <= k < |s.queue| ==> s.queue[k].Delta? && s.queue[k].queued.generation == 0)
    && (s.deferred.Some? ==> s.deferred.value.generation == 0)
    && (forall i :: 0 <= i < |s.calls| ==> CalmCall(s.calls[i].pc))
    && (match s.worker
        case Took(first) => first.Delta? && first.queued.generation == 0
        case LoadingGeneration(first) => first.Delta? && first.queued.generation == 0
        case Conflating(b) => b.generation == 0
        case FinalCheck(b) => b.generation == 0
        case _ => true)
    && Trail(s) == s.enqueued
  }

  predicate CalmCall(pc: Pc) {
    match pc
    case Reserve(tag) => tag == 0
    case RecheckFlag(tag, _) => tag == 0
    case RecheckGeneration(tag, _) => tag == 0
    case Enqueue(tag, _) => tag == 0
    case BumpGeneration(_) => false
    case SendWake(_) => false
    case _ => true
  }

  ghost predicate Ordered(s: State) {
    && DeferredFits(s)
    && Picks(Trail(s), s.enqueued)
    && (NoOverflow(s) ==> Calm(s))
  }

  lemma PicksPrefix(xs: seq<Queued>, ys: seq<Queued>, zs: seq<Queued>, cut: seq<Queued>)
    requires Picks(xs + cut + zs, ys)
    ensures Picks(xs + zs, ys)
  {
    var all, some := xs + cut + zs, xs + zs;
    forall k | 0 <= k < |some|
      ensures some[k].ticket < |ys| && some[k] == ys[some[k].ticket]
    {
      assert some[k] == all[if k < |xs| then k else k + |cut|];
    }
    forall j, k | 0 <= j < k < |some|
      ensures some[j].ticket < some[k].ticket
    {
      assert some[j] == all[if j < |xs| then j else j + |cut|];
      assert some[k] == all[if k < |xs| then k else k + |cut|];
    }
  }

  lemma DeltasOne(item: Item)
    ensures Deltas([item]) == if item.Delta? then [item.queued] else []
  {
  }

  lemma DeltasHead(items: seq<Item>)
    requires items != []
    ensures Deltas(items) == Deltas([items[0]]) + Deltas(items[1..])
  {
    DeltasOne(items[0]);
  }

  /** `after` is `before` with one contiguous part cut out. */
  ghost predicate CutFrom(before: seq<Queued>, after: seq<Queued>, left: seq<Queued>, cut: seq<Queued>,
                          right: seq<Queued>) {
    before == left + cut + right && after == left + right
  }

  lemma CutAtTop(s: State)
    requires Enabled(s, Work) && s.worker.AtTop?
    ensures Live(Worked(s)) == Live(s)
  {
    if s.deferred.Some? {
      DeltasOne(Delta(s.deferred.value));
    } else {
      DeltasHead(s.queue);
    }
  }

  lemma CutDrainingFirst(s: State) returns (left: seq<Queued>, cut: seq<Queued>, right: seq<Queued>)
    requires DeferredFits(s) && s.worker.DrainingFirst?
    ensures CutFrom(Live(s), Live(Worked(s)), left, cut, right)
  {
    if s.queue != [] {
      DeltasHead(s.queue);
      left, cut, right := InHand(s.worker), Deltas([s.queue[0]]), Deltas(s.queue[1..]);
    } else {
      DeltasOne(Wake);
      left, cut, right := [], InHand(s.worker), [];
    }
  }

  lemma CutLoading(s: State) returns (left: seq<Queued>, cut: seq<Queued>, right: seq<Queued>)
    requires DeferredFits(s) && s.worker.LoadingGeneration?
    ensures CutFrom(Live(s), Live(Worked(s)), left, cut, right)
    ensures s.worker.first.Delta? && s.worker.first.queued.generation == s.generation ==> cut == []
  {
    DeltasOne(s.worker.first);
    if s.worker.first.Delta? && s.worker.first.queued.generation != s.generation {
      left, cut, right := [], InHand(s.worker), Deltas(s.queue);
    } else {
      left, cut, right := Live(s), [], [];
    }
  }

  lemma ConflatingMoves(s: State, b: Batch)
    requires DeferredFits(s) && s.worker == Conflating(b) && b.pending < BATCH_BYTES && s.queue != []
    requires s.queue[0].Delta? ==> s.queue[0].queued.generation == b.generation
    ensures Live(Worked(s)) == b.items + Deltas([s.queue[0]]) + Deltas(s.queue[1..])
  {
    DeltasOne(s.queue[0]);
    if s.queue[0].Delta? {
      var q := s.queue[0].queued;
      if b.pending > 0 && b.pending + q.size > BATCH_BYTES {
        assert Worked(s) == s.(queue := s.queue[1..], deferred := Some(q), worker := FinalCheck(b));
      } else {
        assert Worked(s).worker == Conflating(Conflated(b, q));
      }
    } else {
      assert Worked(s) == s.(queue := s.queue[1..]);
    }
  }

  lemma CutConflating(s: State, b: Batch) returns (left: seq<Queued>, cut: seq<Queued>, right: seq<Queued>)
    requires DeferredFits(s) && s.worker == Conflating(b)
    ensures CutFrom(Live(s), Live(Worked(s)), left, cut, right)
    ensures cut != [] ==> s.queue != [] && s.queue[0].Delta? && s.queue[0].queued.generation != b.generation
  {
    if b.pending >= BATCH_BYTES || s.queue == [] {
      left, cut, right := Live(s), [], [];
    } else {
      DeltasHead(s.queue);
      var one, rest := Deltas([s.queue[0]]), Deltas(s.queue[1..]);
      assert Live(s) == b.items + one + rest;
      if s.queue[0].Delta? && s.queue[0].queued.generation != b.generation {
        left, cut, right := b.items, one, rest;
      } else {
        ConflatingMoves(s, b);
        left, cut, right := Live(s), [], [];
      }
    }
  }

  lemma CutFinalCheck(s: State, b: Batch) returns (left: seq<Queued>, cut: seq<Queued>, right: seq<Queued>)
    requires s.worker == FinalCheck(b)
    ensures CutFrom(Live(s), Live(Worked(s)), left, cut, right)
    ensures !s.flag ==> cut == []
  {
    if s.flag {
      left, cut, right := [], b.items, Parked(s.deferred) + Deltas(s.queue);
    } else {
      left, cut, right := Live(s), [], [];
    }
  }

  lemma CutDrainingLast(s: State) returns (left: seq<Queued>, cut: seq<Queued>, right: seq<Queued>)
    requires s.worker.DrainingLast?
    ensures CutFrom(Live(s), Live(Worked(s)), left, cut, right)
  {
    if s.deferred.Some? {
      left, cut, right := [], Parked(s.deferred), Deltas(s.queue);
    } else if s.queue != [] {
      DeltasHead(s.queue);
      left, cut, right := [], Deltas([s.queue[0]]), Deltas(s.queue[1..]);
    } else {
      left, cut, right := [], [], [];
    }
  }

  /** A worker step drops at most one contiguous part of what is live, and nothing while calm. */
  lemma WorkCutsLive(s: State) returns (left: seq<Queued>, cut: seq<Queued>, right: seq<Queued>)
    requires Enabled(s, Work) && DeferredFits(s) && !s.worker.Emitting?
    ensures CutFrom(Live(s), Live(Worked(s)), left, cut, right)
    ensures Calm(s) && s.generation == 0 ==> cut == []
  {
    match s.worker
    case AtTop =>
      CutAtTop(s);
      left, cut, right := Live(s), [], [];
    case Took(first) => left, cut, right := Live(s), [], [];
    case DrainingFirst(_) => left, cut, right := CutDrainingFirst(s);
    case LoadingGeneration(_) => left, cut, right := CutLoading(s);
    case Conflating(b) => left, cut, right := CutConflating(s, b);
    case FinalCheck(b) => left, cut, right := CutFinalCheck(s, b);
    case DrainingLast(_) => left, cut, right := CutDrainingLast(s);
  }

  lemma EmittingKeepsTrail(s: State)
    requires s.worker.Emitting?
    ensures Trail(Worked(s)) == Trail(s)
  {
    assert Worked(s).emitted[..|s.emitted|] == s.emitted;
  }

  lemma CutKeepsPicks(emitted: seq<Queued>, before: seq<Queued>, after: seq<Queued>, ys: seq<Queued>,
                      left: seq<Queued>, cut: seq<Queued>, right: seq<Queued>)
    requires CutFrom(before, after, left, cut, right) && Picks(emitted + before, ys)
    ensures Picks(emitted + after, ys)
    ensures cut == [] ==> after == before
  {
    assert emitted + before == (emitted + left) + cut + right;
    assert emitted + after == (emitted + left) + right;
    PicksPrefix(emitted + left, ys, right, cut);
  }

  lemma WorkFrame(s: State)
    requires Enabled(s, Work)
    ensures Worked(s).calls == s.calls && Worked(s).generation == s.generation && Worked(s).enqueued == s.enqueued
    ensures DeferredFits(s) ==> DeferredFits(Worked(s))
    ensures !s.worker.Emitting? ==> Worked(s).emitted == s.emitted
  {
  }

  lemma WorkCutsTrail(s: State, t: State)
    requires Enabled(s, Work) && DeferredFits(s) && t == Worked(s)
    ensures Picks(Trail(s), s.enqueued) ==> Picks(Trail(t), s.enqueued)
    ensures Calm(s) && s.generation == 0 ==> Trail(t) == Trail(s)
  {
    if s.worker.Emitting? {
      EmittingKeepsTrail(s);
    } else {
      WorkFrame(s);
      var left, cut, right := WorkCutsLive(s);
      if Picks(Trail(s), s.enqueued) {
        CutKeepsPicks(EmittedItems(s.emitted), Live(s), Live(t), s.enqueued, left, cut, right);
      }
    }
  }

  /** The parts of `Calm` other than the trail. */
  lemma StaysCalm(s: State)
    requires Enabled(s, Work) && DeferredFits(s) && s.generation == 0 && Calm(s)
    requires Trail(Worked(s)) == Trail(s)
    ensures Calm(Worked(s))
  {
  }

  lemma OrderedAfter(s: State, t: State)
    requires Ordered(s) && t.calls == s.calls && t.generation == s.generation && DeferredFits(t)
    requires Picks(Trail(t), t.enqueued) && (NoOverflow(s) ==> Calm(t))
    ensures Ordered(t)
  {
  }

  lemma OrderedByWork(s: State, t: State)
    requires Ordered(s) && Enabled(s, Work) && t == Worked(s)
    ensures Ordered(t)
  {
    WorkFrame(s);
    WorkCutsTrail(s, t);
    if NoOverflow(s) {
      StaysCalm(s);
    }
    OrderedAfter(s, t);
  }

  lemma AdvanceTrail(s: State, i: nat, size: Option<nat>)
    requires Enabled(s, Advance(i, size))
    ensures var t := Advanced(s, i, size);
            if s.calls[i].pc.Enqueue? && |s.queue| < DELIVERY_ITEMS
            then exists q: Queued :: && q.ticket == |s.enqueued| && t.enqueued == s.enqueued + [q]
                                     && Trail(t) == Trail(s) + [q]
            else t.enqueued == s.enqueued && Trail(t) == Trail(s)
  {
    var t := Advanced(s, i, size);
    AdvanceFrame(s, i, size);
    if s.calls[i].pc.Enqueue? && |s.queue| < DELIVERY_ITEMS {
      var q := Queued(i, s.calls[i].hint, s.calls[i].pc.size, s.calls[i].pc.tag, |s.enqueued|);
      EnqueueTrail(s, t, Delta(q));
    } else if t.queue != s.queue {
      EnqueueTrail(s, t, Wake);
    }
  }

  lemma EnqueueTrail(s: State, t: State, item: Item)
    requires t.worker == s.worker && t.deferred == s.deferred && t.emitted == s.emitted && t.queue == s.queue + [item]
    ensures Trail(t) == Trail(s) + (if item.Delta? then [item.queued] else [])
  {
    DeltasConcat(s.queue, [item]);
    DeltasOne(item);
  }

  lemma AdvanceStaysCalm(s: State, i: nat, size: Option<nat>)
    requires Enabled(s, Advance(i, size)) && NoOverflow(s) && Calm(s)
    requires NoOverflow(Advanced(s, i, size))
    requires Trail(Advanced(s, i, size)) == Advanced(s, i, size).enqueued
    ensures Calm(Advanced(s, i, size))
  {
    var t := Advanced(s, i, size);
    assert t.calls[i].pc != s.calls[i].pc;
    assert CalmCall(s.calls[i].pc) && !t.calls[i].pc.BumpGeneration?;
  }

  lemma PicksAppend(xs: seq<Queued>, ys: seq<Queued>, q: Queued)
    requires Picks(xs, ys) && q.ticket == |ys|
    ensures Picks(xs + [q], ys + [q])
  {
  }

  lemma OverflowIsForever(s: State, i: nat, size: Option<nat>)
    requires Enabled(s, Advance(i, size)) && NoOverflow(Advanced(s, i, size))
    ensures NoOverflow(s)
  {
    var t := Advanced(s, i, size);
    assert forall j :: 0 <= j < |s.calls| && j != i ==> s.calls[j] == t.calls[j];
  }

  lemma AdvancePicks(s: State, i: nat, size: Option<nat>, t: State)
    requires Picks(Trail(s), s.enqueued) && Enabled(s, Advance(i, size)) && t == Advanced(s, i, size)
    ensures Picks(Trail(t), t.enqueued) && (Trail(s) == s.enqueued ==> Trail(t) == t.enqueued)
  {
    AdvanceTrail(s, i, size);
    if s.calls[i].pc.Enqueue? && |s.queue| < DELIVERY_ITEMS {
      PicksAppend(Trail(s), s.enqueued, t.enqueued[|s.enqueued|]);
    }
  }

  lemma OrderedByAdvance(s: State, i: nat, size: Option<nat>, t: State)
    requires Ordered(s) && Enabled(s, Advance(i, size)) && t == Advanced(s, i, size)
    ensures Ordered(t)
  {
    AdvancePicks(s, i, size, t);
    AdvanceFrame(s, i, size);
    if NoOverflow(t) {
      OverflowIsForever(s, i, size);
      AdvanceStaysCalm(s, i, size);
    }
  }

  lemma OrderedByAction(s: State, a: Action)
    requires Ordered(s) && Enabled(s, a)
    ensures Ordered(Next(s, a))
  {
    match a
    case Begin(hint) =>
      var t := Next(s, a);
      assert forall i :: 0 <= i < |s.calls| ==> t.calls[i] == s.calls[i];
    case Advance(i, size) => OrderedByAdvance(s, i, size, Next(s, a));
    case Work => OrderedByWork(s, Next(s, a));
  }

  lemma {:induction false} OrderedAlongRun(states: seq<State>, acts: seq<Action>, n: nat)
    requires IsRun(states, acts) && n <= |acts|
    ensures Ordered(states[n])
    decreases n
  {
    if n > 0 {
      OrderedAlongRun(states, acts, n - 1);
      OrderedByAction(states[n - 1], acts[n - 1]);
    }
  }

  /** Every run: the items merged into emitted batches, then those still live, are a duplicate-free
      subsequence of enqueue order; until the first overflow they are the enqueue order itself. */
  lemma EmissionFollowsEnqueueOrder(states: seq<State>, acts: seq<Action>, n: nat)
    requires IsRun(states, acts) && n <= |acts|
    ensures Picks(EmittedItems(states[n].emitted) + Live(states[n]), states[n].enqueued)
    ensures NoOverflow(states[n]) ==> EmittedItems(states[n].emitted) + Live(states[n]) == states[n].enqueued
  {
    OrderedAlongRun(states, acts, n);
  }
}
