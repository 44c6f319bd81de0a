/** Exactly where an invalidation is lost: for every run, without a condition.

    A call is accounted for while it is under way, while its delta is on its way or has been told, and
    while a resync makes up for it. It stops being so only where its delta is rejected for its generation. */
module DeliveryLosses {
  import opened Options
  import opened DashboardHints
  import opened DeliveryProtocol
  import opened DeliveryBatches
  import opened DeliveryOrder
  import opened DeliveryWakeup
  import opened DeliveryTransit
  import opened DeliveryGenerations

  ghost predicate Accounted(s: State, i: nat)
    requires i < |s.calls|
  {
    s.calls[i].pc != Returned || Delivered(s, i) || Waiting(s, i) || Excused(s, i)
  }

  /** The three places that reject a delta for its generation: the call's own recheck, the worker with
      the delta in hand, and the worker that finds it next in the channel. */
  predicate Drops(s: State, a: Action, i: nat) {
    match a
    case Begin(_) => false
    case Advance(j, _) =>
      j == i && i < |s.calls| && s.calls[i].pc.RecheckGeneration? && s.calls[i].pc.tag != s.generation
    case Work =>
      match s.worker
      case LoadingGeneration(first) => first.Delta? && Retired(first.queued, i, s.generation)
      case Conflating(b) =>
        b.pending < BATCH_BYTES && |s.queue| > 0 && s.queue[0].Delta? && Retired(s.queue[0].queued, i, b.generation)
      case _ => false
  }

  predicate Retired(q: Queued, i: nat, generation: nat) {
    q.call == i && q.generation != generation
  }

  /** The step drops a delta that nothing has told and no resync makes up for. */
  ghost predicate Loses(s: State, a: Action, i: nat)
    requires i < |s.calls|
  {
    Drops(s, a, i) && !Delivered(s, i) && !Excused(s, i)
  }

  // ---------- What holds in every reachable state ----------

  ghost predicate CallOurs(s: State, i: nat)
    requires i < |s.calls|
  {
    && s.calls[i].began <= |s.emitted|
    && (s.calls[i].pc.BumpGeneration? || s.calls[i].pc.SendWake? ==> Excused(s, i))
  }

  /** An enqueued delta is that of a call which has returned. */
  predicate ItemOurs(s: State, q: Queued) {
    q.call < |s.calls| && s.calls[q.call].pc == Returned && q.hint == s.calls[q.call].hint
  }

  ghost predicate Ours(s: State) {
    && (forall i :: 0 <= i < |s.calls| ==> CallOurs(s, i))
    && (forall k :: 0 <= k < |s.enqueued| ==> ItemOurs(s, s.enqueued[k]))
    && (forall j, k :: 0 <= j < k < |s.enqueued| ==> s.enqueued[j].call != s.enqueued[k].call)
  }

  lemma CallOursByAdvance(s: State, i: nat, size: Option<nat>, j: nat)
    requires Ours(s) && Enabled(s, Advance(i, size)) && j < |s.calls|
    ensures CallOurs(Advanced(s, i, size), j)
  {
    var t := Advanced(s, i, size);
    AdvanceFrame(s, i, size);
    assert CallOurs(s, j);
    assert t.calls[j].began == s.calls[j].began;
    if Excused(s, j) {
      ExcusedStays(s, Advance(i, size), j);
    }
  }

  lemma EnqueuedByAdvance(s: State, i: nat, size: Option<nat>)
    requires Enabled(s, Advance(i, size))
    ensures var t := Advanced(s, i, size);
            || t.enqueued == s.enqueued
            || (s.calls[i].pc.Enqueue? && t.calls[i].pc == Returned
                && exists q: Queued :: q.call == i && q.hint == s.calls[i].hint && t.enqueued == s.enqueued + [q])
    ensures Advanced(s, i, size).calls[i].hint == s.calls[i].hint
  {
    if s.calls[i].pc.Enqueue? && |s.queue| < DELIVERY_ITEMS {
      var t := Advanced(s, i, size);
      assert t.enqueued == s.enqueued + [t.enqueued[|s.enqueued|]];
    }
  }

  lemma OursByAdvance(s: State, i: nat, size: Option<nat>)
    requires Ours(s) && Enabled(s, Advance(i, size))
    ensures Ours(Advanced(s, i, size))
  {
    var t := Advanced(s, i, size);
    AdvanceFrame(s, i, size);
    EnqueuedByAdvance(s, i, size);
    forall j | 0 <= j < |t.calls|
      ensures CallOurs(t, j)
    {
      CallOursByAdvance(s, i, size, j);
    }
    ItemsOursAfter(s, i, t);
  }

  lemma ItemsOursAfter(s: State, i: nat, t: State)
    requires Ours(s) && i < |s.calls| && s.calls[i].pc != Returned
    requires |t.calls| == |s.calls| && t.calls == s.calls[i := t.calls[i]] && t.calls[i].hint == s.calls[i].hint
    requires || t.enqueued == s.enqueued
             || (t.calls[i].pc == Returned
                 && exists q: Queued :: q.call == i && q.hint == s.calls[i].hint && t.enqueued == s.enqueued + [q])
    ensures forall k :: 0 <= k < |t.enqueued| ==> ItemOurs(t, t.enqueued[k])
    ensures forall j, k :: 0 <= j < k < |t.enqueued| ==> t.enqueued[j].call != t.enqueued[k].call
  {
    forall k | 0 <= k < |t.enqueued|
      ensures ItemOurs(t, t.enqueued[k])
      ensures k < |s.enqueued| ==> t.enqueued[k] == s.enqueued[k] && t.enqueued[k].call != i
    {
      assert k < |s.enqueued| ==> t.enqueued[k] == s.enqueued[k] && ItemOurs(s, s.enqueued[k]);
    }
  }

  lemma OursByAction(s: State, a: Action)
    requires Ours(s) && Enabled(s, a)
    ensures Ours(Next(s, a))
  {
    var t := Next(s, a);
    match a
    case Begin(hint) =>
      OursByBegin(s, hint);
    case Advance(i, size) => OursByAdvance(s, i, size);
    case Work => OursByWork(s);
  }

  lemma OursByBegin(s: State, hint: Hint)
    requires Ours(s)
    ensures Ours(Next(s, Begin(hint)))
  {
    var t := Next(s, Begin(hint));
    forall i | 0 <= i < |t.calls|
      ensures CallOurs(t, i)
    {
      if i < |s.calls| {
        assert CallOurs(s, i);
        if Excused(s, i) {
          ExcusedStays(s, Begin(hint), i);
        }
      }
    }
    forall k | 0 <= k < |t.enqueued|
      ensures ItemOurs(t, t.enqueued[k])
    {
      assert ItemOurs(s, s.enqueued[k]);
    }
  }

  lemma OursByWork(s: State)
    requires Ours(s) && Enabled(s, Work)
    ensures Ours(Worked(s))
  {
    var t := Worked(s);
    WorkFrame(s);
    forall i | 0 <= i < |t.calls|
      ensures CallOurs(t, i)
    {
      assert CallOurs(s, i) && |s.emitted| <= |t.emitted|;
      if Excused(s, i) {
        ExcusedStays(s, Work, i);
      }
    }
    forall k | 0 <= k < |t.enqueued|
      ensures ItemOurs(t, t.enqueued[k])
    {
      assert ItemOurs(s, s.enqueued[k]);
    }
  }

  lemma {:induction false} OursAlongRun(states: seq<State>, acts: seq<Action>, n: nat)
    requires IsRun(states, acts) && n <= |acts|
    ensures Ours(states[n])
    decreases n
  {
    if n > 0 {
      OursAlongRun(states, acts, n - 1);
      OursByAction(states[n - 1], acts[n - 1]);
    }
  }

  // ---------- What is in transit belongs to one returned call, once ----------

  lemma {:induction false} DeltasHold(items: seq<Item>, q: Queued)
    ensures q in Deltas(items) <==> Delta(q) in items
  {
    if |items| > 0 {
      DeltasHold(items[1..], q);
      assert Delta(q) in items <==> items[0] == Delta(q) || Delta(q) in items[1..];
    }
  }

  lemma InTransitIsLive(s: State, q: Queued)
    ensures InTransit(s, q) <==> q in Live(s)
  {
    DeltasHold(s.queue, q);
    match s.worker
    case Took(first) => DeltasOne(first);
    case DrainingFirst(first) => DeltasOne(first);
    case LoadingGeneration(first) => DeltasOne(first);
    case _ =>
  }

  lemma LiveIsOurs(s: State, k: nat)
    requires Ours(s) && Ordered(s) && k < |Live(s)|
    ensures ItemOurs(s, Live(s)[k])
    ensures forall j :: 0 <= j < |Live(s)| && j != k ==> Live(s)[j].call != Live(s)[k].call
  {
    var base := |EmittedItems(s.emitted)|;
    forall j | 0 <= j < |Live(s)|
      ensures Live(s)[j].ticket < |s.enqueued| && Live(s)[j] == s.enqueued[Live(s)[j].ticket]
      ensures j < k ==> Live(s)[j].ticket < Live(s)[k].ticket
      ensures k < j ==> Live(s)[k].ticket < Live(s)[j].ticket
    {
      assert Trail(s)[base + j] == Live(s)[j] && Trail(s)[base + k] == Live(s)[k];
    }
  }

  lemma TransitIsOurs(s: State, q: Queued)
    requires Ours(s) && Ordered(s) && InTransit(s, q)
    ensures ItemOurs(s, q)
  {
    InTransitIsLive(s, q);
    var k :| 0 <= k < |Live(s)| && Live(s)[k] == q;
    LiveIsOurs(s, k);
  }

  // ---------- A step that loses a call drops its delta ----------

  /** The worker keeps an item, tells it, makes up for it, or drops it. */
  lemma WorkKeepsOrDrops(s: State, q: Queued)
    requires Built(s) && Enabled(s, Work) && InTransit(s, q) && q.call < |s.calls| && CallOurs(s, q.call)
    requires q.hint == s.calls[q.call].hint
    ensures var t := Worked(s);
            || InTransit(t, q) || Drops(s, Work, q.call)
            || t.flag || MarkerOwed(t.worker) || Delivered(t, q.call)
  {
    if Delta(q) in s.queue {
      QueueHead(s.queue, Delta(q));
    }
    if s.worker.Emitting? {
      EmittingDelivers(s, q);
    }
  }

  lemma LostByWork(s: State, i: nat)
    requires Built(s) && Ours(s) && Ordered(s) && Enabled(s, Work) && i < |s.calls|
    requires Accounted(s, i) && !Accounted(Worked(s), i)
    ensures Loses(s, Work, i)
  {
    WorkFrame(s);
    assert CallOurs(s, i);
    if Excused(s, i) {
      ExcusedStays(s, Work, i);
    } else if Delivered(s, i) {
      DeliveredStays(s, Work, i);
    } else {
      var q :| InTransit(s, q) && q.call == i;
      TransitIsOurs(s, q);
      WorkKeepsOrDrops(s, q);
    }
  }

  lemma LostByAdvance(s: State, j: nat, size: Option<nat>, i: nat)
    requires Ours(s) && Enabled(s, Advance(j, size)) && i < |s.calls|
    requires Accounted(s, i) && !Accounted(Advanced(s, j, size), i)
    ensures Loses(s, Advance(j, size), i)
  {
    var a := Advance(j, size);
    AdvanceFrame(s, j, size);
    assert CallOurs(s, i);
    if Excused(s, i) {
      ExcusedStays(s, a, i);
    } else if Delivered(s, i) {
      DeliveredStays(s, a, i);
    } else if q :| InTransit(s, q) && q.call == i {
      AdvanceTransit(s, j, size, q);
    } else {
      ReturnsByDropping(s, j, size);
    }
  }

  /** A call under way returns excused, enqueued, or dropped at its recheck. */
  lemma ReturnsByDropping(s: State, i: nat, size: Option<nat>)
    requires Ours(s) && Enabled(s, Advance(i, size)) && !Excused(s, i)
    requires Advanced(s, i, size).calls[i].pc == Returned
    ensures Drops(s, Advance(i, size), i) || Waiting(Advanced(s, i, size), i)
  {
    assert CallOurs(s, i);
    var t := Advanced(s, i, size);
    if s.calls[i].pc.Enqueue? {
      var q := t.enqueued[|s.enqueued|];
      AdvanceTransit(s, i, size, q);
      assert InTransit(t, q) && q.call == i;
    }
  }

  // ---------- A step that drops a delta loses its call ----------

  lemma DroppedByWork(s: State, i: nat)
    requires Ours(s) && Ordered(s) && Enabled(s, Work) && Drops(s, Work, i)
    ensures i < |s.calls| && s.calls[i].pc == Returned && Waiting(s, i) && !Waiting(Worked(s), i)
  {
    match s.worker
    case LoadingGeneration(first) =>
      RejectedIsLive(s, first);
      DroppedAt(s, Worked(s), 0, i);
    case Conflating(b) =>
      SkippedIsLive(s, b);
      DroppedAt(s, Worked(s), |b.items|, i);
  }

  /** A step that takes just one delta out of what is live leaves nothing of its call. */
  lemma DroppedAt(s: State, t: State, k: nat, i: nat)
    requires Ours(s) && Ordered(s) && k < |Live(s)| && Live(s)[k].call == i
    requires Live(t) == Live(s)[..k] + Live(s)[k + 1..]
    ensures i < |s.calls| && s.calls[i].pc == Returned && Waiting(s, i) && !Waiting(t, i)
  {
    LiveIsOurs(s, k);
    InTransitIsLive(s, Live(s)[k]);
    forall r | InTransit(t, r)
      ensures r.call != i
    {
      InTransitIsLive(t, r);
      var j :| 0 <= j < |Live(t)| && Live(t)[j] == r;
      assert Live(s)[if j < k then j else j + 1] == r;
    }
  }

  lemma RejectedIsLive(s: State, first: Item)
    requires s.worker == LoadingGeneration(first) && first.Delta? && first.queued.generation != s.generation
    ensures |Live(s)| > 0 && Live(s)[0] == first.queued && Live(Worked(s)) == Live(s)[..0] + Live(s)[1..]
  {
    DeltasOne(first);
    assert Live(s) == [first.queued] + Parked(s.deferred) + Deltas(s.queue);
    assert Live(Worked(s)) == Parked(s.deferred) + Deltas(s.queue);
  }

  lemma SkippedIsLive(s: State, b: Batch)
    requires s.worker == Conflating(b) && b.pending < BATCH_BYTES && |s.queue| > 0 && DeferredFits(s)
    requires s.queue[0].Delta? && s.queue[0].queued.generation != b.generation
    ensures var k := |b.items|;
            && k < |Live(s)| && Live(s)[k] == s.queue[0].queued
            && Live(Worked(s)) == Live(s)[..k] + Live(s)[k + 1..]
  {
    var t := Worked(s);
    DeltasHead(s.queue);
    DeltasOne(s.queue[0]);
    assert t.worker == s.worker && t.queue == s.queue[1..] && t.deferred.None?;
    assert Live(s) == b.items + [s.queue[0].queued] + Deltas(s.queue[1..]);
    assert Live(t) == b.items + Deltas(s.queue[1..]);
  }

  lemma DroppedIsLost(s: State, a: Action, i: nat)
    requires Ours(s) && Ordered(s) && Enabled(s, a) && i < |s.calls| && Loses(s, a, i)
    ensures Accounted(s, i) && !Accounted(Next(s, a), i)
  {
    var t := Next(s, a);
    if a.Work? {
      DroppedByWork(s, i);
      assert t.calls == s.calls && t.emitted == s.emitted && t.flag == s.flag && !MarkerOwed(t.worker);
    } else {
      assert t.calls[i].pc == Returned && t.calls[i].began == s.calls[i].began && t.queue == s.queue;
      assert t.calls[i].hint == s.calls[i].hint;
      forall q | InTransit(t, q)
        ensures q.call != i
      {
        AdvanceTransit(s, i, a.size, q);
        TransitIsOurs(s, q);
      }
    }
  }

  // ---------- The theorems ----------

  /** In every run, a step takes a call from accounted for to unaccounted for if and only if it drops the
      call's delta, untold and unexcused, at one of the three rejections. */
  lemma ACallIsLostExactlyWhereItIsDropped(states: seq<State>, acts: seq<Action>, n: nat, i: nat)
    requires IsRun(states, acts) && n < |acts| && i < |states[n].calls|
    ensures i < |states[n + 1].calls|
    ensures Accounted(states[n], i) && !Accounted(states[n + 1], i) <==> Loses(states[n], acts[n], i)
  {
    var s, a := states[n], acts[n];
    OursAlongRun(states, acts, n);
    OrderedAlongRun(states, acts, n);
    BatchesAreBuilt(states, acts, n);
    assert states[n + 1] == Next(s, a);
    CallsStay(s, a);
    if Loses(s, a, i) {
      DroppedIsLost(s, a, i);
    }
    if Accounted(s, i) && !Accounted(Next(s, a), i) {
      match a
      case Begin(hint) => BeginKeepsAccount(s, hint, i);
      case Advance(j, size) => LostByAdvance(s, j, size, i);
      case Work => LostByWork(s, i);
    }
  }

  lemma CallsStay(s: State, a: Action)
    requires Enabled(s, a)
    ensures |s.calls| <= |Next(s, a).calls|
  {
  }

  lemma BeginKeepsAccount(s: State, hint: Hint, i: nat)
    requires Ours(s) && i < |s.calls| && Accounted(s, i)
    ensures Accounted(Next(s, Begin(hint)), i)
  {
    var a := Begin(hint);
    assert CallOurs(s, i);
    if Excused(s, i) {
      ExcusedStays(s, a, i);
    } else if Delivered(s, i) {
      DeliveredStays(s, a, i);
    } else if q :| InTransit(s, q) && q.call == i {
      assert InTransit(Next(s, a), q);
    }
  }

  /** The call is lost by step `k` and not made up for until `n`. */
  ghost predicate LostSince(states: seq<State>, acts: seq<Action>, k: nat, n: nat, i: nat)
    requires |states| == |acts| + 1 && k < n <= |acts|
  {
    && i < |states[k].calls| && Loses(states[k], acts[k], i)
    && forall m :: k < m <= n ==> i < |states[m].calls| && !Accounted(states[m], i)
  }

  /** In every run, a call is unaccounted for at a moment if and only if an earlier step lost it and
      nothing has made up for it since. */
  lemma {:induction false} UnaccountedMeansLost(states: seq<State>, acts: seq<Action>, n: nat, i: nat)
    requires IsRun(states, acts) && n <= |acts| && i < |states[n].calls|
    ensures !Accounted(states[n], i) <==> exists k :: 0 <= k < n && LostSince(states, acts, k, n, i)
    decreases n
  {
    if n > 0 && !Accounted(states[n], i) {
      var s, a := states[n - 1], acts[n - 1];
      assert states[n] == Next(s, a);
      if i < |s.calls| {
        ACallIsLostExactlyWhereItIsDropped(states, acts, n - 1, i);
        UnaccountedMeansLost(states, acts, n - 1, i);
        if Accounted(s, i) {
          assert LostSince(states, acts, n - 1, n, i);
        } else {
          var k :| 0 <= k < n - 1 && LostSince(states, acts, k, n - 1, i);
          assert LostSince(states, acts, k, n, i);
        }
      }
    }
  }

  /** Told since the call began: by a delta that covers it, or by a resync. */
  ghost predicate Told(s: State, i: nat)
    requires i < |s.calls|
  {
    exists k :: s.calls[i].began <= k < |s.emitted| && TellsOf(s.emitted[k].delta, s.calls[i].hint)
  }

  predicate AtRest(s: State) {
    s.worker.AtTop? && s.deferred.None? && |s.queue| == 0 && !s.flag
  }

  ghost predicate TellsOf(delta: Hint, hint: Hint) {
    Covers(delta, hint) || IsResync(delta)
  }

  /** Once the worker has caught up, a returned `send` has been told to the reader since it began, unless
      and only unless a step lost it and nothing has made up for it since. */
  lemma CaughtUpExactly(states: seq<State>, acts: seq<Action>, n: nat, i: nat)
    requires IsRun(states, acts) && n <= |acts| && AtRest(states[n])
    requires i < |states[n].calls| && states[n].calls[i].pc == Returned
    ensures Told(states[n], i) <==> !exists k :: 0 <= k < n && LostSince(states, acts, k, n, i)
  {
    UnaccountedMeansLost(states, acts, n, i);
    var s := states[n];
    if Delivered(s, i) {
      var k :| s.calls[i].began <= k < |s.emitted| && Covers(s.emitted[k].delta, s.calls[i].hint);
      assert TellsOf(s.emitted[k].delta, s.calls[i].hint);
    }
    if Excused(s, i) {
      var k :| s.calls[i].began <= k < |s.emitted| && IsResync(s.emitted[k].delta);
      assert TellsOf(s.emitted[k].delta, s.calls[i].hint);
    }
    assert !Waiting(s, i);
  }

  // ---------- A loss needs a late bump ----------

  predicate Tagged(pc: Pc, tag: nat) {
    (pc.Reserve? || pc.RecheckFlag? || pc.RecheckGeneration? || pc.Enqueue?) && pc.tag == tag
  }

  predicate HasTag(s: State, i: nat, tag: nat) {
    i < |s.calls| && Tagged(s.calls[i].pc, tag)
  }

  /** A step tags a call with the current generation, or leaves its tag. */
  lemma TagStep(s: State, a: Action, i: nat, tag: nat)
    requires Enabled(s, a) && HasTag(Next(s, a), i, tag)
    ensures i < |s.calls| && (tag == s.generation || HasTag(s, i, tag))
  {
    match a
    case Begin(hint) => assert Next(s, a).calls == s.calls + [Call(hint, |s.emitted|, LoadFlag)];
    case Advance(j, size) =>
      AdvanceFrame(s, j, size);
      if i == j {
        OwnTagStep(s, i, size, tag);
      }
    case Work => WorkFrame(s);
  }

  lemma OwnTagStep(s: State, i: nat, size: Option<nat>, tag: nat)
    requires Enabled(s, Advance(i, size)) && Tagged(Advanced(s, i, size).calls[i].pc, tag)
    ensures tag == s.generation || HasTag(s, i, tag)
  {
  }

  /** A tag is the generation at some moment of its call. */
  lemma {:induction false} TagWasRead(states: seq<State>, acts: seq<Action>, n: nat, i: nat, tag: nat) returns (k: nat)
    requires IsRun(states, acts) && n <= |acts| && HasTag(states[n], i, tag)
    ensures k <= n && i < |states[k].calls| && states[k].generation == tag
    decreases n
  {
    if n > 0 {
      var s, a := states[n - 1], acts[n - 1];
      assert states[n] == Next(s, a);
      TagStep(s, a, i, tag);
      if s.generation == tag {
        k := n - 1;
      } else {
        k := TagWasRead(states, acts, n - 1, i, tag);
      }
    }
  }

  /** A step enqueues a call's delta under its tag, or nothing. */
  lemma EnqueueStep(s: State, a: Action)
    requires Enabled(s, a)
    ensures var t := Next(s, a);
            || t.enqueued == s.enqueued
            || (a.Advance? && s.calls[a.call].pc.Enqueue?
                && exists q: Queued :: q.call == a.call && q.generation == s.calls[a.call].pc.tag
                                       && t.enqueued == s.enqueued + [q])
  {
    if a.Advance? && s.calls[a.call].pc.Enqueue? && |s.queue| < DELIVERY_ITEMS {
      var t := Next(s, a);
      assert t.enqueued == s.enqueued + [t.enqueued[|s.enqueued|]];
    }
  }

  /** So is the generation of an enqueued delta. */
  lemma {:induction false} ItemTagWasRead(states: seq<State>, acts: seq<Action>, n: nat, e: nat) returns (k: nat)
    requires IsRun(states, acts) && n <= |acts| && e < |states[n].enqueued|
    ensures k <= n && states[n].enqueued[e].call < |states[k].calls|
    ensures states[k].generation == states[n].enqueued[e].generation
    decreases n
  {
    if n > 0 {
      EnqueueStep(states[n - 1], acts[n - 1]);
      if e < |states[n - 1].enqueued| {
        k := ItemTagWasRead(states, acts, n - 1, e);
      } else {
        k := TagWasRead(states, acts, n - 1, acts[n - 1].call, states[n].enqueued[e].generation);
      }
    }
  }

  lemma {:induction false} ExcusedAlongRun(states: seq<State>, acts: seq<Action>, m: nat, n: nat, i: nat)
    requires IsRun(states, acts) && m <= n <= |acts| && i < |states[m].calls| && Excused(states[m], i)
    ensures i < |states[n].calls| && Excused(states[n], i)
    decreases n
  {
    if m < n {
      ExcusedAlongRun(states, acts, m, n - 1, i);
      OursAlongRun(states, acts, n - 1);
      assert CallOurs(states[n - 1], i);
      CallsStay(states[n - 1], acts[n - 1]);
      ExcusedStays(states[n - 1], acts[n - 1], i);
    }
  }

  /** A generation that has moved since a moment of the call was bumped late, or the call is excused. */
  lemma MovedLateOrExcused(states: seq<State>, acts: seq<Action>, m: nat, n: nat, i: nat)
    requires IsRun(states, acts) && m <= n <= |acts| && i < |states[m].calls|
    requires states[m].generation < states[n].generation
    ensures i < |states[n].calls| && (Excused(states[n], i) || !NoLateBumpIn(states, acts, 0, n))
  {
    var k := BumpBetween(states, acts, m, n);
    CallsStayAlong(states, acts, m, k);
    CallsStayAlong(states, acts, m, n);
    if states[k].flag {
      ExcusedAlongRun(states, acts, k, n, i);
    }
  }

  lemma {:induction false} CallsStayAlong(states: seq<State>, acts: seq<Action>, m: nat, n: nat)
    requires IsRun(states, acts) && m <= n <= |acts|
    ensures |states[m].calls| <= |states[n].calls|
    decreases n
  {
    if m < n {
      CallsStayAlong(states, acts, m, n - 1);
      CallsStay(states[n - 1], acts[n - 1]);
    }
  }

  /** The same for the generation a batch was read under. */
  lemma ReadLateOrExcused(states: seq<State>, acts: seq<Action>, k: nat, n: nat, i: nat)
    requires IsRun(states, acts) && k <= n <= |acts| && i < |states[k].calls| && Held(states[n].worker).Some?
    requires states[k].generation != Held(states[n].worker).value
    ensures i < |states[n].calls| && (Excused(states[n], i) || !NoLateBumpIn(states, acts, 0, n))
  {
    var r := LastRead(states, acts, n);
    HeldSinceRead(states, acts, n);
    CallsStayAlong(states, acts, k, n);
    if states[k].generation < states[r].generation {
      if k > r {
        GenerationsAscend(states, acts, r, k);
      }
      MovedLateOrExcused(states, acts, k, r, i);
      if Excused(states[r], i) {
        ExcusedAlongRun(states, acts, r, n, i);
      }
    } else {
      if k < r {
        GenerationsAscend(states, acts, k, r);
      }
      var b := BumpBetween(states, acts, r, k);
      if states[b].flag {
        BumpKeepsFlag(states[b], acts[b]);
        FlagStays(states, acts, b + 1, n);
      }
    }
  }

  /** Nothing is ever lost before some `require_resync` has bumped the generation late. */
  lemma ALossNeedsALateBump(states: seq<State>, acts: seq<Action>, n: nat, i: nat)
    requires IsRun(states, acts) && n < |acts| && i < |states[n].calls| && Loses(states[n], acts[n], i)
    ensures exists k :: 0 <= k < n && LateBump(states[k], acts[k])
  {
    var s := states[n];
    OursAlongRun(states, acts, n);
    OrderedAlongRun(states, acts, n);
    if acts[n].Advance? {
      var k := TagWasRead(states, acts, n, i, s.calls[i].pc.tag);
      GenerationsAscend(states, acts, k, n);
      MovedLateOrExcused(states, acts, k, n, i);
    } else {
      var q := if s.worker.LoadingGeneration? then s.worker.first.queued else s.queue[0].queued;
      assert InTransit(s, q);
      var e := TransitIsEnqueued(s, q);
      var k := ItemTagWasRead(states, acts, n, e);
      if s.worker.LoadingGeneration? {
        GenerationsAscend(states, acts, k, n);
        MovedLateOrExcused(states, acts, k, n, i);
      } else {
        ReadLateOrExcused(states, acts, k, n, i);
      }
    }
  }

  lemma TransitIsEnqueued(s: State, q: Queued) returns (e: nat)
    requires Ordered(s) && InTransit(s, q)
    ensures e < |s.enqueued| && s.enqueued[e] == q
  {
    InTransitIsLive(s, q);
    var k :| 0 <= k < |Live(s)| && Live(s)[k] == q;
    assert Trail(s)[|EmittedItems(s.emitted)| + k] == q;
    e := q.ticket;
  }
}
