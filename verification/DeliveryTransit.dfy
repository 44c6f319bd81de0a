/** What becomes of a call's delta: where it can be, when it has been told, and when a resync makes up for it. */
module DeliveryTransit {
  import opened Options
  import opened DashboardHints
  import opened DeliveryProtocol
  import opened DeliveryBatches
  import opened DeliveryWakeup

  /** A generation bumped after the flag that asked for it was already cleared. */
  predicate LateBump(s: State, a: Action) {
    a.Advance? && a.call < |s.calls| && s.calls[a.call].pc.BumpGeneration? && !s.flag
  }

  /** A resync pending, owed by the worker, or emitted since the call began. */
  ghost predicate Excused(s: State, i: nat)
    requires i < |s.calls|
  {
    || s.flag
    || MarkerOwed(s.worker)
    || exists k :: s.calls[i].began <= k < |s.emitted| && IsResync(s.emitted[k].delta)
  }

  /** A delta emitted since the call began says everything the call said. */
  ghost predicate Delivered(s: State, i: nat)
    requires i < |s.calls|
  {
    exists k :: s.calls[i].began <= k < |s.emitted| && Covers(s.emitted[k].delta, s.calls[i].hint)
  }

  predicate HandHolds(w: Worker, q: Queued) {
    match w
    case AtTop => false
    case Took(first) => first == Delta(q)
    case DrainingFirst(first) => first == Delta(q)
    case LoadingGeneration(first) => first == Delta(q)
    case Conflating(b) => q in b.items
    case FinalCheck(b) => q in b.items
    case DrainingLast(_) => false
    case Emitting(e) => q in e.items
  }

  predicate InTransit(s: State, q: Queued) {
    HandHolds(s.worker, q) || s.deferred == Some(q) || Delta(q) in s.queue
  }

  /** The call's delta is queued, parked or in the worker's hand. */
  ghost predicate Waiting(s: State, i: nat) {
    exists q :: InTransit(s, q) && q.call == i
  }

  lemma ExcusedStays(s: State, a: Action, i: nat)
    requires Enabled(s, a) && i < |s.calls| && s.calls[i].began <= |s.emitted| && Excused(s, i)
    ensures Excused(Next(s, a), i) && Next(s, a).calls[i].began == s.calls[i].began
  {
    var t := Next(s, a);
    EmittedGrowsByAction(s, a);
    CallStays(s, a, i);
    if k :| s.calls[i].began <= k < |s.emitted| && IsResync(s.emitted[k].delta) {
      assert t.emitted[k] == s.emitted[k];
    } else if MarkerOwed(s.worker) {
      OwedUntilEmitted(s, a);
    }
  }

  lemma DeliveredStays(s: State, a: Action, i: nat)
    requires Enabled(s, a) && i < |s.calls| && Delivered(s, i)
    ensures Delivered(Next(s, a), i)
  {
    var t := Next(s, a);
    var k :| s.calls[i].began <= k < |s.emitted| && Covers(s.emitted[k].delta, s.calls[i].hint);
    EmittedGrowsByAction(s, a);
    CallStays(s, a, i);
    assert t.emitted[k] == s.emitted[k];
  }

  lemma CallStays(s: State, a: Action, i: nat)
    requires Enabled(s, a) && i < |s.calls|
    ensures var t := Next(s, a);
            i < |t.calls| && t.calls[i].hint == s.calls[i].hint && t.calls[i].began == s.calls[i].began
  {
    match a
    case Begin(_) =>
    case Advance(j, size) => CallsAdvance(s, j, size);
    case Work => WorkLeavesCalls(s);
  }

  lemma CallsAdvance(s: State, j: nat, size: Option<nat>)
    requires Enabled(s, Advance(j, size))
    ensures exists pc :: Advanced(s, j, size).calls == Goto(s, j, pc).calls
  {
    var t := Advanced(s, j, size);
    assert t.calls == Goto(s, j, t.calls[j].pc).calls;
  }

  lemma WorkLeavesCalls(s: State)
    requires Enabled(s, Work)
    ensures Worked(s).calls == s.calls
  {
  }

  lemma EmittingDelivers(s: State, q: Queued)
    requires Built(s) && s.worker.Emitting? && InTransit(s, q)
    requires q.call < |s.calls| && q.hint == s.calls[q.call].hint && s.calls[q.call].began <= |s.emitted|
    ensures InTransit(Worked(s), q) || Delivered(Worked(s), q.call)
  {
    var e := s.worker.emission;
    if q in e.items {
      var j :| 0 <= j < |e.items| && e.items[j] == q;
      MergeAllCovers(if e.delta == MergeAll(MARKER, e.items) then MARKER else EMPTY, e.items, j);
      assert Worked(s).emitted[|s.emitted|] == e;
    }
  }

  lemma QueueHead(queue: seq<Item>, item: Item)
    requires item in queue
    ensures item == queue[0] || item in queue[1..]
  {
  }

  lemma AdvanceTransit(s: State, i: nat, size: Option<nat>, q: Queued)
    requires Enabled(s, Advance(i, size))
    ensures var t := Advanced(s, i, size);
            InTransit(t, q) <==> InTransit(s, q) || (|t.enqueued| > |s.enqueued| && q == t.enqueued[|s.enqueued|])
  {
    var t := Advanced(s, i, size);
    assert t.queue != s.queue ==> t.queue == s.queue + [t.queue[|s.queue|]];
  }
}
