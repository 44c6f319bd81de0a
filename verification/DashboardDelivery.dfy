/** `DashboardDelivery` and its worker as the imperative code they are.

    Each method keeps the protocol state beside its own fields: a call is a path of the state machine, so it
    inherits everything proved about runs. `meanwhile` is what others do at the point where a race is most
    likely: while a delta is being serialized, and while a batch is being built. */
module DashboardDelivery {
  import opened Options
  import opened DashboardHints
  import opened DeliveryProtocol
  import opened DeliveryPermits
  import opened DeliveryBatches
  import opened DeliveryPaths
  import opened Sequences

  /** The deltas of one generation, in order. */
  function Fresh(items: seq<Item>, generation: nat): seq<Queued> {
    if |items| == 0 then []
    else if items[0].Delta? && items[0].queued.generation == generation then
      [items[0].queued] + Fresh(items[1..], generation)
    else Fresh(items[1..], generation)
  }

  class Delivery {
    var queue: seq<Item>
    var byteBudget: nat
    var resyncRequired: bool
    var generation: nat
    var deferred: Option<Queued>
    // Numbers the sends and the enqueued deltas; the program keeps neither.
    var sends: nat
    var tickets: nat
    // Whether the worker is between two turns.
    var idle: bool
    ghost var sys: State

    ghost predicate Valid()
      reads this
    {
      && queue == sys.queue && byteBudget == sys.permits && resyncRequired == sys.flag
      && generation == sys.generation && deferred == sys.deferred && DeferredFits(sys)
      && sends == |sys.calls| && tickets == |sys.enqueued| && idle == sys.worker.AtTop?
    }

    constructor ()
      ensures Valid() && sys == INIT
    {
      queue, byteBudget, resyncRequired, generation, deferred := [], DELIVERY_BYTES, false, 0, None;
      sends, tickets, idle := 0, 0, true;
      sys := INIT;
    }

    /** Moves the protocol state one step along the path from `start`. */
    ghost method Step(start: State, a: Action)
      requires Reaches(start, sys) && Enabled(sys, a)
      modifies this`sys
      ensures sys == Next(old(sys), a) && Reaches(start, sys)
    {
      ReachesStep(start, sys, a);
      sys := Next(sys, a);
    }

    /** What others do: whole sends, and turns of the worker if it has something to do. */
    method Meanwhile(script: seq<Happening>)
      requires Valid() && Sized(script)
      modifies this
      ensures Valid() && Reaches(old(sys), sys)
      ensures old(sys).calls <= sys.calls
      ensures !old(idle) ==>
                sys.worker == old(sys).worker && sys.emitted == old(sys).emitted && deferred == old(deferred)
      ensures script == [] ==> sys == old(sys)
      decreases |script|, 0
    {
      ghost var start := sys;
      ReachesSelf(start);
      for k := 0 to |script|
        invariant Valid() && Reaches(start, sys) && start.calls <= sys.calls
        invariant !start.worker.AtTop? ==>
                    sys.worker == start.worker && sys.emitted == start.emitted && deferred == start.deferred
        invariant k == 0 ==> sys == start
      {
        ghost var before := sys;
        ReachesSelf(before);
        match script[k] {
          case Sent(delta, size) =>
            var _ := Send(delta, size, []);
          case Turn =>
            if idle && (deferred.Some? || |queue| > 0) {
              var _ := WorkOnce([]);
            }
        }
        ReachesTransitive(start, before, sys);
      }
    }

    /** Queue a delta without blocking. `size` is its serialized size once slimmed, or `None` when it cannot
        be serialized; `meanwhile` happens while it is. `mid` is the state in which it asks for its bytes. */
    method Send(delta: DashboardDelta, size: Option<nat>, meanwhile: seq<Happening>) returns (ghost mid: State)
      requires Valid() && (size.Some? ==> size.value > 0) && Sized(meanwhile)
      modifies this
      ensures Valid() && Reaches(old(sys), sys) && old(sys).calls <= sys.calls
      // A pending resync turns the delta away.
      ensures old(resyncRequired) ==> sys == WithCall(old(sys), Slim(delta), Returned)
      // Otherwise, whatever others did, the call settles by what it then finds.
      ensures !old(resyncRequired) ==>
                && Reaches(old(sys), mid)
                && WithCall(old(sys), Slim(delta), Reserve(old(generation))).calls <= mid.calls
                && sys == Settled(mid, |old(sys).calls|, size)
                && (meanwhile == [] ==> mid == WithCall(old(sys), Slim(delta), Reserve(old(generation))))
      ensures !old(idle) || meanwhile == [] ==>
                sys.worker == old(sys).worker && sys.emitted == old(sys).emitted && deferred == old(deferred)
      decreases |meanwhile|, 1
    {
      ghost var start := sys;
      ghost var hint := Slim(delta);
      var i := sends;
      sends := sends + 1;
      ReachesSelf(start);
      if resyncRequired {
        sys := QuietRefusal(start, start, hint, size);
        return sys;
      }
      var tag := generation;
      sys := StartSend(start, start, hint);
      ghost var begun := sys;
      assert begun == WithCall(start, hint, Reserve(tag));
      assert begun.calls[i] == Call(hint, |start.emitted|, Reserve(tag));
      Meanwhile(meanwhile);
      ReachesTransitive(start, begun, sys);
      mid := sys;
      assert mid.calls[i] == begun.calls[i] && start.calls <= mid.calls;
      SettledKeepsCalls(start.calls, mid, size);
      Settle(start, i, Slim(delta), tag, size);
    }

    /** The rest of `send`, from the reservation on. */
    method Settle(ghost start: State, i: nat, hint: Hint, tag: nat, size: Option<nat>)
      requires Valid() && Reaches(start, sys) && (size.Some? ==> size.value > 0)
      requires i < |sys.calls| && sys.calls[i].pc == Reserve(tag) && sys.calls[i].hint == hint
      modifies this
      ensures Valid() && Reaches(start, sys) && sys == Settled(old(sys), i, size)
      ensures sys.worker == old(sys).worker && sys.emitted == old(sys).emitted && deferred == old(deferred)
    {
      ghost var mid := sys;
      if size.None? || size.value > DELIVERY_BYTES || size.value > byteBudget {
        sys := GiveUpFrom(start, mid, i, size);
        RequireResync(start, i, 0);
        GivenUpIsSettled(mid, i, size);
        return;
      }
      if resyncRequired || generation != tag {
        sys := DropFrom(start, mid, i, size.value);
        return;
      }
      byteBudget := byteBudget - size.value;
      sys := RecheckFrom(start, mid, i, size.value);
      RecheckedIsSettled(mid, i, size.value);
      TrySend(start, i, hint, tag, size.value);
    }

    /** Queues the delta if the channel has room, and gives the window up otherwise. */
    method TrySend(ghost start: State, i: nat, hint: Hint, tag: nat, n: nat)
      requires Valid() && Reaches(start, sys)
      requires i < |sys.calls| && sys.calls[i].pc == Enqueue(tag, n) && sys.calls[i].hint == hint
      modifies this
      ensures Valid() && Reaches(start, sys) && sys == Offered(old(sys), i, tag, n)
    {
      ghost var ready := sys;
      sys := EnqueueFrom(start, ready, i, tag, n);
      if |queue| < DELIVERY_ITEMS {
        queue := queue + [Delta(Queued(i, hint, n, tag, tickets))];
        tickets := tickets + 1;
      } else {
        RequireResync(start, i, n);
      }
    }

    /** Raises the flag, retires the generation if it was down, and wakes the worker if there is room.
        `held` are the permits of the delta that did not fit, dropped on return. */
    method RequireResync(ghost start: State, ghost i: nat, held: nat)
      requires Valid() && Reaches(start, sys)
      requires i < |sys.calls| && sys.calls[i].pc == SwapFlag(held)
      modifies this
      ensures Valid() && Reaches(start, sys)
      ensures resyncRequired && generation == old(generation) + (if old(resyncRequired) then 0 else 1)
      ensures queue == old(queue) + (if |old(queue)| < 512 then [Wake] else [])
      ensures byteBudget == old(byteBudget) + held && deferred == old(deferred)
      ensures sys == Resynced(Goto(old(sys), i, Returned)).(permits := old(sys).permits + held)
    {
      ghost var before := sys;
      var wasRequired := resyncRequired;
      resyncRequired := true;
      if !wasRequired {
        generation := generation + 1;
      }
      if |queue| < DELIVERY_ITEMS {
        queue := queue + [Wake];
      }
      byteBudget := byteBudget + held;
      sys := QuietResync(start, before, i, held);
    }

    /** Drops everything queued, giving back its permits. */
    method Drain(ghost start: State)
      requires Valid() && Reaches(start, sys)
      requires sys.worker.DrainingFirst? || (sys.worker.DrainingLast? && deferred.None?)
      modifies this
      ensures Valid() && Reaches(start, sys)
      ensures queue == [] && byteBudget == old(byteBudget) + QueueBytes(old(queue))
      ensures sys == old(sys).(queue := [], permits := byteBudget)
      ensures resyncRequired == old(resyncRequired) && generation == old(generation) && deferred == old(deferred)
    {
      while queue != []
        invariant Valid() && Reaches(start, sys)
        invariant sys == old(sys).(queue := queue, permits := byteBudget)
        invariant byteBudget + QueueBytes(queue) == old(byteBudget) + QueueBytes(old(queue))
        invariant resyncRequired == old(resyncRequired) && generation == old(generation) && deferred == old(deferred)
        decreases |queue|
      {
        Step(start, Work);
        byteBudget := byteBudget + ItemBytes(queue[0]);
        queue := queue[1..];
      }
    }

    /** Builds the next delta to emit from `first` and whatever is queued behind it; `None` when `first`
        is of a retired generation. `built` is the state when the batch is complete, `late` the state at the
        final check, after whatever happened meanwhile. */
    method PrepareDashboardBatch(first: Item, meanwhile: seq<Happening>)
      returns (delta: Option<Hint>, ghost built: State, ghost late: State)
      requires Valid() && sys.worker == Took(first) && Sized(meanwhile)
      modifies this
      ensures Valid() && Reaches(old(sys), sys) && !resyncRequired
      ensures old(sys).calls <= sys.calls && sys.emitted == old(sys).emitted
      ensures delta.None? <==> !old(resyncRequired) && first.Delta? && first.queued.generation != old(generation)
      ensures delta.None? ==>
                sys.worker.AtTop? && deferred.None? && queue == old(queue) && generation == old(generation)
      // The batch is a prefix of what is fresh, in order, and stops only for want of items or room; a pending
      // resync replaces everything queued.
      ensures delta.Some? ==> BatchDone(old(sys), first, built)
      // At the final check, an overflow since replaces the batch, the parked item and the queue.
      ensures delta.Some? ==> Reaches(built, late) && late.worker == built.worker && late.deferred == built.deferred
      ensures delta.Some? ==> sys == Checked(late) && delta.value == sys.worker.emission.delta
      ensures delta.Some? && (late.flag || old(resyncRequired)) ==>
                delta.value.resyncRequired && delta.value.dashboardChanged
      ensures delta.Some? && meanwhile == [] ==> late == built
      decreases |meanwhile|, 2
    {
      ghost var start := sys;
      ReachesSelf(start);
      var begun := OpenBatch(start, first);
      built, late := sys, sys;
      if begun.None? {
        return None, built, late;
      }
      var batch := Conflate(start, begun.value);
      built := sys;
      Meanwhile(meanwhile);
      late := sys;
      ReachesTransitive(start, built, late);
      if resyncRequired {
        FinalDrain(start, batch);
        return Some(MARKER), built, late;
      }
      sys := FinalStep(start, sys, batch);
      delta := Some(batch.delta);
    }

    /** The final swap and drain: the batch, the parked item and the queue give way to one marker. */
    method FinalDrain(ghost start: State, batch: Batch)
      requires Valid() && Reaches(start, sys) && sys.worker == FinalCheck(batch) && sys.flag
      modifies this
      ensures Valid() && Reaches(start, sys) && sys == Checked(old(sys))
      ensures sys.worker.Emitting? && sys.worker.emission.items == []
              && sys.worker.emission.delta.resyncRequired && sys.worker.emission.delta.dashboardChanged
    {
      resyncRequired := false;
      sys := SwapStep(start, sys, batch);
      if deferred.Some? {
        byteBudget := byteBudget + deferred.value.size;
        deferred := None;
        sys := UnparkStep(start, sys);
      }
      Drain(start);
      sys := MarkerStep(start, sys);
    }

    /** The batch `first` opens: a marker if it wakes the worker or a resync is pending, else its delta. */
    method OpenBatch(ghost start: State, first: Item) returns (begun: Option<Batch>)
      requires Valid() && Reaches(start, sys) && sys.worker == Took(first)
      modifies this
      ensures Valid() && Reaches(start, sys)
      ensures !resyncRequired && generation == old(generation) && deferred.None?
      ensures sys.calls == old(sys.calls) && sys.emitted == old(sys.emitted)
      ensures begun.None? <==> !old(resyncRequired) && first.Delta? && first.queued.generation != generation
      ensures begun.None? ==> sys.worker.AtTop?
      ensures begun.Some? ==>
                && sys.worker == Conflating(begun.value) && begun.value.generation == generation
                && begun.value.pending == TotalSize(begun.value.items)
                && begun.value.items == if old(resyncRequired) then [] else Deltas([first])
      ensures old(resyncRequired) ==> begun == Some(Batch(MARKER, [], 0, generation)) && queue == []
      ensures !old(resyncRequired) ==> queue == old(queue)
    {
      var head := first;
      var wasRequired := resyncRequired;
      resyncRequired := false;
      sys := TookStep(start, sys, first);
      if wasRequired {
        Drain(start);
        byteBudget := byteBudget + ItemBytes(head);
        head := Wake;
        sys := DrainedStep(start, sys, first);
      }
      var current := generation;
      sys := LoadStep(start, sys, head);
      match head {
        case Wake =>
          begun := Some(Batch(MARKER, [], 0, current));
        case Delta(queued) =>
          byteBudget := byteBudget + queued.size;
          if queued.generation != current {
            idle := true;
            return None;
          }
          begun := Some(Batch(queued.hint, [queued], queued.size, current));
          TotalSizeOne(queued);
      }
      assert begun.value.items == Deltas([head]);
    }

    /** The conflation loop: merges what is queued behind the batch until the cap, an item that does not
        fit, or an empty queue. */
    method Conflate(ghost start: State, initial: Batch) returns (batch: Batch)
      requires Valid() && Reaches(start, sys) && sys.worker == Conflating(initial)
      requires initial.pending == TotalSize(initial.items) && deferred.None?
      modifies this
      ensures Valid() && Reaches(start, sys)
      ensures sys.worker == FinalCheck(batch) && batch.generation == initial.generation
      ensures resyncRequired == old(resyncRequired) && generation == old(generation)
      ensures sys.calls == old(sys.calls) && sys.emitted == old(sys.emitted)
      ensures deferred.Some? ==> TotalSize(batch.items) + deferred.value.size > 256 * 1024
      ensures batch.items + Parked(deferred) + Fresh(queue, initial.generation)
              == initial.items + Fresh(old(queue), initial.generation)
      ensures |queue| == 0 || deferred.Some? || TotalSize(batch.items) >= 256 * 1024
      ensures |old(queue)| == 0 ==> batch == initial && deferred.None? && |queue| == 0
    {
      batch := initial;
      ghost var total := initial.items + Fresh(queue, initial.generation);
      while batch.pending < BATCH_BYTES && |queue| > 0
        invariant Valid() && Reaches(start, sys) && sys.worker == Conflating(batch)
        invariant batch.pending == TotalSize(batch.items) && batch.generation == initial.generation
        invariant resyncRequired == old(resyncRequired) && generation == old(generation)
        invariant sys.calls == old(sys.calls) && sys.emitted == old(sys.emitted)
        invariant deferred.None? && batch.items + Fresh(queue, initial.generation) == total
        invariant |old(queue)| == 0 ==> batch == initial && |queue| == 0
        decreases |queue|
      {
        var parked: bool;
        batch, parked := TakeNext(start, batch);
        if parked {
          return;
        }
      }
      sys := ConflatedStep(start, sys, batch);
    }

    /** One turn of the conflation loop: a wake and a delta of a retired generation are dropped, a delta
        that does not fit is parked, any other is merged. */
    method TakeNext(ghost start: State, batch: Batch) returns (more: Batch, parked: bool)
      requires Valid() && Reaches(start, sys) && sys.worker == Conflating(batch)
      requires batch.pending == TotalSize(batch.items) && batch.pending < BATCH_BYTES && |queue| > 0 && deferred.None?
      modifies this
      ensures Valid() && Reaches(start, sys) && |queue| == |old(queue)| - 1
      ensures resyncRequired == old(resyncRequired) && generation == old(generation)
      ensures sys.calls == old(sys.calls) && sys.emitted == old(sys.emitted)
      ensures more.generation == batch.generation && more.pending == TotalSize(more.items)
      ensures sys.worker == if parked then FinalCheck(more) else Conflating(more)
      ensures if parked
              then more == batch && deferred.Some? && TotalSize(batch.items) + deferred.value.size > BATCH_BYTES
              else deferred.None?
      ensures (if parked then batch.items + [deferred.value] else more.items) + Fresh(queue, batch.generation)
              == batch.items + Fresh(old(queue), batch.generation)
    {
      more, parked := batch, false;
      var next := queue[0];
      NextKeepsTotal(batch.items, queue, batch.generation);
      sys := ConflatingStep(start, sys, batch);
      queue := queue[1..];
      match next {
        case Wake =>
        case Delta(queued) =>
          if queued.generation != batch.generation {
            byteBudget := byteBudget + queued.size;
          } else if batch.pending > 0 && batch.pending + queued.size > BATCH_BYTES {
            deferred := Some(queued);
            parked := true;
          } else {
            byteBudget := byteBudget + queued.size;
            TotalSizeAppend(batch.items, queued);
            more := Conflated(batch, queued);
          }
      }
    }

    /** One turn of the worker: take the parked item or the next queued one, prepare a batch, emit it. */
    method WorkOnce(meanwhile: seq<Happening>) returns (emitted: Option<Hint>)
      requires Valid() && idle && (deferred.Some? || |queue| > 0) && Sized(meanwhile)
      modifies this
      ensures Valid() && Reaches(old(sys), sys) && idle && !resyncRequired && old(sys).calls <= sys.calls
      ensures emitted.None? ==> sys.emitted == old(sys).emitted
      ensures emitted.Some? ==> |sys.emitted| == |old(sys).emitted| + 1 && old(sys).emitted <= sys.emitted
                                && sys.emitted[|old(sys).emitted|].delta == emitted.value
      ensures emitted.None? <==>
                !old(resyncRequired) && Head(old(sys)).Delta? && Head(old(sys)).queued.generation != old(generation)
      ensures old(resyncRequired) ==>
                emitted.Some? && emitted.value.resyncRequired && emitted.value.dashboardChanged
      ensures old(resyncRequired) && meanwhile == [] ==> queue == [] && deferred.None?
      // Undisturbed, the parked item comes before the queue, and nothing fresh is lost or reordered.
      ensures emitted.Some? && !old(resyncRequired) && meanwhile == [] ==>
                sys.emitted[|old(sys).emitted|].items + Parked(deferred) + Fresh(queue, generation)
                == Deltas([Head(old(sys))]) + Fresh(Rest(old(sys)), generation)
      decreases |meanwhile|, 3
    {
      ghost var start := sys;
      ReachesSelf(start);
      var first: Item;
      if deferred.Some? {
        first := Delta(deferred.value);
        deferred := None;
      } else {
        first := queue[0];
        queue := queue[1..];
      }
      idle := false;
      sys := TakeStep(start, sys);
      ghost var taken := sys;
      ghost var built, late;
      emitted, built, late := PrepareDashboardBatch(first, meanwhile);
      ReachesTransitive(start, taken, sys);
      if emitted.Some? {
        idle := true;
        sys := EmitStep(start, sys);
      }
    }
  }

  // ---------- What the methods come to ----------

  /** What others may do: send a delta, or take a turn of the worker. */
  datatype Happening = Sent(delta: DashboardDelta, size: Option<nat>) | Turn

  predicate Sized(script: seq<Happening>) {
    forall k :: 0 <= k < |script| && script[k].Sent? && script[k].size.Some? ==> script[k].size.value > 0
  }

  function WithCall(s: State, hint: Hint, pc: Pc): State {
    s.(calls := s.calls + [Call(hint, |s.emitted|, pc)])
  }

  /** The window given up: a resync pending, a generation retired unless one already is, a wake if it fits. */
  function Resynced(s: State): State {
    s.(flag := true,
       generation := if s.flag then s.generation else s.generation + 1,
       queue := if |s.queue| < DELIVERY_ITEMS then s.queue + [Wake] else s.queue)
  }

  /** How a call that holds its bytes ends at the channel. */
  function Offered(s: State, i: nat, tag: nat, n: nat): State
    requires i < |s.calls|
  {
    if |s.queue| < DELIVERY_ITEMS then Enqueued(s, i, tag, n)
    else Resynced(Goto(Goto(s, i, SwapFlag(n)), i, Returned)).(permits := s.permits + n)
  }

  /** How a call that asks for its bytes ends: without room the window is given up, with the resync pending
      or its generation retired it is dropped, and otherwise it is queued with exactly its bytes. */
  function Settled(s: State, i: nat, size: Option<nat>): State
    requires i < |s.calls| && s.calls[i].pc.Reserve?
  {
    var tag := s.calls[i].pc.tag;
    if !Fits(size, s.permits) then Resynced(Goto(s, i, Returned))
    else if s.flag || s.generation != tag then Goto(s, i, Returned)
    else if |s.queue| < DELIVERY_ITEMS then Enqueued(s, i, tag, size.value).(permits := s.permits - size.value)
    else Resynced(Goto(s, i, Returned))
  }

  lemma SettledKeepsCalls(calls: seq<Call>, s: State, size: Option<nat>)
    requires calls <= s.calls && |calls| < |s.calls| && s.calls[|calls|].pc.Reserve?
    ensures calls <= Settled(s, |calls|, size).calls
  {
  }

  lemma GivenUpIsSettled(s: State, i: nat, size: Option<nat>)
    requires i < |s.calls| && s.calls[i].pc.Reserve? && !Fits(size, s.permits)
    ensures var t := Goto(s, i, SwapFlag(0));
            Resynced(Goto(t, i, Returned)).(permits := t.permits + 0) == Settled(s, i, size)
  {
    assert Goto(Goto(s, i, SwapFlag(0)), i, Returned) == Goto(s, i, Returned);
  }

  lemma RecheckedIsSettled(s: State, i: nat, n: nat)
    requires i < |s.calls| && s.calls[i].pc.Reserve? && Fits(Some(n), s.permits)
    requires !s.flag && s.generation == s.calls[i].pc.tag
    ensures var t := Goto(s, i, Enqueue(s.generation, n)).(permits := s.permits - n);
            Offered(t, i, s.generation, n) == Settled(s, i, Some(n))
  {
    var t := Goto(s, i, Enqueue(s.generation, n)).(permits := s.permits - n);
    assert t.calls[i := t.calls[i].(pc := Returned)] == s.calls[i := s.calls[i].(pc := Returned)];
    var u := Goto(t, i, SwapFlag(n));
    assert u.calls[i := u.calls[i].(pc := Returned)] == s.calls[i := s.calls[i].(pc := Returned)];
  }

  /** What an undisturbed call comes to: it is queued with its own tag and exactly its bytes, or the window is
      given up and the budget is as before. */
  lemma UndisturbedSend(s: State, hint: Hint, size: Option<nat>)
    requires !s.flag
    ensures var t := Settled(WithCall(s, hint, Reserve(s.generation)), |s.calls|, size);
            && t.calls == WithCall(s, hint, Returned).calls
            && (Fits(size, s.permits) && |s.queue| < 512 ==>
                  && t.queue == s.queue + [Delta(Queued(|s.calls|, hint, size.value, s.generation, |s.enqueued|))]
                  && t.permits == s.permits - size.value && !t.flag && t.generation == s.generation)
            && (!(Fits(size, s.permits) && |s.queue| < 512) ==>
                  && t.queue == s.queue + (if |s.queue| < 512 then [Wake] else [])
                  && t.permits == s.permits && t.flag && t.generation == s.generation + 1)
  {
  }

  /** The batch that `first` and the queue of `s` make, complete in `t`. */
  ghost predicate BatchDone(s: State, first: Item, t: State) {
    && Reaches(s, t) && t.worker.FinalCheck? && !t.flag && t.generation == s.generation && t.calls == s.calls
    && if s.flag then t.worker.batch.delta == MARKER && t.worker.batch.items == [] && t.queue == [] && t.deferred.None?
       else
         && t.worker.batch.items + Parked(t.deferred) + Fresh(t.queue, s.generation)
            == Deltas([first]) + Fresh(s.queue, s.generation)
         && (t.queue == [] || t.deferred.Some? || TotalSize(t.worker.batch.items) >= 256 * 1024)
         && (t.deferred.Some? ==> TotalSize(t.worker.batch.items) + t.deferred.value.size > 256 * 1024)
  }

  /** The final check: a batch goes out as it is, or a marker in its place with everything else dropped. */
  function Checked(s: State): State
    requires s.worker.FinalCheck?
  {
    var b := s.worker.batch;
    if !s.flag then s.(worker := Emitting(Emission(b.delta, b.items, b.generation)))
    else s.(flag := false, deferred := None, queue := [],
            permits := s.permits + DeferredBytes(s) + QueueBytes(s.queue),
            worker := Emitting(Emission(MARKER, [], s.generation)))
  }

  /** What the worker takes up next, and the queue it leaves. */
  function Head(s: State): Item
    requires s.deferred.Some? || |s.queue| > 0
  {
    if s.deferred.Some? then Delta(s.deferred.value) else s.queue[0]
  }

  function Rest(s: State): seq<Item>
    requires s.deferred.Some? || |s.queue| > 0
  {
    if s.deferred.Some? then s.queue else s.queue[1..]
  }

  lemma TakeStep(start: State, s: State) returns (t: State)
    requires Reaches(start, s) && s.worker.AtTop? && (s.deferred.Some? || |s.queue| > 0)
    ensures Reaches(start, t)
    ensures t == s.(worker := Took(Head(s)), deferred := None, queue := Rest(s))
  {
    t := DeliveryPaths.Step(start, s, Work);
  }

  lemma EmitStep(start: State, s: State) returns (t: State)
    requires Reaches(start, s) && s.worker.Emitting?
    ensures Reaches(start, t) && t == s.(emitted := s.emitted + [s.worker.emission], worker := AtTop)
  {
    t := DeliveryPaths.Step(start, s, Work);
  }

  lemma SwapStep(start: State, s: State, b: Batch) returns (t: State)
    requires Reaches(start, s) && s.worker == FinalCheck(b) && s.flag
    ensures Reaches(start, t) && t == s.(flag := false, worker := DrainingLast(s.generation))
  {
    t := DeliveryPaths.Step(start, s, Work);
  }

  lemma UnparkStep(start: State, s: State) returns (t: State)
    requires Reaches(start, s) && s.worker.DrainingLast? && s.deferred.Some?
    ensures Reaches(start, t) && t == s.(deferred := None, permits := s.permits + s.deferred.value.size)
  {
    t := DeliveryPaths.Step(start, s, Work);
  }

  lemma MarkerStep(start: State, s: State) returns (t: State)
    requires Reaches(start, s) && s.worker.DrainingLast? && s.deferred.None? && s.queue == []
    ensures Reaches(start, t) && t == s.(worker := Emitting(Emission(MARKER, [], s.worker.generation)))
  {
    t := DeliveryPaths.Step(start, s, Work);
  }

  /** Moving a fresh item from the queue to the batch changes nothing of the two together. */
  lemma NextKeepsTotal(items: seq<Queued>, queue: seq<Item>, generation: nat)
    requires |queue| > 0
    ensures items + Fresh(queue, generation)
            == if queue[0].Delta? && queue[0].queued.generation == generation
               then items + [queue[0].queued] + Fresh(queue[1..], generation)
               else items + Fresh(queue[1..], generation)
  {
    if queue[0].Delta? && queue[0].queued.generation == generation {
      JoinLeft(items, [queue[0].queued], Fresh(queue[1..], generation));
    }
  }

  lemma ConflatedStep(start: State, s: State, b: Batch) returns (t: State)
    requires Reaches(start, s) && s.worker == Conflating(b) && (b.pending >= BATCH_BYTES || |s.queue| == 0)
    ensures Reaches(start, t) && t == s.(worker := FinalCheck(b))
  {
    t := DeliveryPaths.Step(start, s, Work);
  }

  /** The conflation step, case by case. */
  lemma ConflatingStep(start: State, s: State, b: Batch) returns (t: State)
    requires Reaches(start, s)
    requires s.worker == Conflating(b) && b.pending < BATCH_BYTES && |s.queue| > 0 && s.deferred.None?
    ensures Reaches(start, t) && DeferredFits(t)
    ensures t.calls == s.calls && t.emitted == s.emitted && t.enqueued == s.enqueued
    ensures t.flag == s.flag && t.generation == s.generation && t.queue == s.queue[1..]
    ensures var rest := s.(queue := s.queue[1..]);
            && (s.queue[0] == Wake ==> t == rest)
            && (s.queue[0].Delta? ==>
                  var q := s.queue[0].queued;
                  t == if q.generation != b.generation then rest.(permits := s.permits + q.size)
                       else if b.pending > 0 && b.pending + q.size > BATCH_BYTES then
                         rest.(deferred := Some(q), worker := FinalCheck(b))
                       else rest.(permits := s.permits + q.size, worker := Conflating(Conflated(b, q))))
  {
    t := DeliveryPaths.Step(start, s, Work);
  }

  lemma TookStep(start: State, s: State, first: Item) returns (t: State)
    requires Reaches(start, s) && s.worker == Took(first)
    ensures Reaches(start, t)
    ensures t == if s.flag then s.(flag := false, worker := DrainingFirst(first))
                 else s.(worker := LoadingGeneration(first))
  {
    t := DeliveryPaths.Step(start, s, Work);
  }

  lemma DrainedStep(start: State, s: State, first: Item) returns (t: State)
    requires Reaches(start, s) && s.worker == DrainingFirst(first) && s.queue == []
    ensures Reaches(start, t)
    ensures t == s.(worker := LoadingGeneration(Wake), permits := s.permits + ItemBytes(first))
  {
    t := DeliveryPaths.Step(start, s, Work);
  }

  lemma LoadStep(start: State, s: State, first: Item) returns (t: State)
    requires Reaches(start, s) && s.worker == LoadingGeneration(first)
    ensures Reaches(start, t)
    ensures match first
            case Wake => t == s.(worker := Conflating(Batch(MARKER, [], 0, s.generation)))
            case Delta(q) =>
              t == s.(permits := s.permits + q.size,
                      worker := if q.generation != s.generation then AtTop
                                else Conflating(Batch(q.hint, [q], q.size, s.generation)))
  {
    t := DeliveryPaths.Step(start, s, Work);
  }

  lemma FinalStep(start: State, s: State, b: Batch) returns (t: State)
    requires Reaches(start, s) && s.worker == FinalCheck(b) && !s.flag
    ensures Reaches(start, t)
    ensures t == s.(worker := Emitting(Emission(b.delta, b.items, b.generation)))
  {
    t := DeliveryPaths.Step(start, s, Work);
  }

  lemma TotalSizeAppend(items: seq<Queued>, q: Queued)
    ensures TotalSize(items + [q]) == TotalSize(items) + q.size
  {
    assert (items + [q])[..|items|] == items;
  }

  lemma TotalSizeOne(q: Queued)
    ensures TotalSize([q]) == q.size
  {
    TotalSizeAppend([], q);
    assert [] + [q] == [q];
  }
}
