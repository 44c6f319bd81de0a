/** Byte permits are conserved and the channel stays bounded in every reachable state. */
module DeliveryPermits {
  import opened Options
  import opened DeliveryProtocol

  function HeldBy(pc: Pc): nat {
    match pc
    case RecheckFlag(_, n) => n
    case RecheckGeneration(_, n) => n
    case Enqueue(_, n) => n
    case SwapFlag(held) => held
    case BumpGeneration(held) => held
    case SendWake(held) => held
    case _ => 0
  }

  function HeldByCalls(calls: seq<Call>): nat {
    if |calls| == 0 then 0 else HeldBy(calls[0].pc) + HeldByCalls(calls[1..])
  }

  function QueueBytes(items: seq<Item>): nat {
    if |items| == 0 then 0 else ItemBytes(items[0]) + QueueBytes(items[1..])
  }

  function DeferredBytes(s: State): nat {
    if s.deferred.Some? then s.deferred.value.size else 0
  }

  /** Bytes of the item just received; a merged item has already given its permits back. */
  function HandBytes(w: Worker): nat {
    match w
    case Took(first) => ItemBytes(first)
    case DrainingFirst(first) => ItemBytes(first)
    case LoadingGeneration(first) => ItemBytes(first)
    case _ => 0
  }

  ghost predicate Conserved(s: State) {
    && DeferredFits(s)
    && |s.queue| <= 512
    && s.permits + HeldByCalls(s.calls) + QueueBytes(s.queue) + DeferredBytes(s) + HandBytes(s.worker)
       == 4 * 1024 * 1024
  }

  lemma {:induction false} HeldUpdate(calls: seq<Call>, i: nat, c: Call)
    requires i < |calls|
    ensures HeldByCalls(calls[i := c]) == HeldByCalls(calls) - HeldBy(calls[i].pc) + HeldBy(c.pc)
  {
    if i > 0 {
      assert calls[i := c][1..] == calls[1..][i - 1 := c];
      HeldUpdate(calls[1..], i - 1, c);
    } else {
      assert calls[0 := c][1..] == calls[1..];
    }
  }

  lemma {:induction false} HeldAppend(calls: seq<Call>, c: Call)
    ensures HeldByCalls(calls + [c]) == HeldByCalls(calls) + HeldBy(c.pc)
  {
    if calls == [] {
      assert calls + [c] == [c];
    } else {
      assert (calls + [c])[1..] == calls[1..] + [c];
      HeldAppend(calls[1..], c);
    }
  }

  lemma {:induction false} QueueBytesAppend(items: seq<Item>, item: Item)
    ensures QueueBytes(items + [item]) == QueueBytes(items) + ItemBytes(item)
  {
    if items == [] {
      assert items + [item] == [item];
    } else {
      assert (items + [item])[1..] == items[1..] + [item];
      QueueBytesAppend(items[1..], item);
    }
  }

  /** What one step of a call does to the budget: it keeps to its own reservation. */
  lemma AdvanceBalance(s: State, i: nat, size: Option<nat>)
    requires Enabled(s, Advance(i, size)) && |s.queue| <= DELIVERY_ITEMS
    ensures var t := Advanced(s, i, size);
            && t.calls == s.calls[i := t.calls[i]]
            && t.permits + HeldBy(t.calls[i].pc) + QueueBytes(t.queue)
               == s.permits + HeldBy(s.calls[i].pc) + QueueBytes(s.queue)
            && |t.queue| <= DELIVERY_ITEMS
            && t.worker == s.worker && t.deferred == s.deferred
  {
    match s.calls[i].pc
    case Enqueue(tag, n) => QueueBytesAppend(s.queue, Delta(Queued(i, s.calls[i].hint, n, tag, |s.enqueued|)));
    case SendWake(_) => QueueBytesAppend(s.queue, Wake);
    case _ =>
  }

  lemma ConservedByAdvance(s: State, i: nat, size: Option<nat>)
    requires Conserved(s) && Enabled(s, Advance(i, size))
    ensures Conserved(Advanced(s, i, size))
  {
    AdvanceBalance(s, i, size);
    var t := Advanced(s, i, size);
    HeldUpdate(s.calls, i, t.calls[i]);
  }

  lemma ConservedByConflating(s: State, b: Batch)
    requires Conserved(s) && s.worker == Conflating(b)
    ensures Conserved(Worked(s))
  {
    if b.pending < BATCH_BYTES && s.queue != [] {
      assert QueueBytes(s.queue) == ItemBytes(s.queue[0]) + QueueBytes(s.queue[1..]);
    }
  }

  lemma ConservedByDraining(s: State)
    requires Conserved(s) && (s.worker.DrainingFirst? || s.worker.DrainingLast?)
    ensures Conserved(Worked(s))
  {
  }

  lemma ConservedByWork(s: State)
    requires Conserved(s) && Enabled(s, Work)
    ensures Conserved(Worked(s))
  {
    match s.worker
    case DrainingFirst(_) => ConservedByDraining(s);
    case DrainingLast(_) => ConservedByDraining(s);
    case Conflating(b) => ConservedByConflating(s, b);
    case _ =>
  }

  lemma ConservedByAction(s: State, a: Action)
    requires Conserved(s) && Enabled(s, a)
    ensures Conserved(Next(s, a))
  {
    match a
    case Begin(hint) => HeldAppend(s.calls, Call(hint, |s.emitted|, LoadFlag));
    case Advance(i, size) => ConservedByAdvance(s, i, size);
    case Work => ConservedByWork(s);
  }

  /** Every run: free permits plus everything reserved is the whole budget, and the channel is bounded. */
  lemma {:induction false} PermitsAreConserved(states: seq<State>, acts: seq<Action>, n: nat)
    requires IsRun(states, acts) && n <= |acts|
    ensures Conserved(states[n])
    decreases n
  {
    if n > 0 {
      PermitsAreConserved(states, acts, n - 1);
      ConservedByAction(states[n - 1], acts[n - 1]);
    }
  }

  lemma {:induction false} NothingHeld(calls: seq<Call>)
    requires forall i :: 0 <= i < |calls| ==> calls[i].pc == Returned
    ensures HeldByCalls(calls) == 0
  {
    if calls != [] {
      NothingHeld(calls[1..]);
    }
  }

  /** Draining a window gives back exactly what it reserved: once nothing is queued, parked, in hand or
      being sent, the whole budget is free again. */
  lemma DrainedWindowFreesTheWholeBudget(states: seq<State>, acts: seq<Action>, n: nat)
    requires IsRun(states, acts) && n <= |acts|
    requires forall i :: 0 <= i < |states[n].calls| ==> states[n].calls[i].pc == Returned
    ensures Live(states[n]) == [] ==> states[n].permits == 4 * 1024 * 1024
  {
    PermitsAreConserved(states, acts, n);
    NothingHeld(states[n].calls);
    if Live(states[n]) == [] {
      assert InHand(states[n].worker) == [] && Parked(states[n].deferred) == [] && Deltas(states[n].queue) == [];
      OnlyWakes(states[n].queue);
    }
  }

  lemma {:induction false} OnlyWakes(items: seq<Item>)
    requires Deltas(items) == []
    ensures QueueBytes(items) == 0
  {
    if items != [] {
      OnlyWakes(items[1..]);
    }
  }
}
