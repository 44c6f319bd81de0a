/** The dashboard delivery protocol as a state machine.

    Any number of `send` calls and one worker interleave at every access they make to shared state:
    the resync flag, the generation counter, the byte semaphore and the channel. */
module DeliveryProtocol {
  import opened Options
  import opened DashboardHints
  import opened Sequences

  const DELIVERY_ITEMS: nat := 512
  const DELIVERY_BYTES: nat := 4 * 1024 * 1024
  const BATCH_BYTES: nat := 256 * 1024

  /** A queued delta. `call` names the `send` it came from and `ticket` its place in enqueue order;
      both are bookkeeping the program does not keep. */
  datatype Queued = Queued(call: nat, hint: Hint, size: nat, generation: nat, ticket: nat)

  datatype Item = Delta(queued: Queued) | Wake

  /** Where a `send` call stands. From `RecheckFlag` on it holds `size` bytes of permits; an overflow
      on a full channel keeps them until the call ends. */
  datatype Pc =
    | LoadFlag
    | LoadGeneration
    | Reserve(tag: nat)
    | RecheckFlag(tag: nat, size: nat)
    | RecheckGeneration(tag: nat, size: nat)
    | Enqueue(tag: nat, size: nat)
    | SwapFlag(held: nat)
    | BumpGeneration(held: nat)
    | SendWake(held: nat)
    | Returned

  /** A `send`: `began` counts the deltas emitted before it started. */
  datatype Call = Call(hint: Hint, began: nat, pc: Pc)

  /** The batch the worker is building: `items` are the deltas merged into `delta`. */
  datatype Batch = Batch(delta: Hint, items: seq<Queued>, pending: nat, generation: nat)

  /** One emitted `dashboard:delta`; `generation` is the one its final check saw. */
  datatype Emission = Emission(delta: Hint, items: seq<Queued>, generation: nat)

  datatype Worker =
    | AtTop
    | Took(first: Item)
    | DrainingFirst(first: Item)
    | LoadingGeneration(first: Item)
    | Conflating(batch: Batch)
    | FinalCheck(batch: Batch)
    | DrainingLast(generation: nat)
    | Emitting(emission: Emission)

  datatype State = State(
    queue: seq<Item>,
    permits: nat,
    flag: bool,
    generation: nat,
    calls: seq<Call>,
    worker: Worker,
    deferred: Option<Queued>,
    enqueued: seq<Queued>,
    emitted: seq<Emission>)

  /** One atomic access. `Advance` moves a call on; its `size` is the serialized size, or `None` when
      serialization fails, and is read only by the step that reserves permits. */
  datatype Action =
    | Begin(hint: Hint)
    | Advance(call: nat, size: Option<nat>)
    | Work

  const INIT := State([], DELIVERY_BYTES, false, 0, [], AtTop, None, [], [])

  predicate Enabled(s: State, a: Action) {
    match a
    case Begin(_) => true
    case Advance(i, size) => i < |s.calls| && s.calls[i].pc != Returned && (size.Some? ==> size.value > 0)
    case Work => s.worker == AtTop ==> s.deferred.Some? || s.queue != []
  }

  function Next(s: State, a: Action): State
    requires Enabled(s, a)
  {
    match a
    case Begin(hint) => s.(calls := s.calls + [Call(hint, |s.emitted|, LoadFlag)])
    case Advance(i, size) => Advanced(s, i, size)
    case Work => Worked(s)
  }

  function Goto(s: State, i: nat, pc: Pc): State
    requires i < |s.calls|
  {
    s.(calls := s.calls[i := s.calls[i].(pc := pc)])
  }

  function Advanced(s: State, i: nat, size: Option<nat>): State
    requires Enabled(s, Advance(i, size))
  {
    match s.calls[i].pc
    case LoadFlag => Goto(s, i, if s.flag then Returned else LoadGeneration)
    case LoadGeneration => Goto(s, i, Reserve(s.generation))
    case Reserve(tag) =>
      if size == None || size.value > DELIVERY_BYTES || size.value > s.permits then Goto(s, i, SwapFlag(0))
      else Goto(s, i, RecheckFlag(tag, size.value)).(permits := s.permits - size.value)
    case RecheckFlag(tag, n) =>
      if s.flag then Goto(s, i, Returned).(permits := s.permits + n) else Goto(s, i, RecheckGeneration(tag, n))
    case RecheckGeneration(tag, n) =>
      if s.generation != tag then Goto(s, i, Returned).(permits := s.permits + n) else Goto(s, i, Enqueue(tag, n))
    case Enqueue(tag, n) =>
      if |s.queue| < DELIVERY_ITEMS then
        var q := Queued(i, s.calls[i].hint, n, tag, |s.enqueued|);
        Goto(s, i, Returned).(queue := s.queue + [Delta(q)], enqueued := s.enqueued + [q])
      else Goto(s, i, SwapFlag(n))
    case SwapFlag(held) =>
      Goto(s, i, if s.flag then SendWake(held) else BumpGeneration(held)).(flag := true)
    case BumpGeneration(held) => Goto(s, i, SendWake(held)).(generation := s.generation + 1)
    case SendWake(held) =>
      Goto(s, i, Returned).(queue := if |s.queue| < DELIVERY_ITEMS then s.queue + [Wake] else s.queue,
                            permits := s.permits + held)
  }

  /** The permits an item gives back when it is dropped. */
  function ItemBytes(item: Item): nat {
    if item.Delta? then item.queued.size else 0
  }

  /** A batch with one more delta conflated into it. */
  function Conflated(b: Batch, q: Queued): Batch {
    Batch(Merge(b.delta, q.hint), b.items + [q], b.pending + q.size, b.generation)
  }

  function Worked(s: State): State
    requires Enabled(s, Work)
  {
    match s.worker
    case AtTop =>
      if s.deferred.Some? then s.(worker := Took(Delta(s.deferred.value)), deferred := None)
      else s.(worker := Took(s.queue[0]), queue := s.queue[1..])
    case Took(first) =>
      if s.flag then s.(flag := false, worker := DrainingFirst(first)) else s.(worker := LoadingGeneration(first))
    case DrainingFirst(first) =>
      if s.queue != [] then s.(queue := s.queue[1..], permits := s.permits + ItemBytes(s.queue[0]))
      else s.(worker := LoadingGeneration(Wake), permits := s.permits + ItemBytes(first))
    case LoadingGeneration(first) =>
      if first == Wake then s.(worker := Conflating(Batch(MARKER, [], 0, s.generation)))
      else
        var q := first.queued;
        s.(permits := s.permits + q.size,
           worker := if q.generation == s.generation then Conflating(Batch(q.hint, [q], q.size, s.generation))
                     else AtTop)
    case Conflating(b) =>
      if b.pending >= BATCH_BYTES || s.queue == [] then s.(worker := FinalCheck(b))
      else
        var t := s.(queue := s.queue[1..]);
        (match s.queue[0]
         case Wake => t
         case Delta(q) =>
           if q.generation != b.generation then t.(permits := s.permits + q.size)
           else if b.pending > 0 && b.pending + q.size > BATCH_BYTES then
             t.(deferred := Some(q), worker := FinalCheck(b))
           else t.(permits := s.permits + q.size, worker := Conflating(Conflated(b, q))))
    case FinalCheck(b) =>
      if s.flag then s.(flag := false, worker := DrainingLast(s.generation))
      else s.(worker := Emitting(Emission(b.delta, b.items, b.generation)))
    case DrainingLast(g) =>
      if s.deferred.Some? then s.(deferred := None, permits := s.permits + s.deferred.value.size)
      else if s.queue != [] then s.(queue := s.queue[1..], permits := s.permits + ItemBytes(s.queue[0]))
      else s.(worker := Emitting(Emission(MARKER, [], g)))
    case Emitting(e) => s.(emitted := s.emitted + [e], worker := AtTop)
  }

  /** A call's step leaves the worker's side alone and adds at most one item to the channel. */
  lemma AdvanceFrame(s: State, i: nat, size: Option<nat>)
    requires Enabled(s, Advance(i, size))
    ensures var t := Advanced(s, i, size);
            && t.worker == s.worker && t.deferred == s.deferred && t.emitted == s.emitted
            && t.calls == s.calls[i := t.calls[i]]
            && (t.queue == s.queue
                || (s.calls[i].pc.SendWake? && t.queue == s.queue + [Wake])
                || (s.calls[i].pc.Enqueue?
                    && var q := Queued(i, s.calls[i].hint, s.calls[i].pc.size, s.calls[i].pc.tag, |s.enqueued|);
                       t.queue == s.queue + [Delta(q)]))
  {
  }

  /** `states` is a run: it starts fresh and each action leads from one state to the next. */
  ghost predicate IsRun(states: seq<State>, acts: seq<Action>) {
    && |states| == |acts| + 1
    && states[0] == INIT
    && forall k :: 0 <= k < |acts| ==> Enabled(states[k], acts[k]) && states[k + 1] == Next(states[k], acts[k])
  }

  /** The deltas among channel items, in order. */
  function Deltas(items: seq<Item>): seq<Queued> {
    if |items| == 0 then []
    else if items[0].Delta? then [items[0].queued] + Deltas(items[1..])
    else Deltas(items[1..])
  }

  lemma {:induction false} DeltasConcat(a: seq<Item>, b: seq<Item>)
    ensures Deltas(a + b) == Deltas(a) + Deltas(b)
  {
    if a == [] {
      assert a + b == b;
    } else {
      assert (a + b)[1..] == a[1..] + b;
      DeltasConcat(a[1..], b);
      if a[0].Delta? {
        JoinLeft([a[0].queued], Deltas(a[1..]), Deltas(b));
      }
    }
  }

  /** The deltas the worker has in hand: its first item, its batch, or what it is about to emit. */
  function InHand(w: Worker): seq<Queued> {
    match w
    case AtTop => []
    case Took(first) => Deltas([first])
    case DrainingFirst(first) => Deltas([first])
    case LoadingGeneration(first) => Deltas([first])
    case Conflating(b) => b.items
    case FinalCheck(b) => b.items
    case DrainingLast(_) => []
    case Emitting(e) => e.items
  }

  function Parked(deferred: Option<Queued>): seq<Queued> {
    if deferred.Some? then [deferred.value] else []
  }

  /** Everything accepted and not yet emitted or dropped, oldest first. */
  function Live(s: State): seq<Queued> {
    InHand(s.worker) + Parked(s.deferred) + Deltas(s.queue)
  }

  /** The worker only ever parks an item between filling a batch and taking it up again. */
  predicate DeferredFits(s: State) {
    s.deferred.Some? ==> s.worker.AtTop? || s.worker.FinalCheck? || s.worker.DrainingLast? || s.worker.Emitting?
  }
}
