/** The terminal worker: producers block on a bounded queue, one worker drains it in capped batches. */
module TerminalWorker {
  import opened TerminalOutput
  import opened Sequences

  function Payload(push: Push): nat {
    if push.Data? then |push.text| else 0
  }

  function PayloadBytes(pushes: seq<Push>): nat {
    if |pushes| == 0 then 0 else PayloadBytes(pushes[..|pushes| - 1]) + Payload(pushes[|pushes| - 1])
  }

  /** The terminal output in a batch, one chunk after the other, whichever terminals it belongs to. */
  function Text(pushes: seq<Push>): string {
    if |pushes| == 0 then ""
    else
      match pushes[|pushes| - 1]
      case Data(_, text) => Text(pushes[..|pushes| - 1]) + text
      case Exit(_, _, _) => Text(pushes[..|pushes| - 1])
  }

  lemma {:induction false} PayloadIsText(pushes: seq<Push>)
    ensures PayloadBytes(pushes) == |Text(pushes)|
  {
    if |pushes| > 0 {
      PayloadIsText(pushes[..|pushes| - 1]);
    }
  }

  /** The output among what a terminal's reader observes. */
  function Printed(tokens: seq<Token>): string {
    if |tokens| == 0 then ""
    else
      match tokens[|tokens| - 1]
      case Byte(b) => Printed(tokens[..|tokens| - 1]) + [b]
      case Exited(_, _) => Printed(tokens[..|tokens| - 1])
  }

  lemma {:induction false} PrintedMore(tokens: seq<Token>, text: string)
    ensures Printed(tokens + Bytes(text)) == Printed(tokens) + text
  {
    if |text| == 0 {
      assert tokens + Bytes(text) == tokens;
    } else {
      var front := text[..|text| - 1];
      PrintedMore(tokens, front);
      assert (tokens + Bytes(text))[..|tokens| + |front|] == tokens + Bytes(front);
    }
  }

  /** A batch that concerns one terminal holds as text just what that terminal's reader sees printed. */
  lemma {:induction false} TextIsWhatIsPrinted(pushes: seq<Push>, t: string)
    requires forall p :: p in pushes ==> p.terminal == t
    ensures Text(pushes) == Printed(Meaning(pushes, t))
  {
    if |pushes| > 0 {
      var front, last := pushes[..|pushes| - 1], pushes[|pushes| - 1];
      TextIsWhatIsPrinted(front, t);
      assert pushes == front + [last] && last in pushes;
      MeaningConcat(front, [last], t);
      MeaningOne(last, t);
      if last.Data? {
        PrintedMore(Meaning(front, t), last.text);
      }
    }
  }

  /** `Ready` is a batch that will take no more; it is emitted coalesced. */
  datatype Worker = Idle | Filling(batch: seq<Push>) | Ready(batch: seq<Push>)

  /** `sent` is every push a producer handed over and `cuts` every batch emitted, before coalescing. */
  datatype Stream = Stream(queue: seq<Push>, worker: Worker, emitted: seq<seq<Push>>, sent: seq<Push>,
                           cuts: seq<seq<Push>>)

  datatype Action = Send(push: Push) | Work

  const FRESH := Stream([], Idle, [], [], [])

  /** `blocking_send` waits for room, and the idle worker for an item. */
  predicate Enabled(s: Stream, a: Action) {
    match a
    case Send(_) => |s.queue| < TERMINAL_ITEMS
    case Work => s.worker == Idle ==> s.queue != []
  }

  function Next(s: Stream, a: Action): Stream
    requires Enabled(s, a)
  {
    match a
    case Send(push) => s.(queue := s.queue + [push], sent := s.sent + [push])
    case Work =>
      match s.worker
      case Idle => s.(queue := s.queue[1..], worker := Filling([s.queue[0]]))
      case Filling(batch) =>
        if PayloadBytes(batch) < BATCH_BYTES && s.queue != [] then
          s.(queue := s.queue[1..], worker := Filling(batch + [s.queue[0]]))
        else s.(worker := Ready(batch))
      case Ready(batch) =>
        s.(worker := Idle, emitted := s.emitted + [Coalesced(batch)], cuts := s.cuts + [batch])
  }

  ghost predicate IsRun(states: seq<Stream>, acts: seq<Action>) {
    && |states| == |acts| + 1
    && states[0] == FRESH
    && forall k :: 0 <= k < |acts| ==> Enabled(states[k], acts[k]) && states[k + 1] == Next(states[k], acts[k])
  }

  function Flatten(batches: seq<seq<Push>>): seq<Push> {
    if |batches| == 0 then [] else Flatten(batches[..|batches| - 1]) + batches[|batches| - 1]
  }

  function InHand(w: Worker): seq<Push> {
    if w.Idle? then [] else w.batch
  }

  /** A batch is under the cap without its last push. */
  ghost predicate Capped(batch: seq<Push>) {
    batch != [] && PayloadBytes(batch[..|batch| - 1]) < BATCH_BYTES
  }

  /** All but the last push of the batch make less than 256 KiB of output. */
  ghost predicate UnderCap(batch: seq<Push>) {
    batch != [] && |Text(batch[..|batch| - 1])| < 256 * 1024
  }

  /** Everything sent is in a cut, in hand or queued, in order; the cuts are what was emitted, coalesced. */
  ghost predicate Lossless(s: Stream) {
    && |s.queue| <= TERMINAL_ITEMS
    && s.sent == Flatten(s.cuts) + InHand(s.worker) + s.queue
    && |s.emitted| == |s.cuts|
    && (forall k :: 0 <= k < |s.cuts| ==> s.emitted[k] == Coalesced(s.cuts[k]) && Capped(s.cuts[k]))
    && (!s.worker.Idle? ==> Capped(s.worker.batch))
  }

  lemma FlattenAppend(batches: seq<seq<Push>>, batch: seq<Push>)
    ensures Flatten(batches + [batch]) == Flatten(batches) + batch
  {
    assert (batches + [batch])[..|batches|] == batches;
  }

  lemma LosslessByAction(s: Stream, a: Action)
    requires Lossless(s) && Enabled(s, a)
    ensures Lossless(Next(s, a))
  {
    match a
    case Send(push) => JoinLeft(Flatten(s.cuts) + InHand(s.worker), s.queue, [push]);
    case Work =>
      match s.worker
      case Idle => LosslessByTaking(s);
      case Filling(batch) => LosslessByFilling(s, batch);
      case Ready(batch) => LosslessByEmitting(s, batch);
  }

  lemma LosslessByTaking(s: Stream)
    requires Lossless(s) && s.worker.Idle? && |s.queue| > 0
    ensures Lossless(Next(s, Work))
  {
    var first := [s.queue[0]];
    assert |first[..0]| == 0 && s.queue == first + s.queue[1..];
    JoinLeft(Flatten(s.cuts), first, s.queue[1..]);
  }

  lemma LosslessByFilling(s: Stream, batch: seq<Push>)
    requires Lossless(s) && s.worker == Filling(batch)
    ensures Lossless(Next(s, Work))
  {
    if PayloadBytes(batch) < BATCH_BYTES && |s.queue| > 0 {
      var next := [s.queue[0]];
      assert (batch + next)[..|batch|] == batch && s.queue == next + s.queue[1..];
      JoinLeft(Flatten(s.cuts) + batch, next, s.queue[1..]);
      JoinLeft(Flatten(s.cuts), batch, next);
    }
  }

  lemma LosslessByEmitting(s: Stream, batch: seq<Push>)
    requires Lossless(s) && s.worker == Ready(batch)
    ensures Lossless(Next(s, Work))
  {
    FlattenAppend(s.cuts, batch);
  }

  lemma {:induction false} LosslessAlongRun(states: seq<Stream>, acts: seq<Action>, n: nat)
    requires IsRun(states, acts) && n <= |acts|
    ensures Lossless(states[n])
    decreases n
  {
    if n > 0 {
      LosslessAlongRun(states, acts, n - 1);
      LosslessByAction(states[n - 1], acts[n - 1]);
    }
  }

  /** The emitted batches read as their cuts do. */
  lemma {:induction false} EmittedMeaning(emitted: seq<seq<Push>>, cuts: seq<seq<Push>>, t: string)
    requires |emitted| == |cuts| && forall k :: 0 <= k < |cuts| ==> emitted[k] == Coalesced(cuts[k])
    ensures Meaning(Flatten(emitted), t) == Meaning(Flatten(cuts), t)
  {
    if cuts != [] {
      var last := |cuts| - 1;
      EmittedMeaning(emitted[..last], cuts[..last], t);
      MeaningConcat(Flatten(emitted[..last]), emitted[last], t);
      MeaningConcat(Flatten(cuts[..last]), cuts[last], t);
      CoalescingPreservesMeaning(cuts[last], t);
    }
  }

  /** Every run, every terminal: what has been emitted, then what is in hand, then what is queued, reads
      exactly as what the producers sent. */
  lemma TheWorkerIsLossless(states: seq<Stream>, acts: seq<Action>, n: nat, t: string)
    requires IsRun(states, acts) && n <= |acts|
    ensures var s := states[n];
            Meaning(s.sent, t)
            == Meaning(Flatten(s.emitted), t) + Meaning(InHand(s.worker), t) + Meaning(s.queue, t)
  {
    LosslessAlongRun(states, acts, n);
    var s := states[n];
    EmittedMeaning(s.emitted, s.cuts, t);
    MeaningConcat(Flatten(s.cuts) + InHand(s.worker), s.queue, t);
    MeaningConcat(Flatten(s.cuts), InHand(s.worker), t);
  }

  /** Coalescing the batches again loses the cuts altogether. */
  lemma {:induction false} CutsVanish(emitted: seq<seq<Push>>, cuts: seq<seq<Push>>)
    requires |emitted| == |cuts| && forall k :: 0 <= k < |cuts| ==> emitted[k] == Coalesced(cuts[k])
    ensures AddAll(START, Flatten(emitted)) == AddAll(START, Flatten(cuts))
  {
    if cuts != [] {
      var last := |cuts| - 1;
      CutsVanish(emitted[..last], cuts[..last]);
      AddAllConcat(START, Flatten(emitted[..last]), emitted[last]);
      AddAllConcat(START, Flatten(cuts[..last]), cuts[last]);
      GoodAll(START, Flatten(cuts[..last]));
      CoalescedActsAlike(AddAll(START, Flatten(cuts[..last])), cuts[last]);
    }
  }

  /** Two runs that were sent the same pushes and have emitted all of them agree once coalesced, however
      differently their streams were cut. */
  lemma BatchingDoesNotMatter(states: seq<Stream>, acts: seq<Action>, others: seq<Stream>, otherActs: seq<Action>)
    requires IsRun(states, acts) && IsRun(others, otherActs)
    requires states[|acts|].sent == others[|otherActs|].sent
    requires states[|acts|].worker == Idle && states[|acts|].queue == []
    requires others[|otherActs|].worker == Idle && others[|otherActs|].queue == []
    ensures Coalesced(Flatten(states[|acts|].emitted)) == Coalesced(Flatten(others[|otherActs|].emitted))
  {
    LosslessAlongRun(states, acts, |acts|);
    LosslessAlongRun(others, otherActs, |otherActs|);
    CutsVanish(states[|acts|].emitted, states[|acts|].cuts);
    CutsVanish(others[|otherActs|].emitted, others[|otherActs|].cuts);
    assert Flatten(states[|acts|].cuts) == states[|acts|].sent;
    assert Flatten(others[|otherActs|].cuts) == others[|otherActs|].sent;
  }

  /** Every emitted batch is the coalescing of the cut the worker made for it; that cut held less than
      256 KiB of output until its last push, and the cuts in order are what was sent first. At most 64
      pushes ever wait. */
  lemma EveryBatchIsCapped(states: seq<Stream>, acts: seq<Action>, n: nat, k: nat)
    requires IsRun(states, acts) && n <= |acts| && k < |states[n].emitted|
    ensures var s := states[n];
            && k < |s.cuts| == |s.emitted|
            && s.emitted[k] == Coalesced(s.cuts[k]) && UnderCap(s.cuts[k])
            && Flatten(s.cuts) <= s.sent && |s.queue| <= 64
  {
    LosslessAlongRun(states, acts, n);
    var s := states[n];
    PayloadIsText(s.cuts[k][..|s.cuts[k]| - 1]);
    JoinLeft(Flatten(s.cuts), InHand(s.worker), s.queue);
  }

  lemma RunGrows(states: seq<Stream>, acts: seq<Action>, a: Action)
    requires IsRun(states, acts) && Enabled(states[|acts|], a)
    ensures IsRun(states + [Next(states[|acts|], a)], acts + [a])
  {
  }

  lemma MoreIsCapped(batch: seq<Push>, next: Push)
    requires PayloadBytes(batch) < BATCH_BYTES
    ensures Capped(batch + [next]) && PayloadBytes(batch + [next]) == PayloadBytes(batch) + Payload(next)
  {
    assert (batch + [next])[..|batch|] == batch;
  }

  /** The channel and its worker as imperative code; `states` and `acts` are the run it has made so far. */
  class Channel {
    var queue: seq<Push>
    var emitted: seq<seq<Push>>
    ghost var states: seq<Stream>
    ghost var acts: seq<Action>

    /** The run ends where the fields are, with `worker` where the worker is. */
    ghost predicate At(worker: Worker)
      reads this
    {
      && IsRun(states, acts)
      && states[|acts|].queue == queue && states[|acts|].emitted == emitted && states[|acts|].worker == worker
    }

    ghost predicate Valid()
      reads this
    {
      |queue| <= TERMINAL_ITEMS && At(Idle)
    }

    constructor ()
      ensures Valid() && queue == [] && emitted == [] && states == [FRESH]
    {
      queue, emitted := [], [];
      states, acts := [FRESH], [];
    }

    /** Makes one step of the machine the next one of the run. */
    ghost method Step(a: Action)
      requires IsRun(states, acts) && Enabled(states[|acts|], a)
      modifies this`states, this`acts
      ensures IsRun(states, acts) && acts == old(acts) + [a]
      ensures states == old(states) + [Next(old(states)[|old(acts)|], a)]
    {
      RunGrows(states, acts, a);
      states := states + [Next(states[|acts|], a)];
      acts := acts + [a];
    }

    /** Between two turns, what has been emitted and what is queued reads as everything ever sent. */
    lemma NothingIsLost(t: string)
      requires Valid()
      ensures Meaning(states[|acts|].sent, t) == Meaning(Flatten(emitted), t) + Meaning(queue, t)
    {
      TheWorkerIsLossless(states, acts, |acts|, t);
      assert Meaning(InHand(Idle), t) == [];
    }

    /** `blocking_send`: takes the push if there is room, and otherwise keeps its caller waiting. */
    method TrySend(push: Push) returns (taken: bool)
      requires Valid()
      modifies this`queue, this`states, this`acts
      ensures Valid() && taken == (|old(queue)| < 64)
      ensures queue == if taken then old(queue) + [push] else old(queue)
      ensures acts == if taken then old(acts) + [Send(push)] else old(acts)
      ensures old(states) <= states
      ensures states[|acts|].sent == old(states[|acts|].sent) + if taken then [push] else []
    {
      taken := |queue| < TERMINAL_ITEMS;
      if taken {
        Step(Send(push));
        queue := queue + [push];
      }
    }

    /** One turn of the worker with nobody else at the queue: a capped batch off its front, emitted
        coalesced; it stops only at the cap or when the queue is empty. */
    method WorkOnce() returns (ghost cut: seq<Push>)
      requires Valid() && queue != []
      modifies this
      ensures Valid() && old(queue) == cut + queue && UnderCap(cut)
      ensures queue == [] || |Text(cut)| >= 256 * 1024
      ensures emitted == old(emitted) + [Coalesced(cut)]
      ensures old(states) <= states && old(acts) <= acts && states[|acts|].sent == old(states[|acts|].sent)
      ensures forall k :: |old(acts)| <= k < |acts| ==> acts[k] == Work
    {
      var batch := Receive();
      batch := Fill(batch);
      Step(Work);
      var pushes := CoalesceTerminalPushes(batch);
      emitted := emitted + [pushes];
      cut := batch;
      PayloadIsText(cut);
      PayloadIsText(cut[..|cut| - 1]);
    }

    /** `try_recv` until the batch is at the cap or the queue is empty. */
    method Fill(first: seq<Push>) returns (batch: seq<Push>)
      requires |queue| <= TERMINAL_ITEMS && At(Filling(first)) && Capped(first)
      modifies this`queue, this`states, this`acts
      ensures |queue| <= TERMINAL_ITEMS && At(Ready(batch)) && Capped(batch)
      ensures first + old(queue) == batch + queue && (queue == [] || PayloadBytes(batch) >= BATCH_BYTES)
      ensures old(states) <= states && old(acts) <= acts && states[|acts|].sent == old(states[|acts|].sent)
      ensures forall k :: |old(acts)| <= k < |acts| ==> acts[k] == Work
    {
      batch := first;
      var pending := PayloadBytes(first);
      while pending < BATCH_BYTES && |queue| > 0
        invariant |queue| <= TERMINAL_ITEMS && first + old(queue) == batch + queue && Capped(batch)
        invariant pending == PayloadBytes(batch) && emitted == old(emitted) && At(Filling(batch))
        invariant old(states) <= states && old(acts) <= acts && states[|acts|].sent == old(states[|acts|].sent)
        invariant forall k :: |old(acts)| <= k < |acts| ==> acts[k] == Work
        decreases |queue|
      {
        Step(Work);
        var next := queue[0];
        queue := queue[1..];
        pending := pending + Payload(next);
        MoreIsCapped(batch, next);
        batch := batch + [next];
      }
      Step(Work);
    }

    /** `recv`: the first push opens a batch. */
    method Receive() returns (batch: seq<Push>)
      requires Valid() && queue != []
      modifies this`queue, this`states, this`acts
      ensures batch == [old(queue)[0]] && queue == old(queue)[1..] && Capped(batch) && At(Filling(batch))
      ensures PayloadBytes(batch) == Payload(batch[0])
      ensures old(states) <= states && acts == old(acts) + [Work]
      ensures states[|acts|].sent == old(states[|acts|].sent)
    {
      Step(Work);
      batch := [queue[0]];
      queue := queue[1..];
      assert batch[..0] == [];
    }
  }
}
