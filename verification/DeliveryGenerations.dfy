/** The generation fence in every run: what always holds of it, and exactly where a late bump breaks it. */
module DeliveryGenerations {
  import opened Options
  import opened DashboardHints
  import opened DeliveryProtocol
  import opened DeliveryBatches
  import opened DeliveryWakeup
  import opened DeliveryTransit

  /** The generation the last emission belonged to. */
  function LastGeneration(s: State): nat {
    if |s.emitted| == 0 then 0 else s.emitted[|s.emitted| - 1].generation
  }

  /** Emission `k` stays in its predecessor's generation, or moves on with a resync. */
  predicate MovesOnWithResync(emitted: seq<Emission>, k: nat)
    requires k < |emitted|
  {
    var before := if k == 0 then 0 else emitted[k - 1].generation;
    && before <= emitted[k].generation
    && (before < emitted[k].generation ==> IsResync(emitted[k].delta))
  }

  /** The generation the worker has read for the delta it is building. */
  function Held(w: Worker): Option<nat> {
    match w
    case Conflating(b) => Some(b.generation)
    case FinalCheck(b) => Some(b.generation)
    case DrainingLast(g) => Some(g)
    case Emitting(e) => Some(e.generation)
    case _ => None
  }

  // ---------- What holds in every run ----------

  ghost predicate Ascending(emitted: seq<Emission>) {
    forall j, k :: 0 <= j < k < |emitted| ==> emitted[j].generation <= emitted[k].generation
  }

  /** The generation read lies between the last emission's and the current one. */
  ghost predicate Bounded(s: State) {
    && Ascending(s.emitted)
    && LastGeneration(s) <= s.generation
    && (Held(s.worker).Some? ==> LastGeneration(s) <= Held(s.worker).value <= s.generation)
  }

  lemma BoundedByEmitting(s: State, e: Emission)
    requires Bounded(s) && s.worker == Emitting(e)
    ensures Bounded(Worked(s))
  {
    var t := Worked(s);
    assert t.emitted == s.emitted + [e] && t.worker.AtTop?;
    forall j, k | 0 <= j < k < |t.emitted|
      ensures t.emitted[j].generation <= t.emitted[k].generation
    {
      assert |s.emitted| > 0;
      assert s.emitted[j].generation <= s.emitted[|s.emitted| - 1].generation;
    }
  }

  lemma BoundedByAction(s: State, a: Action)
    requires Bounded(s) && Enabled(s, a)
    ensures Bounded(Next(s, a))
  {
    match a
    case Begin(_) =>
    case Advance(i, size) =>
      AdvanceFrame(s, i, size);
      GenerationGrows(s, a);
    case Work =>
      if s.worker.Emitting? {
        BoundedByEmitting(s, s.worker.emission);
      } else {
        BoundedByWork(s);
      }
  }

  lemma BoundedByWork(s: State)
    requires Bounded(s) && Enabled(s, Work) && !s.worker.Emitting?
    ensures Bounded(Worked(s))
  {
    var t := Worked(s);
    assert t.emitted == s.emitted && t.generation == s.generation;
    assert Held(t.worker).Some? ==> Held(t.worker).value == s.generation || Held(t.worker) == Held(s.worker);
  }

  lemma GenerationGrows(s: State, a: Action)
    requires Enabled(s, a)
    ensures Next(s, a).generation == s.generation + if Bumps(s, a) then 1 else 0
  {
  }

  predicate Bumps(s: State, a: Action)
    requires Enabled(s, a)
  {
    a.Advance? && s.calls[a.call].pc.BumpGeneration?
  }

  lemma {:induction false} BoundedAlongRun(states: seq<State>, acts: seq<Action>, n: nat)
    requires IsRun(states, acts) && n <= |acts|
    ensures Bounded(states[n])
    decreases n
  {
    if n > 0 {
      BoundedAlongRun(states, acts, n - 1);
      BoundedByAction(states[n - 1], acts[n - 1]);
    }
  }

  /** In every run, emissions never go back a generation, each carries only items of its own, and none is
      ahead of the current one. */
  lemma GenerationsNeverGoBack(states: seq<State>, acts: seq<Action>, n: nat, j: nat, k: nat)
    requires IsRun(states, acts) && n <= |acts| && j <= k < |states[n].emitted|
    ensures var e := states[n].emitted;
            && e[j].generation <= e[k].generation <= states[n].generation
            && forall q :: q in e[k].items ==> q.generation == e[k].generation
  {
    BoundedAlongRun(states, acts, n);
    BatchesAreBuilt(states, acts, n);
    var e := states[n].emitted;
    assert e[k].generation <= e[|e| - 1].generation;
  }

  // ---------- Where the generation of a delta is read ----------

  /** The step reads the generation, after taking a first item or after the final swap. */
  predicate Reads(s: State, a: Action) {
    a.Work? && (s.worker.LoadingGeneration? || (s.worker.FinalCheck? && s.flag))
  }

  /** The last step before `n` that read the generation. */
  function LastRead(states: seq<State>, acts: seq<Action>, n: nat): (r: nat)
    requires |states| == |acts| + 1 && n <= |acts|
    ensures r <= n
  {
    if n == 0 then 0
    else if Reads(states[n - 1], acts[n - 1]) then n - 1
    else LastRead(states, acts, n - 1)
  }

  /** A generation comes into the worker's hand only by a read, and stays there as it was. */
  lemma HeldStep(s: State, a: Action)
    requires Enabled(s, a) && Held(Next(s, a).worker).Some?
    ensures if Reads(s, a) then Held(Next(s, a).worker).value == s.generation
            else Held(Next(s, a).worker) == Held(s.worker)
  {
    match a
    case Begin(_) =>
    case Advance(i, size) => AdvanceFrame(s, i, size);
    case Work =>
  }

  /** What the worker holds is the generation at its last read, and it has held it ever since. */
  lemma {:induction false} HeldSinceRead(states: seq<State>, acts: seq<Action>, n: nat)
    requires IsRun(states, acts) && n <= |acts| && Held(states[n].worker).Some?
    ensures var r := LastRead(states, acts, n);
            && r < n && Reads(states[r], acts[r])
            && Held(states[n].worker).value == states[r].generation
            && forall k :: r < k <= n ==> Held(states[k].worker).Some?
    ensures forall k :: LastRead(states, acts, n) < k < n ==> !Reads(states[k], acts[k])
    decreases n
  {
    if n > 0 {
      assert states[n] == Next(states[n - 1], acts[n - 1]);
      HeldStep(states[n - 1], acts[n - 1]);
      if !Reads(states[n - 1], acts[n - 1]) {
        HeldSinceRead(states, acts, n - 1);
      }
    }
  }

  lemma {:induction false} GenerationsAscend(states: seq<State>, acts: seq<Action>, m: nat, n: nat)
    requires IsRun(states, acts) && m <= n <= |acts|
    ensures states[m].generation <= states[n].generation
    decreases n
  {
    if m < n {
      GenerationsAscend(states, acts, m, n - 1);
      GenerationGrows(states[n - 1], acts[n - 1]);
    }
  }

  /** A generation that has moved was bumped on the way. */
  lemma {:induction false} BumpBetween(states: seq<State>, acts: seq<Action>, m: nat, n: nat) returns (k: nat)
    requires IsRun(states, acts) && m <= n <= |acts| && states[m].generation < states[n].generation
    ensures m <= k < n && Bumps(states[k], acts[k])
    decreases n
  {
    k := n - 1;
    GenerationGrows(states[k], acts[k]);
    if !Bumps(states[k], acts[k]) {
      k := BumpBetween(states, acts, m, n - 1);
    }
  }

  /** A late bump after `m` leaves a later generation at `n`. */
  lemma LateBumpMoves(states: seq<State>, acts: seq<Action>, m: nat, k: nat, n: nat)
    requires IsRun(states, acts) && m <= k < n <= |acts| && LateBump(states[k], acts[k])
    ensures states[m].generation < states[n].generation
  {
    GenerationsAscend(states, acts, m, k);
    GenerationGrows(states[k], acts[k]);
    GenerationsAscend(states, acts, k + 1, n);
  }

  ghost predicate NoLateBumpIn(states: seq<State>, acts: seq<Action>, m: nat, n: nat)
    requires |states| == |acts| + 1 && n <= |acts|
  {
    forall k :: m <= k < n ==> !LateBump(states[k], acts[k])
  }

  // ---------- The final check ----------

  lemma FlagStep(s: State, a: Action)
    requires Enabled(s, a) && s.flag && Held(s.worker).Some? && !Reads(s, a)
    ensures Next(s, a).flag
  {
  }

  /** While a generation is held and not read again, a raised flag stays up. */
  lemma {:induction false} FlagStays(states: seq<State>, acts: seq<Action>, k: nat, n: nat)
    requires IsRun(states, acts) && k <= n <= |acts| && states[k].flag
    requires forall j :: k <= j < n ==> Held(states[j].worker).Some? && !Reads(states[j], acts[j])
    ensures states[n].flag
    decreases n
  {
    if k < n {
      FlagStays(states, acts, k, n - 1);
      FlagStep(states[n - 1], acts[n - 1]);
    }
  }

  lemma BumpKeepsFlag(s: State, a: Action)
    requires Enabled(s, a) && Bumps(s, a)
    ensures Next(s, a).flag == s.flag && Next(s, a).worker == s.worker && Next(s, a).emitted == s.emitted
  {
  }

  /** In every run, a batch that passes the final check holds the generation that is current at that
      moment if and only if no bump came late since the worker read it. */
  lemma TheFinalCheckExactly(states: seq<State>, acts: seq<Action>, n: nat)
    requires IsRun(states, acts) && n <= |acts| && states[n].worker.FinalCheck? && !states[n].flag
    ensures states[n].worker.batch.generation == states[n].generation
            <==> NoLateBumpIn(states, acts, LastRead(states, acts, n), n)
    ensures forall q :: q in states[n].worker.batch.items ==> q.generation == states[n].worker.batch.generation
  {
    BatchesAreBuilt(states, acts, n);
    HeldSinceRead(states, acts, n);
    var r := LastRead(states, acts, n);
    GenerationsAscend(states, acts, r, n);
    if states[r].generation < states[n].generation {
      var k := BumpBetween(states, acts, r, n);
      if !LateBump(states[k], acts[k]) {
        BumpKeepsFlag(states[k], acts[k]);
        FlagStays(states, acts, k + 1, n);
      }
    }
    if k :| r <= k < n && LateBump(states[k], acts[k]) {
      LateBumpMoves(states, acts, r, k, n);
    }
  }

  // ---------- From one emission to the next ----------

  predicate Emits(s: State, a: Action) {
    a.Work? && s.worker.Emitting?
  }

  /** A resync pending, or owed by the worker for the delta it is building. */
  predicate Answering(s: State) {
    if s.worker.Emitting? then IsResync(s.worker.emission.delta) else s.flag || MarkerOwed(s.worker)
  }

  lemma AnsweringStep(s: State, a: Action)
    requires Enabled(s, a) && Answering(s) && !Emits(s, a)
    ensures Answering(Next(s, a))
  {
    match a
    case Begin(_) =>
    case Advance(i, size) =>
      AdvanceFrame(s, i, size);
      assert s.flag ==> Next(s, a).flag;
    case Work => AnsweringWork(s);
  }

  lemma AnsweringWork(s: State)
    requires Enabled(s, Work) && Answering(s) && !s.worker.Emitting?
    ensures Answering(Worked(s))
  {
    match s.worker
    case Conflating(b) => assert IsResync(b.delta) ==> MarkerOwed(Worked(s).worker);
    case _ =>
  }

  lemma {:induction false} AnsweringStays(states: seq<State>, acts: seq<Action>, k: nat, n: nat)
    requires IsRun(states, acts) && k <= n <= |acts| && Answering(states[k])
    requires forall j :: k <= j < n ==> !Emits(states[j], acts[j])
    ensures Answering(states[n])
    decreases n
  {
    if k < n {
      AnsweringStays(states, acts, k, n - 1);
      AnsweringStep(states[n - 1], acts[n - 1]);
    }
  }

  lemma EmittingStep(s: State, a: Action)
    requires Enabled(s, a) && s.worker.Emitting? && !Emits(s, a)
    ensures Next(s, a).worker == s.worker && Next(s, a).deferred == s.deferred
  {
    if a.Advance? {
      AdvanceFrame(s, a.call, a.size);
    }
  }

  lemma {:induction false} EmittingStays(states: seq<State>, acts: seq<Action>, k: nat, n: nat)
    requires IsRun(states, acts) && k <= n <= |acts| && states[k].worker.Emitting?
    requires forall j :: k <= j < n ==> !Emits(states[j], acts[j])
    ensures states[n].worker == states[k].worker && states[n].deferred == states[k].deferred
    decreases n
  {
    if k < n {
      EmittingStays(states, acts, k, n - 1);
      EmittingStep(states[n - 1], acts[n - 1]);
    }
  }

  /** The emission before step `n`, if any. */
  function LastEmission(states: seq<State>, acts: seq<Action>, n: nat): (m: Option<nat>)
    requires |states| == |acts| + 1 && n <= |acts|
    ensures m.Some? ==> m.value < n && Emits(states[m.value], acts[m.value])
    ensures forall j :: (if m.Some? then m.value + 1 else 0) <= j < n ==> !Emits(states[j], acts[j])
  {
    if n == 0 then None
    else if Emits(states[n - 1], acts[n - 1]) then Some(n - 1)
    else LastEmission(states, acts, n - 1)
  }

  /** The state the worker starts the delta emitted by step `n` from. */
  function Start(states: seq<State>, acts: seq<Action>, n: nat): (a: nat)
    requires |states| == |acts| + 1 && n <= |acts|
    ensures a <= n && forall j :: a <= j < n ==> !Emits(states[j], acts[j])
  {
    var m := LastEmission(states, acts, n);
    if m.Some? then m.value + 1 else 0
  }

  /** The read before the one for the delta emitted by step `n`: that of the emission before it. */
  function ReadBefore(states: seq<State>, acts: seq<Action>, n: nat): nat
    requires |states| == |acts| + 1 && n <= |acts|
  {
    var m := LastEmission(states, acts, n);
    if m.Some? then LastRead(states, acts, m.value) else 0
  }

  /** Nothing is held where the worker starts a delta, so its read comes later. */
  lemma ReadAfterStart(states: seq<State>, acts: seq<Action>, n: nat)
    requires IsRun(states, acts) && n <= |acts| && Held(states[n].worker).Some?
    ensures states[Start(states, acts, n)].worker.AtTop?
    ensures Start(states, acts, n) <= LastRead(states, acts, n) < n
  {
    HeldSinceRead(states, acts, n);
    var a := Start(states, acts, n);
    if a > 0 {
      assert states[a] == Next(states[a - 1], acts[a - 1]);
    }
  }

  lemma ReadBeforeStep(states: seq<State>, acts: seq<Action>, n: nat)
    requires |states| == |acts| + 1 && 0 < n <= |acts|
    ensures Emits(states[n - 1], acts[n - 1]) ==>
              ReadBefore(states, acts, n) == LastRead(states, acts, n - 1) && Start(states, acts, n) == n
    ensures !Emits(states[n - 1], acts[n - 1]) ==>
              && ReadBefore(states, acts, n) == ReadBefore(states, acts, n - 1)
              && Start(states, acts, n) == Start(states, acts, n - 1)
  {
  }

  /** The fence stands at the read before: no emission since has moved it. */
  lemma {:induction false} FenceSince(states: seq<State>, acts: seq<Action>, n: nat)
    requires IsRun(states, acts) && n <= |acts|
    ensures LastGeneration(states[n]) == states[ReadBefore(states, acts, n)].generation
    ensures ReadBefore(states, acts, n) <= Start(states, acts, n)
    decreases n
  {
    if n > 0 {
      var s, a := states[n - 1], acts[n - 1];
      FenceSince(states, acts, n - 1);
      ReadBeforeStep(states, acts, n);
      if Emits(s, a) {
        HeldSinceRead(states, acts, n - 1);
        EmissionSetsTheFence(s, s.worker.emission);
      } else {
        EmittedStays(s, a);
      }
    }
  }

  lemma EmissionSetsTheFence(s: State, e: Emission)
    requires s.worker == Emitting(e)
    ensures Next(s, Work).emitted == s.emitted + [e] && LastGeneration(Next(s, Work)) == e.generation
  {
  }

  lemma EmittedStays(s: State, a: Action)
    requires Enabled(s, a) && !Emits(s, a)
    ensures Next(s, a).emitted == s.emitted
  {
  }

  /** A flag raised behind the last read is still up when that delta has been emitted. */
  lemma BumpedBehindTheEmission(states: seq<State>, acts: seq<Action>, k: nat, n: nat)
    requires IsRun(states, acts) && n <= |acts| && ReadBefore(states, acts, n) <= k < Start(states, acts, n)
    requires Bumps(states[k], acts[k]) && states[k + 1].flag
    ensures Answering(states[Start(states, acts, n)])
  {
    var m := Start(states, acts, n) - 1;
    HeldSinceRead(states, acts, m);
    assert k != m;
    FlagStays(states, acts, k + 1, m);
    assert states[m + 1] == Next(states[m], acts[m]);
  }

  /** Up to its read, a delta is not being emitted. */
  lemma NotYetEmitting(states: seq<State>, acts: seq<Action>, k: nat, n: nat)
    requires IsRun(states, acts) && n <= |acts| && Held(states[n].worker).Some?
    requires Start(states, acts, n) <= k <= LastRead(states, acts, n)
    ensures !states[k].worker.Emitting?
  {
    HeldSinceRead(states, acts, n);
    var r := LastRead(states, acts, n);
    assert Reads(states[r], acts[r]);
    if states[k].worker.Emitting? {
      EmittingStays(states, acts, k, r);
      assert false;
    }
  }

  /** A bump since the fence that came with its flag is answered by the very next emission. */
  lemma TimelyBumpIsAnswered(states: seq<State>, acts: seq<Action>, k: nat, n: nat)
    requires IsRun(states, acts) && n <= |acts| && states[n].worker.Emitting?
    requires ReadBefore(states, acts, n) <= k < LastRead(states, acts, n)
    requires Bumps(states[k], acts[k]) && !LateBump(states[k], acts[k])
    ensures IsResync(states[n].worker.emission.delta)
  {
    ReadAfterStart(states, acts, n);
    BumpKeepsFlag(states[k], acts[k]);
    if k < Start(states, acts, n) {
      BumpedBehindTheEmission(states, acts, k, n);
      AnsweringStays(states, acts, Start(states, acts, n), n);
    } else {
      NotYetEmitting(states, acts, k + 1, n);
      AnsweringStays(states, acts, k + 1, n);
    }
  }

  /** In every run, an emission moves on from its predecessor's generation without a resync if and only if
      a bump came late between the two reads and no resync replaced the emission. */
  lemma TheFenceExactly(states: seq<State>, acts: seq<Action>, n: nat)
    requires IsRun(states, acts) && n < |acts| && Emits(states[n], acts[n])
    ensures var k := |states[n].emitted|;
            && |states[n + 1].emitted| == k + 1
            && (MovesOnWithResync(states[n + 1].emitted, k)
                <==> IsResync(states[n].worker.emission.delta)
                     || NoLateBumpIn(states, acts, ReadBefore(states, acts, n), LastRead(states, acts, n)))
  {
    var s := states[n];
    assert states[n + 1] == Next(s, acts[n]) && states[n + 1].emitted == s.emitted + [s.worker.emission];
    var p, r := ReadBefore(states, acts, n), LastRead(states, acts, n);
    HeldSinceRead(states, acts, n);
    ReadAfterStart(states, acts, n);
    FenceSince(states, acts, n);
    GenerationsAscend(states, acts, p, r);
    if states[p].generation < states[r].generation {
      var k := BumpBetween(states, acts, p, r);
      if !LateBump(states[k], acts[k]) {
        TimelyBumpIsAnswered(states, acts, k, n);
      }
    }
    if k :| p <= k < r && LateBump(states[k], acts[k]) {
      LateBumpMoves(states, acts, p, k, r);
    }
  }

  // ---------- The parked item ----------

  /** `q` is what the worker takes up next, or comes first in what it is building. */
  predicate Heads(s: State, q: Queued) {
    match s.worker
    case AtTop => s.deferred == Some(q)
    case Took(first) => first == Delta(q)
    case LoadingGeneration(first) => first == Delta(q)
    case Conflating(b) => First(b.items, q)
    case FinalCheck(b) => First(b.items, q)
    case Emitting(e) => First(e.items, q)
    case _ => false
  }

  predicate First(items: seq<Queued>, q: Queued) {
    |items| > 0 && items[0] == q
  }

  lemma HeadsStep(s: State, a: Action, q: Queued)
    requires Enabled(s, a) && Heads(s, q) && !Emits(s, a)
    requires Reads(s, a) && !s.flag ==> s.generation == q.generation
    ensures Heads(Next(s, a), q) || Answering(Next(s, a))
    ensures Reads(s, a) || Held(s.worker).Some? ==> Held(Next(s, a).worker).Some? || Answering(Next(s, a))
  {
    match a
    case Begin(_) =>
    case Advance(i, size) => AdvanceFrame(s, i, size);
    case Work => HeadsWork(s, q);
  }

  lemma HeadsWork(s: State, q: Queued)
    requires Enabled(s, Work) && Heads(s, q) && !s.worker.Emitting?
    requires Reads(s, Work) && !s.flag ==> s.generation == q.generation
    ensures Heads(Worked(s), q) || Answering(Worked(s))
    ensures Reads(s, Work) || Held(s.worker).Some? ==> Held(Worked(s).worker).Some? || Answering(Worked(s))
  {
    match s.worker
    case Conflating(b) =>
      if b.pending < BATCH_BYTES && |s.queue| > 0 && s.queue[0].Delta? {
        assert (b.items + [s.queue[0].queued])[0] == b.items[0];
      }
    case _ =>
  }

  /** Up to its read and beyond it, `q` keeps its place or a resync is coming. */
  lemma {:induction false} HeadsStays(states: seq<State>, acts: seq<Action>, a: nat, r: nat, n: nat, q: Queued)
    requires IsRun(states, acts) && a <= r < |acts| && a <= n <= |acts|
    requires states[a].worker.AtTop? && Heads(states[a], q)
    requires forall j :: a <= j < n ==> !Emits(states[j], acts[j])
    requires forall j :: a <= j < r ==> !Reads(states[j], acts[j])
    requires Reads(states[r], acts[r]) && states[r].generation == q.generation
    ensures Heads(states[n], q) || Answering(states[n])
    ensures n > r ==> Held(states[n].worker).Some? || Answering(states[n])
    decreases n
  {
    if a < n {
      HeadsStays(states, acts, a, r, n - 1, q);
      var s, act := states[n - 1], acts[n - 1];
      if Answering(s) {
        AnsweringStep(s, act);
      } else {
        assert Reads(s, act) && !s.flag ==> s.worker.LoadingGeneration? && n - 1 == r;
        HeadsStep(s, act, q);
      }
    }
  }

  /** The first read after `m`. */
  ghost predicate FirstRead(states: seq<State>, acts: seq<Action>, m: nat, r: nat)
    requires |states| == |acts| + 1
  {
    m < r < |acts| && Reads(states[r], acts[r]) && forall j :: m < j < r ==> !Reads(states[j], acts[j])
  }

  /** In every run, an item parked behind one emission opens the next, unless a resync replaces it, if and
      only if no bump came late between the read of its batch and the next read. */
  lemma TheParkedItemExactly(states: seq<State>, acts: seq<Action>, m: nat, r: nat, n: nat, q: Queued)
    requires IsRun(states, acts) && m < n < |acts| && LastEmission(states, acts, n) == Some(m)
    requires states[m].deferred == Some(q) && FirstRead(states, acts, m, r) && Emits(states[n], acts[n])
    ensures var e := states[n].worker.emission;
            IsResync(e.delta) || (First(e.items, q) <==> NoLateBumpIn(states, acts, LastRead(states, acts, m), r))
  {
    var p, e := LastRead(states, acts, m), states[n].worker.emission;
    BatchesAreBuilt(states, acts, m);
    BatchesAreBuilt(states, acts, n);
    HeldSinceRead(states, acts, m);
    HeldSinceRead(states, acts, n);
    ReadAfterStart(states, acts, n);
    assert p == ReadBefore(states, acts, n) && r <= LastRead(states, acts, n);
    assert q.generation == states[p].generation;
    assert First(e.items, q) ==> q.generation == e.generation;
    if k :| p <= k < r && LateBump(states[k], acts[k]) {
      LateBumpMoves(states, acts, p, k, r);
      GenerationsAscend(states, acts, r, LastRead(states, acts, n));
    } else if !IsResync(e.delta) {
      GenerationsAscend(states, acts, p, r);
      if states[p].generation < states[r].generation {
        var k := BumpBetween(states, acts, p, r);
        TimelyBumpIsAnswered(states, acts, k, n);
      }
      assert states[m + 1] == Next(states[m], acts[m]);
      HeadsStays(states, acts, m + 1, r, n, q);
    }
  }
}
