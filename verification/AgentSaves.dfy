/** Saving the default agent: an effect queues one save per choice on a promise chain. */
module AgentSaves {
  import opened Options

  /** A launcher pick; `autoTier` marks a Router pick. */
  datatype Model = Model(provider: string, modelLabel: string, modelId: string, effort: Option<string>,
                         autoTier: Option<string>)

  /** Permission modes are compared by identity: a number names the object, 0 the initial one. Every change
      makes a new object, so numbers only grow. */
  type Modes = nat

  datatype Payload = Payload(model: Option<Model>, modes: Modes)

  datatype Choice = Choice(model: Model, modes: Modes)

  /** A link of the chain; `effect` numbers the effect run that queued it. */
  datatype Save = Save(effect: nat, payload: Payload)

  datatype Event = Started(effect: nat) | Settled(effect: nat)

  /** `pinned` is the last pick that was no Router pick, `cancelled` the effects cleaned up, `skipped`
      whether the latest effect queued nothing; `choices`, `calls` and `trace` are history. */
  datatype State = State(
    pinned: Option<Model>,
    chain: seq<Save>,
    running: Option<Save>,
    cancelled: set<nat>,
    skipped: bool,
    choices: seq<Choice>,
    calls: seq<Save>,
    trace: seq<Event>)

  /** The first effect runs with the initial modes, a later one with the same or newer ones. */
  datatype Action = Choose(choice: Choice) | StartNext | Settle

  const FRESH := State(None, [], None, {}, true, [], [], [])

  predicate Enabled(s: State, a: Action) {
    match a
    case Choose(c) => if |s.choices| == 0 then c.modes == 0 else s.choices[|s.choices| - 1].modes <= c.modes
    case StartNext => s.running.None? && s.chain != []
    case Settle => s.running.Some?
  }

  /** The effect: clean up the previous run, remember a pinned pick, and queue a save unless nothing
      pinned was ever seen and the modes are the initial ones. */
  function Effect(s: State, c: Choice): State {
    var n := |s.choices|;
    var pinned := if c.model.autoTier.None? then Some(c.model) else s.pinned;
    var cancelled := if n > 0 && !s.skipped then s.cancelled + {n - 1} else s.cancelled;
    var t := s.(pinned := pinned, cancelled := cancelled, choices := s.choices + [c]);
    if pinned.None? && c.modes == 0 then t.(skipped := true)
    else t.(skipped := false, chain := s.chain + [Save(n, Payload(pinned, c.modes))])
  }

  function Next(s: State, a: Action): State
    requires Enabled(s, a)
  {
    match a
    case Choose(c) => Effect(s, c)
    case StartNext =>
      var save := s.chain[0];
      if save.effect in s.cancelled then s.(chain := s.chain[1..])
      else s.(chain := s.chain[1..], running := Some(save), calls := s.calls + [save],
              trace := s.trace + [Started(save.effect)])
    case Settle => s.(running := None, trace := s.trace + [Settled(s.running.value.effect)])
  }

  ghost predicate IsRun(states: seq<State>, acts: seq<Action>) {
    && |states| == |acts| + 1
    && states[0] == FRESH
    && forall k :: 0 <= k < |acts| ==> Enabled(states[k], acts[k]) && states[k + 1] == Next(states[k], acts[k])
  }

  /** The last pick that was no Router pick. */
  function LastPinned(choices: seq<Choice>): Option<Model> {
    if |choices| == 0 then None
    else if choices[|choices| - 1].model.autoTier.None? then Some(choices[|choices| - 1].model)
    else LastPinned(choices[..|choices| - 1])
  }

  /** The model of the newest choice that was no Router pick, if there was any such choice. */
  ghost predicate IsNewestPinned(choices: seq<Choice>, model: Option<Model>) {
    match model
    case None => forall j :: 0 <= j < |choices| ==> choices[j].model.autoTier.Some?
    case Some(m) =>
      m.autoTier.None? && exists k :: 0 <= k < |choices| && choices[k].model == m && RoutersAfter(choices, k)
  }

  ghost predicate RoutersAfter(choices: seq<Choice>, k: nat) {
    forall j :: k < j < |choices| ==> choices[j].model.autoTier.Some?
  }

  lemma {:induction false} LastPinnedIsNewest(choices: seq<Choice>)
    ensures IsNewestPinned(choices, LastPinned(choices))
  {
    if |choices| > 0 {
      var n := |choices| - 1;
      var front := choices[..n];
      LastPinnedIsNewest(front);
      if choices[n].model.autoTier.None? {
        assert RoutersAfter(choices, n);
      } else if LastPinned(front).Some? {
        var k :| 0 <= k < n && front[k].model == LastPinned(front).value && RoutersAfter(front, k);
        assert choices[k] == front[k];
        forall j | k < j < |choices|
          ensures choices[j].model.autoTier.Some?
        {
          assert j < n ==> choices[j] == front[j];
        }
        assert RoutersAfter(choices, k);
      } else {
        assert forall j :: 0 <= j < n ==> choices[j] == front[j];
      }
    }
  }

  /** A save is what its choice called for: the newest pinned pick so far, and the choice's modes. */
  ghost predicate Faithful(choices: seq<Choice>, save: Save) {
    && save.effect < |choices|
    && save.payload == Payload(LastPinned(choices[..save.effect + 1]), choices[save.effect].modes)
    && !(save.payload.model.None? && save.payload.modes == 0)
  }

  ghost predicate Ascending(saves: seq<Save>) {
    forall i, j :: 0 <= i < j < |saves| ==> saves[i].effect < saves[j].effect
  }

  /** Calls alternate: each one settles before the next starts. */
  ghost predicate NeverOverlap(trace: seq<Event>) {
    forall i :: 0 <= i < |trace| ==> InTurn(trace, i)
  }

  predicate InTurn(trace: seq<Event>, i: nat)
    requires i < |trace|
  {
    if i % 2 == 0 then trace[i].Started? else trace[i].Settled? && trace[i - 1] == Started(trace[i].effect)
  }

  lemma TraceGrows(trace: seq<Event>, e: Event)
    requires NeverOverlap(trace)
    requires if |trace| % 2 == 0 then e.Started? else e.Settled? && trace[|trace| - 1] == Started(e.effect)
    ensures NeverOverlap(trace + [e])
  {
    var all := trace + [e];
    forall i | 0 <= i < |all|
      ensures InTurn(all, i)
    {
      if i < |trace| {
        assert InTurn(trace, i) && all[..i + 1] == trace[..i + 1];
      }
    }
  }

  /** The latest effect is always somewhere: skipped, waiting in the chain, or the last call made. */
  ghost predicate LatestKept(s: State) {
    var n := |s.choices|;
    && (n > 0 && !s.skipped ==>
          n - 1 !in s.cancelled
          && ((s.chain != [] && s.chain[|s.chain| - 1].effect == n - 1)
              || (s.chain == [] && s.calls != [] && s.calls[|s.calls| - 1].effect == n - 1)))
    && (n > 0 && s.skipped ==> s.pinned.None? && s.choices[n - 1].modes == 0)
    && (n == 0 ==> s.skipped && s.calls == [] && s.chain == [])
  }

  ghost predicate AllFaithful(s: State) {
    && s.pinned == LastPinned(s.choices)
    && (forall i :: 0 <= i < |s.chain| ==> Faithful(s.choices, s.chain[i]))
    && (forall i :: 0 <= i < |s.calls| ==> Faithful(s.choices, s.calls[i]))
  }

  /** `running` is the last call, and the trace ends with its start. */
  ghost predicate OneAtATime(s: State) {
    && NeverOverlap(s.trace)
    && (s.running.Some? <==> |s.trace| % 2 == 1)
    && (s.running.Some? ==> s.trace[|s.trace| - 1] == Started(s.running.value.effect))
  }

  ghost predicate ModesGrow(choices: seq<Choice>) {
    forall i, j :: 0 <= i < j < |choices| ==> choices[i].modes <= choices[j].modes
  }

  ghost predicate Sound(s: State) {
    && AllFaithful(s)
    && OneAtATime(s)
    && Ascending(s.calls + s.chain)
    && (forall k :: k in s.cancelled ==> k < |s.choices|)
    && ModesGrow(s.choices)
    && LatestKept(s)
  }

  lemma LastPinnedAppend(choices: seq<Choice>, c: Choice)
    ensures LastPinned(choices + [c]) == if c.model.autoTier.None? then Some(c.model) else LastPinned(choices)
  {
    assert (choices + [c])[..|choices|] == choices;
  }

  lemma FaithfulGrows(choices: seq<Choice>, c: Choice, save: Save)
    requires Faithful(choices, save)
    ensures Faithful(choices + [c], save)
  {
    assert (choices + [c])[..save.effect + 1] == choices[..save.effect + 1];
  }

  lemma FaithfulByChoose(s: State, c: Choice)
    requires AllFaithful(s)
    ensures AllFaithful(Effect(s, c))
  {
    var t := Effect(s, c);
    LastPinnedAppend(s.choices, c);
    assert t.choices[..|s.choices| + 1] == t.choices;
    forall i | 0 <= i < |t.chain|
      ensures Faithful(t.choices, t.chain[i])
    {
      if i < |s.chain| {
        FaithfulGrows(s.choices, c, s.chain[i]);
      }
    }
    forall i | 0 <= i < |t.calls|
      ensures Faithful(t.choices, t.calls[i])
    {
      FaithfulGrows(s.choices, c, s.calls[i]);
    }
  }

  lemma AscendingAppend(saves: seq<Save>, save: Save)
    requires Ascending(saves) && forall i :: 0 <= i < |saves| ==> saves[i].effect < save.effect
    ensures Ascending(saves + [save])
  {
  }

  lemma AscendingByChoose(s: State, c: Choice)
    requires AllFaithful(s) && Ascending(s.calls + s.chain)
    ensures var t := Effect(s, c); Ascending(t.calls + t.chain)
  {
    var t := Effect(s, c);
    if t.chain != s.chain {
      var all, save := s.calls + s.chain, t.chain[|s.chain|];
      forall i | 0 <= i < |all|
        ensures all[i].effect < save.effect
      {
        assert Faithful(s.choices, if i < |s.calls| then s.calls[i] else s.chain[i - |s.calls|]);
      }
      AscendingAppend(all, save);
      assert t.calls + t.chain == all + [save];
    }
  }

  lemma SoundByChoose(s: State, c: Choice)
    requires Sound(s) && Enabled(s, Choose(c))
    ensures Sound(Effect(s, c))
  {
    FaithfulByChoose(s, c);
    AscendingByChoose(s, c);
    LatestByChoose(s, c);
    EffectFrame(s, c);
    SoundAfter(s, Effect(s, c));
  }

  lemma EffectFrame(s: State, c: Choice)
    requires forall k :: k in s.cancelled ==> k < |s.choices|
    ensures var t := Effect(s, c);
            t.trace == s.trace && t.running == s.running && forall k :: k in t.cancelled ==> k < |t.choices|
  {
  }

  lemma SoundAfter(s: State, t: State)
    requires OneAtATime(s) && t.trace == s.trace && t.running == s.running
    requires AllFaithful(t) && Ascending(t.calls + t.chain) && LatestKept(t) && ModesGrow(t.choices)
    requires forall k :: k in t.cancelled ==> k < |t.choices|
    ensures Sound(t)
  {
  }

  lemma LatestByChoose(s: State, c: Choice)
    requires Sound(s) && Enabled(s, Choose(c))
    ensures LatestKept(Effect(s, c)) && ModesGrow(Effect(s, c).choices)
  {
  }

  lemma AscendingByStart(s: State)
    requires Ascending(s.calls + s.chain) && Enabled(s, StartNext)
    ensures var t := Next(s, StartNext); Ascending(t.calls + t.chain)
  {
    var t := Next(s, StartNext);
    var all, fewer := s.calls + s.chain, t.calls + t.chain;
    if s.chain[0].effect in s.cancelled {
      assert forall i :: 0 <= i < |fewer| ==> fewer[i] == all[if i < |s.calls| then i else i + 1];
    } else {
      assert fewer == all;
    }
  }

  lemma LatestByStart(s: State)
    requires LatestKept(s) && Enabled(s, StartNext)
    ensures LatestKept(Next(s, StartNext))
  {
    var t := Next(s, StartNext);
    if |t.chain| > 0 {
      assert t.chain[|t.chain| - 1] == s.chain[|s.chain| - 1];
    }
  }

  lemma FaithfulByStart(s: State)
    requires AllFaithful(s) && Enabled(s, StartNext)
    ensures AllFaithful(Next(s, StartNext))
  {
    assert Faithful(s.choices, s.chain[0]);
  }

  lemma SoundByStart(s: State)
    requires Sound(s) && Enabled(s, StartNext)
    ensures Sound(Next(s, StartNext))
  {
    AscendingByStart(s);
    TraceGrows(s.trace, Started(s.chain[0].effect));
    LatestByStart(s);
    FaithfulByStart(s);
  }

  lemma SoundBySettle(s: State)
    requires Sound(s) && Enabled(s, Settle)
    ensures Sound(Next(s, Settle))
  {
    TraceGrows(s.trace, Settled(s.running.value.effect));
  }

  lemma SoundByAction(s: State, a: Action)
    requires Sound(s) && Enabled(s, a)
    ensures Sound(Next(s, a))
  {
    match a
    case Choose(c) => SoundByChoose(s, c);
    case StartNext => SoundByStart(s);
    case Settle => SoundBySettle(s);
  }

  lemma {:induction false} SoundAlongRun(states: seq<State>, acts: seq<Action>, n: nat)
    requires IsRun(states, acts) && n <= |acts|
    ensures Sound(states[n])
    decreases n
  {
    if n > 0 {
      SoundAlongRun(states, acts, n - 1);
      SoundByAction(states[n - 1], acts[n - 1]);
    }
  }

  /** Every run: calls never overlap, follow the order of choices, and carry what had been chosen: the
      choice's modes and the newest pick so far that was no Router pick; none is empty. */
  lemma SavesFollowChoices(states: seq<State>, acts: seq<Action>, n: nat)
    requires IsRun(states, acts) && n <= |acts|
    ensures var s := states[n];
            && NeverOverlap(s.trace)
            && Ascending(s.calls)
            && (forall i :: 0 <= i < |s.calls| ==>
                  var save := s.calls[i];
                  && save.effect < |s.choices| && save.payload.modes == s.choices[save.effect].modes
                  && IsNewestPinned(s.choices[..save.effect + 1], save.payload.model)
                  && (save.payload.model.Some? || save.payload.modes != 0))
  {
    SoundAlongRun(states, acts, n);
    var s := states[n];
    forall i, j | 0 <= i < j < |s.calls|
      ensures s.calls[i].effect < s.calls[j].effect
    {
      assert (s.calls + s.chain)[i] == s.calls[i] && (s.calls + s.chain)[j] == s.calls[j];
    }
    forall i | 0 <= i < |s.calls|
      ensures Faithful(s.choices, s.calls[i])
      ensures IsNewestPinned(s.choices[..s.calls[i].effect + 1], s.calls[i].payload.model)
    {
      assert Faithful(s.choices, s.calls[i]);
      LastPinnedIsNewest(s.choices[..s.calls[i].effect + 1]);
    }
  }

  // ---------- No superseded save is sent ----------

  /** A waiting save of any but the newest choice is cleaned up. */
  ghost predicate StaleIsCancelled(s: State) {
    forall i :: 0 <= i < |s.chain| ==> s.chain[i].effect in s.cancelled || IsNewest(s, s.chain[i])
  }

  ghost predicate IsNewest(s: State, save: Save) {
    save.effect + 1 == |s.choices| && !s.skipped
  }

  lemma StaleByAction(s: State, a: Action)
    requires StaleIsCancelled(s) && Enabled(s, a)
    ensures StaleIsCancelled(Next(s, a))
  {
    var t := Next(s, a);
    match a
    case Choose(c) =>
      forall i | 0 <= i < |t.chain|
        ensures t.chain[i].effect in t.cancelled || IsNewest(t, t.chain[i])
      {
        if i < |s.chain| {
          assert t.chain[i] == s.chain[i];
          assert s.chain[i].effect in s.cancelled || IsNewest(s, s.chain[i]);
        }
      }
    case StartNext => assert forall i :: 0 <= i < |t.chain| ==> t.chain[i] == s.chain[i + 1];
    case Settle =>
  }

  lemma {:induction false} StaleAlongRun(states: seq<State>, acts: seq<Action>, n: nat)
    requires IsRun(states, acts) && n <= |acts|
    ensures StaleIsCancelled(states[n])
    decreases n
  {
    if n > 0 {
      StaleAlongRun(states, acts, n - 1);
      StaleByAction(states[n - 1], acts[n - 1]);
    }
  }

  /** In every run, a step sends a save if and only if it starts the next link and that link was queued by
      the newest choice; the save then carries the newest pinned pick and the newest modes. */
  lemma OnlyTheNewestChoiceIsSent(states: seq<State>, acts: seq<Action>, k: nat)
    requires IsRun(states, acts) && k < |acts|
    ensures var s, t := states[k], states[k + 1];
            if acts[k] == StartNext && s.chain[0].effect + 1 == |s.choices|
            then
              && t.calls == s.calls + [s.chain[0]] && t.running == Some(s.chain[0])
              && IsNewestPinned(s.choices, s.chain[0].payload.model)
              && s.chain[0].payload.modes == s.choices[|s.choices| - 1].modes
            else t.calls == s.calls
  {
    var s := states[k];
    SoundAlongRun(states, acts, k);
    StaleAlongRun(states, acts, k);
    LastPinnedIsNewest(s.choices);
    if acts[k] == StartNext {
      assert Faithful(s.choices, s.chain[0]) && (s.chain[0].effect in s.cancelled || IsNewest(s, s.chain[0]));
      if s.chain[0].effect + 1 == |s.choices| {
        assert s.choices[..|s.choices|] == s.choices;
      }
    }
  }

  predicate AtRest(s: State) {
    s.chain == [] && s.running.None?
  }

  /** What is saved matches the newest choice: with a call made, its model and modes are the newest pinned
      ones; with none, nothing was pinned and the modes are the initial ones. */
  ghost predicate InSync(s: State)
    requires s.choices != []
  {
    var newest := s.choices[|s.choices| - 1];
    if |s.calls| == 0 then IsNewestPinned(s.choices, None) && newest.modes == 0
    else
      var last := s.calls[|s.calls| - 1];
      IsNewestPinned(s.choices, last.payload.model) && last.payload.modes == newest.modes
  }

  /** Once the chain settles, the last call carries the newest choice; if there was no call, the choice is
      what the file on disk already holds. */
  lemma TheLastCallIsTheNewestChoice(states: seq<State>, acts: seq<Action>, n: nat)
    requires IsRun(states, acts) && n <= |acts| && AtRest(states[n]) && states[n].choices != []
    ensures InSync(states[n])
  {
    SoundAlongRun(states, acts, n);
    var s := states[n];
    LastPinnedIsNewest(s.choices);
    if !s.skipped {
      assert s.choices[..|s.choices|] == s.choices;
    } else if s.calls != [] {
      NoCallWhileSkipped(s);
    }
  }

  /** A skipped effect has seen nothing pinned and no change of modes, so none before it queued a save. */
  lemma NoCallWhileSkipped(s: State)
    requires Sound(s) && s.skipped && s.choices != []
    ensures s.calls == []
  {
    if |s.calls| > 0 {
      var last := s.calls[|s.calls| - 1];
      assert Faithful(s.choices, last);
      PinnedStays(s.choices, last.effect + 1);
    }
  }

  /** Once something is pinned, something stays pinned. */
  lemma {:induction false} PinnedStays(choices: seq<Choice>, n: nat)
    requires n <= |choices|
    ensures LastPinned(choices[..n]).Some? ==> LastPinned(choices).Some?
    decreases |choices|
  {
    if n < |choices| {
      PinnedStays(choices[..|choices| - 1], n);
      assert choices[..|choices| - 1][..n] == choices[..n];
    } else {
      assert choices[..n] == choices;
    }
  }

  // ---------- The queue, step by step ----------

  /** `sys` is the state of the machine above that the queue is in. */
  class SaveQueue {
    var lastPinned: Option<Model>
    var chain: seq<Save>
    var running: Option<Save>
    var cancelled: set<nat>
    var latest: Option<nat>
    var effects: nat
    ghost var sys: State

    /** `latest` is the effect run whose cleanup is still due. */
    ghost predicate Valid()
      reads this
    {
      && lastPinned == sys.pinned && chain == sys.chain && running == sys.running && cancelled == sys.cancelled
      && effects == |sys.choices|
      && latest == (if effects > 0 && !sys.skipped then Some(effects - 1) else None)
    }

    constructor ()
      ensures Valid() && sys == FRESH
    {
      lastPinned, chain, running, cancelled, latest, effects := None, [], None, {}, None, 0;
      sys := FRESH;
    }

    method OnChoice(model: Model, modes: Modes)
      requires Valid() && Enabled(sys, Choose(Choice(model, modes)))
      modifies this
      ensures Valid() && sys == Next(old(sys), Choose(Choice(model, modes)))
    {
      sys := Next(sys, Choose(Choice(model, modes)));
      if latest.Some? {
        cancelled := cancelled + {latest.value};
        latest := None;
      }
      if model.autoTier.None? {
        lastPinned := Some(model);
      }
      var n := effects;
      effects := effects + 1;
      var pinned := lastPinned;
      var permissionsChanged := modes != 0;
      if pinned.None? && !permissionsChanged {
        return;
      }
      chain := chain + [Save(n, Payload(pinned, modes))];
      latest := Some(n);
    }

    /** The next link of the chain runs; it makes no call if its effect was cleaned up. */
    method StartNext() returns (call: Option<Payload>)
      requires Valid() && Enabled(sys, Action.StartNext)
      modifies this
      ensures Valid() && sys == Next(old(sys), Action.StartNext)
      ensures call.Some? ==> sys.running.Some? && sys.running.value.payload == call.value
      ensures sys.calls == old(sys).calls + (if call.Some? then [sys.running.value] else [])
    {
      sys := Next(sys, Action.StartNext);
      var save := chain[0];
      chain := chain[1..];
      if save.effect in cancelled {
        return None;
      }
      running := Some(save);
      return Some(save.payload);
    }

    method OnSettled()
      requires Valid() && Enabled(sys, Settle)
      modifies this
      ensures Valid() && sys == Next(old(sys), Settle)
    {
      sys := Next(sys, Settle);
      running := None;
    }
  }
}
