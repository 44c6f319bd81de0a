/** Which step makes a stamp lie, and which makes a toast due to repeat: for every run of overlapping calls. */
module NotificationSilence {
  import opened Options
  import opened BoundedMaps
  import opened Notifications
  import opened NotificationRaces

  /** The state that the last word on a session leaves it told of, if any. */
  function TrueState(s: State, id: string): Option<SessionState> {
    StateOf(Latest(s.words, id))
  }

  function StampedState(s: State, id: string): Option<SessionState> {
    var stamp := Lookup(s.stamps, id);
    if stamp.Some? then Some(stamp.value.state) else None
  }

  /** A stamp is there, and its state is not the last word on its session. */
  predicate Lies(s: State, id: string) {
    StampedState(s, id).Some? && StampedState(s, id) != TrueState(s, id)
  }

  // ---------- What one step does to a session ----------

  /** The toast the step shows, if any. */
  function ToastOf(s: State, a: Action): Option<Event>
    requires Enabled(s, a)
  {
    if a.Advance? && s.callers[a.i].Showing? && a.fires then Some(Fired(s.callers[a.i].id, s.callers[a.i].state))
    else None
  }

  lemma TrueStateStep(s: State, a: Action, id: string)
    requires Enabled(s, a)
    ensures TrueState(Next(s, a), id)
            == if a == Forget(id) then None
               else if ToastOf(s, a).Some? && ToastOf(s, a).value.id == id then Some(ToastOf(s, a).value.state)
               else TrueState(s, id)
  {
    if a.Forget? {
      LatestAppend(s.words, Reset(a.id), id);
    } else if ToastOf(s, a).Some? {
      LatestAppend(s.words, ToastOf(s, a).value, id);
    }
  }

  /** The step writes a stamp of the session. */
  predicate Stamps(s: State, a: Action, id: string)
    requires Enabled(s, a)
  {
    a.Advance? && s.callers[a.i].Stamping? && s.callers[a.i].id == id
  }

  lemma StampedStateStep(s: State, a: Action, id: string)
    requires StampsSound(s) && Enabled(s, a)
    ensures Stamps(s, a, id) ==> StampedState(Next(s, a), id) == Some(s.callers[a.i].state)
    ensures a == Forget(id) ==> StampedState(Next(s, a), id) == None
    ensures !Stamps(s, a, id) && a != Forget(id) ==>
              StampedState(Next(s, a), id) == StampedState(s, id) || StampedState(Next(s, a), id) == None
    ensures ToastOf(s, a).Some? ==> StampedState(Next(s, a), id) == StampedState(s, id)
  {
    if a.Forget? {
      LookupDelete(s.stamps, a.id, id);
    } else if a.Advance? && s.callers[a.i].Stamping? {
      var c := s.callers[a.i];
      LookupPut(s.stamps, LAST_NOTIFIED_CAPACITY, c.id, Stamp(c.state, c.toast, |s.words|), id);
    }
  }

  // ---------- When a stamp starts to lie ----------

  /** A caller writes a state that is not the last word, or shows one other than the one stamped. */
  predicate StartsLying(s: State, a: Action, id: string)
    requires Enabled(s, a)
  {
    || (Stamps(s, a, id) && TrueState(s, id) != Some(s.callers[a.i].state))
    || (ToastOf(s, a).Some? && ToastOf(s, a).value.id == id
        && StampedState(s, id).Some? && StampedState(s, id) != Some(ToastOf(s, a).value.state))
  }

  /** In every run, a step makes a session's stamp lie if and only if it did not lie before and the step
      stamps a state that is not the last word, or shows a toast other than the one stamped. */
  lemma AStampStartsToLieExactly(states: seq<State>, acts: seq<Action>, n: nat, id: string)
    requires IsRun(states, acts) && n < |acts|
    ensures !Lies(states[n], id) && Lies(states[n + 1], id)
            <==> !Lies(states[n], id) && StartsLying(states[n], acts[n], id)
  {
    SoundAlongRun(states, acts, n);
    TrueStateStep(states[n], acts[n], id);
    StampedStateStep(states[n], acts[n], id);
  }

  /** The stamp began to lie with step `k` and has lied until `n`. */
  ghost predicate LiesSince(states: seq<State>, acts: seq<Action>, k: nat, n: nat, id: string)
    requires IsRun(states, acts) && k < n <= |acts|
  {
    && !Lies(states[k], id) && StartsLying(states[k], acts[k], id)
    && forall m :: k < m <= n ==> Lies(states[m], id)
  }

  /** In every run, a session's stamp lies if and only if an earlier step made it and nothing has put it
      right since. */
  lemma {:induction false} ALyingStampWasMadeToLie(states: seq<State>, acts: seq<Action>, n: nat, id: string)
    requires IsRun(states, acts) && n <= |acts|
    ensures Lies(states[n], id) <==> exists k :: 0 <= k < n && LiesSince(states, acts, k, n, id)
    decreases n
  {
    if n > 0 && Lies(states[n], id) {
      ALyingStampWasMadeToLie(states, acts, n - 1, id);
      AStampStartsToLieExactly(states, acts, n - 1, id);
      if Lies(states[n - 1], id) {
        var k :| 0 <= k < n - 1 && LiesSince(states, acts, k, n - 1, id);
        assert LiesSince(states, acts, k, n, id);
      } else {
        assert LiesSince(states, acts, n - 1, n, id);
      }
    }
  }

  /** A look is turned away by its stamp although its state is not the last word on the session. */
  predicate Silenced(s: State, id: string, state: SessionState) {
    Suppressed(s, id, state) && TrueState(s, id) != Some(state)
  }

  /** In every run, a completion is silently turned away if and only if it meets its own state in a stamp
      that a step made to lie and nothing has put right since. */
  lemma AToastIsSilencedExactly(states: seq<State>, acts: seq<Action>, n: nat, id: string, state: SessionState)
    requires IsRun(states, acts) && n <= |acts|
    ensures Silenced(states[n], id, state)
            <==> StampedState(states[n], id) == Some(state)
                 && exists k :: 0 <= k < n && LiesSince(states, acts, k, n, id)
  {
    ALyingStampWasMadeToLie(states, acts, n, id);
  }

  // ---------- When a toast becomes due to repeat ----------

  /** Caller `i` is about to show what is already the last word on its session. */
  predicate Due(s: State, i: nat) {
    i < |s.callers| && s.callers[i].Showing? && TrueState(s, s.callers[i].id) == Some(s.callers[i].state)
  }

  /** Caller `i` gets past its look although its state is the last word. */
  predicate LooksPast(s: State, a: Action, i: nat)
    requires Enabled(s, a)
  {
    && a.Advance? && a.i == i && a.clear && s.callers[i].Looking?
    && !Suppressed(s, s.callers[i].id, s.callers[i].state)
    && TrueState(s, s.callers[i].id) == Some(s.callers[i].state)
  }

  /** Another caller shows the toast that caller `i` is about to show. */
  predicate IsForestalled(s: State, a: Action, i: nat)
    requires Enabled(s, a)
  {
    && a.Advance? && a.i != i && i < |s.callers| && s.callers[i].Showing?
    && ToastOf(s, a) == Some(Fired(s.callers[i].id, s.callers[i].state))
  }

  /** In every run, a step makes a caller due to repeat the last toast of its session if and only if the
      caller looks past that toast, or another caller shows it first. */
  lemma ARepeatBecomesDueExactly(states: seq<State>, acts: seq<Action>, n: nat, i: nat)
    requires IsRun(states, acts) && n < |acts|
    ensures !Due(states[n], i) && Due(states[n + 1], i)
            <==> LooksPast(states[n], acts[n], i) || (!Due(states[n], i) && IsForestalled(states[n], acts[n], i))
  {
    var s, a := states[n], acts[n];
    if i < |s.callers| && !s.callers[i].Finished? && !s.callers[i].Stamping? {
      TrueStateStep(s, a, s.callers[i].id);
    }
  }

  // ---------- Callers that do not overlap ----------

  lemma {:induction false} LatestIsThere(words: seq<Event>, f: nat, id: string)
    requires LastIs(words, f, id)
    ensures Latest(words, id) == Some(words[f])
  {
    var last := |words| - 1;
    if f < last {
      LatestIsThere(words[..last], f, id);
    }
  }

  /** Where calls do not overlap, no look is ever silenced. */
  lemma SerialLooksAreNotSilenced(states: seq<State>, acts: seq<Action>, n: nat)
    requires Serial(states, acts) && n < |acts| && acts[n].Advance? && states[n].callers[acts[n].i].Looking?
    ensures var c := states[n].callers[acts[n].i]; !Silenced(states[n], c.id, c.state)
  {
    var s, c := states[n], states[n].callers[acts[n].i];
    SoundAlongRun(states, acts, n);
    PromptAlongRun(states, acts, n);
    HistoryAlongRun(states, acts, n);
    NothingStaleAtRest(s, c.id);
    if Lookup(s.stamps, c.id).Some? {
      var stamp := Lookup(s.stamps, c.id).value;
      assert StampSound(s.words, c.id, stamp);
      LatestIsThere(s.words, stamp.toast, c.id);
    }
  }

  // ---------- A run ----------

  /** A follow-up turn that falls between a toast and its stamp is undone by the stamp, and the next
      completion is turned away without a word. */
  lemma ALateStampSilencesTheNextToast(id: string, state: SessionState)
    requires Notifiable(state)
    ensures exists s :: Reachable(s) && s.words == [Fired(id, state), Reset(id)] && Silenced(s, id, state)
  {
    ReachFresh();
    var s := ReachNext(FRESH, Arrive(id, state));
    s := ReachLook(s, 0);
    s := ReachShow(s, 0);
    assert s.callers == [Stamping(id, state, 0)] && s.words == [Fired(id, state)] && |s.stamps| == 0;
    s := ReachNext(s, Forget(id));
    assert s.words == [Fired(id, state), Reset(id)] && |s.stamps| == 0;
    var stamp := Stamp(state, 0, 2);
    var t := ReachNext(s, Advance(0, true, true));
    assert t.stamps == [(id, stamp)] && t.words == s.words;
    LookupAt(t.stamps, 0);
    LatestAppend([Fired(id, state)], Reset(id), id);
    assert t.words == [Fired(id, state)] + [Reset(id)];
    assert Silenced(t, id, state);
  }
}
