/** Overlapping callers of `notify` and `forget`, at the grain of the stamp lock.

    `notify` looks its session up, shows its toast and stamps the session in three separate steps. The
    stamp map therefore lags behind what has happened; these are exactly the ways in which that shows. */
module NotificationRaces {
  import opened Options
  import opened BoundedMaps
  import opened Notifications

  /** A stamp: `toast` is the place of its toast in the history, `since` the history's length when it was
      written. The program keeps only the state. */
  datatype Stamp = Stamp(state: SessionState, toast: nat, since: nat)

  /** What a caller's look saw: the stamp, the toasts of the session then shown but not yet stamped, and
      the length of the history. */
  datatype Look = Look(saw: Option<Stamp>, unstamped: set<nat>, length: nat)

  datatype Caller =
    | Looking(id: string, state: SessionState)
    | Showing(id: string, state: SessionState, look: Look)
    | Stamping(id: string, state: SessionState, toast: nat)
    | Finished

  /** `words` is the history: toasts and resets. `evictions` says which sessions lost their stamp to the
      capacity, and when. */
  datatype State = State(
    stamps: Entries<string, Stamp>,
    callers: seq<Caller>,
    words: seq<Event>,
    evictions: set<(string, nat)>)

  /** `Forget` is also what a non-terminal `notify` does. `clear` is an enabled service, an unfocused window
      and a supported sink; `fires` the outcome of the fire. */
  datatype Action =
    | Arrive(id: string, state: SessionState)
    | Forget(id: string)
    | Advance(i: nat, clear: bool, fires: bool)

  const FRESH := State([], [], [], {})

  predicate Enabled(s: State, a: Action) {
    match a
    case Arrive(_, state) => Notifiable(state)
    case Forget(_) => true
    case Advance(i, _, _) => i < |s.callers| && !s.callers[i].Finished?
  }

  function Goto(s: State, i: nat, c: Caller): State
    requires i < |s.callers|
  {
    s.(callers := s.callers[i := c])
  }

  /** The toasts of a session that are shown but not yet stamped. */
  function Unstamped(callers: seq<Caller>, id: string): set<nat> {
    set i | 0 <= i < |callers| && callers[i].Stamping? && callers[i].id == id :: callers[i].toast
  }

  function Looked(s: State, id: string): Look {
    Look(Lookup(s.stamps, id), Unstamped(s.callers, id), |s.words|)
  }

  predicate Suppressed(s: State, id: string, state: SessionState) {
    Lookup(s.stamps, id).Some? && Lookup(s.stamps, id).value.state == state
  }

  function Stamped(s: State, i: nat, id: string, stamp: Stamp): State
    requires i < |s.callers|
  {
    var out := PushedOut(s.stamps, LAST_NOTIFIED_CAPACITY, id);
    Goto(s, i, Finished).(
      stamps := Put(s.stamps, LAST_NOTIFIED_CAPACITY, id, stamp),
      evictions := if out.Some? then s.evictions + {(out.value, |s.words|)} else s.evictions)
  }

  function Next(s: State, a: Action): State
    requires Enabled(s, a)
  {
    match a
    case Arrive(id, state) => s.(callers := s.callers + [Looking(id, state)])
    case Forget(id) => s.(stamps := Delete(s.stamps, id), words := s.words + [Reset(id)])
    case Advance(i, clear, fires) =>
      match s.callers[i]
      case Looking(id, state) =>
        Goto(s, i, if Suppressed(s, id, state) || !clear then Finished else Showing(id, state, Looked(s, id)))
      case Showing(id, state, _) =>
        if fires then Goto(s, i, Stamping(id, state, |s.words|)).(words := s.words + [Fired(id, state)])
        else Goto(s, i, Finished)
      case Stamping(id, state, toast) => Stamped(s, i, id, Stamp(state, toast, |s.words|))
  }

  ghost predicate IsRun(states: seq<State>, acts: seq<Action>) {
    && |states| == |acts| + 1
    && states[0] == FRESH
    && forall k :: 0 <= k < |acts| ==> Enabled(states[k], acts[k]) && states[k + 1] == Next(states[k], acts[k])
  }

  // ---------- The history of a session ----------

  /** The last word on a session is at `f`. */
  ghost predicate LastIs(words: seq<Event>, f: nat, id: string) {
    f < |words| && words[f].id == id && forall k :: f < k < |words| ==> words[k].id != id
  }

  predicate IsToast(words: seq<Event>, t: nat, id: string) {
    t < |words| && words[t].Fired? && words[t].id == id
  }

  /** The stamp's toast is where it says, and no reset has fallen since it was written. */
  ghost predicate StampSound(words: seq<Event>, id: string, stamp: Stamp) {
    && IsToast(words, stamp.toast, id) && words[stamp.toast].state == stamp.state
    && stamp.toast < stamp.since <= |words|
    && forall k :: stamp.since <= k < |words| ==> words[k] != Reset(id)
  }

  ghost predicate StampsSound(s: State) {
    && Distinct(s.stamps) && |s.stamps| <= LAST_NOTIFIED_CAPACITY
    && forall id :: Lookup(s.stamps, id).Some? ==> StampSound(s.words, id, Lookup(s.stamps, id).value)
  }

  /** Every toast since the session's stamp is still to be stamped. */
  ghost predicate NewerUnstamped(s: State, id: string) {
    Lookup(s.stamps, id).Some? ==>
      forall k :: Lookup(s.stamps, id).value.since <= k < |s.words| && IsToast(s.words, k, id) ==>
        k in Unstamped(s.callers, id)
  }

  /** A session whose last word is a toast has that toast unstamped, some stamp, or had one evicted since. */
  ghost predicate LastExplained(s: State, id: string) {
    forall f :: LastIs(s.words, f, id) && IsToast(s.words, f, id) ==>
      f in Unstamped(s.callers, id) || Lookup(s.stamps, id).Some? || EvictedSince(s.evictions, id, f, |s.words|)
  }

  ghost predicate EvictedSince(evictions: set<(string, nat)>, id: string, f: nat, length: nat) {
    exists at :: f < at <= length && (id, at) in evictions
  }

  ghost predicate CallerSound(s: State, c: Caller) {
    match c
    case Stamping(id, state, toast) => IsToast(s.words, toast, id) && s.words[toast].state == state
    case Showing(id, state, look) => LookSound(s, id, state, look)
    case _ => true
  }

  /** What was true when the caller looked. */
  ghost predicate LookSound(s: State, id: string, state: SessionState, look: Look) {
    && look.length <= |s.words|
    && (look.saw.Some? ==> look.saw.value.state != state && StampSound(s.words[..look.length], id, look.saw.value))
    && forall f :: LastIs(s.words[..look.length], f, id) && IsToast(s.words, f, id) ==>
         f in look.unstamped || look.saw.Some? || EvictedSince(s.evictions, id, f, look.length)
  }

  ghost predicate Sound(s: State) {
    && StampsSound(s)
    && (forall id :: NewerUnstamped(s, id) && LastExplained(s, id))
    && (forall i :: 0 <= i < |s.callers| ==> CallerSound(s, s.callers[i]))
  }

  // ---------- One step ----------

  lemma UnstampedUpdate(callers: seq<Caller>, i: nat, c: Caller, id: string)
    requires i < |callers|
    ensures !callers[i].Stamping? ==> Unstamped(callers, id) <= Unstamped(callers[i := c], id)
    ensures c.Stamping? && c.id == id ==> c.toast in Unstamped(callers[i := c], id)
    ensures callers[i].Stamping? && callers[i].id != id ==> Unstamped(callers, id) <= Unstamped(callers[i := c], id)
    ensures forall t :: t in Unstamped(callers, id) ==>
              t in Unstamped(callers[i := c], id) || (callers[i].Stamping? && callers[i].toast == t)
  {
    var after := callers[i := c];
    forall t | t in Unstamped(callers, id)
      ensures t in Unstamped(after, id) || (callers[i].Stamping? && callers[i].id == id && callers[i].toast == t)
    {
      var j :| 0 <= j < |callers| && callers[j].Stamping? && callers[j].id == id && callers[j].toast == t;
      assert j != i ==> after[j] == callers[j];
    }
    if c.Stamping? && c.id == id {
      assert after[i] == c;
    }
  }

  /** A longer history keeps what was sound about its start. */
  lemma CallerStays(s: State, t: State, c: Caller)
    requires CallerSound(s, c) && s.words <= t.words && s.evictions <= t.evictions
    ensures CallerSound(t, c)
  {
    match c
    case Showing(id, state, look) =>
      assert s.words[..look.length] == t.words[..look.length];
      forall f | LastIs(t.words[..look.length], f, id) && IsToast(t.words, f, id)
        ensures f in look.unstamped || look.saw.Some? || EvictedSince(t.evictions, id, f, look.length)
      {
        assert IsToast(s.words, f, id);
      }
    case _ =>
  }

  lemma CallersStay(s: State, t: State, i: nat)
    requires forall j :: 0 <= j < |s.callers| ==> CallerSound(s, s.callers[j])
    requires s.words <= t.words && s.evictions <= t.evictions && i < |s.callers| && |t.callers| == |s.callers|
    requires t.callers == s.callers[i := t.callers[i]] && CallerSound(t, t.callers[i])
    ensures forall j :: 0 <= j < |t.callers| ==> CallerSound(t, t.callers[j])
  {
    forall j | 0 <= j < |t.callers| && j != i
      ensures CallerSound(t, t.callers[j])
    {
      CallerStays(s, t, s.callers[j]);
    }
  }

  /** Steps that leave history and stamps alone. */
  lemma SoundWithout(s: State, i: nat, c: Caller)
    requires Sound(s) && i < |s.callers| && !s.callers[i].Stamping? && CallerSound(s, c)
    ensures Sound(Goto(s, i, c))
  {
    var t := Goto(s, i, c);
    CallerStays(s, t, c);
    CallersStay(s, t, i);
    forall id
      ensures NewerUnstamped(t, id) && LastExplained(t, id)
    {
      UnstampedUpdate(s.callers, i, c, id);
      assert NewerUnstamped(s, id) && LastExplained(s, id);
    }
  }

  lemma LookIsSound(s: State, id: string, state: SessionState)
    requires Sound(s) && !Suppressed(s, id, state)
    ensures CallerSound(s, Showing(id, state, Looked(s, id)))
  {
    assert s.words[..|s.words|] == s.words;
    assert LastExplained(s, id);
  }

  lemma SoundByToast(s: State, i: nat)
    requires Sound(s) && i < |s.callers| && s.callers[i].Showing?
    ensures Sound(Next(s, Advance(i, true, true)))
  {
    var t := Next(s, Advance(i, true, true));
    var toast := t.callers[i];
    assert t.words == s.words + [Fired(toast.id, toast.state)];
    CallersStay(s, t, i);
    forall id
      ensures NewerUnstamped(t, id) && LastExplained(t, id)
      ensures Lookup(t.stamps, id).Some? ==> StampSound(t.words, id, Lookup(t.stamps, id).value)
    {
      UnstampedUpdate(s.callers, i, toast, id);
      ToastStep(s, t, toast, id);
    }
  }

  lemma ToastStep(s: State, t: State, toast: Caller, id: string)
    requires StampsSound(s) && NewerUnstamped(s, id) && LastExplained(s, id)
    requires toast.Stamping? && toast.toast == |s.words|
    requires t.words == s.words + [Fired(toast.id, toast.state)] && t.stamps == s.stamps && t.evictions == s.evictions
    requires Unstamped(s.callers, id) <= Unstamped(t.callers, id)
    requires id == toast.id ==> toast.toast in Unstamped(t.callers, id)
    ensures NewerUnstamped(t, id) && LastExplained(t, id)
    ensures Lookup(t.stamps, id).Some? ==> StampSound(t.words, id, Lookup(t.stamps, id).value)
  {
    forall k | 0 <= k < |t.words|
      ensures k < |s.words| ==> t.words[k] == s.words[k] && (IsToast(t.words, k, id) <==> IsToast(s.words, k, id))
    {
    }
    forall f | LastIs(t.words, f, id) && IsToast(t.words, f, id) && id != toast.id
      ensures f in Unstamped(t.callers, id) || Lookup(t.stamps, id).Some? || EvictedSince(t.evictions, id, f, |t.words|)
    {
      assert LastIs(s.words, f, id);
    }
  }

  lemma SoundByStamp(s: State, i: nat, clear: bool, fires: bool)
    requires Sound(s) && i < |s.callers| && s.callers[i].Stamping?
    ensures Sound(Next(s, Advance(i, clear, fires)))
  {
    var t, c := Next(s, Advance(i, clear, fires)), s.callers[i];
    var stamp := Stamp(c.state, c.toast, |s.words|);
    assert CallerSound(s, c);
    PutFacts(s.stamps, LAST_NOTIFIED_CAPACITY, c.id, stamp);
    CallersStay(s, t, i);
    forall id
      ensures NewerUnstamped(t, id) && LastExplained(t, id)
      ensures Lookup(t.stamps, id).Some? ==> StampSound(t.words, id, Lookup(t.stamps, id).value)
    {
      LookupPut(s.stamps, LAST_NOTIFIED_CAPACITY, c.id, stamp, id);
      UnstampedUpdate(s.callers, i, Finished, id);
      assert NewerUnstamped(s, id) && LastExplained(s, id);
      if id != c.id && PushedOut(s.stamps, LAST_NOTIFIED_CAPACITY, c.id) == Some(id) {
        assert (id, |s.words|) in t.evictions;
      }
    }
  }

  lemma SoundByForget(s: State, gone: string)
    requires Sound(s)
    ensures Sound(Next(s, Forget(gone)))
  {
    var t := Next(s, Forget(gone));
    DeleteFacts(s.stamps, gone);
    forall j | 0 <= j < |t.callers|
      ensures CallerSound(t, t.callers[j])
    {
      CallerStays(s, t, s.callers[j]);
    }
    forall id
      ensures NewerUnstamped(t, id) && LastExplained(t, id)
      ensures Lookup(t.stamps, id).Some? ==> StampSound(t.words, id, Lookup(t.stamps, id).value)
    {
      LookupDelete(s.stamps, gone, id);
      ForgetStep(s, t, gone, id);
    }
  }

  lemma ForgetStep(s: State, t: State, gone: string, id: string)
    requires StampsSound(s) && NewerUnstamped(s, id) && LastExplained(s, id)
    requires t.words == s.words + [Reset(gone)] && t.callers == s.callers && t.evictions == s.evictions
    requires Lookup(t.stamps, id) == if id == gone then None else Lookup(s.stamps, id)
    ensures NewerUnstamped(t, id) && LastExplained(t, id)
    ensures Lookup(t.stamps, id).Some? ==> StampSound(t.words, id, Lookup(t.stamps, id).value)
  {
    forall k | 0 <= k < |t.words|
      ensures k < |s.words| ==> t.words[k] == s.words[k]
      ensures IsToast(t.words, k, id) ==> IsToast(s.words, k, id)
    {
    }
    forall f | LastIs(t.words, f, id) && IsToast(t.words, f, id)
      ensures f in Unstamped(t.callers, id) || Lookup(t.stamps, id).Some? || EvictedSince(t.evictions, id, f, |t.words|)
    {
      assert t.words[|s.words|] == Reset(gone);
      assert id != gone && LastIs(s.words, f, id);
    }
  }

  lemma SoundByArrival(s: State, id: string, state: SessionState)
    requires Sound(s)
    ensures Sound(s.(callers := s.callers + [Looking(id, state)]))
  {
    var t := s.(callers := s.callers + [Looking(id, state)]);
    forall j | 0 <= j < |t.callers|
      ensures CallerSound(t, t.callers[j])
    {
      if j < |s.callers| {
        CallerStays(s, t, s.callers[j]);
      }
    }
    forall other
      ensures NewerUnstamped(t, other) && LastExplained(t, other)
    {
      assert NewerUnstamped(s, other) && LastExplained(s, other);
      forall k | k in Unstamped(s.callers, other)
        ensures k in Unstamped(t.callers, other)
      {
        var j :| 0 <= j < |s.callers| && s.callers[j].Stamping? && s.callers[j].id == other && s.callers[j].toast == k;
        assert t.callers[j] == s.callers[j];
      }
    }
  }

  lemma SoundByAction(s: State, a: Action)
    requires Sound(s) && Enabled(s, a)
    ensures Sound(Next(s, a))
  {
    match a
    case Arrive(id, state) => SoundByArrival(s, id, state);
    case Forget(id) => SoundByForget(s, id);
    case Advance(i, clear, fires) =>
      match s.callers[i]
      case Looking(id, state) =>
        if !Suppressed(s, id, state) {
          LookIsSound(s, id, state);
        }
        SoundWithout(s, i, if Suppressed(s, id, state) || !clear then Finished else Showing(id, state, Looked(s, id)));
      case Showing(_, _, _) =>
        if fires {
          SoundByToast(s, i);
        } else {
          SoundWithout(s, i, Finished);
        }
      case Stamping(_, _, _) => SoundByStamp(s, i, clear, fires);
  }

  lemma {:induction false} SoundAlongRun(states: seq<State>, acts: seq<Action>, n: nat)
    requires IsRun(states, acts) && n <= |acts|
    ensures Sound(states[n])
    decreases n
  {
    if n > 0 {
      SoundAlongRun(states, acts, n - 1);
      SoundByAction(states[n - 1], acts[n - 1]);
    }
  }

  // ---------- The theorems ----------

  /** The stamp is not the last word on its session. */
  ghost predicate Stale(s: State, id: string) {
    Lookup(s.stamps, id).Some? && !LastIs(s.words, Lookup(s.stamps, id).value.toast, id)
  }

  /** A reset or another toast of the session fell between the stamp's toast and its writing. */
  ghost predicate WrittenLate(s: State, id: string) {
    && Lookup(s.stamps, id).Some?
    && exists k :: Lookup(s.stamps, id).value.toast < k < Lookup(s.stamps, id).value.since <= |s.words|
                   && s.words[k].id == id
  }

  /** A toast shown since the stamp was written is itself not stamped yet. */
  ghost predicate Outrun(s: State, id: string) {
    && Lookup(s.stamps, id).Some?
    && exists k :: k in Unstamped(s.callers, id) && Lookup(s.stamps, id).value.since <= k
  }

  /** In every run, a stamp is stale if and only if some word on its session fell between its toast and its
      writing, or another caller has toasted the session since and has yet to stamp it. */
  lemma AStampIsStaleExactlyWhenLate(states: seq<State>, acts: seq<Action>, n: nat, id: string)
    requires IsRun(states, acts) && n <= |acts|
    ensures Stale(states[n], id) <==> WrittenLate(states[n], id) || Outrun(states[n], id)
  {
    SoundAlongRun(states, acts, n);
    HistoryAlongRun(states, acts, n);
    var s := states[n];
    if Lookup(s.stamps, id).Some? {
      var stamp := Lookup(s.stamps, id).value;
      assert StampSound(s.words, id, stamp) && NewerUnstamped(s, id);
      if Stale(s, id) {
        var k :| stamp.toast < k < |s.words| && s.words[k].id == id;
        if k >= stamp.since {
          assert s.words[k] != Reset(id);
          assert IsToast(s.words, k, id);
        }
      }
      if k :| k in Unstamped(s.callers, id) && stamp.since <= k {
        UnstampedIsToast(s, id, k);
      }
    }
  }

  predicate OnlyToastsAndResets(words: seq<Event>) {
    forall k :: 0 <= k < |words| ==> !words[k].Evicted?
  }

  lemma UnstampedIsToast(s: State, id: string, k: nat)
    requires Sound(s) && k in Unstamped(s.callers, id)
    ensures IsToast(s.words, k, id)
  {
    var i :| 0 <= i < |s.callers| && s.callers[i].Stamping? && s.callers[i].id == id && s.callers[i].toast == k;
    assert CallerSound(s, s.callers[i]);
  }

  lemma {:induction false} HistoryAlongRun(states: seq<State>, acts: seq<Action>, n: nat)
    requires IsRun(states, acts) && n <= |acts|
    ensures OnlyToastsAndResets(states[n].words)
    decreases n
  {
    if n > 0 {
      HistoryAlongRun(states, acts, n - 1);
      assert states[n] == Next(states[n - 1], acts[n - 1]);
    }
  }

  /** Caller `i` is about to show what is already the last word on its session, the toast at `f`. */
  ghost predicate Repeats(s: State, i: nat, f: nat)
    requires i < |s.callers| && s.callers[i].Showing?
  {
    LastIs(s.words, f, s.callers[i].id) && s.words[f] == Fired(s.callers[i].id, s.callers[i].state)
  }

  /** Nothing is said of the session from `a` on. */
  ghost predicate Silent(words: seq<Event>, id: string, a: nat) {
    forall k :: a <= k < |words| ==> words[k].id != id
  }

  /** Another caller has shown that state since this one looked, and nothing has been said after it. */
  ghost predicate ShownSince(s: State, i: nat, f: nat)
    requires i < |s.callers| && s.callers[i].Showing?
  {
    var c := s.callers[i];
    c.look.length <= f < |s.words| && s.words[f] == Fired(c.id, c.state) && Silent(s.words, c.id, f + 1)
  }

  /** When this caller looked, the last word was that state already and the look missed it: the toast was not
      stamped yet, an older one had been stamped over it, or its stamp had been evicted. Nothing has been said
      of the session since the look. */
  ghost predicate ShownUnseen(s: State, i: nat, f: nat)
    requires i < |s.callers| && s.callers[i].Showing?
  {
    var c, look := s.callers[i], s.callers[i].look;
    && look.length <= |s.words| && LastIs(s.words[..look.length], f, c.id) && s.words[f] == Fired(c.id, c.state)
    && (f in look.unstamped
        || (look.saw.Some? && look.saw.value.toast < f)
        || (look.saw.None? && EvictedSince(s.evictions, c.id, f, look.length)))
    && Silent(s.words, c.id, look.length)
  }

  /** In every run, a toast repeats the last one of its session if and only if another caller has shown that
      state since this one looked, or had shown it unstamped, stamped over or evicted when it looked. */
  lemma ARepeatedToastExactly(states: seq<State>, acts: seq<Action>, n: nat, i: nat, f: nat)
    requires IsRun(states, acts) && n <= |acts| && i < |states[n].callers| && states[n].callers[i].Showing?
    ensures Repeats(states[n], i, f) <==> ShownSince(states[n], i, f) || ShownUnseen(states[n], i, f)
  {
    SoundAlongRun(states, acts, n);
    var s := states[n];
    var c := s.callers[i];
    assert CallerSound(s, c);
    var before := s.words[..c.look.length];
    if Repeats(s, i, f) && f < c.look.length {
      assert LastIs(before, f, c.id) && IsToast(s.words, f, c.id);
      if c.look.saw.Some? {
        assert IsToast(before, c.look.saw.value.toast, c.id);
        assert before[c.look.saw.value.toast].state != before[f].state;
      }
    }
    if ShownUnseen(s, i, f) {
      assert forall k :: f < k < c.look.length ==> before[k] == s.words[k];
    }
  }

  // ---------- Callers that do not overlap ----------

  predicate InFlight(c: Caller) {
    c.Showing? || c.Stamping?
  }

  /** A caller that has looked goes on until it is finished before anything else happens. */
  ghost predicate Serial(states: seq<State>, acts: seq<Action>) {
    && IsRun(states, acts)
    && forall k, i :: 0 <= k < |acts| && 0 <= i < |states[k].callers| && InFlight(states[k].callers[i]) ==>
         acts[k].Advance? && acts[k].i == i
  }

  /** What the one caller in flight knows is up to date, and stamps are written at once. */
  ghost predicate Prompt(s: State) {
    && (forall i, j :: 0 <= i < j < |s.callers| ==> !InFlight(s.callers[i]) || !InFlight(s.callers[j]))
    && (forall i :: 0 <= i < |s.callers| ==> PromptCaller(s, s.callers[i]))
    && (forall id :: Lookup(s.stamps, id).Some? ==>
          Lookup(s.stamps, id).value.since == Lookup(s.stamps, id).value.toast + 1)
  }

  ghost predicate PromptCaller(s: State, c: Caller) {
    match c
    case Stamping(id, state, toast) => toast + 1 == |s.words|
    case Showing(id, state, look) =>
      && look.length == |s.words| && |look.unstamped| == 0
      && (look.saw.Some? ==> LastIs(s.words, look.saw.value.toast, id))
    case _ => true
  }

  /** With nobody in flight, no stamp is stale. */
  lemma NothingStaleAtRest(s: State, id: string)
    requires Sound(s) && Prompt(s) && forall i :: 0 <= i < |s.callers| ==> !InFlight(s.callers[i])
    requires OnlyToastsAndResets(s.words)
    ensures Unstamped(s.callers, id) == {} && !Stale(s, id)
  {
    assert NewerUnstamped(s, id);
    if Lookup(s.stamps, id).Some? {
      var stamp := Lookup(s.stamps, id).value;
      assert StampSound(s.words, id, stamp);
      forall k | stamp.toast < k < |s.words|
        ensures s.words[k].id != id
      {
        assert s.words[k] != Reset(id) && !s.words[k].Evicted?;
        assert !IsToast(s.words, k, id);
      }
    }
  }

  lemma PromptByAction(s: State, a: Action)
    requires Sound(s) && Prompt(s) && Enabled(s, a)
    requires OnlyToastsAndResets(s.words)
    requires forall i :: 0 <= i < |s.callers| && InFlight(s.callers[i]) ==> a.Advance? && a.i == i
    ensures Prompt(Next(s, a))
  {
    match a
    case Arrive(id, state) =>
    case Forget(gone) =>
      forall id
        ensures Lookup(Delete(s.stamps, gone), id) == if id == gone then None else Lookup(s.stamps, id)
      {
        LookupDelete(s.stamps, gone, id);
      }
    case Advance(i, clear, fires) =>
      match s.callers[i]
      case Looking(id, state) => NothingStaleAtRest(s, id);
      case Showing(_, _, _) =>
      case Stamping(id, state, toast) =>
        forall other
          ensures Lookup(Put(s.stamps, LAST_NOTIFIED_CAPACITY, id, Stamp(state, toast, |s.words|)), other).Some?
                  ==> other == id || Lookup(s.stamps, other).Some?
          ensures var after := Lookup(Put(s.stamps, LAST_NOTIFIED_CAPACITY, id, Stamp(state, toast, |s.words|)), other);
                  after.Some? ==> after.value.since == after.value.toast + 1
        {
          LookupPut(s.stamps, LAST_NOTIFIED_CAPACITY, id, Stamp(state, toast, |s.words|), other);
        }
  }

  lemma {:induction false} PromptAlongRun(states: seq<State>, acts: seq<Action>, n: nat)
    requires Serial(states, acts) && n <= |acts|
    ensures Prompt(states[n])
    decreases n
  {
    if n > 0 {
      PromptAlongRun(states, acts, n - 1);
      SoundAlongRun(states, acts, n - 1);
      HistoryAlongRun(states, acts, n - 1);
      PromptByAction(states[n - 1], acts[n - 1]);
    }
  }

  /** Callers that do not overlap repeat a toast only after its stamp was evicted. */
  lemma SerialCallersRepeatOnlyWhatWasEvicted(states: seq<State>, acts: seq<Action>, n: nat, i: nat, f: nat)
    requires Serial(states, acts) && n <= |acts| && i < |states[n].callers| && states[n].callers[i].Showing?
    requires Repeats(states[n], i, f)
    ensures EvictedSince(states[n].evictions, states[n].callers[i].id, f, |states[n].words|)
  {
    ARepeatedToastExactly(states, acts, n, i, f);
    PromptAlongRun(states, acts, n);
    assert PromptCaller(states[n], states[n].callers[i]);
  }

  // ---------- A run ----------

  ghost predicate Reachable(s: State) {
    exists states: seq<State>, acts :: IsRun(states, acts) && states[|acts|] == s
  }

  lemma ReachNext(s: State, a: Action) returns (t: State)
    requires Reachable(s) && Enabled(s, a)
    ensures t == Next(s, a) && Reachable(t)
  {
    t := Next(s, a);
    var states: seq<State>, acts :| IsRun(states, acts) && states[|acts|] == s;
    assert IsRun(states + [t], acts + [a]);
    assert (states + [t])[|acts + [a]|] == t;
  }

  /** One caller looks and goes on to show its toast. */
  lemma ReachLook(s: State, i: nat) returns (t: State)
    requires Reachable(s) && i < |s.callers| && s.callers[i].Looking? && |s.stamps| == 0
    ensures t == Goto(s, i, Showing(s.callers[i].id, s.callers[i].state, Looked(s, s.callers[i].id))) && Reachable(t)
  {
    t := ReachNext(s, Advance(i, true, true));
  }

  lemma ReachShow(s: State, i: nat) returns (t: State)
    requires Reachable(s) && i < |s.callers| && s.callers[i].Showing?
    ensures var c := s.callers[i];
            t == Goto(s, i, Stamping(c.id, c.state, |s.words|)).(words := s.words + [Fired(c.id, c.state)])
    ensures Reachable(t)
  {
    t := ReachNext(s, Advance(i, true, true));
  }

  lemma ReachFresh()
    ensures Reachable(FRESH)
  {
    var none: seq<Action> := [];
    assert IsRun([FRESH], none) && [FRESH][|none|] == FRESH;
  }

  /** Two callers that both look before either stamps both show their toast. */
  lemma RacingNotifiesToastTwice(id: string, state: SessionState)
    requires Notifiable(state)
    ensures exists s :: Reachable(s) && s.words == [Fired(id, state), Fired(id, state)]
  {
    ReachFresh();
    var s := ReachNext(FRESH, Arrive(id, state));
    s := ReachNext(s, Arrive(id, state));
    s := ReachLook(s, 0);
    s := ReachLook(s, 1);
    s := ReachShow(s, 0);
    s := ReachShow(s, 1);
    assert s.words == [Fired(id, state), Fired(id, state)];
  }

  // ---------- A caller by itself ----------

  /** A caller whose steps nobody comes between is one `notify`: it shows its toast exactly when it is clear to
      and the stamp is not of its own state, and stamps the session exactly when the toast was shown. */
  lemma AnUndisturbedCallerIsOneNotify(s: State, id: string, state: SessionState, clear: bool, fires: bool)
    requires state == Complete || state == Failed
    ensures var i, go := |s.callers|, Advance(|s.callers|, clear, fires);
            var stamp := Lookup(s.stamps, id);
            var due := clear && (stamp.None? || stamp.value.state != state);
            var t := Next(Next(s, Arrive(id, state)), go);
            && (due <==> !t.callers[i].Finished?)
            && t.words == s.words && t.stamps == s.stamps
            && (!due ==> t.callers == s.callers + [Finished])
            && (due ==>
                  var u := Next(t, go);
                  && (fires <==> !u.callers[i].Finished?)
                  && u.stamps == s.stamps
                  && (if !fires then u.callers == s.callers + [Finished] && u.words == s.words
                      else
                        var v := Next(u, go);
                        && v.callers == s.callers + [Finished] && v.words == s.words + [Fired(id, state)]
                        && v.stamps == Put(s.stamps, 2000, id, Stamp(state, |s.words|, |s.words| + 1))))
  {
    var front, i := s.callers, |s.callers|;
    forall a: Caller, b: Caller
      ensures (front + [a])[i := b] == front + [b]
    {
    }
  }
}
