/** Concurrent callers of `notify_check_failure`, at the grain of its lock. */
module NotificationCallers {
  import opened Options
  import opened BoundedMaps
  import opened Notifications

  /** A caller claims its key under the lock and fires after releasing it. */
  datatype Caller =
    | Claiming(key: string)
    | Toasting(key: string)
    | Finished

  /** `fired`, `failed` and `evicted` are the check keys toasted, failed to toast, and pushed out. */
  datatype State = State(
    keys: Entries<string, bool>,
    callers: seq<Caller>,
    fired: seq<string>,
    failed: seq<string>,
    evicted: seq<string>)

  /** `clear` is an unfocused window with a supported sink; `fires` the outcome of the fire. */
  datatype Action =
    | Arrive(caller: Caller)
    | Advance(i: nat, clear: bool, fires: bool)

  const FRESH := State([], [], [], [], [])

  predicate Enabled(s: State, a: Action) {
    match a
    case Arrive(caller) => caller.Claiming?
    case Advance(i, _, _) => i < |s.callers| && !s.callers[i].Finished?
  }

  function Goto(s: State, i: nat, c: Caller): State
    requires i < |s.callers|
  {
    s.(callers := s.callers[i := c])
  }

  function Next(s: State, a: Action): State
    requires Enabled(s, a)
  {
    match a
    case Arrive(caller) => s.(callers := s.callers + [caller])
    case Advance(i, clear, fires) =>
      match s.callers[i]
      case Claiming(key) =>
        if key in Keys(s.keys) || !clear then Goto(s, i, Finished)
        else
          var out := PushedOut(s.keys, CHECK_FAILURE_CAPACITY, key);
          Goto(s, i, Toasting(key)).(
            keys := Put(s.keys, CHECK_FAILURE_CAPACITY, key, true),
            evicted := if out.Some? then s.evicted + [out.value] else s.evicted)
      case Toasting(key) =>
        if fires then Goto(s, i, Finished).(fired := s.fired + [key])
        else Goto(s, i, Finished).(failed := s.failed + [key])
  }

  ghost predicate IsRun(states: seq<State>, acts: seq<Action>) {
    && |states| == |acts| + 1
    && states[0] == FRESH
    && forall k :: 0 <= k < |acts| ==> Enabled(states[k], acts[k]) && states[k + 1] == Next(states[k], acts[k])
  }

  function Count(xs: seq<string>, x: string): nat {
    if |xs| == 0 then 0 else Count(xs[..|xs| - 1], x) + (if xs[|xs| - 1] == x then 1 else 0)
  }

  function InFlight(callers: seq<Caller>, key: string): nat {
    if |callers| == 0 then 0
    else (if callers[0] == Toasting(key) then 1 else 0) + InFlight(callers[1..], key)
  }

  /** Each residency of a key is claimed by one caller, which fires it at most once. */
  ghost predicate Balanced(s: State, key: string) {
    && Distinct(s.keys) && |s.keys| <= CHECK_FAILURE_CAPACITY
    && Count(s.fired, key) + Count(s.failed, key) + InFlight(s.callers, key)
       == Count(s.evicted, key) + (if key in Keys(s.keys) then 1 else 0)
  }

  lemma CountAppend(xs: seq<string>, y: string, x: string)
    ensures Count(xs + [y], x) == Count(xs, x) + (if y == x then 1 else 0)
  {
    assert (xs + [y])[..|xs|] == xs;
  }

  lemma {:induction false} InFlightAppend(callers: seq<Caller>, c: Caller, key: string)
    ensures InFlight(callers + [c], key) == InFlight(callers, key) + (if c == Toasting(key) then 1 else 0)
  {
    if callers == [] {
      assert callers + [c] == [c];
    } else {
      assert (callers + [c])[1..] == callers[1..] + [c];
      InFlightAppend(callers[1..], c, key);
    }
  }

  lemma {:induction false} InFlightUpdate(callers: seq<Caller>, i: nat, c: Caller, key: string)
    requires i < |callers|
    ensures InFlight(callers[i := c], key) + (if callers[i] == Toasting(key) then 1 else 0)
            == InFlight(callers, key) + (if c == Toasting(key) then 1 else 0)
  {
    if i > 0 {
      assert callers[i := c][1..] == callers[1..][i - 1 := c];
      InFlightUpdate(callers[1..], i - 1, c, key);
    } else {
      assert callers[0 := c][1..] == callers[1..];
    }
  }

  /** What a claim does to one key's residency. */
  lemma ClaimMovesResidency(f: Entries<string, bool>, claimed: string, key: string)
    requires Distinct(f) && |f| <= CHECK_FAILURE_CAPACITY && claimed !in Keys(f)
    ensures var g := Put(f, CHECK_FAILURE_CAPACITY, claimed, true);
            && Distinct(g) && |g| <= CHECK_FAILURE_CAPACITY
            && (key == claimed ==> key in Keys(g))
            && (key != claimed ==>
                  (key in Keys(g) <==> key in Keys(f) && PushedOut(f, CHECK_FAILURE_CAPACITY, claimed) != Some(key)))
            && PushedOut(f, CHECK_FAILURE_CAPACITY, claimed) != Some(claimed)
            && (PushedOut(f, CHECK_FAILURE_CAPACITY, claimed) == Some(key) ==> key in Keys(f))
  {
    var g := Put(f, CHECK_FAILURE_CAPACITY, claimed, true);
    PutFacts(f, CHECK_FAILURE_CAPACITY, claimed, true);
    assert forall i :: 0 <= i < |f| ==> Keys(f)[i] == f[i].0;
    assert forall i :: 0 <= i < |g| ==> Keys(g)[i] == g[i].0;
    assert Keys(g)[|g| - 1] == claimed;
    if key in Keys(f) {
      EvictionTakesTheOldest(f, CHECK_FAILURE_CAPACITY, claimed, true, key);
    } else if key != claimed {
      forall i | 0 <= i < |g|
        ensures Keys(g)[i] != key
      {
        assert g[i] in g;
        if g[i].0 != claimed {
          var j :| 0 <= j < |f| && f[j] == g[i];
        }
      }
    }
  }

  lemma BalancedByClaim(s: State, i: nat, fires: bool, key: string)
    requires Balanced(s, key) && i < |s.callers| && s.callers[i].Claiming? && s.callers[i].key !in Keys(s.keys)
    ensures Balanced(Next(s, Advance(i, true, fires)), key)
  {
    var claimed := s.callers[i].key;
    InFlightUpdate(s.callers, i, Toasting(claimed), key);
    ClaimMovesResidency(s.keys, claimed, key);
    var out := PushedOut(s.keys, CHECK_FAILURE_CAPACITY, claimed);
    if out.Some? {
      CountAppend(s.evicted, out.value, key);
    }
  }

  lemma BalancedByToast(s: State, i: nat, clear: bool, fires: bool, key: string)
    requires Balanced(s, key) && i < |s.callers| && s.callers[i].Toasting?
    ensures Balanced(Next(s, Advance(i, clear, fires)), key)
  {
    InFlightUpdate(s.callers, i, Finished, key);
    CountAppend(s.fired, s.callers[i].key, key);
    CountAppend(s.failed, s.callers[i].key, key);
  }

  /** Every other step leaves check keys and their toasts alone. */
  lemma BalancedByOther(s: State, i: nat, clear: bool, fires: bool, key: string)
    requires Balanced(s, key) && i < |s.callers| && !s.callers[i].Finished? && !s.callers[i].Toasting?
    requires s.callers[i].Claiming? ==> s.callers[i].key in Keys(s.keys) || !clear
    ensures Balanced(Next(s, Advance(i, clear, fires)), key)
  {
    var t := Next(s, Advance(i, clear, fires));
    assert t.keys == s.keys && t.fired == s.fired && t.failed == s.failed && t.evicted == s.evicted;
    assert t.callers == s.callers[i := t.callers[i]] && !t.callers[i].Toasting?;
    InFlightUpdate(s.callers, i, t.callers[i], key);
  }

  lemma BalancedByAction(s: State, a: Action, key: string)
    requires Balanced(s, key) && Enabled(s, a)
    ensures Balanced(Next(s, a), key)
  {
    match a
    case Arrive(caller) => InFlightAppend(s.callers, caller, key);
    case Advance(i, clear, fires) =>
      if s.callers[i].Toasting? {
        BalancedByToast(s, i, clear, fires, key);
      } else if s.callers[i].Claiming? && s.callers[i].key !in Keys(s.keys) && clear {
        BalancedByClaim(s, i, fires, key);
      } else {
        BalancedByOther(s, i, clear, fires, key);
      }
  }

  lemma {:induction false} BalancedAlongRun(states: seq<State>, acts: seq<Action>, n: nat, key: string)
    requires IsRun(states, acts) && n <= |acts|
    ensures Balanced(states[n], key)
    decreases n
  {
    if n > 0 {
      BalancedAlongRun(states, acts, n - 1, key);
      BalancedByAction(states[n - 1], acts[n - 1], key);
    }
  }

  /** However many callers race, a failed check is toasted at most once for each time its key takes up
      residency: toasts, failed fires and fires still to come add up to the residencies begun. */
  lemma ACheckFailureFiresOncePerResidency(states: seq<State>, acts: seq<Action>, n: nat, key: string)
    requires IsRun(states, acts) && n <= |acts|
    ensures var s := states[n];
            && Count(s.fired, key) + Count(s.failed, key) + InFlight(s.callers, key)
               == Count(s.evicted, key) + (if key in Keys(s.keys) then 1 else 0)
            && (Count(s.evicted, key) == 0 ==> Count(s.fired, key) <= 1)
            && |s.keys| <= 500
  {
    BalancedAlongRun(states, acts, n, key);
  }

  /** A caller whose two steps nobody comes between is one `notify_check_failure`: it toasts, claiming its key
      even if the toast fails, exactly when it is clear to and the key is not claimed. */
  lemma AnUndisturbedCallerIsOneCall(s: State, key: string, clear: bool, fires: bool)
    ensures var i := |s.callers|;
            var due := clear && key !in Keys(s.keys);
            var t := Next(Next(s, Arrive(Claiming(key))), Advance(i, clear, fires));
            && (due <==> !t.callers[i].Finished?)
            && t.keys == (if due then Put(s.keys, 500, key, true) else s.keys)
            && var u := if due then Next(t, Advance(i, clear, fires)) else t;
               && u.callers == s.callers + [Finished] && u.keys == t.keys
               && u.fired == (if due && fires then s.fired + [key] else s.fired)
               && u.failed == (if due && !fires then s.failed + [key] else s.failed)
  {
    assert (s.callers + [Claiming(key)])[|s.callers| := Finished] == s.callers + [Finished];
    assert (s.callers + [Toasting(key)])[|s.callers| := Finished] == s.callers + [Finished];
  }
}
