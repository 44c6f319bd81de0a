/** Desktop notification dedupe: one toast per terminal state, one per failed check.

    The focus probe, the sink's support and the outcome of a fire are parameters. */
module Notifications {
  import opened Options
  import opened BoundedMaps

  const LAST_NOTIFIED_CAPACITY: nat := 2000
  const CHECK_FAILURE_CAPACITY: nat := 500

  datatype SessionState = Created | Running | Waiting | Blocked | Complete | Failed | Cancelled

  predicate Notifiable(state: SessionState) {
    state == Complete || state == Failed
  }

  /** Whether a toast went out, or the sink's error. */
  datatype Outcome = Told(sent: bool) | SinkFailed

  /** What has happened to sessions so far: toasts shown, follow-up turns and forgets, evictions. */
  datatype Event =
    | Fired(id: string, state: SessionState)
    | Reset(id: string)
    | Evicted(id: string)

  function Latest(log: seq<Event>, id: string): Option<Event> {
    if |log| == 0 then None
    else if log[|log| - 1].id == id then Some(log[|log| - 1])
    else Latest(log[..|log| - 1], id)
  }

  function StateOf(e: Option<Event>): Option<SessionState> {
    if e.Some? && e.value.Fired? then Some(e.value.state) else None
  }

  /** Between two toasts for the same session and state lies something else about that session: a
      follow-up turn, a forget, the other terminal state, or an eviction. */
  ghost predicate NeverTwice(log: seq<Event>) {
    forall i, j :: 0 <= i < j < |log| && log[i].Fired? && log[i] == log[j] ==> Interrupted(log, i, j)
  }

  ghost predicate Interrupted(log: seq<Event>, i: nat, j: nat)
    requires i < j < |log|
  {
    exists k :: i < k < j && log[k].id == log[i].id && log[k] != log[i]
  }

  /** A stamp is there exactly when the latest thing about the session is that toast. */
  ghost predicate StampsFollow(stamps: Entries<string, SessionState>, log: seq<Event>) {
    && Distinct(stamps)
    && forall id :: Lookup(stamps, id) == StateOf(Latest(log, id))
  }

  lemma LatestAppend(log: seq<Event>, e: Event, id: string)
    ensures Latest(log + [e], id) == if e.id == id then Some(e) else Latest(log, id)
  {
    assert (log + [e])[..|log|] == log;
  }

  /** The latest event about a session is one of its events, and none about it follows. */
  lemma {:induction false} LatestIsLast(log: seq<Event>, id: string, i: nat)
    requires i < |log| && log[i].id == id
    ensures exists k :: i <= k < |log| && log[k].id == id && Latest(log, id) == Some(log[k])
  {
    var last := |log| - 1;
    if log[last].id != id {
      LatestIsLast(log[..last], id, i);
      var k :| i <= k < last && log[..last][k].id == id && Latest(log[..last], id) == Some(log[..last][k]);
      assert log[k] == log[..last][k];
    } else {
      assert Latest(log, id) == Some(log[last]);
    }
  }

  /** A toast is recorded only when it is not already the latest word on its session. */
  lemma NeverTwiceAppend(log: seq<Event>, e: Event)
    requires NeverTwice(log)
    requires e.Fired? ==> Latest(log, e.id) != Some(e)
    ensures NeverTwice(log + [e])
  {
    var all := log + [e];
    assert forall k :: 0 <= k < |log| ==> all[k] == log[k];
    forall i, j | 0 <= i < j < |all| && all[i].Fired? && all[i] == all[j]
      ensures Interrupted(all, i, j)
    {
      if j < |log| {
        assert Interrupted(log, i, j);
        var k :| i < k < j && log[k].id == log[i].id && log[k] != log[i];
        assert all[k].id == all[i].id;
      } else {
        LatestIsLast(log, e.id, i);
        var k :| i <= k < |log| && log[k].id == e.id && Latest(log, e.id) == Some(log[k]);
        assert all[k].id == all[i].id;
      }
    }
  }

  lemma LookupDelete<V>(f: Entries<string, V>, gone: string, id: string)
    requires Distinct(f)
    ensures Lookup(Delete(f, gone), id) == if id == gone then None else Lookup(f, id)
  {
    var g := Delete(f, gone);
    DeleteFacts(f, gone);
    if id != gone && id in Keys(f) {
      var j := Position(f, id);
      var i :| 0 <= i < |g| && g[i] == f[j];
      LookupAt(g, i);
    } else {
      forall i | 0 <= i < |g|
        ensures Keys(g)[i] != id
      {
        var j :| 0 <= j < |f| && f[j] == g[i];
        assert Keys(f)[j] == g[i].0;
      }
    }
  }

  /** The key an insert pushes out, if any. */
  function PushedOut<V>(f: Entries<string, V>, capacity: nat, id: string): Option<string> {
    if id !in Keys(f) && |f| + 1 > capacity && f != [] then Some(f[0].0) else None
  }

  lemma LookupPut<V>(f: Entries<string, V>, capacity: nat, id: string, s: V, other: string)
    requires Distinct(f) && 0 < capacity && |f| <= capacity
    ensures Lookup(Put(f, capacity, id, s), other)
            == if other == id then Some(s) else if PushedOut(f, capacity, id) == Some(other) then None
               else Lookup(f, other)
  {
    var g := Put(f, capacity, id, s);
    PutFacts(f, capacity, id, s);
    assert forall i :: 0 <= i < |g| ==> Keys(g)[i] == g[i].0;
    assert forall i :: 0 <= i < |f| ==> Keys(f)[i] == f[i].0;
    if other == id {
      var i :| 0 <= i < |g| && g[i] == (id, s);
      LookupAt(g, i);
    } else if other in Keys(g) {
      var i := Position(g, other);
      assert g[i] in f;
      var j :| 0 <= j < |f| && f[j] == g[i];
      LookupAt(f, j);
      LookupAt(g, i);
    } else if other in Keys(f) {
      EvictionTakesTheOldest(f, capacity, id, s, other);
    }
  }

  function AfterFire(log: seq<Event>, stamps: Entries<string, SessionState>, id: string, s: SessionState): seq<Event> {
    var out := PushedOut(stamps, LAST_NOTIFIED_CAPACITY, id);
    (if out.Some? then log + [Evicted(out.value)] else log) + [Fired(id, s)]
  }

  lemma StampsFollowFire(stamps: Entries<string, SessionState>, log: seq<Event>, id: string, s: SessionState)
    requires StampsFollow(stamps, log) && |stamps| <= LAST_NOTIFIED_CAPACITY
    requires NeverTwice(log) && Lookup(stamps, id) != Some(s)
    ensures StampsFollow(Put(stamps, LAST_NOTIFIED_CAPACITY, id, s), AfterFire(log, stamps, id, s))
    ensures NeverTwice(AfterFire(log, stamps, id, s))
  {
    PutFacts(stamps, LAST_NOTIFIED_CAPACITY, id, s);
    var out := PushedOut(stamps, LAST_NOTIFIED_CAPACITY, id);
    var mid := if out.Some? then log + [Evicted(out.value)] else log;
    if out.Some? {
      assert out.value != id by { assert Keys(stamps)[0] == out.value; }
      NeverTwiceAppend(log, Evicted(out.value));
      LatestAppend(log, Evicted(out.value), id);
    }
    NeverTwiceAppend(mid, Fired(id, s));
    forall other
      ensures Lookup(Put(stamps, LAST_NOTIFIED_CAPACITY, id, s), other)
              == StateOf(Latest(AfterFire(log, stamps, id, s), other))
    {
      LookupPut(stamps, LAST_NOTIFIED_CAPACITY, id, s, other);
      LatestAppend(mid, Fired(id, s), other);
      if out.Some? {
        LatestAppend(log, Evicted(out.value), other);
      }
    }
  }

  lemma StampsFollowReset(stamps: Entries<string, SessionState>, log: seq<Event>, id: string)
    requires StampsFollow(stamps, log) && NeverTwice(log)
    ensures StampsFollow(Delete(stamps, id), log + [Reset(id)]) && NeverTwice(log + [Reset(id)])
  {
    DeleteFacts(stamps, id);
    NeverTwiceAppend(log, Reset(id));
    forall other
      ensures Lookup(Delete(stamps, id), other) == StateOf(Latest(log + [Reset(id)], other))
    {
      LookupDelete(stamps, id, other);
      LatestAppend(log, Reset(id), other);
    }
  }

  /** `NotificationService`, one call at a time. `log` is what has happened so far. */
  class NotificationService {
    var enabled: bool
    const lastNotified: HashBoundedMap<string, SessionState>
    const checkKeys: HashBoundedMap<string, bool>
    ghost var log: seq<Event>

    ghost predicate Valid()
      reads this, lastNotified, checkKeys
    {
      && lastNotified.Valid() && lastNotified.capacity == 2000
      && checkKeys.Valid() && checkKeys.capacity == 500
      && lastNotified as object != checkKeys as object
      && StampsFollow(lastNotified.view, log) && NeverTwice(log)
    }

    constructor ()
      ensures Valid() && enabled && log == [] && checkKeys.view == []
      ensures fresh(lastNotified) && fresh(checkKeys)
    {
      enabled := true;
      var stamps := new HashBoundedMap<string, SessionState>(LAST_NOTIFIED_CAPACITY);
      var keys := new HashBoundedMap<string, bool>(CHECK_FAILURE_CAPACITY);
      lastNotified, checkKeys, log := stamps, keys, [];
    }

    method SetEnabled(value: bool)
      requires Valid()
      modifies this`enabled
      ensures Valid() && enabled == value
    {
      enabled := value;
    }

    method Forget(id: string)
      requires Valid()
      modifies this`log, lastNotified
      ensures Valid() && log == old(log) + [Reset(id)]
      ensures lastNotified.view == Delete(old(lastNotified.view), id)
    {
      StampsFollowReset(lastNotified.view, log, id);
      lastNotified.Remove(id);
      log := log + [Reset(id)];
    }

    /** A toast goes out exactly for an enabled, unfocused, supported terminal state that is not already
        the latest word on its session; a failed fire leaves no stamp. */
    method Notify(id: string, state: SessionState, focused: bool, supported: bool, fires: bool) returns (r: Outcome)
      requires Valid()
      modifies this`log, lastNotified
      ensures Valid()
      ensures state != Complete && state != Failed ==> r == Told(false) && log == old(log) + [Reset(id)]
      ensures state == Complete || state == Failed ==>
                var due := enabled && !focused && supported && Latest(old(log), id) != Some(Fired(id, state));
                && r == (if !due then Told(false) else if fires then Told(true) else SinkFailed)
                && log == (if due && fires then AfterFire(old(log), old(lastNotified.view), id, state) else old(log))
    {
      LatestIsAbout(log, id);
      if !Notifiable(state) {
        Forget(id);
        return Told(false);
      }
      if !enabled {
        return Told(false);
      }
      var stamp := lastNotified.Get(id);
      if stamp == Some(state) {
        return Told(false);
      }
      if focused || !supported {
        return Told(false);
      }
      if !fires {
        return SinkFailed;
      }
      StampsFollowFire(lastNotified.view, log, id, state);
      log := AfterFire(log, lastNotified.view, id, state);
      lastNotified.Insert(id, state);
      r := Told(true);
    }

    /** The key is claimed before the toast is fired, so a failed fire is not retried. */
    method NotifyCheckFailure(key: string, focused: bool, supported: bool, fires: bool) returns (r: Outcome)
      requires Valid()
      modifies checkKeys
      ensures Valid()
      ensures var due := enabled && !focused && supported && key !in Keys(old(checkKeys.view));
              && r == (if !due then Told(false) else if fires then Told(true) else SinkFailed)
              && checkKeys.view == (if due then Put(old(checkKeys.view), CHECK_FAILURE_CAPACITY, key, true)
                                    else old(checkKeys.view))
    {
      if !enabled {
        return Told(false);
      }
      var claimed := checkKeys.Get(key);
      if claimed.Some? {
        return Told(false);
      }
      if focused || !supported {
        return Told(false);
      }
      checkKeys.Insert(key, true);
      r := if fires then Told(true) else SinkFailed;
    }
  }

  lemma {:induction false} LatestIsAbout(log: seq<Event>, id: string)
    ensures Latest(log, id).Some? ==> Latest(log, id).value.id == id
  {
    if log != [] && log[|log| - 1].id != id {
      LatestIsAbout(log[..|log| - 1], id);
    }
  }
}
