/** Several windows, each running the same renderer over the same rows.

    What one window promises it keeps whatever the others do; what no window promises is to spare the
    popups of another. */
module DetailsPopupWindows {
  import opened Options
  import opened DetailsPopup

  /** `owner` says which window asked for a workspace; no window knows it. */
  datatype System = System(
    windows: seq<State>,
    known: set<Workspace>,
    owner: map<Workspace, nat>,
    sessions: set<Session>)

  datatype Event = Open | Act(window: nat, action: DetailsPopup.Action)

  /** One window; `strays` are popup workspaces an earlier run left behind. */
  function Start(strays: set<Workspace>): System {
    System([Fresh(strays)], strays, map[], {})
  }

  /** No id is handed out twice, whichever window asks. */
  predicate Can(s: System, e: Event) {
    match e
    case Open => true
    case Act(j, a) =>
      && j < |s.windows| && !a.Elsewhere? && Enabled(s.windows[j], a)
      && (a.RowCreated? ==> a.workspace !in s.known)
      && (a.LaunchReplied? ==> a.session !in s.sessions)
  }

  /** What the step of window `j` is to window `i`. */
  function Seen(w: State, i: nat, j: nat, a: DetailsPopup.Action): State
    requires i == j ==> Enabled(w, a)
    requires i != j && a.RowCreated? ==> Enabled(w, Elsewhere(a.workspace))
  {
    if i == j then Next(w, a) else if a.RowCreated? then Next(w, Elsewhere(a.workspace)) else w
  }

  ghost predicate SameRows(s: System) {
    forall i :: 0 <= i < |s.windows| ==> s.windows[i].known == s.known
  }

  ghost function After(s: System, e: Event): System
    requires SameRows(s) && Can(s, e)
  {
    match e
    case Open => s.(windows := s.windows + [Fresh(s.known)])
    case Act(j, a) =>
      var t := s.(windows := seq(|s.windows|, i requires 0 <= i < |s.windows| => Seen(s.windows[i], i, j, a)));
      match a
      case RowCreated(_, w) => t.(known := s.known + {w}, owner := s.owner[w := j])
      case LaunchReplied(_, session) => t.(sessions := s.sessions + {session})
      case _ => t
  }

  ghost predicate IsSystemRun(strays: set<Workspace>, states: seq<System>, events: seq<Event>) {
    && |states| == |events| + 1
    && states[0] == Start(strays)
    && forall k :: 0 <= k < |events| ==>
         SameRows(states[k]) && Can(states[k], events[k]) && states[k + 1] == After(states[k], events[k])
  }

  lemma RowsAreShared(s: System, e: Event)
    requires SameRows(s) && Can(s, e)
    ensures SameRows(After(s, e))
  {
    if e.Act? && e.action.Sweep? {
      SweepFrame(s.windows[e.window], e.action.rows);
    }
  }

  // ---------- Each window on its own ----------

  /** The window's state is one that a window alone could be in. */
  ghost predicate Solo(w: State) {
    exists strays, states: seq<State>, acts :: IsRun(strays, states, acts) && states[|acts|] == w
  }

  lemma SoloStart(strays: set<Workspace>)
    ensures Solo(Fresh(strays))
  {
    var none: seq<DetailsPopup.Action> := [];
    assert IsRun(strays, [Fresh(strays)], none) && [Fresh(strays)][|none|] == Fresh(strays);
  }

  lemma SoloStep(w: State, a: DetailsPopup.Action)
    requires Solo(w) && Enabled(w, a)
    ensures Solo(Next(w, a))
  {
    var strays, states: seq<State>, acts :| IsRun(strays, states, acts) && states[|acts|] == w;
    var t := Next(w, a);
    assert IsRun(strays, states + [t], acts + [a]);
    assert (states + [t])[|acts + [a]|] == t;
  }

  lemma SoloIsSafe(w: State)
    requires Solo(w)
    ensures Safe(w)
  {
    var strays, states: seq<State>, acts :| IsRun(strays, states, acts) && states[|acts|] == w;
    SafeAlongRun(strays, states, acts, |acts|);
  }

  /** What a window claimed or swept is what it put into its set, and its own requests bear its name. */
  ghost predicate Owned(s: System, i: nat)
    requires i < |s.windows|
  {
    var w := s.windows[i];
    && (forall x :: x in w.swept <==> x in w.claimed || x in w.sweepArchived)
    && (forall x :: x in w.claimed ==> x in s.owner && s.owner[x] == i)
    && (forall k :: 0 <= k < |w.calls| && w.calls[k].Created? ==>
          w.calls[k].workspace in s.owner && s.owner[w.calls[k].workspace] == i)
  }

  ghost predicate Consistent(s: System) {
    && SameRows(s)
    && (forall x :: x in s.owner ==> x in s.known)
    && (forall i :: 0 <= i < |s.windows| ==> Solo(s.windows[i]) && Owned(s, i))
  }

  lemma OwnedAfter(s: System, e: Event, i: nat)
    requires Consistent(s) && Can(s, e) && i < |s.windows|
    ensures Owned(After(s, e), i) && Solo(After(s, e).windows[i])
  {
    var t := After(s, e);
    assert Owned(s, i);
    if e.Act? {
      var a := e.action;
      assert t.windows[i] == Seen(s.windows[i], i, e.window, a);
      if i == e.window {
        SoloStep(s.windows[i], a);
        if a.Sweep? {
          SweptIsArchived(s.windows[i], a.rows);
        }
      } else if a.RowCreated? {
        SoloStep(s.windows[i], Elsewhere(a.workspace));
      }
    }
  }

  lemma SweptIsArchived(w: State, rows: seq<Workspace>)
    requires forall x :: x in w.swept <==> x in w.claimed || x in w.sweepArchived
    ensures var t := SweepRows(w, rows);
            && t.claimed == w.claimed && t.calls == w.calls
            && forall x :: x in t.swept <==> x in t.claimed || x in t.sweepArchived
  {
    var t := SweepRows(w, rows);
    SweepFrame(w, rows);
    forall x
      ensures x in t.swept <==> x in t.claimed || x in t.sweepArchived
    {
      SweepTakesNew(w, rows, x);
    }
  }

  lemma ConsistentAfter(s: System, e: Event)
    requires Consistent(s) && Can(s, e)
    ensures Consistent(After(s, e))
  {
    var t := After(s, e);
    RowsAreShared(s, e);
    forall i | 0 <= i < |t.windows|
      ensures Solo(t.windows[i]) && Owned(t, i)
    {
      if i < |s.windows| {
        OwnedAfter(s, e, i);
      } else {
        SoloStart(s.known);
      }
    }
  }

  lemma {:induction false} ConsistentAlongRun(strays: set<Workspace>, states: seq<System>, events: seq<Event>, n: nat)
    requires IsSystemRun(strays, states, events) && n <= |events|
    ensures Consistent(states[n])
    decreases n
  {
    if n > 0 {
      ConsistentAlongRun(strays, states, events, n - 1);
      ConsistentAfter(states[n - 1], events[n - 1]);
    } else {
      SoloStart(strays);
    }
  }

  lemma WindowGrows(s: System, e: Event, i: nat)
    requires SameRows(s) && Can(s, e) && i < |s.windows|
    ensures i < |After(s, e).windows|
    ensures var v, w := s.windows[i], After(s, e).windows[i];
            v.claimed <= w.claimed && forall x :: x in v.sweepArchived ==> x in w.sweepArchived
  {
    if e.Act? && e.action.Sweep? && i == e.window {
      ArchivedGrows(s.windows[i], e.action.rows);
    }
  }

  lemma {:induction false} WindowsGrow(strays: set<Workspace>, states: seq<System>, events: seq<Event>, m: nat, n: nat,
                                       i: nat)
    requires IsSystemRun(strays, states, events) && m <= n <= |events| && i < |states[m].windows|
    ensures i < |states[n].windows|
    ensures var v, w := states[m].windows[i], states[n].windows[i];
            v.claimed <= w.claimed && forall x :: x in v.sweepArchived ==> x in w.sweepArchived
    decreases n
  {
    if m < n {
      WindowsGrow(strays, states, events, m, n - 1, i);
      WindowGrows(states[n - 1], events[n - 1], i);
    }
  }

  // ---------- The theorems ----------

  /** Whatever the other windows do, every window is in a state it could reach alone: all that is proved of
      one window holds of each of several. */
  lemma EveryWindowKeepsItsPromises(strays: set<Workspace>, states: seq<System>, events: seq<Event>, n: nat, i: nat)
    requires IsSystemRun(strays, states, events) && n <= |events| && i < |states[n].windows|
    ensures Solo(states[n].windows[i]) && Safe(states[n].windows[i])
  {
    ConsistentAlongRun(strays, states, events, n);
    SoloIsSafe(states[n].windows[i]);
  }

  /** No window's sweep ever archives a workspace whose creation by that same window succeeded. */
  lemma EveryWindowSparesItsOwn(strays: set<Workspace>, states: seq<System>, events: seq<Event>, m: nat, n: nat, i: nat,
                                w: Workspace)
    requires IsSystemRun(strays, states, events) && m <= |events| && n <= |events|
    requires i < |states[m].windows| && i < |states[n].windows|
    requires w in states[n].windows[i].claimed
    ensures w !in states[m].windows[i].sweepArchived
  {
    var later := if m < n then n else m;
    WindowsGrow(strays, states, events, m, later, i);
    WindowsGrow(strays, states, events, n, later, i);
    EveryWindowKeepsItsPromises(strays, states, events, later, i);
  }

  /** Window `j` sweeps a snapshot that holds the row `w`, with no creation of its own in flight. */
  ghost predicate SweepsOver(s: System, e: Event, j: nat, w: Workspace) {
    && e.Act? && e.window == j && j < |s.windows| && e.action.Sweep?
    && w in e.action.rows && s.windows[j].inFlight == 0
  }

  lemma ArchivedByStep(s: System, e: Event, j: nat, w: Workspace)
    requires Consistent(s) && Can(s, e) && j < |s.windows| && w !in s.windows[j].claimed
    ensures w in After(s, e).windows[j].sweepArchived
            <==> w in s.windows[j].sweepArchived || SweepsOver(s, e, j, w)
  {
    if e.Act? && e.window == j && e.action.Sweep? {
      var v := s.windows[j];
      assert Owned(s, j);
      SoloIsSafe(v);
      SweepTakesNew(v, e.action.rows, w);
      assert v.current.Some? && v.current.value.workspace == w ==> Places(v, w) >= 1;
    }
  }

  /** In every run, another window archives a popup workspace of window `i` if and only if it ever sweeps
      a snapshot that holds its row, with no creation of its own in flight. */
  lemma {:induction false} AnotherWindowArchivesExactlyWhatItSweeps(strays: set<Workspace>, states: seq<System>,
                                                                    events: seq<Event>, m: nat, n: nat, i: nat, j: nat,
                                                                    w: Workspace)
    requires IsSystemRun(strays, states, events) && m <= n <= |events| && i != j
    requires i < |states[n].windows| && w in states[n].windows[i].claimed && j < |states[m].windows|
    ensures w in states[m].windows[j].sweepArchived <==> SweptBefore(states, events, m, j, w)
    decreases m
  {
    if m > 0 {
      ConsistentAlongRun(strays, states, events, m - 1);
      if j < |states[m - 1].windows| {
        AnotherWindowArchivesExactlyWhatItSweeps(strays, states, events, m - 1, n, i, j, w);
        ClaimedByOne(strays, states, events, m - 1, n, i, j, w);
        ArchivedByStep(states[m - 1], events[m - 1], j, w);
        SweptByStep(states, events, m - 1, j, w);
      } else {
        NotYetOpen(strays, states, events, m - 1, j);
        FreshlyOpened(states[m - 1], events[m - 1], j);
        assert !SweptBefore(states, events, m, j, w);
      }
    }
  }

  ghost predicate SweptBefore(states: seq<System>, events: seq<Event>, m: nat, j: nat, w: Workspace)
    requires |states| == |events| + 1 && m <= |events|
  {
    exists k :: 0 <= k < m && SweepsOver(states[k], events[k], j, w)
  }

  lemma SweptByStep(states: seq<System>, events: seq<Event>, m: nat, j: nat, w: Workspace)
    requires |states| == |events| + 1 && m < |events|
    ensures SweptBefore(states, events, m + 1, j, w)
            <==> SweptBefore(states, events, m, j, w) || SweepsOver(states[m], events[m], j, w)
  {
  }

  lemma FreshlyOpened(s: System, e: Event, j: nat)
    requires SameRows(s) && Can(s, e) && |s.windows| <= j < |After(s, e).windows|
    ensures After(s, e).windows[j].sweepArchived == []
  {
  }

  /** A workspace claimed by one window is never claimed by another. */
  lemma ClaimedByOne(strays: set<Workspace>, states: seq<System>, events: seq<Event>, m: nat, n: nat, i: nat, j: nat,
                     w: Workspace)
    requires IsSystemRun(strays, states, events) && m <= n <= |events| && i != j
    requires i < |states[n].windows| && w in states[n].windows[i].claimed && j < |states[m].windows|
    ensures w !in states[m].windows[j].claimed
  {
    WindowsGrow(strays, states, events, m, n, j);
    ConsistentAlongRun(strays, states, events, n);
    assert Owned(states[n], i) && Owned(states[n], j);
  }

  lemma {:induction false} NotYetOpen(strays: set<Workspace>, states: seq<System>, events: seq<Event>, m: nat, j: nat)
    requires IsSystemRun(strays, states, events) && m <= |events| && j >= |states[m].windows|
    ensures forall k :: 0 <= k <= m ==> j >= |states[k].windows|
    decreases m
  {
    if m > 0 {
      assert |states[m - 1].windows| <= |After(states[m - 1], events[m - 1]).windows|;
      NotYetOpen(strays, states, events, m - 1, j);
    }
  }

  /** The popup in use in one window, archived by the sweep of another. */
  predicate CrossArchived(s: System) {
    && |s.windows| == 2 && s.windows[0].current.Some?
    && s.windows[0].current.value.workspace in s.windows[1].sweepArchived
  }

  /** It takes one torn-off window and one snapshot. */
  lemma ATornOffWindowArchivesOurPopup(w: Workspace, session: Session)
    ensures exists s :: ReachableSystem({}, s) && CrossArchived(s)
  {
    var s := PopupInUse(w, session);
    var mine, other := s.windows[0], s.windows[1];
    var swept := other.(swept := {w}, sweepArchived := [w]);
    OneRowSwept(other, w);
    var t := s.(windows := [mine, swept]);
    ReachStep({}, s, Act(1, Sweep([w])), t);
    assert CrossArchived(t);
  }

  lemma OneRowSwept(v: State, w: Workspace)
    requires |v.swept| == 0 && v.current.None? && |v.sweepArchived| == 0 && v.inFlight == 0 && w in v.known
    ensures Enabled(v, Sweep([w])) && Next(v, Sweep([w])) == v.(swept := {w}, sweepArchived := [w])
  {
    var rows := [w];
    assert SweepRows(v, rows[..0]) == v;
    assert SweepRows(v, rows) == SweepRow(v, w);
  }

  /** Two windows, the second untouched, and the calls of the first. */
  ghost predicate Staged(s: System, calls: seq<Launch>, rows: set<Workspace>) {
    && ReachableSystem({}, s) && SameRows(s) && |s.windows| == 2 && s.known == rows && |s.sessions| == 0
    && s.windows[0].calls == calls && s.windows[1] == Fresh({}).(known := rows) && |s.windows[0].launched| == 0
  }

  /** The first of two windows has its popup up. */
  lemma PopupInUse(w: Workspace, session: Session) returns (s: System)
    ensures ReachableSystem({}, s) && SameRows(s) && |s.windows| == 2 && s.known == {w}
    ensures s.windows[1] == Fresh({}).(known := {w}) && s.windows[0].current == Some(Popup(w, session))
  {
    s := CallStage();
    s := RowStage(s, w);
    s := ClaimStage(s, w);
    s := ReachFirst(s, LaunchReplied(0, session));
  }

  lemma CallStage() returns (s: System)
    ensures Staged(s, [Creating], {}) && s.windows[0].inFlight == 1
  {
    var none := Fresh({});
    s := System([none, none], {}, map[], {});
    ReachStart({});
    ReachStep({}, Start({}), Open, s);
    s := ReachFirst(s, Launch);
  }

  lemma RowStage(s: System, w: Workspace) returns (t: System)
    requires Staged(s, [Creating], {}) && s.windows[0].inFlight == 1
    ensures Staged(t, [Created(w)], {w}) && t.windows[0].inFlight == 1
  {
    t := ReachFirst(s, RowCreated(0, w));
  }

  lemma ClaimStage(s: System, w: Workspace) returns (t: System)
    requires Staged(s, [Created(w)], {w}) && s.windows[0].inFlight == 1
    ensures Staged(t, [Launching(w)], {w})
  {
    t := ReachFirst(s, CreateReplied(0));
  }

  /** A step of the first of two windows. */
  lemma ReachFirst(s: System, a: DetailsPopup.Action) returns (t: System)
    requires ReachableSystem({}, s) && SameRows(s) && |s.windows| == 2 && Can(s, Act(0, a)) && !a.Sweep?
    ensures ReachableSystem({}, t) && SameRows(t) && |t.windows| == 2
    ensures t.windows[0] == Next(s.windows[0], a) && t.windows[1] == Seen(s.windows[1], 1, 0, a)
    ensures t.known == if a.RowCreated? then s.known + {a.workspace} else s.known
    ensures t.sessions == if a.LaunchReplied? then s.sessions + {a.session} else s.sessions
  {
    t := After(s, Act(0, a));
    RowsAreShared(s, Act(0, a));
    ReachStep({}, s, Act(0, a), t);
  }

  ghost predicate ReachableSystem(strays: set<Workspace>, s: System) {
    exists states: seq<System>, events :: IsSystemRun(strays, states, events) && states[|events|] == s
  }

  lemma ReachStart(strays: set<Workspace>)
    ensures ReachableSystem(strays, Start(strays))
  {
    var none: seq<Event> := [];
    assert IsSystemRun(strays, [Start(strays)], none) && [Start(strays)][|none|] == Start(strays);
  }

  lemma ReachStep(strays: set<Workspace>, s: System, e: Event, t: System)
    requires ReachableSystem(strays, s) && SameRows(s) && Can(s, e) && StepsTo(s, e, t)
    ensures ReachableSystem(strays, t)
  {
    Steps(s, e, t);
    var states: seq<System>, events :| IsSystemRun(strays, states, events) && states[|events|] == s;
    assert IsSystemRun(strays, states + [t], events + [e]);
    assert (states + [t])[|events + [e]|] == t;
  }

  /** `t` is what the step makes of `s`, window by window. */
  ghost predicate StepsTo(s: System, e: Event, t: System)
    requires SameRows(s) && Can(s, e)
  {
    match e
    case Open => t == s.(windows := s.windows + [Fresh(s.known)])
    case Act(j, a) =>
      && |t.windows| == |s.windows|
      && (forall i :: 0 <= i < |s.windows| ==> t.windows[i] == Seen(s.windows[i], i, j, a))
      && t.known == (if a.RowCreated? then s.known + {a.workspace} else s.known)
      && t.owner == (if a.RowCreated? then s.owner[a.workspace := j] else s.owner)
      && t.sessions == (if a.LaunchReplied? then s.sessions + {a.session} else s.sessions)
  }

  lemma Steps(s: System, e: Event, t: System)
    requires SameRows(s) && Can(s, e) && StepsTo(s, e, t)
    ensures t == After(s, e)
  {
  }
}
