/** The details popup of one window: launches, closes and the stray sweep, in any interleaving.

    Each await is a step boundary; the code between two awaits is one step. */
module DetailsPopup {
  import opened Options

  type Workspace = string
  type Session = string

  datatype Popup = Popup(workspace: Workspace, session: Session)

  /** A `launchDetailsPopup` call. From `Created` on its row exists and may appear in a snapshot; the
      renderer learns the id only with the reply. */
  datatype Launch =
    | Creating
    | Created(workspace: Workspace)
    | Launching(workspace: Workspace)
    | Ended

  /** `swept`, `inFlight` and `current` are the renderer's refs; the rest is history. `known` is every
      workspace id handed out, `claimed` those whose creation replied. */
  datatype State = State(
    calls: seq<Launch>,
    inFlight: nat,
    swept: set<Workspace>,
    current: Option<Popup>,
    known: set<Workspace>,
    claimed: set<Workspace>,
    launched: set<Session>,
    disposed: seq<Popup>,
    abandoned: seq<Workspace>,
    sweepArchived: seq<Workspace>)

  /** `RowCreated` and the replies come from the backend, which never reuses an id; `Elsewhere` is a row
      created by another window. `Sweep` runs over the live popup rows of some snapshot, possibly stale or
      partial. */
  datatype Action =
    | Launch
    | RowCreated(call: nat, workspace: Workspace)
    | Elsewhere(workspace: Workspace)
    | CreateReplied(call: nat)
    | CreateFailed(call: nat)
    | LaunchReplied(call: nat, session: Session)
    | LaunchFailed(call: nat)
    | Close
    | Sweep(rows: seq<Workspace>)

  /** A fresh renderer; `strays` are popup workspaces an earlier run left behind. */
  function Fresh(strays: set<Workspace>): State {
    State([], 0, {}, None, strays, {}, {}, [], [], [])
  }

  predicate Enabled(s: State, a: Action) {
    match a
    case Launch => true
    case RowCreated(i, w) => i < |s.calls| && s.calls[i].Creating? && w !in s.known
    case Elsewhere(w) => w !in s.known
    case CreateReplied(i) => i < |s.calls| && s.calls[i].Created? && s.inFlight > 0
    case CreateFailed(i) => i < |s.calls| && (s.calls[i].Creating? || s.calls[i].Created?) && s.inFlight > 0
    case LaunchReplied(i, session) => i < |s.calls| && s.calls[i].Launching? && session !in s.launched
    case LaunchFailed(i) => i < |s.calls| && s.calls[i].Launching?
    case Close => true
    case Sweep(rows) => forall w :: w in rows ==> w in s.known
  }

  /** One row of the sweep loop. */
  function SweepRow(s: State, w: Workspace): State {
    if w in s.swept || (s.current.Some? && s.current.value.workspace == w) then s
    else s.(swept := s.swept + {w}, sweepArchived := s.sweepArchived + [w])
  }

  function SweepRows(s: State, rows: seq<Workspace>): State {
    if |rows| == 0 then s else SweepRow(SweepRows(s, rows[..|rows| - 1]), rows[|rows| - 1])
  }

  function Next(s: State, a: Action): State
    requires Enabled(s, a)
  {
    match a
    case Launch => s.(calls := s.calls + [Creating], inFlight := s.inFlight + 1)
    case RowCreated(i, w) => s.(calls := s.calls[i := Created(w)], known := s.known + {w})
    case Elsewhere(w) => s.(known := s.known + {w})
    case CreateReplied(i) =>
      var w := s.calls[i].workspace;
      s.(calls := s.calls[i := Launching(w)], swept := s.swept + {w}, inFlight := s.inFlight - 1,
         claimed := s.claimed + {w})
    case CreateFailed(i) => s.(calls := s.calls[i := Ended], inFlight := s.inFlight - 1)
    case LaunchReplied(i, session) =>
      s.(calls := s.calls[i := Ended],
         disposed := if s.current.Some? && s.current.value.session != session then s.disposed + [s.current.value]
                     else s.disposed,
         current := Some(Popup(s.calls[i].workspace, session)),
         launched := s.launched + {session})
    case LaunchFailed(i) => s.(calls := s.calls[i := Ended], abandoned := s.abandoned + [s.calls[i].workspace])
    case Close =>
      s.(disposed := if s.current.Some? then s.disposed + [s.current.value] else s.disposed, current := None)
    case Sweep(rows) => if s.inFlight > 0 then s else SweepRows(s, rows)
  }

  ghost predicate IsRun(strays: set<Workspace>, states: seq<State>, acts: seq<Action>) {
    && |states| == |acts| + 1
    && states[0] == Fresh(strays)
    && forall k :: 0 <= k < |acts| ==> Enabled(states[k], acts[k]) && states[k + 1] == Next(states[k], acts[k])
  }

  // ---------- Where every claimed workspace and launched session is ----------

  function CreatingCount(calls: seq<Launch>): nat {
    if |calls| == 0 then 0
    else (if calls[0].Creating? || calls[0].Created? then 1 else 0) + CreatingCount(calls[1..])
  }

  function LaunchingOf(calls: seq<Launch>, w: Workspace): nat {
    if |calls| == 0 then 0 else (if calls[0] == Launching(w) then 1 else 0) + LaunchingOf(calls[1..], w)
  }

  function DisposalsOf(popups: seq<Popup>, w: Workspace): nat {
    if |popups| == 0 then 0
    else DisposalsOf(popups[..|popups| - 1], w) + (if popups[|popups| - 1].workspace == w then 1 else 0)
  }

  function TerminationsOf(popups: seq<Popup>, session: Session): nat {
    if |popups| == 0 then 0
    else TerminationsOf(popups[..|popups| - 1], session) + (if popups[|popups| - 1].session == session then 1 else 0)
  }

  function AbandonedOf(workspaces: seq<Workspace>, w: Workspace): nat {
    if |workspaces| == 0 then 0
    else AbandonedOf(workspaces[..|workspaces| - 1], w) + (if workspaces[|workspaces| - 1] == w then 1 else 0)
  }

  /** In how many places a workspace is: being launched, current, disposed of, abandoned. */
  function Places(s: State, w: Workspace): nat {
    LaunchingOf(s.calls, w) + (if s.current.Some? && s.current.value.workspace == w then 1 else 0)
    + DisposalsOf(s.disposed, w) + AbandonedOf(s.abandoned, w)
  }

  /** Whether a session is current, plus how often it has been disposed of. */
  function Lives(s: State, session: Session): nat {
    (if s.current.Some? && s.current.value.session == session then 1 else 0) + TerminationsOf(s.disposed, session)
  }

  ghost predicate NoRepeats<T>(xs: seq<T>) {
    forall i, j :: 0 <= i < j < |xs| ==> xs[i] != xs[j]
  }

  /** Every claimed workspace is in exactly one place, every launched session has exactly one life. */
  ghost predicate Accounted(s: State) {
    && (forall w :: Places(s, w) == if w in s.claimed then 1 else 0)
    && (forall session :: Lives(s, session) == if session in s.launched then 1 else 0)
  }

  /** A created row whose reply is still out belongs to its call alone. */
  ghost predicate PendingApart(s: State) {
    && (forall i :: 0 <= i < |s.calls| && s.calls[i].Created? ==>
          var w := s.calls[i].workspace;
          w in s.known && w !in s.swept && w !in s.claimed && w !in s.sweepArchived)
    && (forall i, j :: 0 <= i < j < |s.calls| && s.calls[i].Created? && s.calls[j].Created? ==>
          s.calls[i].workspace != s.calls[j].workspace)
  }

  ghost predicate SweptApart(s: State) {
    && NoRepeats(s.sweepArchived)
    && (forall w :: w in s.claimed ==> w in s.swept && w in s.known && w !in s.sweepArchived)
    && (forall w :: w in s.sweepArchived ==> w in s.swept && w in s.known)
    && s.swept <= s.known
  }

  ghost predicate Safe(s: State) {
    s.inFlight == CreatingCount(s.calls) && Accounted(s) && PendingApart(s) && SweptApart(s)
  }

  lemma {:induction false} CreatingUpdate(calls: seq<Launch>, i: nat, c: Launch)
    requires i < |calls|
    ensures CreatingCount(calls[i := c]) + (if calls[i].Creating? || calls[i].Created? then 1 else 0)
            == CreatingCount(calls) + (if c.Creating? || c.Created? then 1 else 0)
  {
    if i > 0 {
      assert calls[i := c][1..] == calls[1..][i - 1 := c];
      CreatingUpdate(calls[1..], i - 1, c);
    } else {
      assert calls[0 := c][1..] == calls[1..];
    }
  }

  lemma {:induction false} LaunchingUpdate(calls: seq<Launch>, i: nat, c: Launch, w: Workspace)
    requires i < |calls|
    ensures LaunchingOf(calls[i := c], w) + (if calls[i] == Launching(w) then 1 else 0)
            == LaunchingOf(calls, w) + (if c == Launching(w) then 1 else 0)
  {
    if i > 0 {
      assert calls[i := c][1..] == calls[1..][i - 1 := c];
      LaunchingUpdate(calls[1..], i - 1, c, w);
    } else {
      assert calls[0 := c][1..] == calls[1..];
    }
  }

  lemma {:induction false} CreatingAppend(calls: seq<Launch>)
    ensures CreatingCount(calls + [Creating]) == CreatingCount(calls) + 1
  {
    if calls == [] {
      assert calls + [Creating] == [Creating];
    } else {
      assert (calls + [Creating])[1..] == calls[1..] + [Creating];
      CreatingAppend(calls[1..]);
    }
  }

  lemma {:induction false} LaunchingAppend(calls: seq<Launch>, w: Workspace)
    ensures LaunchingOf(calls + [Creating], w) == LaunchingOf(calls, w)
  {
    if calls == [] {
      assert calls + [Creating] == [Creating];
    } else {
      assert (calls + [Creating])[1..] == calls[1..] + [Creating];
      LaunchingAppend(calls[1..], w);
    }
  }

  lemma DisposedAppend(popups: seq<Popup>, p: Popup, w: Workspace, session: Session)
    ensures DisposalsOf(popups + [p], w) == DisposalsOf(popups, w) + (if p.workspace == w then 1 else 0)
    ensures TerminationsOf(popups + [p], session)
            == TerminationsOf(popups, session) + (if p.session == session then 1 else 0)
  {
    assert (popups + [p])[..|popups|] == popups;
  }

  lemma AbandonedAppend(workspaces: seq<Workspace>, v: Workspace, w: Workspace)
    ensures AbandonedOf(workspaces + [v], w) == AbandonedOf(workspaces, w) + (if v == w then 1 else 0)
  {
    assert (workspaces + [v])[..|workspaces|] == workspaces;
  }

  lemma {:induction false} NoneCreating(calls: seq<Launch>, i: nat)
    requires CreatingCount(calls) == 0 && i < |calls|
    ensures !calls[i].Creating? && !calls[i].Created?
  {
    if i > 0 {
      NoneCreating(calls[1..], i - 1);
    }
  }

  /** The sweep touches nothing but strays: it takes new ids only, and never the current popup's. */
  lemma {:induction false} SweepIsSafe(s: State, rows: seq<Workspace>)
    requires SweptApart(s) && forall w :: w in rows ==> w in s.known
    ensures var t := SweepRows(s, rows);
            && SweptApart(t) && s.swept <= t.swept
            && t == s.(swept := t.swept, sweepArchived := t.sweepArchived)
            && (forall w :: w in rows ==> w in t.swept || (s.current.Some? && s.current.value.workspace == w))
            && (forall w :: w in t.sweepArchived ==> w in s.sweepArchived || w in rows)
  {
    if rows != [] {
      SweepIsSafe(s, rows[..|rows| - 1]);
      assert rows == rows[..|rows| - 1] + [rows[|rows| - 1]];
    }
  }

  /** How one step moves a workspace between places; only a creation reply adds one. */
  lemma StepMovesWorkspace(s: State, a: Action, w: Workspace)
    requires Enabled(s, a)
    requires a.LaunchReplied? && s.current.Some? ==> s.current.value.session != a.session
    ensures Places(Next(s, a), w)
            == Places(s, w) + (if a.CreateReplied? && s.calls[a.call].workspace == w then 1 else 0)
  {
    match a
    case Launch => LaunchingAppend(s.calls, w);
    case RowCreated(i, v) => LaunchingUpdate(s.calls, i, Created(v), w);
    case Elsewhere(_) =>
    case CreateReplied(i) => LaunchingUpdate(s.calls, i, Launching(s.calls[i].workspace), w);
    case CreateFailed(i) => LaunchingUpdate(s.calls, i, Ended, w);
    case LaunchReplied(i, session) =>
      LaunchingUpdate(s.calls, i, Ended, w);
      if s.current.Some? {
        DisposedAppend(s.disposed, s.current.value, w, session);
      }
    case LaunchFailed(i) =>
      LaunchingUpdate(s.calls, i, Ended, w);
      AbandonedAppend(s.abandoned, s.calls[i].workspace, w);
    case Close =>
      if s.current.Some? {
        DisposedAppend(s.disposed, s.current.value, w, s.current.value.session);
      }
    case Sweep(rows) => SweepFrame(s, rows);
  }

  lemma {:induction false} SweepFrame(s: State, rows: seq<Workspace>)
    ensures var t := SweepRows(s, rows); t == s.(swept := t.swept, sweepArchived := t.sweepArchived)
  {
    if rows != [] {
      SweepFrame(s, rows[..|rows| - 1]);
    }
  }

  lemma StepMovesSession(s: State, a: Action, session: Session)
    requires Enabled(s, a)
    requires a.LaunchReplied? && s.current.Some? ==> s.current.value.session != a.session
    ensures Lives(Next(s, a), session)
            == Lives(s, session) + (if a.LaunchReplied? && a.session == session then 1 else 0)
  {
    if (a.LaunchReplied? || a.Close?) && s.current.Some? {
      DisposedAppend(s.disposed, s.current.value, s.current.value.workspace, session);
    }
    if a.Sweep? {
      SweepFrame(s, a.rows);
    }
  }

  lemma AccountedByAction(s: State, a: Action)
    requires Safe(s) && Enabled(s, a)
    ensures Accounted(Next(s, a))
  {
    var t := Next(s, a);
    if a.Sweep? {
      SweepFrame(s, a.rows);
    }
    if a.LaunchReplied? && s.current.Some? {
      assert Lives(s, s.current.value.session) > 0;
    }
    forall w
      ensures Places(t, w) == if w in t.claimed then 1 else 0
    {
      StepMovesWorkspace(s, a, w);
    }
    forall session
      ensures Lives(t, session) == if session in t.launched then 1 else 0
    {
      StepMovesSession(s, a, session);
    }
  }

  lemma CountedByAction(s: State, a: Action)
    requires Safe(s) && Enabled(s, a)
    ensures Next(s, a).inFlight == CreatingCount(Next(s, a).calls)
  {
    match a
    case Launch => CreatingAppend(s.calls);
    case RowCreated(i, v) => CreatingUpdate(s.calls, i, Created(v));
    case Elsewhere(_) =>
    case CreateReplied(i) => CreatingUpdate(s.calls, i, Launching(s.calls[i].workspace));
    case CreateFailed(i) => CreatingUpdate(s.calls, i, Ended);
    case LaunchReplied(i, _) => CreatingUpdate(s.calls, i, Ended);
    case LaunchFailed(i) => CreatingUpdate(s.calls, i, Ended);
    case Close =>
    case Sweep(rows) => SweepFrame(s, rows);
  }

  lemma ApartByAction(s: State, a: Action)
    requires Safe(s) && Enabled(s, a)
    ensures PendingApart(Next(s, a)) && SweptApart(Next(s, a))
  {
    var t := Next(s, a);
    if a.Sweep? {
      SweepIsSafe(s, a.rows);
      if s.inFlight == 0 {
        forall i | 0 <= i < |s.calls|
          ensures !s.calls[i].Created?
        {
          NoneCreating(s.calls, i);
        }
      }
    } else {
      assert forall i :: 0 <= i < |s.calls| && t.calls[i].Created? && !(a.RowCreated? && a.call == i) ==>
               t.calls[i] == s.calls[i];
    }
  }

  lemma SafeByAction(s: State, a: Action) returns (t: State)
    requires Safe(s) && Enabled(s, a)
    ensures t == Next(s, a) && Safe(t)
  {
    t := Next(s, a);
    AccountedByAction(s, a);
    CountedByAction(s, a);
    ApartByAction(s, a);
  }

  lemma {:induction false} SafeAlongRun(strays: set<Workspace>, states: seq<State>, acts: seq<Action>, n: nat)
    requires IsRun(strays, states, acts) && n <= |acts|
    ensures Safe(states[n])
    decreases n
  {
    if n > 0 {
      SafeAlongRun(strays, states, acts, n - 1);
      var t := SafeByAction(states[n - 1], acts[n - 1]);
    }
  }

  /** Under any interleaving the sweep never archives a workspace whose creation this run saw succeed,
      not even one it will only hear about later, and archives no stray twice. */
  lemma TheSweepSparesOurOwn(strays: set<Workspace>, states: seq<State>, acts: seq<Action>, m: nat, n: nat)
    requires IsRun(strays, states, acts) && m <= |acts| && n <= |acts|
    ensures forall w :: w in states[m].sweepArchived ==> w !in states[n].claimed
    ensures NoRepeats(states[n].sweepArchived)
  {
    var later := if m < n then n else m;
    SafeAlongRun(strays, states, acts, n);
    SafeAlongRun(strays, states, acts, later);
    HistoryGrows(strays, states, acts, m, later);
    HistoryGrows(strays, states, acts, n, later);
  }

  lemma {:induction false} ArchivedGrows(s: State, rows: seq<Workspace>)
    ensures s.sweepArchived <= SweepRows(s, rows).sweepArchived && SweepRows(s, rows).claimed == s.claimed
  {
    if rows != [] {
      ArchivedGrows(s, rows[..|rows| - 1]);
    }
  }

  lemma {:induction false} HistoryGrows(strays: set<Workspace>, states: seq<State>, acts: seq<Action>, m: nat, n: nat)
    requires IsRun(strays, states, acts) && m <= n <= |acts|
    ensures states[m].sweepArchived <= states[n].sweepArchived && states[m].claimed <= states[n].claimed
    decreases n - m
  {
    if m < n {
      HistoryGrows(strays, states, acts, m, n - 1);
      if acts[n - 1].Sweep? {
        ArchivedGrows(states[n - 1], acts[n - 1].rows);
      }
    }
  }

  /** Every launched session is the current one or has been disposed of, exactly once; every workspace
      created by this run is launching, current, disposed of or abandoned, exactly once, and nothing
      else ever is. */
  lemma NothingLeaksAndNothingIsDisposedTwice(strays: set<Workspace>, states: seq<State>, acts: seq<Action>, n: nat,
                                              session: Session, w: Workspace)
    requires IsRun(strays, states, acts) && n <= |acts|
    ensures Lives(states[n], session) == if session in states[n].launched then 1 else 0
    ensures Places(states[n], w) == if w in states[n].claimed then 1 else 0
  {
    SafeAlongRun(strays, states, acts, n);
  }

  /** A launch that fails archives its own workspace, which nothing else has archived or ever will. */
  lemma AFailedLaunchCleansUp(strays: set<Workspace>, states: seq<State>, acts: seq<Action>, k: nat, n: nat)
    requires IsRun(strays, states, acts) && k < n <= |acts| && acts[k].LaunchFailed?
    ensures var w := states[k].calls[acts[k].call].workspace;
            AbandonedOf(states[n].abandoned, w) == 1 && DisposalsOf(states[n].disposed, w) == 0
            && w !in states[n].sweepArchived
  {
    var w := states[k].calls[acts[k].call].workspace;
    SafeAlongRun(strays, states, acts, k);
    SafeAlongRun(strays, states, acts, n);
    LaunchingNow(states[k].calls, acts[k].call);
    assert Places(states[k], w) >= 1;
    AbandonedAppend(states[k].abandoned, w, w);
    AbandonedGrows(strays, states, acts, k + 1, n, w);
    HistoryGrows(strays, states, acts, k, n);
  }

  lemma {:induction false} LaunchingNow(calls: seq<Launch>, i: nat)
    requires i < |calls| && calls[i].Launching?
    ensures LaunchingOf(calls, calls[i].workspace) >= 1
  {
    if i > 0 {
      LaunchingNow(calls[1..], i - 1);
    }
  }

  lemma AbandonedGrowsByAction(s: State, a: Action, w: Workspace)
    requires Enabled(s, a)
    ensures AbandonedOf(s.abandoned, w) <= AbandonedOf(Next(s, a).abandoned, w)
  {
    match a
    case LaunchFailed(i) => AbandonedAppend(s.abandoned, s.calls[i].workspace, w);
    case Sweep(rows) => SweepFrame(s, rows);
    case _ =>
  }

  lemma {:induction false} AbandonedGrows(strays: set<Workspace>, states: seq<State>, acts: seq<Action>, m: nat, n: nat,
                                          w: Workspace)
    requires IsRun(strays, states, acts) && m <= n <= |acts|
    ensures AbandonedOf(states[m].abandoned, w) <= AbandonedOf(states[n].abandoned, w)
    decreases n - m
  {
    if m < n {
      AbandonedGrows(strays, states, acts, m, n - 1, w);
      AbandonedGrowsByAction(states[n - 1], acts[n - 1], w);
    }
  }

  /** With nothing being created, a sweep leaves no stray row unattended. */
  lemma StraysAreCaught(strays: set<Workspace>, states: seq<State>, acts: seq<Action>, n: nat, w: Workspace)
    requires IsRun(strays, states, acts) && n < |acts| && acts[n].Sweep? && w in acts[n].rows
    requires states[n].inFlight == 0
    ensures w in states[n + 1].sweepArchived
            <==> || w in states[n].sweepArchived
                 || (w !in states[n].swept && (states[n].current.Some? ==> states[n].current.value.workspace != w))
  {
    SafeAlongRun(strays, states, acts, n);
    SweepTakesNew(states[n], acts[n].rows, w);
  }

  lemma {:induction false} SweepTakesNew(s: State, rows: seq<Workspace>, w: Workspace)
    ensures SweepRows(s, rows).current == s.current
    ensures w in SweepRows(s, rows).swept <==>
            w in s.swept || (w in rows && !(s.current.Some? && s.current.value.workspace == w))
    ensures w in SweepRows(s, rows).sweepArchived <==>
            w in s.sweepArchived || (w in rows && w !in s.swept && !(s.current.Some? && s.current.value.workspace == w))
  {
    if rows != [] {
      SweepTakesNew(s, rows[..|rows| - 1], w);
      assert rows == rows[..|rows| - 1] + [rows[|rows| - 1]];
    }
  }
}
