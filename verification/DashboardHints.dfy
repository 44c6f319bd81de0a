/** What a `dashboard:delta` says, before and after `DashboardDelivery::send` slims it.

    A producer hands over full rows; the delivery queue carries only invalidation hints.
    A sorted, deduplicated id list is represented by the set of its ids. */
module DashboardHints {
  import opened Options

  /** A timeline event: only its owner and its kind matter to delivery. */
  datatype Event = Event(id: string, sessionId: string, kind: string)

  /** A row that names the session it belongs to. */
  datatype RawOutput = RawOutput(id: string, sessionId: string)

  datatype DashboardDelta = DashboardDelta(
    projects: seq<string>,
    workspaces: seq<string>,
    sessions: seq<string>,
    events: seq<Event>,
    rawOutputs: seq<RawOutput>,
    approvals: seq<string>,
    pendingMessages: Option<map<string, seq<string>>>,
    removedSessionIds: seq<string>,
    removedWorkspaceIds: seq<string>,
    changedSessionIds: seq<string>,
    goalChangedIds: seq<string>,
    dashboardChanged: bool,
    resyncRequired: bool)

  /** The slim form: every row is gone, its invalidation remains. */
  datatype Hint = Hint(
    changedSessionIds: set<string>,
    goalChangedIds: set<string>,
    moves: seq<Event>,
    dashboardChanged: bool,
    resyncRequired: bool)

  const SESSION_MOVED := "session.moved"

  /** The marker that replaces an overflowed window. */
  const MARKER := Hint({}, {}, [], true, true)

  /** A delta that makes a reader reload everything, its dashboard included. */
  predicate IsResync(h: Hint) {
    h.resyncRequired && h.dashboardChanged
  }

  function Moves(events: seq<Event>): (moves: seq<Event>)
    ensures forall e :: e in moves <==> e in events && e.kind == "session.moved"
    ensures |moves| <= |events|
  {
    if |events| == 0 then []
    else if events[0].kind == SESSION_MOVED then [events[0]] + Moves(events[1..])
    else Moves(events[1..])
  }

  function Ids(ids: seq<string>): set<string> {
    set id | id in ids
  }

  function EventSessions(events: seq<Event>): set<string> {
    set e | e in events :: e.sessionId
  }

  function OutputSessions(outputs: seq<RawOutput>): set<string> {
    set r | r in outputs :: r.sessionId
  }

  /** `send` up to the point where the delta is sized. */
  function Slim(d: DashboardDelta): Hint {
    Hint(
      Ids(d.changedSessionIds) + EventSessions(d.events) + OutputSessions(d.rawOutputs) + Ids(d.sessions),
      Ids(d.goalChangedIds),
      Moves(d.events),
      d.dashboardChanged
      || |d.projects| > 0 || |d.workspaces| > 0 || |d.sessions| > 0 || |d.approvals| > 0
      || d.pendingMessages.Some? || |d.removedSessionIds| > 0 || |d.removedWorkspaceIds| > 0,
      d.resyncRequired)
  }

  /** `DashboardDelta::merge_from` on full deltas. */
  function MergeFrom(a: DashboardDelta, b: DashboardDelta): DashboardDelta {
    DashboardDelta(
      a.projects + b.projects,
      a.workspaces + b.workspaces,
      a.sessions + b.sessions,
      a.events + b.events,
      a.rawOutputs + b.rawOutputs,
      a.approvals + b.approvals,
      (match (a.pendingMessages, b.pendingMessages)
       case (_, None) => a.pendingMessages
       case (None, Some(_)) => b.pendingMessages
       case (Some(earlier), Some(incoming)) => Some(earlier + incoming)),
      a.removedSessionIds + b.removedSessionIds,
      a.removedWorkspaceIds + b.removedWorkspaceIds,
      a.changedSessionIds + b.changedSessionIds,
      a.goalChangedIds + b.goalChangedIds,
      a.dashboardChanged || b.dashboardChanged,
      a.resyncRequired || b.resyncRequired)
  }

  /** `merge_from` on slimmed deltas, which is all the worker ever merges. */
  function Merge(a: Hint, b: Hint): Hint {
    Hint(a.changedSessionIds + b.changedSessionIds,
         a.goalChangedIds + b.goalChangedIds,
         a.moves + b.moves,
         a.dashboardChanged || b.dashboardChanged,
         a.resyncRequired || b.resyncRequired)
  }

  /** `e` tells a reader everything `h` tells it: the moves appear together and in order. */
  ghost predicate Covers(e: Hint, h: Hint) {
    && h.changedSessionIds <= e.changedSessionIds
    && h.goalChangedIds <= e.goalChangedIds
    && (exists before, after :: e.moves == before + h.moves + after)
    && (h.dashboardChanged ==> e.dashboardChanged)
    && (h.resyncRequired ==> e.resyncRequired)
  }

  lemma {:induction false} MovesConcat(a: seq<Event>, b: seq<Event>)
    ensures Moves(a + b) == Moves(a) + Moves(b)
  {
    if a == [] {
      assert a + b == b;
    } else {
      assert (a + b)[1..] == a[1..] + b;
      MovesConcat(a[1..], b);
    }
  }

  lemma SessionSetsConcat(a: DashboardDelta, b: DashboardDelta)
    ensures Ids(a.changedSessionIds + b.changedSessionIds) == Ids(a.changedSessionIds) + Ids(b.changedSessionIds)
    ensures Ids(a.sessions + b.sessions) == Ids(a.sessions) + Ids(b.sessions)
    ensures Ids(a.goalChangedIds + b.goalChangedIds) == Ids(a.goalChangedIds) + Ids(b.goalChangedIds)
    ensures EventSessions(a.events + b.events) == EventSessions(a.events) + EventSessions(b.events)
    ensures OutputSessions(a.rawOutputs + b.rawOutputs) == OutputSessions(a.rawOutputs) + OutputSessions(b.rawOutputs)
  {
  }

  lemma SlimSessionsCommute(a: DashboardDelta, b: DashboardDelta)
    ensures Slim(MergeFrom(a, b)).changedSessionIds == Slim(a).changedSessionIds + Slim(b).changedSessionIds
    ensures Slim(MergeFrom(a, b)).goalChangedIds == Slim(a).goalChangedIds + Slim(b).goalChangedIds
  {
    SessionSetsConcat(a, b);
    UnionsMix(Ids(a.changedSessionIds), Ids(b.changedSessionIds), EventSessions(a.events), EventSessions(b.events),
              OutputSessions(a.rawOutputs), OutputSessions(b.rawOutputs), Ids(a.sessions), Ids(b.sessions));
  }

  lemma UnionsMix<T>(p: set<T>, q: set<T>, r: set<T>, s: set<T>, t: set<T>, u: set<T>, v: set<T>, w: set<T>)
    ensures (p + q) + (r + s) + (t + u) + (v + w) == (p + r + t + v) + (q + s + u + w)
  {
  }

  lemma SlimFlagCommutes(a: DashboardDelta, b: DashboardDelta)
    ensures Slim(MergeFrom(a, b)).dashboardChanged == (Slim(a).dashboardChanged || Slim(b).dashboardChanged)
  {
  }

  /** Slimming commutes with conflation: the worker may merge slim deltas and lose nothing that
      slimming the merged full delta would have kept. */
  lemma SlimCommutesWithMerge(a: DashboardDelta, b: DashboardDelta)
    ensures Slim(MergeFrom(a, b)) == Merge(Slim(a), Slim(b))
  {
    MovesConcat(a.events, b.events);
    SlimSessionsCommute(a, b);
    SlimFlagCommutes(a, b);
  }

  /** A session is named by the slim delta exactly when some row of the original concerned it, a goal exactly
      when the original named it, and a move survives exactly when it was there. The dashboard flag is up
      exactly when it was, or some row went with it. */
  lemma SlimKeepsEveryInvalidation(d: DashboardDelta, id: string, e: Event)
    ensures id in Slim(d).changedSessionIds <==>
            || id in d.changedSessionIds || id in d.sessions
            || (exists k :: 0 <= k < |d.events| && d.events[k].sessionId == id)
            || (exists k :: 0 <= k < |d.rawOutputs| && d.rawOutputs[k].sessionId == id)
    ensures e in Slim(d).moves <==> e in d.events && e.kind == SESSION_MOVED
    ensures e in Slim(d).moves ==> e.sessionId in Slim(d).changedSessionIds
    ensures id in Slim(d).goalChangedIds <==> id in d.goalChangedIds
    ensures Slim(d).dashboardChanged <==>
            || d.dashboardChanged || d.pendingMessages.Some?
            || |d.projects| + |d.workspaces| + |d.sessions| + |d.approvals| > 0
            || |d.removedSessionIds| + |d.removedWorkspaceIds| > 0
    ensures Slim(d).resyncRequired <==> d.resyncRequired
  {
    if id in Slim(d).changedSessionIds && id !in d.changedSessionIds && id !in d.sessions {
      if x :| x in d.events && x.sessionId == id {
        var k :| 0 <= k < |d.events| && d.events[k] == x;
      } else {
        var r :| r in d.rawOutputs && r.sessionId == id;
        var k :| 0 <= k < |d.rawOutputs| && d.rawOutputs[k] == r;
      }
    }
  }

  /** A merge says what its two sides say and nothing else, moves of the earlier delta first. */
  lemma MergeSaysJust(a: Hint, b: Hint, id: string, k: nat)
    ensures id in Merge(a, b).changedSessionIds <==> id in a.changedSessionIds || id in b.changedSessionIds
    ensures id in Merge(a, b).goalChangedIds <==> id in a.goalChangedIds || id in b.goalChangedIds
    ensures |Merge(a, b).moves| == |a.moves| + |b.moves|
    ensures k < |a.moves| ==> Merge(a, b).moves[k] == a.moves[k]
    ensures k < |b.moves| ==> Merge(a, b).moves[|a.moves| + k] == b.moves[k]
    ensures Merge(a, b).dashboardChanged <==> a.dashboardChanged || b.dashboardChanged
    ensures Merge(a, b).resyncRequired <==> a.resyncRequired || b.resyncRequired
  {
  }

  /** Rows keep arrival order when full deltas are conflated, so a reader that keeps the last row of an id
      keeps the newer one; a session's pending messages are the later snapshot. */
  lemma LaterRowsComeLast(a: DashboardDelta, b: DashboardDelta, session: string)
    ensures var m := MergeFrom(a, b);
            && Follows(m.projects, a.projects, b.projects) && Follows(m.workspaces, a.workspaces, b.workspaces)
            && Follows(m.sessions, a.sessions, b.sessions) && Follows(m.events, a.events, b.events)
            && Follows(m.rawOutputs, a.rawOutputs, b.rawOutputs) && Follows(m.approvals, a.approvals, b.approvals)
            && Follows(m.removedSessionIds, a.removedSessionIds, b.removedSessionIds)
            && Follows(m.removedWorkspaceIds, a.removedWorkspaceIds, b.removedWorkspaceIds)
    ensures PendingFor(MergeFrom(a, b), session)
            == if PendingFor(b, session).Some? then PendingFor(b, session) else PendingFor(a, session)
    ensures MergeFrom(a, b).pendingMessages.Some? <==> a.pendingMessages.Some? || b.pendingMessages.Some?
  {
  }

  /** `all` is what came `first`, then what came `later`. */
  predicate Follows<T(==)>(all: seq<T>, first: seq<T>, later: seq<T>) {
    |all| == |first| + |later| && first <= all && all[|first|..] == later
  }

  function PendingFor(d: DashboardDelta, session: string): Option<seq<string>> {
    if d.pendingMessages.Some? && session in d.pendingMessages.value then Some(d.pendingMessages.value[session])
    else None
  }

  /** A merge covers both of its sides. */
  lemma MergeCovers(a: Hint, b: Hint)
    ensures Covers(Merge(a, b), a) && Covers(Merge(a, b), b)
  {
    assert Merge(a, b).moves == [] + a.moves + b.moves;
    assert Merge(a, b).moves == a.moves + b.moves + [];
  }

  lemma CoversTransitive(a: Hint, b: Hint, c: Hint)
    requires Covers(a, b) && Covers(b, c)
    ensures Covers(a, c)
  {
    var x, y :| a.moves == x + b.moves + y;
    var u, v :| b.moves == u + c.moves + v;
    assert a.moves == (x + u) + c.moves + (v + y);
  }
}
