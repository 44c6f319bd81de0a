/** The renderer's side of the details popup as imperative code: three refs and the blocks between awaits. */
module DetailsPopupOwner {
  import opened Options
  import opened DetailsPopup

  /** A workspace row of a dashboard snapshot. */
  datatype Row = Row(id: Workspace, isPopup: bool, isArchived: bool)

  /** The rows the sweep looks at. */
  function LivePopups(rows: seq<Row>): seq<Workspace> {
    if |rows| == 0 then []
    else
      var last := rows[|rows| - 1];
      LivePopups(rows[..|rows| - 1]) + (if last.isPopup && !last.isArchived then [last.id] else [])
  }

  /** A row of the list names the workspace as a popup's that is not archived. */
  ghost predicate IsStrayRow(rows: seq<Row>, w: Workspace) {
    exists k :: 0 <= k < |rows| && rows[k].id == w && rows[k].isPopup && !rows[k].isArchived
  }

  lemma {:induction false} LivePopupsExactly(rows: seq<Row>, w: Workspace)
    ensures w in LivePopups(rows) <==> IsStrayRow(rows, w)
  {
    if |rows| > 0 {
      var front, last := rows[..|rows| - 1], rows[|rows| - 1];
      LivePopupsExactly(front, w);
      assert IsStrayRow(rows, w) <==> IsStrayRow(front, w) || (last.id == w && last.isPopup && !last.isArchived);
    }
  }

  class Owner {
    var detailsPopup: Option<Popup>
    var sweptIds: set<Workspace>
    var creationsInFlight: nat

    /** The whole system; archives and disposals are recorded there. */
    ghost var sys: State

    ghost predicate Valid()
      reads this
    {
      Safe(sys) && detailsPopup == sys.current && sweptIds == sys.swept && creationsInFlight == sys.inFlight
    }

    constructor (ghost strays: set<Workspace>)
      ensures Valid() && sys == Fresh(strays)
    {
      detailsPopup, sweptIds, creationsInFlight, sys := None, {}, 0, Fresh(strays);
    }

    /** A launch up to its first await. */
    method BeginLaunch()
      requires Valid()
      modifies this
      ensures Valid() && sys == Next(old(sys), DetailsPopup.Action.Launch)
    {
      ghost var next := SafeByAction(sys, DetailsPopup.Action.Launch);
      creationsInFlight := creationsInFlight + 1;
      sys := next;
    }

    /** The creation replied: claim the id before the sweep may resume. */
    method OnCreated(ghost call: nat, workspace: Workspace)
      requires Valid() && call < |sys.calls| && sys.calls[call] == Created(workspace) && creationsInFlight > 0
      modifies this
      ensures Valid() && sys == Next(old(sys), CreateReplied(call)) && workspace in sweptIds
    {
      ghost var next := SafeByAction(sys, CreateReplied(call));
      sweptIds := sweptIds + {workspace};
      creationsInFlight := creationsInFlight - 1;
      sys := next;
    }

    method OnCreateFailed(ghost call: nat)
      requires Valid() && Enabled(sys, CreateFailed(call))
      modifies this
      ensures Valid() && sys == Next(old(sys), CreateFailed(call))
    {
      ghost var next := SafeByAction(sys, CreateFailed(call));
      creationsInFlight := creationsInFlight - 1;
      sys := next;
    }

    /** The launch replied: dispose of the popup it replaces. */
    method OnLaunched(ghost call: nat, workspace: Workspace, session: Session) returns (disposed: Option<Popup>)
      requires Valid() && Enabled(sys, LaunchReplied(call, session)) && sys.calls[call] == Launching(workspace)
      modifies this
      ensures Valid() && sys == Next(old(sys), LaunchReplied(call, session))
      ensures disposed == old(detailsPopup) && detailsPopup == Some(Popup(workspace, session))
    {
      ghost var next := LaunchStep(sys, call, session);
      var previous := detailsPopup;
      disposed := None;
      if previous.Some? && previous.value.session != session {
        disposed := previous;
      }
      detailsPopup := Some(Popup(workspace, session));
      sys := next;
    }

    /** The launch failed: archive the claimed workspace, which the sweep will never touch. */
    method OnLaunchFailed(ghost call: nat, workspace: Workspace) returns (archived: Workspace)
      requires Valid() && Enabled(sys, LaunchFailed(call)) && sys.calls[call] == Launching(workspace)
      modifies this
      ensures Valid() && sys == Next(old(sys), LaunchFailed(call))
      ensures sys.abandoned == old(sys.abandoned) + [archived] && archived in sweptIds
    {
      sys := FailStep(sys, call, workspace);
      archived := workspace;
    }

    method OnClose() returns (disposed: Option<Popup>)
      requires Valid()
      modifies this
      ensures Valid() && sys == Next(old(sys), Close)
      ensures disposed == old(detailsPopup) && detailsPopup.None?
    {
      ghost var next := SafeByAction(sys, Close);
      disposed := detailsPopup;
      detailsPopup := None;
      sys := next;
    }

    /** The sweep effect: with no creation in flight it archives, once each, the live popup rows that are
        neither current nor swept before, and none of them was ever claimed. */
    method OnSweep(rows: seq<Row>) returns (archived: seq<Workspace>)
      requires Valid() && forall w :: IsStrayRow(rows, w) ==> w in sys.known
      modifies this
      ensures Enabled(old(sys), Sweep(LivePopups(rows)))
      ensures Valid() && sys == Next(old(sys), Sweep(LivePopups(rows)))
      ensures old(creationsInFlight) > 0 ==> archived == [] && sweptIds == old(sweptIds)
      ensures old(creationsInFlight) == 0 ==>
                forall w :: w in archived <==> IsStrayRow(rows, w) && w !in old(sweptIds)
                                               && !(detailsPopup.Some? && detailsPopup.value.workspace == w)
      ensures NoRepeats(archived) && detailsPopup == old(detailsPopup)
      ensures sys.sweepArchived == old(sys.sweepArchived) + archived
      ensures forall w :: w in archived ==> w !in sys.claimed && w !in old(sweptIds)
    {
      forall w
        ensures w in LivePopups(rows) <==> IsStrayRow(rows, w)
      {
        LivePopupsExactly(rows, w);
      }
      ghost var next := SafeByAction(sys, Sweep(LivePopups(rows)));
      archived := [];
      if creationsInFlight > 0 {
        return;
      }
      ghost var start := sys;
      SweepFrame(start, LivePopups(rows));
      archived := SweepLive(start, rows);
      sys := next;
      OnlyStraysArchived(start, LivePopups(rows), archived);
    }

    /** The sweep's loop: archives each live popup row that is neither current nor already swept. */
    method SweepLive(ghost start: State, rows: seq<Row>) returns (archived: seq<Workspace>)
      requires detailsPopup == start.current && sweptIds == start.swept
      modifies this`sweptIds
      ensures var done := SweepRows(start, LivePopups(rows));
              sweptIds == done.swept && done.sweepArchived == start.sweepArchived + archived
    {
      archived := [];
      NothingSwept(start, rows);
      for i := 0 to |rows|
        invariant var done := SweepRows(start, LivePopups(rows[..i]));
                  sweptIds == done.swept && done.sweepArchived == start.sweepArchived + archived
      {
        var row := rows[i];
        SweepStep(start, rows, i);
        if row.isPopup && !row.isArchived {
          if !(detailsPopup.Some? && detailsPopup.value.workspace == row.id) && row.id !in sweptIds {
            sweptIds := sweptIds + {row.id};
            archived := archived + [row.id];
          }
        }
      }
      assert rows[..|rows|] == rows;
    }
  }

  /** A launch reply, and why it never names the session that is current. */
  lemma LaunchStep(s: State, call: nat, session: Session) returns (t: State)
    requires Safe(s) && Enabled(s, LaunchReplied(call, session))
    ensures t == Next(s, LaunchReplied(call, session)) && Safe(t)
    ensures t.current == Some(Popup(s.calls[call].workspace, session)) && t.swept == s.swept && t.inFlight == s.inFlight
    ensures s.current.Some? ==> s.current.value.session != session
  {
    t := SafeByAction(s, LaunchReplied(call, session));
    if s.current.Some? {
      assert Lives(s, s.current.value.session) > 0;
    }
  }

  /** A failed launch, whose workspace was claimed when its creation replied. */
  lemma FailStep(s: State, call: nat, workspace: Workspace) returns (t: State)
    requires Safe(s) && Enabled(s, LaunchFailed(call)) && s.calls[call] == Launching(workspace)
    ensures t == Next(s, LaunchFailed(call)) && Safe(t) && workspace in t.swept
    ensures t.current == s.current && t.swept == s.swept && t.inFlight == s.inFlight
    ensures t.abandoned == s.abandoned + [workspace]
  {
    t := SafeByAction(s, LaunchFailed(call));
    LaunchingNow(s.calls, call);
    assert Places(s, workspace) >= 1;
  }

  lemma NothingSwept(start: State, rows: seq<Row>)
    ensures SweepRows(start, LivePopups(rows[..0])) == start
  {
  }

  lemma SweepStep(start: State, rows: seq<Row>, i: nat)
    requires i < |rows|
    ensures SweepRows(start, LivePopups(rows[..i + 1]))
            == if rows[i].isPopup && !rows[i].isArchived
               then SweepRow(SweepRows(start, LivePopups(rows[..i])), rows[i].id)
               else SweepRows(start, LivePopups(rows[..i]))
    ensures SweepRows(start, LivePopups(rows[..i])).current == start.current
  {
    assert rows[..i + 1][..i] == rows[..i] && rows[..i + 1][i] == rows[i];
    var before := LivePopups(rows[..i]);
    SweepFrame(start, before);
    if rows[i].isPopup && !rows[i].isArchived {
      var after := before + [rows[i].id];
      assert LivePopups(rows[..i + 1]) == after;
      assert after[..|after| - 1] == before;
    } else {
      assert LivePopups(rows[..i + 1]) == before + [] == before;
    }
  }

  lemma OnlyStraysArchived(start: State, rows: seq<Workspace>, archived: seq<Workspace>)
    requires Safe(start) && start.inFlight == 0 && forall w :: w in rows ==> w in start.known
    requires SweepRows(start, rows).sweepArchived == start.sweepArchived + archived
    ensures forall w :: w in archived ==> w !in start.claimed && w !in start.swept
    ensures forall w :: w in archived <==> w in rows && w !in start.swept
                                           && !(start.current.Some? && start.current.value.workspace == w)
    ensures NoRepeats(archived)
  {
    var done := SweepRows(start, rows);
    SweepIsSafe(start, rows);
    ArchivedSince(start, rows, archived);
    forall k | 0 <= k < |archived|
      ensures archived[k] !in start.claimed && archived[k] !in start.swept
    {
      var w := archived[k];
      SweepTakesNew(start, rows, w);
      assert done.sweepArchived[|start.sweepArchived| + k] == w;
      assert w in done.sweepArchived;
      forall j | 0 <= j < |start.sweepArchived|
        ensures start.sweepArchived[j] != w
      {
        assert done.sweepArchived[j] == start.sweepArchived[j];
      }
    }
  }

  lemma ArchivedSince(start: State, rows: seq<Workspace>, archived: seq<Workspace>)
    requires SweptApart(start) && SweptApart(SweepRows(start, rows))
    requires SweepRows(start, rows).sweepArchived == start.sweepArchived + archived
    ensures forall w :: w in archived <==> w in rows && w !in start.swept
                                           && !(start.current.Some? && start.current.value.workspace == w)
    ensures NoRepeats(archived)
  {
    var all := start.sweepArchived + archived;
    assert forall j :: 0 <= j < |archived| ==> all[|start.sweepArchived| + j] == archived[j];
    forall w
      ensures w in archived <==> w in rows && w !in start.swept
                                 && !(start.current.Some? && start.current.value.workspace == w)
    {
      SweepTakesNew(start, rows, w);
      assert forall i :: 0 <= i < |start.sweepArchived| ==> all[i] == start.sweepArchived[i];
    }
  }
}
