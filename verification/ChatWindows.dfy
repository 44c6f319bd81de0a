/** Torn-off chat windows: the label registry and the runs of openings, reports and closings. */
module ChatWindows {
  import opened Options
  import Decimal

  const MAIN := "main"
  const PREFIX := "chat-"

  /** The label of the `n`th torn-off window. */
  function Label(n: nat): string {
    PREFIX + Decimal.Numeral(n)
  }

  predicate IsTornOff(window: string) {
    PREFIX <= window
  }

  /** `is_chat_window`. */
  predicate IsChat(window: string) {
    window == MAIN || IsTornOff(window)
  }

  /** The app's own windows and none of the browser's. */
  lemma AppWindows()
    ensures IsChat("main") && IsChat("chat-3") && !IsChat("browser-abc") && !IsChat("browser-popup-user-1")
    ensures Label(3) == "chat-3" && Label(12) == "chat-12"
  {
    assert PREFIX[0] == 'c' && "browser-abc"[0] == 'b' && "browser-popup-user-1"[0] == 'b';
    assert Decimal.Numeral(3) == "3" && Decimal.Numeral(12) == Decimal.Numeral(1) + "2";
  }

  lemma LabelsDiffer(n: nat, m: nat)
    requires Label(n) == Label(m)
    ensures n == m
  {
    assert Label(n)[|PREFIX|..] == Decimal.Numeral(n) && Label(m)[|PREFIX|..] == Decimal.Numeral(m);
    Decimal.ValueOfNumeral(n);
    Decimal.ValueOfNumeral(m);
  }

  // ---------- The least unused number ----------

  ghost predicate AllTaken(taken: set<string>, n: nat) {
    forall k: nat :: 1 <= k < n ==> Label(k) in taken
  }

  ghost predicate LeastFree(taken: set<string>, n: nat) {
    1 <= n && Label(n) !in taken && AllTaken(taken, n)
  }

  /** Pigeonhole: labels below `n` can only all be taken if that many labels are. */
  lemma {:induction false} TakenAreMany(taken: set<string>, n: nat)
    requires 1 <= n && AllTaken(taken, n)
    ensures n <= |taken| + 1
  {
    if n > 1 {
      var fewer := taken - {Label(n - 1)};
      forall k: nat | 1 <= k < n - 1
        ensures Label(k) in fewer
      {
        if Label(k) == Label(n - 1) {
          LabelsDiffer(k, n - 1);
        }
      }
      TakenAreMany(fewer, n - 1);
    }
  }

  lemma {:induction false} SomeFree(taken: set<string>, n: nat)
    requires 1 <= n && AllTaken(taken, n)
    ensures exists m :: LeastFree(taken, m)
    decreases |taken| + 1 - n
  {
    TakenAreMany(taken, n);
    if Label(n) in taken {
      TakenAreMany(taken, n + 1);
      SomeFree(taken, n + 1);
    } else {
      assert LeastFree(taken, n);
    }
  }

  /** The number `next_label` picks: never more than one above the number of registered windows. */
  ghost function NextNumber(taken: set<string>): (n: nat)
    ensures LeastFree(taken, n) && n <= |taken| + 1
  {
    SomeFree(taken, 1);
    var n :| LeastFree(taken, n);
    TakenAreMany(taken, n);
    n
  }

  lemma LeastFreeIsUnique(taken: set<string>, n: nat)
    requires LeastFree(taken, n)
    ensures NextNumber(taken) == n
  {
  }

  // ---------- The registry ----------

  class ChatWindows {
    var sessionByLabel: map<string, string>

    constructor ()
      ensures sessionByLabel == map[]
    {
      sessionByLabel := map[];
    }

    /** Some window registered for the session, in no particular order. */
    method LabelForSession(session: string) returns (found: Option<string>)
      ensures Found(sessionByLabel, session, found)
    {
      if window :| window in sessionByLabel && sessionByLabel[window] == session {
        found := Some(window);
      } else {
        found := None;
      }
    }

    method Register(window: string, session: string)
      modifies this
      ensures sessionByLabel == old(sessionByLabel)[window := session]
    {
      sessionByLabel := sessionByLabel[window := session];
    }

    method Forget(window: string)
      modifies this
      ensures sessionByLabel == old(sessionByLabel) - {window}
    {
      sessionByLabel := sessionByLabel - {window};
    }

    /** Terminates, and returns the least unused label, at most one above the registered windows. */
    method NextLabel() returns (window: string)
      ensures exists n: nat :: window == Label(n) && LeastFree(sessionByLabel.Keys, n) && n <= |sessionByLabel| + 1
    {
      var taken := sessionByLabel.Keys;
      var n := 1;
      window := Label(n);
      while window in taken
        invariant 1 <= n <= |taken| + 1 && window == Label(n) && AllTaken(taken, n)
        decreases |taken| + 1 - n
      {
        TakenAreMany(taken, n + 1);
        n := n + 1;
        window := Label(n);
      }
      assert LeastFree(taken, n);
    }
  }

  ghost predicate Found(registered: map<string, string>, session: string, found: Option<string>) {
    match found
    case Some(window) => window in registered && registered[window] == session
    case None => forall window :: window in registered ==> registered[window] != session
  }

  lemma SomethingIsFound(registered: map<string, string>, session: string) returns (found: Option<string>)
    ensures Found(registered, session, found)
  {
    if window :| window in registered && registered[window] == session {
      found := Some(window);
    } else {
      found := None;
    }
  }

  // ---------- The windows of the app ----------

  /** `focused` is the app window and `key` the window of any kind that last had focus. */
  datatype Shell = Shell(
    registered: map<string, string>,
    open: set<string>,
    focused: Option<string>,
    key: Option<string>)

  const FRESH := Shell(map[], {MAIN}, None, None)

  datatype Reply = BadSessionId | CreateFailed | Window(name: string)

  /** `found` is the registered window the search came upon, `built` whether the window could be built. */
  datatype Event =
    | OpenSession(session: string, found: Option<string>, built: bool)
    | SetSession(window: string, shown: Option<string>)
    | OpenPopup(window: string)
    | Focused(window: string)
    | Destroyed(window: string)

  predicate IsIdChar(c: char) {
    'a' <= c <= 'z' || 'A' <= c <= 'Z' || '0' <= c <= '9' || c == '-' || c == '_'
  }

  predicate GoodSessionId(session: string) {
    session != "" && forall i :: 0 <= i < |session| ==> IsIdChar(session[i])
  }

  /** The session's own window is still there: bring it forward. */
  predicate Focuses(s: Shell, found: Option<string>) {
    found.Some? && found.value in s.open
  }

  /** A found window that is gone is forgotten before a label is picked. */
  function WithoutStale(s: Shell, found: Option<string>): map<string, string> {
    if found.Some? then s.registered - {found.value} else s.registered
  }

  ghost function Pick(s: Shell, found: Option<string>): string {
    Label(NextNumber(WithoutStale(s, found).Keys))
  }

  /** The platform builds no window under a label in use; only app windows load the renderer and report. */
  ghost predicate Can(s: Shell, e: Event) {
    match e
    case OpenSession(session, found, built) =>
      Found(s.registered, session, found) && (built ==> Focuses(s, found) || Pick(s, found) !in s.open)
    case SetSession(window, _) => window in s.open && IsChat(window)
    case OpenPopup(window) => window !in s.open && !IsChat(window)
    case Focused(window) => window in s.open
    case Destroyed(window) => window in s.open
  }

  function Without(last: Option<string>, window: string): Option<string> {
    if last == Some(window) then None else last
  }

  ghost function Opened(s: Shell, session: string, found: Option<string>, built: bool): (Shell, Reply) {
    if !GoodSessionId(session) then (s, BadSessionId)
    else if Focuses(s, found) then (s, Window(found.value))
    else
      var t := s.(registered := WithoutStale(s, found));
      var window := Pick(s, found);
      if built then (t.(registered := t.registered[window := session], open := t.open + {window}), Window(window))
      else (t, CreateFailed)
  }

  ghost function After(s: Shell, e: Event): Shell {
    match e
    case OpenSession(session, found, built) => Opened(s, session, found, built).0
    case SetSession(window, session) =>
      if window == MAIN then s
      else if session.Some? then s.(registered := s.registered[window := session.value])
      else s.(registered := s.registered - {window})
    case OpenPopup(window) => s.(open := s.open + {window})
    case Focused(window) => s.(key := Some(window), focused := if IsChat(window) then Some(window) else s.focused)
    case Destroyed(window) =>
      var t := s.(open := s.open - {window}, key := Without(s.key, window));
      if !IsChat(window) then t
      else t.(registered := t.registered - {window}, focused := Without(t.focused, window))
  }

  ghost predicate IsRun(states: seq<Shell>, events: seq<Event>) {
    && |states| == |events| + 1
    && states[0] == FRESH
    && forall k :: 0 <= k < |events| ==> Can(states[k], events[k]) && states[k + 1] == After(states[k], events[k])
  }

  /** Registered windows are open torn-off windows, and whatever last had focus is open. */
  ghost predicate Sound(s: Shell) {
    && (forall w :: w in s.registered ==> w in s.open && IsTornOff(w))
    && (s.key.Some? ==> s.key.value in s.open)
    && (s.focused.Some? ==> s.focused.value in s.open && IsChat(s.focused.value))
  }

  lemma SoundAfter(s: Shell, e: Event)
    requires Sound(s) && Can(s, e)
    ensures Sound(After(s, e))
  {
  }

  /** In every run, the registry names only open torn-off windows and the focus records only open ones. */
  lemma {:induction false} TheRegistryNamesOpenWindows(states: seq<Shell>, events: seq<Event>, n: nat)
    requires IsRun(states, events) && n <= |events|
    ensures Sound(states[n])
    decreases n
  {
    if n > 0 {
      TheRegistryNamesOpenWindows(states, events, n - 1);
      SoundAfter(states[n - 1], events[n - 1]);
    }
  }

  // ---------- The registry and what was said ----------

  /** The last that was said of the window: the session it was opened for or, after that, its own latest
      report; nothing if that report was blank. */
  function LastSaid(states: seq<Shell>, events: seq<Event>, n: nat, window: string): Option<string>
    requires |states| == |events| + 1 && n <= |events|
  {
    if n == 0 then None
    else if events[n - 1].SetSession? && events[n - 1].window == window then events[n - 1].shown
    else if events[n - 1].OpenSession? && window in states[n].open && window !in states[n - 1].open
    then Some(events[n - 1].session)
    else LastSaid(states, events, n - 1, window)
  }

  /** What is on record for the window. */
  function OnRecord(s: Shell, window: string): Option<string> {
    if window in s.registered then Some(s.registered[window]) else None
  }

  lemma RecordedByEvent(s: Shell, e: Event, window: string)
    requires Sound(s) && Can(s, e) && window in After(s, e).open && IsTornOff(window)
    ensures OnRecord(After(s, e), window)
            == if e.SetSession? && e.window == window then e.shown
               else if e.OpenSession? && window !in s.open then Some(e.session)
               else OnRecord(s, window)
    ensures window !in s.open ==> e.OpenSession?
  {
  }

  /** In every run, the session on record for an open torn-off window is the last that was said of it. */
  lemma {:induction false} TheRegistryHoldsTheLastWord(states: seq<Shell>, events: seq<Event>, n: nat, window: string)
    requires IsRun(states, events) && n <= |events| && window in states[n].open && IsTornOff(window)
    ensures OnRecord(states[n], window) == LastSaid(states, events, n, window)
    decreases n
  {
    if n > 0 {
      TheRegistryNamesOpenWindows(states, events, n - 1);
      RecordedByEvent(states[n - 1], events[n - 1], window);
      if window in states[n - 1].open {
        TheRegistryHoldsTheLastWord(states, events, n - 1, window);
      }
    }
  }

  /** The window is open, torn off, and by the last that was said of it shows the session. */
  ghost predicate Shows(states: seq<Shell>, events: seq<Event>, n: nat, window: string, session: string)
    requires |states| == |events| + 1 && n <= |events|
  {
    window in states[n].open && IsTornOff(window) && LastSaid(states, events, n, window) == Some(session)
  }

  /** In every run, the windows registered for a session are those that show it. */
  lemma RegisteredMeansShown(states: seq<Shell>, events: seq<Event>, n: nat, window: string, session: string)
    requires IsRun(states, events) && n <= |events|
    ensures Shows(states, events, n, window, session)
            <==> window in states[n].registered && states[n].registered[window] == session
  {
    TheRegistryNamesOpenWindows(states, events, n);
    if window in states[n].open && IsTornOff(window) {
      TheRegistryHoldsTheLastWord(states, events, n, window);
    }
  }

  /** In every run, opening a session that some torn-off window shows brings such a window forward and changes
      nothing; any other session gets a new window of its own, under a label no window has. */
  lemma OpeningDoesNotStackATwin(states: seq<Shell>, events: seq<Event>, n: nat)
    requires IsRun(states, events) && n < |events| && events[n].OpenSession? && GoodSessionId(events[n].session)
    ensures var s, t, e := states[n], states[n + 1], events[n];
            var reply := Opened(s, e.session, e.found, e.built).1;
            if exists w :: Shows(states, events, n, w, e.session)
            then t == s && reply.Window? && Shows(states, events, n, reply.name, e.session)
            else if e.built
            then && reply.Window? && reply.name !in s.open && IsTornOff(reply.name)
                 && Shows(states, events, n + 1, reply.name, e.session)
                 && t == s.(open := s.open + {reply.name}, registered := s.registered[reply.name := e.session])
            else t == s && reply == CreateFailed
  {
    var s, e := states[n], events[n];
    TheRegistryNamesOpenWindows(states, events, n);
    forall w
      ensures Shows(states, events, n, w, e.session) <==> w in s.registered && s.registered[w] == e.session
    {
      RegisteredMeansShown(states, events, n, w, e.session);
    }
    if e.found.Some? {
      assert Shows(states, events, n, e.found.value, e.session);
    } else if e.built {
      var name := Pick(s, e.found);
      assert name !in s.open && states[n + 1].registered[name] == e.session;
      RegisteredMeansShown(states, events, n + 1, name, e.session);
    }
  }

  /** A torn-off window that reported a session is found by that session for as long as it says nothing
      else: opening the session raises a window that shows it. */
  lemma AReportedSessionIsRaised(states: seq<Shell>, events: seq<Event>, k: nat, n: nat, window: string,
                                 session: string)
    requires IsRun(states, events) && k < n < |events| && GoodSessionId(session) && IsTornOff(window)
    requires events[k] == SetSession(window, Some(session)) && events[n].OpenSession? && events[n].session == session
    requires forall j :: k < j < n ==> !(events[j].SetSession? && events[j].window == window)
    requires forall j :: k < j < n ==> events[j] != Destroyed(window)
    ensures states[n + 1] == states[n]
    ensures var reply := Opened(states[n], session, events[n].found, events[n].built).1;
            reply.Window? && Shows(states, events, n, reply.name, session)
  {
    SaidUntil(states, events, k, n, window, session);
    OpeningDoesNotStackATwin(states, events, n);
  }

  lemma {:induction false} SaidUntil(states: seq<Shell>, events: seq<Event>, k: nat, n: nat, window: string,
                                     session: string)
    requires IsRun(states, events) && k < n <= |events| && IsTornOff(window)
    requires events[k] == SetSession(window, Some(session))
    requires forall j :: k < j < n ==> !(events[j].SetSession? && events[j].window == window)
    requires forall j :: k < j < n ==> events[j] != Destroyed(window)
    ensures Shows(states, events, n, window, session)
    decreases n
  {
    if k + 1 < n {
      SaidUntil(states, events, k, n - 1, window, session);
      OpenStays(states[n - 1], events[n - 1], window);
    }
  }

  lemma OpenStays(s: Shell, e: Event, window: string)
    requires Can(s, e) && window in s.open && e != Destroyed(window)
    ensures window in After(s, e).open
  {
  }

  /** Nothing is opened and nothing changed for an id that is empty or has any other character than the
      letters and digits of ASCII, the hyphen and the underscore; every other id gets an answer of another kind. */
  lemma OnlyIdsOpenWindows(s: Shell, session: string, found: Option<string>, built: bool)
    ensures Opened(s, session, found, built).1 == BadSessionId
            <==> session == ""
                 || exists c :: c in session && c != '-' && c != '_' && !('0' <= c <= '9')
                                && !('a' <= c <= 'z') && !('A' <= c <= 'Z')
    ensures Opened(s, session, found, built).1 == BadSessionId ==> Opened(s, session, found, built).0 == s
  {
    if i: nat :| i < |session| && !IsIdChar(session[i]) {
      assert session[i] in session;
    }
  }

  // ---------- The focus records ----------

  /** Event `k` gave the window focus, and no later one moved it or closed the window. */
  ghost predicate LastToFocus(events: seq<Event>, n: nat, window: string, k: nat, chats: bool)
    requires n <= |events|
  {
    && k < n && events[k] == Focused(window) && (chats ==> IsChat(window))
    && forall j :: k < j < n ==> Undisturbed(events[j], window, chats)
  }

  ghost predicate WasLastToFocus(events: seq<Event>, n: nat, window: string, chats: bool)
    requires n <= |events|
  {
    exists k :: LastToFocus(events, n, window, k, chats)
  }

  lemma FocusKept(events: seq<Event>, m: nat, n: nat, window: string, chats: bool)
    requires n == m + 1 <= |events| && !(events[m] == Focused(window) && (chats ==> IsChat(window)))
    ensures WasLastToFocus(events, n, window, chats)
            <==> WasLastToFocus(events, m, window, chats) && Undisturbed(events[m], window, chats)
  {
    if k: nat :| LastToFocus(events, m, window, k, chats) && Undisturbed(events[m], window, chats) {
      assert LastToFocus(events, n, window, k, chats);
    }
    if k: nat :| LastToFocus(events, n, window, k, chats) {
      assert LastToFocus(events, m, window, k, chats);
    }
  }

  /** The event does not close the window, nor focus any that the record follows. */
  predicate Undisturbed(e: Event, window: string, chats: bool) {
    e != Destroyed(window) && (e.Focused? ==> chats && !IsChat(e.window))
  }

  function Record(s: Shell, chats: bool): Option<string> {
    if chats then s.focused else s.key
  }

  lemma RecordAfter(s: Shell, e: Event, window: string, chats: bool)
    requires Sound(s) && Can(s, e)
    ensures Record(After(s, e), chats) == Some(window)
            <==> (e == Focused(window) && (chats ==> IsChat(window)))
                 || (Record(s, chats) == Some(window) && Undisturbed(e, window, chats))
  {
  }

  /** In every run, a focus record names a window if and only if that window was the last to be given focus
      (for the app's record, the last of the app's) and has not been closed since. */
  lemma {:induction false} TheFocusRecordsAreExact(states: seq<Shell>, events: seq<Event>, n: nat, window: string,
                                                   chats: bool)
    requires IsRun(states, events) && n <= |events|
    ensures Record(states[n], chats) == Some(window) <==> WasLastToFocus(events, n, window, chats)
    decreases n
  {
    if n > 0 {
      var s, e := states[n - 1], events[n - 1];
      TheFocusRecordsAreExact(states, events, n - 1, window, chats);
      TheRegistryNamesOpenWindows(states, events, n - 1);
      RecordAfter(s, e, window, chats);
      if e == Focused(window) && (chats ==> IsChat(window)) {
        assert LastToFocus(events, n, window, n - 1, chats);
      } else {
        FocusKept(events, n - 1, n, window, chats);
      }
    }
  }

  /** Opening the same session again right away brings forward the same window. */
  lemma OpeningTwiceIsOpeningOnce(states: seq<Shell>, events: seq<Event>, n: nat)
    requires IsRun(states, events) && n + 1 < |events|
    requires events[n].OpenSession? && events[n + 1].OpenSession? && events[n].session == events[n + 1].session
    requires Opened(states[n], events[n].session, events[n].found, events[n].built).1.Window?
    ensures states[n + 2] == states[n + 1]
    ensures Opened(states[n + 1], events[n + 1].session, events[n + 1].found, events[n + 1].built).1.Window?
  {
    TheRegistryNamesOpenWindows(states, events, n + 1);
    var reply := Opened(states[n], events[n].session, events[n].found, events[n].built).1;
    assert reply.name in states[n + 1].registered && states[n + 1].registered[reply.name] == events[n].session;
    RegisteredMeansShown(states, events, n + 1, reply.name, events[n].session);
    OpeningDoesNotStackATwin(states, events, n + 1);
  }

  /** Closing a window frees its label, and the next opening takes the lowest one free. */
  lemma AFreedLabelIsReused(s: Shell, k: nat)
    requires 1 <= k && Label(k) in s.registered
    ensures var next := NextNumber(s.registered.Keys);
            NextNumber(After(s, Destroyed(Label(k))).registered.Keys) == if k < next then k else next
  {
    var taken, next := s.registered.Keys, NextNumber(s.registered.Keys);
    var fewer := After(s, Destroyed(Label(k))).registered.Keys;
    assert fewer == taken - {Label(k)};
    var m := if k < next then k else next;
    forall j: nat | 1 <= j < m
      ensures Label(j) in fewer
    {
      if Label(j) == Label(k) {
        LabelsDiffer(j, k);
      }
    }
    LeastFreeIsUnique(fewer, m);
  }

  // ---------- When the picked label is in use ----------

  /** Every torn-off window is registered. */
  ghost predicate AllRegistered(s: Shell) {
    forall w :: w in s.open && IsTornOff(w) ==> w in s.registered
  }

  /** No window reports that it shows no chat. */
  predicate NoBlankReport(events: seq<Event>, n: nat)
    requires n <= |events|
  {
    forall k :: 0 <= k < n ==> !(events[k].SetSession? && events[k].shown.None?)
  }

  /** While no window reports an empty selection, the picked label is never in use. */
  lemma {:induction false} LabelsStayDistinct(states: seq<Shell>, events: seq<Event>, n: nat)
    requires IsRun(states, events) && n <= |events| && NoBlankReport(events, n)
    ensures AllRegistered(states[n])
    ensures Label(NextNumber(states[n].registered.Keys)) !in states[n].open
    decreases n
  {
    if n > 0 {
      LabelsStayDistinct(states, events, n - 1);
      TheRegistryNamesOpenWindows(states, events, n - 1);
      AllRegisteredAfter(states[n - 1], events[n - 1]);
    }
    assert IsTornOff(Label(NextNumber(states[n].registered.Keys)));
  }

  lemma AllRegisteredAfter(s: Shell, e: Event)
    requires Sound(s) && AllRegistered(s) && Can(s, e) && !(e.SetSession? && e.shown.None?)
    ensures AllRegistered(After(s, e))
  {
  }

  /** The last that was said of the window is that it shows no chat. */
  predicate LastBlank(states: seq<Shell>, events: seq<Event>, n: nat, window: string)
    requires |states| == |events| + 1 && n <= |events|
  {
    LastSaid(states, events, n, window).None?
  }

  /** In every run, an open torn-off window is unregistered if and only if its last word was blank. */
  lemma UnregisteredMeansBlank(states: seq<Shell>, events: seq<Event>, n: nat, window: string)
    requires IsRun(states, events) && n <= |events| && window in states[n].open && IsTornOff(window)
    ensures window !in states[n].registered <==> LastBlank(states, events, n, window)
  {
    TheRegistryHoldsTheLastWord(states, events, n, window);
  }

  /** Window `k` is open and shows no chat, and every lower-numbered one is open and shows one. */
  ghost predicate FirstBlankAt(states: seq<Shell>, events: seq<Event>, n: nat, k: nat)
    requires |states| == |events| + 1 && n <= |events|
  {
    && 1 <= k && Label(k) in states[n].open && LastBlank(states, events, n, Label(k))
    && forall j: nat :: 1 <= j < k ==> Label(j) in states[n].open && !LastBlank(states, events, n, Label(j))
  }

  /** In every run, the next label is that of an open window if and only if, counting up from one, the first
      number whose window does not show a chat belongs to an open window whose last report was blank. */
  lemma TheNextLabelIsInUseExactly(states: seq<Shell>, events: seq<Event>, n: nat)
    requires IsRun(states, events) && n <= |events|
    ensures Label(NextNumber(states[n].registered.Keys)) in states[n].open
            <==> exists k :: FirstBlankAt(states, events, n, k)
  {
    var s := states[n];
    var next := NextNumber(s.registered.Keys);
    TheRegistryNamesOpenWindows(states, events, n);
    forall j: nat | Label(j) in s.open
      ensures Label(j) !in s.registered <==> LastBlank(states, events, n, Label(j))
    {
      UnregisteredMeansBlank(states, events, n, Label(j));
    }
    if Label(next) in s.open {
      assert FirstBlankAt(states, events, n, next);
    }
    if k: nat :| FirstBlankAt(states, events, n, k) {
      LeastFreeIsUnique(s.registered.Keys, k);
    }
  }

  /** A blank report frees the label of a window that is still open. The next new session is then given
      that very label exactly when every lower label is registered. */
  lemma ABlankReportGivesAwayItsLabel(states: seq<Shell>, events: seq<Event>, n: nat, k: nat)
    requires IsRun(states, events) && n < |events| && NoBlankReport(events, n) && 1 <= k
    requires events[n] == SetSession(Label(k), None)
    ensures Label(NextNumber(states[n + 1].registered.Keys)) in states[n + 1].open
            <==> forall j: nat :: 1 <= j < k ==> Label(j) in states[n].open
  {
    var s, t := states[n], states[n + 1];
    LabelsStayDistinct(states, events, n);
    TheRegistryNamesOpenWindows(states, events, n);
    assert s.open == t.open && Label(k) in s.open && IsTornOff(Label(k)) && Label(k) != MAIN;
    assert Label(k) in s.registered;
    assert t == After(s, Destroyed(Label(k))).(open := s.open, key := s.key, focused := s.focused);
    AFreedLabelIsReused(s, k);
    var next := NextNumber(s.registered.Keys);
    forall j: nat | 1 <= j < k && k < next
      ensures Label(j) in s.open
    {
      assert Label(j) in s.registered;
    }
    if k > next {
      assert Label(next) !in s.open;
    }
  }

  /** A picked label that is in use stays so: from then on every attempt to open a new session fails. */
  lemma {:induction false} BlockedUntilAWindowMoves(states: seq<Shell>, events: seq<Event>, n: nat, m: nat)
    requires IsRun(states, events) && n <= m < |events|
    requires Label(NextNumber(states[n].registered.Keys)) in states[n].open
    requires forall k :: n <= k <= m ==> events[k].OpenSession?
    ensures states[m + 1] == states[n]
    ensures GoodSessionId(events[m].session) && events[m].session !in states[n].registered.Values ==>
              Opened(states[m], events[m].session, events[m].found, events[m].built).1 == CreateFailed
    decreases m - n
  {
    if m > n {
      BlockedUntilAWindowMoves(states, events, n, m - 1);
    }
    TheRegistryNamesOpenWindows(states, events, m);
    BlockedByOpening(states[m], events[m].session, events[m].found, events[m].built);
  }

  lemma BlockedByOpening(s: Shell, session: string, found: Option<string>, built: bool)
    requires Sound(s) && Can(s, OpenSession(session, found, built))
    requires Label(NextNumber(s.registered.Keys)) in s.open
    ensures Opened(s, session, found, built).0 == s
    ensures GoodSessionId(session) && session !in s.registered.Values ==>
              Opened(s, session, found, built).1 == CreateFailed
  {
    assert found.None? ==> Pick(s, found) in s.open;
  }

  /** It happens with one torn-off window whose chat was just closed. */
  lemma ABlankWindowBlocksTheNext(session: string)
    requires GoodSessionId(session)
    ensures exists states: seq<Shell>, events: seq<Event> :: IsRun(states, events) && |events| == 2
              && Label(NextNumber(states[2].registered.Keys)) in states[2].open
  {
    var open := OpenSession(session, None, true);
    var taken: set<string> := {};
    assert FRESH.registered.Keys == taken && AllTaken(taken, 1) && LeastFree(taken, 1);
    LeastFreeIsUnique(taken, 1);
    var one := Label(1);
    assert IsTornOff(one) && !IsTornOff(MAIN);
    assert Pick(FRESH, None) == one && one !in FRESH.open;
    var s1 := After(FRESH, open);
    assert s1.registered == map[one := session] && s1.open == {MAIN, one};
    var s2 := After(s1, SetSession(one, None));
    assert s2.registered == map[] && s2.registered.Keys == taken;
    var states, events := [FRESH, s1, s2], [open, SetSession(one, None)];
    assert IsRun(states, events);
  }

  // ---------- The shell, step by step ----------

  class WindowShell {
    const chats: ChatWindows
    var open: set<string>
    var focused: Option<string>
    var key: Option<string>

    ghost function State(): Shell
      reads this, chats
    {
      Shell(chats.sessionByLabel, open, focused, key)
    }

    constructor ()
      ensures State() == FRESH && fresh(chats)
    {
      chats := new ChatWindows();
      open := {MAIN};
      focused, key := None, None;
    }

    /** `canBuild` is whether the platform would build a window under an unused label. */
    method Open(session: string, canBuild: bool) returns (reply: Reply)
      modifies this, chats
      ensures exists found, built ::
                && Can(old(State()), OpenSession(session, found, built))
                && (State(), reply) == Opened(old(State()), session, found, built)
    {
      ghost var s := State();
      if session == "" || exists i :: 0 <= i < |session| && !IsIdChar(session[i]) {
        ghost var any := SomethingIsFound(s.registered, session);
        assert Can(s, OpenSession(session, any, false));
        return BadSessionId;
      }
      var found := chats.LabelForSession(session);
      if found.Some? {
        if found.value in open {
          assert Can(s, OpenSession(session, found, false));
          return Window(found.value);
        }
        chats.Forget(found.value);
      }
      ghost var t := State();
      var window := chats.NextLabel();
      ghost var n: nat :| window == Label(n) && LeastFree(t.registered.Keys, n);
      LeastFreeIsUnique(t.registered.Keys, n);
      assert t.registered == WithoutStale(s, found) && window == Pick(s, found);
      var built := canBuild && window !in open;
      assert Can(s, OpenSession(session, found, built));
      if !built {
        return CreateFailed;
      }
      open := open + {window};
      chats.Register(window, session);
      return Window(window);
    }

    method Report(window: string, session: Option<string>)
      requires window in open && IsChat(window)
      modifies chats
      ensures State() == After(old(State()), SetSession(window, session))
    {
      if window != MAIN {
        match session
        case Some(id) => chats.Register(window, id);
        case None => chats.Forget(window);
      }
    }

    method OnFocused(window: string)
      requires window in open
      modifies this
      ensures State() == After(old(State()), Focused(window))
    {
      key := Some(window);
      if IsChat(window) {
        focused := Some(window);
      }
    }

    /** Closing the main window asks every other app window to close. */
    method OnDestroyed(window: string) returns (closing: set<string>)
      requires window in open
      modifies this, chats
      ensures State() == After(old(State()), Destroyed(window))
      ensures closing == if window == MAIN then set w | w in open && IsTornOff(w) else {}
    {
      open := open - {window};
      closing := {};
      if key == Some(window) {
        key := None;
      }
      if !IsChat(window) {
        return;
      }
      chats.Forget(window);
      if focused == Some(window) {
        focused := None;
      }
      if window == MAIN {
        closing := set w | w in open && IsChat(w) && w != MAIN;
      }
    }
  }
}
