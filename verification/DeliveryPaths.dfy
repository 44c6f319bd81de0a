/** Paths of the delivery protocol: what undisturbed calls and worker steps amount to. */
module DeliveryPaths {
  import opened Options
  import opened DashboardHints
  import opened DeliveryProtocol

  /** `acts` lead from `s` to `t`. */
  ghost predicate Path(s: State, acts: seq<Action>, t: State)
    decreases |acts|
  {
    if |acts| == 0 then s == t else Enabled(s, acts[0]) && Path(Next(s, acts[0]), acts[1..], t)
  }

  lemma {:induction false} PathConcat(s: State, a: seq<Action>, t: State, b: seq<Action>, u: State)
    requires Path(s, a, t) && Path(t, b, u)
    ensures Path(s, a + b, u)
    decreases |a|
  {
    if a == [] {
      assert a + b == b;
    } else {
      assert (a + b)[1..] == a[1..] + b;
      PathConcat(Next(s, a[0]), a[1..], t, b, u);
    }
  }

  ghost predicate Reaches(s: State, t: State) {
    exists acts :: Path(s, acts, t)
  }

  lemma ReachesSelf(s: State)
    ensures Reaches(s, s)
  {
    assert Path(s, [], s);
  }

  lemma ReachesStep(s: State, t: State, a: Action)
    requires Reaches(s, t) && Enabled(t, a)
    ensures Reaches(s, Next(t, a))
  {
    var acts :| Path(s, acts, t);
    assert Path(Next(t, a), [], Next(t, a));
    assert Path(t, [a], Next(t, a));
    PathConcat(s, acts, t, [a], Next(t, a));
  }

  lemma ReachesTransitive(s: State, t: State, u: State)
    requires Reaches(s, t) && Reaches(t, u)
    ensures Reaches(s, u)
  {
    var a :| Path(s, a, t);
    var b :| Path(t, b, u);
    PathConcat(s, a, t, b, u);
  }

  /** A path from the fresh state is a run. */
  lemma {:induction false} PathExtendsRun(states: seq<State>, done: seq<Action>, acts: seq<Action>, t: State)
    returns (all: seq<State>)
    requires IsRun(states, done) && Path(states[|done|], acts, t)
    ensures IsRun(all, done + acts) && all[|done + acts|] == t && states <= all
    decreases |acts|
  {
    if acts == [] {
      assert done + acts == done;
      all := states;
    } else {
      var next := Next(states[|done|], acts[0]);
      assert IsRun(states + [next], done + [acts[0]]);
      assert (done + [acts[0]]) + acts[1..] == done + acts;
      all := PathExtendsRun(states + [next], done + [acts[0]], acts[1..], t);
    }
  }

  lemma ReachedByRun(t: State)
    requires Reaches(INIT, t)
    ensures exists states, acts :: IsRun(states, acts) && states[|acts|] == t
  {
    var acts :| Path(INIT, acts, t);
    var states := PathExtendsRun([INIT], [], acts, t);
    assert [] + acts == acts;
  }

  lemma RunThrough(t: State, u: State)
    requires Reaches(INIT, t) && Reaches(t, u)
    ensures exists states, acts, m: nat ::
              IsRun(states, acts) && m <= |acts| && states[m] == t && states[|acts|] == u
  {
    var a :| Path(INIT, a, t);
    var b :| Path(t, b, u);
    var states := PathExtendsRun([INIT], [], a, t);
    assert [] + a == a;
    var all := PathExtendsRun(states, a, b, u);
    assert all[|a|] == t && all[|a + b|] == u;
  }

  // ---------- Calls and worker steps that run undisturbed ----------

  lemma Step(s: State, t: State, a: Action) returns (u: State)
    requires Reaches(s, t) && Enabled(t, a)
    ensures u == Next(t, a) && Reaches(s, u)
  {
    u := Next(t, a);
    ReachesStep(s, t, a);
  }

  /** A `send` that finds room and is not disturbed. */
  lemma QuietSend(from: State, s: State, hint: Hint, n: nat) returns (t: State)
    requires Reaches(from, s)
    requires !s.flag && 0 < n <= 4 * 1024 * 1024 && n <= s.permits && |s.queue| < 512
    ensures Reaches(from, t)
    ensures var q := Queued(|s.calls|, hint, n, s.generation, |s.enqueued|);
            t == s.(calls := s.calls + [Call(hint, |s.emitted|, Returned)], permits := s.permits - n,
                    queue := s.queue + [Delta(q)], enqueued := s.enqueued + [q])
  {
    var a := Advance(|s.calls|, Some(n));
    t := Step(from, s, Begin(hint));
    t := Step(from, t, a);
    t := Step(from, t, a);
    t := Step(from, t, a);
    t := Step(from, t, a);
    t := Step(from, t, a);
    t := Step(from, t, a);
    assert t.calls == s.calls + [Call(hint, |s.emitted|, Returned)];
  }

  /** An oversized `send` up to the point where it has raised the flag. */
  lemma QuietRaise(from: State, s: State, hint: Hint) returns (t: State)
    requires Reaches(from, s) && !s.flag
    ensures Reaches(from, t)
    ensures t == s.(calls := s.calls + [Call(hint, |s.emitted|, BumpGeneration(0))], flag := true)
  {
    var a := Advance(|s.calls|, None);
    t := Step(from, s, Begin(hint));
    t := Step(from, t, a);
    t := Step(from, t, a);
    t := Step(from, t, a);
    t := Step(from, t, a);
    assert t.calls == s.calls + [Call(hint, |s.emitted|, BumpGeneration(0))];
  }

  /** The rest of `require_resync`, undisturbed. */
  lemma QuietFinish(from: State, s: State, i: nat) returns (t: State)
    requires Reaches(from, s) && i < |s.calls| && s.calls[i].pc == BumpGeneration(0) && |s.queue| < 512
    ensures Reaches(from, t)
    ensures t == s.(calls := s.calls[i := s.calls[i].(pc := Returned)], generation := s.generation + 1,
                    queue := s.queue + [Wake])
  {
    t := Step(from, s, Advance(i, None));
    t := Step(from, t, Advance(i, None));
    assert t.calls == s.calls[i := s.calls[i].(pc := Returned)];
  }

  /** A `send` turned away by a pending resync. */
  lemma QuietRefusal(from: State, s: State, hint: Hint, size: Option<nat>) returns (t: State)
    requires Reaches(from, s) && s.flag && (size.Some? ==> size.value > 0)
    ensures Reaches(from, t)
    ensures t == s.(calls := s.calls + [Call(hint, |s.emitted|, Returned)])
  {
    t := Step(from, s, Begin(hint));
    t := Step(from, t, Advance(|s.calls|, size));
    assert t.calls == s.calls + [Call(hint, |s.emitted|, Returned)];
  }

  /** A `send` that has read the flag and the generation. */
  lemma StartSend(from: State, s: State, hint: Hint) returns (t: State)
    requires Reaches(from, s) && !s.flag
    ensures Reaches(from, t)
    ensures t == s.(calls := s.calls + [Call(hint, |s.emitted|, Reserve(s.generation))])
  {
    var a := Advance(|s.calls|, None);
    t := Step(from, s, Begin(hint));
    t := Step(from, t, a);
    t := Step(from, t, a);
    assert t.calls == s.calls + [Call(hint, |s.emitted|, Reserve(s.generation))];
  }

  predicate Fits(size: Option<nat>, budget: nat) {
    size.Some? && size.value <= 4 * 1024 * 1024 && size.value <= budget
  }

  /** A call whose delta cannot be sized or reserved, up to `require_resync`. */
  lemma GiveUpFrom(from: State, s: State, i: nat, size: Option<nat>) returns (t: State)
    requires Reaches(from, s) && i < |s.calls| && s.calls[i].pc.Reserve? && (size.Some? ==> size.value > 0)
    requires !Fits(size, s.permits)
    ensures Reaches(from, t) && t == Goto(s, i, SwapFlag(0))
  {
    t := Step(from, s, Advance(i, size));
  }

  /** A call that has reserved its bytes and passes both rechecks. */
  lemma RecheckFrom(from: State, s: State, i: nat, n: nat) returns (t: State)
    requires Reaches(from, s) && i < |s.calls| && s.calls[i].pc.Reserve? && n > 0 && Fits(Some(n), s.permits)
    requires !s.flag && s.generation == s.calls[i].pc.tag
    ensures Reaches(from, t) && t == Goto(s, i, Enqueue(s.generation, n)).(permits := s.permits - n)
  {
    var a := Advance(i, Some(n));
    t := Step(from, s, a);
    t := Step(from, t, a);
    t := Step(from, t, a);
    assert t.calls == s.calls[i := s.calls[i].(pc := Enqueue(s.generation, n))];
  }

  /** A call that has reserved its bytes and fails a recheck: it gives them back and returns. */
  lemma DropFrom(from: State, s: State, i: nat, n: nat) returns (t: State)
    requires Reaches(from, s) && i < |s.calls| && s.calls[i].pc.Reserve? && n > 0 && Fits(Some(n), s.permits)
    requires s.flag || s.generation != s.calls[i].pc.tag
    ensures Reaches(from, t) && t == Goto(s, i, Returned)
  {
    var a := Advance(i, Some(n));
    t := Step(from, s, a);
    t := Step(from, t, a);
    if !s.flag {
      t := Step(from, t, a);
    }
    assert t.calls == s.calls[i := s.calls[i].(pc := Returned)];
  }

  /** A call at the channel: enqueued if there is room, else on its way to `require_resync`. */
  lemma EnqueueFrom(from: State, s: State, i: nat, tag: nat, n: nat) returns (t: State)
    requires Reaches(from, s) && i < |s.calls| && s.calls[i].pc == Enqueue(tag, n)
    ensures Reaches(from, t)
    ensures t == if |s.queue| < DELIVERY_ITEMS then Enqueued(s, i, tag, n) else Goto(s, i, SwapFlag(n))
  {
    t := Step(from, s, Advance(i, None));
  }

  function Enqueued(s: State, i: nat, tag: nat, n: nat): State
    requires i < |s.calls|
  {
    var q := Queued(i, s.calls[i].hint, n, tag, |s.enqueued|);
    Goto(s, i, Returned).(queue := s.queue + [Delta(q)], enqueued := s.enqueued + [q])
  }

  /** `require_resync` from end to end, undisturbed. */
  lemma QuietResync(from: State, s: State, i: nat, held: nat) returns (t: State)
    requires Reaches(from, s) && i < |s.calls| && s.calls[i].pc == SwapFlag(held)
    ensures Reaches(from, t)
    ensures t == s.(calls := s.calls[i := s.calls[i].(pc := Returned)], flag := true,
                    generation := if s.flag then s.generation else s.generation + 1,
                    queue := if |s.queue| < DELIVERY_ITEMS then s.queue + [Wake] else s.queue,
                    permits := s.permits + held)
  {
    t := Step(from, s, Advance(i, None));
    if !s.flag {
      t := Step(from, t, Advance(i, None));
    }
    t := Step(from, t, Advance(i, None));
    assert t.calls == s.calls[i := s.calls[i].(pc := Returned)];
  }
}
