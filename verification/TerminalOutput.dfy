/** Terminal output: coalescing a drained batch, and the worker that drains it. */
module TerminalOutput {
  import opened Sequences

  const TERMINAL_ITEMS: nat := 64
  const BATCH_BYTES: nat := 256 * 1024

  /** One queued push. `text` is the chunk's UTF-8 encoding, one character a byte. */
  datatype Push =
    | Data(terminal: string, text: string)
    | Exit(terminal: string, code: int, signal: int)

  /** What a terminal's reader observes: a byte of output, or the shell's end. */
  datatype Token = Byte(b: char) | Exited(code: int, signal: int)

  function Bytes(text: string): (tokens: seq<Token>)
    ensures |tokens| == |text|
  {
    seq(|text|, i requires 0 <= i < |text| => Byte(text[i]))
  }

  function Tokens(push: Push, t: string): seq<Token> {
    if push.terminal != t then []
    else match push
      case Data(_, text) => Bytes(text)
      case Exit(_, code, signal) => [Exited(code, signal)]
  }

  /** Everything the reader of terminal `t` observes, in order. */
  function Meaning(pushes: seq<Push>, t: string): seq<Token> {
    if |pushes| == 0 then [] else Tokens(pushes[0], t) + Meaning(pushes[1..], t)
  }

  /** The exits of all terminals, in order. */
  function Exits(pushes: seq<Push>): seq<Push> {
    if |pushes| == 0 then []
    else (if pushes[0].Exit? then [pushes[0]] else []) + Exits(pushes[1..])
  }

  // ---------- The coalescing fold ----------

  /** The loop's state: what has been kept, and where each terminal's open chunk is. */
  datatype Fold = Fold(out: seq<Push>, open: map<string, nat>)

  const START := Fold([], map[])

  function Add(f: Fold, push: Push): Fold {
    match push
    case Data(u, text) =>
      if u in f.open then
        var k := f.open[u];
        if k < |f.out| && f.out[k].Data? then f.(out := f.out[k := f.out[k].(text := f.out[k].text + text)]) else f
      else Fold(f.out + [push], f.open[u := |f.out|])
    case Exit(u, _, _) => Fold(f.out + [push], f.open - {u})
  }

  function AddAll(f: Fold, pushes: seq<Push>): Fold
    decreases |pushes|
  {
    if |pushes| == 0 then f else AddAll(Add(f, pushes[0]), pushes[1..])
  }

  function Coalesced(batch: seq<Push>): seq<Push> {
    AddAll(START, batch).out
  }

  /** Each open entry names the last push of its own terminal, and it is data; every other data push is
      closed by a later exit of its terminal. */
  ghost predicate Good(f: Fold) {
    && (forall u :: u in f.open ==> OpenAt(f.out, f.open[u], u))
    && (forall k :: 0 <= k < |f.out| && f.out[k].Data? ==>
          (f.out[k].terminal in f.open && f.open[f.out[k].terminal] == k)
          || exists m :: k < m < |f.out| && f.out[m].Exit? && f.out[m].terminal == f.out[k].terminal)
    && Maximal(f.out)
  }

  ghost predicate OpenAt(out: seq<Push>, k: nat, u: string) {
    && k < |out| && out[k].Data? && out[k].terminal == u
    && forall m :: k < m < |out| ==> out[m].terminal != u
  }

  /** At most one data push of a terminal between two of its exits. */
  ghost predicate Maximal(out: seq<Push>) {
    forall j, k :: 0 <= j < k < |out| && out[j].Data? && out[k].Data? && out[j].terminal == out[k].terminal ==>
      exists m :: j < m < k && out[m].Exit? && out[m].terminal == out[j].terminal
  }

  lemma {:induction false} AddAllConcat(f: Fold, a: seq<Push>, b: seq<Push>)
    ensures AddAll(f, a + b) == AddAll(AddAll(f, a), b)
    decreases |a|
  {
    if a == [] {
      assert a + b == b;
    } else {
      assert (a + b)[1..] == a[1..] + b;
      AddAllConcat(Add(f, a[0]), a[1..], b);
    }
  }

  lemma {:induction false} MeaningConcat(a: seq<Push>, b: seq<Push>, t: string)
    ensures Meaning(a + b, t) == Meaning(a, t) + Meaning(b, t)
  {
    if a == [] {
      assert a + b == b;
    } else {
      assert (a + b)[1..] == a[1..] + b;
      MeaningConcat(a[1..], b, t);
    }
  }

  lemma MeaningOne(push: Push, t: string)
    ensures Meaning([push], t) == Tokens(push, t)
  {
  }

  lemma GoodAppend(f: Fold, push: Push)
    requires Good(f) && (push.Data? ==> push.terminal !in f.open)
    ensures Good(Add(f, push))
  {
    var g := Add(f, push);
    assert forall k :: 0 <= k < |f.out| ==> g.out[k] == f.out[k];
    forall u | u in g.open
      ensures OpenAt(g.out, g.open[u], u)
    {
      if u in f.open {
        assert OpenAt(f.out, f.open[u], u);
      }
    }
    forall k | 0 <= k < |g.out| && g.out[k].Data?
      ensures (g.out[k].terminal in g.open && g.open[g.out[k].terminal] == k)
              || exists m :: k < m < |g.out| && g.out[m].Exit? && g.out[m].terminal == g.out[k].terminal
    {
      if k < |f.out| {
        if m :| k < m < |f.out| && f.out[m].Exit? && f.out[m].terminal == f.out[k].terminal {
          assert g.out[m] == f.out[m];
        } else if push.Exit? && push.terminal == g.out[k].terminal {
          assert g.out[|f.out|] == push;
        }
      }
    }
    MaximalAppend(f, push);
  }

  lemma MaximalAppend(f: Fold, push: Push)
    requires Good(f) && (push.Data? ==> push.terminal !in f.open)
    ensures Maximal(f.out + [push])
  {
    var out := f.out + [push];
    forall j, k | 0 <= j < k < |out| && out[j].Data? && out[k].Data? && out[j].terminal == out[k].terminal
      ensures exists m :: j < m < k && out[m].Exit? && out[m].terminal == out[j].terminal
    {
      if k < |f.out| {
        var m :| j < m < k && f.out[m].Exit? && f.out[m].terminal == f.out[j].terminal;
        assert out[m] == f.out[m];
      } else {
        var m :| j < m < |f.out| && f.out[m].Exit? && f.out[m].terminal == f.out[j].terminal;
        assert out[m] == f.out[m];
      }
    }
  }

  lemma GoodExtend(f: Fold, u: string, text: string)
    requires Good(f) && u in f.open
    ensures Good(Add(f, Data(u, text)))
    ensures var k := f.open[u];
            OpenAt(f.out, k, u) && Add(f, Data(u, text)) == f.(out := f.out[k := Data(u, f.out[k].text + text)])
  {
    var k := f.open[u];
    assert OpenAt(f.out, k, u);
    var g := Add(f, Data(u, text));
    assert forall m :: 0 <= m < |f.out| ==> g.out[m].terminal == f.out[m].terminal && g.out[m].Exit? == f.out[m].Exit?;
    forall v | v in g.open
      ensures OpenAt(g.out, g.open[v], v)
    {
      assert OpenAt(f.out, f.open[v], v);
    }
  }

  lemma GoodStep(f: Fold, push: Push)
    requires Good(f)
    ensures Good(Add(f, push))
  {
    if push.Data? && push.terminal in f.open {
      GoodExtend(f, push.terminal, push.text);
    } else {
      GoodAppend(f, push);
    }
  }

  lemma {:induction false} GoodAll(f: Fold, pushes: seq<Push>)
    requires Good(f)
    ensures Good(AddAll(f, pushes))
    decreases |pushes|
  {
    if pushes != [] {
      GoodStep(f, pushes[0]);
      GoodAll(Add(f, pushes[0]), pushes[1..]);
    }
  }

  // ---------- Coalescing preserves meaning ----------

  lemma BytesConcat(a: string, b: string)
    ensures Bytes(a + b) == Bytes(a) + Bytes(b)
  {
  }

  lemma {:induction false} NoTokens(pushes: seq<Push>, t: string)
    requires forall m :: 0 <= m < |pushes| ==> pushes[m].terminal != t
    ensures Meaning(pushes, t) == []
  {
    if pushes != [] {
      NoTokens(pushes[1..], t);
    }
  }

  lemma MeaningSplit(out: seq<Push>, k: nat, t: string)
    requires k < |out|
    ensures Meaning(out, t) == Meaning(out[..k], t) + Tokens(out[k], t) + Meaning(out[k + 1..], t)
  {
    assert out == out[..k] + ([out[k]] + out[k + 1..]);
    MeaningConcat(out[..k], [out[k]] + out[k + 1..], t);
    MeaningConcat([out[k]], out[k + 1..], t);
    MeaningOne(out[k], t);
  }

  /** Each push reaches its reader: nothing is dropped and nothing overtakes it on its own terminal. */
  lemma AddKeepsMeaning(f: Fold, push: Push, t: string)
    requires Good(f)
    ensures Meaning(Add(f, push).out, t) == Meaning(f.out, t) + Tokens(push, t)
  {
    if push.Data? && push.terminal in f.open {
      var u := push.terminal;
      GoodExtend(f, u, push.text);
      var k := f.open[u];
      var g := Add(f, push);
      MeaningSplit(f.out, k, t);
      MeaningSplit(g.out, k, t);
      assert g.out[..k] == f.out[..k] && g.out[k + 1..] == f.out[k + 1..];
      if t == u {
        NoTokens(f.out[k + 1..], t);
        BytesConcat(f.out[k].text, push.text);
      }
    } else {
      MeaningConcat(f.out, [push], t);
      MeaningOne(push, t);
    }
  }

  lemma {:induction false} AddAllKeepsMeaning(f: Fold, pushes: seq<Push>, t: string)
    requires Good(f)
    ensures Meaning(AddAll(f, pushes).out, t) == Meaning(f.out, t) + Meaning(pushes, t)
    decreases |pushes|
  {
    if pushes != [] {
      AddKeepsMeaning(f, pushes[0], t);
      GoodStep(f, pushes[0]);
      AddAllKeepsMeaning(Add(f, pushes[0]), pushes[1..], t);
      JoinLeft(Meaning(f.out, t), Tokens(pushes[0], t), Meaning(pushes[1..], t));
    }
  }

  /** For every batch and terminal, the coalesced batch reads the same: same text, and the same text
      before and after each exit. */
  lemma CoalescingPreservesMeaning(batch: seq<Push>, t: string)
    ensures Meaning(Coalesced(batch), t) == Meaning(batch, t)
  {
    AddAllKeepsMeaning(START, batch, t);
  }

  /** The result is as short as it can be: one data push per terminal between two of its exits. */
  lemma CoalescingIsMaximal(batch: seq<Push>)
    ensures Maximal(Coalesced(batch))
  {
    GoodAll(START, batch);
  }

  lemma {:induction false} ExitsConcat(a: seq<Push>, b: seq<Push>)
    ensures Exits(a + b) == Exits(a) + Exits(b)
  {
    if a == [] {
      assert a + b == b;
    } else {
      assert (a + b)[1..] == a[1..] + b;
      ExitsConcat(a[1..], b);
      JoinLeft(if a[0].Exit? then [a[0]] else [], Exits(a[1..]), Exits(b));
    }
  }

  lemma ExitsAfterData(p: Push, rest: seq<Push>)
    requires p.Data?
    ensures Exits([p] + rest) == Exits(rest)
  {
    assert ([p] + rest)[1..] == rest;
  }

  lemma ExtendKeepsExits(out: seq<Push>, k: nat, p: Push)
    requires k < |out| && out[k].Data? && p.Data?
    ensures Exits(out[k := p]) == Exits(out)
  {
    var before, rest := out[..k], out[k + 1..];
    assert out == before + ([out[k]] + rest);
    assert out[k := p] == before + ([p] + rest);
    ExitsConcat(before, [out[k]] + rest);
    ExitsConcat(before, [p] + rest);
    ExitsAfterData(out[k], rest);
    ExitsAfterData(p, rest);
  }

  lemma AddKeepsExits(f: Fold, p: Push)
    requires Good(f)
    ensures Exits(Add(f, p).out) == Exits(f.out) + (if p.Exit? then [p] else [])
  {
    if p.Data? && p.terminal in f.open {
      GoodExtend(f, p.terminal, p.text);
      var k := f.open[p.terminal];
      ExtendKeepsExits(f.out, k, Data(p.terminal, f.out[k].text + p.text));
    } else {
      ExitsConcat(f.out, [p]);
    }
  }

  lemma {:induction false} AddAllKeepsExits(f: Fold, pushes: seq<Push>)
    requires Good(f)
    ensures Exits(AddAll(f, pushes).out) == Exits(f.out) + Exits(pushes)
    decreases |pushes|
  {
    if pushes != [] {
      AddKeepsExits(f, pushes[0]);
      GoodStep(f, pushes[0]);
      AddAllKeepsExits(Add(f, pushes[0]), pushes[1..]);
      JoinLeft(Exits(f.out), if pushes[0].Exit? then [pushes[0]] else [], Exits(pushes[1..]));
    }
  }

  /** Exits of different terminals keep their order too. */
  lemma CoalescingKeepsExitOrder(batch: seq<Push>)
    ensures Exits(Coalesced(batch)) == Exits(batch)
  {
    AddAllKeepsExits(START, batch);
  }

  // ---------- Coalescing does not care how the stream was cut ----------

  lemma DataSplits(f: Fold, u: string, x: string, y: string)
    requires Good(f)
    ensures Add(f, Data(u, x + y)) == Add(Add(f, Data(u, x)), Data(u, y))
  {
    GoodStep(f, Data(u, x));
    var g := Add(f, Data(u, x));
    GoodExtend(g, u, y);
    if u in f.open {
      GoodExtend(f, u, x);
      GoodExtend(f, u, x + y);
      var k := f.open[u];
      assert f.out[k].text + (x + y) == (f.out[k].text + x) + y;
    }
  }

  lemma DataCommutes(f: Fold, u: string, x: string, q: Push)
    requires Good(f) && u in f.open && q.terminal != u
    ensures Add(Add(f, Data(u, x)), q) == Add(Add(f, q), Data(u, x))
  {
    GoodExtend(f, u, x);
    GoodStep(f, q);
    GoodExtend(Add(f, q), u, x);
    if q.Data? && q.terminal in f.open {
      GoodExtend(f, q.terminal, q.text);
      GoodExtend(Add(f, Data(u, x)), q.terminal, q.text);
      assert f.open[u] != f.open[q.terminal];
    }
  }

  lemma {:induction false} DataCommutesAll(f: Fold, u: string, x: string, rest: seq<Push>)
    requires Good(f) && u in f.open
    requires forall m :: 0 <= m < |rest| ==> rest[m].terminal != u
    ensures AddAll(Add(f, Data(u, x)), rest) == Add(AddAll(f, rest), Data(u, x))
    decreases |rest|
  {
    if rest != [] {
      DataCommutes(f, u, x, rest[0]);
      GoodStep(f, rest[0]);
      DataCommutesAll(Add(f, rest[0]), u, x, rest[1..]);
    }
  }

  /** Text joined to an open chunk may as well have been pushed last. */
  lemma JoinedTextComesLast(f: Fold, out: seq<Push>, k: nat, u: string, y: string)
    requires Good(f) && OpenAt(out, k, u)
    ensures AddAll(f, out[k := Data(u, out[k].text + y)]) == Add(AddAll(f, out), Data(u, y))
  {
    var x := out[k].text;
    var before, after := out[..k], out[k + 1..];
    assert out == before + ([Data(u, x)] + after);
    assert out[k := Data(u, x + y)] == before + ([Data(u, x + y)] + after);
    AddAllConcat(f, before, [Data(u, x)] + after);
    AddAllConcat(f, before, [Data(u, x + y)] + after);
    GoodAll(f, before);
    var g := AddAll(f, before);
    DataSplits(g, u, x, y);
    GoodStep(g, Data(u, x));
    DataCommutesAll(Add(g, Data(u, x)), u, y, after);
  }

  /** From any point of the stream, a coalesced batch has the effect of the batch itself. */
  lemma {:induction false} CoalescedActsAlike(f: Fold, batch: seq<Push>)
    requires Good(f)
    ensures AddAll(f, Coalesced(batch)) == AddAll(f, batch)
    decreases |batch|
  {
    if batch != [] {
      var front, last := batch[..|batch| - 1], batch[|batch| - 1];
      assert batch == front + [last];
      CoalescedActsAlike(f, front);
      AddAllConcat(f, front, [last]);
      AddAllConcat(START, front, [last]);
      var g := AddAll(START, front);
      GoodAll(START, front);
      if last.Data? && last.terminal in g.open {
        GoodExtend(g, last.terminal, last.text);
        JoinedTextComesLast(f, g.out, g.open[last.terminal], last.terminal, last.text);
      } else {
        AddAllConcat(f, g.out, [last]);
      }
    }
  }

  /** Coalescing is insensitive to batching; in particular it is idempotent. */
  lemma CoalescingIgnoresCuts(a: seq<Push>, b: seq<Push>)
    ensures Coalesced(a + b) == Coalesced(Coalesced(a) + Coalesced(b))
    ensures Coalesced(Coalesced(a)) == Coalesced(a)
  {
    AddAllConcat(START, a, b);
    AddAllConcat(START, Coalesced(a), Coalesced(b));
    CoalescedActsAlike(START, a);
    GoodAll(START, a);
    CoalescedActsAlike(AddAll(START, a), b);
  }

  /** `coalesce_terminal_pushes`: the loop computes the fold, and its silent `if let` never fails. */
  method CoalesceTerminalPushes(batch: seq<Push>) returns (coalesced: seq<Push>)
    ensures coalesced == Coalesced(batch)
    ensures forall t :: Meaning(coalesced, t) == Meaning(batch, t)
    ensures Maximal(coalesced)
  {
    coalesced := [];
    var open: map<string, nat> := map[];
    for i := 0 to |batch|
      invariant Good(Fold(coalesced, open))
      invariant AddAll(START, batch) == AddAll(Fold(coalesced, open), batch[i..])
    {
      GoodStep(Fold(coalesced, open), batch[i]);
      match batch[i] {
        case Data(u, text) =>
          if u in open {
            var index := open[u];
            assert OpenAt(coalesced, index, u);
            if index < |coalesced| && coalesced[index].Data? {
              coalesced := coalesced[index := coalesced[index].(text := coalesced[index].text + text)];
            } else {
              assert false; // an open entry always names a data push of its terminal
            }
          } else {
            open := open[u := |coalesced|];
            coalesced := coalesced + [batch[i]];
          }
        case Exit(u, _, _) =>
          open := open - {u};
          coalesced := coalesced + [batch[i]];
      }
    }
    CoalescingIsMaximal(batch);
    forall t
      ensures Meaning(coalesced, t) == Meaning(batch, t)
    {
      CoalescingPreservesMeaning(batch, t);
    }
  }
}
