/** The bounded insertion-ordered maps: one abstract dictionary, and the Rust and TypeScript classes
    that refine it. */
module BoundedMaps {
  import opened Options

  // ---------- The abstract dictionary: entries in the order their keys took up residence ----------

  type Entries<K, V> = seq<(K, V)>

  function Keys<K, V>(f: Entries<K, V>): (keys: seq<K>)
    ensures |keys| == |f| && forall i :: 0 <= i < |f| ==> keys[i] == f[i].0
  {
    seq(|f|, i requires 0 <= i < |f| => f[i].0)
  }

  ghost predicate Distinct<K, V>(f: Entries<K, V>) {
    forall i, j :: 0 <= i < j < |f| ==> f[i].0 != f[j].0
  }

  function Position<K(==), V>(f: Entries<K, V>, k: K): (i: nat)
    requires k in Keys(f)
    ensures i < |f| && f[i].0 == k
  {
    if f[0].0 == k then 0
    else
      assert k in Keys(f[1..]) by { assert Keys(f) == [f[0].0] + Keys(f[1..]); }
      1 + Position(f[1..], k)
  }

  function Lookup<K(==), V>(f: Entries<K, V>, k: K): Option<V> {
    if k in Keys(f) then Some(f[Position(f, k)].1) else None
  }

  /** An update keeps its key's place; a new key goes last and pushes the longest resident out if full. */
  function Put<K(==), V>(f: Entries<K, V>, capacity: nat, k: K, v: V): Entries<K, V> {
    if k in Keys(f) then f[Position(f, k) := (k, v)]
    else if |f| + 1 > capacity then (f + [(k, v)])[1..]
    else f + [(k, v)]
  }

  function Delete<K(==), V>(f: Entries<K, V>, k: K): Entries<K, V> {
    if |f| == 0 then []
    else (if f[0].0 == k then [] else [f[0]]) + Delete(f[1..], k)
  }

  datatype Op<K, V> = Insert(key: K, value: V) | Remove(key: K)

  function Apply<K(==), V>(f: Entries<K, V>, capacity: nat, op: Op<K, V>): Entries<K, V> {
    match op
    case Insert(k, v) => Put(f, capacity, k, v)
    case Remove(k) => Delete(f, k)
  }

  function Run<K(==), V>(capacity: nat, ops: seq<Op<K, V>>): Entries<K, V> {
    if |ops| == 0 then [] else Apply(Run(capacity, ops[..|ops| - 1]), capacity, ops[|ops| - 1])
  }

  /** The last operation on a key, as a reference: an insert's value, or `None`. */
  function LastWrite<K(==), V>(ops: seq<Op<K, V>>, k: K): Option<V> {
    if |ops| == 0 then None
    else
      var op := ops[|ops| - 1];
      if op.key == k then (if op.Insert? then Some(op.value) else None) else LastWrite(ops[..|ops| - 1], k)
  }

  lemma LookupAt<K, V>(f: Entries<K, V>, i: nat)
    requires Distinct(f) && i < |f|
    ensures Lookup(f, f[i].0) == Some(f[i].1) && Position(f, f[i].0) == i
  {
    assert Keys(f)[i] == f[i].0;
    var j := Position(f, f[i].0);
    assert f[j].0 == f[i].0;
  }

  lemma {:induction false} DeleteFacts<K, V>(f: Entries<K, V>, k: K)
    requires Distinct(f)
    ensures Distinct(Delete(f, k)) && |Delete(f, k)| <= |f|
    ensures forall i :: 0 <= i < |Delete(f, k)| ==> Delete(f, k)[i] in f && Delete(f, k)[i].0 != k
    ensures forall i :: 0 <= i < |f| && f[i].0 != k ==> f[i] in Delete(f, k)
  {
    if f != [] {
      DeleteFacts(f[1..], k);
      var rest := Delete(f[1..], k);
      forall j | 0 <= j < |rest|
        ensures rest[j].0 != f[0].0 && rest[j] in f
      {
        var i :| 0 <= i < |f[1..]| && f[1..][i] == rest[j];
        assert f[1 + i] == rest[j];
      }
      forall i | 0 <= i < |f| && f[i].0 != k
        ensures f[i] in Delete(f, k)
      {
        if i > 0 {
          assert f[1..][i - 1] == f[i];
        }
      }
    }
  }

  lemma PutFacts<K, V>(f: Entries<K, V>, capacity: nat, k: K, v: V)
    requires Distinct(f) && 0 < capacity && |f| <= capacity
    ensures var g := Put(f, capacity, k, v); Distinct(g) && |g| <= capacity && (k, v) in g
    ensures forall e :: e in Put(f, capacity, k, v) ==> e.0 == k || e in f
  {
    var g := Put(f, capacity, k, v);
    if k in Keys(f) {
      assert g[Position(f, k)] == (k, v);
    } else {
      assert forall i :: 0 <= i < |f| ==> Keys(f)[i] == f[i].0;
      assert g[|g| - 1] == (k, v);
      if |f| + 1 > capacity {
        assert forall i :: 0 <= i < |g| - 1 ==> g[i] == f[i + 1];
      }
    }
  }

  /** After any inserts, updates and removals: keys are distinct, the bound holds, and whatever is still
      present carries the value of the last insert of its key, with no removal since. */
  lemma {:induction false} EveryRunIsBounded<K, V>(capacity: nat, ops: seq<Op<K, V>>)
    requires 0 < capacity
    ensures Distinct(Run(capacity, ops)) && |Run(capacity, ops)| <= capacity
    ensures forall e :: e in Run(capacity, ops) ==> LastWrite(ops, e.0) == Some(e.1)
  {
    if ops != [] {
      var f, op := Run(capacity, ops[..|ops| - 1]), ops[|ops| - 1];
      EveryRunIsBounded(capacity, ops[..|ops| - 1]);
      match op
      case Insert(k, v) =>
        PutFacts(f, capacity, k, v);
        var g := Put(f, capacity, k, v);
        forall e | e in g
          ensures LastWrite(ops, e.0) == Some(e.1)
        {
          if e.0 == k {
            var i :| 0 <= i < |g| && g[i] == e;
            var j :| 0 <= j < |g| && g[j] == (k, v);
            assert i == j;
          }
        }
      case Remove(k) =>
        DeleteFacts(f, k);
        forall e | e in Delete(f, k)
          ensures LastWrite(ops, e.0) == Some(e.1)
        {
          var i :| 0 <= i < |Delete(f, k)| && Delete(f, k)[i] == e;
        }
    }
  }

  /** Only a new key arriving at a full map evicts, and then exactly the longest resident goes. */
  lemma EvictionTakesTheOldest<K, V>(f: Entries<K, V>, capacity: nat, k: K, v: V, gone: K)
    requires Distinct(f) && 0 < capacity && |f| <= capacity && gone in Keys(f)
    ensures gone !in Keys(Put(f, capacity, k, v))
            <==> k !in Keys(f) && |f| == capacity && gone == f[0].0
  {
    var g := Put(f, capacity, k, v);
    var i := Position(f, gone);
    if k in Keys(f) {
      assert Keys(g)[i] == gone;
    } else if |f| < capacity {
      assert Keys(g)[i] == gone;
    } else if i > 0 {
      assert Keys(g)[i - 1] == gone;
    } else {
      forall j | 0 <= j < |g|
        ensures Keys(g)[j] != gone
      {
        assert g[j] == if j == |g| - 1 then (k, v) else f[j + 1];
      }
    }
  }

  // ---------- The order of the keys ----------

  /** A removal closes the gap. */
  lemma {:induction false} DeleteKeepsOrder<K, V>(f: Entries<K, V>, i: nat)
    requires Distinct(f) && i < |f|
    ensures Delete(f, f[i].0) == f[..i] + f[i + 1..]
  {
    if i == 0 {
      DeleteAbsent(f[1..], f[0].0);
    } else {
      DeleteKeepsOrder(f[1..], i - 1);
      assert f[..i] + f[i + 1..] == [f[0]] + (f[1..][..i - 1] + f[1..][i..]);
    }
  }

  lemma {:induction false} DeleteAbsent<K, V>(f: Entries<K, V>, k: K)
    requires forall i :: 0 <= i < |f| ==> f[i].0 != k
    ensures Delete(f, k) == f
  {
    if f != [] {
      DeleteAbsent(f[1..], k);
    }
  }

  /** How many operations had been made when the key last took up residency. */
  function Arrival<K(==), V>(capacity: nat, ops: seq<Op<K, V>>, k: K): nat {
    if |ops| == 0 then 0
    else if k in Keys(Run(capacity, ops[..|ops| - 1])) then Arrival(capacity, ops[..|ops| - 1], k)
    else |ops|
  }

  lemma {:induction false} ArrivedByNow<K, V>(capacity: nat, ops: seq<Op<K, V>>, k: K)
    ensures Arrival(capacity, ops, k) <= |ops|
  {
    if |ops| > 0 {
      ArrivedByNow(capacity, ops[..|ops| - 1], k);
    }
  }

  /** Entry `i` after the operation was entry `from` before it, or is the new one at the end. */
  ghost predicate ComesFrom<K, V>(f: Entries<K, V>, g: Entries<K, V>, i: nat, from: nat)
    requires i < |g|
  {
    i <= from && if from < |f| then g[i].0 == f[from].0 else i == |g| - 1 && g[i].0 !in Keys(f)
  }

  /** Where entry `i` was before the operation; never in another order. */
  function From<K(==), V>(f: Entries<K, V>, capacity: nat, op: Op<K, V>, i: nat): nat {
    match op
    case Insert(k, _) => if k !in Keys(f) && |f| == capacity then i + 1 else i
    case Remove(k) => if k in Keys(f) && Position(f, k) <= i then i + 1 else i
  }

  lemma OrderIsKept<K, V>(f: Entries<K, V>, capacity: nat, op: Op<K, V>, i: nat)
    requires Distinct(f) && 0 < capacity && |f| <= capacity && i < |Apply(f, capacity, op)|
    ensures ComesFrom(f, Apply(f, capacity, op), i, From(f, capacity, op, i))
  {
    match op
    case Insert(k, v) => InsertKeepsOrder(f, capacity, k, v, i);
    case Remove(k) => RemoveKeepsOrder(f, capacity, k, i);
  }

  lemma InsertKeepsOrder<K, V>(f: Entries<K, V>, capacity: nat, k: K, v: V, i: nat)
    requires 0 < capacity && |f| <= capacity && i < |Put(f, capacity, k, v)|
    ensures ComesFrom(f, Put(f, capacity, k, v), i, From(f, capacity, Insert(k, v), i))
  {
  }

  lemma RemoveKeepsOrder<K, V>(f: Entries<K, V>, capacity: nat, k: K, i: nat)
    requires Distinct(f) && i < |Delete(f, k)|
    ensures ComesFrom(f, Delete(f, k), i, From(f, capacity, Op.Remove(k), i))
  {
    if k in Keys(f) {
      DeleteKeepsOrder(f, Position(f, k));
    } else {
      assert forall j :: 0 <= j < |f| ==> Keys(f)[j] == f[j].0;
      DeleteAbsent(f, k);
    }
  }

  /** After any operations, the keys stand in the order in which they took up residency. */
  lemma {:induction false} KeysStandInOrderOfArrival<K, V>(capacity: nat, ops: seq<Op<K, V>>, i: nat, j: nat)
    requires 0 < capacity && i < j < |Run(capacity, ops)|
    ensures Arrival(capacity, ops, Run(capacity, ops)[i].0) < Arrival(capacity, ops, Run(capacity, ops)[j].0)
  {
    var front, op := ops[..|ops| - 1], ops[|ops| - 1];
    var f, g := Run(capacity, front), Run(capacity, ops);
    EveryRunIsBounded(capacity, front);
    OrderIsKept(f, capacity, op, i);
    OrderIsKept(f, capacity, op, j);
    var from, to := From(f, capacity, op, i), From(f, capacity, op, j);
    assert from < to;
    assert Keys(f)[from] == g[i].0;
    ArrivedByNow(capacity, front, g[i].0);
    if to < |f| {
      assert Keys(f)[to] == g[j].0;
      KeysStandInOrderOfArrival(capacity, front, from, to);
    }
  }

  ghost predicate LongestResident<K, V>(capacity: nat, ops: seq<Op<K, V>>, k: K) {
    forall other :: other in Keys(Run(capacity, ops)) && other != k ==>
                      Arrival(capacity, ops, k) < Arrival(capacity, ops, other)
  }

  lemma TheFirstIsTheLongestResident<K, V>(capacity: nat, ops: seq<Op<K, V>>, i: nat)
    requires 0 < capacity && i < |Run(capacity, ops)|
    ensures LongestResident(capacity, ops, Run(capacity, ops)[i].0) <==> i == 0
  {
    var f := Run(capacity, ops);
    EveryRunIsBounded(capacity, ops);
    if i > 0 {
      KeysStandInOrderOfArrival(capacity, ops, 0, i);
      assert Keys(f)[0] == f[0].0;
    } else {
      forall other | other in Keys(f) && other != f[0].0
        ensures Arrival(capacity, ops, f[0].0) < Arrival(capacity, ops, other)
      {
        KeysStandInOrderOfArrival(capacity, ops, 0, Position(f, other));
      }
    }
  }

  /** After any operations, one more makes a key leave if and only if it removes that key, or inserts a new
      key into a full map of which that key is the longest resident. */
  lemma AKeyLeavesExactly<K, V>(capacity: nat, ops: seq<Op<K, V>>, op: Op<K, V>, gone: K)
    requires 0 < capacity && gone in Keys(Run(capacity, ops))
    ensures var f := Run(capacity, ops);
            gone !in Keys(Run(capacity, ops + [op]))
            <==> op == Remove(gone)
                 || (op.Insert? && op.key !in Keys(f) && |f| == capacity && LongestResident(capacity, ops, gone))
  {
    var f := Run(capacity, ops);
    assert (ops + [op])[..|ops|] == ops;
    EveryRunIsBounded(capacity, ops);
    match op
    case Insert(k, v) =>
      EvictionTakesTheOldest(f, capacity, k, v, gone);
      TheFirstIsTheLongestResident(capacity, ops, Position(f, gone));
      assert Position(f, gone) == 0 <==> gone == f[0].0;
    case Remove(k) => RemovedExactly(f, k, gone);
  }

  lemma RemovedExactly<K, V>(f: Entries<K, V>, k: K, other: K)
    requires Distinct(f)
    ensures other in Keys(Delete(f, k)) <==> other in Keys(f) && other != k
  {
    var g := Delete(f, k);
    DeleteFacts(f, k);
    if other in Keys(f) && other != k {
      var e := f[Position(f, other)];
      assert e in g;
      var i :| 0 <= i < |g| && g[i] == e;
      assert Keys(g)[i] == other;
    }
    if other in Keys(g) {
      var e := g[Position(g, other)];
      assert e in f;
      var i :| 0 <= i < |f| && f[i] == e;
      assert Keys(f)[i] == other;
    }
  }

  // ---------- The Rust map: a hash map beside a deque of keys ----------

  /** The deque and the map show the entries `f`: the deque is duplicate-free with exactly the map's keys. */
  ghost predicate Shows<K(!new), V>(order: seq<K>, values: map<K, V>, f: Entries<K, V>) {
    && Distinct(f) && order == Keys(f)
    && (forall k :: k in order <==> k in values)
    && (forall i :: 0 <= i < |f| ==> f[i].0 in values && values[f[i].0] == f[i].1)
  }

  lemma ShowsUpdate<K(!new), V>(order: seq<K>, values: map<K, V>, f: Entries<K, V>, k: K, v: V)
    requires Shows(order, values, f) && k in values
    ensures Shows(order, values[k := v], f[Position(f, k) := (k, v)])
  {
    var p := Position(f, k);
    var g := f[p := (k, v)];
    assert Keys(g) == order;
    assert forall i :: 0 <= i < |f| && i != p ==> f[i].0 != k;
  }

  lemma ShowsAppend<K(!new), V>(order: seq<K>, values: map<K, V>, f: Entries<K, V>, k: K, v: V)
    requires Shows(order, values, f) && k !in values
    ensures Shows(order + [k], values[k := v], f + [(k, v)])
  {
    assert forall i :: 0 <= i < |f| ==> f[i].0 == order[i] && order[i] in order;
    assert Keys(f + [(k, v)]) == order + [k];
  }

  lemma FirstOrRest<K>(keys: seq<K>, k: K)
    requires |keys| > 0
    ensures k in keys <==> k == keys[0] || k in keys[1..]
  {
    if i: nat :| 0 < i < |keys| && keys[i] == k {
      assert keys[1..][i - 1] == k;
    }
  }

  lemma ShowsPop<K(!new), V>(order: seq<K>, values: map<K, V>, f: Entries<K, V>)
    requires Shows(order, values, f) && |f| > 0
    ensures Shows(order[1..], values - {order[0]}, f[1..])
  {
    var rest, g := order[1..], f[1..];
    assert Keys(g) == rest;
    assert forall i :: 0 <= i < |g| ==> g[i] == f[i + 1] && rest[i] == g[i].0;
    forall k
      ensures k in rest <==> k in values && k != order[0]
    {
      FirstOrRest(order, k);
      if k in rest {
        var j :| 0 <= j < |rest| && rest[j] == k;
        assert order[j + 1] == k && f[j + 1].0 != f[0].0;
      }
    }
  }

  lemma ShowsDelete<K(!new), V>(order: seq<K>, values: map<K, V>, f: Entries<K, V>, k: K)
    requires Shows(order, values, f)
    ensures Shows(Without(order, k), values - {k}, Delete(f, k))
  {
    var g := Delete(f, k);
    DeleteFacts(f, k);
    DeleteKeys(f, k);
    assert order == Keys(f) && Without(order, k) == Keys(g);
    forall i | 0 <= i < |g|
      ensures g[i].0 in values - {k} && values[g[i].0] == g[i].1
    {
      assert g[i] in g;
      var j :| 0 <= j < |f| && f[j] == g[i];
    }
    forall x | x in values - {k}
      ensures x in Keys(g)
    {
      var j :| 0 <= j < |order| && order[j] == x;
      assert f[j] in g;
      var i :| 0 <= i < |g| && g[i] == f[j];
      assert Keys(g)[i] == x;
    }
  }

  class HashBoundedMap<K(==,!new), V> {
    const capacity: nat
    var values: map<K, V>
    var order: seq<K>

    /** The entries, as the object keeps them. */
    ghost var view: Entries<K, V>

    ghost predicate Valid()
      reads this
    {
      0 < capacity && |order| <= capacity && Shows(order, values, view)
    }

    constructor (capacity: nat)
      requires 0 < capacity
      ensures Valid() && view == [] && this.capacity == capacity
    {
      this.capacity := capacity;
      values, order, view := map[], [], [];
    }

    method Get(key: K) returns (value: Option<V>)
      requires Valid()
      ensures value == Lookup(view, key)
    {
      value := if key in values then Some(values[key]) else None;
      if key in values {
        assert view[Position(view, key)].0 == key;
      }
    }

    method Insert(key: K, value: V)
      requires Valid()
      modifies this
      ensures Valid() && view == Put(old(view), capacity, key, value)
    {
      if key !in values {
        ShowsAppend(order, values, view, key, value);
        order := order + [key];
        view := view + [(key, value)];
      } else {
        ShowsUpdate(order, values, view, key, value);
        view := view[Position(view, key) := (key, value)];
      }
      values := values[key := value];
      ghost var grown := view;
      assert |grown| <= capacity + 1;
      while |order| > capacity
        invariant Shows(order, values, view)
        invariant view == grown || (|grown| == capacity + 1 && view == grown[1..])
        decreases |order|
      {
        ShowsPop(order, values, view);
        var oldest := order[0];
        order := order[1..];
        values := values - {oldest};
        view := view[1..];
      }
      assert |view| == |order|;
    }

    method Remove(key: K)
      requires Valid()
      modifies this
      ensures Valid() && view == Delete(old(view), key)
    {
      ShowsDelete(order, values, view, key);
      DeleteFacts(view, key);
      values := values - {key};
      order := Without(order, key);
      view := Delete(view, key);
    }
  }

  function Without<K(==)>(keys: seq<K>, k: K): seq<K> {
    if |keys| == 0 then [] else (if keys[0] == k then [] else [keys[0]]) + Without(keys[1..], k)
  }

  lemma {:induction false} DeleteKeys<K, V>(f: Entries<K, V>, k: K)
    ensures Keys(Delete(f, k)) == Without(Keys(f), k)
  {
    if f != [] {
      DeleteKeys(f[1..], k);
      assert Keys(f)[1..] == Keys(f[1..]);
      assert Keys(Delete(f, k)) == (if f[0].0 == k then [] else [f[0].0]) + Keys(Delete(f[1..], k));
    }
  }

  // ---------- The TypeScript map: an insertion-ordered Map, evicting by its first key ----------

  /** A JavaScript key, which may be `undefined`. */
  datatype JsKey<K> = Undefined | Key(k: K)

  /** `Map.set`: an existing key keeps its place. */
  function JsSet<K(==), V>(f: Entries<K, V>, k: K, v: V): Entries<K, V> {
    if k in Keys(f) then f[Position(f, k) := (k, v)] else f + [(k, v)]
  }

  /** `set` as written: the oldest key is deleted unless it is `undefined`. */
  function TsPut<K(==), V>(f: Entries<JsKey<K>, V>, capacity: nat, k: JsKey<K>, v: V): Entries<JsKey<K>, V> {
    var g := JsSet(f, k, v);
    if k !in Keys(f) && |g| > capacity && g[0].0 != Undefined then Delete(g, g[0].0) else g
  }

  class TsBoundedMap<K(==,!new), V> {
    const capacity: nat
    var entries: Entries<JsKey<K>, V>

    ghost predicate Valid()
      reads this
    {
      0 < capacity && Distinct(entries)
    }

    constructor (capacity: nat)
      requires 0 < capacity
      ensures Valid() && entries == [] && this.capacity == capacity
    {
      this.capacity := capacity;
      entries := [];
    }

    method Set(key: JsKey<K>, value: V)
      requires Valid()
      modifies this
      ensures Valid() && entries == TsPut(old(entries), capacity, key, value)
    {
      var wasPresent := key in Keys(entries);
      ghost var before := entries;
      entries := JsSet(entries, key, value);
      assert Distinct(entries) by {
        assert forall i :: 0 <= i < |before| ==> Keys(before)[i] == before[i].0;
      }
      if !wasPresent && |entries| > capacity {
        var oldest := entries[0].0;
        if oldest != Undefined {
          DeleteFacts(entries, oldest);
          entries := Delete(entries, oldest);
        }
      }
    }

    method Remove(key: JsKey<K>) returns (found: bool)
      requires Valid()
      modifies this
      ensures Valid() && entries == Delete(old(entries), key) && found == (key in Keys(old(entries)))
    {
      DeleteFacts(entries, key);
      found := key in Keys(entries);
      entries := Delete(entries, key);
    }
  }

  /** One TypeScript `set` is the abstract one exactly when it does not have to evict `undefined`. */
  lemma TsSetRefinesPut<K, V>(f: Entries<JsKey<K>, V>, capacity: nat, k: JsKey<K>, v: V)
    requires Distinct(f) && 0 < capacity && |f| <= capacity
    ensures TsPut(f, capacity, k, v) == Put(f, capacity, k, v)
            <==> !(k !in Keys(f) && |f| == capacity && f[0].0 == Undefined)
    ensures |TsPut(f, capacity, k, v)| <= capacity
            <==> !(k !in Keys(f) && |f| == capacity && f[0].0 == Undefined)
  {
    if k !in Keys(f) && |f| == capacity {
      var g := f + [(k, v)];
      assert forall i :: 0 <= i < |f| ==> Keys(f)[i] == f[i].0;
      assert g == [g[0]] + g[1..];
      DeleteAbsent(g[1..], g[0].0);
      assert Delete(g, g[0].0) == g[1..];
    }
  }

  function TsRun<K(==), V>(capacity: nat, ops: seq<Op<JsKey<K>, V>>): Entries<JsKey<K>, V> {
    if |ops| == 0 then []
    else
      var f := TsRun(capacity, ops[..|ops| - 1]);
      match ops[|ops| - 1]
      case Insert(k, v) => TsPut(f, capacity, k, v)
      case Remove(k) => Delete(f, k)
  }

  /** The two maps hold the same entries after any operations whose keys are never `undefined`. */
  lemma {:induction false} BothMapsAgree<K, V>(capacity: nat, ops: seq<Op<JsKey<K>, V>>)
    requires 0 < capacity
    requires forall i :: 0 <= i < |ops| ==> ops[i].key != Undefined
    ensures TsRun(capacity, ops) == Run(capacity, ops)
    ensures forall e :: e in Run(capacity, ops) ==> e.0 != Undefined
  {
    if ops != [] {
      var last := |ops| - 1;
      BothMapsAgree(capacity, ops[..last]);
      EveryRunIsBounded(capacity, ops[..last]);
      EveryRunIsBounded(capacity, ops);
      var f := Run(capacity, ops[..last]);
      forall e | e in Run(capacity, ops)
        ensures e.0 != Undefined
      {
        if ops[last].Insert? {
          PutFacts(f, capacity, ops[last].key, ops[last].value);
        } else {
          DeleteFacts(f, ops[last].key);
          var i :| 0 <= i < |Delete(f, ops[last].key)| && Delete(f, ops[last].key)[i] == e;
        }
      }
      if ops[last].Insert? {
        assert |f| > 0 ==> f[0] in f;
        TsSetRefinesPut(f, capacity, ops[last].key, ops[last].value);
      }
    }
  }

  /** The abstract insert would evict `undefined`, which the TypeScript map does not do. */
  predicate EvictsUndefined<K(==), V>(f: Entries<JsKey<K>, V>, capacity: nat, op: Op<JsKey<K>, V>) {
    op.Insert? && op.key !in Keys(f) && |f| == capacity && capacity > 0 && f[0].0 == Undefined
  }

  /** After the first `n` operations the two maps hold the same entries. */
  ghost predicate AgreeAfter<K, V>(capacity: nat, ops: seq<Op<JsKey<K>, V>>, n: nat)
    requires n <= |ops|
  {
    TsRun(capacity, ops[..n]) == Run(capacity, ops[..n])
  }

  ghost predicate EvictsUndefinedAt<K, V>(capacity: nat, ops: seq<Op<JsKey<K>, V>>, n: nat)
    requires n < |ops|
  {
    EvictsUndefined(Run(capacity, ops[..n]), capacity, ops[n])
  }

  lemma OneMoreOp<K, V>(capacity: nat, ops: seq<Op<JsKey<K>, V>>, n: nat)
    requires 0 < capacity && n < |ops| && AgreeAfter(capacity, ops, n)
    ensures AgreeAfter(capacity, ops, n + 1) <==> !EvictsUndefinedAt(capacity, ops, n)
  {
    var more, f := ops[..n + 1], Run(capacity, ops[..n]);
    assert more[..|more| - 1] == ops[..n];
    EveryRunIsBounded(capacity, ops[..n]);
    if ops[n].Insert? {
      TsSetRefinesPut(f, capacity, ops[n].key, ops[n].value);
    }
  }

  /** The two maps hold the same entries all along any operations if and only if no insert among them would
      have evicted `undefined`. */
  lemma {:induction false} TheMapsAgreeExactly<K, V>(capacity: nat, ops: seq<Op<JsKey<K>, V>>, n: nat)
    requires 0 < capacity && n <= |ops|
    ensures (forall m :: 0 <= m <= n ==> AgreeAfter(capacity, ops, m))
            <==> forall m :: 0 <= m < n ==> !EvictsUndefinedAt(capacity, ops, m)
    decreases n
  {
    if n > 0 {
      TheMapsAgreeExactly(capacity, ops, n - 1);
      if AgreeAfter(capacity, ops, n - 1) {
        OneMoreOp(capacity, ops, n - 1);
      }
    } else {
      AgreeAtFirst(capacity, ops);
    }
  }

  lemma AgreeAtFirst<K, V>(capacity: nat, ops: seq<Op<JsKey<K>, V>>)
    ensures AgreeAfter(capacity, ops, 0)
  {
    var none := ops[..0];
    assert |none| == 0;
  }

  function Entry<K, V>(keys: seq<K>, v: V): Entries<JsKey<K>, V> {
    seq(|keys|, i requires 0 <= i < |keys| => (Key(keys[i]), v))
  }

  function Inserts<K, V>(keys: seq<K>, v: V): seq<Op<JsKey<K>, V>> {
    seq(|keys|, i requires 0 <= i < |keys| => Insert(Key(keys[i]), v))
  }

  /** From the empty map on: once `undefined` is in, any number of new keys makes the map that much longer. */
  lemma {:induction false} UndefinedPinsTheMap<K, V>(capacity: nat, keys: seq<K>, v: V)
    requires 0 < capacity && forall i, j :: 0 <= i < j < |keys| ==> keys[i] != keys[j]
    ensures TsRun(capacity, [Insert(Undefined, v)] + Inserts(keys, v)) == [(Undefined, v)] + Entry(keys, v)
  {
    if |keys| == 0 {
      PinnedAtFirst<K, V>(capacity, Undefined, v);
      assert [Insert(Undefined, v)] + Inserts(keys, v) == [Insert(Undefined, v)];
      assert [(Undefined, v)] + Entry(keys, v) == [(Undefined, v)];
    } else {
      UndefinedPinsTheMap(capacity, keys[..|keys| - 1], v);
      PinsOneMore(capacity, keys, v);
    }
  }

  lemma PinsOneMore<K, V>(capacity: nat, keys: seq<K>, v: V)
    requires |keys| > 0 && forall i, j :: 0 <= i < j < |keys| ==> keys[i] != keys[j]
    requires TsRun(capacity, [Insert(Undefined, v)] + Inserts(keys[..|keys| - 1], v))
             == [(Undefined, v)] + Entry(keys[..|keys| - 1], v)
    ensures TsRun(capacity, [Insert(Undefined, v)] + Inserts(keys, v)) == [(Undefined, v)] + Entry(keys, v)
  {
    var front, key := keys[..|keys| - 1], Key(keys[|keys| - 1]);
    var ops, f := [Insert(Undefined, v)] + Inserts(front, v), [(Undefined, v)] + Entry(front, v);
    OneMoreKey(keys, v);
    assert forall i :: 0 < i < |f| ==> f[i].0 == Key(keys[i - 1]);
    PinnedAfter(capacity, ops, f, key, v);
  }

  lemma OneMoreKey<K, V>(keys: seq<K>, v: V)
    requires |keys| > 0
    ensures var front, key := keys[..|keys| - 1], Key(keys[|keys| - 1]);
            && [Insert(Undefined, v)] + Inserts(keys, v)
               == [Insert(Undefined, v)] + Inserts(front, v) + [Insert(key, v)]
            && [(Undefined, v)] + Entry(keys, v) == [(Undefined, v)] + Entry(front, v) + [(key, v)]
  {
  }

  lemma PinnedAtFirst<K, V>(capacity: nat, k: JsKey<K>, v: V)
    requires 0 < capacity
    ensures TsRun(capacity, [Insert(k, v)]) == [(k, v)]
  {
    var ops: seq<Op<JsKey<K>, V>> := [Insert(k, v)];
    var before := ops[..|ops| - 1];
    assert |before| == 0 && |TsRun(capacity, before)| == 0;
    assert ops[|ops| - 1] == Insert(k, v);
  }

  lemma PinnedAfter<K, V>(capacity: nat, ops: seq<Op<JsKey<K>, V>>, f: Entries<JsKey<K>, V>, k: JsKey<K>, v: V)
    requires f == TsRun(capacity, ops) && |f| > 0 && f[0].0 == Undefined
    requires forall i :: 0 <= i < |f| ==> f[i].0 != k
    ensures TsRun(capacity, ops + [Insert(k, v)]) == f + [(k, v)]
  {
    var more := ops + [Insert(k, v)];
    assert more[..|more| - 1] == ops && more[|more| - 1] == Insert(k, v);
    assert forall i :: 0 <= i < |f| ==> Keys(f)[i] == f[i].0;
  }
}
