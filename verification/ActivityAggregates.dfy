/** Totals, series and cadence of a window's commits, and why they agree.

    Calendar facts come with each commit. The bucket starts of a week cut are any ascending, non-empty list:
    local midnights need not be seven times 24 hours apart. */
module ActivityAggregates {
  /** `weekday` counts from Sunday, as the platform does. */
  datatype Commit = Commit(at: int, project: string, added: int, removed: int, files: int,
                           day: string, weekday: nat, hour: nat)

  predicate OnCalendar(c: Commit) {
    c.weekday < 7 && c.hour < 24
  }

  /** What a bucket holds of one project, or what several slices add up to. */
  datatype Slice = Slice(commits: nat, added: int, removed: int)

  const NOTHING := Slice(0, 0, 0)

  function Plus(a: Slice, b: Slice): Slice {
    Slice(a.commits + b.commits, a.added + b.added, a.removed + b.removed)
  }

  function Of(c: Commit): Slice {
    Slice(1, c.added, c.removed)
  }

  // ---------- Reference definitions ----------

  function Added(commits: seq<Commit>): int {
    if |commits| == 0 then 0 else Added(commits[..|commits| - 1]) + commits[|commits| - 1].added
  }

  function Removed(commits: seq<Commit>): int {
    if |commits| == 0 then 0 else Removed(commits[..|commits| - 1]) + commits[|commits| - 1].removed
  }

  function Files(commits: seq<Commit>): int {
    if |commits| == 0 then 0 else Files(commits[..|commits| - 1]) + commits[|commits| - 1].files
  }

  /** How many commits there are, and their lines. */
  function AddUp(commits: seq<Commit>): Slice {
    Slice(|commits|, Added(commits), Removed(commits))
  }

  lemma AddUpMore(commits: seq<Commit>, c: Commit)
    ensures AddUp(commits + [c]) == Plus(AddUp(commits), Of(c))
  {
    assert (commits + [c])[..|commits|] == commits;
  }

  /** The bucket starts of a range, oldest first, and the step between them. */
  datatype Cut = Cut(starts: seq<int>, step: int)

  predicate ValidCut(cut: Cut) {
    cut.starts != [] && cut.step > 0
  }

  /** The bucket a commit falls in: the last one takes everything later, and earlier commits fall out. */
  function BucketOf(c: Commit, cut: Cut): int
    requires ValidCut(cut)
  {
    var raw := (c.at - cut.starts[0]) / cut.step;
    if raw < |cut.starts| - 1 then raw else |cut.starts| - 1
  }

  /** The commits of bucket `b` and project `p`, in order. */
  function Cell(commits: seq<Commit>, cut: Cut, b: int, p: string): seq<Commit>
    requires ValidCut(cut)
  {
    if |commits| == 0 then []
    else
      var last, before := commits[|commits| - 1], Cell(commits[..|commits| - 1], cut, b, p);
      if BucketOf(last, cut) == b && last.project == p then before + [last] else before
  }

  function Expected(commits: seq<Commit>, cut: Cut, b: int, p: string): Slice
    requires ValidCut(cut)
  {
    AddUp(Cell(commits, cut, b, p))
  }

  /** The projects of bucket `b`, in order of first appearance. */
  function Projects(commits: seq<Commit>, cut: Cut, b: int): seq<string>
    requires ValidCut(cut)
  {
    if |commits| == 0 then []
    else
      var last, before := commits[|commits| - 1], Projects(commits[..|commits| - 1], cut, b);
      if BucketOf(last, cut) == b && last.project !in before then before + [last.project] else before
  }

  /** The commits that are not earlier than the first bucket. */
  function NotTooEarly(commits: seq<Commit>, cut: Cut): seq<Commit>
    requires ValidCut(cut)
  {
    if |commits| == 0 then []
    else
      var last, before := commits[|commits| - 1], NotTooEarly(commits[..|commits| - 1], cut);
      if last.at >= cut.starts[0] then before + [last] else before
  }

  function Placed(commits: seq<Commit>, cut: Cut): Slice
    requires ValidCut(cut)
  {
    AddUp(NotTooEarly(commits, cut))
  }

  /** The first commit of bucket `b` and project `p`, or past the end. */
  function FirstOf(commits: seq<Commit>, cut: Cut, b: int, p: string): (k: nat)
    requires ValidCut(cut)
    ensures k < |commits| ==> BucketOf(commits[k], cut) == b && commits[k].project == p
    ensures forall i :: 0 <= i < k && i < |commits| ==> BucketOf(commits[i], cut) != b || commits[i].project != p
  {
    if |commits| == 0 then 0
    else if BucketOf(commits[0], cut) == b && commits[0].project == p then 0
    else 1 + FirstOf(commits[1..], cut, b, p)
  }

  lemma FirstOfMore(commits: seq<Commit>, c: Commit, cut: Cut, b: int, p: string)
    requires ValidCut(cut)
    ensures FirstOf(commits, cut, b, p) < |commits| ==>
              FirstOf(commits + [c], cut, b, p) == FirstOf(commits, cut, b, p)
    ensures FirstOf(commits, cut, b, p) >= |commits| ==>
              (FirstOf(commits + [c], cut, b, p) == |commits| <==> BucketOf(c, cut) == b && c.project == p)
              && FirstOf(commits + [c], cut, b, p) >= |commits|
  {
    var k, m := FirstOf(commits, cut, b, p), FirstOf(commits + [c], cut, b, p);
    assert forall i :: 0 <= i < |commits| ==> (commits + [c])[i] == commits[i];
    assert (commits + [c])[|commits|] == c;
  }

  /** A bucket's projects are those of its commits, in the order of their first commits. */
  lemma {:induction false} ProjectsInOrder(commits: seq<Commit>, cut: Cut, b: int)
    requires ValidCut(cut)
    ensures forall p :: p in Projects(commits, cut, b) <==> FirstOf(commits, cut, b, p) < |commits|
    ensures forall i, j :: 0 <= i < j < |Projects(commits, cut, b)| ==>
                             FirstOf(commits, cut, b, Projects(commits, cut, b)[i])
                             < FirstOf(commits, cut, b, Projects(commits, cut, b)[j])
  {
    if |commits| > 0 {
      var front, last := commits[..|commits| - 1], commits[|commits| - 1];
      ProjectsInOrder(front, cut, b);
      assert commits == front + [last];
      var before, now := Projects(front, cut, b), Projects(commits, cut, b);
      forall p
        ensures p in now <==> FirstOf(commits, cut, b, p) < |commits|
        ensures p in before ==> FirstOf(commits, cut, b, p) == FirstOf(front, cut, b, p) < |front|
      {
        FirstOfMore(front, last, cut, b, p);
        assert now == before || now == before + [last.project];
      }
      if now != before {
        assert FirstOf(commits, cut, b, last.project) >= |front| by {
          FirstOfMore(front, last, cut, b, last.project);
        }
        assert now == before + [last.project];
      }
    }
  }

  /** One slice per project, in order of first appearance. */
  datatype Bucket = Bucket(order: seq<string>, slices: map<string, Slice>)

  ghost predicate WellFormed(bucket: Bucket) {
    && (forall i, j :: 0 <= i < j < |bucket.order| ==> bucket.order[i] != bucket.order[j])
    && (forall p :: p in bucket.order <==> p in bucket.slices)
  }

  function SliceIn(slices: map<string, Slice>, p: string): Slice {
    if p in slices then slices[p] else NOTHING
  }

  function TotalOver(order: seq<string>, slices: map<string, Slice>): Slice {
    if |order| == 0 then NOTHING else Plus(SliceIn(slices, order[0]), TotalOver(order[1..], slices))
  }

  function BucketTotal(bucket: Bucket): Slice {
    TotalOver(bucket.order, bucket.slices)
  }

  function SeriesTotal(buckets: seq<Bucket>): Slice {
    if |buckets| == 0 then NOTHING else Plus(BucketTotal(buckets[0]), SeriesTotal(buckets[1..]))
  }

  function Sum(counts: seq<nat>): nat {
    if |counts| == 0 then 0 else counts[0] + Sum(counts[1..])
  }

  // ---------- The series ----------

  lemma PlusMoves(a: Slice, b: Slice, more: Slice)
    ensures Plus(Plus(a, more), b) == Plus(Plus(a, b), more) == Plus(a, Plus(b, more))
  {
  }

  /** The bucket with a commit added to its project's slice. */
  function Grown(bucket: Bucket, c: Commit): Bucket {
    Bucket(if c.project in bucket.slices then bucket.order else bucket.order + [c.project],
           bucket.slices[c.project := Plus(SliceIn(bucket.slices, c.project), Of(c))])
  }

  lemma {:induction false} TotalElsewhere(order: seq<string>, slices: map<string, Slice>, p: string, v: Slice)
    requires p !in order
    ensures TotalOver(order, slices[p := v]) == TotalOver(order, slices)
  {
    if order != [] {
      TotalElsewhere(order[1..], slices, p, v);
    }
  }

  lemma {:induction false} TotalAppend(order: seq<string>, slices: map<string, Slice>, p: string)
    ensures TotalOver(order + [p], slices) == Plus(TotalOver(order, slices), SliceIn(slices, p))
  {
    if order == [] {
      assert order + [p] == [p] && [p][1..] == [];
    } else {
      assert (order + [p])[1..] == order[1..] + [p];
      TotalAppend(order[1..], slices, p);
    }
  }

  lemma {:induction false} TotalUpdate(order: seq<string>, slices: map<string, Slice>, p: string, more: Slice)
    requires p in order && forall i, j :: 0 <= i < j < |order| ==> order[i] != order[j]
    ensures TotalOver(order, slices[p := Plus(SliceIn(slices, p), more)]) == Plus(TotalOver(order, slices), more)
  {
    var after, rest := slices[p := Plus(SliceIn(slices, p), more)], TotalOver(order[1..], slices);
    PlusMoves(SliceIn(slices, order[0]), rest, more);
    if order[0] == p {
      TotalElsewhere(order[1..], slices, p, Plus(SliceIn(slices, p), more));
      assert TotalOver(order[1..], after) == rest;
    } else {
      TotalUpdate(order[1..], slices, p, more);
      assert SliceIn(after, order[0]) == SliceIn(slices, order[0]);
    }
  }

  lemma GrownFacts(bucket: Bucket, c: Commit)
    requires WellFormed(bucket)
    ensures WellFormed(Grown(bucket, c)) && BucketTotal(Grown(bucket, c)) == Plus(BucketTotal(bucket), Of(c))
  {
    var p := c.project;
    if p in bucket.slices {
      TotalUpdate(bucket.order, bucket.slices, p, Of(c));
    } else {
      TotalElsewhere(bucket.order, bucket.slices, p, Plus(NOTHING, Of(c)));
      TotalAppend(bucket.order, Grown(bucket, c).slices, p);
    }
  }

  lemma {:induction false} SeriesTotalUpdate(buckets: seq<Bucket>, b: nat, bucket: Bucket, more: Slice)
    requires b < |buckets|
    ensures BucketTotal(bucket) == Plus(BucketTotal(buckets[b]), more) ==>
              SeriesTotal(buckets[b := bucket]) == Plus(SeriesTotal(buckets), more)
  {
    PlusMoves(BucketTotal(buckets[0]), SeriesTotal(buckets[1..]), more);
    if b > 0 {
      assert buckets[b := bucket][1..] == buckets[1..][b - 1 := bucket];
      SeriesTotalUpdate(buckets[1..], b - 1, bucket, more);
    } else {
      assert buckets[0 := bucket][1..] == buckets[1..];
    }
  }

  /** Bucket `b` holds exactly its commits, project by project. */
  ghost predicate BucketRight(bucket: Bucket, commits: seq<Commit>, cut: Cut, b: int)
    requires ValidCut(cut)
  {
    && WellFormed(bucket) && bucket.order == Projects(commits, cut, b)
    && forall p :: SliceIn(bucket.slices, p) == Expected(commits, cut, b, p)
  }

  /** The buckets hold exactly `commits`. */
  ghost predicate Holds(buckets: seq<Bucket>, commits: seq<Commit>, cut: Cut)
    requires ValidCut(cut)
  {
    && (forall b :: 0 <= b < |buckets| ==> BucketRight(buckets[b], commits, cut, b))
    && SeriesTotal(buckets) == Placed(commits, cut)
  }

  lemma ExpectedAppend(commits: seq<Commit>, cut: Cut, c: Commit, b: int, p: string)
    requires ValidCut(cut)
    ensures Expected(commits + [c], cut, b, p)
            == if BucketOf(c, cut) == b && c.project == p then Plus(Expected(commits, cut, b, p), Of(c))
               else Expected(commits, cut, b, p)
  {
    AddUpMore(Cell(commits, cut, b, p), c);
    assert (commits + [c])[..|commits|] == commits;
  }

  lemma ProjectsAppend(commits: seq<Commit>, cut: Cut, c: Commit, b: int)
    requires ValidCut(cut)
    ensures var before := Projects(commits, cut, b);
            Projects(commits + [c], cut, b)
            == if BucketOf(c, cut) == b && c.project !in before then before + [c.project] else before
  {
    assert (commits + [c])[..|commits|] == commits;
  }

  lemma PlacedAppend(commits: seq<Commit>, cut: Cut, c: Commit)
    requires ValidCut(cut)
    ensures Placed(commits + [c], cut)
            == if BucketOf(c, cut) >= 0 then Plus(Placed(commits, cut), Of(c)) else Placed(commits, cut)
  {
    BucketSign(c, cut);
    AddUpMore(NotTooEarly(commits, cut), c);
    assert (commits + [c])[..|commits|] == commits;
  }

  lemma BucketStaysRight(bucket: Bucket, commits: seq<Commit>, cut: Cut, c: Commit, b: int)
    requires ValidCut(cut) && BucketRight(bucket, commits, cut, b)
    ensures BucketRight(if BucketOf(c, cut) == b then Grown(bucket, c) else bucket, commits + [c], cut, b)
  {
    GrownFacts(bucket, c);
    ProjectsAppend(commits, cut, c, b);
    forall p
      ensures SliceIn((if BucketOf(c, cut) == b then Grown(bucket, c) else bucket).slices, p)
              == Expected(commits + [c], cut, b, p)
    {
      ExpectedAppend(commits, cut, c, b, p);
    }
  }

  /** The buckets with a commit added where it falls, if it falls anywhere. */
  function WithCommit(buckets: seq<Bucket>, cut: Cut, c: Commit): seq<Bucket>
    requires ValidCut(cut) && |buckets| == |cut.starts|
  {
    var index := BucketOf(c, cut);
    if index < 0 then buckets else buckets[index := Grown(buckets[index], c)]
  }

  lemma HoldsMore(buckets: seq<Bucket>, commits: seq<Commit>, cut: Cut, c: Commit)
    requires ValidCut(cut) && |buckets| == |cut.starts|
    ensures Holds(buckets, commits, cut) ==> Holds(WithCommit(buckets, cut, c), commits + [c], cut)
  {
    var index, after := BucketOf(c, cut), WithCommit(buckets, cut, c);
    if Holds(buckets, commits, cut) {
      PlacedAppend(commits, cut, c);
      if index >= 0 {
        GrownFacts(buckets[index], c);
        SeriesTotalUpdate(buckets, index, after[index], Of(c));
      }
      forall b | 0 <= b < |after|
        ensures BucketRight(after[b], commits + [c], cut, b)
      {
        BucketStaysRight(buckets[b], commits, cut, c, b);
      }
    }
  }

  predicate Unused(bucket: Bucket) {
    |bucket.order| == 0 && |bucket.slices| == 0
  }

  lemma {:induction false} EmptySeries(buckets: seq<Bucket>)
    requires forall b :: 0 <= b < |buckets| ==> Unused(buckets[b])
    ensures SeriesTotal(buckets) == NOTHING
    decreases |buckets|
  {
    if |buckets| > 0 {
      EmptySeries(buckets[1..]);
    }
  }

  lemma UnusedIsRight(bucket: Bucket, commits: seq<Commit>, cut: Cut, b: int)
    requires ValidCut(cut) && |commits| == 0 && Unused(bucket)
    ensures BucketRight(bucket, commits, cut, b)
  {
    assert forall p :: p !in bucket.slices;
    assert |Projects(commits, cut, b)| == 0 && bucket.order == Projects(commits, cut, b);
    assert forall p :: Expected(commits, cut, b, p) == NOTHING;
  }

  lemma HoldsNothing(buckets: seq<Bucket>, commits: seq<Commit>, cut: Cut)
    requires ValidCut(cut) && |commits| == 0 && forall b :: 0 <= b < |buckets| ==> Unused(buckets[b])
    ensures Holds(buckets, commits, cut)
  {
    EmptySeries(buckets);
    assert Placed(commits, cut) == NOTHING;
    forall b | 0 <= b < |buckets|
      ensures BucketRight(buckets[b], commits, cut, b)
    {
      UnusedIsRight(buckets[b], commits, cut, b);
    }
  }

  /** `seriesFrom`: every bucket holds exactly its commits, project by project, and the whole series adds
      up to the commits that fall in some bucket. */
  method SeriesFrom(commits: seq<Commit>, cut: Cut) returns (buckets: seq<Bucket>)
    requires ValidCut(cut)
    ensures |buckets| == |cut.starts| && Holds(buckets, commits, cut)
    ensures Ascending(cut) && (forall c :: c in commits ==> OnGrid(c, cut)) ==> HoldsByTime(buckets, commits, cut)
  {
    buckets := NewBuckets(|cut.starts|);
    HoldsNothing(buckets, commits[..0], cut);
    for i := 0 to |commits|
      invariant |buckets| == |cut.starts| && Holds(buckets, commits[..i], cut)
    {
      assert commits[..i + 1] == commits[..i] + [commits[i]];
      HoldsMore(buckets, commits[..i], cut, commits[i]);
      buckets := AddCommit(buckets, cut, commits[i]);
    }
    assert commits[..|commits|] == commits;
    ghost var onGrid := Ascending(cut) && forall c :: c in commits ==> OnGrid(c, cut);
    if onGrid {
      BucketsHoldTheirTimes(buckets, commits, cut);
    }
  }

  method NewBuckets(n: nat) returns (buckets: seq<Bucket>)
    ensures |buckets| == n && forall b :: 0 <= b < n ==> Unused(buckets[b])
  {
    buckets := seq(n, _ => Bucket([], map[]));
  }

  method AddCommit(buckets: seq<Bucket>, cut: Cut, c: Commit) returns (after: seq<Bucket>)
    requires ValidCut(cut) && |buckets| == |cut.starts|
    ensures after == WithCommit(buckets, cut, c)
  {
    var index := BucketOf(c, cut);
    after := buckets;
    if index >= 0 {
      var bucket := buckets[index];
      var slice := if c.project in bucket.slices then bucket.slices[c.project] else NOTHING;
      slice := Slice(slice.commits + 1, slice.added + c.added, slice.removed + c.removed);
      var order := if c.project in bucket.slices then bucket.order else bucket.order + [c.project];
      after := buckets[index := Bucket(order, bucket.slices[c.project := slice])];
    }
  }

  /** A commit falls out of the series exactly when it is earlier than the first bucket. */
  lemma BucketSign(c: Commit, cut: Cut)
    requires ValidCut(cut)
    ensures BucketOf(c, cut) >= 0 <==> c.at >= cut.starts[0]
  {
  }

  // ---------- Buckets and time ----------

  predicate Ascending(cut: Cut) {
    forall i, j :: 0 <= i < j < |cut.starts| ==> cut.starts[i] < cut.starts[j]
  }

  /** Where the `i`th start would be if all were a step apart. */
  function Nominal(cut: Cut, i: nat): int
    requires ValidCut(cut)
  {
    cut.starts[0] + i * cut.step
  }

  predicate Even(cut: Cut)
    requires ValidCut(cut)
  {
    forall i :: 0 <= i < |cut.starts| ==> cut.starts[i] == Nominal(cut, i)
  }

  /** The commit lies between the start of bucket `b` and the next one; the last bucket has no end. */
  predicate InBucket(c: Commit, cut: Cut, b: int) {
    && 0 <= b < |cut.starts| && cut.starts[b] <= c.at
    && (b + 1 < |cut.starts| ==> c.at < cut.starts[b + 1])
  }

  /** The actual and the nominal starts agree on which side of them the commit lies. */
  predicate OnGrid(c: Commit, cut: Cut)
    requires ValidCut(cut)
  {
    forall i :: 0 < i < |cut.starts| ==> (cut.starts[i] <= c.at <==> Nominal(cut, i) <= c.at)
  }

  lemma IndexReaches(c: Commit, cut: Cut, i: nat)
    requires ValidCut(cut) && i < |cut.starts|
    ensures BucketOf(c, cut) >= i <==> c.at >= Nominal(cut, i)
  {
    QuotientReaches(c.at - cut.starts[0], cut.step, i);
  }

  lemma QuotientReaches(x: int, step: int, i: int)
    requires step > 0
    ensures x / step >= i <==> x >= i * step
  {
    var q := x / step;
    assert x == q * step + x % step;
    if q >= i {
      TimesGrows(i, q, step);
    } else {
      TimesGrows(q + 1, i, step);
    }
  }

  lemma TimesGrows(a: int, b: int, step: int)
    requires a <= b && step > 0
    ensures a * step <= b * step
  {
  }

  /** A commit is put in the bucket it lies in if and only if no start is on the other side of it than the
      nominal one. */
  lemma PlacedByTimeExactly(c: Commit, cut: Cut, b: nat)
    requires ValidCut(cut) && Ascending(cut) && InBucket(c, cut, b)
    ensures BucketOf(c, cut) == b <==> OnGrid(c, cut)
  {
    var index := BucketOf(c, cut);
    forall i | 0 < i < |cut.starts|
      ensures cut.starts[i] <= c.at <==> i <= b
      ensures Nominal(cut, i) <= c.at <==> i <= index
    {
      IndexReaches(c, cut, i);
      assert i > b + 1 ==> cut.starts[b + 1] < cut.starts[i];
    }
    IndexReaches(c, cut, 0);
    assert 0 <= index < |cut.starts|;
    if OnGrid(c, cut) {
      assert index > 0 ==> index <= b;
      assert b > 0 ==> b <= index;
    }
  }

  lemma {:induction false} SomeBucket(c: Commit, cut: Cut, n: nat) returns (b: nat)
    requires ValidCut(cut) && cut.starts[0] <= c.at && n < |cut.starts|
    requires n + 1 < |cut.starts| ==> c.at < cut.starts[n + 1]
    ensures InBucket(c, cut, b)
  {
    if cut.starts[n] <= c.at {
      b := n;
    } else {
      b := SomeBucket(c, cut, n - 1);
    }
  }

  /** A cut puts every possible commit in the bucket it lies in if and only if its starts are a step apart. */
  lemma CutsAreExactWhenEven(cut: Cut)
    requires ValidCut(cut) && Ascending(cut)
    ensures Even(cut) <==> forall c, b: nat :: InBucket(c, cut, b) ==> BucketOf(c, cut) == b
  {
    if Even(cut) {
      forall c, b: nat | InBucket(c, cut, b)
        ensures BucketOf(c, cut) == b
      {
        PlacedByTimeExactly(c, cut, b);
      }
    } else {
      var i :| 0 <= i < |cut.starts| && cut.starts[i] != Nominal(cut, i);
      var at := if cut.starts[i] < Nominal(cut, i) then cut.starts[i] else Nominal(cut, i);
      var c := Commit(at, "", 0, 0, 0, "", 0, 0);
      assert 0 < i && cut.starts[0] < cut.starts[i] && 0 <= i * cut.step;
      var b := SomeBucket(c, cut, |cut.starts| - 1);
      PlacedByTimeExactly(c, cut, b);
      assert !OnGrid(c, cut);
      assert BucketOf(c, cut) != b;
    }
  }

  /** The commits of project `p` between the start of bucket `b` and the next one, in order. */
  function During(commits: seq<Commit>, cut: Cut, b: int, p: string): seq<Commit> {
    if |commits| == 0 then []
    else
      var last, before := commits[|commits| - 1], During(commits[..|commits| - 1], cut, b, p);
      if InBucket(last, cut, b) && last.project == p then before + [last] else before
  }

  /** Every bucket holds what lies between its start and the next one, project by project. */
  ghost predicate HoldsByTime(buckets: seq<Bucket>, commits: seq<Commit>, cut: Cut) {
    forall b, p :: 0 <= b < |buckets| ==> SliceIn(buckets[b].slices, p) == AddUp(During(commits, cut, b, p))
  }

  lemma InBucketIsIndex(c: Commit, cut: Cut, b: int)
    requires ValidCut(cut) && Ascending(cut) && OnGrid(c, cut) && 0 <= b < |cut.starts|
    ensures BucketOf(c, cut) == b <==> InBucket(c, cut, b)
  {
    BucketSign(c, cut);
    if c.at >= cut.starts[0] {
      var d := SomeBucket(c, cut, |cut.starts| - 1);
      PlacedByTimeExactly(c, cut, d);
      if InBucket(c, cut, b) {
        PlacedByTimeExactly(c, cut, b);
      }
    } else if b > 0 {
      assert cut.starts[0] < cut.starts[b];
    }
  }

  lemma {:induction false} CellIsDuring(commits: seq<Commit>, cut: Cut, b: int, p: string)
    requires ValidCut(cut) && Ascending(cut) && 0 <= b < |cut.starts|
    requires forall c :: c in commits ==> OnGrid(c, cut)
    ensures Cell(commits, cut, b, p) == During(commits, cut, b, p)
  {
    if |commits| > 0 {
      assert commits[|commits| - 1] in commits;
      InBucketIsIndex(commits[|commits| - 1], cut, b);
      CellIsDuring(commits[..|commits| - 1], cut, b, p);
    }
  }

  lemma BucketsHoldTheirTimes(buckets: seq<Bucket>, commits: seq<Commit>, cut: Cut)
    requires ValidCut(cut) && Ascending(cut) && |buckets| == |cut.starts|
    requires forall c :: c in commits ==> OnGrid(c, cut)
    ensures Holds(buckets, commits, cut) ==> HoldsByTime(buckets, commits, cut)
  {
    forall b, p | 0 <= b < |buckets| && Holds(buckets, commits, cut)
      ensures SliceIn(buckets[b].slices, p) == AddUp(During(commits, cut, b, p))
    {
      CellIsDuring(commits, cut, b, p);
      assert BucketRight(buckets[b], commits, cut, b);
    }
  }

  lemma StepsAscend(i: int, j: int, step: int)
    requires i < j && step > 0
    ensures i * step < j * step
  {
    TimesGrows(i + 1, j, step);
  }

  /** `bucketStarts` for hours and days: even, from the range's start up to its end. */
  method EvenStarts(start: int, end: int, step: int) returns (starts: seq<int>)
    requires step > 0
    ensures starts == [] <==> end <= start
    ensures start < end ==> starts[0] == start && Even(Cut(starts, step)) && Ascending(Cut(starts, step))
    ensures start < end ==> starts[|starts| - 1] < end <= starts[|starts| - 1] + step
  {
    starts := [];
    var at := start;
    while at < end
      invariant at == start + |starts| * step
      invariant |starts| == 0 ==> at == start
      invariant forall i :: 0 <= i < |starts| ==> starts[i] == start + i * step
      invariant |starts| > 0 ==> starts[|starts| - 1] < end
      decreases end - at
    {
      starts := starts + [at];
      at := at + step;
    }
    forall i, j | 0 <= i < j < |starts|
      ensures starts[i] < starts[j]
    {
      StepsAscend(i, j, step);
    }
  }

  // ---------- Totals and cadence ----------

  datatype Totals = Totals(commits: nat, added: int, removed: int, files: int, activeDays: nat)

  method TotalsFrom(commits: seq<Commit>) returns (t: Totals)
    ensures t.added == Added(commits) && t.removed == Removed(commits) && t.files == Files(commits)
    ensures t.activeDays == |set c | c in commits :: c.day| && t.activeDays <= t.commits == |commits|
  {
    t := Totals(0, 0, 0, 0, 0);
    var days: set<string> := {};
    for i := 0 to |commits|
      invariant t.added == Added(commits[..i]) && t.removed == Removed(commits[..i]) && t.files == Files(commits[..i])
      invariant days == (set c | c in commits[..i] :: c.day) && |days| <= t.commits == i
    {
      var c := commits[i];
      assert commits[..i + 1] == commits[..i] + [c] && commits[..i + 1][..i] == commits[..i];
      t := t.(commits := t.commits + 1, added := t.added + c.added, removed := t.removed + c.removed,
              files := t.files + c.files);
      days := days + {c.day};
    }
    assert commits[..|commits|] == commits;
    t := t.(activeDays := |days|);
  }

  function MondayFirst(weekday: nat): nat {
    (weekday + 6) % 7
  }

  /** `w` counts from Sunday. */
  function OnWeekday(commits: seq<Commit>, w: nat): nat {
    if |commits| == 0 then 0
    else OnWeekday(commits[..|commits| - 1], w) + (if commits[|commits| - 1].weekday == w then 1 else 0)
  }

  function AtHour(commits: seq<Commit>, h: nat): nat {
    if |commits| == 0 then 0
    else AtHour(commits[..|commits| - 1], h) + (if commits[|commits| - 1].hour == h then 1 else 0)
  }

  lemma {:induction false} SumUpdate(counts: seq<nat>, i: nat, n: nat)
    requires i < |counts|
    ensures Sum(counts[i := n]) + counts[i] == Sum(counts) + n
  {
    if i > 0 {
      assert counts[i := n][1..] == counts[1..][i - 1 := n];
      SumUpdate(counts[1..], i - 1, n);
    } else {
      assert counts[0 := n][1..] == counts[1..];
    }
  }

  lemma {:induction false} SumZeros(counts: seq<nat>)
    requires forall i :: 0 <= i < |counts| ==> counts[i] == 0
    ensures Sum(counts) == 0
  {
    if |counts| > 0 {
      SumZeros(counts[1..]);
    }
  }

  /** The commits counted by weekday from Monday to Sunday, which accounts for each of them. */
  ghost predicate ByWeekday(counts: seq<nat>, commits: seq<Commit>) {
    && |counts| == 7 && Sum(counts) == |commits|
    && counts[6] == OnWeekday(commits, 0)
    && forall w: nat :: 1 <= w < 7 ==> counts[w - 1] == OnWeekday(commits, w)
  }

  ghost predicate ByHour(counts: seq<nat>, commits: seq<Commit>) {
    |counts| == 24 && Sum(counts) == |commits| && forall h: nat :: h < 24 ==> counts[h] == AtHour(commits, h)
  }

  lemma ByWeekdayMore(counts: seq<nat>, commits: seq<Commit>, c: Commit)
    requires ByWeekday(counts, commits) && OnCalendar(c)
    ensures var d := MondayFirst(c.weekday); ByWeekday(counts[d := counts[d] + 1], commits + [c])
  {
    SumUpdate(counts, MondayFirst(c.weekday), counts[MondayFirst(c.weekday)] + 1);
    assert (commits + [c])[..|commits|] == commits;
  }

  lemma ByHourMore(counts: seq<nat>, commits: seq<Commit>, c: Commit)
    requires ByHour(counts, commits) && OnCalendar(c)
    ensures ByHour(counts[c.hour := counts[c.hour] + 1], commits + [c])
  {
    SumUpdate(counts, c.hour, counts[c.hour] + 1);
    assert (commits + [c])[..|commits|] == commits;
  }

  /** `cadenceFrom`: counts by Monday-first weekday and by hour; each adds up to the commits. */
  method CadenceFrom(commits: seq<Commit>) returns (byWeekday: seq<nat>, byHour: seq<nat>)
    requires forall c :: c in commits ==> OnCalendar(c)
    ensures ByWeekday(byWeekday, commits) && ByHour(byHour, commits)
  {
    byWeekday, byHour := seq(7, _ => 0), seq(24, _ => 0);
    SumZeros(byWeekday);
    SumZeros(byHour);
    for i := 0 to |commits|
      invariant ByWeekday(byWeekday, commits[..i]) && ByHour(byHour, commits[..i])
    {
      var c := commits[i];
      assert commits[..i + 1] == commits[..i] + [c] && OnCalendar(c);
      var d := MondayFirst(c.weekday);
      ByWeekdayMore(byWeekday, commits[..i], c);
      ByHourMore(byHour, commits[..i], c);
      byWeekday := byWeekday[d := byWeekday[d] + 1];
      byHour := byHour[c.hour := byHour[c.hour] + 1];
    }
    assert commits[..|commits|] == commits;
  }

  /** In a windowed log nothing is earlier than the first bucket, so the series holds every commit. */
  lemma {:induction false} WindowedLogIsPlaced(commits: seq<Commit>, cut: Cut)
    requires ValidCut(cut) && forall c :: c in commits ==> c.at >= cut.starts[0]
    ensures NotTooEarly(commits, cut) == commits
  {
    if commits != [] {
      var front, last := commits[..|commits| - 1], commits[|commits| - 1];
      assert last in commits && commits == front + [last];
      WindowedLogIsPlaced(front, cut);
    }
  }

  /** The cards agree: for any windowed log, the series, the totals, the weekdays and the hours all count
      the same commits, and the series and the totals the same lines. */
  method CardsAgree(commits: seq<Commit>, cut: Cut)
    returns (t: Totals, buckets: seq<Bucket>, byWeekday: seq<nat>, byHour: seq<nat>)
    requires ValidCut(cut) && forall c :: c in commits ==> OnCalendar(c) && c.at >= cut.starts[0]
    ensures SeriesTotal(buckets) == Slice(t.commits, t.added, t.removed)
    ensures t.added == Added(commits) && t.removed == Removed(commits)
    ensures t.commits == SeriesTotal(buckets).commits == Sum(byWeekday) == Sum(byHour) == |commits|
  {
    t := TotalsFrom(commits);
    buckets := SeriesFrom(commits, cut);
    byWeekday, byHour := CadenceFrom(commits);
    WindowedLogIsPlaced(commits, cut);
  }
}
