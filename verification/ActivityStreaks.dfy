/** Streaks over the activity heatmap, and the busiest day of a window. */
module ActivityStreaks {
  import opened Options

  datatype Day = Day(date: string, commits: int)

  datatype Streaks = Streaks(
    currentDays: nat,
    currentStart: Option<string>,
    longestDays: nat,
    longestStart: Option<string>,
    longestEnd: Option<string>)

  /** The `n` days before index `e` are all active. */
  ghost predicate RunTo(days: seq<Day>, e: nat, n: nat) {
    n <= e <= |days| && forall k :: e - n <= k < e ==> days[k].commits > 0
  }

  /** `n` is the length of the longest active run. */
  ghost predicate IsLongest(days: seq<Day>, n: nat) {
    (exists e: nat :: RunTo(days, e, n)) && forall e: nat, m: nat :: RunTo(days, e, m) ==> m <= n
  }

  /** The first run of length `n` ends just before `e`. */
  ghost predicate FirstEnds(days: seq<Day>, n: nat, e: nat) {
    RunTo(days, e, n) && forall j: nat :: RunTo(days, j, n) ==> e <= j
  }

  /** `n` is the length of the active run that ends the heatmap. */
  ghost predicate IsCurrent(days: seq<Day>, n: nat) {
    RunTo(days, |days|, n) && forall m: nat :: RunTo(days, |days|, m) ==> m <= n
  }

  /** The dates name the first longest run. */
  ghost predicate NamesFirstLongest(days: seq<Day>, s: Streaks) {
    exists e: nat :: FirstEnds(days, s.longestDays, e) && 0 < s.longestDays <= e <= |days|
                && s.longestStart == Some(days[e - s.longestDays].date) && s.longestEnd == Some(days[e - 1].date)
  }

  /** `streaksFrom`: the current streak is the maximal active suffix, the longest is the maximum over all
      runs and names the first such run, and the current one is never longer than it. */
  method StreaksFrom(days: seq<Day>) returns (s: Streaks)
    ensures IsCurrent(days, s.currentDays) && IsLongest(days, s.longestDays)
    ensures s.currentDays <= s.longestDays
    ensures s.currentStart == if s.currentDays == 0 then None else Some(days[|days| - s.currentDays].date)
    ensures if s.longestDays == 0 then s.longestStart == None && s.longestEnd == None else NamesFirstLongest(days, s)
  {
    var current, currentStart := CurrentStreak(days);
    var longest, longestStart, longestEnd, e := LongestStreak(days);
    assert RunTo(days, |days|, current) && FirstEnds(days, longest, e);
    s := Streaks(current, currentStart, longest, longestStart, longestEnd);
  }

  /** The loop over all days; the run it names ends just before `e`. */
  method LongestStreak(days: seq<Day>)
    returns (longest: nat, longestStart: Option<string>, longestEnd: Option<string>, ghost e: nat)
    ensures BestTo(days, |days|, longest, e) && longest <= e <= |days|
    ensures longest == 0 ==> longestStart == None && longestEnd == None
    ensures longest > 0 ==> longestStart == Some(days[e - longest].date) && longestEnd == Some(days[e - 1].date)
  {
    longest, longestStart, longestEnd, e := 0, None, None, 0;
    var run := 0;
    var runStart: Option<string> := None;
    for k := 0 to |days|
      invariant run <= longest <= e <= k
      invariant RunTo(days, k, run) && (run < k ==> days[k - run - 1].commits <= 0)
      invariant runStart == if run == 0 then None else Some(days[k - run].date)
      invariant BestTo(days, k, longest, e)
      invariant longest == 0 ==> longestStart == None && longestEnd == None
      invariant longest > 0 ==> longestStart == Some(days[e - longest].date) && longestEnd == Some(days[e - 1].date)
    {
      RunGoesOn(days, k, k + 1, run);
      BestGoesOn(days, k, k + 1, if days[k].commits > 0 then run + 1 else 0, longest, e);
      if days[k].commits > 0 {
        run := run + 1;
        if runStart.None? {
          runStart := Some(days[k].date);
        }
        if run > longest {
          longest := run;
          longestStart := runStart;
          longestEnd := Some(days[k].date);
          e := k + 1;
        }
      } else {
        run := 0;
        runStart := None;
      }
    }
  }

  /** Up to day `k` the longest run, the first of its length, ends just before `e`. */
  ghost predicate BestTo(days: seq<Day>, k: nat, longest: nat, e: nat) {
    && RunTo(days, e, longest)
    && forall j: nat, m: nat :: RunTo(days, j, m) && j <= k ==> m <= longest && (m == longest ==> e <= j)
  }

  lemma BestGoesOn(days: seq<Day>, k: nat, end: nat, run: nat, longest: nat, e: nat)
    requires end == k + 1 && BestTo(days, k, longest, e)
    requires RunTo(days, end, run) && forall m: nat :: RunTo(days, end, m) ==> m <= run
    ensures if run > longest then BestTo(days, end, run, end) else e <= k ==> BestTo(days, end, longest, e)
  {
  }

  /** The loop back from the last day. */
  method CurrentStreak(days: seq<Day>) returns (current: nat, start: Option<string>)
    ensures IsCurrent(days, current)
    ensures start == if current == 0 then None else Some(days[|days| - current].date)
  {
    current := 0;
    start := None;
    var index := |days| - 1;
    while index >= 0 && days[index].commits > 0
      invariant -1 <= index < |days| && current == |days| - 1 - index
      invariant RunTo(days, |days|, current)
      invariant start == if current == 0 then None else Some(days[|days| - current].date)
    {
      current := current + 1;
      start := Some(days[index].date);
      index := index - 1;
    }
  }

  /** The longest run to the end of day `k`, given the longest to its beginning. */
  lemma RunGoesOn(days: seq<Day>, k: nat, end: nat, run: nat)
    requires k < |days| && end == k + 1 && RunTo(days, k, run) && (run < k ==> days[k - run - 1].commits <= 0)
    ensures var more := if days[k].commits > 0 then run + 1 else 0;
            RunTo(days, end, more) && forall m: nat :: RunTo(days, end, m) ==> m <= more
  {
    assert run < k ==> days[k - run - 1].commits <= 0;
  }

  // ---------- The busiest day ----------

  function CountOf(dates: seq<string>, date: string): nat {
    if |dates| == 0 then 0 else CountOf(dates[..|dates| - 1], date) + (if dates[|dates| - 1] == date then 1 else 0)
  }

  /** Where a date first appears, or past the end. */
  function FirstAt(dates: seq<string>, date: string): nat {
    if |dates| == 0 || dates[0] == date then 0 else 1 + FirstAt(dates[1..], date)
  }

  lemma {:induction false} FirstAtAppend(dates: seq<string>, date: string, d: string)
    ensures FirstAt(dates + [date], d)
            == if d in dates then FirstAt(dates, d) else if d == date then |dates| else |dates| + 1
    ensures FirstAt(dates, d) < |dates| <==> d in dates
  {
    if |dates| > 0 {
      assert (dates + [date])[1..] == dates[1..] + [date];
      FirstAtAppend(dates[1..], date, d);
      assert d in dates <==> dates[0] == d || d in dates[1..];
    }
  }

  /** `perDay`: each date in order of first appearance, with its count. */
  ghost predicate Tallies(perDay: seq<(string, nat)>, dates: seq<string>) {
    && (forall i, j :: 0 <= i < j < |perDay| ==> FirstAt(dates, perDay[i].0) < FirstAt(dates, perDay[j].0))
    && (forall i :: 0 <= i < |perDay| ==> perDay[i].0 in dates && perDay[i].1 == CountOf(dates, perDay[i].0))
    && (forall i, j :: 0 <= i < j < |perDay| ==> perDay[i].0 != perDay[j].0)
    && (forall d :: d in dates ==> exists i :: 0 <= i < |perDay| && perDay[i].0 == d)
  }

  lemma CountAppend(dates: seq<string>, date: string, d: string)
    ensures CountOf(dates + [date], d) == CountOf(dates, d) + (if date == d then 1 else 0)
  {
    assert (dates + [date])[..|dates|] == dates;
  }

  lemma {:induction false} CountAbsent(dates: seq<string>, d: string)
    ensures CountOf(dates, d) == 0 <==> d !in dates
  {
    if dates != [] {
      CountAbsent(dates[..|dates| - 1], d);
      assert dates == dates[..|dates| - 1] + [dates[|dates| - 1]];
    }
  }

  /** The busiest day has the most commits of any day in the window, and of several such days it is the one
      met first; there is none only without commits. */
  method BusiestDay(dates: seq<string>) returns (busiest: Option<(string, nat)>)
    ensures busiest.None? <==> dates == []
    ensures busiest.Some? ==>
              && busiest.value.0 in dates && busiest.value.1 == CountOf(dates, busiest.value.0)
              && (forall d :: CountOf(dates, d) <= busiest.value.1)
              && (forall d :: CountOf(dates, d) == busiest.value.1 ==>
                    FirstAt(dates, busiest.value.0) <= FirstAt(dates, d))
  {
    var perDay := Tally(dates);
    busiest := None;
    ghost var best := 0;
    for i := 0 to |perDay|
      invariant busiest.None? <==> i == 0
      invariant busiest.Some? ==> best < i && perDay[best] == busiest.value
      invariant busiest.Some? ==>
                  forall k :: 0 <= k < i ==>
                    perDay[k].1 <= busiest.value.1 && (k < best ==> perDay[k].1 < busiest.value.1)
    {
      if busiest.None? || perDay[i].1 > busiest.value.1 {
        busiest := Some(perDay[i]);
        best := i;
      }
    }
    forall d | busiest.Some?
      ensures CountOf(dates, d) <= busiest.value.1
      ensures CountOf(dates, d) == busiest.value.1 ==> FirstAt(dates, busiest.value.0) <= FirstAt(dates, d)
    {
      CountAbsent(dates, busiest.value.0);
      CountAbsent(dates, d);
      if d in dates {
        var k :| 0 <= k < |perDay| && perDay[k].0 == d;
        assert k == best || k < best || FirstAt(dates, perDay[best].0) < FirstAt(dates, perDay[k].0);
      }
    }
    assert dates != [] ==> dates[0] in dates;
  }

  method Tally(dates: seq<string>) returns (perDay: seq<(string, nat)>)
    ensures Tallies(perDay, dates)
  {
    perDay := [];
    for i := 0 to |dates|
      invariant Tallies(perDay, dates[..i])
    {
      assert dates[..i + 1] == dates[..i] + [dates[i]];
      perDay := AddDate(perDay, dates[..i], dates[i]);
    }
    assert dates[..|dates|] == dates;
  }

  method AddDate(perDay: seq<(string, nat)>, ghost dates: seq<string>, date: string) returns (more: seq<(string, nat)>)
    requires Tallies(perDay, dates)
    ensures Tallies(more, dates + [date])
  {
    var k := 0;
    while k < |perDay| && perDay[k].0 != date
      invariant 0 <= k <= |perDay|
      invariant forall j :: 0 <= j < k ==> perDay[j].0 != date
    {
      k := k + 1;
    }
    if k < |perDay| {
      more := perDay[k := (date, perDay[k].1 + 1)];
      TallyAgain(perDay, dates, k);
    } else {
      more := perDay + [(date, 1)];
      TallyNew(perDay, dates, date);
    }
  }

  lemma TallyAgain(perDay: seq<(string, nat)>, dates: seq<string>, k: nat)
    requires Tallies(perDay, dates) && k < |perDay|
    ensures Tallies(perDay[k := (perDay[k].0, perDay[k].1 + 1)], dates + [perDay[k].0])
  {
    var date := perDay[k].0;
    var more := perDay[k := (date, perDay[k].1 + 1)];
    forall i | 0 <= i < |more|
      ensures more[i].0 == perDay[i].0 && more[i].0 in dates && more[i].1 == CountOf(dates + [date], more[i].0)
      ensures FirstAt(dates + [date], more[i].0) == FirstAt(dates, perDay[i].0)
    {
      assert perDay[i].0 in dates && perDay[i].1 == CountOf(dates, perDay[i].0);
      assert i != k ==> perDay[i].0 != date;
      CountAppend(dates, date, perDay[i].0);
      FirstAtAppend(dates, date, perDay[i].0);
    }
    forall d | d in dates + [date]
      ensures exists i :: 0 <= i < |more| && more[i].0 == d
    {
      var i :| 0 <= i < |perDay| && perDay[i].0 == d;
      assert more[i].0 == d;
    }
  }

  lemma TallyNew(perDay: seq<(string, nat)>, dates: seq<string>, date: string)
    requires Tallies(perDay, dates) && forall i :: 0 <= i < |perDay| ==> perDay[i].0 != date
    ensures Tallies(perDay + [(date, 1)], dates + [date])
  {
    var more := perDay + [(date, 1)];
    CountAbsent(dates, date);
    CountAppend(dates, date, date);
    FirstAtAppend(dates, date, date);
    assert more[|perDay|] == (date, 1);
    forall i | 0 <= i < |perDay|
      ensures more[i] == perDay[i] && perDay[i].0 in dates && more[i].1 == CountOf(dates + [date], more[i].0)
      ensures FirstAt(dates + [date], more[i].0) == FirstAt(dates, perDay[i].0) < |dates|
    {
      CountAppend(dates, date, perDay[i].0);
      FirstAtAppend(dates, date, perDay[i].0);
    }
    forall d | d in dates + [date]
      ensures exists i :: 0 <= i < |more| && more[i].0 == d
    {
      if d in dates {
        var i :| 0 <= i < |perDay| && perDay[i].0 == d;
        assert more[i].0 == d;
      }
    }
  }
}
