/** The streak computation of the app context: sessions are bucketed into local
    days, the distinct days are sorted newest first, and two scans over them give
    the current streak (anchored on today or yesterday) and the longest run of
    consecutive days. */
module Streaks {
  import opened Calendar
  import opened Sessions

  // ---------------------------------------------------------------------------
  // Specification

  /** `days[i .. i + len]` is a run: each day is exactly one day before the previous one. */
  ghost predicate IsRun(days: seq<int>, i: int, len: int)
  {
    && 0 <= i
    && 1 <= len
    && i + len <= |days|
    && forall k :: i < k < i + len ==> days[k - 1] - days[k] == 1
  }

  ghost predicate StrictlyDescending(s: seq<int>)
  {
    forall i, j :: 0 <= i < j < |s| ==> s[i] > s[j]
  }

  /** The run that starts at the newest day: 1 plus the number of 1-day gaps before
      the first larger gap. */
  function LeadingRun(days: seq<int>): (r: nat)
    requires |days| > 0
    ensures IsRun(days, 0, r)
    ensures r == |days| || days[r - 1] - days[r] != 1
  {
    if |days| == 1 || days[0] - days[1] != 1 then 1
    else
      var rest := LeadingRun(days[1..]);
      ExtendRun(days, rest);
      1 + rest
  }

  /** A run at the start of `days[1..]` extends to one at the start of `days` when
      the first two days are consecutive. */
  lemma ExtendRun(days: seq<int>, len: int)
    requires |days| >= 2 && days[0] - days[1] == 1 && IsRun(days[1..], 0, len)
    ensures IsRun(days, 0, len + 1)
  {
    forall k | 0 < k < len + 1
      ensures days[k - 1] - days[k] == 1
    {
      if k > 1 {
        assert days[k - 1] - days[k] == days[1..][k - 2] - days[1..][k - 1];
      }
    }
  }

  /** The longest run anywhere in the list. */
  function LongestRun(days: seq<int>): (r: nat)
    requires |days| > 0
    ensures exists i :: IsRun(days, i, r)
    ensures forall i, len :: IsRun(days, i, len) ==> len <= r
  {
    var lead := LeadingRun(days);
    LeadingRunIsLongestAtStart(days, lead);
    if |days| == 1 then lead
    else
      var tail := LongestRun(days[1..]);
      RunsOfTail(days);
      if lead >= tail then lead else tail
  }

  /** The current streak: the leading run when the newest active day is today or
      yesterday, and 0 otherwise (or when there are no active days). */
  function CurrentStreak(days: seq<int>, today: int): nat
  {
    if |days| == 0 then 0
    else if days[0] == today || days[0] == today - 1 then LeadingRun(days)
    else 0
  }

  lemma LeadingRunIsLongestAtStart(days: seq<int>, lead: nat)
    requires |days| > 0 && lead == LeadingRun(days)
    ensures forall len :: IsRun(days, 0, len) ==> len <= lead
  {
  }

  /** Runs in the list without its newest day are the runs of the list shifted by one. */
  lemma RunsOfTail(days: seq<int>)
    requires |days| > 1
    ensures forall i, len :: IsRun(days[1..], i, len) ==> IsRun(days, i + 1, len)
    ensures forall i, len :: 1 <= i && IsRun(days, i, len) ==> IsRun(days[1..], i - 1, len)
  {
    forall i, len | IsRun(days[1..], i, len) ensures IsRun(days, i + 1, len) {
      forall k | i + 1 < k < i + 1 + len ensures days[k - 1] - days[k] == 1 {
        assert days[1..][k - 2] == days[k - 1] && days[1..][k - 1] == days[k];
      }
    }
    forall i, len | 1 <= i && IsRun(days, i, len) ensures IsRun(days[1..], i - 1, len) {
      forall k | i - 1 < k < i - 1 + len ensures days[1..][k - 1] - days[1..][k] == 1 {
        assert days[1..][k - 1] == days[k] && days[1..][k] == days[k + 1];
      }
    }
  }

  /** The leading run is determined by its two defining facts. */
  lemma LeadingRunUnique(days: seq<int>, n: int)
    requires |days| > 0
    requires IsRun(days, 0, n)
    requires n == |days| || days[n - 1] - days[n] != 1
    ensures n == LeadingRun(days)
  {
  }

  /** The longest run is determined by its two defining facts. */
  lemma LongestRunUnique(days: seq<int>, n: int)
    requires |days| > 0
    requires exists i :: IsRun(days, i, n)
    requires forall i, len :: IsRun(days, i, len) ==> len <= n
    ensures n == LongestRun(days)
  {
    var longest := LongestRun(days);
    var i :| IsRun(days, i, longest);
    var j :| IsRun(days, j, n);
  }

  // ---------------------------------------------------------------------------
  // Properties of the streaks

  /** For a non-empty history the longest run is at least 1, at most the number of
      active days, and at least the current streak, since the current streak is a
      run that starts at the newest day. */
  lemma BestCoversCurrent(days: seq<int>, today: int)
    requires |days| > 0
    ensures 1 <= LongestRun(days) <= |days|
    ensures CurrentStreak(days, today) <= LongestRun(days)
  {
    var i :| IsRun(days, i, LongestRun(days));
    assert IsRun(days, 0, LeadingRun(days));
  }

  /** Over the distinct active days listed newest first, a positive current streak `c`
      means: the newest active day is today or yesterday, the `c` days ending at it are
      all active, and the day before them is not. */
  lemma CurrentStreakIsConsecutiveDays(days: set<int>, sorted: seq<int>, today: int)
    requires StrictlyDescending(sorted) && (forall x :: x in sorted <==> x in days)
    requires CurrentStreak(sorted, today) > 0
    ensures sorted[0] == today || sorted[0] == today - 1
    ensures forall d :: sorted[0] - CurrentStreak(sorted, today) < d <= sorted[0] ==> d in days
    ensures sorted[0] - CurrentStreak(sorted, today) !in days
  {
    StreakOverSortedDays(sorted, today);
    ListedDaysAreTheSet(days, sorted, sorted[0], CurrentStreak(sorted, today));
  }

  lemma ListedDaysAreTheSet(days: set<int>, sorted: seq<int>, newest: int, c: int)
    requires forall x :: x in sorted <==> x in days
    requires forall d :: newest - c < d <= newest ==> d in sorted
    requires newest - c !in sorted
    ensures forall d :: newest - c < d <= newest ==> d in days
    ensures newest - c !in days
  {
  }

  lemma StreakOverSortedDays(sorted: seq<int>, today: int)
    requires StrictlyDescending(sorted)
    requires CurrentStreak(sorted, today) > 0
    ensures var c := CurrentStreak(sorted, today);
            && (sorted[0] == today || sorted[0] == today - 1)
            && (forall d :: sorted[0] - c < d <= sorted[0] ==> d in sorted)
            && sorted[0] - c !in sorted
  {
    var c := LeadingRun(sorted);
    var newest := sorted[0];
    RunDaysAreConsecutive(sorted, c);
    forall d | newest - c < d <= newest ensures d in sorted {
      assert sorted[newest - d] == d;
    }
    GapBeforeRun(sorted, c);
  }

  /** In a strictly descending list, the day just before the leading run is absent. */
  lemma GapBeforeRun(sorted: seq<int>, c: nat)
    requires StrictlyDescending(sorted)
    requires |sorted| > 0 && c == LeadingRun(sorted)
    requires forall k :: 0 <= k < c ==> sorted[k] == sorted[0] - k
    ensures sorted[0] - c !in sorted
  {
  }

  lemma {:induction false} RunDaysAreConsecutive(sorted: seq<int>, c: nat)
    requires IsRun(sorted, 0, c)
    ensures forall k :: 0 <= k < c ==> sorted[k] == sorted[0] - k
  {
    if c > 1 {
      RunDaysAreConsecutive(sorted, c - 1);
      assert sorted[c - 2] - sorted[c - 1] == 1;
    }
  }

  /** A session today, and none dated after today, makes the current streak at least 1. */
  lemma SessionTodayStartsStreak(ss: seq<Session>, today: int, tzOffsetMs: int)
    requires exists i :: 0 <= i < |ss| && DayOf(ss[i].timestamp, tzOffsetMs) == today
    requires forall i :: 0 <= i < |ss| ==> DayOf(ss[i].timestamp, tzOffsetMs) <= today
    ensures CurrentStreak(Descending(DaySet(ss, tzOffsetMs)), today) >= 1
  {
    var days := DaySet(ss, tzOffsetMs);
    var sorted := Descending(days);
    DescendingLists(days);
    var i :| 0 <= i < |ss| && DayOf(ss[i].timestamp, tzOffsetMs) == today;
    assert today in sorted;
    var j :| 0 <= j < |sorted| && sorted[j] == today;
    assert sorted[0] in days;
    DaySetHoldsOnlySessionDays(ss, tzOffsetMs, sorted[0]);
  }

  // ---------------------------------------------------------------------------
  // Sorting the distinct days

  predicate IsMax(s: set<int>, m: int)
  {
    m in s && forall y :: y in s ==> y <= m
  }

  lemma PickElement(s: set<int>) returns (x: int)
    requires s != {}
    ensures x in s
  {
    if forall y :: y !in s {
      assert false;
    }
    x :| x in s;
  }

  /** A non-empty finite set of days has a newest day. */
  lemma MaxExists(s: set<int>)
    requires s != {}
    ensures exists m :: IsMax(s, m)
    decreases |s|
  {
    var x := PickElement(s);
    if s == {x} {
      assert IsMax(s, x);
    } else {
      var rest := s - {x};
      MaxExists(rest);
      var m :| IsMax(rest, m);
      var top := if m < x then x else m;
      forall y | y in s ensures y <= top {
        if y != x {
          assert y in rest;
        }
      }
      assert IsMax(s, top);
    }
  }

  /** The distinct days newest first: the strictly descending listing of a set. */
  ghost function Descending(s: set<int>): (r: seq<int>)
    ensures StrictlyDescending(r)
    ensures |r| == |s|
    decreases |s|, 1
  {
    if s == {} then []
    else
      MaxExists(s);
      var m :| IsMax(s, m);
      var tail := Descending(s - {m});
      DescendingLists(s - {m});
      assert forall k :: 0 <= k < |tail| ==> tail[k] in s - {m};
      [m] + tail
  }

  /** The listing holds exactly the elements of the set. */
  lemma DescendingLists(s: set<int>)
    ensures forall x :: x in Descending(s) <==> x in s
    decreases |s|, 2
  {
    if s != {} {
      var r := Descending(s);
      var m := r[0];
      DescendingLists(s - {m});
    }
  }

  /** A set has only one strictly descending listing. */
  lemma {:induction false} StrictlyDescendingUnique(a: seq<int>, b: seq<int>)
    requires StrictlyDescending(a) && StrictlyDescending(b)
    requires forall x :: x in a <==> x in b
    ensures a == b
    decreases |a|
  {
    if |a| > 0 && |b| > 0 {
      HeadAndTail(a);
      HeadAndTail(b);
      assert a[0] in a && b[0] in b;
      assert a[0] == b[0];
      StrictlyDescendingUnique(a[1..], b[1..]);
      assert a == [a[0]] + a[1..] && b == [b[0]] + b[1..];
    } else {
      SameElementsSameEmptiness(a, b);
    }
  }

  lemma SameElementsSameEmptiness(a: seq<int>, b: seq<int>)
    requires forall x :: x in a <==> x in b
    ensures |a| == 0 <==> |b| == 0
  {
    if |a| > 0 {
      var x := a[0];
      assert x in b;
    }
    if |b| > 0 {
      var x := b[0];
      assert x in a;
    }
  }

  /** The head of a strictly descending list is its largest element, and the tail
      holds every other element. */
  lemma HeadAndTail(a: seq<int>)
    requires StrictlyDescending(a) && |a| > 0
    ensures forall x :: x in a ==> x <= a[0]
    ensures forall x :: x in a[1..] <==> x in a && x != a[0]
    ensures StrictlyDescending(a[1..])
  {
    forall x | x in a ensures x <= a[0] {
      var k :| 0 <= k < |a| && a[k] == x;
    }
    forall x ensures x in a[1..] <==> x in a && x != a[0] {
      if x in a && x != a[0] {
        var k :| 0 <= k < |a| && a[k] == x;
        assert a[1..][k - 1] == x;
      }
    }
  }

  // ---------------------------------------------------------------------------
  // The steps of the computation

  /** Buckets every session into its local day (the `forEach` into a `Set`). */
  method CollectDays(sessions: seq<Session>, tzOffsetMs: int) returns (days: set<int>)
    ensures days == DaySet(sessions, tzOffsetMs)
  {
    days := {};
    for i := 0 to |sessions|
      invariant days == DaySet(sessions[..i], tzOffsetMs)
    {
      days := days + {DayOf(sessions[i].timestamp, tzOffsetMs)};
      assert sessions[..i + 1][..i] == sessions[..i];
    }
    assert sessions[..|sessions|] == sessions;
  }

  /** Lists the days newest first (`Array.from(...).sort((a, b) => b - a)`), here by
      repeatedly taking the largest remaining day. */
  method SortDescending(days: set<int>) returns (sorted: seq<int>)
    ensures sorted == Descending(days)
  {
    sorted := [];
    var rest := days;
    while rest != {}
      invariant rest <= days
      invariant StrictlyDescending(sorted)
      invariant forall x :: x in sorted <==> x in days && x !in rest
      invariant forall i, y :: 0 <= i < |sorted| && y in rest ==> sorted[i] > y
      decreases |rest|
    {
      MaxExists(rest);
      var m :| IsMax(rest, m);
      sorted := sorted + [m];
      rest := rest - {m};
    }
    DescendingLists(days);
    StrictlyDescendingUnique(sorted, Descending(days));
  }

  /** The two scans over the sorted days: the current streak and the longest run. */
  method StreakRuns(sortedDays: seq<int>, today: int) returns (current: nat, maxStreak: nat)
    requires |sortedDays| > 0
    ensures current == CurrentStreak(sortedDays, today)
    ensures maxStreak == LongestRun(sortedDays)
  {
    current := CurrentStreakScan(sortedDays, today);
    maxStreak := LongestRunScan(sortedDays);
  }

  /** The current streak: 0 unless the newest day is today or yesterday; otherwise 1,
      extended backwards while consecutive days are exactly one day apart. */
  method CurrentStreakScan(sortedDays: seq<int>, today: int) returns (current: nat)
    requires |sortedDays| > 0
    ensures current == CurrentStreak(sortedDays, today)
  {
    current := 0;
    if sortedDays[0] == today || sortedDays[0] == today - 1 {
      current := 1;
      var i := 1;
      while i < |sortedDays|
        invariant 1 <= i <= |sortedDays|
        invariant current == i
        invariant IsRun(sortedDays, 0, i)
      {
        if sortedDays[i - 1] - sortedDays[i] == 1 {
          current := current + 1;
        } else {
          break;
        }
        i := i + 1;
      }
      LeadingRunUnique(sortedDays, current);
    }
  }

  /** The longest run: `tempStreak` is the run ending at the current day and
      `maxStreak` the best seen when a run grew; the last run is folded in at the end. */
  method LongestRunScan(sortedDays: seq<int>) returns (maxStreak: nat)
    requires |sortedDays| > 0
    ensures maxStreak == LongestRun(sortedDays)
  {
    maxStreak := 0;
    var tempStreak := 1;
    for i := 1 to |sortedDays|
      invariant 1 <= tempStreak <= i
      invariant IsRun(sortedDays, i - tempStreak, tempStreak)
      invariant i - tempStreak == 0 || sortedDays[i - tempStreak - 1] - sortedDays[i - tempStreak] != 1
      invariant tempStreak == 1 || maxStreak >= tempStreak
      invariant maxStreak == 0 || exists j :: IsRun(sortedDays, j, maxStreak)
      invariant forall j, len :: IsRun(sortedDays, j, len) && j + len <= i ==>
                  len <= maxStreak || len <= tempStreak
    {
      if sortedDays[i - 1] - sortedDays[i] == 1 {
        tempStreak := tempStreak + 1;
        maxStreak := if maxStreak >= tempStreak then maxStreak else tempStreak;
      } else {
        tempStreak := 1;
      }
      RunEndingAt(sortedDays, i, tempStreak);
    }
    maxStreak := if maxStreak >= tempStreak then maxStreak else tempStreak;
    LongestRunUnique(sortedDays, maxStreak);
  }

  /** A run that ends at index `i` starts no earlier than the maximal run ending there. */
  lemma RunEndingAt(days: seq<int>, i: int, t: int)
    requires 1 <= t <= i + 1 <= |days|
    requires IsRun(days, i + 1 - t, t)
    requires i + 1 - t == 0 || days[i - t] - days[i + 1 - t] != 1
    ensures forall j, len :: IsRun(days, j, len) && j + len == i + 1 ==> len <= t
  {
    forall j, len | IsRun(days, j, len) && j + len == i + 1 ensures len <= t {
    }
  }
}
