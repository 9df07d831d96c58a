/** The reading streak (internal/store/streak.go).  The query returns distinct calendar days, newest
    first, at most 365; a day is its number.  Days arrive as midnights of one zone, so the
    difference of two of them in hours over 24 is whole and "at most 1.5" means "one". */
module Streak {

  const LIMIT: nat := 365

  /** What SELECT DISTINCT ... ORDER BY day DESC LIMIT 365 can return. */
  predicate IsDayList(days: seq<int>) {
    |days| <= LIMIT && forall i, j :: 0 <= i < j < |days| ==> days[i] > days[j]
  }

  /** days[i..j] is a run of consecutive days. */
  predicate IsRun(days: seq<int>, i: nat, j: nat)
    requires i <= j <= |days|
  {
    forall k :: i < k < j ==> days[k - 1] - days[k] == 1
  }

  /** n is the length of a run, and no run is longer. */
  ghost predicate IsLongest(days: seq<int>, n: nat) {
    && (exists i: nat, j: nat :: i <= j <= |days| && IsRun(days, i, j) && j - i == n)
    && (forall i: nat, j: nat :: i <= j <= |days| && IsRun(days, i, j) ==> j - i <= n)
  }

  /** n is the length of the whole run that starts at the newest day, or 0 if that day is too old. */
  predicate IsCurrent(days: seq<int>, today: int, n: nat) {
    if days != [] && (days[0] == today || days[0] == today - 1)
    then 0 < n <= |days| && IsRun(days, 0, n) && (n < |days| ==> !IsRun(days, 0, n + 1))
    else n == 0
  }

  datatype Streak = Streak(current: nat, longest: nat, lastActive: int)

  method CurrentRun(days: seq<int>, today: int) returns (current: nat)
    requires IsDayList(days) && days != []
    ensures IsCurrent(days, today, current)
  {
    current := 0;
    if days[0] == today || days[0] == today - 1 {
      current := 1;
      var i := 1;
      while i < |days|
        invariant 1 <= i == current <= |days|
        invariant IsRun(days, 0, current)
      {
        var diff := days[i - 1] - days[i];
        if 2 * diff > 3 { break; }
        current := current + 1;
        i := i + 1;
      }
    }
  }

  /** run is the length of the longest run that ends before i. */
  ghost predicate EndsRun(days: seq<int>, i: nat, run: nat) {
    && run <= i <= |days| && IsRun(days, i - run, i)
    && (forall a: nat :: a <= i && IsRun(days, a, i) ==> i - a <= run)
  }

  lemma ExtendRun(days: seq<int>, i: nat, run: nat)
    requires IsDayList(days) && i < |days| && EndsRun(days, i, run) && (i > 0 ==> run > 0)
    ensures EndsRun(days, i + 1, if i == 0 || days[i - 1] - days[i] > 1 then 1 else run + 1)
  {
    var end := i + 1;
    forall a: nat | a <= i ensures IsRun(days, a, end) <==> IsRun(days, a, i) && (a < i ==> days[i - 1] - days[i] == 1) {
      if IsRun(days, a, i) && (a < i ==> days[i - 1] - days[i] == 1) {
        forall k | a < k < i + 1 ensures days[k - 1] - days[k] == 1 {}
      }
    }
    var longer := if i == 0 || days[i - 1] - days[i] > 1 then 1 else run + 1;
    assert i + 1 - longer == (if i == 0 || days[i - 1] - days[i] > 1 then i else i - run);
    assert IsRun(days, i + 1 - longer, i + 1);
    forall a: nat | a <= end && IsRun(days, a, end) ensures end - a <= longer {
      if a <= i { assert IsRun(days, a, i); }
    }
  }

  method LongestRun(days: seq<int>) returns (longest: nat)
    requires IsDayList(days)
    ensures IsLongest(days, longest)
  {
    longest := 0;
    var run: nat := 0;
    ghost var from: nat, to: nat := 0, 0;
    for i := 0 to |days|
      invariant EndsRun(days, i, run) && (i > 0 ==> run > 0) && run <= longest
      invariant from <= to <= i && to - from == longest && IsRun(days, from, to)
      invariant forall a: nat, b: nat :: a <= b <= i && IsRun(days, a, b) ==> b - a <= longest
    {
      ExtendRun(days, i, run);
      if i == 0 {
        run := 1;
        longest := 1;
        from, to := 0, 1;
        continue;
      }
      var diff := days[i - 1] - days[i];
      if 2 * diff <= 3 {
        run := run + 1;
      } else {
        run := 1;
      }
      if run > longest {
        longest := run;
        from, to := i + 1 - run, i + 1;
      }
    }
  }

  /** StreakForUser after its query. */
  method Compute(days: seq<int>, today: int) returns (s: Streak)
    requires IsDayList(days)
    ensures IsCurrent(days, today, s.current) && IsLongest(days, s.longest)
    ensures days != [] ==> s.lastActive == days[0]
    ensures s.current <= s.longest <= |days| <= LIMIT
  {
    if days == [] {
      assert IsRun(days, 0, 0);
      return Streak(0, 0, 0);
    }
    var current := CurrentRun(days, today);
    var longest := LongestRun(days);
    assert IsRun(days, 0, current);
    return Streak(current, longest, days[0]);
  }

  /** The contract leaves no choice: days and today determine both numbers. */
  lemma StreakIsUnique(days: seq<int>, today: int, current: nat, current2: nat, longest: nat, longest2: nat)
    requires IsCurrent(days, today, current) && IsCurrent(days, today, current2)
    requires IsLongest(days, longest) && IsLongest(days, longest2)
    ensures current == current2 && longest == longest2
  {
    forall n: nat, m: nat | n <= m <= |days| && IsRun(days, 0, m) ensures IsRun(days, 0, n) {}
  }

  lemma RunBelowNewDay(days: seq<int>, today: int, i: nat, j: nat)
    requires i <= j <= |days|
    ensures IsRun(days, i, j) <==> IsRun([today] + days, i + 1, j + 1)
  {
    var more := [today] + days;
    forall k | 0 < k < |more| ensures more[k] == days[k - 1] {}
    if IsRun(more, i + 1, j + 1) {
      forall k | i < k < j ensures days[k - 1] - days[k] == 1 {
        var above := k + 1;
        assert more[above - 1] - more[above] == 1;
      }
    }
  }

  lemma RunFromNewDay(days: seq<int>, today: int, n: nat)
    requires days != [] && days[0] == today - 1 && 0 < n <= |days|
    ensures IsRun([today] + days, 0, n + 1) <==> IsRun(days, 0, n)
  {
    var more := [today] + days;
    RunBelowNewDay(days, today, 0, n);
    assert more[0] - more[1] == 1;
  }

  /** A day added on top of a list that ended yesterday lengthens the current streak by one and
      never shortens the longest. */
  lemma ReadingTodayExtends(days: seq<int>, today: int, current: nat, longest: nat, longest2: nat)
    requires days != [] && days[0] == today - 1
    requires IsCurrent(days, today, current)
    requires IsLongest(days, longest) && IsLongest([today] + days, longest2)
    ensures IsCurrent([today] + days, today, current + 1) && longest <= longest2
  {
    var i: nat, j: nat :| i <= j <= |days| && IsRun(days, i, j) && j - i == longest;
    RunBelowNewDay(days, today, i, j);
    RunFromNewDay(days, today, current);
    if current < |days| { RunFromNewDay(days, today, current + 1); }
  }

  // ---------------------------------------------------------------- histories longer than the list

  /** Strictly descending days, any number of them. */
  predicate IsHistory(days: seq<int>) {
    forall i, j :: 0 <= i < j < |days| ==> days[i] > days[j]
  }

  /** What the query returns of a whole history. */
  function Newest(history: seq<int>): (days: seq<int>)
    ensures |days| <= LIMIT && days <= history
  {
    if |history| <= LIMIT then history else history[..LIMIT]
  }

  lemma NewestIsDayList(history: seq<int>)
    requires IsHistory(history)
    ensures IsDayList(Newest(history))
  {
  }

  lemma RunInNewest(history: seq<int>, i: nat, j: nat)
    requires i <= j <= |Newest(history)|
    ensures IsRun(Newest(history), i, j) <==> IsRun(history, i, j)
  {
  }

  /** The current streak is that of the whole history, but for the limit. */
  lemma CurrentIsCut(history: seq<int>, today: int, whole: nat)
    requires IsHistory(history) && IsCurrent(history, today, whole)
    ensures IsDayList(Newest(history)) && IsCurrent(Newest(history), today, if whole <= 365 then whole else 365)
  {
    NewestIsDayList(history);
    var days, cut: nat := Newest(history), if whole <= 365 then whole else 365;
    if whole > 0 {
      RunInNewest(history, 0, cut);
      if cut < |days| { RunInNewest(history, 0, cut + 1); }
    }
  }

  /** The longest one is the longest ever recorded exactly when no longer run reaches past the limit. */
  lemma LongestIsEverIff(history: seq<int>, longest: nat, ever: nat)
    requires IsHistory(history) && IsLongest(Newest(history), longest) && IsLongest(history, ever)
    ensures longest <= ever && longest <= 365
    ensures longest == ever <==>
            forall i: nat, j: nat :: 365 < j <= |history| && i <= j && IsRun(history, i, j) ==> j - i <= longest
  {
    var days := Newest(history);
    var i: nat, j: nat :| i <= j <= |days| && IsRun(days, i, j) && j - i == longest;
    RunInNewest(history, i, j);
    var a: nat, b: nat :| a <= b <= |history| && IsRun(history, a, b) && b - a == ever;
    if b <= LIMIT {
      assert b <= |days|;
      RunInNewest(history, a, b);
    }
  }

  /** A reader who never stops is told 365, for ever. */
  lemma DailyReaderIsCut(n: nat) returns (history: seq<int>)
    requires n > 365
    ensures IsHistory(history) && IsLongest(history, n) && IsLongest(Newest(history), 365)
  {
    history := seq(n, i => -i);
    assert IsRun(history, 0, n) && IsRun(Newest(history), 0, LIMIT);
  }
}
