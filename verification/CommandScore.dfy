/** The fuzzy match score of the command palette (score in web/src/components/CommandPalette.tsx).
    A JavaScript string is a sequence of UTF-16 code units, surrogates and all, so Text is one of numbers;
    lower is toLowerCase, about which nothing is assumed. */
module CommandScore {
  import opened Wrappers

  type Unit = x: int | 0 <= x < 0x1_0000 witness 0

  type Text = seq<Unit>

  const SPACE: Unit := 0x20

  const EXACT: nat := 1000
  const PREFIX: nat := 500

  predicate IsSubsequence(q: Text, c: Text) {
    q == [] || (c != [] && ((q[0] == c[0] && IsSubsequence(q[1..], c[1..])) || IsSubsequence(q, c[1..])))
  }

  /** The place of the first ch at or after from. */
  function Find(c: Text, ch: Unit, from: nat): (idx: Option<nat>)
    requires from <= |c|
    ensures idx.Some? ==> from <= idx.value < |c| && c[idx.value] == ch && forall j :: from <= j < idx.value ==> c[j] != ch
    ensures idx.None? ==> forall j :: from <= j < |c| ==> c[j] != ch
    decreases |c| - from
  {
    if from == |c| then None else if c[from] == ch then Some(from) else Find(c, ch, from + 1)
  }

  /** Array.prototype.indexOf: the first index of ch at or after from, or -1. */
  method IndexOf(c: Text, ch: Unit, from: nat) returns (idx: int)
    requires from <= |c|
    ensures -1 <= idx < |c|
    ensures Find(c, ch, from) == if idx < 0 then None else Some(idx)
  {
    for i := from to |c|
      invariant Find(c, ch, from) == Find(c, ch, i)
    {
      if c[i] == ch { return i; }
    }
    return -1;
  }

  /** The most that n greedy matches can score: 5 plus the run length, plus 3 for a word start, each. */
  function Best(n: nat): nat {
    8 * n + n * (n + 1) / 2
  }

  /** A character directly after the previous match scores 5 and the length of the run it extends,
      any other 1; at the start of a word 3 more. */
  function Points(c: Text, idx: nat, next: nat, run: nat): nat
    requires idx < |c|
  {
    (if idx == next then 5 + run + 1 else 1) + (if idx == 0 || c[idx - 1] == SPACE then 3 else 0)
  }

  /** What the rest of the query scores, greedily, from next on after a run of the given length. */
  function Fuzzy(q: Text, c: Text, next: nat, run: nat): Option<nat>
    requires next <= |c|
  {
    if q == [] then Some(0)
    else
      var idx := Find(c, q[0], next);
      if idx.None? then None
      else
        var rest := Fuzzy(q[1..], c, idx.value + 1, if idx.value == next then run + 1 else 0);
        if rest.None? then None else Some(Points(c, idx.value, next, run) + rest.value)
  }

  function Plus(s: nat, rest: Option<nat>): nat {
    if rest.None? then 0 else s + rest.value
  }

  /** The points of one match, and the run it leaves. */
  method Award(c: Text, idx: nat, next: nat, consec: nat) returns (points: nat, run: nat)
    requires idx < |c|
    ensures points == (if idx == next then 6 + consec else 1) + (if idx == 0 || c[idx - 1] == 0x20 then 3 else 0)
    ensures points == Points(c, idx, next, consec)
    ensures run == if idx == next then consec + 1 else 0
  {
    if idx == next {
      run := consec + 1;
      points := 5 + run;
    } else {
      run := 0;
      points := 1;
    }
    if idx == 0 || c[idx - 1] == SPACE { points := points + 3; }
  }

  /** The loop of score. */
  method FuzzyScore(q: Text, c: Text) returns (s: nat)
    ensures s == Plus(0, Fuzzy(q, c, 0, 0))
  {
    s := 0;
    var lastIdx := -1;
    var consec: nat := 0;
    assert q[0..] == q;
    for i := 0 to |q|
      invariant -1 <= lastIdx < |c|
      invariant Plus(0, Fuzzy(q, c, 0, 0)) == Plus(s, Fuzzy(q[i..], c, lastIdx + 1, consec))
    {
      var idx := IndexOf(c, q[i], lastIdx + 1);
      FuzzyStep(q, c, i, lastIdx + 1, consec, s);
      if idx < 0 { return 0; }
      var points, run := Award(c, idx, lastIdx + 1, consec);
      s, consec, lastIdx := s + points, run, idx;
    }
  }

  /** score, with the three tiers told apart, the match characterised and the bound on fuzzy scores. */
  method Score(lower: Text -> Text, query: Text, candidate: Text) returns (score: nat)
    ensures query == [] ==> score == 1
    ensures query != [] ==> (score > 0 <==> IsSubsequence(lower(query), lower(candidate)))
    ensures query != [] ==>
      var q, c := lower(query), lower(candidate);
      && (q == c ==> score == 1000)
      && (q != c && q <= c ==> score == 500)
      && (!(q <= c) ==> score == Plus(0, Fuzzy(q, c, 0, 0)))
      && (!(q <= c) ==> score <= Best(|q| - 1) + 4 && (|q| <= 25 ==> score < 500))
  {
    if query == [] { return 1; }
    var q := lower(query);
    var c := lower(candidate);
    if q == c {
      WholeIsSubsequence(q, c);
      return EXACT;
    }
    if q <= c {
      WholeIsSubsequence(q, c);
      return PREFIX;
    }
    FuzzyIs(q, c);
    BrokenIsBounded(q, c);
    score := FuzzyScore(q, c);
  }

  /** One pass of the loop: a miss leaves nothing, a hit adds its points. */
  lemma FuzzyStep(q: Text, c: Text, i: nat, next: nat, run: nat, s: nat)
    requires i < |q| && next <= |c|
    ensures var idx := Find(c, q[i], next);
      Plus(s, Fuzzy(q[i..], c, next, run)) ==
        if idx.None? then 0
        else Plus(s + Points(c, idx.value, next, run), Fuzzy(q[i + 1..], c, idx.value + 1, if idx.value == next then run + 1 else 0))
  {
    assert q[i..][0] == q[i] && q[i..][1..] == q[i + 1..];
  }

  /** The first match of a successful search, and what is left after it. */
  lemma FirstMatch(q: Text, c: Text, next: nat, run: nat) returns (idx: nat, rest: nat)
    requires next <= |c| && q != [] && Fuzzy(q, c, next, run).Some?
    ensures next <= idx < |c| && c[idx] == q[0]
    ensures Fuzzy(q[1..], c, idx + 1, if idx == next then run + 1 else 0) == Some(rest)
    ensures Fuzzy(q, c, next, run).value == Points(c, idx, next, run) + rest
    ensures Points(c, idx, next, run) <= if idx == next then 8 + run + 1 else 4
  {
    idx := Find(c, q[0], next).value;
    rest := Fuzzy(q[1..], c, idx + 1, if idx == next then run + 1 else 0).value;
  }

  /** The most that n matches can score after a run of the given length. */
  function BestAfter(n: nat, run: nat): nat {
    if n == 0 then 0 else 8 + run + 1 + BestAfter(n - 1, run + 1)
  }

  lemma BestAfterStep(n: nat, run: nat)
    requires n > 0
    ensures BestAfter(n, run) == 8 + run + 1 + BestAfter(n - 1, run + 1)
  {
  }

  lemma {:induction false} BestAfterGrows(n: nat, run: nat, longer: nat)
    requires run <= longer
    ensures BestAfter(n, run) <= BestAfter(n, longer)
  {
    if n > 0 { BestAfterGrows(n - 1, run + 1, longer + 1); }
  }

  lemma {:induction false} FuzzyBounded(q: Text, c: Text, next: nat, run: nat)
    requires next <= |c| && Fuzzy(q, c, next, run).Some?
    ensures |q| <= Fuzzy(q, c, next, run).value <= BestAfter(|q|, run)
  {
    if q != [] {
      var idx, rest := FirstMatch(q, c, next, run);
      FuzzyBounded(q[1..], c, idx + 1, if idx == next then run + 1 else 0);
      BestAfterGrows(|q| - 1, 0, run + 1);
    }
  }

  /** A search succeeds exactly when it finds the first character and then the rest. */
  lemma FirstFound(q: Text, c: Text, next: nat, run: nat)
    requires next <= |c| && q != []
    ensures var idx := Find(c, q[0], next);
      Fuzzy(q, c, next, run).Some? <==>
      idx.Some? && Fuzzy(q[1..], c, idx.value + 1, if idx.value == next then run + 1 else 0).Some?
  {
  }

  /** A score is found exactly when the query is a subsequence: greedy search is complete. */
  lemma {:induction false} FuzzyMatches(q: Text, c: Text, next: nat, run: nat)
    requires next <= |c|
    ensures Fuzzy(q, c, next, run).Some? <==> IsSubsequence(q, c[next..])
  {
    if q != [] {
      var found := Find(c, q[0], next);
      FirstFound(q, c, next, run);
      GreedyStep(q, c, next, if found.Some? then found.value else -1);
      if found.Some? {
        FuzzyMatches(q[1..], c, found.value + 1, if found.value == next then run + 1 else 0);
      }
    }
  }

  lemma FuzzyIs(q: Text, c: Text)
    ensures Plus(0, Fuzzy(q, c, 0, 0)) > 0 ==> IsSubsequence(q, c)
    ensures q != [] && IsSubsequence(q, c) ==> Plus(0, Fuzzy(q, c, 0, 0)) > 0
  {
    assert c[0..] == c;
    FuzzyMatches(q, c, 0, 0);
    if Fuzzy(q, c, 0, 0).Some? { FuzzyBounded(q, c, 0, 0); }
  }

  // ---------------------------------------------------------------- the tiers

  /** The query stands in the candidate at next. */
  predicate StandsAt(q: Text, c: Text, next: nat) {
    q == [] || (next < |c| && c[next] == q[0] && StandsAt(q[1..], c, next + 1))
  }

  lemma {:induction false} StandsAtMeans(q: Text, c: Text, next: nat)
    requires next <= |c|
    ensures StandsAt(q, c, next) <==> q <= c[next..]
  {
    if q != [] && next < |c| && c[next] == q[0] {
      StandsAtMeans(q[1..], c, next + 1);
      assert q == [q[0]] + q[1..] && c[next..] == [c[next]] + c[next + 1..];
    }
  }

  /** A match that does not continue the run to the end breaks it once at least, and a break scores 4 at
      most. */
  lemma {:induction false} BrokenBounded(q: Text, c: Text, next: nat, run: nat)
    requires next <= |c| && Fuzzy(q, c, next, run).Some? && !StandsAt(q, c, next)
    ensures q != [] && Fuzzy(q, c, next, run).value <= BestAfter(|q| - 1, run) + 4
  {
    var idx, rest := FirstMatch(q, c, next, run);
    if idx == next {
      BrokenBounded(q[1..], c, next + 1, run + 1);
      BestAfterStep(|q| - 1, run);
    } else {
      FuzzyBounded(q[1..], c, idx + 1, 0);
      BestAfterGrows(|q| - 1, 0, run);
    }
  }

  lemma BrokenIsBounded(q: Text, c: Text)
    requires !(q <= c)
    ensures Plus(0, Fuzzy(q, c, 0, 0)) <= Best(|q| - 1) + 4
    ensures |q| <= 25 ==> Plus(0, Fuzzy(q, c, 0, 0)) < PREFIX
  {
    assert c[0..] == c;
    StandsAtMeans(q, c, 0);
    if Fuzzy(q, c, 0, 0).Some? { BrokenBounded(q, c, 0, 0); }
    BestIs(|q| - 1, 0);
    BestMonotone(|q| - 1);
  }

  function Spaces(n: nat): (s: Text)
    ensures |s| == n && forall i :: 0 <= i < n ==> s[i] == SPACE
  {
    seq(n, _ => SPACE)
  }

  /** Two letters. */
  const X: Unit := 0x78
  const Y: Unit := 0x79

  /** The best broken match: word starts all the way, and one break at the last word. */
  lemma {:induction false} SpacesScore(c: Text, pre: nat, m: nat, run: nat)
    requires c == Spaces(pre + m) + [X, SPACE, Y]
    ensures Fuzzy(Spaces(m) + [Y], c, pre, run) == Some(BestAfter(m, run) + 4)
    decreases m
  {
    var q := Spaces(m) + [Y];
    if m == 0 {
      assert c[pre] == X && c[pre + 1] == SPACE && c[pre + 2] == Y && q == [Y];
      assert Find(c, Y, pre) == Find(c, Y, pre + 1) == Find(c, Y, pre + 2) == Some(pre + 2);
      assert q[1..] == [];
    } else {
      assert c[pre] == SPACE && q[0] == SPACE && Find(c, SPACE, pre) == Some(pre);
      assert pre > 0 ==> c[pre - 1] == SPACE;
      assert q[1..] == Spaces(m - 1) + [Y];
      SpacesScore(c, pre + 1, m - 1, run + 1);
    }
  }

  lemma LongQueryReachesPrefixTier(n: nat) returns (q: Text, c: Text)
    requires n > 25
    ensures |q| == n && !(q <= c) && Plus(0, Fuzzy(q, c, 0, 0)) == Best(n - 1) + 4 >= PREFIX
  {
    q, c := Spaces(n - 1) + [Y], Spaces(n - 1) + [X, SPACE, Y];
    assert q[n - 1] != c[n - 1];
    SpacesScore(c, 0, n - 1, 0);
    BestIs(n - 1, 0);
    BestBeyond(n - 1);
  }

  lemma {:induction false} BestBeyond(n: nat)
    requires n >= 25
    ensures Best(n) >= 525
  {
    if n > 25 {
      BestBeyond(n - 1);
      BestStep(n - 1);
    }
  }

  /** The tiers stay apart for queries of n units exactly when n is at most 25. */
  lemma TiersStayApartIff(n: nat)
    ensures (forall q: Text, c: Text :: |q| == n && !(q <= c) ==> Plus(0, Fuzzy(q, c, 0, 0)) < PREFIX) <==> n <= 25
  {
    if n <= 25 {
      forall q: Text, c: Text | |q| == n && !(q <= c) ensures Plus(0, Fuzzy(q, c, 0, 0)) < PREFIX { BrokenIsBounded(q, c); }
    } else {
      var q, c := LongQueryReachesPrefixTier(n);
    }
  }

  lemma {:induction false} BestIs(n: nat, run: nat)
    ensures BestAfter(n, run) == Best(n) + n * run
  {
    if n > 0 {
      BestIs(n - 1, run + 1);
      BestStep(n - 1);
      assert (n - 1) * (run + 1) == n * run - run + n - 1;
    }
  }

  lemma BestStep(n: nat)
    ensures Best(n + 1) == Best(n) + 8 + (n + 1)
  {
    assert (n + 1) * (n + 2) == n * (n + 1) + 2 * (n + 1);
  }

  lemma {:induction false} BestMonotone(n: nat)
    ensures n <= 24 ==> Best(n) <= Best(24)
    ensures Best(24) == 492
    decreases 24 - n
  {
    if n < 24 {
      BestMonotone(n + 1);
      BestStep(n);
    }
  }

  lemma {:induction false} DropFirst(q: Text, c: Text)
    requires q != [] && IsSubsequence(q, c)
    ensures IsSubsequence(q[1..], c)
    decreases |c|
  {
    if q[0] == c[0] && IsSubsequence(q[1..], c[1..]) {
      if q[1..] != [] { Longer(q[1..], c); }
    } else {
      DropFirst(q, c[1..]);
      if q[1..] != [] { Longer(q[1..], c); }
    }
  }

  lemma Longer(q: Text, c: Text)
    requires c != [] && IsSubsequence(q, c[1..])
    ensures IsSubsequence(q, c)
  {
  }

  /** Skipping ahead in the candidate never helps. */
  lemma {:induction false} SuffixOnlyHarder(q: Text, c: Text, from: nat)
    requires from <= |c| && IsSubsequence(q, c[from..])
    ensures IsSubsequence(q, c)
    decreases from
  {
    if from > 0 {
      assert c[1..][from - 1..] == c[from..];
      SuffixOnlyHarder(q, c[1..], from - 1);
    } else {
      assert c[0..] == c;
    }
  }

  /** Greedy search is complete: taking the first occurrence of the next character loses nothing. */
  lemma {:induction false} GreedyStep(q: Text, c: Text, from: nat, idx: int)
    requires q != [] && from <= |c|
    requires idx == -1 || from <= idx < |c|
    requires idx >= 0 ==> c[idx] == q[0] && forall j :: from <= j < idx ==> c[j] != q[0]
    requires idx < 0 ==> forall j :: from <= j < |c| ==> c[j] != q[0]
    ensures idx < 0 ==> !IsSubsequence(q, c[from..])
    ensures idx >= 0 ==> (IsSubsequence(q, c[from..]) <==> IsSubsequence(q[1..], c[idx + 1..]))
    decreases |c| - from
  {
    if from < |c| {
      assert c[from..][0] == c[from] && c[from..][1..] == c[from + 1..];
      if idx != from {
        GreedyStep(q, c, from + 1, idx);
      } else if IsSubsequence(q, c[from + 1..]) {
        DropFirst(q, c[from + 1..]);
      }
    }
  }

  lemma {:induction false} WholeIsSubsequence(q: Text, c: Text)
    requires q <= c
    ensures IsSubsequence(q, c)
  {
    if q != [] { WholeIsSubsequence(q[1..], c[1..]); }
  }

  /** What IsSubsequence means: increasing positions of the query's characters in the candidate. */
  predicate Embeds(q: Text, c: Text, at: seq<nat>) {
    && |at| == |q|
    && (forall i :: 0 <= i < |q| ==> at[i] < |c| && c[at[i]] == q[i])
    && (forall i, j :: 0 <= i < j < |q| ==> at[i] < at[j])
  }

  lemma {:induction false} SubsequenceHasPositions(q: Text, c: Text) returns (at: seq<nat>)
    requires IsSubsequence(q, c)
    ensures Embeds(q, c, at)
    decreases |c|
  {
    if q == [] {
      at := [];
    } else if q[0] == c[0] && IsSubsequence(q[1..], c[1..]) {
      var rest := SubsequenceHasPositions(q[1..], c[1..]);
      at := [0] + seq(|rest|, i requires 0 <= i < |rest| => rest[i] + 1);
    } else {
      var rest := SubsequenceHasPositions(q, c[1..]);
      at := seq(|rest|, i requires 0 <= i < |rest| => rest[i] + 1);
    }
  }

  lemma {:induction false} PositionsMakeSubsequence(q: Text, c: Text, at: seq<nat>)
    requires Embeds(q, c, at)
    ensures IsSubsequence(q, c)
    decreases |q|
  {
    if q != [] {
      var k := at[0];
      var rest := seq(|q| - 1, i requires 0 <= i < |q| - 1 => at[i + 1] - (k + 1));
      forall i | 0 <= i < |q| - 1 ensures k < at[i + 1] && c[k + 1..][at[i + 1] - (k + 1)] == q[1..][i] {}
      PositionsMakeSubsequence(q[1..], c[k + 1..], rest);
      assert c[k..][0] == q[0] && c[k..][1..] == c[k + 1..];
      SuffixOnlyHarder(q, c, k);
    }
  }
}
