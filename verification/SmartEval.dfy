/** Evaluating a smart collection, storing its definition and serving its pages
    (internal/smartcoll/evaluator.go, internal/server/smart_collection_handler.go). */
module SmartEval {
  import Sequences
  import opened Wrappers
  import opened SmartQuery
  import opened SmartRules
  import StableSort

  // ---------------------------------------------------------------- order

  /** Go's < on strings. */
  predicate TextLess(a: string, b: string) {
    b != "" && (a == "" || a[0] < b[0] || (a[0] == b[0] && TextLess(a[1..], b[1..])))
  }

  function NumberKey(c: Candidate, field: string): real {
    if field == "year" then c.year as real
    else if field == "rating" then c.rating
    else if field == "progress" then c.progressPct
    else if field == "last_read" then c.lastReadAt as real
    else c.createdAt as real
  }

  /** An unknown sort field means newest first, whatever the order says. */
  predicate Descending(s: Sort) {
    s.order == "desc" || DefaultOrder(s.field).None?
  }

  predicate Less(s: Sort, a: Candidate, b: Candidate) {
    if s.field == "title" then TextLess(Lower(a.title), Lower(b.title)) else NumberKey(a, s.field) < NumberKey(b, s.field)
  }

  function Before(s: Sort): (Candidate, Candidate) -> bool {
    if Descending(s) then (a, b) => Less(s, b, a) else (a, b) => Less(s, a, b)
  }

  method CopyInto<T>(items: array<T>, values: seq<T>)
    requires |values| == items.Length
    modifies items
    ensures items[..] == values
  {
    for i := 0 to items.Length
      invariant forall k :: 0 <= k < i ==> items[k] == values[k]
    {
      items[i] := values[i];
    }
  }

  /** sort.SliceStable, by its specification. */
  method SliceStable<T(!new)>(items: array<T>, before: (T, T) -> bool)
    requires StableSort.StrictWeakOrder(before)
    modifies items
    ensures StableSort.IsStableSort(old(items[..]), before, items[..])
  {
    StableSort.SortLength(items[..], before);
    StableSort.SortIsStable(items[..], before);
    CopyInto(items, StableSort.Sort(items[..], before));
  }

  function SeedOf(userSeed: string): string {
    if userSeed == "" then "random" else userSeed
  }

  function Swap<T>(xs: seq<T>, i: nat, j: nat): seq<T>
    requires i < |xs| && j < |xs|
  {
    xs[i := xs[j]][j := xs[i]]
  }

  /** The place drawn for place i; a draw outside 0..i does not occur. */
  function Drawn(w: World, seed: string, length: nat, i: nat): (j: nat)
    ensures j <= i
  {
    var r := w.random(seed, length, i);
    if 0 <= r <= i then r else 0
  }

  /** Places |xs| - 1 down to n + 1 have drawn their partner. */
  function Shuffled<T>(xs: seq<T>, seed: string, w: World, n: nat): (ys: seq<T>)
    ensures |ys| == |xs|
    decreases |xs| - n
  {
    if n + 1 >= |xs| then xs else Swap(Shuffled(xs, seed, w, n + 1), n + 1, Drawn(w, seed, |xs|, n + 1))
  }

  lemma ShuffledStep<T>(xs: seq<T>, seed: string, w: World, i: nat)
    requires 0 < i < |xs|
    ensures Shuffled(xs, seed, w, i - 1) == Swap(Shuffled(xs, seed, w, i), i, Drawn(w, seed, |xs|, i))
  {
  }

  method SwapAt<T>(items: array<T>, i: nat, j: nat)
    requires i < items.Length && j < items.Length
    modifies items
    ensures items[..] == Swap(old(items[..]), i, j)
  {
    items[i], items[j] := items[j], items[i];
  }

  /** rand.Shuffle from the seed: each place, last first, swaps with a drawn place not after it. */
  method ShuffleSeeded<T>(items: array<T>, userSeed: string, w: World)
    modifies items
    ensures items[..] == Shuffled(old(items[..]), SeedOf(userSeed), w, 0)
  {
    var seed := SeedOf(userSeed);
    var i := items.Length - 1;
    if i < 0 { return; }
    ghost var was := items[..];
    while i > 0
      invariant 0 <= i < items.Length
      invariant items[..] == Shuffled(was, seed, w, i)
    {
      var j := Drawn(w, seed, items.Length, i);
      ShuffledStep(was, seed, w, i);
      SwapAt(items, i, j);
      i := i - 1;
    }
  }

  function Arranged(items: seq<Candidate>, s: Sort, o: Options, w: World): seq<Candidate> {
    if s.field == "random" then Shuffled(items, SeedOf(o.userSeed), w, 0) else StableSort.Sort(items, Before(s))
  }

  method SortCandidates(items: array<Candidate>, s: Sort, o: Options, w: World)
    modifies items
    ensures items[..] == Arranged(old(items[..]), s, o, w)
  {
    if s.field == "random" {
      ShuffleSeeded(items, o.userSeed, w);
    } else {
      ghost var was := items[..];
      BeforeIsWeakOrder(s);
      SliceStable(items, Before(s));
      StableSort.SortIsStable(was, Before(s));
      StableSort.StableSortIsUnique(was, Before(s), items[..], StableSort.Sort(was, Before(s)));
    }
  }

  // ---------------------------------------------------------------- Evaluate

  function WithDefaults(o: Options, w: World): Options {
    o.(now := if o.now == 0 then w.clock else o.now,
       abandonedAfter := if o.abandonedAfter == 0 then 60 * 24 * HOUR else o.abandonedAfter)
  }

  function Matches(q: Definition, o: Options, w: World): Candidate -> bool {
    c => MatchDefinition(q, c, o, w)
  }

  function Limited<T>(xs: seq<T>, limit: Option<int>): seq<T> {
    if limit.Some? && 0 < limit.value < |xs| then xs[..limit.value] else xs
  }

  /** The candidates that match, in the order the definition asks for. */
  function Selected(q: Definition, cs: seq<Candidate>, o: Options, w: World): seq<Candidate> {
    Sequences.Filtered(Matches(Normalize(q), WithDefaults(o, w), w), cs, |cs|)
  }

  function Evaluated(q: Definition, cs: seq<Candidate>, o: Options, w: World): seq<Candidate> {
    Limited(Arranged(Selected(q, cs, o, w), NormalizeSort(q.sort), o, w), q.limit)
  }

  method Evaluate(q: Definition, cs: seq<Candidate>, o: Options, w: World) returns (out: seq<Candidate>)
    ensures out == Evaluated(q, cs, o, w)
  {
    var opts, qd := WithDefaults(o, w), Normalize(q);
    out := [];
    for i := 0 to |cs|
      invariant out == Sequences.Filtered(Matches(qd, opts, w), cs, i)
    {
      if MatchDefinition(qd, cs[i], opts, w) {
        out := out + [cs[i]];
      }
    }
    var items := new Candidate[|out|](i requires 0 <= i < |out| => out[i]);
    assert items[..] == out;
    SortCandidates(items, qd.sort, opts, w);
    out := items[..];
    if qd.limit.Some? && qd.limit.value > 0 && qd.limit.value < |out| {
      out := out[..qd.limit.value];
    }
  }

  // ---------------------------------------------------------------- the order is fit for sorting

  lemma {:induction false} TextLessIsTransitive(a: string, b: string, c: string)
    requires TextLess(a, b) && TextLess(b, c)
    ensures TextLess(a, c)
  {
    if a != "" && a[0] == b[0] && b[0] == c[0] { TextLessIsTransitive(a[1..], b[1..], c[1..]); }
  }

  lemma {:induction false} TextLessIsIrreflexive(a: string)
    ensures !TextLess(a, a)
  {
    if a != "" { TextLessIsIrreflexive(a[1..]); }
  }

  lemma {:induction false} TextLessIsTotal(a: string, b: string)
    ensures TextLess(a, b) || a == b || TextLess(b, a)
  {
    if a != "" && b != "" && a[0] == b[0] {
      TextLessIsTotal(a[1..], b[1..]);
      assert a == [a[0]] + a[1..] && b == [b[0]] + b[1..];
    }
  }

  lemma TextLessIsWeakOrder(a: string, b: string, c: string)
    ensures !TextLess(a, a)
    ensures TextLess(a, b) && TextLess(b, c) ==> TextLess(a, c)
    ensures TextLess(a, c) ==> TextLess(a, b) || TextLess(b, c)
  {
    TextLessIsIrreflexive(a);
    if TextLess(a, b) && TextLess(b, c) { TextLessIsTransitive(a, b, c); }
    TextLessIsTotal(a, b);
    if TextLess(b, a) && TextLess(a, c) { TextLessIsTransitive(b, a, c); }
  }

  lemma LessIsWeakOrder(s: Sort, a: Candidate, b: Candidate, c: Candidate)
    ensures !Less(s, a, a)
    ensures Less(s, a, b) && Less(s, b, c) ==> Less(s, a, c)
    ensures Less(s, a, c) ==> Less(s, a, b) || Less(s, b, c)
  {
    TextLessIsWeakOrder(Lower(a.title), Lower(b.title), Lower(c.title));
  }

  /** Every sort a definition can name, in either direction, has exactly one stable result. */
  lemma BeforeIsWeakOrder(s: Sort)
    ensures StableSort.StrictWeakOrder(Before(s))
  {
    var before := Before(s);
    forall x ensures !before(x, x) { LessIsWeakOrder(s, x, x, x); }
    forall x, y, z | before(x, y) && before(y, z) ensures before(x, z) {
      LessIsWeakOrder(s, x, y, z);
      LessIsWeakOrder(s, z, y, x);
    }
    forall x, y, z | before(x, z) ensures before(x, y) || before(y, z) {
      LessIsWeakOrder(s, x, y, z);
      LessIsWeakOrder(s, z, y, x);
    }
  }

  // ---------------------------------------------------------------- what Evaluate returns

  /** Exactly the candidates that match are selected, each as often as it was offered. */
  lemma SelectsExactlyTheMatching(q: Definition, cs: seq<Candidate>, o: Options, w: World, c: Candidate)
    ensures multiset(Selected(q, cs, o, w))[c] ==
            if MatchDefinition(Normalize(q), c, WithDefaults(o, w), w) then multiset(cs)[c] else 0
  {
    var matches := Matches(Normalize(q), WithDefaults(o, w), w);
    Sequences.FilteredCounts(matches, cs, |cs|, c);
    assert cs[..|cs|] == cs;
    assert matches(c) == MatchDefinition(Normalize(q), c, WithDefaults(o, w), w);
  }

  /** The selected candidates are those at the matching places of the input, in the input's order. */
  lemma SelectsInOrder(q: Definition, cs: seq<Candidate>, o: Options, w: World)
    ensures exists p :: Sequences.ArePlaces(Matches(Normalize(q), WithDefaults(o, w), w), cs, |cs|, p, Selected(q, cs, o, w))
  {
    var matches := Matches(Normalize(q), WithDefaults(o, w), w);
    Sequences.PlacesAre(matches, cs, |cs|);
    assert Sequences.ArePlaces(matches, cs, |cs|, Sequences.Places(matches, cs, |cs|), Selected(q, cs, o, w));
  }

  lemma SwapIsPermutation<T>(xs: seq<T>, i: nat, j: nat)
    requires i < |xs| && j < |xs|
    ensures multiset(Swap(xs, i, j)) == multiset(xs)
  {
  }

  lemma {:induction false} ShuffleIsPermutation<T>(xs: seq<T>, seed: string, w: World, i: nat)
    requires i < |xs|
    ensures multiset(Shuffled(xs, seed, w, i)) == multiset(xs)
    decreases |xs| - i
  {
    if i + 1 < |xs| {
      var next := i + 1;
      ShuffleIsPermutation(xs, seed, w, next);
      ShuffledStep(xs, seed, w, next);
      SwapIsPermutation(Shuffled(xs, seed, w, next), next, Drawn(w, seed, |xs|, next));
    }
  }

  /** Ordering neither loses nor invents a candidate, whatever the sort. */
  lemma ArrangedIsPermutation(items: seq<Candidate>, s: Sort, o: Options, w: World)
    ensures multiset(Arranged(items, s, o, w)) == multiset(items)
  {
    if s.field == "random" {
      if items != [] { ShuffleIsPermutation(items, SeedOf(o.userSeed), w, 0); }
    } else {
      StableSort.SortIsPermutation(items, Before(s));
    }
  }

  /** The result is the first `limit` elements of the one stable sort of the selected candidates, and
      for a random order of some permutation of them. */
  lemma EvaluateReturns(q: Definition, cs: seq<Candidate>, o: Options, w: World, sorted: seq<Candidate>)
    requires NormalizeSort(q.sort).field != "random"
    requires StableSort.IsStableSort(Selected(q, cs, o, w), Before(NormalizeSort(q.sort)), sorted)
    ensures Evaluated(q, cs, o, w) == Limited(sorted, q.limit)
  {
    var before := Before(NormalizeSort(q.sort));
    BeforeIsWeakOrder(NormalizeSort(q.sort));
    StableSort.SortIsStable(Selected(q, cs, o, w), before);
    StableSort.StableSortIsUnique(Selected(q, cs, o, w), before, sorted, StableSort.Sort(Selected(q, cs, o, w), before));
  }

  /** What each sort means for a result in which a stands before b. */
  predicate MayPrecede(s: Sort, a: Candidate, b: Candidate) {
    var down := s.order == "desc";
    if s.field == "title" then (if down then !TextLess(Lower(a.title), Lower(b.title)) else !TextLess(Lower(b.title), Lower(a.title)))
    else if s.field == "year" then (if down then a.year >= b.year else a.year <= b.year)
    else if s.field == "rating" then (if down then a.rating >= b.rating else a.rating <= b.rating)
    else if s.field == "progress" then (if down then a.progressPct >= b.progressPct else a.progressPct <= b.progressPct)
    else if s.field == "last_read" then (if down then a.lastReadAt >= b.lastReadAt else a.lastReadAt <= b.lastReadAt)
    else if s.field == "added_at" && !down then a.createdAt <= b.createdAt
    else a.createdAt >= b.createdAt
  }

  lemma BeforeMeans(s: Sort, a: Candidate, b: Candidate)
    requires s.field != "random" && !Before(s)(b, a)
    ensures MayPrecede(s, a, b)
  {
  }

  /** The result is in the order its sort asks for, an unknown sort meaning newest first. */
  lemma ResultIsSorted(q: Definition, cs: seq<Candidate>, o: Options, w: World, i: nat, j: nat)
    requires NormalizeSort(q.sort).field != "random" && i < j < |Evaluated(q, cs, o, w)|
    ensures MayPrecede(NormalizeSort(q.sort), Evaluated(q, cs, o, w)[i], Evaluated(q, cs, o, w)[j])
  {
    var s, kept := NormalizeSort(q.sort), Selected(q, cs, o, w);
    BeforeIsWeakOrder(s);
    StableSort.SortIsInOrder(kept, Before(s), i, j);
    BeforeMeans(s, Evaluated(q, cs, o, w)[i], Evaluated(q, cs, o, w)[j]);
  }

  /** Titles compare as Go compares strings: a proper prefix first, else by the first difference. */
  lemma {:induction false} TextLessMeans(a: string, b: string)
    ensures TextLess(a, b) <==>
            (a <= b && a != b) || exists k :: 0 <= k < |a| && k < |b| && a[..k] == b[..k] && a[k] < b[k]
  {
    if a != "" && b != "" && a[0] == b[0] {
      TextLessMeans(a[1..], b[1..]);
      assert a == [a[0]] + a[1..] && b == [b[0]] + b[1..];
      if k :| 0 <= k < |a| && k < |b| && a[..k] == b[..k] && a[k] < b[k] {
        assert a[1..][..k - 1] == a[..k][1..] && b[1..][..k - 1] == b[..k][1..];
      }
      if k :| 0 <= k < |a[1..]| && k < |b[1..]| && a[1..][..k] == b[1..][..k] && a[1..][k] < b[1..][k] {
        assert a[..k + 1] == [a[0]] + a[1..][..k] && b[..k + 1] == [b[0]] + b[1..][..k];
      }
    } else if a != "" && b != "" {
      assert a[..0] == b[..0];
    }
  }

  lemma RandomOrderReturns(q: Definition, cs: seq<Candidate>, o: Options, w: World)
    ensures exists all :: multiset(all) == multiset(Selected(q, cs, o, w)) && Evaluated(q, cs, o, w) == Limited(all, q.limit)
  {
    ArrangedIsPermutation(Selected(q, cs, o, w), NormalizeSort(q.sort), o, w);
    var all := Arranged(Selected(q, cs, o, w), NormalizeSort(q.sort), o, w);
    assert Evaluated(q, cs, o, w) == Limited(all, q.limit);
  }

  // ---------------------------------------------------------------- collections that part the books

  function OneRule(r: Rule): Definition {
    Definition([], "all", [Group("all", [r])], Sort("added_at", "desc"), None)
  }

  lemma OneRuleMatches(r: Rule, c: Candidate, o: Options, w: World)
    requires NormalizeRule(r) == r
    ensures MatchDefinition(Normalize(OneRule(r)), c, o, w) == MatchRule(r, c, o, w)
  {
    var n := Normalize(OneRule(r));
    AliasesAreClean();
    var none, one := Group("all", []), Group("all", [r]);
    assert NormalizeRules([r]) == [r] && NormalizeMatch("all") == "all";
    assert n.groups[0] == NormalizeGroup(one) == one;
    assert n.groups == [one] && n.combine == "all";
    OneMoreRule(none, r, c, o, w);
    assert none.rules + [r] == [r];
    OneMoreGroup(n.(groups := []), one, c, o, w);
    assert [] + [one] == n.groups;
  }

  /** A collection and the one with the opposite rule hold every candidate once between them, as often as
      it was offered, except the never read ones when the rule is about the last reading. */
  lemma OppositeCollectionsPartBooks(field: string, op: string, opposite: string, x: Value, cs: seq<Candidate>, o: Options, w: World, c: Candidate)
    requires Complementary(op, opposite) && ValidRule(Rule(field, op, x), o.allowPersonalized)
    requires ValidRule(Rule(field, opposite, x), o.allowPersonalized)
    requires NormalizeRule(Rule(field, op, x)) == Rule(field, op, x) && NormalizeRule(Rule(field, opposite, x)) == Rule(field, opposite, x)
    ensures multiset(Selected(OneRule(Rule(field, op, x)), cs, o, w))[c] + multiset(Selected(OneRule(Rule(field, opposite, x)), cs, o, w))[c] ==
            if field == "last_read" && c.lastReadAt == 0 then 0 else multiset(cs)[c]
  {
    var r, r2, opts := Rule(field, op, x), Rule(field, opposite, x), WithDefaults(o, w);
    SelectsExactlyTheMatching(OneRule(r), cs, o, w, c);
    SelectsExactlyTheMatching(OneRule(r2), cs, o, w, c);
    OneRuleMatches(r, c, opts, w);
    OneRuleMatches(r2, c, opts, w);
    OppositesPartIff(field, op, opposite, x, c, opts, w);
    if field == "last_read" && c.lastReadAt == 0 { NeverReadMatchesNeither(op, x, c, opts, w); }
  }

  lemma NeverReadMatchesNeither(op: string, x: Value, c: Candidate, o: Options, w: World)
    requires c.lastReadAt == 0
    ensures !MatchRule(Rule("last_read", op, x), c, o, w)
  {
  }

  // ---------------------------------------------------------------- candidates as the handler makes them

  /** The handler fills in the catalogue item only: no time of adding and no reading state. */
  predicate Bare(c: Candidate) {
    c.createdAt == 0 && !c.isFinished && c.progressPct == 0.0 && c.lastReadAt == 0 && c.annotationCount == 0
  }

  /** So a rule about the time of adding or about reading says the same of every book served, and one
      about a time matches none. */
  lemma ServedRuleIsTheSameForAllBooks(r: Rule, c: Candidate, d: Candidate, o: Options, w: World)
    requires Bare(c) && Bare(d) && (r.field == "added_at" || PersonalField(r.field))
    ensures MatchRule(r, c, o, w) == MatchRule(r, d, o, w)
    ensures r.field == "added_at" || r.field == "last_read" ==> !MatchRule(r, c, o, w)
  {
    RuleLooksAtItsField(r, c, d, o, w);
  }

  function Identity(n: nat): (p: seq<nat>)
    ensures |p| == n && forall i :: 0 <= i < n ==> p[i] == i
  {
    seq(n, i => i)
  }

  lemma SortOfEqualsIsIdentity<T(!new)>(xs: seq<T>, before: (T, T) -> bool)
    requires StableSort.StrictWeakOrder(before)
    requires forall i, j :: 0 <= i < |xs| && 0 <= j < |xs| ==> !before(xs[i], xs[j])
    ensures StableSort.Sort(xs, before) == xs
  {
    var p := Identity(|xs|);
    forall i: nat | i < |xs| ensures i in p { assert p[i] == i; }
    assert StableSort.StableOrder(xs, before, p) && xs == StableSort.Arranged(xs, p);
    StableSort.SortIsStable(xs, before);
    StableSort.StableSortIsUnique(xs, before, xs, StableSort.Sort(xs, before));
  }

  /** And the sorts by those, the default one among them, serve the books in catalogue order. */
  lemma ServedOrderIsCatalogueOrder(q: Definition, cs: seq<Candidate>, o: Options, w: World)
    requires forall i :: 0 <= i < |cs| ==> Bare(cs[i])
    requires NormalizeSort(q.sort).field !in {"title", "year", "rating", "random"}
    ensures Evaluated(q, cs, o, w) == Limited(Selected(q, cs, o, w), q.limit)
  {
    var s, kept := NormalizeSort(q.sort), Selected(q, cs, o, w);
    BeforeIsWeakOrder(s);
    Sequences.PlacesAre(Matches(Normalize(q), WithDefaults(o, w), w), cs, |cs|);
    assert forall i :: 0 <= i < |kept| ==> Bare(kept[i]);
    SortOfEqualsIsIdentity(kept, Before(s));
  }

  // ---------------------------------------------------------------- personalised rules

  lemma PersonalOffSelectsFewer(q: Definition, cs: seq<Candidate>, o: Options, w: World)
    ensures multiset(Selected(q, cs, o.(allowPersonalized := false), w)) <= multiset(Selected(q, cs, o.(allowPersonalized := true), w))
  {
    var off, on := o.(allowPersonalized := false), o.(allowPersonalized := true);
    forall c ensures multiset(Selected(q, cs, off, w))[c] <= multiset(Selected(q, cs, on, w))[c] {
      SelectsExactlyTheMatching(q, cs, off, w, c);
      SelectsExactlyTheMatching(q, cs, on, w, c);
      PersonalOffShrinks(Normalize(q), c, WithDefaults(o, w), w);
    }
  }

  // ---------------------------------------------------------------- store and reload

  /** What JSON is trusted for: this definition reads back as it was written. */
  predicate ReadsBack(encode: Definition -> string, decode: string -> Option<Definition>, d: Definition) {
    decode(encode(d)) == Some(d)
  }

  /** persistSmartCollection: normalise, validate, marshal (which normalises once more). */
  function Persist(q: Definition, encode: Definition -> string): Option<string> {
    if Valid(Normalize(q), true) then Some(encode(Normalize(Normalize(q)))) else None
  }

  lemma EvaluateIgnoresNormalization(q: Definition, cs: seq<Candidate>, o: Options, w: World)
    ensures Evaluated(Normalize(q), cs, o, w) == Evaluated(q, cs, o, w)
  {
    NormalizeIsIdempotent(q);
    NormalizeSortIsIdempotent(q.sort);
  }

  /** A definition is stored exactly when it is valid; what is reloaded is valid, is already normal, and
      gives the same books in the same order as what was submitted. */
  lemma StoredEvaluatesAsSubmitted(q: Definition, encode: Definition -> string, decode: string -> Option<Definition>,
                                   cs: seq<Candidate>, o: Options, w: World)
    requires ReadsBack(encode, decode, Normalize(q))
    ensures Persist(q, encode).Some? <==> Valid(q, true)
    ensures Valid(q, true) ==>
              var reloaded := decode(Persist(q, encode).value);
              && reloaded.Some? && Valid(reloaded.value, true) && Normalize(reloaded.value) == reloaded.value
              && Evaluated(reloaded.value, cs, o, w) == Evaluated(q, cs, o, w)
  {
    ValidIgnoresNormalization(q, true);
    NormalizeIsIdempotent(q);
    EvaluateIgnoresNormalization(q, cs, o, w);
  }

  // ---------------------------------------------------------------- pages

  /** A query parameter: absent, present but no number, or a number. */
  datatype Param = Absent | Garbled | Number(n: int)

  function PageSize(limit: Param, own: Option<int>): int {
    if limit == Absent then (if own.Some? && own.value > 0 then own.value else 30)
    else if limit.Number? && 0 < limit.n <= 200 then limit.n
    else 30
  }

  function PageNumber(page: Param): nat {
    if page.Number? && page.n >= 0 then page.n else 0
  }

  /** A request's own limit is between 1 and 200; only a collection's limit can be larger.  Whatever is
      missing or no such number counts as thirty books a page, and as the first page. */
  lemma PageSizeIs(limit: Param, page: Param, own: Option<int>)
    ensures PageSize(limit, own) > 0
    ensures PageSize(limit, own) > 200 ==> limit == Absent && own == Some(PageSize(limit, own))
    ensures limit.Number? && 0 < limit.n <= 200 ==> PageSize(limit, own) == limit.n
    ensures limit == Garbled || (limit.Number? && !(0 < limit.n <= 200)) ==> PageSize(limit, own) == 30
    ensures limit == Absent && own.Some? && own.value > 0 ==> PageSize(limit, own) == own.value
    ensures limit == Absent && (own.None? || own.value <= 0) ==> PageSize(limit, own) == 30
    ensures page.Number? && page.n >= 0 ==> PageNumber(page) == page.n
    ensures !(page.Number? && page.n >= 0) ==> PageNumber(page) == 0
  {
  }

  function Min(a: int, b: int): int {
    if a <= b then a else b
  }

  /** The slice the handler takes, with Go's arithmetic; None when slicing panics. */
  function PageOf<T>(matched: seq<T>, page: nat, limit: int): Option<seq<T>> {
    var start := Min(Wrap64(page * limit), |matched|);
    var end := Min(Wrap64(start + limit), |matched|);
    if 0 <= start <= end then Some(matched[start..end]) else None
  }

  method ServePage<T>(matched: seq<T>, page: nat, limit: int) returns (results: Option<seq<T>>)
    ensures results == PageOf(matched, page, limit)
  {
    var start := Wrap64(page * limit);
    if start > |matched| {
      start := |matched|;
    }
    var end := Wrap64(start + limit);
    if end > |matched| {
      end := |matched|;
    }
    if !(0 <= start <= end) { return None; }
    var items := [];
    for i := start to end
      invariant items == matched[start..i]
    {
      items := items + [matched[i]];
    }
    results := Some(items);
  }

  function Times(k: nat, limit: nat): nat {
    assert k * limit >= 0;
    k * limit
  }

  function SliceFrom<T>(matched: seq<T>, from: nat, limit: nat): seq<T> {
    matched[Min(from, |matched|)..Min(from + limit, |matched|)]
  }

  /** The page of a request: its size and number from the parameters, then the slice. */
  method ServeRequest<T>(matched: seq<T>, limit: Param, page: Param, own: Option<int>) returns (results: Option<seq<T>>)
    ensures results == PageOf(matched, PageNumber(page), PageSize(limit, own))
  {
    var size := 30;
    if limit != Absent {
      if limit.Number? && limit.n > 0 && limit.n <= 200 { size := limit.n; }
    } else if own.Some? && own.value > 0 {
      size := own.value;
    }
    var number: nat := 0;
    if page.Number? && page.n >= 0 { number := page.n; }
    results := ServePage(matched, number, size);
  }

  /** The page a reader means. */
  function TruePage<T>(matched: seq<T>, page: nat, limit: nat): seq<T> {
    SliceFrom(matched, Times(page, limit), limit)
  }

  /** No product overflows, or it wraps to a place past the end; and the end of the page fits. */
  predicate PageFits(total: nat, page: nat, limit: nat) {
    && (page * limit <= INT64_MAX || Wrap64(page * limit) >= total)
    && Min(Wrap64(page * limit), total) + limit <= INT64_MAX
  }

  /** The same for the bounds of a page that should start at p. */
  lemma PageBoundsAre(total: nat, p: nat, limit: nat)
    requires 0 < limit <= INT64_MAX && total <= INT64_MAX
    ensures var start := Min(Wrap64(p), total);
            var end := Min(Wrap64(start + limit), total);
            if 0 <= Wrap64(p) && start + limit <= INT64_MAX then
              0 <= start <= end && end == Min(start + limit, total) && (start == Min(p, total) || (start < end && p > total))
            else !(0 <= start <= end)
    ensures p <= INT64_MAX ==> Wrap64(p) == p
  {
    var start := Min(Wrap64(p), total);
    WrapIs(p);
    WrapIs(start + limit);
    assert INT64_MAX < start + limit ==> Wrap64(start + limit) == start + limit - 0x1_0000_0000_0000_0000;
  }

  lemma FittingPageIsRight<T>(matched: seq<T>, page: nat, limit: nat)
    requires 0 < limit <= INT64_MAX && |matched| <= INT64_MAX && PageFits(|matched|, page, limit)
    ensures PageOf(matched, page, limit) == Some(TruePage(matched, page, limit))
  {
    PageBoundsAre(|matched|, page * limit, limit);
  }

  lemma UnfitPageIsWrong<T>(matched: seq<T>, page: nat, limit: nat)
    requires 0 < limit <= INT64_MAX && |matched| <= INT64_MAX && !PageFits(|matched|, page, limit)
    ensures PageOf(matched, page, limit) != Some(TruePage(matched, page, limit))
  {
    PageBoundsAre(|matched|, page * limit, limit);
    var r := PageOf(matched, page, limit);
    assert page * limit > |matched| ==> |TruePage(matched, page, limit)| == 0;
    assert r.Some? ==> |r.value| > 0;
  }

  /** The handler serves the right page exactly when PageFits; otherwise it panics or serves another page. */
  lemma PageIsRightIff<T>(matched: seq<T>, page: nat, limit: nat)
    requires 0 < limit <= INT64_MAX && |matched| <= INT64_MAX
    ensures PageOf(matched, page, limit) == Some(TruePage(matched, page, limit)) <==> PageFits(|matched|, page, limit)
  {
    if PageFits(|matched|, page, limit) {
      FittingPageIsRight(matched, page, limit);
    } else {
      UnfitPageIsWrong(matched, page, limit);
    }
  }

  function Pages<T>(matched: seq<T>, limit: nat, k: nat): seq<T> {
    if k == 0 then []
    else Pages(matched, limit, k - 1) + (var page := PageOf(matched, k - 1, limit); if page.Some? then page.value else [])
  }

  lemma TimesStep(k: nat, limit: nat)
    requires k > 0
    ensures Times(k, limit) == Times(k - 1, limit) + limit
  {
  }

  lemma PrefixGrows<T>(matched: seq<T>, from: nat, limit: nat)
    ensures matched[..Min(from, |matched|)] + SliceFrom(matched, from, limit) == matched[..Min(from + limit, |matched|)]
  {
  }

  lemma PagesStep<T>(matched: seq<T>, limit: nat, k: nat)
    requires 0 < limit <= INT64_MAX && |matched| <= INT64_MAX && k > 0 && PageFits(|matched|, k - 1, limit)
    ensures Pages(matched, limit, k) == Pages(matched, limit, k - 1) + SliceFrom(matched, Times(k - 1, limit), limit)
  {
    FittingPageIsRight(matched, k - 1, limit);
  }

  lemma {:induction false} PagesArePrefix<T>(matched: seq<T>, limit: nat, k: nat)
    requires 0 < limit <= INT64_MAX && |matched| <= INT64_MAX && forall i: nat :: i < k ==> PageFits(|matched|, i, limit)
    ensures Pages(matched, limit, k) == matched[..Min(Times(k, limit), |matched|)]
  {
    if k > 0 {
      var last := k - 1;
      PagesArePrefix(matched, limit, last);
      PagesStep(matched, limit, k);
      TimesStep(k, limit);
      PrefixGrows(matched, Times(last, limit), limit);
    }
  }

  /** Pages 0, 1, 2, ... of any size put the list back together, as long as each of them fits. */
  lemma PagesGiveTheListBack<T>(matched: seq<T>, limit: nat, k: nat)
    requires 0 < limit <= INT64_MAX && |matched| <= INT64_MAX && forall i: nat :: i < k ==> PageFits(|matched|, i, limit)
    requires Times(k, limit) >= |matched|
    ensures Pages(matched, limit, k) == matched
  {
    PagesArePrefix(matched, limit, k);
  }

  /** Below 2^63 every page fits. */
  lemma SmallPagesFit(total: nat, limit: nat, i: nat)
    requires total + limit <= INT64_MAX && Times(i, limit) <= INT64_MAX
    ensures PageFits(total, i, limit)
  {
    WrapIs(i * limit);
  }

  /** A collection's own limit is served unchecked: the largest one makes page 1 panic... */
  lemma LargestLimitPanics<T>(matched: seq<T>)
    requires 0 < |matched| <= INT64_MAX
    ensures PageSize(Absent, Some(INT64_MAX)) == INT64_MAX
    ensures PageOf(matched, 1, INT64_MAX) == None
  {
  }

  /** ...and a page number whose product wraps to zero serves page 0 again. */
  lemma HugePageServesTheFirst<T>(matched: seq<T>)
    requires 0 < |matched| <= INT64_MAX
    ensures PageOf(matched, 0x4000_0000_0000_0000, 4) == PageOf(matched, 0, 4)
    ensures |TruePage(matched, 0x4000_0000_0000_0000, 4)| == 0 < |TruePage(matched, 0, 4)|
  {
    assert Wrap64(0x4000_0000_0000_0000 * 4) == Wrap64(0 * 4) == 0;
    assert Times(0x4000_0000_0000_0000, 4) > |matched|;
    assert Times(0, 4) == 0;
  }
}
