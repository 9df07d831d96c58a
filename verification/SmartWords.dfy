/** The words of a smart collection's definition: which are valid where, what the aliases and the blanks
    stand for, how long and in which order a result is, and what a random order can be
    (internal/smartcoll/query.go, internal/smartcoll/evaluator.go). */
module SmartWords {
  import Sequences
  import opened Wrappers
  import opened SmartQuery
  import opened SmartRules
  import opened SmartEval
  import opened SmartFields

  // ---------------------------------------------------------------- keywords

  const CAPITALS := "ABCDEFGHIJKLMNOPQRSTUVWXYZ"
  const LETTERS := "abcdefghijklmnopqrstuvwxyz"

  lemma Alphabet(k: nat)
    requires k < 26
    ensures |CAPITALS| == 26 && |LETTERS| == 26 && CAPITALS[k] as int == 'A' as int + k && LETTERS[k] as int == 'a' as int + k
  {
  }

  /** Capital letters become small ones, and nothing else changes. */
  lemma LowerMeans(s: string, i: nat, k: nat)
    requires i < |s| && k < 26
    ensures |CAPITALS| == 26 && |LETTERS| == 26
    ensures s[i] == CAPITALS[k] ==> Lower(s)[i] == LETTERS[k]
    ensures s[i] !in CAPITALS ==> Lower(s)[i] == s[i]
  {
    Alphabet(k);
    if 'A' <= s[i] <= 'Z' { Alphabet(s[i] as int - 'A' as int); }
  }

  predicate AllSpace(s: string) {
    forall i :: 0 <= i < |s| ==> s[i] in {' ', '\t', '\n', '\r', 11 as char, 12 as char}
  }

  lemma {:induction false} LeftTrimmed(s: string) returns (a: string)
    ensures s == a + TrimLeft(s) && AllSpace(a)
  {
    a := "";
    if s != "" && IsSpace(s[0]) {
      a := LeftTrimmed(s[1..]);
      a := [s[0]] + a;
    }
  }

  lemma {:induction false} RightTrimmed(s: string) returns (b: string)
    ensures s == TrimRight(s) + b && AllSpace(b)
  {
    b := "";
    if s != "" && IsSpace(s[|s| - 1]) {
      b := RightTrimmed(s[..|s| - 1]);
      b := b + [s[|s| - 1]];
    }
  }

  /** Trimming takes white space from both ends, all of it and nothing else. */
  lemma TrimMeans(s: string) returns (a: string, b: string)
    ensures s == a + Trim(s) + b && AllSpace(a) && AllSpace(b)
    ensures Trim(s) == "" || (!AllSpace([Trim(s)[0]]) && !AllSpace([Trim(s)[|Trim(s)| - 1]]))
  {
    var m, t := TrimLeft(s), Trim(s);
    a := LeftTrimmed(s);
    b := RightTrimmed(m);
    assert s == a + m && m == t + b && a + (t + b) == a + t + b;
    TrimLeftIs(s);
    TrimRightIs(m);
    if t != "" { EndsAreNoSpace(t); }
  }

  lemma EndsAreNoSpace(t: string)
    requires Trimmed(t) && t != ""
    ensures !AllSpace([t[0]]) && !AllSpace([t[|t| - 1]])
  {
    assert [t[0]][0] == t[0] && [t[|t| - 1]][0] == t[|t| - 1];
  }

  // ---------------------------------------------------------------- validity

  /** Which operator goes with which field; the fields about reading are for the reader's own collections. */
  predicate Allowed(field: string, op: string, personal: bool) {
    || (op in {"is", "is_not"} &&
        field in {"title", "author", "series", "genre", "tag", "format", "publisher", "year", "language", "isbn"})
    || (op == "contains" && field in {"title", "author", "series", "genre", "tag", "format", "publisher"})
    || (op in {"gt", "lt", "between"} && field in {"year", "rating", "added_at"})
    || (op in {"gte", "lte"} && field in {"year", "rating"})
    || (op == "in_last" && field == "added_at")
    || (personal &&
        (|| (op == "is" && field in {"finished", "in_progress", "abandoned"})
         || (op in {"gt", "gte", "lt", "lte", "between"} && field in {"last_read", "annotation_count"})
         || (op == "in_last" && field == "last_read")))
  }

  lemma RuleIsAllowed(field: string, op: string, value: Value, personal: bool)
    ensures ValidRule(Rule(field, op, value), personal) <==> Allowed(field, op, personal)
  {
  }

  /** The rule as it may be written: blanks around, capitals, plural names. */
  predicate RuleOk(r: Rule, personal: bool) {
    || Allowed(Clean(r.field), Clean(r.op), personal)
    || (Clean(r.field) == "authors" && Allowed("author", Clean(r.op), personal))
    || (Clean(r.field) == "genres" && Allowed("genre", Clean(r.op), personal))
    || (Clean(r.field) == "formats" && Allowed("format", Clean(r.op), personal))
  }

  predicate SortOk(s: Sort, personal: bool) {
    && (|| Clean(s.field) in {"", "title", "sort_title", "added_at", "recently_added", "year", "rating", "random"}
        || (personal && Clean(s.field) in {"progress", "last_read"}))
    && Clean(s.order) in {"", "asc", "desc"}
  }

  predicate CombineOk(m: string) {
    Clean(m) in {"", "all", "any"}
  }

  predicate GroupOk(g: Group, personal: bool) {
    CombineOk(g.combine) && forall j :: 0 <= j < |g.rules| ==> RuleOk(g.rules[j], personal)
  }

  lemma PluralIsNoField(op: string, personal: bool)
    ensures !Allowed("authors", op, personal) && !Allowed("genres", op, personal) && !Allowed("formats", op, personal)
  {
  }

  lemma RuleIsOk(r: Rule, personal: bool)
    ensures ValidRule(NormalizeRule(r), personal) <==> RuleOk(r, personal)
  {
    RuleIsAllowed(FieldAlias(Clean(r.field)), Clean(r.op), r.value, personal);
    PluralIsNoField(Clean(r.op), personal);
  }

  lemma SortIsOk(s: Sort, personal: bool)
    ensures var n := NormalizeSort(s);
      SortOk(s, personal) <==>
        && (n.field != "" ==> DefaultOrder(n.field).Some? && (PersonalSort(n.field) ==> personal))
        && (n.order == "" || n.order == "asc" || n.order == "desc")
  {
  }

  lemma GroupIsOk(g: Group, personal: bool)
    ensures ValidGroup(NormalizeGroup(g), personal) <==> GroupOk(g, personal)
  {
    forall j | 0 <= j < |g.rules| ensures ValidRule(NormalizeRule(g.rules[j]), personal) <==> RuleOk(g.rules[j], personal) {
      RuleIsOk(g.rules[j], personal);
    }
  }

  lemma SameIds(ids: seq<int>, x: int)
    ensures x in NormalizeIDs(ids) <==> x in ids
  {
    NormalizedIDs(ids, x);
    assert x in NormalizeIDs(ids) <==> multiset(NormalizeIDs(ids))[x] > 0;
    assert x in ids <==> multiset(ids)[x] > 0;
  }

  /** A definition is accepted exactly when its words are known where they stand, its library ids and its
      limit are positive, and it says nothing about reading unless that is allowed. */
  lemma ValidMeans(q: Definition, personal: bool)
    ensures Valid(q, personal) <==>
      && (forall x :: x in q.libraryIDs ==> x > 0) && (q.limit.Some? ==> q.limit.value > 0)
      && CombineOk(q.combine) && SortOk(q.sort, personal)
      && (forall i :: 0 <= i < |q.groups| ==> GroupOk(q.groups[i], personal))
  {
    forall i | 0 <= i < |q.groups| ensures ValidGroup(NormalizeGroup(q.groups[i]), personal) <==> GroupOk(q.groups[i], personal) {
      GroupIsOk(q.groups[i], personal);
    }
    IdsAreOk(q.libraryIDs);
    SortIsOk(q.sort, personal);
    NormalizeMatchIs(q.combine);
  }

  lemma IdsAreOk(ids: seq<int>)
    ensures (forall i :: 0 <= i < |NormalizeIDs(ids)| ==> NormalizeIDs(ids)[i] > 0) <==> forall x :: x in ids ==> x > 0
  {
    var n := NormalizeIDs(ids);
    forall x ensures x in n <==> x in ids { SameIds(ids, x); }
    if forall i :: 0 <= i < |n| ==> n[i] > 0 {
      forall x | x in ids ensures x > 0 { assert x in n; }
    }
    if forall x :: x in ids ==> x > 0 {
      forall i | 0 <= i < |n| ensures n[i] > 0 { assert n[i] in n; }
    }
  }

  lemma NormalizeMatchIs(m: string)
    ensures (NormalizeMatch(m) == "all" || NormalizeMatch(m) == "any") <==> CombineOk(m)
  {
  }

  // ---------------------------------------------------------------- what the words stand for

  lemma SameNormalForm(q: Definition, p: Definition, cs: seq<Candidate>, o: Options, w: World)
    requires Normalize(q) == Normalize(p)
    ensures Evaluated(q, cs, o, w) == Evaluated(p, cs, o, w)
  {
    EvaluateIgnoresNormalization(q, cs, o, w);
    EvaluateIgnoresNormalization(p, cs, o, w);
  }

  /** A rule may use the plural name of its field, with blanks around it and in capitals. */
  lemma PluralsEvaluateAlike(plural: string, field: string, op: string, value: Value, cs: seq<Candidate>, o: Options, w: World)
    requires (Clean(plural) == "authors" && field == "author") || (Clean(plural) == "genres" && field == "genre") ||
             (Clean(plural) == "formats" && field == "format") || (Clean(plural) == field && IsField(field))
    ensures Evaluated(OneRule(Rule(plural, op, value)), cs, o, w) == Evaluated(OneRule(Rule(field, op, value)), cs, o, w)
  {
    var a, b := Rule(plural, op, value), Rule(field, op, value);
    FieldIsWord(field);
    WordIsClean(field);
    assert NormalizeRule(a) == NormalizeRule(b);
    assert NormalizeGroup(Group("all", [a])) == NormalizeGroup(Group("all", [b]));
    assert Normalize(OneRule(a)).groups == Normalize(OneRule(b)).groups;
    SameNormalForm(OneRule(a), OneRule(b), cs, o, w);
  }

  /** Without a word all rules must hold, and all groups. */
  lemma BlankMatchMeansAll(q: Definition, cs: seq<Candidate>, o: Options, w: World)
    ensures Evaluated(q.(combine := ""), cs, o, w) == Evaluated(q.(combine := "all"), cs, o, w)
    ensures NormalizeGroup(Group("", [])).combine == "all"
  {
    AliasesAreClean();
    SameNormalForm(q.(combine := ""), q.(combine := "all"), cs, o, w);
  }

  lemma SameRuleSameResult(r: Rule, r2: Rule, cs: seq<Candidate>, o: Options, w: World)
    requires NormalizeRule(r) == r && NormalizeRule(r2) == r2
    requires forall c :: MatchRule(r, c, WithDefaults(o, w), w) == MatchRule(r2, c, WithDefaults(o, w), w)
    ensures Evaluated(OneRule(r), cs, o, w) == Evaluated(OneRule(r2), cs, o, w)
  {
    var opts, a, b := WithDefaults(o, w), Normalize(OneRule(r)), Normalize(OneRule(r2));
    forall c ensures Matches(a, opts, w)(c) == Matches(b, opts, w)(c) {
      OneRuleMatches(r, c, opts, w);
      OneRuleMatches(r2, c, opts, w);
    }
    SameFiltered(Matches(a, opts, w), Matches(b, opts, w), cs, |cs|);
  }

  /** What a value of another kind counts as: no number as 0, no text as the empty one, no truth value as false. */
  predicate CountsAs(field: string, value: Value, plain: Value) {
    || (field in {"rating", "year", "annotation_count"} && !value.Int? && !value.Float? && !value.List? && plain == Float(0.0))
    || (field in {"title", "author", "series", "genre", "tag", "format", "language", "publisher", "isbn"} &&
        !value.Text? && plain == Text(""))
    || (field in {"finished", "in_progress", "abandoned"} && !value.Bool? && plain == Bool(false))
  }

  lemma CountsAlike(field: string, op: string, value: Value, plain: Value, c: Candidate, o: Options, w: World)
    requires CountsAs(field, value, plain)
    ensures MatchRule(Rule(field, op, value), c, o, w) == MatchRule(Rule(field, op, plain), c, o, w)
  {
    assert IntValue(Float(0.0)) == 0;
  }

  /** A rule whose value is of the wrong kind evaluates as with that plain value. */
  lemma MistypedValueCountsAs(field: string, op: string, value: Value, plain: Value, cs: seq<Candidate>, o: Options, w: World)
    requires IsField(field) && IsOperator(op) && CountsAs(field, value, plain)
    ensures Evaluated(OneRule(Rule(field, op, value)), cs, o, w) == Evaluated(OneRule(Rule(field, op, plain)), cs, o, w)
  {
    RuleIsNormal(Rule(field, op, value));
    RuleIsNormal(Rule(field, op, plain));
    forall c ensures MatchRule(Rule(field, op, value), c, WithDefaults(o, w), w) == MatchRule(Rule(field, op, plain), c, WithDefaults(o, w), w) {
      CountsAlike(field, op, value, plain, c, WithDefaults(o, w), w);
    }
    SameRuleSameResult(Rule(field, op, value), Rule(field, op, plain), cs, o, w);
  }

  // ---------------------------------------------------------------- length and order

  lemma SameSize<T>(xs: seq<T>, ys: seq<T>)
    requires multiset(xs) == multiset(ys)
    ensures |xs| == |ys|
  {
    assert |multiset(xs)| == |xs| && |multiset(ys)| == |ys|;
  }

  lemma LimitedIs<T>(xs: seq<T>, limit: Option<int>)
    ensures Limited(xs, limit) <= xs == Limited(xs, None)
    ensures |Limited(xs, limit)| == if limit.Some? && 0 < limit.value < |xs| then limit.value else |xs|
  {
  }

  lemma UncutIs(q: Definition, cs: seq<Candidate>, o: Options, w: World)
    ensures Evaluated(q.(limit := None), cs, o, w) == Arranged(Selected(q, cs, o, w), NormalizeSort(q.sort), o, w)
    ensures Evaluated(q, cs, o, w) == Limited(Arranged(Selected(q, cs, o, w), NormalizeSort(q.sort), o, w), q.limit)
  {
    var n, p, opts := Normalize(q), Normalize(q.(limit := None)), WithDefaults(o, w);
    forall c ensures Matches(n, opts, w)(c) == Matches(p, opts, w)(c) {
      assert n.groups == p.groups && n.combine == p.combine;
      assert MatchDefinition(n, c, opts, w) == MatchDefinition(p, c, opts, w);
    }
    SameFiltered(Matches(p, opts, w), Matches(n, opts, w), cs, |cs|);
  }

  /** A limit cuts the result to its first so many books, and one that is missing or not positive cuts nothing. */
  lemma LimitMeans(q: Definition, cs: seq<Candidate>, o: Options, w: World)
    ensures var all, out := Evaluated(q.(limit := None), cs, o, w), Evaluated(q, cs, o, w);
      && out <= all && |all| == |Selected(q, cs, o, w)|
      && |out| == if q.limit.Some? && 0 < q.limit.value < |all| then q.limit.value else |all|
  {
    var selected := Selected(q, cs, o, w);
    var all := Arranged(selected, NormalizeSort(q.sort), o, w);
    UncutIs(q, cs, o, w);
    ArrangedIsPermutation(selected, NormalizeSort(q.sort), o, w);
    SameSize(selected, all);
    LimitedIs(all, q.limit);
  }

  lemma SortWordsAre(s: Sort)
    ensures var f, d, n := Clean(s.field), Clean(s.order), NormalizeSort(s);
      && (f in {"title", "sort_title"} ==> n.field == "title")
      && (f in {"", "added_at", "recently_added"} ==> n.field == "added_at")
      && (f in {"year", "rating", "progress", "last_read", "random"} ==> n.field == f)
      && (d != "" ==> n.order == d)
      && (d == "" && f in {"title", "sort_title"} ==> n.order == "asc")
      && (d == "" && f in {"", "added_at", "recently_added", "year", "rating", "progress", "last_read"} ==> n.order == "desc")
  {
  }

  /** The order of a result by the words of its sort: titles from A, all others from the highest, the
      newest or the most recent, unless the order says otherwise; newest first when nothing is said. */
  lemma ResultIsOrderedAsAsked(q: Definition, cs: seq<Candidate>, o: Options, w: World, i: nat, j: nat)
    requires Clean(q.sort.field) != "random" && i < j < |Evaluated(q, cs, o, w)|
    ensures var a, b, f, d := Evaluated(q, cs, o, w)[i], Evaluated(q, cs, o, w)[j], Clean(q.sort.field), Clean(q.sort.order);
      && (f in {"title", "sort_title"} && d != "desc" ==> !TextLess(Lower(b.title), Lower(a.title)))
      && (f in {"title", "sort_title"} && d == "desc" ==> !TextLess(Lower(a.title), Lower(b.title)))
      && (f in {"", "added_at", "recently_added"} && d in {"", "desc"} ==> a.createdAt >= b.createdAt)
      && (f in {"", "added_at", "recently_added"} && d !in {"", "desc"} ==> a.createdAt <= b.createdAt)
      && (f == "year" ==> if d in {"", "desc"} then a.year >= b.year else a.year <= b.year)
      && (f == "rating" ==> if d in {"", "desc"} then a.rating >= b.rating else a.rating <= b.rating)
      && (f == "progress" ==> if d in {"", "desc"} then a.progressPct >= b.progressPct else a.progressPct <= b.progressPct)
      && (f == "last_read" ==> if d in {"", "desc"} then a.lastReadAt >= b.lastReadAt else a.lastReadAt <= b.lastReadAt)
  {
    SortWordsAre(q.sort);
    NotRandom(q.sort);
    ResultIsSorted(q, cs, o, w, i, j);
  }

  lemma NotRandom(s: Sort)
    requires Clean(s.field) != "random"
    ensures NormalizeSort(s).field != "random"
  {
  }

  // ---------------------------------------------------------------- random order

  /** The shuffle by the partners that the places draw. */
  function ShuffledBy<T>(xs: seq<T>, draws: seq<nat>, n: nat): (ys: seq<T>)
    requires |draws| == |xs| && forall i :: 0 <= i < |draws| ==> draws[i] <= i
    ensures |ys| == |xs|
    decreases |xs| - n
  {
    if n + 1 >= |xs| then xs else Swap(ShuffledBy(xs, draws, n + 1), n + 1, draws[n + 1])
  }

  lemma {:induction false} ShuffledByDraws<T>(xs: seq<T>, seed: string, w: World, draws: seq<nat>, n: nat)
    requires |draws| == |xs| && forall i :: 0 <= i < |draws| ==> draws[i] <= i
    requires forall i: nat :: i < |draws| ==> w.random(seed, |xs|, i) == draws[i]
    ensures Shuffled(xs, seed, w, n) == ShuffledBy(xs, draws, n)
    decreases |xs| - n
  {
    if n + 1 < |xs| { ShuffledByDraws(xs, seed, w, draws, n + 1); }
  }

  lemma {:induction false} EarlierDrawDoesNotMatter<T>(xs: seq<T>, draws: seq<nat>, k: nat, j: nat, n: nat)
    requires |draws| == |xs| && forall i :: 0 <= i < |draws| ==> draws[i] <= i
    requires j <= k <= n && k < |xs|
    ensures ShuffledBy(xs, draws[k := j], n) == ShuffledBy(xs, draws, n)
    decreases |xs| - n
  {
    if n + 1 < |xs| { EarlierDrawDoesNotMatter(xs, draws, k, j, n + 1); }
  }

  /** From place n on the order is the wanted one, and before it the rest is at hand. */
  ghost predicate SettledFrom<T(!new)>(now: seq<T>, wanted: seq<T>, n: nat) {
    |now| == |wanted| && n <= |now| && now[n..] == wanted[n..] && multiset(now[..n]) == multiset(wanted[..n])
  }

  lemma PrefixMultiset<T>(s: seq<T>, m: nat)
    requires m < |s|
    ensures multiset(s[..m + 1]) == multiset(s[..m]) + multiset{s[m]}
  {
    assert s[..m + 1] == s[..m] + [s[m]];
  }

  lemma PartnerIsAtHand<T(!new)>(now: seq<T>, wanted: seq<T>, m: nat) returns (j: nat)
    requires m < |now| && SettledFrom(now, wanted, m + 1)
    ensures j <= m && now[j] == wanted[m]
  {
    PrefixMultiset(wanted, m);
    assert wanted[m] in multiset(now[..m + 1]);
    j :| 0 <= j < m + 1 && now[..m + 1][j] == wanted[m];
  }

  lemma CancelLast<T(!new)>(a: seq<T>, b: seq<T>, m: nat)
    requires m < |a| && m < |b| && a[m] == b[m] && multiset(a[..m + 1]) == multiset(b[..m + 1])
    ensures multiset(a[..m]) == multiset(b[..m])
  {
    PrefixMultiset(a, m);
    PrefixMultiset(b, m);
    assert multiset(a[..m]) == multiset(a[..m + 1]) - multiset{a[m]};
    assert multiset(b[..m]) == multiset(b[..m + 1]) - multiset{b[m]};
  }

  lemma SwapSettles<T(!new)>(now: seq<T>, wanted: seq<T>, m: nat, j: nat)
    requires m < |now| && SettledFrom(now, wanted, m + 1) && j <= m && now[j] == wanted[m]
    ensures SettledFrom(Swap(now, m, j), wanted, m)
  {
    var then' := Swap(now, m, j);
    SwapIsPermutation(now[..m + 1], m, j);
    assert then'[..m + 1] == Swap(now[..m + 1], m, j);
    CancelLast(then', wanted, m);
    assert then'[m + 1..] == now[m + 1..];
    assert then'[m..] == [then'[m]] + then'[m + 1..] && wanted[m..] == [wanted[m]] + wanted[m + 1..];
  }

  lemma {:induction false} DrawsFor<T(!new)>(xs: seq<T>, wanted: seq<T>, n: nat) returns (draws: seq<nat>)
    requires n < |xs| == |wanted| && multiset(xs) == multiset(wanted)
    ensures |draws| == |xs| && forall i :: 0 <= i < |draws| ==> draws[i] <= i
    ensures SettledFrom(ShuffledBy(xs, draws, n), wanted, n + 1)
    decreases |xs| - n
  {
    if n + 1 == |xs| {
      draws := seq(|xs|, _ => 0);
      assert xs[..n + 1] == xs && wanted[..n + 1] == wanted;
    } else {
      draws := DrawsFor(xs, wanted, n + 1);
      var now := ShuffledBy(xs, draws, n + 1);
      var j := PartnerIsAtHand(now, wanted, n + 1);
      EarlierDrawDoesNotMatter(xs, draws, n + 1, j, n + 1);
      draws := draws[n + 1 := j];
      SwapSettles(now, wanted, n + 1, j);
    }
  }

  /** Every order of the elements is drawn by some draws. */
  lemma DrawsForOrder<T(!new)>(xs: seq<T>, wanted: seq<T>) returns (draws: seq<nat>)
    requires multiset(xs) == multiset(wanted)
    ensures |draws| == |xs| && forall i :: 0 <= i < |draws| ==> draws[i] <= i
    ensures ShuffledBy(xs, draws, 0) == wanted
  {
    SameSize(xs, wanted);
    if xs == [] { return []; }
    draws := DrawsFor(xs, wanted, 0);
    var now := ShuffledBy(xs, draws, 0);
    assert now[..1] == [now[0]] && wanted[..1] == [wanted[0]];
    assert now[0] in multiset(wanted[..1]);
    assert now == now[..1] + now[1..] && wanted == wanted[..1] + wanted[1..];
  }

  function DrawAt(draws: seq<nat>, i: nat): int {
    if i < |draws| then draws[i] else 0
  }

  /** The world with these draws for seed a, and those for any other. */
  function WithDraws(w: World, a: string, left: seq<nat>, right: seq<nat>): World {
    w.(random := (seed: string, length: nat, i: nat) => if seed == a then DrawAt(left, i) else DrawAt(right, i))
  }

  lemma SameRuleMatches(r: Rule, c: Candidate, o: Options, w: World, w2: World)
    requires w.rfc3339 == w2.rfc3339
    ensures MatchRule(r, c, o, w) == MatchRule(r, c, o, w2)
  {
  }

  lemma SameGroupMatches(g: Group, c: Candidate, o: Options, w: World, w2: World)
    requires w.rfc3339 == w2.rfc3339
    ensures MatchGroup(g, c, o, w) == MatchGroup(g, c, o, w2)
  {
    forall i | 0 <= i < |g.rules| ensures MatchRule(g.rules[i], c, o, w) == MatchRule(g.rules[i], c, o, w2) {
      SameRuleMatches(g.rules[i], c, o, w, w2);
    }
  }

  lemma SameMatches(q: Definition, c: Candidate, o: Options, w: World, w2: World)
    requires w.rfc3339 == w2.rfc3339
    ensures MatchDefinition(q, c, o, w) == MatchDefinition(q, c, o, w2)
  {
    forall i | 0 <= i < |q.groups| ensures MatchGroup(q.groups[i], c, o, w) == MatchGroup(q.groups[i], c, o, w2) {
      SameGroupMatches(q.groups[i], c, o, w, w2);
    }
  }

  lemma {:induction false} SameFiltered<T(!new)>(f: T -> bool, g: T -> bool, s: seq<T>, n: nat)
    requires n <= |s| && forall x :: f(x) == g(x)
    ensures Sequences.Filtered(f, s, n) == Sequences.Filtered(g, s, n)
  {
    if n > 0 { SameFiltered(f, g, s, n - 1); }
  }

  /** What is selected depends neither on the random source nor on the seed. */
  lemma DrawsDoNotSelect(q: Definition, cs: seq<Candidate>, o: Options, seed: string, w: World, w2: World)
    requires w.rfc3339 == w2.rfc3339 && w.clock == w2.clock
    ensures Selected(q, cs, o.(userSeed := seed), w2) == Selected(q, cs, o, w)
  {
    var n, a, b := Normalize(q), WithDefaults(o, w), WithDefaults(o.(userSeed := seed), w2);
    forall c ensures Matches(n, a, w)(c) == Matches(n, b, w2)(c) {
      SameMatches(n, c, a, w, w2);
      SameSeedMatches(n, c, a, seed, w2);
    }
    SameFiltered(Matches(n, b, w2), Matches(n, a, w), cs, |cs|);
  }

  lemma SameSeedMatches(q: Definition, c: Candidate, o: Options, seed: string, w: World)
    ensures MatchDefinition(q, c, o.(userSeed := seed), w) == MatchDefinition(q, c, o, w)
  {
    forall i | 0 <= i < |q.groups| ensures MatchGroup(q.groups[i], c, o.(userSeed := seed), w) == MatchGroup(q.groups[i], c, o, w) {
      SameSeedGroup(q.groups[i], c, o, seed, w);
    }
  }

  lemma SameSeedGroup(g: Group, c: Candidate, o: Options, seed: string, w: World)
    ensures MatchGroup(g, c, o.(userSeed := seed), w) == MatchGroup(g, c, o, w)
  {
    forall j | 0 <= j < |g.rules| ensures MatchRule(g.rules[j], c, o.(userSeed := seed), w) == MatchRule(g.rules[j], c, o, w) {
      SameSeedRule(g.rules[j], c, o, seed, w);
    }
  }

  lemma SameSeedRule(r: Rule, c: Candidate, o: Options, seed: string, w: World)
    ensures MatchRule(r, c, o.(userSeed := seed), w) == MatchRule(r, c, o, w)
  {
  }

  lemma RandomResult(q: Definition, cs: seq<Candidate>, o: Options, seed: string, w: World, w2: World, draws: seq<nat>)
    requires NormalizeSort(q.sort).field == "random" && w.rfc3339 == w2.rfc3339 && w.clock == w2.clock && seed != ""
    requires |draws| == |Selected(q, cs, o, w)| && forall i :: 0 <= i < |draws| ==> draws[i] <= i
    requires forall i: nat :: i < |draws| ==> w2.random(seed, |draws|, i) == draws[i]
    ensures Evaluated(q, cs, o.(userSeed := seed), w2) == Limited(ShuffledBy(Selected(q, cs, o, w), draws, 0), q.limit)
  {
    DrawsDoNotSelect(q, cs, o, seed, w, w2);
    ShuffledByDraws(Selected(q, cs, o, w), seed, w2, draws, 0);
  }

  /** A random order can be any order, for each user's seed independently of the others': for any two
      seeds and any two orders of the selected books there are draws that give them. */
  lemma EveryOrderCanBeDrawn(q: Definition, cs: seq<Candidate>, o: Options, w: World, a: string, b: string,
                             xs: seq<Candidate>, ys: seq<Candidate>) returns (w2: World)
    requires Clean(q.sort.field) == "random" && a != "" && b != "" && a != b
    requires multiset(xs) == multiset(ys) == multiset(Selected(q, cs, o, w))
    ensures w2.clock == w.clock && w2.rfc3339 == w.rfc3339
    ensures Evaluated(q, cs, o.(userSeed := a), w2) == Limited(xs, q.limit)
    ensures Evaluated(q, cs, o.(userSeed := b), w2) == Limited(ys, q.limit)
  {
    var selected := Selected(q, cs, o, w);
    var left := DrawsForOrder(selected, xs);
    var right := DrawsForOrder(selected, ys);
    w2 := WithDraws(w, a, left, right);
    SortWordsAre(q.sort);
    RandomResult(q, cs, o, a, w, w2, left);
    forall i: nat | i < |right| ensures w2.random(b, |right|, i) == right[i] {
      assert w2.random(b, |right|, i) == DrawAt(right, i);
    }
    RandomResult(q, cs, o, b, w, w2, right);
  }

  /** A user without a seed shares one with everybody else who has none. */
  lemma BlankSeedIsShared(q: Definition, cs: seq<Candidate>, o: Options, w: World)
    ensures Evaluated(q, cs, o.(userSeed := ""), w) == Evaluated(q, cs, o.(userSeed := "random"), w)
  {
    DrawsDoNotSelect(q, cs, o, "", w, w);
    DrawsDoNotSelect(q, cs, o, "random", w, w);
  }
}
