/** The smart collection DSL: normalisation and validation (internal/smartcoll/query.go).
    Text is ASCII here: ToLower and TrimSpace are written out for it. */
module SmartQuery {
  import Sequences
  import opened Wrappers

  // ---------------------------------------------------------------- text

  function LowerChar(c: char): char {
    if 'A' <= c <= 'Z' then (c as int + 32) as char else c
  }

  function Lower(s: string): (r: string)
    ensures |r| == |s| && forall i :: 0 <= i < |s| ==> r[i] == LowerChar(s[i])
  {
    seq(|s|, i requires 0 <= i < |s| => LowerChar(s[i]))
  }

  predicate IsSpace(c: char) {
    c == ' ' || 9 <= c as int <= 13
  }

  function TrimLeft(s: string): string {
    if s != "" && IsSpace(s[0]) then TrimLeft(s[1..]) else s
  }

  function TrimRight(s: string): string {
    if s != "" && IsSpace(s[|s| - 1]) then TrimRight(s[..|s| - 1]) else s
  }

  function Trim(s: string): string {
    TrimRight(TrimLeft(s))
  }

  predicate Trimmed(s: string) {
    s == "" || (!IsSpace(s[0]) && !IsSpace(s[|s| - 1]))
  }

  lemma {:induction false} TrimLeftIs(s: string)
    ensures TrimLeft(s) == "" || !IsSpace(TrimLeft(s)[0])
  {
    if s != "" && IsSpace(s[0]) { TrimLeftIs(s[1..]); }
  }

  lemma {:induction false} TrimRightIs(s: string)
    requires s == "" || !IsSpace(s[0])
    ensures Trimmed(TrimRight(s))
  {
    if s != "" && IsSpace(s[|s| - 1]) { TrimRightIs(s[..|s| - 1]); }
  }

  /** ToLower after TrimSpace, as every keyword is read. */
  function Clean(s: string): string {
    Lower(Trim(s))
  }

  lemma CleanIsIdempotent(s: string)
    ensures Clean(Clean(s)) == Clean(s)
  {
    TrimLeftIs(s);
    TrimRightIs(TrimLeft(s));
    var t := Clean(s);
    assert Trimmed(t);
    assert Trim(t) == t;
    assert forall c :: LowerChar(LowerChar(c)) == LowerChar(c);
    assert Lower(t) == t;
  }

  // ---------------------------------------------------------------- definitions

  /** A rule's value: what encoding/json decodes to, and the Go integers Evaluate also accepts. */
  datatype Value = Null | Text(text: string) | Bool(b: bool) | Int(n: int) | Float(x: real) | List(items: seq<Value>)
                 | Span(amount: Value, unit: string)

  datatype Rule = Rule(field: string, op: string, value: Value)

  datatype Group = Group(combine: string, rules: seq<Rule>)

  datatype Sort = Sort(field: string, order: string)

  datatype Definition = Definition(libraryIDs: seq<int>, combine: string, groups: seq<Group>, sort: Sort, limit: Option<int>)

  function FieldAlias(field: string): string {
    if field == "authors" then "author"
    else if field == "genres" then "genre"
    else if field == "formats" then "format"
    else field
  }

  function SortAlias(field: string): string {
    if field == "sort_title" then "title"
    else if field == "recently_added" then "added_at"
    else field
  }

  const TEXT_OPS: set<string> := {"is", "is_not", "contains"}
  const COMPARE_OPS: set<string> := {"gt", "gte", "lt", "lte", "between"}

  /** queryFieldDefs: the operators of each field, None for an unknown field. */
  function Operators(field: string): Option<set<string>> {
    if field == "title" || field == "author" || field == "series" || field == "genre" || field == "tag" ||
       field == "format" || field == "publisher" then Some(TEXT_OPS)
    else if field == "year" then Some(COMPARE_OPS + {"is", "is_not"})
    else if field == "rating" || field == "annotation_count" then Some(COMPARE_OPS)
    else if field == "language" || field == "isbn" then Some({"is", "is_not"})
    else if field == "added_at" then Some({"gt", "lt", "between", "in_last"})
    else if field == "finished" || field == "in_progress" || field == "abandoned" then Some({"is"})
    else if field == "last_read" then Some(COMPARE_OPS + {"in_last"})
    else None
  }

  predicate PersonalField(field: string) {
    field == "finished" || field == "in_progress" || field == "last_read" || field == "abandoned" || field == "annotation_count"
  }

  /** querySortDefs: the default order, None for an unknown sort. */
  function DefaultOrder(field: string): Option<string> {
    if field == "title" || field == "random" then Some("asc")
    else if field == "added_at" || field == "year" || field == "rating" || field == "progress" || field == "last_read" then Some("desc")
    else None
  }

  predicate PersonalSort(field: string) {
    field == "progress" || field == "last_read"
  }

  // ---------------------------------------------------------------- normalisation

  function NormalizeMatch(m: string): string {
    if Clean(m) == "" then "all" else Clean(m)
  }

  function NormalizeRule(r: Rule): Rule {
    Rule(FieldAlias(Clean(r.field)), Clean(r.op), r.value)
  }

  function NormalizeRules(rules: seq<Rule>): (out: seq<Rule>)
    ensures |out| == |rules| && forall i :: 0 <= i < |rules| ==> out[i] == NormalizeRule(rules[i])
  {
    seq(|rules|, i requires 0 <= i < |rules| => NormalizeRule(rules[i]))
  }

  function NormalizeGroup(g: Group): Group {
    Group(NormalizeMatch(g.combine), NormalizeRules(g.rules))
  }

  function NormalizeGroups(groups: seq<Group>): (out: seq<Group>)
    ensures |out| == |groups| && forall i :: 0 <= i < |groups| ==> out[i] == NormalizeGroup(groups[i])
  {
    seq(|groups|, i requires 0 <= i < |groups| => NormalizeGroup(groups[i]))
  }

  function NormalizeSort(s: Sort): Sort {
    var field := if SortAlias(Clean(s.field)) == "" then "added_at" else SortAlias(Clean(s.field));
    var order := Clean(s.order);
    Sort(field, if order == "" && DefaultOrder(field).Some? then DefaultOrder(field).value else order)
  }

  /** Positive ids once, at their first place; others as they come. */
  function Deduped(ids: seq<int>, n: nat): seq<int>
    requires n <= |ids|
  {
    if n == 0 then []
    else if ids[n - 1] > 0 && ids[n - 1] in ids[..n - 1] then Deduped(ids, n - 1)
    else Deduped(ids, n - 1) + [ids[n - 1]]
  }

  predicate Sorted(s: seq<int>) {
    forall i, j :: 0 <= i < j < |s| ==> s[i] <= s[j]
  }

  /** sort.Slice on integers. */
  function Insert(s: seq<int>, x: int): seq<int> {
    if s == [] || s[|s| - 1] <= x then s + [x] else Insert(s[..|s| - 1], x) + [s[|s| - 1]]
  }

  function SortInts(s: seq<int>): seq<int> {
    if s == [] then [] else Insert(SortInts(s[..|s| - 1]), s[|s| - 1])
  }

  function NormalizeIDs(ids: seq<int>): seq<int> {
    SortInts(Deduped(ids, |ids|))
  }

  method NormalizeLibraryIDs(ids: seq<int>) returns (out: seq<int>)
    ensures out == NormalizeIDs(ids)
  {
    if |ids| == 0 { return []; }
    var seen: set<int> := {};
    out := [];
    for i := 0 to |ids|
      invariant out == Deduped(ids, i)
      invariant forall x :: x in seen <==> x > 0 && x in ids[..i]
    {
      var id := ids[i];
      assert ids[..i + 1] == ids[..i] + [id];
      if id <= 0 {
        out := out + [id];
        continue;
      }
      if id in seen { continue; }
      seen := seen + {id};
      out := out + [id];
    }
    out := SortInts(out);
  }

  function Normalize(q: Definition): Definition {
    Definition(NormalizeIDs(q.libraryIDs), NormalizeMatch(q.combine), NormalizeGroups(q.groups), NormalizeSort(q.sort), q.limit)
  }

  /** The inner loop of Normalize: the rules of a group are rewritten where they are. */
  method NormalizeRulesInPlace(rules: array<Rule>)
    modifies rules
    ensures rules[..] == NormalizeRules(old(rules[..]))
  {
    for j := 0 to rules.Length
      invariant forall i :: 0 <= i < j ==> rules[i] == NormalizeRule(old(rules[i]))
      invariant forall i :: j <= i < rules.Length ==> rules[i] == old(rules[i])
    {
      NormalizeRuleAt(rules, j);
    }
  }

  method NormalizeRuleAt(rules: array<Rule>, j: nat)
    requires j < rules.Length
    modifies rules
    ensures rules[j] == NormalizeRule(old(rules[j]))
    ensures forall i :: 0 <= i < rules.Length && i != j ==> rules[i] == old(rules[i])
  {
    var field := Clean(rules[j].field);
    if FieldAlias(field) != field {
      field := FieldAlias(field);
    }
    rules[j] := rules[j].(field := field);
    rules[j] := rules[j].(op := Clean(rules[j].op));
  }

  /** A group as its slice header: groups may share their rules with each other and with the caller. */
  datatype GroupRef = GroupRef(combine: string, rules: array<Rule>)

  method NormalizeGroupAt(groups: array<GroupRef>, i: nat)
    requires i < groups.Length
    modifies groups, groups[i].rules
    ensures groups[i] == old(groups[i]).(combine := NormalizeMatch(old(groups[i]).combine))
    ensures groups[i].rules[..] == NormalizeRules(old(groups[i].rules[..]))
    ensures forall k :: 0 <= k < groups.Length && k != i ==> groups[k] == old(groups[k])
  {
    groups[i] := groups[i].(combine := NormalizeMatch(groups[i].combine));
    NormalizeRulesInPlace(groups[i].rules);
  }

  /** The loops of Normalize over the groups of a definition.  The caller's groups and rules change with
      it; rules that several groups share come out normalised all the same. */
  method NormalizeGroupsInPlace(groups: array<GroupRef>)
    modifies groups, set g | g in groups[..] :: g.rules
    ensures forall i :: 0 <= i < groups.Length ==>
      && groups[i] == old(groups[i]).(combine := NormalizeMatch(old(groups[i]).combine))
      && groups[i].rules[..] == NormalizeRules(old(groups[i].rules[..]))
  {
    ghost var start := groups[..];
    for i := 0 to groups.Length
      invariant forall k :: 0 <= k < i ==> groups[k] == start[k].(combine := NormalizeMatch(start[k].combine))
      invariant forall k :: i <= k < groups.Length ==> groups[k] == start[k]
      invariant forall k :: 0 <= k < i ==> Settled(old(start[k].rules[..]), start[k].rules[..])
      invariant forall k :: 0 <= k < groups.Length ==> Settling(old(start[k].rules[..]), start[k].rules[..])
    {
      ghost var before := start[i].rules[..];
      assert start[i] in start;
      NormalizeGroupAt(groups, i);
      SettlingIsSettled(old(start[i].rules[..]), before);
      forall k | 0 <= k < groups.Length && start[k].rules == start[i].rules
        ensures Settled(old(start[k].rules[..]), start[k].rules[..])
      {
      }
    }
  }

  /** Every rule is as it was, or normalised. */
  predicate Settling(was: seq<Rule>, now: seq<Rule>) {
    |was| == |now| && forall j :: 0 <= j < |was| ==> now[j] == was[j] || now[j] == NormalizeRule(was[j])
  }

  predicate Settled(was: seq<Rule>, now: seq<Rule>) {
    now == NormalizeRules(was)
  }

  lemma SettlingIsSettled(was: seq<Rule>, now: seq<Rule>)
    requires Settling(was, now)
    ensures NormalizeRules(now) == NormalizeRules(was)
  {
    forall j | 0 <= j < |was| ensures NormalizeRule(now[j]) == NormalizeRule(was[j]) { NormalizeRuleIsIdempotent(was[j]); }
  }

  // ---------------------------------------------------------------- library ids

  lemma SortedAppend(s: seq<int>, x: int)
    requires Sorted(s) && forall i :: 0 <= i < |s| ==> s[i] <= x
    ensures Sorted(s + [x])
  {
  }

  lemma {:induction false} InsertCounts(s: seq<int>, x: int)
    ensures multiset(Insert(s, x)) == multiset(s) + multiset{x}
  {
    if s != [] {
      InsertCounts(s[..|s| - 1], x);
      assert s == s[..|s| - 1] + [s[|s| - 1]];
    }
  }

  lemma {:induction false} InsertBounded(s: seq<int>, x: int, top: int)
    requires x <= top && forall i :: 0 <= i < |s| ==> s[i] <= top
    ensures forall i :: 0 <= i < |Insert(s, x)| ==> Insert(s, x)[i] <= top
  {
    if s != [] { InsertBounded(s[..|s| - 1], x, top); }
  }

  lemma {:induction false} InsertIs(s: seq<int>, x: int)
    requires Sorted(s)
    ensures Sorted(Insert(s, x)) && multiset(Insert(s, x)) == multiset(s) + multiset{x}
  {
    InsertCounts(s, x);
    if s == [] || s[|s| - 1] <= x {
      SortedAppend(s, x);
    } else {
      var init, last := s[..|s| - 1], s[|s| - 1];
      InsertIs(init, x);
      InsertBounded(init, x, last);
      SortedAppend(Insert(init, x), last);
    }
  }

  lemma {:induction false} SortIntsIs(s: seq<int>)
    ensures Sorted(SortInts(s)) && multiset(SortInts(s)) == multiset(s)
  {
    if s != [] {
      SortIntsIs(s[..|s| - 1]);
      InsertIs(SortInts(s[..|s| - 1]), s[|s| - 1]);
      assert s == s[..|s| - 1] + [s[|s| - 1]];
    }
  }

  lemma InsertAtEnd(s: seq<int>, x: int)
    requires Sorted(s + [x])
    ensures Insert(s, x) == s + [x]
  {
    if s != [] { assert (s + [x])[|s| - 1] <= (s + [x])[|s|]; }
  }

  lemma {:induction false} SortOfSorted(s: seq<int>)
    requires Sorted(s)
    ensures SortInts(s) == s
  {
    if s != [] {
      var init, last := s[..|s| - 1], s[|s| - 1];
      assert s == init + [last];
      SortOfSorted(init);
      InsertAtEnd(init, last);
    }
  }

  lemma DedupedStep(ids: seq<int>, n: nat, x: int)
    requires 0 < n <= |ids|
    ensures var last, before := ids[n - 1], multiset(Deduped(ids, n - 1))[x];
      multiset(Deduped(ids, n))[x] == if x != last || (last > 0 && last in ids[..n - 1]) then before else before + 1
  {
    Sequences.AppendCounts(Deduped(ids, n - 1), ids[n - 1]);
  }

  lemma {:induction false} DedupedKeepsOthers(ids: seq<int>, n: nat, x: int)
    requires n <= |ids| && x <= 0
    ensures multiset(Deduped(ids, n))[x] == multiset(ids[..n])[x]
  {
    if n > 0 {
      DedupedKeepsOthers(ids, n - 1, x);
      DedupedStep(ids, n, x);
      Sequences.PrefixCounts(ids, n, x);
    }
  }

  lemma InPrefix(ids: seq<int>, n: nat, x: int)
    requires 0 < n <= |ids|
    ensures x in ids[..n] <==> x in ids[..n - 1] || x == ids[n - 1]
  {
    Sequences.PrefixGrows(ids, n);
  }

  lemma {:induction false} DedupedHasOnce(ids: seq<int>, n: nat, x: int)
    requires n <= |ids| && x > 0
    ensures multiset(Deduped(ids, n))[x] == if x in ids[..n] then 1 else 0
  {
    if n > 0 {
      DedupedHasOnce(ids, n - 1, x);
      DedupedStep(ids, n, x);
      InPrefix(ids, n, x);
    }
  }

  lemma {:induction false} DedupedOfDistinct(ids: seq<int>, n: nat)
    requires n <= |ids| && forall i, j :: 0 <= i < j < |ids| && ids[j] > 0 ==> ids[i] != ids[j]
    ensures Deduped(ids, n) == ids[..n]
  {
    if n > 0 {
      DedupedOfDistinct(ids, n - 1);
      assert ids[..n] == ids[..n - 1] + [ids[n - 1]];
    }
  }

  /** Ids come out sorted, each positive one once and each other one as often as it came. */
  lemma NormalizedIDs(ids: seq<int>, x: int)
    ensures Sorted(NormalizeIDs(ids))
    ensures x > 0 ==> multiset(NormalizeIDs(ids))[x] == if x in ids then 1 else 0
    ensures x <= 0 ==> multiset(NormalizeIDs(ids))[x] == multiset(ids)[x]
  {
    SortIntsIs(Deduped(ids, |ids|));
    if x > 0 { DedupedHasOnce(ids, |ids|, x); } else { DedupedKeepsOthers(ids, |ids|, x); }
    assert ids[..|ids|] == ids;
  }

  lemma TwiceInMultiset(s: seq<int>, i: nat, j: nat)
    requires i < j < |s| && s[i] == s[j]
    ensures multiset(s)[s[i]] >= 2
  {
    assert s == s[..j] + s[j..];
    assert s[..j][i] == s[i] && s[j..][0] == s[i];
  }

  lemma NormalizeIDsIsIdempotent(ids: seq<int>)
    ensures NormalizeIDs(NormalizeIDs(ids)) == NormalizeIDs(ids)
  {
    var out := NormalizeIDs(ids);
    NormalizedIDs(ids, 0);
    forall i, j | 0 <= i < j < |out| && out[j] > 0 ensures out[i] != out[j] {
      NormalizedIDs(ids, out[j]);
      if out[i] == out[j] { TwiceInMultiset(out, i, j); }
    }
    DedupedOfDistinct(out, |out|);
    assert out[..|out|] == out;
    SortOfSorted(out);
  }

  // ---------------------------------------------------------------- idempotence

  lemma NormalizeRuleIsIdempotent(r: Rule)
    ensures NormalizeRule(NormalizeRule(r)) == NormalizeRule(r)
  {
    CleanIsIdempotent(r.field);
    CleanIsIdempotent(r.op);
    AliasesAreClean();
  }

  /** The canonical names are fixed by cleaning. */
  lemma AliasesAreClean()
    ensures Clean("author") == "author" && Clean("genre") == "genre" && Clean("format") == "format"
    ensures Clean("title") == "title" && Clean("added_at") == "added_at"
    ensures Clean("all") == "all" && Clean("asc") == "asc" && Clean("desc") == "desc"
  {
    assert Lower("author") == "author" && Lower("genre") == "genre" && Lower("format") == "format";
    assert Lower("title") == "title" && Lower("added_at") == "added_at";
    assert Lower("all") == "all" && Lower("asc") == "asc" && Lower("desc") == "desc";
  }

  lemma SortFieldIsSettled(f: string)
    requires Clean(f) == f
    ensures var g := if SortAlias(f) == "" then "added_at" else SortAlias(f);
            g != "" && Clean(g) == g && SortAlias(g) == g
  {
    AliasesAreClean();
  }

  lemma DefaultOrderIsClean(f: string)
    requires DefaultOrder(f).Some?
    ensures DefaultOrder(f).value != "" && Clean(DefaultOrder(f).value) == DefaultOrder(f).value
  {
    AliasesAreClean();
  }

  lemma NormalizeSortIsIdempotent(s: Sort)
    ensures NormalizeSort(NormalizeSort(s)) == NormalizeSort(s)
  {
    CleanIsIdempotent(s.field);
    CleanIsIdempotent(s.order);
    SortFieldIsSettled(Clean(s.field));
    var n := NormalizeSort(s);
    if DefaultOrder(n.field).Some? { DefaultOrderIsClean(n.field); }
  }

  lemma NormalizeMatchIsIdempotent(m: string)
    ensures NormalizeMatch(NormalizeMatch(m)) == NormalizeMatch(m)
  {
    CleanIsIdempotent(m);
    AliasesAreClean();
  }

  lemma NormalizeGroupIsIdempotent(g: Group)
    ensures NormalizeGroup(NormalizeGroup(g)) == NormalizeGroup(g)
  {
    NormalizeMatchIsIdempotent(g.combine);
    forall i | 0 <= i < |g.rules| ensures NormalizeRule(NormalizeRule(g.rules[i])) == NormalizeRule(g.rules[i]) {
      NormalizeRuleIsIdempotent(g.rules[i]);
    }
  }

  lemma NormalizeIsIdempotent(q: Definition)
    ensures Normalize(Normalize(q)) == Normalize(q)
  {
    NormalizeIDsIsIdempotent(q.libraryIDs);
    NormalizeMatchIsIdempotent(q.combine);
    NormalizeSortIsIdempotent(q.sort);
    forall i | 0 <= i < |q.groups| ensures NormalizeGroup(NormalizeGroup(q.groups[i])) == NormalizeGroup(q.groups[i]) {
      NormalizeGroupIsIdempotent(q.groups[i]);
    }
  }

  // ---------------------------------------------------------------- validation

  predicate ValidRule(r: Rule, personal: bool) {
    && Operators(r.field).Some?
    && (PersonalField(r.field) ==> personal)
    && r.op in Operators(r.field).value
  }

  predicate ValidGroup(g: Group, personal: bool) {
    (g.combine == "all" || g.combine == "any") && forall j :: 0 <= j < |g.rules| ==> ValidRule(g.rules[j], personal)
  }

  /** Validate returns no error; it normalises first. */
  predicate Valid(q: Definition, personal: bool) {
    var n := Normalize(q);
    && (forall i :: 0 <= i < |n.libraryIDs| ==> n.libraryIDs[i] > 0)
    && (n.combine == "all" || n.combine == "any")
    && (forall i :: 0 <= i < |n.groups| ==> ValidGroup(n.groups[i], personal))
    && (n.sort.field != "" ==> DefaultOrder(n.sort.field).Some? && (PersonalSort(n.sort.field) ==> personal))
    && (n.sort.order == "" || n.sort.order == "asc" || n.sort.order == "desc")
    && (n.limit.Some? ==> n.limit.value > 0)
  }

  lemma RuleScope(r: Rule)
    ensures ValidRule(r, false) ==> ValidRule(r, true)
  {
  }

  lemma GroupScope(g: Group)
    ensures ValidGroup(g, false) ==> ValidGroup(g, true)
  {
    forall j | 0 <= j < |g.rules| ensures ValidRule(g.rules[j], false) ==> ValidRule(g.rules[j], true) { RuleScope(g.rules[j]); }
  }

  /** Normalising first makes no difference to validation, and a stricter scope only rejects more. */
  lemma ValidIgnoresNormalization(q: Definition, personal: bool)
    ensures Valid(Normalize(q), personal) == Valid(q, personal)
    ensures Valid(q, false) ==> Valid(q, true)
  {
    NormalizeIsIdempotent(q);
    var groups := Normalize(q).groups;
    forall i | 0 <= i < |groups| ensures ValidGroup(groups[i], false) ==> ValidGroup(groups[i], true) { GroupScope(groups[i]); }
  }
}
