/** Which candidates the rules of a smart collection match (internal/smartcoll/evaluator.go).
    Times count nanoseconds from the zero time; Go's int and time.Duration wrap at 64 bits. */
module SmartRules {
  import opened Wrappers
  import opened SmartQuery

  const INT64_MIN := -0x8000_0000_0000_0000
  const INT64_MAX := 0x7FFF_FFFF_FFFF_FFFF

  /** Two's complement wrap-around of Go's int. */
  function Wrap64(x: int): int {
    (x - INT64_MIN) % 0x1_0000_0000_0000_0000 + INT64_MIN
  }

  lemma WrapIs(x: int)
    ensures INT64_MIN <= Wrap64(x) <= INT64_MAX
    ensures INT64_MIN <= x <= INT64_MAX ==> Wrap64(x) == x
  {
  }

  datatype Candidate = Candidate(title: string, authors: seq<string>, series: string, formats: seq<string>, year: int,
                                 rating: real, language: string, createdAt: int, isFinished: bool, progressPct: real,
                                 lastReadAt: int, annotationCount: int)

  datatype Options = Options(allowPersonalized: bool, userSeed: string, now: int, abandonedAfter: int)

  /** What Evaluate takes from outside: the clock, time.Parse, and the random source, by seed, length and index. */
  datatype World = World(clock: int, rfc3339: string -> Option<int>, random: (string, nat, nat) -> int)

  const HOUR := 3_600_000_000_000
  const UNIX_EPOCH := 62_135_596_800_000_000_000

  // ---------------------------------------------------------------- values

  /** int(f): toward zero; out of range as on amd64. */
  function ToInt(x: real): int {
    var n := if x >= 0.0 then x.Floor else -((-x).Floor);
    if INT64_MIN <= n <= INT64_MAX then n else INT64_MIN
  }

  function IntValue(v: Value): int {
    if v.Int? then v.n else if v.Float? then ToInt(v.x) else 0
  }

  function FloatValue(v: Value): real {
    if v.Int? then v.n as real else if v.Float? then v.x else 0.0
  }

  function TextValue(v: Value): string {
    if v.Text? then v.text else ""
  }

  function TimeValue(v: Value, w: World): int {
    if v.Text? then (if w.rfc3339(v.text).Some? then w.rfc3339(v.text).value else 0)
    else if v.Int? || v.Float? then UNIX_EPOCH + IntValue(v) * 1_000_000
    else 0
  }

  predicate IsPair(v: Value) {
    v.List? && |v.items| == 2
  }

  function Low(v: Value): Value {
    if IsPair(v) then v.items[0] else Null
  }

  function High(v: Value): Value {
    if IsPair(v) then v.items[1] else Null
  }

  function UnitHours(unit: string): int {
    if unit in {"hour", "hours", "h"} then 1
    else if unit in {"day", "days", "d", ""} then 24
    else if unit in {"week", "weeks", "w"} then 7 * 24
    else if unit in {"month", "months"} then 30 * 24
    else if unit in {"year", "years", "y"} then 365 * 24
    else 0
  }

  /** durationFromUnit: the product wraps. */
  function DurationFromUnit(n: int, unit: string): int {
    if n <= 0 then 0 else Wrap64(n * UnitHours(unit) * HOUR)
  }

  predicate AllDigits(s: string) {
    forall i :: 0 <= i < |s| ==> '0' <= s[i] <= '9'
  }

  function Digits(s: string): int
    requires AllDigits(s)
  {
    if s == "" then 0 else Wrap64(Digits(s[..|s| - 1]) * 10 + (s[|s| - 1] as int - '0' as int))
  }

  function DurationText(text: string): int {
    var s := Trim(text);
    if s == "" || !AllDigits(s[..|s| - 1]) then 0
    else DurationFromUnit(Digits(s[..|s| - 1]), s[|s| - 1..])
  }

  function DurationValue(v: Value): int {
    if v.Span? then DurationFromUnit(IntValue(v.amount), Lower(v.unit))
    else if v.Int? || v.Float? then DurationFromUnit(IntValue(v), "days")
    else if v.Text? then DurationText(v.text)
    else 0
  }

  // ---------------------------------------------------------------- rules

  predicate FoundAt(s: string, part: string, i: nat) {
    i + |part| <= |s| && s[i..i + |part|] == part
  }

  predicate Contains(s: string, part: string) {
    exists i :: 0 <= i <= |s| && FoundAt(s, part, i)
  }

  predicate SameFold(a: string, b: string) {
    Lower(a) == Lower(b)
  }

  predicate CmpString(v: string, r: Rule) {
    var rv := TextValue(r.value);
    if r.op == "is" then SameFold(v, rv)
    else if r.op == "is_not" then !SameFold(v, rv)
    else r.op == "contains" && Contains(Lower(v), Lower(rv))
  }

  predicate CmpStringArray(all: seq<string>, r: Rule) {
    var rv := TextValue(r.value);
    if r.op == "is" then exists i :: 0 <= i < |all| && SameFold(all[i], rv)
    else if r.op == "is_not" then forall i :: 0 <= i < |all| ==> !SameFold(all[i], rv)
    else r.op == "contains" && exists i :: 0 <= i < |all| && Contains(Lower(all[i]), Lower(rv))
  }

  predicate CmpInt(v: int, r: Rule) {
    if r.op == "is" then v == IntValue(r.value)
    else if r.op == "is_not" then v != IntValue(r.value)
    else if r.op == "gt" then v > IntValue(r.value)
    else if r.op == "gte" then v >= IntValue(r.value)
    else if r.op == "lt" then v < IntValue(r.value)
    else if r.op == "lte" then v <= IntValue(r.value)
    else r.op == "between" && IntValue(Low(r.value)) <= v <= IntValue(High(r.value))
  }

  predicate CmpFloat(v: real, r: Rule) {
    if r.op == "gt" then v > FloatValue(r.value)
    else if r.op == "gte" then v >= FloatValue(r.value)
    else if r.op == "lt" then v < FloatValue(r.value)
    else if r.op == "lte" then v <= FloatValue(r.value)
    else r.op == "between" && FloatValue(Low(r.value)) <= v <= FloatValue(High(r.value))
  }

  predicate CmpBool(v: bool, r: Rule) {
    r.op == "is" && v == (r.value.Bool? && r.value.b)
  }

  predicate CmpTime(v: int, r: Rule, now: int, w: World) {
    if r.op == "in_last" then
      var d := DurationValue(r.value);
      d != 0 && v != 0 && v > now + Wrap64(-d)
    else
      v != 0 && (if r.op == "gt" then v > TimeValue(r.value, w)
                 else if r.op == "gte" then v >= TimeValue(r.value, w)
                 else if r.op == "lt" then v < TimeValue(r.value, w)
                 else if r.op == "lte" then v <= TimeValue(r.value, w)
                 else r.op == "between" && TimeValue(Low(r.value), w) <= v <= TimeValue(High(r.value), w))
  }

  /** time.Sub saturates. */
  function Since(t: int, now: int): int {
    if now - t < INT64_MIN then INT64_MIN else if now - t > INT64_MAX then INT64_MAX else now - t
  }

  predicate Abandoned(c: Candidate, o: Options) {
    !c.isFinished && c.progressPct > 0.0 && c.lastReadAt != 0 && Since(c.lastReadAt, o.now) >= o.abandonedAfter
  }

  predicate MatchRule(r: Rule, c: Candidate, o: Options, w: World) {
    if Operators(r.field).None? || (PersonalField(r.field) && !o.allowPersonalized) then false
    else if r.field == "title" then CmpString(c.title, r)
    else if r.field == "author" then CmpStringArray(c.authors, r)
    else if r.field == "series" then CmpString(c.series, r)
    else if r.field == "genre" || r.field == "tag" then CmpStringArray([], r)
    else if r.field == "format" then CmpStringArray(c.formats, r)
    else if r.field == "year" then CmpInt(c.year, r)
    else if r.field == "rating" then CmpFloat(c.rating, r)
    else if r.field == "language" then CmpString(c.language, r)
    else if r.field == "publisher" || r.field == "isbn" then CmpString("", r)
    else if r.field == "added_at" then CmpTime(c.createdAt, r, o.now, w)
    else if r.field == "finished" then CmpBool(c.isFinished, r)
    else if r.field == "in_progress" then CmpBool(!c.isFinished && c.progressPct > 0.0, r)
    else if r.field == "last_read" then CmpTime(c.lastReadAt, r, o.now, w)
    else if r.field == "abandoned" then CmpBool(Abandoned(c, o), r)
    else CmpInt(c.annotationCount, r)
  }

  predicate MatchGroup(g: Group, c: Candidate, o: Options, w: World) {
    g.rules == [] ||
    if g.combine == "any" then exists i :: 0 <= i < |g.rules| && MatchRule(g.rules[i], c, o, w)
    else forall i :: 0 <= i < |g.rules| ==> MatchRule(g.rules[i], c, o, w)
  }

  predicate MatchDefinition(q: Definition, c: Candidate, o: Options, w: World) {
    q.groups == [] ||
    if q.combine == "any" then exists i :: 0 <= i < |q.groups| && MatchGroup(q.groups[i], c, o, w)
    else forall i :: 0 <= i < |q.groups| ==> MatchGroup(q.groups[i], c, o, w)
  }

  // ---------------------------------------------------------------- what the operators mean

  predicate IsInt64(v: int) {
    INT64_MIN <= v <= INT64_MAX
  }

  predicate IsWhole(x: real) {
    x.Floor as real == x
  }

  /** A JSON number whose comparison survives the truncation toward zero. */
  predicate AboveIsRight(x: real) {
    INT64_MIN as real <= x < INT64_MAX as real + 1.0 && (IsWhole(x) || x > 0.0)
  }

  predicate BelowIsRight(x: real) {
    x < 0.0 || (IsWhole(x) && x < INT64_MAX as real + 1.0)
  }

  predicate EqualIsRight(x: real) {
    INT64_MIN as real <= x < INT64_MAX as real + 1.0 && IsWhole(x)
  }

  lemma TruncatesTo(x: real)
    ensures IsWhole(x) && INT64_MIN as real <= x < INT64_MAX as real + 1.0 ==> ToInt(x) as real == x
    ensures 0.0 < x < INT64_MAX as real + 1.0 ==> ToInt(x) == x.Floor && 0 <= ToInt(x)
    ensures INT64_MIN as real <= x < 0.0 && !IsWhole(x) ==> ToInt(x) == x.Floor + 1 && x < ToInt(x) as real <= 0.0
    ensures x < INT64_MIN as real ==> ToInt(x) == INT64_MIN
    ensures x >= INT64_MAX as real + 1.0 ==> ToInt(x) == INT64_MIN
  {
    var up := (-x).Floor;
    assert up as real <= -x < up as real + 1.0;
    assert x.Floor as real <= x < x.Floor as real + 1.0;
  }

  /** On an integer field, gt (and so lte) compares as on the numbers themselves, for every integer,
      exactly when the JSON number is in range and whole or positive... */
  lemma AboveIsRightIff(field: string, x: real)
    ensures (forall v: int :: IsInt64(v) ==> (CmpInt(v, Rule(field, "gt", Float(x))) <==> v as real > x)) <==> AboveIsRight(x)
    ensures (forall v: int :: IsInt64(v) ==> (CmpInt(v, Rule(field, "lte", Float(x))) <==> v as real <= x)) <==> AboveIsRight(x)
  {
    TruncatesTo(x);
    if !AboveIsRight(x) {
      var v := if x >= INT64_MAX as real + 1.0 then 0 else ToInt(x);
      assert IsInt64(v) && CmpInt(v, Rule(field, "gt", Float(x))) != (v as real > x);
      assert IsInt64(v) && CmpInt(v, Rule(field, "lte", Float(x))) != (v as real <= x);
    }
  }

  /** ...lt (and so gte) exactly when it is negative or whole and not too large... */
  lemma BelowIsRightIff(field: string, x: real)
    ensures (forall v: int :: IsInt64(v) ==> (CmpInt(v, Rule(field, "lt", Float(x))) <==> v as real < x)) <==> BelowIsRight(x)
    ensures (forall v: int :: IsInt64(v) ==> (CmpInt(v, Rule(field, "gte", Float(x))) <==> v as real >= x)) <==> BelowIsRight(x)
  {
    TruncatesTo(x);
    if !BelowIsRight(x) {
      var v := ToInt(x);
      assert IsInt64(v) && CmpInt(v, Rule(field, "lt", Float(x))) != (v as real < x);
      assert IsInt64(v) && CmpInt(v, Rule(field, "gte", Float(x))) != (v as real >= x);
    }
  }

  /** ...and is (and so is_not) exactly when it is whole and in range: "year is 1999.5" finds 1999. */
  lemma EqualIsRightIff(field: string, x: real)
    ensures (forall v: int :: IsInt64(v) ==> (CmpInt(v, Rule(field, "is", Float(x))) <==> v as real == x)) <==> EqualIsRight(x)
    ensures (forall v: int :: IsInt64(v) ==> (CmpInt(v, Rule(field, "is_not", Float(x))) <==> v as real != x)) <==> EqualIsRight(x)
  {
    TruncatesTo(x);
    if !EqualIsRight(x) {
      var v := ToInt(x);
      assert IsInt64(v) && CmpInt(v, Rule(field, "is", Float(x))) != (v as real == x);
      assert IsInt64(v) && CmpInt(v, Rule(field, "is_not", Float(x))) != (v as real != x);
    }
  }

  lemma ContainsMeans(s: string, part: string)
    ensures Contains(s, part) <==> exists a, b :: s == a + part + b
  {
    if i :| 0 <= i <= |s| && FoundAt(s, part, i) {
      assert s == s[..i] + part + s[i + |part|..];
    }
    if a, b :| s == a + part + b {
      assert s[|a|..|a| + |part|] == part;
      assert FoundAt(s, part, |a|);
    }
  }

  /** Text operators: case makes no difference, is_not is the opposite of is, and is implies contains. */
  lemma TextOperatorsAre(v: string, field: string, x: string)
    ensures CmpString(v, Rule(field, "is", Text(x))) <==> Lower(v) == Lower(x)
    ensures CmpString(v, Rule(field, "is_not", Text(x))) <==> !CmpString(v, Rule(field, "is", Text(x)))
    ensures CmpString(v, Rule(field, "is", Text(x))) ==> CmpString(v, Rule(field, "contains", Text(x)))
    ensures CmpString(v, Rule(field, "contains", Text(x))) <==> exists a, b :: Lower(v) == a + Lower(x) + b
    ensures forall op :: CmpString(Lower(v), Rule(field, op, Text(Lower(x)))) == CmpString(v, Rule(field, op, Text(x)))
  {
    ContainsMeans(Lower(v), Lower(x));
    assert Lower(Lower(v)) == Lower(v) && Lower(Lower(x)) == Lower(x);
    if Lower(v) == Lower(x) { assert Lower(v) == [] + Lower(x) + []; }
  }

  function AllLower(all: seq<string>): (r: seq<string>)
    ensures |r| == |all| && forall i :: 0 <= i < |all| ==> r[i] == Lower(all[i])
  {
    seq(|all|, i requires 0 <= i < |all| => Lower(all[i]))
  }

  /** The same for the fields with many values: they are what one of them is. */
  lemma ArrayOperatorsAre(all: seq<string>, field: string, x: string)
    ensures CmpStringArray(all, Rule(field, "is_not", Text(x))) <==> !CmpStringArray(all, Rule(field, "is", Text(x)))
    ensures CmpStringArray(all, Rule(field, "is", Text(x))) ==> CmpStringArray(all, Rule(field, "contains", Text(x)))
    ensures forall op :: CmpStringArray(AllLower(all), Rule(field, op, Text(Lower(x)))) == CmpStringArray(all, Rule(field, op, Text(x)))
  {
    forall i | 0 <= i < |all|
      ensures SameFold(all[i], x) ==> Contains(Lower(all[i]), Lower(x))
      ensures SameFold(AllLower(all)[i], Lower(x)) == SameFold(all[i], x)
      ensures Contains(Lower(AllLower(all)[i]), Lower(Lower(x))) == Contains(Lower(all[i]), Lower(x))
    {
      TextOperatorsAre(all[i], field, x);
      assert Lower(Lower(all[i])) == Lower(all[i]) && Lower(Lower(x)) == Lower(x);
    }
  }

  /** Two candidates agree on what a rule of the field looks at. */
  predicate AgreeOn(field: string, c: Candidate, d: Candidate) {
    && (field == "title" ==> c.title == d.title) && (field == "author" ==> c.authors == d.authors)
    && (field == "series" ==> c.series == d.series) && (field == "format" ==> c.formats == d.formats)
    && (field == "year" ==> c.year == d.year) && (field == "rating" ==> c.rating == d.rating)
    && (field == "language" ==> c.language == d.language) && (field == "added_at" ==> c.createdAt == d.createdAt)
    && (field == "finished" ==> c.isFinished == d.isFinished) && (field == "last_read" ==> c.lastReadAt == d.lastReadAt)
    && (field == "in_progress" ==> c.isFinished == d.isFinished && c.progressPct == d.progressPct)
    && (field == "abandoned" ==> c.isFinished == d.isFinished && c.progressPct == d.progressPct && c.lastReadAt == d.lastReadAt)
    && (field == "annotation_count" ==> c.annotationCount == d.annotationCount)
  }

  /** A rule looks at the attribute of its field and at nothing else of the candidate. */
  lemma RuleLooksAtItsField(r: Rule, c: Candidate, d: Candidate, o: Options, w: World)
    requires AgreeOn(r.field, c, d)
    ensures MatchRule(r, c, o, w) == MatchRule(r, d, o, w)
  {
  }

  predicate Complementary(op: string, opposite: string) {
    (op == "is" && opposite == "is_not") || (op == "gt" && opposite == "lte") || (op == "lt" && opposite == "gte")
  }

  /** Two valid rules with opposite operators and one value part the candidates: each matches exactly one
      of them, unless it is about the last reading of a book that was never read. */
  lemma OppositesPartIff(field: string, op: string, opposite: string, x: Value, c: Candidate, o: Options, w: World)
    requires Complementary(op, opposite) && ValidRule(Rule(field, op, x), o.allowPersonalized)
    requires ValidRule(Rule(field, opposite, x), o.allowPersonalized)
    ensures MatchRule(Rule(field, op, x), c, o, w) != MatchRule(Rule(field, opposite, x), c, o, w) <==>
            !(field == "last_read" && c.lastReadAt == 0)
  {
  }

  /** One more rule narrows a group of kind all, and widens a non-empty group of kind any. */
  lemma OneMoreRule(g: Group, r: Rule, c: Candidate, o: Options, w: World)
    ensures MatchGroup(g.(rules := []), c, o, w)
    ensures g.combine != "any" ==>
      (MatchGroup(g.(rules := g.rules + [r]), c, o, w) <==> MatchGroup(g, c, o, w) && MatchRule(r, c, o, w))
    ensures g.combine == "any" ==>
      (MatchGroup(g.(rules := g.rules + [r]), c, o, w) <==> (g.rules != [] && MatchGroup(g, c, o, w)) || MatchRule(r, c, o, w))
  {
    var more, n := g.rules + [r], |g.rules|;
    assert more[n] == r && forall i :: 0 <= i < n ==> more[i] == g.rules[i];
    if g.combine == "any" {
      if MatchRule(r, c, o, w) { assert MatchRule(more[n], c, o, w); }
      if i :| 0 <= i < n && MatchRule(g.rules[i], c, o, w) { assert MatchRule(more[i], c, o, w); }
    } else if forall i :: 0 <= i < n + 1 ==> MatchRule(more[i], c, o, w) {
      assert MatchRule(more[n], c, o, w);
      forall i | 0 <= i < n ensures MatchRule(g.rules[i], c, o, w) { assert MatchRule(more[i], c, o, w); }
    }
  }

  lemma OneMoreGroup(q: Definition, g: Group, c: Candidate, o: Options, w: World)
    ensures MatchDefinition(q.(groups := []), c, o, w)
    ensures q.combine != "any" ==>
      (MatchDefinition(q.(groups := q.groups + [g]), c, o, w) <==> MatchDefinition(q, c, o, w) && MatchGroup(g, c, o, w))
    ensures q.combine == "any" ==>
      (MatchDefinition(q.(groups := q.groups + [g]), c, o, w) <==> (q.groups != [] && MatchDefinition(q, c, o, w)) || MatchGroup(g, c, o, w))
  {
    var more, n := q.groups + [g], |q.groups|;
    assert more[n] == g && forall i :: 0 <= i < n ==> more[i] == q.groups[i];
    if q.combine == "any" {
      if MatchGroup(g, c, o, w) { assert MatchGroup(more[n], c, o, w); }
      if i :| 0 <= i < n && MatchGroup(q.groups[i], c, o, w) { assert MatchGroup(more[i], c, o, w); }
    } else if forall i :: 0 <= i < n + 1 ==> MatchGroup(more[i], c, o, w) {
      assert MatchGroup(more[n], c, o, w);
      forall i | 0 <= i < n ensures MatchGroup(q.groups[i], c, o, w) { assert MatchGroup(more[i], c, o, w); }
    }
  }

  // ---------------------------------------------------------------- in_last

  function InLast(field: string, amount: Value, unit: string): Rule {
    Rule(field, "in_last", Span(amount, unit))
  }

  /** The window that "in the last n units" means, in nanoseconds. */
  function Window(amount: Value, unit: string): int {
    IntValue(amount) * UnitHours(Lower(unit)) * HOUR
  }

  predicate WithinLast(v: int, amount: Value, unit: string, now: int) {
    v != 0 && v > now - Window(amount, unit)
  }

  predicate IsWindow(amount: Value, unit: string) {
    IntValue(amount) > 0 && UnitHours(Lower(unit)) > 0
  }

  /** in_last means what it says, for every time, exactly when its window fits in a time.Duration. */
  lemma InLastIsRightIff(field: string, amount: Value, unit: string, now: int, w: World)
    requires IsWindow(amount, unit)
    ensures (forall v :: CmpTime(v, InLast(field, amount, unit), now, w) == WithinLast(v, amount, unit, now)) <==>
            Window(amount, unit) <= INT64_MAX
  {
    WholeHours(IntValue(amount), UnitHours(Lower(unit)));
    if Window(amount, unit) <= INT64_MAX {
      WrapIs(Window(amount, unit));
      WrapIs(-Window(amount, unit));
    } else {
      LongWindowMisses(field, amount, unit, now, w);
    }
  }

  /** An amount that is not positive or an unknown unit matches nothing. */
  lemma NoWindowMatchesNothing(v: int, field: string, amount: Value, unit: string, now: int, w: World)
    requires !IsWindow(amount, unit)
    ensures !CmpTime(v, InLast(field, amount, unit), now, w)
  {
    if IntValue(amount) > 0 { assert IntValue(amount) * UnitHours(Lower(unit)) * HOUR == 0; }
  }

  lemma WholeHours(n: int, hours: int)
    requires n > 0 && hours > 0
    ensures n * hours * HOUR > 0 && n * hours * HOUR % HOUR == 0
  {
    var h := n * hours;
    assert h * HOUR % HOUR == 0;
  }

  /** The window has been overrun: some time within it is not matched. */
  lemma LongWindowMisses(field: string, amount: Value, unit: string, now: int, w: World)
    requires IsWindow(amount, unit) && Window(amount, unit) > INT64_MAX && Window(amount, unit) % HOUR == 0
    ensures exists v :: !CmpTime(v, InLast(field, amount, unit), now, w) && WithinLast(v, amount, unit, now)
  {
    var window := Window(amount, unit);
    var d := DurationValue(Span(amount, unit));
    assert d == Wrap64(window);
    WrapIs(window);
    WrapIs(-d);
    assert window != INT64_MAX + 1;
    var cutoff := now + Wrap64(-d);
    assert cutoff > now - window + 1;
    var v := if cutoff != 0 then cutoff else cutoff - 1;
    assert !CmpTime(v, InLast(field, amount, unit), now, w) && WithinLast(v, amount, unit, now);
  }

  /** Three hundred years are too long: the window wraps, and not even now is recent enough. */
  lemma ThreeCenturiesMatchNothing(v: int, now: int, w: World)
    requires 0 < v <= now && v > now - 300 * 365 * 24 * HOUR
    ensures WithinLast(v, Float(300.0), "years", now) && !CmpTime(v, InLast("added_at", Float(300.0), "years"), now, w)
  {
    assert Lower("years") == "years";
    assert IntValue(Float(300.0)) == 300;
    assert Window(Float(300.0), "years") == 300 * 365 * 24 * HOUR;
  }

  // ---------------------------------------------------------------- personalised rules

  lemma RuleIsMonotone(r: Rule, c: Candidate, o: Options, w: World)
    ensures MatchRule(r, c, o.(allowPersonalized := false), w) ==> MatchRule(r, c, o.(allowPersonalized := true), w)
  {
  }

  lemma GroupIsMonotone(g: Group, c: Candidate, o: Options, w: World)
    ensures MatchGroup(g, c, o.(allowPersonalized := false), w) ==> MatchGroup(g, c, o.(allowPersonalized := true), w)
  {
    forall i | 0 <= i < |g.rules|
      ensures MatchRule(g.rules[i], c, o.(allowPersonalized := false), w) ==> MatchRule(g.rules[i], c, o.(allowPersonalized := true), w)
    {
      RuleIsMonotone(g.rules[i], c, o, w);
    }
  }

  /** Whoever may not use personalised rules sees no candidate the owner would not. */
  lemma PersonalOffShrinks(q: Definition, c: Candidate, o: Options, w: World)
    ensures MatchDefinition(q, c, o.(allowPersonalized := false), w) ==> MatchDefinition(q, c, o.(allowPersonalized := true), w)
  {
    forall i | 0 <= i < |q.groups|
      ensures MatchGroup(q.groups[i], c, o.(allowPersonalized := false), w) ==> MatchGroup(q.groups[i], c, o.(allowPersonalized := true), w)
    {
      GroupIsMonotone(q.groups[i], c, o, w);
    }
  }

  lemma PublicRuleIsTheSame(r: Rule, c: Candidate, o: Options, w: World)
    requires ValidRule(r, false)
    ensures MatchRule(r, c, o.(allowPersonalized := false), w) == MatchRule(r, c, o.(allowPersonalized := true), w)
  {
  }

  lemma PublicGroupIsTheSame(g: Group, c: Candidate, o: Options, w: World)
    requires forall j :: 0 <= j < |g.rules| ==> ValidRule(g.rules[j], false)
    ensures MatchGroup(g, c, o.(allowPersonalized := false), w) == MatchGroup(g, c, o.(allowPersonalized := true), w)
  {
    var off, on := o.(allowPersonalized := false), o.(allowPersonalized := true);
    forall j | 0 <= j < |g.rules| ensures MatchRule(g.rules[j], c, off, w) == MatchRule(g.rules[j], c, on, w) {
      PublicRuleIsTheSame(g.rules[j], c, o, w);
    }
  }

  lemma ValidRules(q: Definition, personal: bool, i: nat, j: nat)
    requires Valid(q, personal) && i < |Normalize(q).groups| && j < |Normalize(q).groups[i].rules|
    ensures ValidRule(Normalize(q).groups[i].rules[j], personal)
  {
  }

  /** A definition that validates without user scope selects the same for everybody. */
  lemma PublicDefinitionIsTheSameForAll(q: Definition, c: Candidate, o: Options, w: World)
    requires Valid(q, false)
    ensures MatchDefinition(Normalize(q), c, o.(allowPersonalized := false), w) ==
            MatchDefinition(Normalize(q), c, o.(allowPersonalized := true), w)
  {
    var groups := Normalize(q).groups;
    forall i | 0 <= i < |groups|
      ensures MatchGroup(groups[i], c, o.(allowPersonalized := false), w) == MatchGroup(groups[i], c, o.(allowPersonalized := true), w)
    {
      forall j | 0 <= j < |groups[i].rules| ensures ValidRule(groups[i].rules[j], false) { ValidRules(q, false, i, j); }
      PublicGroupIsTheSame(groups[i], c, o, w);
    }
  }
}
