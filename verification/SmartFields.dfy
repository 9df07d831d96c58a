/** What each field and operator of a smart collection selects, told by the books' own attributes: the
    result of a collection of one rule holds exactly the offered books with the wanted attribute, each as
    often as it was offered (internal/smartcoll/evaluator.go, internal/smartcoll/query.go). */
module SmartFields {
  import opened Wrappers
  import opened SmartQuery
  import opened SmartRules
  import opened SmartEval

  // ---------------------------------------------------------------- collections of one rule

  predicate IsWord(s: string) {
    s != "" && forall i :: 0 <= i < |s| ==> 'a' <= s[i] <= 'z' || s[i] == '_'
  }

  lemma WordIsLower(s: string)
    requires IsWord(s)
    ensures Lower(s) == s
  {
    assert forall i :: 0 <= i < |s| ==> LowerChar(s[i]) == s[i];
  }

  lemma WordIsClean(s: string)
    requires IsWord(s)
    ensures Clean(s) == s
  {
    assert !IsSpace(s[0]) && !IsSpace(s[|s| - 1]);
    assert Trim(s) == s;
    WordIsLower(s);
  }

  /** The collection of the one rule holds c as often as it was offered if c is wanted, else not at all. */
  ghost predicate Has(field: string, op: string, value: Value, cs: seq<Candidate>, o: Options, w: World, c: Candidate, wanted: bool) {
    multiset(Evaluated(OneRule(Rule(field, op, value)), cs, o, w))[c] == if wanted then multiset(cs)[c] else 0
  }

  lemma NoLimit<T>(xs: seq<T>)
    ensures Limited(xs, None) == xs
  {
  }

  lemma OneRuleEvaluates(r: Rule, cs: seq<Candidate>, o: Options, w: World, c: Candidate)
    requires NormalizeRule(r) == r
    ensures multiset(Evaluated(OneRule(r), cs, o, w))[c] == if MatchRule(r, c, WithDefaults(o, w), w) then multiset(cs)[c] else 0
  {
    var q := OneRule(r);
    var selected := Selected(q, cs, o, w);
    ArrangedIsPermutation(selected, NormalizeSort(q.sort), o, w);
    NoLimit(Arranged(selected, NormalizeSort(q.sort), o, w));
    SelectsExactlyTheMatching(q, cs, o, w, c);
    OneRuleMatches(r, c, WithDefaults(o, w), w);
  }

  predicate IsOperator(op: string) {
    op in {"is", "is_not", "contains", "gt", "gte", "lt", "lte", "between", "in_last"}
  }

  lemma OperatorIsWord(op: string)
    requires IsOperator(op)
    ensures IsWord(op)
  {
  }

  predicate IsBookField(field: string) {
    field in {"title", "author", "series", "genre", "tag", "format", "year", "rating", "language", "publisher", "isbn"}
  }

  predicate IsReadingField(field: string) {
    field in {"added_at", "finished", "in_progress", "last_read", "abandoned", "annotation_count"}
  }

  predicate IsField(field: string) {
    IsBookField(field) || IsReadingField(field)
  }

  lemma BookFieldIsWord(field: string)
    requires IsBookField(field)
    ensures IsWord(field)
  {
  }

  lemma ReadingFieldIsWord(field: string)
    requires IsReadingField(field)
    ensures IsWord(field)
  {
  }

  lemma FieldIsWord(field: string)
    requires IsField(field)
    ensures IsWord(field) && FieldAlias(field) == field
  {
    if IsBookField(field) { BookFieldIsWord(field); } else { ReadingFieldIsWord(field); }
  }

  lemma RuleIsNormal(r: Rule)
    requires IsField(r.field) && IsOperator(r.op)
    ensures NormalizeRule(r) == r
  {
    FieldIsWord(r.field);
    OperatorIsWord(r.op);
    WordIsClean(r.field);
    WordIsClean(r.op);
  }

  lemma Decides(field: string, op: string, value: Value, cs: seq<Candidate>, o: Options, w: World, c: Candidate, wanted: bool)
    requires IsField(field) && IsOperator(op)
    requires MatchRule(Rule(field, op, value), c, WithDefaults(o, w), w) == wanted
    ensures Has(field, op, value, cs, o, w, c, wanted)
  {
    RuleIsNormal(Rule(field, op, value));
    OneRuleEvaluates(Rule(field, op, value), cs, o, w, c);
  }

  // ---------------------------------------------------------------- numbers

  /** Books rated above, from, below or up to a number... */
  lemma RatingCollections(op: string, x: real, cs: seq<Candidate>, o: Options, w: World, c: Candidate)
    ensures op == "gt" ==> Has("rating", op, Float(x), cs, o, w, c, c.rating > x)
    ensures op == "gte" ==> Has("rating", op, Float(x), cs, o, w, c, c.rating >= x)
    ensures op == "lt" ==> Has("rating", op, Float(x), cs, o, w, c, c.rating < x)
    ensures op == "lte" ==> Has("rating", op, Float(x), cs, o, w, c, c.rating <= x)
  {
    if op in {"gt", "gte", "lt", "lte"} {
      Decides("rating", op, Float(x), cs, o, w, c,
              if op == "gt" then c.rating > x else if op == "gte" then c.rating >= x else if op == "lt" then c.rating < x else c.rating <= x);
    }
  }

  /** ...or between two. */
  lemma RatingRangeCollection(x: real, y: real, cs: seq<Candidate>, o: Options, w: World, c: Candidate)
    ensures Has("rating", "between", List([Float(x), Float(y)]), cs, o, w, c, x <= c.rating <= y)
  {
    Decides("rating", "between", List([Float(x), Float(y)]), cs, o, w, c, x <= c.rating <= y);
  }

  lemma WholeNumber(n: int)
    requires IsInt64(n)
    ensures IntValue(Float(n as real)) == n
  {
    TruncatesTo(n as real);
  }

  lemma NumberRule(v: int, field: string, op: string, n: int)
    requires IsInt64(n)
    ensures CmpInt(v, Rule(field, op, Float(n as real))) <==>
      || (op == "is" && v == n) || (op == "is_not" && v != n) || (op == "gt" && v > n) || (op == "gte" && v >= n)
      || (op == "lt" && v < n) || (op == "lte" && v <= n) || (op == "between" && v == 0)
  {
    WholeNumber(n);
  }

  lemma NumberRangeRule(v: int, field: string, n: int, m: int)
    requires IsInt64(n) && IsInt64(m)
    ensures CmpInt(v, Rule(field, "between", List([Float(n as real), Float(m as real)]))) <==> n <= v <= m
  {
    WholeNumber(n);
    WholeNumber(m);
  }

  lemma YearCollections(op: string, n: int, cs: seq<Candidate>, o: Options, w: World, c: Candidate)
    requires IsInt64(n)
    ensures op == "is" ==> Has("year", op, Float(n as real), cs, o, w, c, c.year == n)
    ensures op == "is_not" ==> Has("year", op, Float(n as real), cs, o, w, c, c.year != n)
    ensures op == "gt" ==> Has("year", op, Float(n as real), cs, o, w, c, c.year > n)
    ensures op == "gte" ==> Has("year", op, Float(n as real), cs, o, w, c, c.year >= n)
    ensures op == "lt" ==> Has("year", op, Float(n as real), cs, o, w, c, c.year < n)
    ensures op == "lte" ==> Has("year", op, Float(n as real), cs, o, w, c, c.year <= n)
  {
    NumberRule(c.year, "year", op, n);
    if IsOperator(op) {
      Decides("year", op, Float(n as real), cs, o, w, c, CmpInt(c.year, Rule("year", op, Float(n as real))));
    }
  }

  lemma YearRangeCollection(n: int, m: int, cs: seq<Candidate>, o: Options, w: World, c: Candidate)
    requires IsInt64(n) && IsInt64(m)
    ensures Has("year", "between", List([Float(n as real), Float(m as real)]), cs, o, w, c, n <= c.year <= m)
  {
    NumberRangeRule(c.year, "year", n, m);
    Decides("year", "between", List([Float(n as real), Float(m as real)]), cs, o, w, c, n <= c.year <= m);
  }

  /** The reader's own annotations count only where personalised rules are allowed. */
  lemma AnnotationCollections(op: string, n: int, cs: seq<Candidate>, o: Options, w: World, c: Candidate)
    requires IsInt64(n)
    ensures op == "gt" ==> Has("annotation_count", op, Float(n as real), cs, o, w, c, o.allowPersonalized && c.annotationCount > n)
    ensures op == "gte" ==> Has("annotation_count", op, Float(n as real), cs, o, w, c, o.allowPersonalized && c.annotationCount >= n)
    ensures op == "lt" ==> Has("annotation_count", op, Float(n as real), cs, o, w, c, o.allowPersonalized && c.annotationCount < n)
    ensures op == "lte" ==> Has("annotation_count", op, Float(n as real), cs, o, w, c, o.allowPersonalized && c.annotationCount <= n)
  {
    NumberRule(c.annotationCount, "annotation_count", op, n);
    if IsOperator(op) {
      Decides("annotation_count", op, Float(n as real), cs, o, w, c,
              o.allowPersonalized && CmpInt(c.annotationCount, Rule("annotation_count", op, Float(n as real))));
    }
  }

  lemma AnnotationRangeCollection(n: int, m: int, cs: seq<Candidate>, o: Options, w: World, c: Candidate)
    requires IsInt64(n) && IsInt64(m)
    ensures Has("annotation_count", "between", List([Float(n as real), Float(m as real)]), cs, o, w, c,
                o.allowPersonalized && n <= c.annotationCount <= m)
  {
    NumberRangeRule(c.annotationCount, "annotation_count", n, m);
    Decides("annotation_count", "between", List([Float(n as real), Float(m as real)]), cs, o, w, c,
            o.allowPersonalized && n <= c.annotationCount <= m);
  }

  // ---------------------------------------------------------------- times

  /** The value stands for the time v: an RFC 3339 text, or a whole number of milliseconds since 1970; a text
      that is none and a value of another kind stand for the zero time. */
  ghost predicate Means(value: Value, w: World, v: int) {
    || (value.Text? && w.rfc3339(value.text) == Some(v))
    || (exists ms :: IsInt64(ms) && value == Float(ms as real) && v == 62_135_596_800_000_000_000 + ms * 1_000_000)
    || (v == 0 && ((value.Text? && w.rfc3339(value.text) == None) || value.Null? || value.Bool? || value.Span?))
  }

  lemma MeansIs(value: Value, w: World, v: int)
    requires Means(value, w, v)
    ensures TimeValue(value, w) == v && !value.List?
  {
    if ms :| IsInt64(ms) && value == Float(ms as real) && v == 62_135_596_800_000_000_000 + ms * 1_000_000 {
      WholeNumber(ms);
    }
  }

  lemma TimeRule(at: int, field: string, op: string, value: Value, v: int, now: int, w: World)
    requires Means(value, w, v) && op != "in_last" && op != "between"
    ensures CmpTime(at, Rule(field, op, value), now, w) <==>
      at != 0 && ((op == "gt" && at > v) || (op == "gte" && at >= v) || (op == "lt" && at < v) || (op == "lte" && at <= v))
  {
    MeansIs(value, w, v);
  }

  lemma TimeRangeRule(at: int, field: string, from: Value, to: Value, v: int, u: int, now: int, w: World)
    requires Means(from, w, v) && Means(to, w, u)
    ensures CmpTime(at, Rule(field, "between", List([from, to])), now, w) <==> at != 0 && v <= at <= u
  {
    MeansIs(from, w, v);
    MeansIs(to, w, u);
  }

  /** Books added after, before or between times; a book whose time of adding is unknown is in none. */
  lemma AddedCollections(op: string, value: Value, v: int, cs: seq<Candidate>, o: Options, w: World, c: Candidate)
    requires Means(value, w, v)
    ensures op == "gt" ==> Has("added_at", op, value, cs, o, w, c, c.createdAt != 0 && c.createdAt > v)
    ensures op == "lt" ==> Has("added_at", op, value, cs, o, w, c, c.createdAt != 0 && c.createdAt < v)
  {
    if op in {"gt", "lt"} {
      TimeRule(c.createdAt, "added_at", op, value, v, Now(o, w), w);
      Decides("added_at", op, value, cs, o, w, c, c.createdAt != 0 && if op == "gt" then c.createdAt > v else c.createdAt < v);
    }
  }

  lemma AddedRangeCollection(from: Value, to: Value, v: int, u: int, cs: seq<Candidate>, o: Options, w: World, c: Candidate)
    requires Means(from, w, v) && Means(to, w, u)
    ensures Has("added_at", "between", List([from, to]), cs, o, w, c, c.createdAt != 0 && v <= c.createdAt <= u)
  {
    TimeRangeRule(c.createdAt, "added_at", from, to, v, u, Now(o, w), w);
    Decides("added_at", "between", List([from, to]), cs, o, w, c, c.createdAt != 0 && v <= c.createdAt <= u);
  }

  lemma LastReadCollections(op: string, value: Value, v: int, cs: seq<Candidate>, o: Options, w: World, c: Candidate)
    requires Means(value, w, v)
    ensures op == "gt" ==> Has("last_read", op, value, cs, o, w, c, o.allowPersonalized && c.lastReadAt != 0 && c.lastReadAt > v)
    ensures op == "gte" ==> Has("last_read", op, value, cs, o, w, c, o.allowPersonalized && c.lastReadAt != 0 && c.lastReadAt >= v)
    ensures op == "lt" ==> Has("last_read", op, value, cs, o, w, c, o.allowPersonalized && c.lastReadAt != 0 && c.lastReadAt < v)
    ensures op == "lte" ==> Has("last_read", op, value, cs, o, w, c, o.allowPersonalized && c.lastReadAt != 0 && c.lastReadAt <= v)
  {
    if op in {"gt", "gte", "lt", "lte"} {
      TimeRule(c.lastReadAt, "last_read", op, value, v, Now(o, w), w);
      Decides("last_read", op, value, cs, o, w, c, o.allowPersonalized && CmpTime(c.lastReadAt, Rule("last_read", op, value), Now(o, w), w));
    }
  }

  lemma LastReadRangeCollection(from: Value, to: Value, v: int, u: int, cs: seq<Candidate>, o: Options, w: World, c: Candidate)
    requires Means(from, w, v) && Means(to, w, u)
    ensures Has("last_read", "between", List([from, to]), cs, o, w, c, o.allowPersonalized && c.lastReadAt != 0 && v <= c.lastReadAt <= u)
  {
    TimeRangeRule(c.lastReadAt, "last_read", from, to, v, u, Now(o, w), w);
    Decides("last_read", "between", List([from, to]), cs, o, w, c, o.allowPersonalized && c.lastReadAt != 0 && v <= c.lastReadAt <= u);
  }

  function Now(o: Options, w: World): int {
    if o.now == 0 then w.clock else o.now
  }

  /** Hours in a unit, by the name it is usually given. */
  predicate HoursIn(unit: string, hours: int) {
    || (unit in {"hour", "hours", "h"} && hours == 1) || (unit in {"day", "days", "d", ""} && hours == 24)
    || (unit in {"week", "weeks", "w"} && hours == 168) || (unit in {"month", "months"} && hours == 720)
    || (unit in {"year", "years", "y"} && hours == 8760)
  }

  lemma UnitIsWord(unit: string, hours: int)
    requires HoursIn(unit, hours) && unit != ""
    ensures IsWord(unit)
  {
  }

  lemma UnitHoursAre(unit: string, hours: int)
    requires HoursIn(unit, hours)
    ensures UnitHours(unit) == hours
  {
  }

  lemma UnitIs(unit: string, hours: int)
    requires HoursIn(unit, hours)
    ensures UnitHours(Lower(unit)) == hours
  {
    UnitHoursAre(unit, hours);
    if unit != "" {
      UnitIsWord(unit, hours);
      WordIsLower(unit);
    } else {
      assert Lower(unit) == unit;
    }
  }

  lemma RecentlyIs(v: int, n: int, unit: string, hours: int, now: int, w: World, field: string)
    requires n > 0 && HoursIn(unit, hours) && n * hours * 3_600_000_000_000 <= INT64_MAX && IsInt64(n)
    ensures CmpTime(v, Rule(field, "in_last", Span(Float(n as real), unit)), now, w) <==> v != 0 && v > now - n * hours * 3_600_000_000_000
  {
    WholeNumber(n);
    UnitIs(unit, hours);
    var amount := Float(n as real);
    assert Window(amount, unit) == n * hours * 3_600_000_000_000;
    InLastIsRightIff(field, amount, unit, now, w);
    assert CmpTime(v, InLast(field, amount, unit), now, w) == WithinLast(v, amount, unit, now);
  }

  /** "In the last n units": exactly the books whose time is known and that recent, for every window that
      fits in 64 bits of nanoseconds. */
  lemma RecentlyAddedCollection(n: int, unit: string, hours: int, cs: seq<Candidate>, o: Options, w: World, c: Candidate)
    requires n > 0 && HoursIn(unit, hours) && n * hours * 3_600_000_000_000 <= INT64_MAX && IsInt64(n)
    ensures Has("added_at", "in_last", Span(Float(n as real), unit), cs, o, w, c,
                c.createdAt != 0 && c.createdAt > Now(o, w) - n * hours * 3_600_000_000_000)
  {
    RecentlyIs(c.createdAt, n, unit, hours, Now(o, w), w, "added_at");
    Decides("added_at", "in_last", Span(Float(n as real), unit), cs, o, w, c,
            c.createdAt != 0 && c.createdAt > Now(o, w) - n * hours * 3_600_000_000_000);
  }

  lemma RecentlyReadCollection(n: int, unit: string, hours: int, cs: seq<Candidate>, o: Options, w: World, c: Candidate)
    requires n > 0 && HoursIn(unit, hours) && n * hours * 3_600_000_000_000 <= INT64_MAX && IsInt64(n)
    ensures Has("last_read", "in_last", Span(Float(n as real), unit), cs, o, w, c,
                o.allowPersonalized && c.lastReadAt != 0 && c.lastReadAt > Now(o, w) - n * hours * 3_600_000_000_000)
  {
    RecentlyIs(c.lastReadAt, n, unit, hours, Now(o, w), w, "last_read");
    Decides("last_read", "in_last", Span(Float(n as real), unit), cs, o, w, c,
            o.allowPersonalized && c.lastReadAt != 0 && c.lastReadAt > Now(o, w) - n * hours * 3_600_000_000_000);
  }

  /** A number in decimal. */
  function Decimal(n: nat): string {
    if n < 10 then [(n + '0' as int) as char] else Decimal(n / 10) + [(n % 10 + '0' as int) as char]
  }

  lemma {:induction false} DigitsOf(n: nat)
    requires n <= INT64_MAX
    ensures Decimal(n) != "" && AllDigits(Decimal(n)) && Digits(Decimal(n)) == n
  {
    var s := Decimal(n);
    if n < 10 {
      assert s[..0] == "" && Digits("") == 0;
      WrapIs(n);
    } else {
      DigitsOf(n / 10);
      assert s[..|s| - 1] == Decimal(n / 10);
      WrapIs(n);
    }
  }

  /** The letters a window may end in when it is written as a text. */
  predicate LetterHours(unit: char, hours: int) {
    (unit == 'h' && hours == 1) || (unit == 'd' && hours == 24) || (unit == 'w' && hours == 168) || (unit == 'y' && hours == 8760)
  }

  lemma TextIsTrimmed(s: string)
    requires s != "" && !IsSpace(s[0]) && !IsSpace(s[|s| - 1])
    ensures Trim(s) == s
  {
  }

  lemma LetterIsUnit(unit: char, hours: int)
    requires LetterHours(unit, hours)
    ensures UnitHours([unit]) == hours && !IsSpace(unit)
  {
    assert [unit] == "h" || [unit] == "d" || [unit] == "w" || [unit] == "y";
    UnitHoursAre([unit], hours);
  }

  lemma WrittenWindowIs(n: nat, unit: char, hours: int)
    requires n > 0 && LetterHours(unit, hours) && n * hours * 3_600_000_000_000 <= INT64_MAX && n <= INT64_MAX
    ensures DurationText(Decimal(n) + [unit]) == n * hours * 3_600_000_000_000
  {
    var s := Decimal(n) + [unit];
    DigitsOf(n);
    LetterIsUnit(unit, hours);
    assert '0' <= Decimal(n)[0] <= '9' && s[0] == Decimal(n)[0];
    TextIsTrimmed(s);
    assert s[..|s| - 1] == Decimal(n) && s[|s| - 1..] == [unit];
    WrapIs(n * hours * 3_600_000_000_000);
  }

  lemma WindowRule(v: int, field: string, value: Value, window: int, now: int, w: World)
    requires DurationValue(value) == window && 0 < window <= INT64_MAX
    ensures CmpTime(v, Rule(field, "in_last", value), now, w) <==> v != 0 && v > now - window
  {
    WrapIs(-window);
  }

  lemma DaysAre(n: nat)
    requires 0 < n && n * 24 * 3_600_000_000_000 <= INT64_MAX
    ensures DurationValue(Float(n as real)) == n * 24 * 3_600_000_000_000
  {
    WholeNumber(n);
    UnitHoursAre("days", 24);
    WrapIs(n * 24 * 3_600_000_000_000);
  }

  lemma WindowCollection(value: Value, window: int, cs: seq<Candidate>, o: Options, w: World, c: Candidate)
    requires DurationValue(value) == window && 0 < window <= INT64_MAX
    ensures Has("added_at", "in_last", value, cs, o, w, c, c.createdAt != 0 && c.createdAt > Now(o, w) - window)
  {
    WindowRule(c.createdAt, "added_at", value, window, Now(o, w), w);
    Decides("added_at", "in_last", value, cs, o, w, c, c.createdAt != 0 && c.createdAt > Now(o, w) - window);
  }

  lemma PositiveWindow(n: nat, hours: int)
    requires n > 0 && hours > 0
    ensures n * hours * 3_600_000_000_000 > 0
  {
  }

  lemma WrittenValueIs(n: nat, unit: char, hours: int, value: Value)
    requires n > 0 && LetterHours(unit, hours) && n * hours * 3_600_000_000_000 <= INT64_MAX && n <= INT64_MAX
    requires value == Text(Decimal(n) + [unit]) || (unit == 'd' && value == Float(n as real))
    ensures DurationValue(value) == n * hours * 3_600_000_000_000
  {
    if value.Text? { WrittenWindowIs(n, unit, hours); } else { DaysAre(n); }
  }

  /** "30d" and the like, and a bare number of days, mean the same windows. */
  lemma WrittenWindowCollection(n: nat, unit: char, hours: int, value: Value, cs: seq<Candidate>, o: Options, w: World, c: Candidate)
    requires n > 0 && LetterHours(unit, hours) && n * hours * 3_600_000_000_000 <= INT64_MAX && n <= INT64_MAX
    requires value == Text(Decimal(n) + [unit]) || (unit == 'd' && value == Float(n as real))
    ensures Has("added_at", "in_last", value, cs, o, w, c,
                c.createdAt != 0 && c.createdAt > Now(o, w) - n * hours * 3_600_000_000_000)
  {
    WrittenValueIs(n, unit, hours, value);
    PositiveWindow(n, hours);
    WindowCollection(value, n * hours * 3_600_000_000_000, cs, o, w, c);
  }

  /** A text that is no whole number with one of the letters h, d, w and y after it. */
  predicate NoWindow(text: string) {
    text == "" || !AllDigits(text[..|text| - 1]) || text[|text| - 1] !in {'h', 'd', 'w', 'y'}
  }

  lemma NoWindowIsNone(text: string)
    requires NoWindow(Trim(text))
    ensures DurationText(text) == 0
  {
    var s := Trim(text);
    if s != "" {
      var unit := s[|s| - 1..];
      assert |unit| == 1 && unit[0] == s[|s| - 1];
      if AllDigits(s[..|s| - 1]) { OtherLetterIsNoUnit(unit, Digits(s[..|s| - 1])); }
    }
  }

  lemma OtherLetterIsNoUnit(unit: string, n: int)
    requires |unit| == 1 && unit[0] !in {'h', 'd', 'w', 'y'}
    ensures DurationFromUnit(n, unit) == 0
  {
    assert UnitHours(unit) == 0;
    assert n > 0 ==> n * UnitHours(unit) * HOUR == 0;
  }

  /** A window that cannot be read selects nothing. */
  lemma UnreadableWindowCollection(value: Value, cs: seq<Candidate>, o: Options, w: World, c: Candidate)
    requires value.Null? || value.Bool? || value.List? || (value.Text? && NoWindow(Trim(value.text)))
    ensures Has("added_at", "in_last", value, cs, o, w, c, false)
  {
    if value.Text? { NoWindowIsNone(value.text); }
    Decides("added_at", "in_last", value, cs, o, w, c, false);
  }

  // ---------------------------------------------------------------- reading state

  /** Books finished or not, begun and not finished or not, for the reader's own collections only. */
  lemma FinishedCollection(b: bool, cs: seq<Candidate>, o: Options, w: World, c: Candidate)
    ensures Has("finished", "is", Bool(b), cs, o, w, c, o.allowPersonalized && c.isFinished == b)
  {
    Decides("finished", "is", Bool(b), cs, o, w, c, o.allowPersonalized && c.isFinished == b);
  }

  lemma InProgressCollection(b: bool, cs: seq<Candidate>, o: Options, w: World, c: Candidate)
    ensures Has("in_progress", "is", Bool(b), cs, o, w, c, o.allowPersonalized && (!c.isFinished && c.progressPct > 0.0) == b)
  {
    Decides("in_progress", "is", Bool(b), cs, o, w, c, o.allowPersonalized && (!c.isFinished && c.progressPct > 0.0) == b);
  }

  /** Begun, not finished, and not read for at least so long; sixty days unless the caller says otherwise. */
  predicate GivenUp(c: Candidate, o: Options, w: World) {
    && !c.isFinished && c.progressPct > 0.0 && c.lastReadAt != 0
    && Now(o, w) - c.lastReadAt >= if o.abandonedAfter == 0 then 5_184_000_000_000_000 else o.abandonedAfter
  }

  lemma AbandonedCollections(b: bool, cs: seq<Candidate>, o: Options, w: World, c: Candidate)
    requires INT64_MIN < o.abandonedAfter <= INT64_MAX
    ensures Has("abandoned", "is", Bool(b), cs, o, w, c, o.allowPersonalized && GivenUp(c, o, w) == b)
  {
    var opts := WithDefaults(o, w);
    assert opts.now == Now(o, w) && opts.abandonedAfter == if o.abandonedAfter == 0 then 5_184_000_000_000_000 else o.abandonedAfter;
    assert Abandoned(c, opts) == GivenUp(c, o, w);
    Decides("abandoned", "is", Bool(b), cs, o, w, c, o.allowPersonalized && GivenUp(c, o, w) == b);
  }

  // ---------------------------------------------------------------- unknown words

  lemma UnknownMatchesNothing(r: Rule, c: Candidate, o: Options, w: World)
    requires !IsField(r.field) || !IsOperator(r.op)
    ensures !MatchRule(r, c, o, w)
  {
  }

  /** A rule of an unknown field, or with an unknown operator, selects nothing. */
  lemma UnknownWordCollection(field: string, op: string, value: Value, cs: seq<Candidate>, o: Options, w: World)
    requires IsWord(field) && IsWord(op) && field !in {"authors", "genres", "formats"} && (!IsField(field) || !IsOperator(op))
    ensures Evaluated(OneRule(Rule(field, op, value)), cs, o, w) == []
  {
    var out := Evaluated(OneRule(Rule(field, op, value)), cs, o, w);
    WordIsClean(field);
    WordIsClean(op);
    forall c ensures multiset(out)[c] == 0 {
      UnknownMatchesNothing(Rule(field, op, value), c, WithDefaults(o, w), w);
      OneRuleEvaluates(Rule(field, op, value), cs, o, w, c);
    }
    assert multiset(out) == multiset{} && |multiset(out)| == |out|;
  }

  // ---------------------------------------------------------------- text

  ghost predicate Within(part: string, s: string) {
    exists a, b :: s == a + part + b
  }

  lemma WithinIs(v: string, x: string)
    ensures Contains(Lower(v), Lower(x)) <==> Within(Lower(x), Lower(v))
  {
    ContainsMeans(Lower(v), Lower(x));
  }

  lemma TextRule(v: string, field: string, op: string, x: string)
    ensures CmpString(v, Rule(field, op, Text(x))) <==>
      (op == "is" && Lower(v) == Lower(x)) || (op == "is_not" && Lower(v) != Lower(x)) || (op == "contains" && Within(Lower(x), Lower(v)))
  {
    WithinIs(v, x);
  }

  /** The text that a rule of the field looks at; items of the catalogue carry no publisher and no ISBN. */
  predicate LooksAt(field: string, c: Candidate, attribute: string) {
    || (field == "title" && attribute == c.title) || (field == "series" && attribute == c.series)
    || (field == "language" && attribute == c.language) || (field in {"publisher", "isbn"} && attribute == "")
  }

  /** Letters count alike in both cases. */
  lemma TextCollections(field: string, attribute: string, op: string, x: string, cs: seq<Candidate>, o: Options, w: World, c: Candidate)
    requires LooksAt(field, c, attribute)
    ensures op == "is" ==> Has(field, op, Text(x), cs, o, w, c, Lower(attribute) == Lower(x))
    ensures op == "is_not" ==> Has(field, op, Text(x), cs, o, w, c, Lower(attribute) != Lower(x))
    ensures op == "contains" ==> Has(field, op, Text(x), cs, o, w, c, Within(Lower(x), Lower(attribute)))
  {
    if op in {"is", "is_not", "contains"} {
      TextRule(attribute, field, op, x);
      Decides(field, op, Text(x), cs, o, w, c, CmpString(attribute, Rule(field, op, Text(x))));
    }
  }

  predicate SomeIs(all: seq<string>, x: string) {
    exists i :: 0 <= i < |all| && Lower(all[i]) == Lower(x)
  }

  ghost predicate SomeHolds(all: seq<string>, x: string) {
    exists i :: 0 <= i < |all| && Within(Lower(x), Lower(all[i]))
  }

  lemma ManyRule(all: seq<string>, field: string, op: string, x: string)
    ensures CmpStringArray(all, Rule(field, op, Text(x))) <==>
      (op == "is" && SomeIs(all, x)) || (op == "is_not" && !SomeIs(all, x)) || (op == "contains" && SomeHolds(all, x))
  {
    forall i | 0 <= i < |all|
      ensures SameFold(all[i], x) <==> Lower(all[i]) == Lower(x)
      ensures Contains(Lower(all[i]), Lower(x)) <==> Within(Lower(x), Lower(all[i]))
    {
      WithinIs(all[i], x);
    }
  }

  /** The texts that a rule of the field looks at; items of the catalogue carry no genres and no tags. */
  predicate LooksAtAll(field: string, c: Candidate, all: seq<string>) {
    || (field == "author" && all == c.authors) || (field == "format" && all == c.formats)
    || (field in {"genre", "tag"} && all == [])
  }

  /** A book with many authors or formats is one of each. */
  lemma ManyTextCollections(field: string, all: seq<string>, op: string, x: string, cs: seq<Candidate>, o: Options, w: World, c: Candidate)
    requires LooksAtAll(field, c, all)
    ensures op == "is" ==> Has(field, op, Text(x), cs, o, w, c, SomeIs(all, x))
    ensures op == "is_not" ==> Has(field, op, Text(x), cs, o, w, c, !SomeIs(all, x))
    ensures op == "contains" ==> Has(field, op, Text(x), cs, o, w, c, SomeHolds(all, x))
  {
    if op in {"is", "is_not", "contains"} {
      ManyRule(all, field, op, x);
      Decides(field, op, Text(x), cs, o, w, c, CmpStringArray(all, Rule(field, op, Text(x))));
    }
  }
}
