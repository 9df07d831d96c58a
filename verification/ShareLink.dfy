/** Share links with a use cap (internal/store/share_link.go, internal/server/share_link_handler.go):
    a resolution checks the link, then increments its count, and other resolutions run in between. */
module ShareLink {
  import opened Wrappers

  /** maxUses = 0 means unlimited; expiresAt = None means never. */
  datatype Link = Link(slug: string, expiresAt: Option<int>, maxUses: int, useCount: int)

  /** The WHERE clause of GetActiveShareLinkBySlug at time now. */
  predicate Active(l: Link, now: int) {
    && (l.expiresAt.None? || l.expiresAt.value > now)
    && (l.maxUses == 0 || l.useCount < l.maxUses)
  }

  predicate Exhausted(l: Link) {
    l.maxUses != 0 && l.useCount >= l.maxUses
  }

  type Table = map<string, Link>

  /** pending are the resolutions, by request number, between check and increment, and their link;
      used are all ids ever given to a link. */
  datatype State = State(now: int, links: Table, pending: map<nat, string>, used: set<string>)

  datatype Action =
    | Wait(d: nat)
    | Create(id: string, slug: string, expiresAt: Option<int>, maxUses: int)
    | Check(g: nat, id: string)
    | Increment(g: nat, ok: bool)     // the handler ignores a failed increment
    | Delete(id: string)
    | PurgeExpired

  /** slug is UNIQUE, ids and request numbers are new. */
  ghost predicate CanDo(s: State, a: Action) {
    match a
    case Wait(_) => true
    case Create(id, slug, _, _) => id !in s.used && (forall other :: other in s.links ==> s.links[other].slug != slug)
    case Check(g, id) => g !in s.pending && id in s.links && Active(s.links[id], s.now)
    case Increment(g, _) => g in s.pending
    case Delete(_) => true
    case PurgeExpired => true
  }

  function Bump(t: Table, id: string): Table {
    if id in t then t[id := t[id].(useCount := t[id].useCount + 1)] else t
  }

  /** The table, used by one resolution at a time. */
  class LinkStore {
    var links: Table

    constructor ()
      ensures links == map[]
    {
      links := map[];
    }

    /** GetActiveShareLinkBySlug: a link that grants access now, if the slug has one. */
    method GetActive(slug: string, now: int) returns (id: Option<string>)
      ensures id.Some? ==> id.value in links && links[id.value].slug == slug && Active(links[id.value], now)
      ensures id.None? ==> forall other :: other in links && links[other].slug == slug ==> !Active(links[other], now)
    {
      var todo := links.Keys;
      while todo != {}
        invariant todo <= links.Keys
        invariant forall other :: other in links && other !in todo && links[other].slug == slug ==> !Active(links[other], now)
        decreases todo
      {
        var other :| other in todo;
        if links[other].slug == slug && Active(links[other], now) { return Some(other); }
        todo := todo - {other};
      }
      return None;
    }

    /** IncrementShareUse: false when the row is gone. */
    method Increment(id: string) returns (found: bool)
      modifies this
      ensures found <==> id in old(links)
      ensures links == Bump(old(links), id)
    {
      if id !in links { return false; }
      links := links[id := links[id].(useCount := links[id].useCount + 1)];
      return true;
    }

    /** handleResolveShareLink without interference: access exactly when some link of the slug is active,
        and then one use of it more, unless the increment fails; a cap is never exceeded. */
    method Resolve(slug: string, now: int, incrementOk: bool) returns (id: Option<string>)
      modifies this
      ensures id.Some? <==> exists other :: other in old(links) && old(links)[other].slug == slug && Active(old(links)[other], now)
      ensures id.Some? ==> id.value in old(links) && old(links)[id.value].slug == slug
      ensures id.Some? ==> var l := old(links)[id.value];
        (l.expiresAt == None || now < l.expiresAt.value) && (l.maxUses == 0 || l.useCount < l.maxUses)
      ensures links == if id.Some? && incrementOk
                       then old(links)[id.value := old(links)[id.value].(useCount := old(links)[id.value].useCount + 1)] else old(links)
      ensures id.Some? && links[id.value].maxUses > 0 ==> links[id.value].useCount <= links[id.value].maxUses
    {
      id := GetActive(slug, now);
      if id.None? { return; }
      if incrementOk { var _ := Increment(id.value); }
    }
  }

  function Unexpired(t: Table, now: int): Table {
    map id | id in t && (t[id].expiresAt.None? || t[id].expiresAt.value > now) :: t[id]
  }

  ghost function Do(s: State, a: Action): State
    requires CanDo(s, a)
  {
    match a
    case Wait(d) => s.(now := s.now + d)
    case Create(id, slug, exp, max) => s.(links := s.links[id := Link(slug, exp, max, 0)], used := s.used + {id})
    case Check(g, id) => s.(pending := s.pending[g := id])
    case Increment(g, ok) => s.(links := if ok then Bump(s.links, s.pending[g]) else s.links, pending := s.pending - {g})
    case Delete(id) => s.(links := s.links - {id})
    case PurgeExpired => s.(links := Unexpired(s.links, s.now))
  }

  /** Resolutions of one link between check and increment. */
  ghost function InFlight(s: State, id: string): set<nat> {
    set g | g in s.pending && s.pending[g] == id
  }

  /** A run in which no link ever has more than c resolutions in flight. */
  ghost predicate IsRun(s: State, run: seq<Action>, c: nat)
    decreases |run|
  {
    && (forall id {:trigger InFlight(s, id)} :: |InFlight(s, id)| <= c)
    && (run == [] || (CanDo(s, run[0]) && IsRun(Do(s, run[0]), run[1..], c)))
  }

  ghost function Final(s: State, run: seq<Action>, c: nat): State
    requires IsRun(s, run, c)
    decreases |run|
  {
    if run == [] then s else Final(Do(s, run[0]), run[1..], c)
  }

  /** Uses so far and uses under way stay below cap + c. */
  ghost predicate LinkWithinCap(s: State, id: string, c: nat) {
    id in s.links && s.links[id].maxUses > 0 ==> s.links[id].useCount + |InFlight(s, id)| <= s.links[id].maxUses - 1 + c
  }

  ghost predicate WithinCap(s: State, c: nat) {
    && s.links.Keys <= s.used
    && (forall g :: g in s.pending ==> s.pending[g] in s.used)
    && (forall id {:trigger InFlight(s, id)} :: LinkWithinCap(s, id, c))
  }

  /** How a step changes the resolutions in flight of one link. */
  lemma InFlightStep(s: State, a: Action, id: string)
    requires CanDo(s, a)
    ensures InFlight(Do(s, a), id) ==
      if a.Check? && a.id == id then InFlight(s, id) + {a.g}
      else if a.Increment? then InFlight(s, id) - {a.g}
      else InFlight(s, id)
  {
  }

  lemma StepKeepsLink(s: State, a: Action, c: nat, id: string)
    requires WithinCap(s, c) && CanDo(s, a) && |InFlight(s, id)| <= c && |InFlight(Do(s, a), id)| <= c
    ensures LinkWithinCap(Do(s, a), id, c)
  {
    InFlightStep(s, a, id);
    if a.Increment? && a.g in InFlight(s, id) {
      assert InFlight(s, id) == InFlight(Do(s, a), id) + {a.g};
    }
    if a.Create? && a.id == id {
      assert InFlight(s, id) == {};
    }
  }

  lemma StepKeepsCap(s: State, a: Action, c: nat)
    requires WithinCap(s, c) && CanDo(s, a)
    requires forall id {:trigger InFlight(s, id)} :: |InFlight(s, id)| <= c
    requires forall id {:trigger InFlight(Do(s, a), id)} :: |InFlight(Do(s, a), id)| <= c
    ensures WithinCap(Do(s, a), c)
  {
    forall id ensures LinkWithinCap(Do(s, a), id, c) {
      assert |InFlight(s, id)| <= c && |InFlight(Do(s, a), id)| <= c;
      StepKeepsLink(s, a, c, id);
    }
  }

  lemma {:induction false} RunKeepsCap(s: State, run: seq<Action>, c: nat)
    requires WithinCap(s, c) && IsRun(s, run, c)
    ensures WithinCap(Final(s, run, c), c)
    decreases |run|
  {
    if run != [] {
      StepKeepsCap(s, run[0], c);
      RunKeepsCap(Do(s, run[0]), run[1..], c);
    }
  }

  const Empty := State(0, map[], map[], {})

  /** With at most c resolutions of a link in flight, its count never exceeds a positive cap by more
      than c - 1; one at a time, it never exceeds the cap at all. */
  lemma CapOverrunBounded(run: seq<Action>, c: nat, id: string)
    requires c > 0 && IsRun(Empty, run, c)
    requires id in Final(Empty, run, c).links && Final(Empty, run, c).links[id].maxUses > 0
    ensures var l := Final(Empty, run, c).links[id]; l.useCount <= l.maxUses + c - 1
  {
    forall other ensures LinkWithinCap(Empty, other, c) {}
    RunKeepsCap(Empty, run, c);
    assert LinkWithinCap(Final(Empty, run, c), id, c) by { assert |InFlight(Final(Empty, run, c), id)| >= 0; }
  }

  /** A deleted link never comes back under its id. */
  lemma {:induction false} GoneForEver(s: State, run: seq<Action>, c: nat, id: string)
    requires IsRun(s, run, c) && id in s.used && id !in s.links
    ensures id !in Final(s, run, c).links
    decreases |run|
  {
    if run != [] { GoneForEver(Do(s, run[0]), run[1..], c, id); }
  }

  /** An exhausted link is never active again, whatever happens, for as long as it exists. */
  lemma {:induction false} ExhaustedForEver(s: State, run: seq<Action>, c: nat, id: string, now: int)
    requires IsRun(s, run, c) && id in s.used && id in s.links && Exhausted(s.links[id])
    ensures id in Final(s, run, c).links ==>
      Exhausted(Final(s, run, c).links[id]) && !Active(Final(s, run, c).links[id], now)
    decreases |run|
  {
    if run != [] {
      if id in Do(s, run[0]).links {
        ExhaustedForEver(Do(s, run[0]), run[1..], c, id, now);
      } else {
        GoneForEver(Do(s, run[0]), run[1..], c, id);
      }
    }
  }

  predicate Expired(l: Link, now: int) {
    l.expiresAt.Some? && l.expiresAt.value <= now
  }

  /** Nor is an expired link, while it waits for the purge. */
  lemma {:induction false} ExpiredForEver(s: State, run: seq<Action>, c: nat, id: string)
    requires IsRun(s, run, c) && id in s.used && id in s.links && Expired(s.links[id], s.now)
    ensures id in Final(s, run, c).links ==>
      Expired(Final(s, run, c).links[id], Final(s, run, c).now) && !Active(Final(s, run, c).links[id], Final(s, run, c).now)
    decreases |run|
  {
    if run != [] {
      if id in Do(s, run[0]).links {
        ExpiredForEver(Do(s, run[0]), run[1..], c, id);
      } else {
        GoneForEver(Do(s, run[0]), run[1..], c, id);
      }
    }
  }

  /** When a link opens: at any time before its expiry, if it has one, while it has uses left, if they are
      counted.  A link that is there and does not is expired or used up, and will never open again. */
  lemma OpensIff(s: State, g: nat, id: string)
    requires g !in s.pending && id in s.links
    ensures var l := s.links[id];
      CanDo(s, Check(g, id)) <==> (l.expiresAt.Some? ==> s.now < l.expiresAt.value) && (l.maxUses != 0 ==> l.useCount < l.maxUses)
    ensures CanDo(s, Check(g, id)) <==> !Expired(s.links[id], s.now) && !Exhausted(s.links[id])
  {
  }

  /** Time closes a link at its expiry and not before; deleting it closes it at once, and purging takes
      exactly the expired ones, all at any time. */
  lemma LinkCloses(s: State, g: nat, id: string, d: nat)
    requires g !in s.pending && id in s.links
    ensures CanDo(s, Wait(d)) && CanDo(s, Delete(id)) && CanDo(s, PurgeExpired)
    ensures var l := s.links[id];
      && (CanDo(Do(s, Wait(d)), Check(g, id)) <==>
            (l.expiresAt == None || s.now + d < l.expiresAt.value) && (l.maxUses == 0 || l.useCount < l.maxUses))
      && (id in Do(s, PurgeExpired).links <==> l.expiresAt == None || s.now < l.expiresAt.value)
    ensures Do(s, Delete(id)).links == s.links - {id}
    ensures forall other :: other in Do(s, PurgeExpired).links ==> other in s.links && Do(s, PurgeExpired).links[other] == s.links[other]
  {
  }

  /** A slug belongs to one link at a time, in every run. */
  ghost predicate UniqueSlugs(t: Table) {
    forall i, j :: i in t && j in t && t[i].slug == t[j].slug ==> i == j
  }

  lemma StepKeepsSlugs(s: State, a: Action)
    requires UniqueSlugs(s.links) && CanDo(s, a)
    ensures UniqueSlugs(Do(s, a).links)
  {
  }

  lemma {:induction false} SlugsStayUnique(s: State, run: seq<Action>, c: nat)
    requires UniqueSlugs(s.links) && IsRun(s, run, c)
    ensures UniqueSlugs(Final(s, run, c).links)
    decreases |run|
  {
    if run != [] {
      StepKeepsSlugs(s, run[0]);
      SlugsStayUnique(Do(s, run[0]), run[1..], c);
    }
  }

  /** A new link grants exactly as many uses, one at a time, as its cap says; without a cap, any number. */
  lemma {:induction false} NewLinkIsUsed(s: State, id: string, n: nat, g: nat) returns (run: seq<Action>)
    requires id in s.links && s.links[id].expiresAt == None && s.links[id].useCount == 0 && s.pending == map[]
    requires s.links[id].maxUses == 0 || n <= s.links[id].maxUses
    ensures IsRun(s, run, 1) && var t := Final(s, run, 1);
      && t.links == s.links[id := s.links[id].(useCount := n)] && t.pending == map[]
      && (CanDo(t, Check(g, id)) <==> s.links[id].maxUses == 0 || n < s.links[id].maxUses)
  {
    forall other {:trigger InFlight(s, other)} ensures |InFlight(s, other)| <= 1 { assert InFlight(s, other) == {}; }
    run := UseLink(s, id, 0, n);
  }

  /** The link has been used n times, and nothing is in flight. */
  ghost predicate Used(s: State, t: State, id: string, n: int) {
    && id in s.links && t.now == s.now && t.pending == map[] && t.used == s.used
    && t.links == s.links[id := s.links[id].(useCount := n)]
  }

  lemma UseOnce(s: State, id: string, rest: seq<Action>)
    requires id in s.links && s.pending == map[] && Active(s.links[id], s.now)
    ensures CanDo(s, Check(0, id)) && CanDo(Do(s, Check(0, id)), Increment(0, true))
    ensures var t, run := Do(Do(s, Check(0, id)), Increment(0, true)), [Check(0, id), Increment(0, true)] + rest;
      Used(s, t, id, s.links[id].useCount + 1) && (IsRun(t, rest, 1) ==> IsRun(s, run, 1) && Final(s, run, 1) == Final(t, rest, 1))
  {
    var run := [Check(0, id), Increment(0, true)] + rest;
    var s1 := Do(s, Check(0, id));
    AtMostOne(s, id);
    AtMostOne(s1, id);
    assert run[1..] == [Increment(0, true)] + rest && run[1..][1..] == rest;
  }

  lemma AtMostOne(s: State, id: string)
    requires s.pending == map[] || s.pending == map[0 := id]
    ensures forall other {:trigger InFlight(s, other)} :: |InFlight(s, other)| <= 1
  {
    forall other ensures |InFlight(s, other)| <= 1 { assert InFlight(s, other) == if 0 in s.pending && other == id then {0} else {}; }
  }

  lemma {:induction false} UseLink(s: State, id: string, k: nat, n: nat) returns (run: seq<Action>)
    requires id in s.links && s.links[id].expiresAt == None && s.links[id].useCount == k && s.pending == map[] && k <= n
    requires s.links[id].maxUses == 0 || n <= s.links[id].maxUses
    ensures IsRun(s, run, 1) && Used(s, Final(s, run, 1), id, n)
    decreases n - k
  {
    AtMostOne(s, id);
    if k == n {
      run := [];
      assert s.links == s.links[id := s.links[id].(useCount := n)];
    } else {
      var t := Do(Do(s, Check(0, id)), Increment(0, true));
      var rest := UseLink(t, id, k + 1, n);
      run := [Check(0, id), Increment(0, true)] + rest;
      UseOnce(s, id, rest);
    }
  }

  /** Access through a slug at time now, as GetActive grants it. */
  ghost predicate Grants(t: Table, slug: string, now: int) {
    exists id :: id in t && t[id].slug == slug && Active(t[id], now)
  }

  /** The purge is invisible: whenever it runs, every later resolution of every slug succeeds or fails
      as it would have without it.  And it leaves no expired link, and every other as it was. */
  lemma PurgeIsInvisible(t: Table, purge: int, later: int, slug: string)
    requires purge <= later
    ensures Grants(Unexpired(t, purge), slug, later) <==> Grants(t, slug, later)
    ensures forall id :: id in Unexpired(t, purge) <==> id in t && !Expired(t[id], purge)
    ensures forall id :: id in Unexpired(t, purge) ==> Unexpired(t, purge)[id] == t[id]
  {
    if id :| id in t && t[id].slug == slug && Active(t[id], later) {
      assert id in Unexpired(t, purge) && Unexpired(t, purge)[id] == t[id];
    }
  }

  // ---------------------------------------------------------------- the bound is reached

  /** One link used n times, with requests lo to hi in flight on it. */
  ghost predicate Shape(s: State, id: string, cap: int, n: int, lo: nat, hi: nat) {
    && s.links == map[id := Link("", None, cap, n)]
    && lo <= hi
    && (forall g: nat :: g in s.pending <==> lo <= g < hi)
    && (forall g :: g in s.pending ==> s.pending[g] == id)
  }

  function Interval(lo: nat, hi: nat): (m: set<nat>)
    ensures |m| == if lo <= hi then hi - lo else 0
    ensures forall g :: g in m <==> lo <= g < hi
    decreases hi - lo
  {
    if lo >= hi then {} else {hi - 1} + Interval(lo, hi - 1)
  }

  lemma ShapeInFlight(s: State, id: string, cap: int, n: int, lo: nat, hi: nat, c: nat)
    requires Shape(s, id, cap, n, lo, hi) && hi - lo <= c
    ensures forall other {:trigger InFlight(s, other)} :: |InFlight(s, other)| <= c
  {
    forall other ensures |InFlight(s, other)| <= c {
      assert InFlight(s, other) == if other == id then Interval(lo, hi) else {};
    }
  }

  lemma {:induction false} Drain(s: State, id: string, cap: int, n: int, lo: nat, hi: nat, c: nat) returns (run: seq<Action>)
    requires Shape(s, id, cap, n, lo, hi) && hi - lo <= c
    ensures IsRun(s, run, c) && id in Final(s, run, c).links && Final(s, run, c).links[id] == Link("", None, cap, n + hi - lo)
    decreases hi - lo
  {
    ShapeInFlight(s, id, cap, n, lo, hi, c);
    if lo == hi {
      run := [];
    } else {
      var rest := Drain(Do(s, Increment(lo, true)), id, cap, n + 1, lo + 1, hi, c);
      run := [Increment(lo, true)] + rest;
      assert run[1..] == rest;
    }
  }

  lemma {:induction false} Crowd(s: State, id: string, cap: int, n: int, lo: nat, hi: nat, c: nat) returns (run: seq<Action>)
    requires Shape(s, id, cap, n, lo, hi) && hi - lo <= c && n < cap
    ensures IsRun(s, run, c) && id in Final(s, run, c).links && Final(s, run, c).links[id] == Link("", None, cap, n + c)
    decreases c - (hi - lo)
  {
    ShapeInFlight(s, id, cap, n, lo, hi, c);
    if hi - lo == c {
      run := Drain(s, id, cap, n, lo, hi, c);
    } else {
      var rest := Crowd(Do(s, Check(hi, id)), id, cap, n, lo, hi + 1, c);
      run := [Check(hi, id)] + rest;
      assert run[1..] == rest;
    }
  }

  lemma {:induction false} OneByOne(s: State, id: string, cap: int, n: int, g: nat, c: nat) returns (run: seq<Action>)
    requires Shape(s, id, cap, n, g, g) && n < cap && c > 0
    ensures IsRun(s, run, c) && id in Final(s, run, c).links && Final(s, run, c).links[id] == Link("", None, cap, cap - 1 + c)
    decreases cap - n
  {
    if n == cap - 1 {
      run := Crowd(s, id, cap, n, g, g, c);
    } else {
      var s1 := Do(s, Check(g, id));
      ShapeInFlight(s, id, cap, n, g, g, c);
      ShapeInFlight(s1, id, cap, n, g, g + 1, c);
      var rest := OneByOne(Do(s1, Increment(g, true)), id, cap, n + 1, g + 1, c);
      run := [Check(g, id), Increment(g, true)] + rest;
      assert run[1..] == [Increment(g, true)] + rest && run[1..][1..] == rest;
    }
  }

  /** The bound is exact: for every cap and every c some run overshoots the cap by c - 1. */
  lemma CapOverrunReached(id: string, cap: int, c: nat) returns (run: seq<Action>)
    requires cap > 0 && c > 0
    ensures IsRun(Empty, run, c) && id in Final(Empty, run, c).links
    ensures Final(Empty, run, c).links[id].maxUses == cap && Final(Empty, run, c).links[id].useCount == cap + c - 1
  {
    var a := Create(id, "", None, cap);
    assert Shape(Do(Empty, a), id, cap, 0, 0, 0);
    forall other ensures |InFlight(Empty, other)| <= c { assert InFlight(Empty, other) == {}; }
    var rest := OneByOne(Do(Empty, a), id, cap, 0, 0, c);
    run := [a] + rest;
    assert run[1..] == rest;
  }
}
