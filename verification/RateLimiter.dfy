/** The per-IP rate limiter (internal/server/ratelimit.go): token buckets that start full, and a
    janitor that forgets idle ones.  A request finds its limiter and is stamped under the lock, and
    draws its token from that limiter after the lock is released, so other requests and the janitor
    may come in between.

    rate.Limiter (golang.org/x/time/rate) is modelled as the standard token bucket.  Times are
    nanoseconds; tokens are counted in billionths, so that the refill per nanosecond is whole. */
module RateLimiter {

  const TOKEN: int := 1_000_000_000
  const RATE: int := 30                     // billionths of a token per nanosecond: 30 tokens a second
  const BURST: int := 60 * TOKEN
  const IDLE: int := 600_000_000_000        // ten minutes
  const REFILL: int := BURST / RATE         // nanoseconds that fill an empty bucket: two seconds

  datatype Bucket = Bucket(tokens: int, last: int)

  /** Tokens available at time now. */
  function Level(b: Bucket, now: int): int {
    var filled := if now > b.last then b.tokens + (now - b.last) * RATE else b.tokens;
    if filled > BURST then BURST else filled
  }

  function Draw(b: Bucket, now: int): (bool, Bucket) {
    if Level(b, now) >= TOKEN then (true, Bucket(Level(b, now) - TOKEN, now)) else (false, b)
  }

  /** An entry of the map: which limiter, in order of allocation, and the time of its last request. */
  datatype Entry = Entry(limiter: nat, seen: int)

  /** All limiters ever allocated, and the map that the janitor prunes. */
  datatype Limits = Limits(limiters: seq<Bucket>, buckets: map<string, Entry>)

  const Fresh := Limits([], map[])

  function LimiterFor(m: Limits, key: string): nat {
    if key in m.buckets then m.buckets[key].limiter else |m.limiters|
  }

  /** The part of allow under the lock. */
  function Stamped(m: Limits, key: string, now: int): Limits {
    Limits(if key in m.buckets then m.limiters else m.limiters + [Bucket(BURST, now)],
           m.buckets[key := Entry(LimiterFor(m, key), now)])
  }

  /** The part after it. */
  function Drawn(m: Limits, limiter: nat, now: int): Limits
    requires limiter < |m.limiters|
  {
    m.(limiters := m.limiters[limiter := Draw(m.limiters[limiter], now).1])
  }

  /** The janitor's pass at time now. */
  function SweptAt(m: Limits, now: int): Limits {
    m.(buckets := map k | k in m.buckets && !(m.buckets[k].seen < now - IDLE) :: m.buckets[k])
  }

  class IpLimiter {
    var limiters: seq<Bucket>
    var buckets: map<string, Entry>

    constructor ()
      ensures Limits(limiters, buckets) == Fresh
    {
      limiters, buckets := [], map[];
    }

    /** allow, up to the unlock. */
    method Stamp(key: string, now: int) returns (limiter: nat)
      modifies this
      ensures limiter == LimiterFor(Limits(old(limiters), old(buckets)), key)
      ensures Limits(limiters, buckets) == Stamped(Limits(old(limiters), old(buckets)), key, now)
    {
      if key !in buckets {
        buckets := buckets[key := Entry(|limiters|, now)];
        limiters := limiters + [Bucket(BURST, now)];
      }
      buckets := buckets[key := buckets[key].(seen := now)];
      return buckets[key].limiter;
    }

    /** lim.Allow(), on the limiter found before. */
    method DrawFrom(limiter: nat, now: int) returns (ok: bool)
      requires limiter < |limiters|
      modifies this
      ensures ok == Draw(old(limiters)[limiter], now).0
      ensures Limits(limiters, buckets) == Drawn(Limits(old(limiters), old(buckets)), limiter, now)
    {
      var draw := Draw(limiters[limiter], now);
      limiters := limiters[limiter := draw.1];
      return draw.0;
    }

    method Sweep(now: int)
      modifies this
      ensures Limits(limiters, buckets) == SweptAt(Limits(old(limiters), old(buckets)), now)
    {
      var cutoff := now - IDLE;
      var todo := buckets.Keys;
      ghost var start := buckets;
      while todo != {}
        invariant todo <= start.Keys && todo <= buckets.Keys <= start.Keys && limiters == old(limiters)
        invariant forall k :: k in buckets ==> buckets[k] == start[k]
        invariant forall k :: k in start && k !in todo ==> (k in buckets <==> !(start[k].seen < cutoff))
        decreases todo
      {
        var k :| k in todo;
        if buckets[k].seen < cutoff {
          buckets := buckets - {k};
        }
        todo := todo - {k};
      }
    }
  }

  // ---------------------------------------------------------------- interleavings

  /** A request between its stamp and its draw. */
  datatype Call = Call(key: string, limiter: nat, stamp: int)

  datatype State = State(limits: Limits, pending: map<nat, Call>)

  /** g numbers a request. */
  datatype Event = Stamp(g: nat, key: string, now: int) | DrawToken(g: nat, now: int) | Sweep(now: int)

  function Do(s: State, e: Event, janitor: bool): State {
    match e
    case Stamp(g, key, now) =>
      State(Stamped(s.limits, key, now), s.pending[g := Call(key, LimiterFor(s.limits, key), now)])
    case DrawToken(g, now) =>
      if g in s.pending && s.pending[g].limiter < |s.limits.limiters|
      then State(Drawn(s.limits, s.pending[g].limiter, now), s.pending - {g}) else s
    case Sweep(now) => if janitor then s.(limits := SweptAt(s.limits, now)) else s
  }

  function Allowed(s: State, g: nat, now: int): bool {
    g in s.pending && s.pending[g].limiter < |s.limits.limiters| && Draw(s.limits.limiters[s.pending[g].limiter], now).0
  }

  /** The decisions of a list of events, with or without the janitor. */
  function Decisions(s: State, events: seq<Event>, janitor: bool): seq<bool>
    decreases |events|
  {
    if events == [] then []
    else
      (if events[0].DrawToken? then [Allowed(s, events[0].g, events[0].now)] else []) +
      Decisions(Do(s, events[0], janitor), events[1..], janitor)
  }

  /** The longest a request may take from its stamp to its draw: 9 minutes 58 seconds and a nanosecond. */
  const LATEST: int := IDLE - REFILL + 1

  /** No request in flight is older than late. */
  predicate InTime(stamps: map<nat, int>, now: int, late: int) {
    forall g :: g in stamps ==> now <= stamps[g] + late
  }

  function StampsAfter(stamps: map<nat, int>, e: Event): map<nat, int> {
    match e
    case Stamp(g, _, now) => stamps[g := now]
    case DrawToken(g, _) => stamps - {g}
    case Sweep(_) => stamps
  }

  /** Any number of requests overlap each other and the janitor.  Times never go back, and every request
      draws within late of its stamp. */
  predicate CanFollow(e: Event, from: int, stamps: map<nat, int>, late: int) {
    && from <= e.now && InTime(stamps, e.now, late)
    && (e.Stamp? ==> e.g !in stamps)
    && (e.DrawToken? ==> e.g in stamps)
  }

  predicate Ordered(events: seq<Event>, from: int, stamps: map<nat, int>, late: int)
    decreases |events|
  {
    events == [] ||
    (CanFollow(events[0], from, stamps, late) && Ordered(events[1..], events[0].now, StampsAfter(stamps, events[0]), late))
  }

  // ---------------------------------------------------------------- invariant

  /** Every key has its own limiter, and a request in flight holds the limiter of its key. */
  predicate Linked(s: State, stamps: map<nat, int>) {
    && (forall k :: k in s.limits.buckets ==> s.limits.buckets[k].limiter < |s.limits.limiters|)
    && (forall j, k :: j in s.limits.buckets && k in s.limits.buckets && j != k ==>
          s.limits.buckets[j].limiter != s.limits.buckets[k].limiter)
    && s.pending.Keys == stamps.Keys
    && (forall g :: g in s.pending ==> Holds(s.limits, s.pending[g]) && s.pending[g].stamp == stamps[g])
  }

  predicate Holds(m: Limits, c: Call) {
    c.key in m.buckets && c.limiter == m.buckets[c.key].limiter && c.stamp <= m.buckets[c.key].seen
  }

  /** A bucket holds no negative or overflowing number of tokens, nor a draw from the future, and was
      drawn from soon enough after its last stamp. */
  predicate SoundBucket(b: Bucket, seen: int, now: int) {
    0 <= b.tokens <= BURST && b.last <= now && b.last <= seen + LATEST
  }

  predicate Sound(s: State, stamps: map<nat, int>, now: int) {
    && Linked(s, stamps)
    && (forall k :: k in s.limits.buckets ==> SoundBucket(BucketOf(s.limits, k), s.limits.buckets[k].seen, now))
  }

  function BucketOf(m: Limits, key: string): Bucket {
    if key in m.buckets && m.buckets[key].limiter < |m.limiters| then m.limiters[m.buckets[key].limiter] else Bucket(BURST, 0)
  }

  lemma StampKeepsLinked(s: State, stamps: map<nat, int>, e: Event, janitor: bool)
    requires Linked(s, stamps) && e.Stamp? && e.g !in stamps
    requires forall k :: k in s.limits.buckets ==> s.limits.buckets[k].seen <= e.now
    ensures Linked(Do(s, e, janitor), StampsAfter(stamps, e))
  {
  }

  /** Stamps are no later than the clock. */
  predicate SeenBy(s: State, now: int) {
    forall k :: k in s.limits.buckets ==> s.limits.buckets[k].seen <= now
  }

  lemma StampBuckets(s: State, stamps: map<nat, int>, e: Event, janitor: bool, k: string)
    requires Linked(s, stamps) && e.Stamp? && k in Do(s, e, janitor).limits.buckets
    ensures BucketOf(Do(s, e, janitor).limits, k) == if k in s.limits.buckets then BucketOf(s.limits, k) else Bucket(BURST, e.now)
    ensures k in s.limits.buckets || k == e.key
  {
  }

  lemma DrawBuckets(s: State, stamps: map<nat, int>, e: Event, janitor: bool, k: string)
    requires Linked(s, stamps) && e.DrawToken? && e.g in stamps && k in s.limits.buckets
    ensures Do(s, e, janitor).limits.buckets == s.limits.buckets
    ensures BucketOf(Do(s, e, janitor).limits, k) ==
      if k == s.pending[e.g].key then Draw(BucketOf(s.limits, k), e.now).1 else BucketOf(s.limits, k)
    ensures Allowed(s, e.g, e.now) == Draw(BucketOf(s.limits, s.pending[e.g].key), e.now).0
  {
    assert Holds(s.limits, s.pending[e.g]);
  }

  lemma StepKeepsLinked(s: State, stamps: map<nat, int>, e: Event, from: int, janitor: bool)
    requires Linked(s, stamps) && SeenBy(s, from) && CanFollow(e, from, stamps, LATEST)
    ensures Linked(Do(s, e, janitor), StampsAfter(stamps, e)) && SeenBy(Do(s, e, janitor), e.now)
  {
    match e
    case Stamp(_, _, _) => StampKeepsLinked(s, stamps, e, janitor);
    case DrawToken(g, _) => assert Holds(s.limits, s.pending[g]);
    case Sweep(now) =>
      forall g | g in s.pending ensures Holds(Do(s, e, janitor).limits, s.pending[g]) { assert Holds(s.limits, s.pending[g]); }
  }

  lemma StepKeepsSound(s: State, stamps: map<nat, int>, e: Event, from: int, janitor: bool)
    requires Sound(s, stamps, from) && SeenBy(s, from) && CanFollow(e, from, stamps, LATEST)
    ensures Sound(Do(s, e, janitor), StampsAfter(stamps, e), e.now) && SeenBy(Do(s, e, janitor), e.now)
  {
    StepKeepsLinked(s, stamps, e, from, janitor);
    var s' := Do(s, e, janitor);
    forall k | k in s'.limits.buckets ensures SoundBucket(BucketOf(s'.limits, k), s'.limits.buckets[k].seen, e.now) {
      match e
      case Stamp(_, _, _) => StampBuckets(s, stamps, e, janitor, k);
      case DrawToken(g, _) =>
        DrawBuckets(s, stamps, e, janitor, k);
        assert Holds(s.limits, s.pending[g]);
      case Sweep(_) =>
    }
  }

  // ---------------------------------------------------------------- the sweep is invisible

  /** Two buckets that no request can tell apart from now on. */
  predicate Alike(a: Bucket, b: Bucket, now: int) {
    a == b || (Level(a, now) == BURST && Level(b, now) == BURST)
  }

  /** The swept map has lost nothing but full buckets, and what it has is as good as what was kept. */
  predicate Matches(swept: State, kept: State, now: int) {
    && swept.pending.Keys == kept.pending.Keys
    && (forall g :: g in swept.pending ==> swept.pending[g].key == kept.pending[g].key)
    && swept.limits.buckets.Keys <= kept.limits.buckets.Keys
    && (forall k :: k in kept.limits.buckets ==> MatchesAt(swept, kept, now, k))
  }

  predicate MatchesAt(swept: State, kept: State, now: int, k: string)
    requires k in kept.limits.buckets
  {
    if k in swept.limits.buckets
    then swept.limits.buckets[k].seen == kept.limits.buckets[k].seen && Alike(BucketOf(swept.limits, k), BucketOf(kept.limits, k), now)
    else Level(BucketOf(kept.limits, k), now) == BURST
  }

  lemma LevelGrows(b: Bucket, now: int, later: int)
    requires now <= later && Level(b, now) == BURST
    ensures Level(b, later) == BURST
  {
  }

  lemma StaysAlike(a: Bucket, b: Bucket, now: int, later: int)
    requires now <= later && Alike(a, b, now)
    ensures Alike(a, b, later) && Draw(a, later).0 == Draw(b, later).0 && Alike(Draw(a, later).1, Draw(b, later).1, later)
  {
    if a != b {
      LevelGrows(a, now, later);
      LevelGrows(b, now, later);
    }
  }

  lemma IdleIsFull(b: Bucket, seen: int, from: int, now: int)
    requires SoundBucket(b, seen, from) && seen < now - IDLE
    ensures Level(b, now) == BURST
  {
    assert now - b.last >= REFILL;
  }

  /** Both machines are sound and they match. */
  predicate Related(swept: State, kept: State, stamps: map<nat, int>, now: int) {
    && Sound(swept, stamps, now) && SeenBy(swept, now) && Sound(kept, stamps, now) && SeenBy(kept, now)
    && Matches(swept, kept, now)
  }

  lemma StampKeepsMatch(swept: State, kept: State, stamps: map<nat, int>, e: Event, from: int)
    requires Related(swept, kept, stamps, from) && CanFollow(e, from, stamps, LATEST) && e.Stamp?
    ensures Matches(Do(swept, e, true), Do(kept, e, false), e.now)
  {
    var a, b := Do(swept, e, true), Do(kept, e, false);
    forall k | k in b.limits.buckets ensures MatchesAt(a, b, e.now, k) {
      StampBuckets(kept, stamps, e, false, k);
      if k in a.limits.buckets { StampBuckets(swept, stamps, e, true, k); }
      if k in kept.limits.buckets {
        assert MatchesAt(swept, kept, from, k);
        if k in swept.limits.buckets {
          StaysAlike(BucketOf(swept.limits, k), BucketOf(kept.limits, k), from, e.now);
        } else {
          LevelGrows(BucketOf(kept.limits, k), from, e.now);
        }
      }
    }
  }

  lemma DrawKeepsMatch(swept: State, kept: State, stamps: map<nat, int>, e: Event, from: int)
    requires Related(swept, kept, stamps, from) && CanFollow(e, from, stamps, LATEST) && e.DrawToken?
    ensures Allowed(swept, e.g, e.now) == Allowed(kept, e.g, e.now)
    ensures Matches(Do(swept, e, true), Do(kept, e, false), e.now)
  {
    var a, b, key := Do(swept, e, true), Do(kept, e, false), swept.pending[e.g].key;
    assert Holds(swept.limits, swept.pending[e.g]) && Holds(kept.limits, kept.pending[e.g]);
    DrawBuckets(swept, stamps, e, true, key);
    DrawBuckets(kept, stamps, e, false, key);
    assert MatchesAt(swept, kept, from, key);
    StaysAlike(BucketOf(swept.limits, key), BucketOf(kept.limits, key), from, e.now);
    forall k | k in b.limits.buckets ensures MatchesAt(a, b, e.now, k) {
      assert MatchesAt(swept, kept, from, k);
      DrawBuckets(kept, stamps, e, false, k);
      if k in swept.limits.buckets {
        DrawBuckets(swept, stamps, e, true, k);
        StaysAlike(BucketOf(swept.limits, k), BucketOf(kept.limits, k), from, e.now);
      } else {
        LevelGrows(BucketOf(kept.limits, k), from, e.now);
      }
    }
  }

  lemma SweepKeepsMatch(swept: State, kept: State, stamps: map<nat, int>, e: Event, from: int)
    requires Related(swept, kept, stamps, from) && CanFollow(e, from, stamps, LATEST) && e.Sweep?
    ensures Matches(Do(swept, e, true), Do(kept, e, false), e.now)
  {
    var a := Do(swept, e, true);
    forall k | k in kept.limits.buckets ensures MatchesAt(a, kept, e.now, k) {
      assert MatchesAt(swept, kept, from, k);
      if k in a.limits.buckets {
        StaysAlike(BucketOf(swept.limits, k), BucketOf(kept.limits, k), from, e.now);
      } else if k in swept.limits.buckets {
        IdleIsFull(BucketOf(kept.limits, k), kept.limits.buckets[k].seen, from, e.now);
      } else {
        LevelGrows(BucketOf(kept.limits, k), from, e.now);
      }
    }
  }

  /** Over every event the two decide alike and stay related. */
  lemma StepKeepsRelated(swept: State, kept: State, stamps: map<nat, int>, e: Event, from: int)
    requires Related(swept, kept, stamps, from) && CanFollow(e, from, stamps, LATEST)
    ensures e.DrawToken? ==> Allowed(swept, e.g, e.now) == Allowed(kept, e.g, e.now)
    ensures Related(Do(swept, e, true), Do(kept, e, false), StampsAfter(stamps, e), e.now)
  {
    StepKeepsSound(swept, stamps, e, from, true);
    StepKeepsSound(kept, stamps, e, from, false);
    match e
    case Stamp(_, _, _) => StampKeepsMatch(swept, kept, stamps, e, from);
    case DrawToken(_, _) => DrawKeepsMatch(swept, kept, stamps, e, from);
    case Sweep(_) => SweepKeepsMatch(swept, kept, stamps, e, from);
  }

  lemma {:induction false} SameDecisions(swept: State, kept: State, stamps: map<nat, int>, events: seq<Event>, from: int)
    requires Related(swept, kept, stamps, from) && Ordered(events, from, stamps, LATEST)
    ensures Decisions(swept, events, true) == Decisions(kept, events, false)
    decreases |events|
  {
    if events != [] {
      var e := events[0];
      StepKeepsRelated(swept, kept, stamps, e, from);
      SameDecisions(Do(swept, e, true), Do(kept, e, false), StampsAfter(stamps, e), events[1..], e.now);
    }
  }

  const Start := State(Fresh, map[])

  /** A shorter bound allows fewer interleavings. */
  lemma {:induction false} OrderedWithin(events: seq<Event>, from: int, stamps: map<nat, int>, late: int, later: int)
    requires Ordered(events, from, stamps, late) && late <= later
    ensures Ordered(events, from, stamps, later)
    decreases |events|
  {
    if events != [] {
      assert InTime(stamps, events[0].now, late);
      OrderedWithin(events[1..], events[0].now, StampsAfter(stamps, events[0]), late, later);
    }
  }

  /** Forgetting idle clients changes no decision: in every interleaving of requests and sweeps the
      limiter answers as one that never sweeps, if no request takes longer than LATEST. */
  lemma JanitorIsInvisible(events: seq<Event>, from: int)
    requires Ordered(events, from, map[], LATEST)
    ensures Decisions(Start, events, true) == Decisions(Start, events, false)
  {
    SameDecisions(Start, Start, map[], events, from);
  }

  // ---------------------------------------------------------------- and no later

  function Stamps(lo: nat, hi: nat, k: string, t: int): seq<Event>
    decreases hi - lo
  {
    if lo >= hi then [] else [Stamp(lo, k, t)] + Stamps(lo + 1, hi, k, t)
  }

  function Draws(lo: nat, hi: nat, t: int): seq<Event>
    decreases hi - lo
  {
    if lo >= hi then [] else [DrawToken(lo, t)] + Draws(lo + 1, hi, t)
  }

  function Range(lo: nat, hi: nat, t: int): (m: map<nat, int>)
    ensures forall g :: g in m <==> lo <= g < hi
    ensures forall g :: g in m ==> m[g] == t
  {
    if lo >= hi then map[] else Range(lo, hi - 1, t)[hi - 1 := t]
  }

  lemma OrderedStamp(base: nat, lo: nat, k: string, t: int, from: int, late: int, more: seq<Event>)
    requires base <= lo && 0 <= late && from <= t && Ordered(more, t, Range(base, lo + 1, t), late)
    ensures Ordered([Stamp(lo, k, t)] + more, from, Range(base, lo, t), late)
  {
    var events := [Stamp(lo, k, t)] + more;
    assert events[0] == Stamp(lo, k, t) && events[1..] == more;
    assert StampsAfter(Range(base, lo, t), events[0]) == Range(base, lo + 1, t);
  }

  lemma {:induction false} OrderedStamps(base: nat, lo: nat, hi: nat, k: string, t: int, from: int, late: int, rest: seq<Event>)
    requires base <= lo <= hi && 0 <= late && (if lo < hi then from <= t else from == t)
    requires Ordered(rest, t, Range(base, hi, t), late)
    ensures Ordered(Stamps(lo, hi, k, t) + rest, from, Range(base, lo, t), late)
    decreases hi - lo
  {
    if lo == hi {
      assert Stamps(lo, hi, k, t) + rest == rest;
    } else {
      var more := Stamps(lo + 1, hi, k, t) + rest;
      OrderedStamps(base, lo + 1, hi, k, t, t, late, rest);
      OrderedStamp(base, lo, k, t, from, late, more);
      assert Stamps(lo, hi, k, t) + rest == [Stamp(lo, k, t)] + more;
    }
  }

  lemma {:induction false} OrderedDraws(lo: nat, hi: nat, t0: int, t: int, from: int, late: int, rest: seq<Event>)
    requires lo <= hi && t <= t0 + late && (if lo < hi then from <= t else from == t)
    requires Ordered(rest, t, map[], late)
    ensures Ordered(Draws(lo, hi, t) + rest, from, Range(lo, hi, t0), late)
    decreases hi - lo
  {
    if lo == hi {
      assert Draws(lo, hi, t) + rest == rest && Range(lo, hi, t0) == map[];
    } else {
      OrderedDraws(lo + 1, hi, t0, t, t, late, rest);
      var events := Draws(lo, hi, t) + rest;
      assert events[0] == DrawToken(lo, t) && events[1..] == Draws(lo + 1, hi, t) + rest;
      assert StampsAfter(Range(lo, hi, t0), events[0]) == Range(lo + 1, hi, t0);
    }
  }

  /** One key, last stamped at seen, with bucket b, and its requests lo to hi in flight. */
  ghost predicate Shape(s: State, k: string, b: Bucket, lo: nat, hi: nat, seen: int) {
    && s.limits.buckets.Keys == {k} && s.limits.buckets[k].seen == seen
    && s.limits.buckets[k].limiter < |s.limits.limiters| && s.limits.limiters[s.limits.buckets[k].limiter] == b
    && (forall g :: g in s.pending <==> lo <= g < hi)
    && (forall g :: g in s.pending ==> s.pending[g].limiter == s.limits.buckets[k].limiter)
  }

  lemma FirstStamp(s: State, k: string, lo: nat, hi: nat, t: int, rest: seq<Event>, janitor: bool)
    requires lo < hi
    ensures Decisions(s, Stamps(lo, hi, k, t) + rest, janitor) ==
            Decisions(Do(s, Stamp(lo, k, t), janitor), Stamps(lo + 1, hi, k, t) + rest, janitor)
  {
    var events := Stamps(lo, hi, k, t) + rest;
    assert events[0] == Stamp(lo, k, t) && events[1..] == Stamps(lo + 1, hi, k, t) + rest;
  }

  lemma FirstDraw(s: State, lo: nat, hi: nat, t: int, rest: seq<Event>, janitor: bool)
    requires lo < hi
    ensures Decisions(s, Draws(lo, hi, t) + rest, janitor) ==
            [Allowed(s, lo, t)] + Decisions(Do(s, DrawToken(lo, t), janitor), Draws(lo + 1, hi, t) + rest, janitor)
  {
    var events := Draws(lo, hi, t) + rest;
    assert events[0] == DrawToken(lo, t) && events[1..] == Draws(lo + 1, hi, t) + rest;
  }

  lemma FirstSweep(s: State, t: int, rest: seq<Event>, janitor: bool)
    ensures Decisions(s, [Sweep(t)] + rest, janitor) == Decisions(Do(s, Sweep(t), janitor), rest, janitor)
  {
    var events := [Sweep(t)] + rest;
    assert events[0] == Sweep(t) && events[1..] == rest;
  }

  lemma OneDraw(s: State, g: nat, t: int, janitor: bool)
    ensures Decisions(s, [DrawToken(g, t)], janitor) == [Allowed(s, g, t)]
  {
    assert [DrawToken(g, t)][1..] == [];
  }

  lemma StampOne(s: State, k: string, b: Bucket, base: nat, lo: nat, seen: int, t: int, janitor: bool)
    requires Shape(s, k, b, base, lo, seen) && base <= lo
    ensures Shape(Do(s, Stamp(lo, k, t), janitor), k, b, base, lo + 1, t)
  {
  }

  lemma {:induction false} StampAll(s: State, k: string, b: Bucket, base: nat, lo: nat, hi: nat, seen: int, t: int,
                                    rest: seq<Event>, janitor: bool) returns (s': State)
    requires Shape(s, k, b, base, lo, seen) && base <= lo <= hi
    ensures Shape(s', k, b, base, hi, if lo < hi then t else seen)
    ensures Decisions(s, Stamps(lo, hi, k, t) + rest, janitor) == Decisions(s', rest, janitor)
    decreases hi - lo
  {
    if lo == hi {
      s' := s;
      assert Stamps(lo, hi, k, t) + rest == rest;
    } else {
      StampOne(s, k, b, base, lo, seen, t, janitor);
      FirstStamp(s, k, lo, hi, t, rest, janitor);
      s' := StampAll(Do(s, Stamp(lo, k, t), janitor), k, b, base, lo + 1, hi, t, t, rest, janitor);
    }
  }

  function Trues(n: nat): seq<bool> {
    if n == 0 then [] else [true] + Trues(n - 1)
  }

  lemma DrawOne(s: State, k: string, b: Bucket, lo: nat, hi: nat, seen: int, t: int, janitor: bool)
    requires Shape(s, k, b, lo, hi, seen) && lo < hi
    ensures Allowed(s, lo, t) == (Level(b, t) >= TOKEN)
    ensures Level(b, t) >= TOKEN ==> Shape(Do(s, DrawToken(lo, t), janitor), k, Bucket(Level(b, t) - TOKEN, t), lo + 1, hi, seen)
  {
  }

  /** The state after n draws at one time, from request lo on, and what they are told. */
  function AfterDraws(s: State, lo: nat, n: nat, t: int, janitor: bool): State
    decreases n
  {
    if n == 0 then s else AfterDraws(Do(s, DrawToken(lo, t), janitor), lo + 1, n - 1, t, janitor)
  }

  function Verdicts(s: State, lo: nat, n: nat, t: int, janitor: bool): seq<bool>
    decreases n
  {
    if n == 0 then [] else [Allowed(s, lo, t)] + Verdicts(Do(s, DrawToken(lo, t), janitor), lo + 1, n - 1, t, janitor)
  }

  lemma ConsConcat(x: bool, a: seq<bool>, b: seq<bool>)
    ensures [x] + (a + b) == ([x] + a) + b
  {
  }

  lemma {:induction false} DrawsDecide(s: State, lo: nat, n: nat, t: int, rest: seq<Event>, janitor: bool)
    ensures Decisions(s, Draws(lo, lo + n, t) + rest, janitor) ==
            Verdicts(s, lo, n, t, janitor) + Decisions(AfterDraws(s, lo, n, t, janitor), rest, janitor)
    decreases n
  {
    if n == 0 {
      assert Draws(lo, lo, t) + rest == rest;
      assert [] + Decisions(s, rest, janitor) == Decisions(s, rest, janitor);
    } else {
      var s1 := Do(s, DrawToken(lo, t), janitor);
      FirstDraw(s, lo, lo + n, t, rest, janitor);
      DrawsDecide(s1, lo + 1, n - 1, t, rest, janitor);
      ConsConcat(Allowed(s, lo, t), Verdicts(s1, lo + 1, n - 1, t, janitor),
                 Decisions(AfterDraws(s1, lo + 1, n - 1, t, janitor), rest, janitor));
    }
  }

  lemma Paid(n: nat)
    requires n > 0
    ensures n * TOKEN == (n - 1) * TOKEN + TOKEN && (n - 1) * TOKEN >= 0
  {
  }

  /** Draws at the time of the last one, on a bucket that can pay for them. */
  lemma {:induction false} DrawsArePaid(s: State, k: string, b: Bucket, lo: nat, n: nat, last: nat, seen: int, janitor: bool)
    requires Shape(s, k, b, lo, last, seen) && lo + n <= last && n * TOKEN <= b.tokens <= BURST
    ensures Verdicts(s, lo, n, b.last, janitor) == Trues(n)
    ensures Shape(AfterDraws(s, lo, n, b.last, janitor), k, Bucket(b.tokens - n * TOKEN, b.last), lo + n, last, seen)
    decreases n
  {
    if n > 0 {
      Paid(n);
      DrawOne(s, k, b, lo, last, seen, b.last, janitor);
      DrawsArePaid(Do(s, DrawToken(lo, b.last), janitor), k, Bucket(b.tokens - TOKEN, b.last), lo + 1, n - 1, last, seen, janitor);
    }
  }

  /** n draws at one time, on a bucket that can pay for them. */
  lemma DrawAll(s: State, k: string, b: Bucket, lo: nat, n: nat, last: nat, seen: int, t: int,
                rest: seq<Event>, janitor: bool) returns (s': State)
    requires Shape(s, k, b, lo, last, seen) && 0 < n && lo + n <= last && n * TOKEN <= Level(b, t)
    ensures Shape(s', k, Bucket(Level(b, t) - n * TOKEN, t), lo + n, last, seen)
    ensures Decisions(s, Draws(lo, lo + n, t) + rest, janitor) == Trues(n) + Decisions(s', rest, janitor)
  {
    Paid(n);
    s' := AfterDraws(s, lo, n, t, janitor);
    DrawOne(s, k, b, lo, last, seen, t, janitor);
    DrawsArePaid(Do(s, DrawToken(lo, t), janitor), k, Bucket(Level(b, t) - TOKEN, t), lo + 1, n - 1, last, seen, janitor);
    DrawsDecide(s, lo, n, t, rest, janitor);
  }

  /** As many requests as make a burst draw as late as this, and the janitor runs as soon as it may. */
  const TOO_LATE: int := LATEST + 1
  const SWEEP_AT: int := IDLE + 1

  /** n more requests after the sweep, the last draw on its own. */
  function Tail(n: nat, t: int): seq<Event>
    requires n > 0
  {
    Stamps(n, 2 * n, "", t) + (Draws(n, 2 * n - 1, t) + [DrawToken(2 * n - 1, t)])
  }

  function LateRun(n: nat): seq<Event>
    requires n > 0
  {
    Stamps(0, n, "", 0) + (Draws(0, n, TOO_LATE) + ([Sweep(SWEEP_AT)] + Tail(n, SWEEP_AT)))
  }

  lemma {:induction false} DrawsSplit(lo: nat, mid: nat, hi: nat, t: int)
    requires lo <= mid <= hi
    ensures Draws(lo, hi, t) == Draws(lo, mid, t) + Draws(mid, hi, t)
    decreases mid - lo
  {
    if lo < mid { DrawsSplit(lo + 1, mid, hi, t); }
  }

  lemma TailIsOrdered(n: nat, t: int, late: int)
    requires n > 0 && late >= 0
    ensures Ordered(Tail(n, t), t, map[], late)
  {
    var last, end := 2 * n - 1, 2 * n;
    DrawsSplit(n, last, end, t);
    assert Draws(last, end, t) == [DrawToken(last, t)] + Draws(end, end, t);
    var draws := Draws(n, last, t) + [DrawToken(last, t)];
    assert draws == Draws(n, end, t) + [];
    OrderedDraws(n, end, t, t, t, late, []);
    OrderedStamps(n, n, end, "", t, t, late, draws);
    assert Range(n, n, t) == map[];
  }

  lemma LateRunIsOrdered(n: nat, late: int)
    requires n > 0 && late > LATEST
    ensures Ordered(LateRun(n), 0, map[], late)
  {
    TailIsOrdered(n, SWEEP_AT, late);
    var sweep := [Sweep(SWEEP_AT)] + Tail(n, SWEEP_AT);
    assert sweep[0] == Sweep(SWEEP_AT) && sweep[1..] == Tail(n, SWEEP_AT);
    OrderedSweep(sweep, TOO_LATE, late);
    OrderedDraws(0, n, 0, TOO_LATE, 0, late, sweep);
    OrderedStamps(0, 0, n, "", 0, 0, late, Draws(0, n, TOO_LATE) + sweep);
    assert Range(0, 0, 0) == map[];
  }

  lemma OrderedSweep(events: seq<Event>, from: int, late: int)
    requires events != [] && events[0].Sweep? && from <= events[0].now && Ordered(events[1..], events[0].now, map[], late)
    ensures Ordered(events, from, map[], late)
  {
  }

  lemma StampBurst(n: nat, more: seq<Event>, janitor: bool) returns (s: State)
    requires n > 0
    ensures Shape(s, "", Bucket(BURST, 0), 0, n, 0)
    ensures Decisions(Start, Stamps(0, n, "", 0) + more, janitor) == Decisions(s, more, janitor)
  {
    var s1 := Do(Start, Stamp(0, "", 0), janitor);
    assert Shape(s1, "", Bucket(BURST, 0), 0, 1, 0);
    FirstStamp(Start, "", 0, n, 0, more, janitor);
    s := StampAll(s1, "", Bucket(BURST, 0), 0, 1, n, 0, 0, more, janitor);
  }

  /** Up to the sweep both machines do the same: the burst is allowed and the bucket is empty. */
  lemma UpToSweep(n: nat, rest: seq<Event>, janitor: bool) returns (s: State)
    requires n * TOKEN == BURST
    ensures Shape(s, "", Bucket(0, TOO_LATE), n, n, 0)
    ensures Decisions(Start, Stamps(0, n, "", 0) + (Draws(0, n, TOO_LATE) + rest), janitor) ==
            Trues(n) + Decisions(s, rest, janitor)
  {
    var s2 := StampBurst(n, Draws(0, n, TOO_LATE) + rest, janitor);
    assert Level(Bucket(BURST, 0), TOO_LATE) == BURST;
    s := DrawAll(s2, "", Bucket(BURST, 0), 0, n, n, 0, TOO_LATE, rest, janitor);
  }

  lemma FinalDraw(s: State, left: Bucket, last: nat, t: int, janitor: bool)
    requires Shape(s, "", left, last, last + 1, t) && left.last == t && left.tokens <= BURST
    ensures Decisions(s, [DrawToken(last, t)], janitor) == [left.tokens >= TOKEN]
  {
    DrawOne(s, "", left, last, last + 1, t, t, janitor);
    OneDraw(s, last, t, janitor);
    assert Level(left, t) == left.tokens;
  }

  /** m draws and one more, on a bucket that can pay for the m. */
  lemma AllDrawsButOne(s: State, b: Bucket, lo: nat, m: nat, t: int, janitor: bool)
    requires m > 0 && Shape(s, "", b, lo, lo + m + 1, t) && m * TOKEN <= Level(b, t)
    ensures Decisions(s, Draws(lo, lo + m, t) + [DrawToken(lo + m, t)], janitor) ==
            Trues(m) + [Level(b, t) - m * TOKEN >= TOKEN]
  {
    var s3 := DrawAll(s, "", b, lo, m, lo + m + 1, t, t, [DrawToken(lo + m, t)], janitor);
    FinalDraw(s3, Bucket(Level(b, t) - m * TOKEN, t), lo + m, t, janitor);
  }

  /** All stamps and all draws but the last, on a bucket that can pay for them. */
  lemma LastDrawDecides(s: State, b: Bucket, n: nat, lo: nat, seen: int, t: int, janitor: bool)
    requires n > 1 && (lo == n || lo == n + 1) && Shape(s, "", b, n, lo, seen)
    requires (lo > n ==> seen == t) && (n - 1) * TOKEN <= Level(b, t)
    ensures Decisions(s, Stamps(lo, 2 * n, "", t) + (Draws(n, 2 * n - 1, t) + [DrawToken(2 * n - 1, t)]), janitor) ==
            Trues(n - 1) + [Level(b, t) - (n - 1) * TOKEN >= TOKEN]
  {
    var m := n - 1;
    assert 2 * n == n + m + 1 && 2 * n - 1 == n + m;
    var draws := Draws(n, n + m, t) + [DrawToken(n + m, t)];
    var s2 := StampAll(s, "", b, n, lo, 2 * n, seen, t, draws, janitor);
    AllDrawsButOne(s2, b, n, m, t, janitor);
  }

  /** After it a burst is allowed by a new limiter... */
  lemma SweptAllowsAll(s: State, n: nat)
    requires n * TOKEN == BURST && Shape(s, "", Bucket(0, TOO_LATE), n, n, 0)
    ensures Decisions(s, [Sweep(SWEEP_AT)] + Tail(n, SWEEP_AT), true) == Trues(n - 1) + [true]
  {
    var s0 := Do(s, Sweep(SWEEP_AT), true);
    FirstSweep(s, SWEEP_AT, Tail(n, SWEEP_AT), true);
    assert s0.limits.buckets == map[];
    var s1 := Do(s0, Stamp(n, "", SWEEP_AT), true);
    FirstStamp(s0, "", n, 2 * n, SWEEP_AT, Draws(n, 2 * n - 1, SWEEP_AT) + [DrawToken(2 * n - 1, SWEEP_AT)], true);
    assert Shape(s1, "", Bucket(BURST, SWEEP_AT), n, n + 1, SWEEP_AT);
    LastDrawDecides(s1, Bucket(BURST, SWEEP_AT), n, n + 1, SWEEP_AT, SWEEP_AT, true);
  }

  /** ...but the old one is a few billionths short of the last. */
  lemma KeptRefusesOne(s: State, n: nat)
    requires n * TOKEN == BURST && Shape(s, "", Bucket(0, TOO_LATE), n, n, 0)
    ensures Decisions(s, [Sweep(SWEEP_AT)] + Tail(n, SWEEP_AT), false) == Trues(n - 1) + [false]
  {
    FirstSweep(s, SWEEP_AT, Tail(n, SWEEP_AT), false);
    assert Level(Bucket(0, TOO_LATE), SWEEP_AT) == BURST - RATE;
    LastDrawDecides(s, Bucket(0, TOO_LATE), n, n, 0, SWEEP_AT, false);
  }

  lemma LateDrawsAreSeen(n: nat)
    requires n * TOKEN == BURST
    ensures !SameWithJanitor(LateRun(n))
  {
    var rest := [Sweep(SWEEP_AT)] + Tail(n, SWEEP_AT);
    var a := UpToSweep(n, rest, true);
    var b := UpToSweep(n, rest, false);
    SweptAllowsAll(a, n);
    KeptRefusesOne(b, n);
    LastDiffers(Trues(n), Trues(n - 1));
  }

  lemma LastDiffers(a: seq<bool>, b: seq<bool>)
    ensures a + (b + [true]) != a + (b + [false])
  {
    var k := |a| + |b|;
    assert (a + (b + [true]))[k] && !(a + (b + [false]))[k];
  }

  predicate SameWithJanitor(events: seq<Event>) {
    Decisions(Start, events, true) == Decisions(Start, events, false)
  }

  /** Every interleaving in which each request draws within late of its stamp is decided as without sweeps. */
  ghost predicate InvisibleWithin(late: int) {
    forall events, from {:trigger Ordered(events, from, map[], late)} ::
      Ordered(events, from, map[], late) ==> SameWithJanitor(events)
  }

  /** LATEST is the exact bound: the janitor is invisible exactly when no request may take longer. */
  lemma JanitorIsInvisibleIff(late: int)
    ensures InvisibleWithin(late) <==> late <= 598_000_000_001
  {
    assert 60 * TOKEN == BURST;
    if late <= LATEST {
      forall events, from | Ordered(events, from, map[], late) ensures SameWithJanitor(events) {
        OrderedWithin(events, from, map[], late, LATEST);
        JanitorIsInvisible(events, from);
      }
    } else {
      var n: nat :| n * TOKEN == BURST;
      LateRunIsOrdered(n, late);
      LateDrawsAreSeen(n);
    }
  }

  // ---------------------------------------------------------------- what the limit promises

  /** Draws of one key that were allowed. */
  function AllowedCount(s: State, events: seq<Event>, key: string): nat
    decreases |events|
  {
    if events == [] then 0
    else
      var e := events[0];
      (if e.DrawToken? && e.g in s.pending && s.pending[e.g].key == key && Allowed(s, e.g, e.now) then 1 else 0) +
      AllowedCount(Do(s, e, true), events[1..], key)
  }

  /** The time of the last event. */
  function EndOf(events: seq<Event>, from: int): int
    decreases |events|
  {
    if events == [] then from else EndOf(events[1..], events[0].now)
  }

  function LevelOf(m: Limits, key: string, now: int): int {
    if key in m.buckets then Level(BucketOf(m, key), now) else BURST
  }

  lemma LevelRate(b: Bucket, now: int, later: int)
    requires b.last <= now <= later
    ensures Level(b, later) <= Level(b, now) + (later - now) * RATE
  {
  }

  /** An event takes what it allows out of the key's bucket, and time fills it at the rate. */
  lemma LevelStep(s: State, stamps: map<nat, int>, e: Event, from: int, key: string)
    requires Sound(s, stamps, from) && SeenBy(s, from) && CanFollow(e, from, stamps, LATEST)
    ensures var spent := if e.DrawToken? && s.pending[e.g].key == key && Allowed(s, e.g, e.now) then TOKEN else 0;
      LevelOf(Do(s, e, true).limits, key, e.now) + spent <= LevelOf(s.limits, key, from) + (e.now - from) * RATE
  {
    if key in s.limits.buckets { LevelRate(BucketOf(s.limits, key), from, e.now); }
    match e
    case Stamp(_, _, _) =>
      if key in Do(s, e, true).limits.buckets { StampBuckets(s, stamps, e, true, key); }
    case DrawToken(g, _) =>
      assert Holds(s.limits, s.pending[g]);
      if key in s.limits.buckets { DrawBuckets(s, stamps, e, true, key); }
    case Sweep(_) =>
      if key in s.limits.buckets && key !in Do(s, e, true).limits.buckets {
        IdleIsFull(BucketOf(s.limits, key), s.limits.buckets[key].seen, from, e.now);
      }
  }

  lemma LevelIsNotNegative(s: State, stamps: map<nat, int>, from: int, key: string)
    requires Sound(s, stamps, from)
    ensures LevelOf(s.limits, key, from) >= 0
  {
  }

  /** In any stretch of any interleaving a key gets at most its tokens at the start plus thirty a second:
      with the burst of sixty, never more than 60 + 30 t requests in t seconds, sweeps or no sweeps. */
  lemma {:induction false} AllowedAtMostRate(s: State, stamps: map<nat, int>, events: seq<Event>, from: int, key: string)
    requires Sound(s, stamps, from) && SeenBy(s, from) && Ordered(events, from, stamps, LATEST)
    ensures AllowedCount(s, events, key) * TOKEN <= LevelOf(s.limits, key, from) + (EndOf(events, from) - from) * RATE
    decreases |events|
  {
    if events == [] {
      LevelIsNotNegative(s, stamps, from, key);
    } else {
      var e := events[0];
      StepKeepsSound(s, stamps, e, from, true);
      LevelStep(s, stamps, e, from, key);
      AllowedAtMostRate(Do(s, e, true), StampsAfter(stamps, e), events[1..], e.now, key);
    }
  }

  /** So from the start, in whole requests and nanoseconds: at most sixty and thirty a second. */
  lemma SixtyAndThirtyASecond(events: seq<Event>, from: int, key: string)
    requires Ordered(events, from, map[], LATEST)
    ensures AllowedCount(Start, events, key) * 1_000_000_000 <= 60_000_000_000 + 30 * (EndOf(events, from) - from)
  {
    AllowedAtMostRate(Start, map[], events, from, key);
  }

  // ---------------------------------------------------------------- exactly who is refused

  function Min(a: int, b: int): int {
    if a <= b then a else b
  }

  lemma LevelIs(b: Bucket, from: int, now: int)
    requires b.last <= from <= now
    ensures Level(b, now) == Min(BURST, Level(b, from) + (now - from) * RATE)
  {
  }

  lemma LevelOfIs(s: State, stamps: map<nat, int>, from: int, now: int, key: string)
    requires Sound(s, stamps, from) && from <= now
    ensures LevelOf(s.limits, key, now) == Min(BURST, LevelOf(s.limits, key, from) + (now - from) * RATE)
  {
    if key in s.limits.buckets { LevelIs(BucketOf(s.limits, key), from, now); }
  }

  /** What an event takes from the key's bucket. */
  function Spent(s: State, e: Event, key: string): nat {
    if e.DrawToken? && e.g in s.pending && s.pending[e.g].key == key && Allowed(s, e.g, e.now) then 1 else 0
  }

  /** An event takes exactly what it allows out of the bucket as time has filled it. */
  lemma LevelStepIs(s: State, stamps: map<nat, int>, e: Event, from: int, key: string)
    requires Sound(s, stamps, from) && SeenBy(s, from) && CanFollow(e, from, stamps, LATEST)
    ensures LevelOf(Do(s, e, true).limits, key, e.now) ==
            Min(BURST, LevelOf(s.limits, key, from) + (e.now - from) * RATE) - Spent(s, e, key) * TOKEN
  {
    LevelOfIs(s, stamps, from, e.now, key);
    match e
    case Stamp(_, _, _) =>
      if key in Do(s, e, true).limits.buckets { StampBuckets(s, stamps, e, true, key); }
    case DrawToken(g, _) =>
      assert Holds(s.limits, s.pending[g]);
      if key in s.limits.buckets { DrawBuckets(s, stamps, e, true, key); }
    case Sweep(_) =>
      if key in s.limits.buckets && key !in Do(s, e, true).limits.buckets {
        IdleIsFull(BucketOf(s.limits, key), s.limits.buckets[key].seen, from, e.now);
      }
  }

  function StateAfter(s: State, events: seq<Event>): State
    decreases |events|
  {
    if events == [] then s else StateAfter(Do(s, events[0], true), events[1..])
  }

  function StampsOver(stamps: map<nat, int>, events: seq<Event>): map<nat, int>
    decreases |events|
  {
    if events == [] then stamps else StampsOver(StampsAfter(stamps, events[0]), events[1..])
  }

  lemma {:induction false} SoundAfter(s: State, stamps: map<nat, int>, events: seq<Event>, from: int)
    requires Sound(s, stamps, from) && SeenBy(s, from) && Ordered(events, from, stamps, LATEST)
    ensures Sound(StateAfter(s, events), StampsOver(stamps, events), EndOf(events, from))
    ensures SeenBy(StateAfter(s, events), EndOf(events, from)) && EndOf(events, from) >= from
    decreases |events|
  {
    if events != [] {
      StepKeepsSound(s, stamps, events[0], from, true);
      SoundAfter(Do(s, events[0], true), StampsAfter(stamps, events[0]), events[1..], events[0].now);
    }
  }

  /** Every stretch of the events up to now leaves room for one more request of the key: with it there are
      at most sixty, and thirty more for every second since the stretch began. */
  predicate RoomForOne(s: State, events: seq<Event>, key: string, now: int)
    decreases |events|
  {
    events == [] ||
    (&& (AllowedCount(s, events, key) + 1) * 1_000_000_000 <= 60_000_000_000 + 30 * (now - events[0].now)
     && RoomForOne(Do(s, events[0], true), events[1..], key, now))
  }

  lemma CountStep(s: State, events: seq<Event>, key: string)
    requires events != []
    ensures AllowedCount(s, events, key) == Spent(s, events[0], key) + AllowedCount(Do(s, events[0], true), events[1..], key)
  {
  }

  /** The first event of a stretch splits what it leaves: the bucket was full then, or it was not. */
  lemma RoomStep(level: int, from: int, at: int, now: int, spent: int, rest: int)
    requires from <= at <= now
    ensures var after := Min(BURST, level + (at - from) * RATE) - spent * TOKEN;
      after + (now - at) * RATE - rest * TOKEN >= TOKEN <==>
        && level + (now - from) * RATE - (spent + rest) * TOKEN >= TOKEN
        && (spent + rest + 1) * 1_000_000_000 <= 60_000_000_000 + 30 * (now - at)
  {
  }

  lemma {:induction false} RoomDecides(s: State, stamps: map<nat, int>, events: seq<Event>, from: int, now: int, key: string)
    requires Sound(s, stamps, from) && SeenBy(s, from) && Ordered(events, from, stamps, LATEST) && EndOf(events, from) <= now
    ensures LevelOf(StateAfter(s, events).limits, key, now) >= TOKEN <==>
      && LevelOf(s.limits, key, from) + (now - from) * RATE - AllowedCount(s, events, key) * TOKEN >= TOKEN
      && RoomForOne(s, events, key, now)
    decreases |events|
  {
    if events == [] {
      LevelOfIs(s, stamps, from, now, key);
    } else {
      var e, rest := events[0], events[1..];
      var s1, stamps1 := Do(s, e, true), StampsAfter(stamps, e);
      StepKeepsSound(s, stamps, e, from, true);
      SoundAfter(s1, stamps1, rest, e.now);
      LevelStepIs(s, stamps, e, from, key);
      CountStep(s, events, key);
      RoomDecides(s1, stamps1, rest, e.now, now, key);
      RoomStep(LevelOf(s.limits, key, from), from, e.now, now, Spent(s, e, key), AllowedCount(s1, rest, key));
    }
  }

  /** Nobody is refused without cause: in every interleaving, sweeps included, a request is allowed if and
      only if with it no stretch up to now has more than sixty of its key, and thirty more a second. */
  lemma AllowedIffRoom(events: seq<Event>, from: int, g: nat, now: int)
    requires Ordered(events, from, map[], LATEST)
    requires CanFollow(DrawToken(g, now), EndOf(events, from), StampsOver(map[], events), LATEST)
    ensures var s := StateAfter(Start, events);
      g in s.pending && (Allowed(s, g, now) <==> RoomForOne(Start, events, s.pending[g].key, now))
  {
    var s, stamps := StateAfter(Start, events), StampsOver(map[], events);
    SoundAfter(Start, map[], events, from);
    var key := s.pending[g].key;
    assert Holds(s.limits, s.pending[g]);
    DrawBuckets(s, stamps, DrawToken(g, now), true, key);
    RoomDecides(Start, map[], events, from, now, key);
    if RoomForOne(Start, events, key, now) { RoomAtStart(events, from, now, key); }
  }

  /** A full bucket at the start asks for nothing more. */
  lemma RoomAtStart(events: seq<Event>, from: int, now: int, key: string)
    requires Ordered(events, from, map[], LATEST) && EndOf(events, from) <= now && from <= now && RoomForOne(Start, events, key, now)
    ensures LevelOf(Start.limits, key, from) + (now - from) * RATE - AllowedCount(Start, events, key) * TOKEN >= TOKEN
  {
  }
}
