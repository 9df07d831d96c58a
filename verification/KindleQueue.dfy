/** The Send-to-Kindle retry queue (internal/store/kindle.go, KindleSendRetrier in
    internal/scheduler/tasks.go): attempts are counted in the error text itself, and the errors of the
    status writes are dropped, so any write may be lost. */
module KindleQueue {
  import Sequences

  datatype Status = Queued | Sent | Failed

  /** Not columns: tries counts the fetch-and-send attempts made so far, mails those that delivered,
      lost the status writes of this row that failed. */
  datatype Send = Send(status: Status, errorText: string, createdAt: int, tries: nat, mails: nat, lost: nat)

  type Table = map<string, Send>

  const MARK: string := "attempt:"
  const MIN_AGE: int := 30_000_000_000
  const MAX_ATTEMPTS: nat := 3

  // ---------------------------------------------------------------- strings.Count

  /** An occurrence of MARK starts at i. */
  predicate MarkAt(s: string, i: nat) {
    i + |MARK| <= |s| && s[i..i + |MARK|] == MARK
  }

  /** strings.Index: the first occurrence, or the length if there is none. */
  function Index(s: string, from: nat): (i: nat)
    requires from <= |s|
    ensures from <= i <= |s|
    ensures i < |s| ==> MarkAt(s, i)
    ensures forall j :: from <= j < i ==> !MarkAt(s, j)
    decreases |s| - from
  {
    if from == |s| then |s| else if MarkAt(s, from) then from else Index(s, from + 1)
  }

  /** strings.Count: occurrences found left to right, none overlapping an earlier one. */
  function CountFrom(s: string, from: nat): nat
    requires from <= |s|
    decreases |s| - from
  {
    var i := Index(s, from);
    if i == |s| then 0 else 1 + CountFrom(s, i + |MARK|)
  }

  function Count(s: string): nat {
    CountFrom(s, 0)
  }

  /** All positions from on at which MARK occurs. */
  ghost function Marks(s: string, from: nat): set<nat> {
    set i: nat | from <= i < |s| && MarkAt(s, i)
  }

  /** MARK has no border, so no two of its occurrences overlap. */
  lemma MarksNeverOverlap(s: string, i: nat, j: nat)
    requires MarkAt(s, i) && MarkAt(s, j) && i < j
    ensures i + |MARK| <= j
  {
    assert s[j] == s[j..j + |MARK|][0];
    forall p | i < p < i + |MARK| ensures s[p] != MARK[0] {
      assert s[p] == s[i..i + |MARK|][p - i] == MARK[p - i];
    }
  }

  lemma MarksAfterFirst(s: string, from: nat, i: nat)
    requires from <= i && MarkAt(s, i) && forall j :: from <= j < i ==> !MarkAt(s, j)
    ensures Marks(s, from) == {i} + Marks(s, i + |MARK|) && i !in Marks(s, i + |MARK|)
  {
    forall j: nat | j in Marks(s, from) && j != i ensures j in Marks(s, i + |MARK|) {
      MarksNeverOverlap(s, i, j);
    }
  }

  /** The next step of Count, in terms of the positions still to come. */
  lemma MarksFromIndex(s: string, from: nat)
    requires from <= |s|
    ensures var i := Index(s, from);
      if i == |s| then Marks(s, from) == {}
      else i + |MARK| <= |s| && |Marks(s, from)| == 1 + |Marks(s, i + |MARK|)|
  {
    var i := Index(s, from);
    if i == |s| {
      forall j: nat | from <= j < |s| ensures j !in Marks(s, from) { assert !MarkAt(s, j); }
    } else {
      MarksAfterFirst(s, from, i);
    }
  }

  lemma {:induction false} CountIsNumberOfMarks(s: string, from: nat)
    requires from <= |s|
    ensures CountFrom(s, from) == |Marks(s, from)|
    decreases |s| - from
  {
    var i := Index(s, from);
    MarksFromIndex(s, from);
    if i == |s| {
      assert Marks(s, from) == {};
    } else {
      var next := i + |MARK|;
      CountIsNumberOfMarks(s, next);
      assert CountFrom(s, from) == 1 + CountFrom(s, next);
    }
  }

  ghost function Shifted(m: set<nat>, offset: nat): set<nat> {
    set i | i in m :: i + offset
  }

  lemma {:induction false} ShiftKeepsSize(m: set<nat>, offset: nat)
    ensures |Shifted(m, offset)| == |m|
    decreases |m|
  {
    if m != {} {
      var x :| x in m;
      ShiftKeepsSize(m - {x}, offset);
      forall y | y in Shifted(m, offset) ensures y in Shifted(m - {x}, offset) + {x + offset} {
        var i :| i in m && y == i + offset;
        if i != x { assert i in m - {x}; }
      }
      assert Shifted(m, offset) == Shifted(m - {x}, offset) + {x + offset};
    }
  }

  lemma SubsetSize(a: set<nat>, b: set<nat>)
    requires a <= b
    ensures |a| <= |b|
  {
    assert b == a + (b - a);
  }

  lemma MarksOfLeft(a: string, b: string)
    ensures Marks(a, 0) <= Marks(a + b, 0)
  {
    forall i | i in Marks(a, 0) ensures i in Marks(a + b, 0) {
      assert (a + b)[i..i + |MARK|] == a[i..i + |MARK|];
    }
  }

  lemma MarksOfRight(a: string, b: string)
    ensures Shifted(Marks(b, 0), |a|) <= Marks(a + b, 0)
  {
    forall i | i in Shifted(Marks(b, 0), |a|) ensures i in Marks(a + b, 0) {
      assert (a + b)[i..i + |MARK|] == b[i - |a|..i - |a| + |MARK|];
    }
  }

  /** Counting is superadditive: a concatenation keeps the occurrences of both parts. */
  lemma CountSuperadditive(a: string, b: string)
    ensures Count(a + b) >= Count(a) + Count(b)
  {
    var left, right := Marks(a, 0), Shifted(Marks(b, 0), |a|);
    CountIsNumberOfMarks(a, 0);
    CountIsNumberOfMarks(b, 0);
    CountIsNumberOfMarks(a + b, 0);
    ShiftKeepsSize(Marks(b, 0), |a|);
    MarksOfLeft(a, b);
    MarksOfRight(a, b);
    assert left !! right by {
      assert forall i :: i in left ==> i < |a|;
      assert forall i :: i in right ==> i >= |a|;
    }
    SubsetSize(left + right, Marks(a + b, 0));
  }

  // ---------------------------------------------------------------- one row

  /** What the outside world does to an attempt. */
  datatype Outcome = FetchError(text: string) | SendError(text: string) | Delivered

  function Decimal(n: nat): string {
    if n < 10 then [('0' as int + n) as char] else Decimal(n / 10) + [('0' as int + n % 10) as char]
  }

  function AttemptText(n: nat, o: Outcome): string
    requires !o.Delivered?
  {
    " | " + MARK + Decimal(n) + (if o.FetchError? then ":fetch:" else ":send:") + o.text
  }

  /** What the world does to one round of the loop: the outcome of the attempt, if one is made, and
      whether the status write reaches the table. */
  datatype Round = Round(outcome: Outcome, written: bool)

  /** The status and error text a round wants to write. */
  function Verdict(k: Send, o: Outcome): (Status, string) {
    var attempts := 1 + Count(k.errorText);
    if attempts > MAX_ATTEMPTS then (Failed, k.errorText + " | attempt:max")
    else if o.Delivered? then (Sent, "")
    else (Queued, k.errorText + AttemptText(attempts, o))
  }

  /** The attempt itself; the fourth round makes none. */
  function Attempted(k: Send, o: Outcome): Send {
    if 1 + Count(k.errorText) > MAX_ATTEMPTS then k
    else k.(tries := k.tries + 1, mails := if o.Delivered? then k.mails + 1 else k.mails)
  }

  /** One round of the retrier's loop on the row it read. */
  function Tried(k: Send, r: Round): Send {
    var after := Attempted(k, r.outcome);
    if r.written then after.(status := Verdict(k, r.outcome).0, errorText := Verdict(k, r.outcome).1)
    else after.(lost := k.lost + 1)
  }

  /** Rounds with a successful write a row can still take before it leaves the queue. */
  function Remaining(k: Send): nat {
    if k.status != Queued then 0
    else if Count(k.errorText) >= MAX_ATTEMPTS then 1
    else MAX_ATTEMPTS + 1 - Count(k.errorText)
  }

  lemma AttemptTextCounts(n: nat, o: Outcome)
    requires !o.Delivered?
    ensures Count(AttemptText(n, o)) >= 1
  {
    var tail := Decimal(n) + (if o.FetchError? then ":fetch:" else ":send:") + o.text;
    var s := " | " + (MARK + tail);
    assert AttemptText(n, o) == s;
    assert s[3..3 + |MARK|] == MARK;
    CountIsNumberOfMarks(s, 0);
    assert 3 in Marks(s, 0);
    SubsetSize({3}, Marks(s, 0));
  }

  lemma NoteAddsMark(k: Send, o: Outcome)
    requires 1 + Count(k.errorText) <= MAX_ATTEMPTS && !o.Delivered?
    ensures Count(Verdict(k, o).1) >= Count(k.errorText) + 1
  {
    var note := AttemptText(1 + Count(k.errorText), o);
    AttemptTextCounts(1 + Count(k.errorText), o);
    CountSuperadditive(k.errorText, note);
  }

  /** Whatever the error says, a round uses up at least one of the rounds the row has left, or it
      loses a write. */
  lemma RoundUsesUpAttempt(k: Send, r: Round)
    requires k.status == Queued
    ensures r.written ==> Remaining(Tried(k, r)) < Remaining(k) && Tried(k, r).lost == k.lost
    ensures !r.written ==> Remaining(Tried(k, r)) == Remaining(k) && Tried(k, r).lost == k.lost + 1
  {
    if 1 + Count(k.errorText) <= MAX_ATTEMPTS && !r.outcome.Delivered? { NoteAddsMark(k, r.outcome); }
  }

  /** A lost write buys at most one more try and one more mail, and nothing else does. */
  predicate Bounded(k: Send) {
    && k.tries <= MAX_ATTEMPTS + k.lost
    && (k.status == Queued ==> k.tries <= Count(k.errorText) + k.lost)
    && k.mails <= k.lost + (if k.status == Sent then 1 else 0)
    && (k.status == Sent ==> k.mails >= 1 && k.errorText == "")
    && (k.status == Failed ==> Count(k.errorText) > MAX_ATTEMPTS)
  }

  lemma RoundKeepsBounded(k: Send, r: Round)
    requires k.status == Queued && Bounded(k)
    ensures Bounded(Tried(k, r))
  {
    if 1 + Count(k.errorText) > MAX_ATTEMPTS {
      ClosingNoteCounts();
      CountSuperadditive(k.errorText, " | attempt:max");
    } else if !r.outcome.Delivered? {
      NoteAddsMark(k, r.outcome);
    }
  }

  lemma ClosingNoteCounts()
    ensures Count(" | attempt:max") >= 1
  {
    var s := " | attempt:max";
    assert s[3..3 + |MARK|] == MARK;
    CountIsNumberOfMarks(s, 0);
    assert 3 in Marks(s, 0);
    SubsetSize({3}, Marks(s, 0));
  }

  // ---------------------------------------------------------------- one tick

  predicate Due(t: Table, id: string, now: int) {
    id in t && t[id].status == Queued && t[id].createdAt < now - MIN_AGE
  }

  /** What ListQueuedKindleSends can return: due rows, oldest first, at most a batch, and all of them
      if they fit. */
  ghost predicate IsBatch(t: Table, list: seq<string>, now: int) {
    && |list| <= 10
    && (forall i :: 0 <= i < |list| ==> Due(t, list[i], now))
    && (forall i, j :: 0 <= i < j < |list| ==> list[i] != list[j] && t[list[i]].createdAt <= t[list[j]].createdAt)
    && (forall id :: Due(t, id, now) && id !in list ==>
          |list| == 10 && forall i :: 0 <= i < |list| ==> t[list[i]].createdAt <= t[id].createdAt)
  }

  /** The world's answer to every round of a tick. */
  type World = string -> Round

  function AfterList(t: Table, list: seq<string>, world: World): Table
    decreases |list|
  {
    if list == [] then t
    else AfterList(if list[0] in t then t[list[0] := Tried(t[list[0]], world(list[0]))] else t, list[1..], world)
  }

  /** Writes lost in one tick. */
  function LostIn(list: seq<string>, world: World): nat {
    if list == [] then 0 else (if world(list[0]).written then 0 else 1) + LostIn(list[1..], world)
  }

  class Queue {
    var rows: Table

    constructor ()
      ensures rows == map[]
    {
      rows := map[];
    }

    /** A missing row is no error; dbOk says whether the statement succeeds.  A failure is counted. */
    method UpdateKindleSendStatus(id: string, status: Status, errorText: string, dbOk: bool) returns (ok: bool)
      modifies this
      ensures ok == dbOk
      ensures rows ==
        if id !in old(rows) then old(rows)
        else if ok then old(rows)[id := old(rows)[id].(status := status, errorText := errorText)]
        else old(rows)[id := old(rows)[id].(lost := old(rows)[id].lost + 1)]
    {
      if id in rows {
        rows := rows[id := if dbOk then rows[id].(status := status, errorText := errorText)
                           else rows[id].(lost := rows[id].lost + 1)];
      }
      return dbOk;
    }

    method InsertKindleSend(id: string, now: int, dbOk: bool) returns (ok: bool)
      modifies this
      ensures ok <==> dbOk && id !in old(rows)
      ensures rows == if ok then old(rows)[id := Fresh(now)] else old(rows)
    {
      if !dbOk || id in rows { return false; }
      rows := rows[id := Fresh(now)];
      return true;
    }

    /** KindleSendRetrier over the rows it listed; the error of every write is dropped. */
    method Retry(queued: seq<string>, world: World)
      requires forall i :: 0 <= i < |queued| ==> queued[i] in rows
      requires forall i, j :: 0 <= i < j < |queued| ==> queued[i] != queued[j]
      modifies this
      ensures rows == AfterList(old(rows), queued, world)
    {
      ghost var start := rows;
      var i := 0;
      assert queued[0..] == queued;
      while i < |queued|
        invariant 0 <= i <= |queued|
        invariant rows.Keys == start.Keys
        invariant AfterList(rows, queued[i..], world) == AfterList(start, queued, world)
      {
        var id := queued[i];
        ghost var before := rows;
        assert queued[i..][0] == id && queued[i..][1..] == queued[i + 1..];
        RetryOne(id, world(id));
        assert rows == before[id := Tried(before[id], world(id))];
        i := i + 1;
      }
    }

    /** The body of the loop. */
    method RetryOne(id: string, round: Round)
      requires id in rows
      modifies this
      ensures rows == old(rows)[id := Tried(old(rows)[id], round)]
    {
      var k := rows[id];
      var attempts := 1 + Count(k.errorText);
      if attempts > MAX_ATTEMPTS {
        var _ := UpdateKindleSendStatus(id, Failed, k.errorText + " | attempt:max", round.written);
        return;
      }
      rows := rows[id := rows[id].(tries := rows[id].tries + 1)];
      match round.outcome {
        case FetchError(_) =>
          var _ := UpdateKindleSendStatus(id, Queued, k.errorText + AttemptText(attempts, round.outcome), round.written);
        case SendError(_) =>
          var _ := UpdateKindleSendStatus(id, Queued, k.errorText + AttemptText(attempts, round.outcome), round.written);
        case Delivered =>
          rows := rows[id := rows[id].(mails := rows[id].mails + 1)];
          var _ := UpdateKindleSendStatus(id, Sent, "", round.written);
      }
    }
  }

  function Fresh(now: int): Send {
    Send(Queued, "", now, 0, 0, 0)
  }

  // ---------------------------------------------------------------- the work left

  /** Rounds left in the whole queue. */
  ghost function Work(t: Table): nat {
    if t == map[] then 0
    else var id :| id in t; Remaining(t[id]) + Work(t - {id})
  }

  lemma {:induction false} WorkRemove(t: Table, id: string)
    requires id in t
    ensures Work(t) == Remaining(t[id]) + Work(t - {id})
    decreases |t|
  {
    var first :| first in t && Work(t) == Remaining(t[first]) + Work(t - {first});
    if first != id {
      WorkRemove(t - {first}, id);
      WorkRemove(t - {id}, first);
      assert t - {first} - {id} == t - {id} - {first};
    }
  }

  lemma WorkUpdate(t: Table, id: string, k: Send)
    requires id in t
    ensures Work(t[id := k]) == Work(t) - Remaining(t[id]) + Remaining(k)
  {
    WorkRemove(t, id);
    WorkRemove(t[id := k], id);
    assert t[id := k] - {id} == t - {id};
  }

  predicate AllBounded(t: Table) {
    forall id :: id in t ==> Bounded(t[id])
  }

  predicate AllQueued(t: Table, list: seq<string>) {
    && (forall i :: 0 <= i < |list| ==> list[i] in t && t[list[i]].status == Queued)
    && (forall i, j :: 0 <= i < j < |list| ==> list[i] != list[j])
  }

  /** What one tick leaves of every other row, and of every row's age. */
  predicate TickFrame(t: Table, t': Table, list: seq<string>) {
    && t'.Keys == t.Keys
    && (forall id :: id in t && (id !in list || t[id].status != Queued) ==> t'[id] == t[id])
    && (forall id :: id in t ==> t'[id].createdAt == t[id].createdAt && (t'[id].status == Queued ==> t[id].status == Queued))
  }

  /** The first row of the list is done; the others are still queued, and none of them is that row. */
  lemma FirstRound(t: Table, list: seq<string>, round: Round)
    requires AllQueued(t, list) && list != []
    ensures AllQueued(t[list[0] := Tried(t[list[0]], round)], list[1..]) && list[0] !in list[1..]
  {
    var rest := list[1..];
    forall i | 0 <= i < |rest| ensures rest[i] == list[i + 1] {}
  }

  lemma {:induction false} TickKeepsBounded(t: Table, list: seq<string>, world: World)
    requires AllQueued(t, list) && AllBounded(t)
    ensures AllBounded(AfterList(t, list, world))
    decreases |list|
  {
    if list != [] {
      var id := list[0];
      FirstRound(t, list, world(id));
      RoundKeepsBounded(t[id], world(id));
      TickKeepsBounded(t[id := Tried(t[id], world(id))], list[1..], world);
    }
  }

  lemma {:induction false} TickKeepsFrame(t: Table, list: seq<string>, world: World)
    requires AllQueued(t, list)
    ensures TickFrame(t, AfterList(t, list, world), list)
    decreases |list|
  {
    if list != [] {
      var id := list[0];
      FirstRound(t, list, world(id));
      assert list == [id] + list[1..];
      TickKeepsFrame(t[id := Tried(t[id], world(id))], list[1..], world);
    }
  }

  lemma {:induction false} TickUsesUpWork(t: Table, list: seq<string>, world: World)
    requires AllQueued(t, list)
    ensures Work(AfterList(t, list, world)) + |list| <= Work(t) + LostIn(list, world)
    decreases |list|
  {
    if list != [] {
      var id := list[0];
      FirstRound(t, list, world(id));
      RoundUsesUpAttempt(t[id], world(id));
      WorkUpdate(t, id, Tried(t[id], world(id)));
      TickUsesUpWork(t[id := Tried(t[id], world(id))], list[1..], world);
    }
  }

  /** One tick: every row processed uses up a round of work or loses a write, rows outside the list and
      rows no longer queued are untouched, and the bounds on tries and mails are kept. */
  lemma TickDoesWork(t: Table, list: seq<string>, world: World)
    requires AllQueued(t, list) && AllBounded(t)
    ensures var t' := AfterList(t, list, world);
      && TickFrame(t, t', list)
      && Work(t') + |list| <= Work(t) + LostIn(list, world)
      && AllBounded(t')
  {
    TickKeepsFrame(t, list, world);
    TickUsesUpWork(t, list, world);
    TickKeepsBounded(t, list, world);
  }

  // ---------------------------------------------------------------- runs

  datatype Event =
    | Tick(now: int, list: seq<string>, world: World)
    | Enqueue(id: string, now: int)

  ghost predicate CanDo(t: Table, e: Event) {
    match e
    case Tick(now, list, _) => IsBatch(t, list, now)
    case Enqueue(id, _) => id !in t
  }

  function Do(t: Table, e: Event): Table {
    match e
    case Tick(_, list, world) => AfterList(t, list, world)
    case Enqueue(id, now) => t[id := Fresh(now)]
  }

  ghost predicate IsRun(t: Table, run: seq<Event>)
    decreases |run|
  {
    run == [] || (CanDo(t, run[0]) && IsRun(Do(t, run[0]), run[1..]))
  }

  ghost function Final(t: Table, run: seq<Event>): Table
    requires IsRun(t, run)
    decreases |run|
  {
    if run == [] then t else Final(Do(t, run[0]), run[1..])
  }

  lemma BatchIsQueued(t: Table, list: seq<string>, now: int)
    requires IsBatch(t, list, now)
    ensures AllQueued(t, list)
  {
    forall i | 0 <= i < |list| ensures list[i] in t && t[list[i]].status == Queued { assert Due(t, list[i], now); }
  }

  lemma StepKeepsBounded(t: Table, e: Event)
    requires AllBounded(t) && CanDo(t, e)
    ensures AllBounded(Do(t, e)) && t.Keys <= Do(t, e).Keys
    ensures forall id :: id in t && t[id].status != Queued ==> Do(t, e)[id] == t[id]
  {
    if e.Tick? {
      BatchIsQueued(t, e.list, e.now);
      TickDoesWork(t, e.list, e.world);
    }
  }

  /** In every run, with rows coming in, any outcome of any attempt, any error text and any lost write:
      a row is tried at most three times more often than its writes are lost, mailed at most once more
      often, and never changed again once it is sent or failed.  It is sent only if the book was mailed, and
      failed only with more than three marks on record. */
  lemma {:induction false} TriesAreBounded(t: Table, run: seq<Event>, id: string)
    requires AllBounded(t) && IsRun(t, run) && id in Final(t, run)
    ensures var k := Final(t, run)[id];
      && k.tries <= 3 + k.lost && k.mails <= 1 + k.lost
      && (k.status == Sent ==> k.mails >= 1 && k.errorText == "") && (k.status == Failed ==> Count(k.errorText) >= 4)
    ensures id in t && t[id].status != Queued ==> Final(t, run)[id] == t[id]
    decreases |run|
  {
    if run == [] {
      assert Bounded(t[id]);
    } else {
      StepKeepsBounded(t, run[0]);
      TriesAreBounded(Do(t, run[0]), run[1..], id);
    }
  }

  /** Every row in the queue is old enough to be listed throughout the run, and the run has no new rows. */
  predicate AgedTicks(t: Table, run: seq<Event>) {
    forall i :: 0 <= i < |run| ==> run[i].Tick? && AllAged(t, run[i].now)
  }

  predicate AllAged(t: Table, now: int) {
    forall id :: id in t ==> t[id].createdAt < now - 30_000_000_000
  }

  predicate Empty(t: Table) {
    forall id :: id in t ==> t[id].status != Queued
  }

  /** Writes lost in a run. */
  function LostOver(run: seq<Event>): nat {
    if run == [] then 0 else (if run[0].Tick? then LostIn(run[0].list, run[0].world) else 0) + LostOver(run[1..])
  }

  /** A tick on an aged queue that is not empty has something to do. */
  lemma TickWorksUnlessEmpty(t: Table, e: Event)
    requires AllBounded(t) && e.Tick? && CanDo(t, e) && AllAged(t, e.now) && !Empty(t)
    ensures Work(Do(t, e)) < Work(t) + LostIn(e.list, e.world)
    ensures TickFrame(t, Do(t, e), e.list) && AllBounded(Do(t, e))
  {
    var id :| id in t && t[id].status == Queued;
    assert Due(t, id, e.now);
    BatchIsQueued(t, e.list, e.now);
    TickDoesWork(t, e.list, e.world);
    assert |e.list| >= 1;
  }

  lemma AgedAfter(t: Table, run: seq<Event>)
    requires AgedTicks(t, run) && run != [] && TickFrame(t, Do(t, run[0]), run[0].list)
    ensures AgedTicks(Do(t, run[0]), run[1..])
  {
    forall i | 0 <= i < |run| - 1 ensures run[1..][i].Tick? && AllAged(Do(t, run[0]), run[1..][i].now) {
      assert run[1..][i] == run[i + 1] && AllAged(t, run[i + 1].now);
    }
  }

  lemma EmptyIsKept(t: Table, e: Event)
    requires e.Tick? && CanDo(t, e) && Empty(t)
    ensures e.list == [] && Do(t, e) == t
  {
    if e.list != [] { ListedIsQueued(t, e.list, e.now); }
  }

  lemma ListedIsQueued(t: Table, list: seq<string>, now: int)
    requires IsBatch(t, list, now) && list != []
    ensures !Empty(t)
  {
    assert Due(t, list[0], now);
  }

  /** The queue empties: without new rows and once every row is aged, as many ticks as there are rounds
      left and writes lost always suffice, whatever else the world does. */
  lemma {:induction false} QueueEmpties(t: Table, run: seq<Event>)
    requires AllBounded(t) && IsRun(t, run) && AgedTicks(t, run) && |run| >= Work(t) + LostOver(run)
    ensures Empty(Final(t, run))
    decreases |run|
  {
    if run == [] {
      NoWorkMeansEmpty(t);
    } else if Empty(t) {
      EmptyIsKept(t, run[0]);
      EmptyStays(t, run);
    } else {
      assert AllAged(t, run[0].now);
      TickWorksUnlessEmpty(t, run[0]);
      AgedAfter(t, run);
      QueueEmpties(Do(t, run[0]), run[1..]);
    }
  }

  lemma {:induction false} EmptyStays(t: Table, run: seq<Event>)
    requires IsRun(t, run) && Empty(t) && forall i :: 0 <= i < |run| ==> run[i].Tick?
    ensures Final(t, run) == t
    decreases |run|
  {
    if run != [] {
      EmptyIsKept(t, run[0]);
      forall i | 0 <= i < |run| - 1 ensures run[1..][i] == run[i + 1] {}
      EmptyStays(t, run[1..]);
    }
  }

  lemma NoWorkMeansEmpty(t: Table)
    requires Work(t) == 0
    ensures Empty(t)
  {
    forall id | id in t ensures t[id].status != Queued { WorkRemove(t, id); }
  }

  // ---------------------------------------------------------------- the batch

  /** The rows that a tick at this time could take up: queued for more than thirty seconds. */
  function DueRows(t: Table, now: int): set<string> {
    set id | id in t && t[id].status == Queued && now - t[id].createdAt > 30_000_000_000
  }

  /** A tick takes up the ten rows that have waited longest, or all of them if there are fewer. */
  lemma BatchIsTheOldest(t: Table, list: seq<string>, now: int)
    requires IsBatch(t, list, now)
    ensures |list| == if |DueRows(t, now)| < 10 then |DueRows(t, now)| else 10
    ensures forall i, id :: 0 <= i < |list| && id in DueRows(t, now) ==>
      list[i] in DueRows(t, now) && (id in list || t[list[i]].createdAt <= t[id].createdAt)
    ensures forall i, j :: 0 <= i < j < |list| && list[i] in t && list[j] in t ==> t[list[i]].createdAt <= t[list[j]].createdAt
  {
    forall id ensures id in DueRows(t, now) <==> Due(t, id, now) {}
    forall i | 0 <= i < |list| ensures list[i] in DueRows(t, now) { assert Due(t, list[i], now); }
    Sequences.DistinctSize(list, DueRows(t, now));
  }

  lemma {:induction false} OldestOf(t: Table, ids: set<string>) returns (first: string)
    requires ids != {} && ids <= t.Keys
    ensures first in ids && forall id :: id in ids ==> t[first].createdAt <= t[id].createdAt
    decreases |ids|
  {
    first :| first in ids;
    if ids != {first} {
      var best := OldestOf(t, ids - {first});
      if t[best].createdAt < t[first].createdAt { first := best; }
    }
  }

  lemma {:induction false} OldestFirst(t: Table, ids: set<string>, n: nat) returns (list: seq<string>)
    requires ids <= t.Keys
    ensures |list| <= n && (forall i :: 0 <= i < |list| ==> list[i] in ids)
    ensures forall i, j :: 0 <= i < j < |list| ==> list[i] != list[j] && t[list[i]].createdAt <= t[list[j]].createdAt
    ensures forall id :: id in ids && id !in list ==> |list| == n && forall i :: 0 <= i < |list| ==> t[list[i]].createdAt <= t[id].createdAt
    decreases n
  {
    list := [];
    if n > 0 && ids != {} {
      var first := OldestOf(t, ids);
      var rest := OldestFirst(t, ids - {first}, n - 1);
      list := [first] + rest;
    }
  }

  /** There is such a batch at every time. */
  lemma SomeBatch(t: Table, now: int) returns (list: seq<string>)
    ensures IsBatch(t, list, now)
  {
    var ids := set id | Due(t, id, now) && id in t;
    list := OldestFirst(t, ids, 10);
  }

  ghost function LostAt(list: seq<string>, world: World): set<nat> {
    set i: nat | i < |list| && !world(list[i]).written
  }

  /** The writes lost in a tick, counted. */
  lemma {:induction false} LostInIs(list: seq<string>, world: World)
    ensures LostIn(list, world) == |LostAt(list, world)|
  {
    if list != [] {
      var rest, all := list[1..], LostAt(list, world);
      var later := Shifted(LostAt(rest, world), 1);
      LostInIs(rest, world);
      ShiftKeepsSize(LostAt(rest, world), 1);
      forall i | i in all && i > 0 ensures i in later { assert list[i] == rest[i - 1] && i - 1 in LostAt(rest, world); }
      forall i | i in later ensures i in all && i > 0 { assert list[i] == rest[i - 1]; }
      assert all == later + if world(list[0]).written then {} else {0};
    }
  }

  // ---------------------------------------------------------------- the bound is reached

  /** Occurrences of the first letter of MARK, an upper bound of its own. */
  function Letters(s: string): nat {
    if s == "" then 0 else (if s[0] == MARK[0] then 1 else 0) + Letters(s[1..])
  }

  lemma {:induction false} LettersConcat(a: string, b: string)
    ensures Letters(a + b) == Letters(a) + Letters(b)
  {
    if a == "" {
      assert a + b == b;
    } else {
      assert (a + b)[1..] == a[1..] + b;
      LettersConcat(a[1..], b);
    }
  }

  lemma LettersSplit(s: string, i: nat, j: nat)
    requires i <= j <= |s|
    ensures Letters(s[i..]) == Letters(s[i..j]) + Letters(s[j..])
  {
    LettersConcat(s[i..j], s[j..]);
    assert s[i..] == s[i..j] + s[j..];
  }

  /** An occurrence of MARK brings its first letter. */
  lemma MarkHasLetter(s: string, i: nat)
    requires MarkAt(s, i)
    ensures Letters(s[i..]) >= 1 + Letters(s[i + |MARK|..])
  {
    LettersSplit(s, i, i + |MARK|);
    assert s[i..i + |MARK|][0] == MARK[0];
  }

  lemma {:induction false} CountAtMostLetters(s: string, from: nat)
    requires from <= |s|
    ensures CountFrom(s, from) <= Letters(s[from..])
    decreases |s| - from
  {
    var i := Index(s, from);
    if i == |s| {
      assert CountFrom(s, from) == 0;
    } else {
      var next := i + |MARK|;
      CountAtMostLetters(s, next);
      assert CountFrom(s, from) == 1 + CountFrom(s, next);
      LettersSplit(s, from, i);
      MarkHasLetter(s, i);
    }
  }

  lemma {:induction false} NoLetters(s: string)
    requires forall i :: 0 <= i < |s| ==> s[i] != MARK[0]
    ensures Letters(s) == 0
  {
    if s != "" { NoLetters(s[1..]); }
  }

  /** The note of an attempt whose error has not even the first letter of the mark. */
  lemma PlainNoteHasOneLetter(n: nat, o: Outcome)
    requires n < 10 && !o.Delivered? && Plain(o.text)
    ensures Letters(AttemptText(n, o)) == 1
  {
    var tail := TailOf(n, o);
    TailIsPlain(n, o);
    NoLetters(tail);
    MarkedHasOneLetter(tail);
    assert AttemptText(n, o) == " | " + (MARK + tail);
  }

  lemma MarkedHasOneLetter(tail: string)
    requires Letters(tail) == 0
    ensures Letters(" | " + (MARK + tail)) == 1
  {
    NoLetters(" | ");
    NoLetters(MARK[1..]);
    LettersConcat(MARK, tail);
    LettersConcat(" | ", MARK + tail);
  }

  function TailOf(n: nat, o: Outcome): string
    requires !o.Delivered?
  {
    Decimal(n) + (if o.FetchError? then ":fetch:" else ":send:") + o.text
  }

  lemma TailIsPlain(n: nat, o: Outcome)
    requires n < 10 && !o.Delivered? && Plain(o.text)
    ensures Plain(TailOf(n, o))
  {
    assert Plain(Decimal(n)) && Plain(":fetch:") && Plain(":send:");
  }

  predicate Plain(text: string) {
    forall i :: 0 <= i < |text| ==> text[i] != 'a'
  }

  /** A fresh row after so many lost deliveries and so many silent failures on record. */
  ghost predicate Stage(t: Table, id: string, now: int, lost: nat, failures: nat) {
    && t.Keys == {id}
    && t[id].status == Queued && t[id].createdAt == now
    && t[id].tries == lost + failures && t[id].mails == lost && t[id].lost == lost
    && Letters(t[id].errorText) == failures
  }

  function Again(id: string, now: int, o: Outcome, written: bool): Event {
    Tick(now + MIN_AGE + 1, [id], _ => Round(o, written))
  }

  lemma StageTick(t: Table, id: string, now: int, lost: nat, failures: nat, o: Outcome, written: bool)
    requires Stage(t, id, now, lost, failures) && failures < MAX_ATTEMPTS
    ensures CanDo(t, Again(id, now, o, written))
    ensures Do(t, Again(id, now, o, written)) == t[id := Tried(t[id], Round(o, written))]
    ensures Count(t[id].errorText) <= failures
  {
    var e := Again(id, now, o, written);
    CountAtMostLetters(t[id].errorText, 0);
    assert t[id].errorText[0..] == t[id].errorText;
    assert Due(t, id, e.now);
    assert e.list[1..] == [] && e.world(id) == Round(o, written);
    assert AfterList(t, e.list, e.world) == AfterList(t[id := Tried(t[id], e.world(id))], e.list[1..], e.world);
  }

  lemma {:induction false} LoseDeliveries(t: Table, id: string, now: int, lost: nat, n: nat) returns (run: seq<Event>)
    requires Stage(t, id, now, lost, 0)
    ensures IsRun(t, run) && Stage(Final(t, run), id, now, lost + n, 0)
    decreases n
  {
    if n == 0 {
      run := [];
    } else {
      var e := Again(id, now, Delivered, false);
      StageTick(t, id, now, lost, 0, Delivered, false);
      var rest := LoseDeliveries(Do(t, e), id, now, lost + 1, n - 1);
      run := [e] + rest;
      assert run[1..] == rest;
    }
  }

  /** The third attempt may go through: then both bounds are met. */
  lemma {:induction false} FailTwiceThenDeliver(t: Table, id: string, now: int, lost: nat, failures: nat) returns (run: seq<Event>)
    requires Stage(t, id, now, lost, failures) && failures < MAX_ATTEMPTS
    ensures IsRun(t, run) && id in Final(t, run)
    ensures var k := Final(t, run)[id]; k.lost == lost && k.tries == lost + MAX_ATTEMPTS && k.mails == lost + 1 && k.status == Sent
    decreases MAX_ATTEMPTS - failures
  {
    if failures == MAX_ATTEMPTS - 1 {
      StageTick(t, id, now, lost, failures, Delivered, true);
      run := [Again(id, now, Delivered, true)];
      assert run[1..] == [];
    } else {
      var o := FetchError("");
      var e := Again(id, now, o, true);
      StageTick(t, id, now, lost, failures, o, true);
      var note := AttemptText(1 + Count(t[id].errorText), o);
      PlainNoteHasOneLetter(1 + Count(t[id].errorText), o);
      LettersConcat(t[id].errorText, note);
      var rest := FailTwiceThenDeliver(Do(t, e), id, now, lost, failures + 1);
      run := [e] + rest;
      assert run[1..] == rest;
    }
  }

  lemma {:induction false} Concat(t: Table, run: seq<Event>, more: seq<Event>)
    requires IsRun(t, run) && IsRun(Final(t, run), more)
    ensures IsRun(t, run + more) && Final(t, run + more) == Final(Final(t, run), more)
    decreases |run|
  {
    if run == [] {
      assert run + more == more;
    } else {
      assert (run + more)[0] == run[0] && (run + more)[1..] == run[1..] + more;
      Concat(Do(t, run[0]), run[1..], more);
    }
  }

  /** The bounds are exact: for every number of lost writes some run tries the row three times more and
      mails the book once more, so the number of mails has no bound of its own. */
  lemma BoundsAreReached(id: string, now: int, lost: nat) returns (run: seq<Event>)
    ensures IsRun(map[], run) && id in Final(map[], run)
    ensures var k := Final(map[], run)[id]; k.lost == lost && k.tries == 3 + lost && k.mails == 1 + lost && k.status == Sent
  {
    var e := Enqueue(id, now);
    var t := Do(map[], e);
    run := LoseDeliveries(t, id, now, 0, lost);
    var more := FailTwiceThenDeliver(Final(t, run), id, now, lost, 0);
    Concat(t, run, more);
    var rest := run + more;
    run := [e] + rest;
    assert run[1..] == rest;
  }

  // ---------------------------------------------------------------- three failures

  /** A queued row with n plain notes on record, and a mark each. */
  ghost predicate Noted(k: Send, now: int, n: nat) {
    && k.status == Queued && k.createdAt == now && k.mails == 0 && k.lost == 0 && k.tries == n
    && Count(k.errorText) == n == Letters(k.errorText)
  }

  lemma LoneTick(k: Send, id: string, now: int, o: Outcome)
    requires k.status == Queued && k.createdAt == now
    ensures CanDo(map[id := k], Again(id, now, o, true))
    ensures Do(map[id := k], Again(id, now, o, true)) == map[id := Tried(k, Round(o, true))]
  {
    var t, e, k' := map[id := k], Again(id, now, o, true), Tried(k, Round(o, true));
    assert Due(t, id, e.now);
    assert e.list[1..] == [] && e.world(id) == Round(o, true);
    assert AfterList(t, e.list, e.world) == AfterList(t[id := k'], e.list[1..], e.world);
    assert t[id := k'] == map[id := k'];
  }

  /** What the note of the n-th attempt says. */
  function Note(n: nat, o: Outcome): string
    requires !o.Delivered?
  {
    " | attempt:" + Decimal(n) + (if o.FetchError? then ":fetch:" else ":send:") + o.text
  }

  lemma NoteIs(n: nat, o: Outcome)
    requires !o.Delivered?
    ensures AttemptText(n, o) == Note(n, o)
  {
    assert " | " + MARK == " | attempt:";
  }

  lemma OneMoreMark(text: string, note: string)
    requires Count(text) == Letters(text) && Count(note) >= 1 && Letters(note) == 1
    ensures Count(text + note) == Letters(text + note) == Count(text) + 1
  {
    CountSuperadditive(text, note);
    LettersConcat(text, note);
    CountAtMostLetters(text + note, 0);
    assert (text + note)[0..] == text + note;
  }

  function WithNote(k: Send, n: nat, o: Outcome): Send
    requires !o.Delivered?
  {
    k.(tries := n, errorText := k.errorText + Note(n, o))
  }

  lemma NoteIsRecorded(k: Send, now: int, n: nat, o: Outcome)
    requires Noted(k, now, n) && n < 3 && !o.Delivered? && Plain(o.text)
    ensures Tried(k, Round(o, true)) == WithNote(k, n + 1, o) && Noted(WithNote(k, n + 1, o), now, n + 1)
  {
    NoteIs(n + 1, o);
    AttemptTextCounts(n + 1, o);
    PlainNoteHasOneLetter(n + 1, o);
    OneMoreMark(k.errorText, Note(n + 1, o));
  }

  lemma FailTick(k: Send, id: string, now: int, n: nat, o: Outcome)
    requires Noted(k, now, n) && n < 3 && !o.Delivered? && Plain(o.text)
    ensures CanDo(map[id := k], Again(id, now, o, true))
    ensures Do(map[id := k], Again(id, now, o, true)) == map[id := WithNote(k, n + 1, o)] && Noted(WithNote(k, n + 1, o), now, n + 1)
  {
    LoneTick(k, id, now, o);
    NoteIsRecorded(k, now, n, o);
  }

  /** A run of ticks on the one row, one for each outcome. */
  function Ticks(id: string, now: int, os: seq<Outcome>): (run: seq<Event>)
    ensures |run| == |os| && forall i :: 0 <= i < |os| ==> run[i] == Again(id, now, os[i], true)
  {
    seq(|os|, i requires 0 <= i < |os| => Again(id, now, os[i], true))
  }

  lemma NextTick(k: Send, id: string, now: int, os: seq<Outcome>, k': Send)
    requires os != [] && CanDo(map[id := k], Again(id, now, os[0], true))
    requires Do(map[id := k], Again(id, now, os[0], true)) == map[id := k'] && IsRun(map[id := k'], Ticks(id, now, os[1..]))
    ensures IsRun(map[id := k], Ticks(id, now, os)) && Final(map[id := k], Ticks(id, now, os)) == Final(map[id := k'], Ticks(id, now, os[1..]))
  {
    assert Ticks(id, now, os)[1..] == Ticks(id, now, os[1..]);
  }

  lemma LastTick(k: Send, id: string, now: int, any: Outcome)
    requires Noted(k, now, 3)
    ensures IsRun(map[id := k], Ticks(id, now, [any]))
    ensures Final(map[id := k], Ticks(id, now, [any])) == map[id := k.(status := Failed, errorText := k.errorText + " | attempt:max")]
  {
    var k' := k.(status := Failed, errorText := k.errorText + " | attempt:max");
    LoneTick(k, id, now, any);
    assert Tried(k, Round(any, true)) == k';
    assert [any][1..] == [] && Ticks(id, now, []) == [];
    NextTick(k, id, now, [any], k');
  }

  /** The row a send starts as, with the first so many of the notes. */
  lemma FailuresRecorded(k: Send, id: string, now: int, n: nat, os: seq<Outcome>)
    requires Noted(k, now, n) && n <= 3 && n + |os| == 4 && forall i :: 0 <= i < |os| - 1 ==> !os[i].Delivered? && Plain(os[i].text)
    ensures IsRun(map[id := k], Ticks(id, now, os))
    ensures Final(map[id := k], Ticks(id, now, os)) ==
            map[id := k.(status := Failed, tries := 3, errorText := Notes(k.errorText, n, os) + " | attempt:max")]
    decreases |os|
  {
    if |os| == 1 {
      assert os == [os[0]];
      LastTick(k, id, now, os[0]);
    } else {
      var k' := WithNote(k, n + 1, os[0]);
      FailTick(k, id, now, n, os[0]);
      FailuresRecorded(k', id, now, n + 1, os[1..]);
      NextTick(k, id, now, os, k');
    }
  }

  /** A text with the notes of all outcomes but the last, numbered on from n. */
  function Notes(text: string, n: nat, os: seq<Outcome>): string
    requires forall i :: 0 <= i < |os| - 1 ==> !os[i].Delivered?
    decreases |os|
  {
    if |os| <= 1 then text else Notes(text + Note(n + 1, os[0]), n + 1, os[1..])
  }

  lemma ThreeNotes(a: Outcome, b: Outcome, c: Outcome, any: Outcome)
    requires !a.Delivered? && !b.Delivered? && !c.Delivered?
    ensures Notes("", 0, [a, b, c, any]) == Note(1, a) + Note(2, b) + Note(3, c)
  {
    var os := [a, b, c, any];
    var x, y, z := Note(1, a), Note(1, a) + Note(2, b), Note(1, a) + Note(2, b) + Note(3, c);
    assert "" + Note(1, a) == x;
    assert os[1..] == [b, c, any] && os[1..][1..] == [c, any] && os[1..][1..][1..] == [any];
    assert Notes("", 0, os) == Notes(x, 1, os[1..]);
    assert Notes(x, 1, os[1..]) == Notes(y, 2, os[1..][1..]);
    assert Notes(y, 2, os[1..][1..]) == Notes(z, 3, os[1..][1..][1..]);
  }

  /** Three attempts that fail with plain errors, each written down, and a fourth round: the row has failed,
      was never mailed, and says what happened, in order. */
  lemma ThreeFailuresAreRecorded(id: string, now: int, a: Outcome, b: Outcome, c: Outcome, any: Outcome)
    requires !a.Delivered? && !b.Delivered? && !c.Delivered? && Plain(a.text) && Plain(b.text) && Plain(c.text)
    ensures var run := [Enqueue(id, now)] + Ticks(id, now, [a, b, c, any]);
      IsRun(map[], run) &&
      Final(map[], run) == map[id := Send(Failed, Note(1, a) + Note(2, b) + Note(3, c) + " | attempt:max", now, 3, 0, 0)]
    ensures Decimal(1) == "1" && Decimal(2) == "2" && Decimal(3) == "3"
  {
    var os, k := [a, b, c, any], Fresh(now);
    var run := [Enqueue(id, now)] + Ticks(id, now, os);
    NoLetters("");
    CountAtMostLetters("", 0);
    assert run[1..] == Ticks(id, now, os) && Do(map[], Enqueue(id, now)) == map[id := k];
    FailuresRecorded(k, id, now, 0, os);
    ThreeNotes(a, b, c, any);
  }
}
