/** The lifecycle of a book request: backend events and polls, unordered and delivered any number
    of times, and admin actions (internal/store/request.go, internal/consumer/handler.go,
    internal/scheduler/tasks.go, internal/server/admin_routes.go). */
module Requests {
  import opened Wrappers

  /** The columns the status updates read or write; "" stands for NULL where the query does so. */
  datatype Request = Request(userID: string, status: string, externalID: string, deniedReason: string,
                             failureReason: string, fulfilledBookID: string, fulfilledAt: Option<int>, updatedAt: int)

  type Table = map<string, Request>

  predicate Terminal(status: string) {
    status == "fulfilled" || status == "failed" || status == "denied" || status == "cancelled"
  }

  /** COALESCE(NULLIF(new,''), old). */
  function OrOld(new_: string, old_: string): string {
    if new_ == "" then old_ else new_
  }

  /** The SET list shared by both updates. */
  function Stored(r: Request, status: string, externalID: string, denied: string, failure: string, bookID: string, now: int): Request {
    Request(r.userID, status, OrOld(externalID, r.externalID), OrOld(denied, r.deniedReason), OrOld(failure, r.failureReason),
            OrOld(bookID, r.fulfilledBookID),
            if status == "fulfilled" && r.fulfilledAt.None? then Some(now) else r.fulfilledAt, now)
  }

  datatype Outcome = Ok | NotFound | DbError

  class RequestStore {
    var rows: Table

    constructor ()
      ensures rows == map[]
    {
      rows := map[];
    }

    /** Unguarded: the admin's update.  dbOk says whether the database answers. */
    method UpdateRequestStatus(id: string, status: string, externalID: string, denied: string, failure: string,
                               bookID: string, now: int, dbOk: bool)
      returns (out: Outcome)
      modifies this
      ensures out == if !dbOk then DbError else if id !in old(rows) then NotFound else Ok
      ensures rows == if out.Ok? then old(rows)[id := Stored(old(rows)[id], status, externalID, denied, failure, bookID, now)] else old(rows)
    {
      if !dbOk { return DbError; }
      if id !in rows { return NotFound; }
      rows := rows[id := Stored(rows[id], status, externalID, denied, failure, bookID, now)];
      return Ok;
    }

    /** Guarded: never moves a row out of a terminal status, and is content to have left it there. */
    method AdvanceRequestStatus(id: string, status: string, externalID: string, failure: string, bookID: string,
                                now: int, dbOk: bool)
      returns (out: Outcome)
      modifies this
      ensures out == if !dbOk then DbError else if id !in old(rows) then NotFound else Ok
      ensures rows == if out.Ok? then Advanced(old(rows), id, status, externalID, failure, bookID, now) else old(rows)
    {
      if !dbOk { return DbError; }
      if id in rows && !Terminal(rows[id].status) {
        rows := rows[id := Stored(rows[id], status, externalID, "", failure, bookID, now)];
        return Ok;
      }
      if id !in rows { return NotFound; }
      return Ok;
    }

    /** Consumer.HandleEvent: true acknowledges the event, false asks for redelivery. */
    method HandleEvent(configured: bool, event: Option<Payload>, name: string, now: int, dbOk: bool) returns (ack: bool)
      modifies this
      ensures ack <==> configured && (dbOk || EventReport(event, name).None?)
      ensures rows == if ack && EventReport(event, name).Some? then ReportTo(old(rows), EventReport(event, name).value, now) else old(rows)
    {
      if !configured { return false; }
      if event.None? { return true; }
      var p := event.value;
      var requestID := if p.requestID != "" then p.requestID else p.requestIdCamel;
      if requestID == "" { return true; }
      var leaf := LeafName(name);
      var out;
      if leaf == "request_acknowledged" {
        out := AdvanceRequestStatus(requestID, "acknowledged", p.externalID, "", "", now, dbOk);
      } else if leaf == "request_status_changed" {
        if p.status == "" { return true; }
        out := AdvanceRequestStatus(requestID, p.status, p.externalID, "", "", now, dbOk);
      } else if leaf == "request_fulfilled" {
        out := AdvanceRequestStatus(requestID, "fulfilled", p.externalID, "", p.fulfilledBookID, now, dbOk);
      } else if leaf == "request_failed" {
        out := AdvanceRequestStatus(requestID, "failed", p.externalID, p.reason, "", now, dbOk);
      } else {
        return true;
      }
      return !out.DbError?;
    }
  }

  /** The string fields of an event payload; a missing or non-string field reads as "". */
  datatype Payload = Payload(requestID: string, requestIdCamel: string, externalID: string, status: string,
                             fulfilledBookID: string, reason: string)

  /** Everything after the last dot. */
  method LeafName(name: string) returns (leaf: string)
    ensures leaf == Leaf(name)
  {
    leaf := name;
    var i := |leaf| - 1;
    while i >= 0
      invariant -1 <= i < |name| && leaf == name
      invariant forall j :: i < j < |name| ==> name[j] != '.'
    {
      if leaf[i] == '.' {
        leaf := leaf[i + 1..];
        LeafAfter(name, i);
        return;
      }
      i := i - 1;
    }
    LeafWhole(name);
  }

  function Leaf(name: string): (leaf: string)
    ensures '.' !in leaf && |leaf| <= |name| && name[|name| - |leaf|..] == leaf
    ensures |leaf| < |name| ==> name[|name| - |leaf| - 1] == '.'
  {
    if '.' !in name then name
    else
      var leaf := Leaf(name[1..]);
      TailSuffix(name, |name| - 1 - |leaf|);
      leaf
  }

  lemma TailSuffix(name: string, k: nat)
    requires k + 1 <= |name|
    ensures name[1..][k..] == name[k + 1..] && (k > 0 ==> name[1..][k - 1] == name[k])
  {
  }

  lemma {:induction false} LeafAfter(name: string, i: nat)
    requires i < |name| && name[i] == '.' && forall j :: i < j < |name| ==> name[j] != '.'
    ensures Leaf(name) == name[i + 1..]
  {
    if i > 0 {
      assert name[1..][i - 1] == '.';
      LeafAfter(name[1..], i - 1);
      assert name[1..][i..] == name[i + 1..];
    } else {
      assert '.' !in name[1..];
    }
  }

  lemma LeafWhole(name: string)
    requires forall j :: 0 <= j < |name| ==> name[j] != '.'
    ensures Leaf(name) == name
  {
  }

  function Advanced(t: Table, id: string, status: string, externalID: string, failure: string, bookID: string, now: int): Table {
    if id in t && !Terminal(t[id].status) then t[id := Stored(t[id], status, externalID, "", failure, bookID, now)] else t
  }

  /** What an event or a poll says about one request. */
  datatype Report = Report(id: string, status: string, externalID: string, failure: string, bookID: string)

  function ReportTo(t: Table, r: Report, now: int): Table {
    Advanced(t, r.id, r.status, r.externalID, r.failure, r.bookID, now)
  }

  function EventReport(event: Option<Payload>, name: string): Option<Report> {
    if event.None? then None
    else
      var p := event.value;
      var id := if p.requestID != "" then p.requestID else p.requestIdCamel;
      var leaf := Leaf(name);
      if id == "" then None
      else if leaf == "request_acknowledged" then Some(Report(id, "acknowledged", p.externalID, "", ""))
      else if leaf == "request_status_changed" then
        if p.status == "" then None else Some(Report(id, p.status, p.externalID, "", ""))
      else if leaf == "request_fulfilled" then Some(Report(id, "fulfilled", p.externalID, "", p.fulfilledBookID))
      else if leaf == "request_failed" then Some(Report(id, "failed", p.externalID, p.reason, ""))
      else None
  }

  /** A row as ListNonTerminal returned it; it may be stale by the time it is written back. */
  datatype Listed = Listed(id: string, row: Request)

  const POLL_AGE: int := 30_000_000_000

  /** One poll: skipped without an external id, when fresh, on a backend error, and when the backend
      has nothing new to say. */
  function PollReport(l: Listed, snapshot: string -> Option<string>, now: int): Option<Report> {
    if l.row.externalID == "" || now - l.row.updatedAt < POLL_AGE then None
    else match snapshot(l.row.externalID)
      case None => None
      case Some(status) =>
        if status == "" || status == l.row.status then None else Some(Report(l.id, status, l.row.externalID, "", ""))
  }

  /** failing are the rows whose write the database rejects; the error is dropped. */
  function PollAll(t: Table, list: seq<Listed>, snapshot: string -> Option<string>, now: int, failing: set<string>): Table
    decreases |list|
  {
    if list == [] then t
    else
      var r := PollReport(list[0], snapshot, now);
      PollAll(if r.None? || list[0].id in failing then t else ReportTo(t, r.value, now), list[1..], snapshot, now, failing)
  }

  /** The loop of RequestReconciler over the listed rows. */
  method Reconcile(store: RequestStore, list: seq<Listed>, snapshot: string -> Option<string>, now: int, failing: set<string>)
    modifies store
    ensures store.rows == PollAll(old(store.rows), list, snapshot, now, failing)
  {
    var i := 0;
    assert list[0..] == list;
    while i < |list|
      invariant 0 <= i <= |list|
      invariant PollAll(store.rows, list[i..], snapshot, now, failing) == PollAll(old(store.rows), list, snapshot, now, failing)
    {
      var r := list[i];
      assert list[i..][0] == r && list[i..][1..] == list[i + 1..];
      i := i + 1;
      if r.row.externalID == "" { continue; }
      if now - r.row.updatedAt < POLL_AGE { continue; }
      var snap := snapshot(r.row.externalID);
      if snap.None? { continue; }
      if snap.value == "" || snap.value == r.row.status { continue; }
      var _ := store.AdvanceRequestStatus(r.id, snap.value, r.row.externalID, "", "", now, r.id !in failing);
    }
  }

  // ---------------------------------------------------------------- runs of reports

  /** Reports of events and polls with the times at which they are stored. */
  type Reports = seq<(Report, int)>

  function AfterReports(t: Table, run: Reports): Table
    decreases |run|
  {
    if run == [] then t else AfterReports(ReportTo(t, run[0].0, run[0].1), run[1..])
  }

  /** A terminal row is never touched again by reports, in no column. */
  lemma {:induction false} TerminalIsFinal(t: Table, run: Reports, id: string)
    requires id in t && t[id].status in {"fulfilled", "failed", "denied", "cancelled"}
    ensures id in AfterReports(t, run) && AfterReports(t, run)[id] == t[id]
    decreases |run|
  {
    if run != [] { TerminalIsFinal(ReportTo(t, run[0].0, run[0].1), run[1..], id); }
  }

  predicate Closes(r: Report, id: string) {
    r.id == id && Terminal(r.status)
  }

  /** The status of the first terminal report about id. */
  function FirstVerdict(run: Reports, id: string): Option<string> {
    if run == [] then None
    else if Closes(run[0].0, id) then Some(run[0].0.status)
    else FirstVerdict(run[1..], id)
  }

  /** An open row ends terminal exactly when some report closes it, and then with the first verdict. */
  lemma {:induction false} FirstVerdictWins(t: Table, run: Reports, id: string)
    requires id in t && !Terminal(t[id].status)
    ensures var t' := AfterReports(t, run);
      id in t' && (if FirstVerdict(run, id).Some? then t'[id].status == FirstVerdict(run, id).value else !Terminal(t'[id].status))
    decreases |run|
  {
    if run != [] {
      var t1 := ReportTo(t, run[0].0, run[0].1);
      if Closes(run[0].0, id) {
        TerminalIsFinal(t1, run[1..], id);
      } else {
        FirstVerdictWins(t1, run[1..], id);
      }
    }
  }

  lemma {:induction false} VerdictIsReported(run: Reports, id: string)
    ensures FirstVerdict(run, id).Some? <==> exists i :: 0 <= i < |run| && Closes(run[i].0, id)
    ensures FirstVerdict(run, id).Some? ==>
      exists i :: 0 <= i < |run| && Closes(run[i].0, id) && run[i].0.status == FirstVerdict(run, id).value
  {
    if run != [] {
      VerdictIsReported(run[1..], id);
      if Closes(run[0].0, id) {
        assert run[0].0.status == FirstVerdict(run, id).value;
      } else {
        forall i | 0 <= i < |run| - 1 ensures run[1..][i] == run[i + 1] {}
      }
    }
  }

  predicate Says(run: Reports, r: Report) {
    exists i :: 0 <= i < |run| && run[i].0 == r
  }

  /** Everything run says, run2 says too, somewhere and any number of times. */
  predicate Covers(run2: Reports, run: Reports) {
    forall i :: 0 <= i < |run| ==> Says(run2, run[i].0)
  }

  /** All terminal reports about id carry one status. */
  predicate Unanimous(run: Reports, id: string) {
    forall i, j :: 0 <= i < |run| && 0 <= j < |run| && Closes(run[i].0, id) && Closes(run[j].0, id) ==>
      run[i].0.status == run[j].0.status
  }

  /** Order and duplication do not matter: two deliveries of the same reports, whatever their order,
      repetition and times, agree on whether the row is closed; and if all terminal reports about it
      agree, both end with their status. */
  lemma DeliveryOrderDoesNotMatter(t: Table, run: Reports, run2: Reports, id: string)
    requires id in t && !Terminal(t[id].status) && Covers(run2, run) && Covers(run, run2)
    ensures id in AfterReports(t, run) && id in AfterReports(t, run2)
    ensures Terminal(AfterReports(t, run)[id].status) <==> Terminal(AfterReports(t, run2)[id].status)
    ensures Unanimous(run, id) && Terminal(AfterReports(t, run)[id].status) ==>
            AfterReports(t, run)[id].status == AfterReports(t, run2)[id].status
  {
    FirstVerdictWins(t, run, id);
    FirstVerdictWins(t, run2, id);
    VerdictIsTerminal(run, id);
    VerdictIsTerminal(run2, id);
    VerdictIsReported(run, id);
    SameVerdicts(run, run2, id);
    SameVerdicts(run2, run, id);
  }

  lemma AnotherDelivery(t: Table, run: Reports, id: string, i: nat) returns (run2: Reports)
    requires id in t && !Terminal(t[id].status) && i < |run| && Closes(run[i].0, id)
    ensures Covers(run2, run) && Covers(run, run2)
    ensures id in AfterReports(t, run2) && AfterReports(t, run2)[id].status == run[i].0.status
  {
    run2 := [run[i]] + run;
    forall k | 0 <= k < |run| ensures Says(run2, run[k].0) { assert run2[k + 1] == run[k]; }
    forall k | 0 <= k < |run2| ensures Says(run, run2[k].0) { assert run2[k] == if k == 0 then run[i] else run[k - 1]; }
    FirstVerdictWins(t, run2, id);
  }

  /** The row ends with this status. */
  predicate EndsAs(t: Table, run: Reports, id: string, status: string) {
    id in AfterReports(t, run) && AfterReports(t, run)[id].status == status
  }

  /** Exactly when the terminal reports agree is the final status the same in every delivery of them. */
  lemma FinalStatusIsSureIff(t: Table, run: Reports, id: string)
    requires id in t && !Terminal(t[id].status) && FirstVerdict(run, id).Some?
    ensures (forall run2: Reports :: Covers(run2, run) && Covers(run, run2) ==> EndsAs(t, run2, id, FirstVerdict(run, id).value)) <==>
            Unanimous(run, id)
  {
    FirstVerdictWins(t, run, id);
    VerdictIsReported(run, id);
    VerdictIsTerminal(run, id);
    if Unanimous(run, id) {
      forall run2: Reports | Covers(run2, run) && Covers(run, run2) ensures EndsAs(t, run2, id, FirstVerdict(run, id).value) {
        DeliveryOrderDoesNotMatter(t, run, run2, id);
      }
    } else {
      var i, j :| 0 <= i < |run| && 0 <= j < |run| && Closes(run[i].0, id) && Closes(run[j].0, id) && run[i].0.status != run[j].0.status;
      var other := if run[i].0.status != FirstVerdict(run, id).value then i else j;
      var run2 := AnotherDelivery(t, run, id, other);
      assert !EndsAs(t, run2, id, FirstVerdict(run, id).value);
    }
  }

  lemma {:induction false} VerdictIsTerminal(run: Reports, id: string)
    ensures FirstVerdict(run, id).Some? ==> Terminal(FirstVerdict(run, id).value)
  {
    if run != [] { VerdictIsTerminal(run[1..], id); }
  }

  lemma SameVerdicts(run: Reports, run2: Reports, id: string)
    requires Covers(run2, run)
    ensures FirstVerdict(run, id).Some? ==> FirstVerdict(run2, id).Some?
    ensures FirstVerdict(run, id).Some? ==>
      exists j :: 0 <= j < |run2| && Closes(run2[j].0, id) && run2[j].0.status == FirstVerdict(run, id).value
  {
    VerdictIsReported(run, id);
    VerdictIsReported(run2, id);
    if FirstVerdict(run, id).Some? {
      var i :| 0 <= i < |run| && Closes(run[i].0, id) && run[i].0.status == FirstVerdict(run, id).value;
      assert Says(run2, run[i].0);
      var j :| 0 <= j < |run2| && run2[j].0 == run[i].0;
      assert Closes(run2[j].0, id);
    }
  }

  // ---------------------------------------------------------------- what the columns end as

  /** The reports about id up to the first that closes it: those that are stored on an open row. */
  function Effective(run: Reports, id: string): Reports {
    if run == [] then []
    else if run[0].0.id != id then Effective(run[1..], id)
    else [run[0]] + if run[0].0.status in {"fulfilled", "failed", "denied", "cancelled"} then [] else Effective(run[1..], id)
  }

  datatype Column = External | Failure | Book

  function Given(r: Report, col: Column): string {
    match col
    case External => r.externalID
    case Failure => r.failure
    case Book => r.bookID
  }

  function Held(r: Request, col: Column): string {
    match col
    case External => r.externalID
    case Failure => r.failureReason
    case Book => r.fulfilledBookID
  }

  /** The last text that is not empty. */
  predicate IsLastGiven(e: Reports, col: Column, before: string, value: string) {
    || (value == before && forall i :: 0 <= i < |e| ==> Given(e[i].0, col) == "")
    || (exists i :: 0 <= i < |e| && Given(e[i].0, col) == value != "" && forall j :: i < j < |e| ==> Given(e[j].0, col) == "")
  }

  lemma LastGivenCons(first: (Report, int), e: Reports, col: Column, before: string, value: string)
    requires IsLastGiven(e, col, if Given(first.0, col) == "" then before else Given(first.0, col), value)
    ensures IsLastGiven([first] + e, col, before, value)
  {
    var all := [first] + e;
    if forall i :: 0 <= i < |e| ==> Given(e[i].0, col) == "" {
      if Given(first.0, col) == "" {
        forall i | 0 <= i < |all| ensures Given(all[i].0, col) == "" { assert i > 0 ==> all[i] == e[i - 1]; }
      } else {
        assert Given(all[0].0, col) == value;
      }
    } else {
      var i :| 0 <= i < |e| && Given(e[i].0, col) == value != "" && forall j :: i < j < |e| ==> Given(e[j].0, col) == "";
      assert all[i + 1] == e[i];
      forall j | i + 1 < j < |all| ensures Given(all[j].0, col) == "" { assert all[j] == e[j - 1]; }
    }
  }

  /** What one stored report does to an open row. */
  lemma StoredReport(t: Table, r: Report, now: int)
    requires r.id in t && !Terminal(t[r.id].status)
    ensures var was, row := t[r.id], ReportTo(t, r, now)[r.id];
      && row.userID == was.userID && row.deniedReason == was.deniedReason
      && row.status == r.status && row.updatedAt == now
      && (forall col :: Held(row, col) == if Given(r, col) == "" then Held(was, col) else Given(r, col))
      && row.fulfilledAt == if r.status == "fulfilled" && was.fulfilledAt.None? then Some(now) else was.fulfilledAt
  {
    forall col ensures Held(ReportTo(t, r, now)[r.id], col) == if Given(r, col) == "" then Held(t[r.id], col) else Given(r, col) {
      match col
      case External =>
      case Failure =>
      case Book =>
    }
  }

  /** Where an open row ends, column by column: its status and time are those of the last report stored,
      every text is the last one given that was not empty, and it is dated when it is fulfilled. */
  ghost predicate EndsWith(was: Request, row: Request, e: Reports) {
    && row.userID == was.userID && row.deniedReason == was.deniedReason
    && (e == [] ==> row == was)
    && (e != [] ==> var last := e[|e| - 1];
         && row.status == last.0.status && row.updatedAt == last.1
         && row.fulfilledAt == (if last.0.status == "fulfilled" && was.fulfilledAt.None? then Some(last.1) else was.fulfilledAt))
    && (forall col :: IsLastGiven(e, col, Held(was, col), Held(row, col)))
  }

  lemma {:induction false} OpenRowEndsWith(t: Table, run: Reports, id: string)
    requires id in t && t[id].status !in {"fulfilled", "failed", "denied", "cancelled"}
    ensures id in AfterReports(t, run) && EndsWith(t[id], AfterReports(t, run)[id], Effective(run, id))
    decreases |run|
  {
    if run != [] {
      var first, rest := run[0], run[1..];
      var t1 := ReportTo(t, first.0, first.1);
      if first.0.id != id {
        OpenRowEndsWith(t1, rest, id);
      } else {
        StoredReport(t, first.0, first.1);
        var more := if Terminal(first.0.status) then [] else Effective(rest, id);
        if Terminal(first.0.status) { TerminalIsFinal(t1, rest, id); } else { OpenRowEndsWith(t1, rest, id); }
        forall col ensures IsLastGiven([first] + more, col, Held(t[id], col), Held(AfterReports(t, run)[id], col)) {
          LastGivenCons(first, more, col, Held(t[id], col), Held(AfterReports(t, run)[id], col));
        }
      }
    }
  }

  // ---------------------------------------------------------------- what an event and a poll say

  /** The name of an event counts from its last dot on. */
  lemma DottedLeaf(prefix: string, leaf: string)
    requires '.' !in leaf
    ensures Leaf(prefix + "." + leaf) == leaf && Leaf(leaf) == leaf
  {
    var name := prefix + "." + leaf;
    forall j | |prefix| < j < |name| ensures name[j] != '.' { assert name[j] == leaf[j - |prefix| - 1]; }
    LeafAfter(name, |prefix|);
    assert name[|prefix| + 1..] == leaf;
  }

  /** The id an event speaks of. */
  predicate SpeaksOf(p: Payload, id: string) {
    id != "" && ((p.requestID == id) || (p.requestID == "" && p.requestIdCamel == id))
  }

  /** What each event reports, from whatever source it comes. */
  lemma EventsReport(p: Payload, prefix: string, leaf: string, id: string)
    requires SpeaksOf(p, id) && '.' !in leaf
    ensures var report := EventReport(Some(p), prefix + "." + leaf);
      && (leaf == "request_acknowledged" ==> report == Some(Report(id, "acknowledged", p.externalID, "", "")))
      && (leaf == "request_fulfilled" ==> report == Some(Report(id, "fulfilled", p.externalID, "", p.fulfilledBookID)))
      && (leaf == "request_failed" ==> report == Some(Report(id, "failed", p.externalID, p.reason, "")))
      && (leaf == "request_status_changed" && p.status != "" ==> report == Some(Report(id, p.status, p.externalID, "", "")))
      && (leaf == "request_status_changed" && p.status == "" ==> report == None)
      && (leaf !in {"request_acknowledged", "request_fulfilled", "request_failed", "request_status_changed"} ==> report == None)
  {
    DottedLeaf(prefix, leaf);
  }

  /** A listing taken just now: open rows as they are, each once. */
  ghost predicate IsListing(t: Table, list: seq<Listed>) {
    && (forall i :: 0 <= i < |list| ==> list[i].id in t && t[list[i].id] == list[i].row && !Terminal(list[i].row.status))
    && (forall i, j :: 0 <= i < j < |list| ==> list[i].id != list[j].id)
  }

  /** The poll has news of the row: it has been left alone for thirty seconds, and the backend names
      another status for it. */
  predicate HasNews(r: Request, snapshot: string -> Option<string>, now: int) {
    && r.externalID != "" && now - r.updatedAt >= 30_000_000_000
    && snapshot(r.externalID).Some? && snapshot(r.externalID).value != "" && snapshot(r.externalID).value != r.status
  }

  /** The row with the backend's status, all else as it was. */
  predicate InStep(was: Request, row: Request, status: string, now: int) {
    row == was.(status := status, updatedAt := now,
                fulfilledAt := if status == "fulfilled" && was.fulfilledAt.None? then Some(now) else was.fulfilledAt)
  }

  lemma PollOne(t: Table, l: Listed, snapshot: string -> Option<string>, now: int)
    requires l.id in t && t[l.id] == l.row && !Terminal(l.row.status)
    ensures var r := PollReport(l, snapshot, now);
      && (r.Some? <==> HasNews(l.row, snapshot, now))
      && (r.Some? ==> r.value.id == l.id)
      && (r.Some? ==> InStep(l.row, ReportTo(t, r.value, now)[l.id], snapshot(l.row.externalID).value, now))
      && (r.Some? ==> ReportTo(t, r.value, now) == t[l.id := ReportTo(t, r.value, now)[l.id]])
  {
  }

  /** A poll of a fresh listing brings every listed row of which it has news into step with the backend,
      unless that write fails, and leaves every other row as it is. */
  lemma {:induction false} PollBringsIntoStep(t: Table, list: seq<Listed>, snapshot: string -> Option<string>, now: int,
                                              failing: set<string>, id: string)
    requires IsListing(t, list) && id in t
    ensures var t' := PollAll(t, list, snapshot, now, failing);
      id in t' &&
      if (exists i :: 0 <= i < |list| && list[i].id == id) && HasNews(t[id], snapshot, now) && id !in failing
      then InStep(t[id], t'[id], snapshot(t[id].externalID).value, now) else t'[id] == t[id]
    decreases |list|
  {
    if list != [] {
      var l, rest := list[0], list[1..];
      PollOne(t, l, snapshot, now);
      var r := PollReport(l, snapshot, now);
      var t1 := if r.None? || l.id in failing then t else ReportTo(t, r.value, now);
      forall i | 0 <= i < |rest| ensures rest[i] == list[i + 1] {}
      assert forall other :: other in t && other != l.id ==> other in t1 && t1[other] == t[other];
      if id == l.id {
        PollLeavesUnlisted(t1, rest, snapshot, now, failing, id);
      } else {
        PollBringsIntoStep(t1, rest, snapshot, now, failing, id);
        if i :| 0 <= i < |list| && list[i].id == id { assert rest[i - 1].id == id; }
      }
    }
  }

  lemma {:induction false} PollLeavesUnlisted(t: Table, list: seq<Listed>, snapshot: string -> Option<string>, now: int,
                                              failing: set<string>, id: string)
    requires id in t && forall i :: 0 <= i < |list| ==> list[i].id != id
    ensures var t' := PollAll(t, list, snapshot, now, failing); id in t' && t'[id] == t[id]
    decreases |list|
  {
    if list != [] {
      var r := PollReport(list[0], snapshot, now);
      var t1 := if r.None? || list[0].id in failing then t else ReportTo(t, r.value, now);
      forall i | 0 <= i < |list| - 1 ensures list[1..][i] == list[i + 1] {}
      PollLeavesUnlisted(t1, list[1..], snapshot, now, failing, id);
    }
  }

  // ---------------------------------------------------------------- runs with admin steps

  datatype Action =
    | Hear(report: Report)
    | Submit(id: string)                              // approve, retry, auto-approve
    | Deny(id: string, reason: string)
    | FulfillManually(id: string, bookID: string)
    | Insert(id: string, userID: string)
    | Cancel(id: string, userID: string)              // DELETE ... AND status = 'pending'

  function Updated(t: Table, id: string, status: string, denied: string, bookID: string, now: int): Table {
    if id in t then t[id := Stored(t[id], status, "", denied, "", bookID, now)] else t
  }

  function Act(t: Table, a: Action, now: int): Table {
    match a
    case Hear(r) => ReportTo(t, r, now)
    case Submit(id) => Updated(t, id, "submitted", "", "", now)
    case Deny(id, reason) => Updated(t, id, "denied", reason, "", now)
    case FulfillManually(id, bookID) => Updated(t, id, "fulfilled", "", bookID, now)
    case Insert(id, userID) => if id in t then t else t[id := Request(userID, "pending", "", "", "", "", None, now)]
    case Cancel(id, userID) => if id in t && t[id].userID == userID && t[id].status == "pending" then t - {id} else t
  }

  /** What an admin's step and the owner's do to a row, whatever its status: approving and retrying submit
      it again, denying and fulfilling by hand close it, and only its owner deletes it, while it is pending. */
  lemma AdminDecides(t: Table, id: string, text: string, now: int)
    requires id in t
    ensures Act(t, Submit(id), now) == t[id := t[id].(status := "submitted", updatedAt := now)]
    ensures Act(t, Deny(id, text), now) ==
            t[id := t[id].(status := "denied", deniedReason := if text == "" then t[id].deniedReason else text, updatedAt := now)]
    ensures Act(t, FulfillManually(id, text), now) ==
            t[id := t[id].(status := "fulfilled", fulfilledBookID := if text == "" then t[id].fulfilledBookID else text,
                           fulfilledAt := if t[id].fulfilledAt.None? then Some(now) else t[id].fulfilledAt, updatedAt := now)]
    ensures id !in Act(t, Cancel(id, text), now) <==> t[id].userID == text && t[id].status == "pending"
    ensures forall other :: other in t && other != id ==> other in Act(t, Cancel(id, text), now)
  {
  }

  /** A new request is pending and belongs to its user, who can take it back at once. */
  lemma NewRequestCanBeCancelled(t: Table, id: string, userID: string, now: int, later: int)
    requires id !in t
    ensures var t1 := Act(t, Insert(id, userID), now);
      && id in t1 && t1[id].userID == userID && t1[id].status == "pending" && t1[id].fulfilledAt == None && t1[id].updatedAt == now
      && t1[id].deniedReason == "" && (forall col :: Held(t1[id], col) == "")
      && Act(t1, Cancel(id, userID), later) == t
      && (forall other :: other != userID ==> Act(t1, Cancel(id, other), later) == t1)
  {
  }

  type Run = seq<(Action, int)>

  function AfterRun(t: Table, run: Run): Table
    decreases |run|
  {
    if run == [] then t else AfterRun(Act(t, run[0].0, run[0].1), run[1..])
  }

  /** Reports as the steps of a run. */
  function Heard(reports: Reports): (run: Run)
    ensures |run| == |reports| && forall i :: 0 <= i < |run| ==> run[i] == (Hear(reports[i].0), reports[i].1)
  {
    seq(|reports|, i requires 0 <= i < |reports| => (Hear(reports[i].0), reports[i].1))
  }

  /** Hearing reports is storing them, so what is proved of reports holds between any two admin steps. */
  lemma {:induction false} HearingIsReporting(t: Table, reports: Reports)
    ensures AfterRun(t, Heard(reports)) == AfterReports(t, reports)
    decreases |reports|
  {
    if reports != [] {
      assert Heard(reports)[1..] == Heard(reports[1..]);
      HearingIsReporting(ReportTo(t, reports[0].0, reports[0].1), reports[1..]);
    }
  }

  /** A request was fulfilled at some time whenever its status says so. */
  ghost predicate Dated(t: Table) {
    forall id :: id in t && t[id].status == "fulfilled" ==> t[id].fulfilledAt.Some?
  }

  lemma {:induction false} FulfilledIsDated(t: Table, run: Run)
    requires Dated(t)
    ensures Dated(AfterRun(t, run))
    decreases |run|
  {
    if run != [] { FulfilledIsDated(Act(t, run[0].0, run[0].1), run[1..]); }
  }

  /** What no action whatever takes back, as long as the row is not deleted. */
  predicate Remembers(r: Request, r': Request) {
    && r'.userID == r.userID
    && (r.fulfilledAt.Some? ==> r'.fulfilledAt == r.fulfilledAt)
    && (r.externalID != "" ==> r'.externalID != "")
    && (r.deniedReason != "" ==> r'.deniedReason != "")
    && (r.failureReason != "" ==> r'.failureReason != "")
    && (r.fulfilledBookID != "" ==> r'.fulfilledBookID != "")
  }

  predicate Deletes(a: Action, id: string) {
    a.Cancel? && a.id == id
  }

  /** Over every run, admin steps included: the time of fulfilment is written at most once, and a set
      external id, reason or book never becomes empty. */
  lemma {:induction false} OnceSetStaysSet(t: Table, run: Run, id: string)
    requires id in t && forall i :: 0 <= i < |run| ==> !Deletes(run[i].0, id)
    ensures id in AfterRun(t, run) && Remembers(t[id], AfterRun(t, run)[id])
    decreases |run|
  {
    if run != [] {
      var t1 := Act(t, run[0].0, run[0].1);
      assert !Deletes(run[0].0, id);
      OnceSetStaysSet(t1, run[1..], id);
    }
  }

  predicate ByAdmin(a: Action, id: string) {
    (a.Submit? || a.Deny? || a.FulfillManually?) && a.id == id
  }

  /** Without an admin step on it, a terminal row is unchanged by every run, deletions included: a
      status is only ever taken out of a terminal one by an admin. */
  lemma {:induction false} OnlyAdminsReopen(t: Table, run: Run, id: string)
    requires id in t && Terminal(t[id].status) && forall i :: 0 <= i < |run| ==> !ByAdmin(run[i].0, id)
    ensures id in AfterRun(t, run) && AfterRun(t, run)[id] == t[id]
    decreases |run|
  {
    if run != [] {
      assert !ByAdmin(run[0].0, id);
      OnlyAdminsReopen(Act(t, run[0].0, run[0].1), run[1..], id);
    }
  }

  // ---------------------------------------------------------------- where the columns come from

  predicate GivesStatus(a: Action, id: string, status: string) {
    match a
    case Hear(r) => r.id == id && r.status == status
    case Submit(i) => i == id && status == "submitted"
    case Deny(i, _) => i == id && status == "denied"
    case FulfillManually(i, _) => i == id && status == "fulfilled"
    case _ => false
  }

  predicate GivesBook(a: Action, id: string, book: string) {
    (a.Hear? && a.report.id == id && a.report.bookID == book) || a == FulfillManually(id, book)
  }

  predicate Gave(run: Run, gives: Action -> bool) {
    exists i :: 0 <= i < |run| && gives(run[i].0)
  }

  /** Nothing is made up: every column of a row that changed holds what some action of the run gave it. */
  ghost predicate FromRun(r: Request, r': Request, run: Run, id: string) {
    && (r'.status == r.status || Gave(run, (a: Action) => GivesStatus(a, id, r'.status)))
    && (r'.externalID == r.externalID || Gave(run, (a: Action) => a.Hear? && a.report.id == id && a.report.externalID == r'.externalID))
    && (r'.failureReason == r.failureReason || Gave(run, (a: Action) => a.Hear? && a.report.id == id && a.report.failure == r'.failureReason))
    && (r'.deniedReason == r.deniedReason || Gave(run, (a: Action) => a == Deny(id, r'.deniedReason)))
    && (r'.fulfilledBookID == r.fulfilledBookID || Gave(run, (a: Action) => GivesBook(a, id, r'.fulfilledBookID)))
  }

  lemma GaveLater(run: Run, gives: Action -> bool)
    requires run != []
    ensures Gave(run, gives) <==> gives(run[0].0) || Gave(run[1..], gives)
  {
    forall i | 0 <= i < |run| - 1 ensures run[1..][i] == run[i + 1] {}
    if i :| 0 <= i < |run| && gives(run[i].0) && i > 0 { assert gives(run[1..][i - 1].0); }
    if i :| 0 <= i < |run[1..]| && gives(run[1..][i].0) { assert gives(run[i + 1].0); }
  }

  lemma StepFromRun(t: Table, run: Run, id: string)
    requires id in t && run != [] && !Deletes(run[0].0, id)
    ensures var t' := Act(t, run[0].0, run[0].1); id in t' && FromRun(t[id], t'[id], run[..1], id)
  {
    assert run[..1][0] == run[0];
  }

  lemma {:induction false} ColumnsComeFromTheRun(t: Table, run: Run, id: string)
    requires id in t && forall i :: 0 <= i < |run| ==> !Deletes(run[i].0, id)
    ensures id in AfterRun(t, run) && FromRun(t[id], AfterRun(t, run)[id], run, id)
    decreases |run|
  {
    if run != [] {
      var t1 := Act(t, run[0].0, run[0].1);
      StepFromRun(t, run, id);
      ColumnsComeFromTheRun(t1, run[1..], id);
      forall gives: Action -> bool ensures Gave(run, gives) <==> Gave(run[..1], gives) || Gave(run[1..], gives) {
        GaveLater(run, gives);
        assert run[..1][0] == run[0];
      }
    }
  }
}
