/** The kobo_transfer_session table (internal/store/kobo_session.go), the code search of the serve
    handler (internal/server/opds_kosync_routes.go) and one reaper tick run without interference
    (internal/scheduler/tasks.go).  Times are nanoseconds on one clock. */
module KoboSessions {
  import opened RefCount

  const MINUTE: int := 60_000_000_000
  const EXPIRY: int := 30 * MINUTE
  const REAP_GRACE: int := 5 * MINUTE
  const STRAY_AGE: int := 360 * MINUTE

  datatype Status = Pending | Active | Completed | Expired

  /** builtAt is the modification time of the converted file, not a column. */
  datatype Session = Session(codeHash: string, path: string, status: Status, createdAt: int, expiresAt: int, builtAt: int)

  type Sessions = map<string, Session>

  predicate Open(s: Session) {
    s.status == Pending || s.status == Active
  }

  /** WHERE status IN ('pending','active') AND expires_at > now. */
  predicate Listed(t: Sessions, id: string, now: int) {
    id in t && Open(t[id]) && t[id].expiresAt > now
  }

  /** WHERE status IN ('pending','active') AND expires_at < cutoff. */
  predicate Stale(t: Sessions, id: string, cutoff: int) {
    id in t && Open(t[id]) && t[id].expiresAt < cutoff
  }

  function MarkActive(t: Sessions, id: string): Sessions {
    if id in t && t[id].status == Pending then t[id := t[id].(status := Active)] else t
  }

  /** No guard on the current status. */
  function MarkCompleted(t: Sessions, id: string): Sessions {
    if id in t then t[id := t[id].(status := Completed)] else t
  }

  function ExpireByID(t: Sessions, id: string): Sessions {
    if id in t && Open(t[id]) then t[id := t[id].(status := Expired)] else t
  }

  function ExpireStale(t: Sessions, cutoff: int): Sessions {
    map id | id in t :: if Stale(t, id, cutoff) then t[id].(status := Expired) else t[id]
  }

  /** The first listed row whose hash matches the code; matches is bcrypt's comparison. */
  method FindSessionForCode(rows: seq<Session>, code: string, matches: (string, string) -> bool)
    returns (found: bool, index: nat)
    ensures found <==> exists i :: 0 <= i < |rows| && matches(rows[i].codeHash, code)
    ensures found ==> index < |rows| && matches(rows[index].codeHash, code)
    ensures found ==> forall i :: 0 <= i < index ==> !matches(rows[i].codeHash, code)
  {
    for i := 0 to |rows|
      invariant forall j :: 0 <= j < i ==> !matches(rows[j].codeHash, code)
    {
      if matches(rows[i].codeHash, code) {
        return true, i;
      }
    }
    return false, 0;
  }

  /** A row as ListStaleKoboSessions returned it. */
  datatype Candidate = Candidate(id: string, path: string)

  datatype Disk = Disk(sessions: Sessions, files: set<string>)

  /** The ids whose UPDATE errors, and the paths that cannot be unlinked; both errors are dropped. */
  datatype Faults = Faults(update: set<string>, unlink: set<string>)

  /** A candidate is reaped if nobody reads it and its row is still open when the UPDATE runs. */
  function ReapOne(d: Disk, c: Candidate, refs: map<string, int>, f: Faults): Disk {
    if Busy(refs, c.id) || c.id in f.update || c.id !in d.sessions || !Open(d.sessions[c.id]) then d
    else Disk(ExpireByID(d.sessions, c.id), if c.path != "" && c.path !in f.unlink then d.files - {c.path} else d.files)
  }

  function ReapAll(d: Disk, list: seq<Candidate>, refs: map<string, int>, f: Faults): Disk
    decreases |list|
  {
    if list == [] then d else ReapAll(ReapOne(d, list[0], refs, f), list[1..], refs, f)
  }

  class Reaper {
    var sessions: Sessions
    var files: set<string>
    const readers: Registry

    constructor ()
      ensures sessions == map[] && files == {} && readers.Valid() && fresh(readers)
    {
      sessions, files := map[], {};
      readers := new Registry();
    }

    /** The registry branch of KoboSessionReaper. */
    method Reap(candidates: seq<Candidate>, faults: Faults)
      requires readers.Valid()
      modifies this
      ensures readers.Valid() && readers.refs == old(readers.refs)
      ensures Disk(sessions, files) == ReapAll(Disk(old(sessions), old(files)), candidates, readers.refs, faults)
    {
      var i := 0;
      ghost var start, refs := Disk(sessions, files), readers.refs;
      assert candidates[0..] == candidates;
      while i < |candidates|
        invariant 0 <= i <= |candidates| && readers.Valid() && readers.refs == refs
        invariant ReapAll(Disk(sessions, files), candidates[i..], refs, faults) == ReapAll(start, candidates, refs, faults)
      {
        var k := candidates[i];
        assert candidates[i..][0] == k && candidates[i..][1..] == candidates[i + 1..];
        i := i + 1;
        var busy := readers.InUse(k.id);
        if busy { continue; }
        var ok := k.id !in faults.update && k.id in sessions && Open(sessions[k.id]);
        if !ok { continue; }
        sessions := ExpireByID(sessions, k.id);
        if k.path != "" && k.path !in faults.unlink {
          files := files - {k.path};
        }
      }
    }
  }

  predicate Reaped(d: Disk, d': Disk, id: string, refs: map<string, int>) {
    id in d.sessions && id in d'.sessions && Open(d.sessions[id]) && !Busy(refs, id) && d'.sessions[id].status == Expired
  }

  lemma InHeadOrRest(list: seq<Candidate>, id: string)
    requires list != []
    ensures (exists i :: 0 <= i < |list| && list[i].id == id) <==>
            list[0].id == id || (exists i :: 0 <= i < |list[1..]| && list[1..][i].id == id)
  {
    var rest := list[1..];
    if i :| 0 <= i < |list| && list[i].id == id && i > 0 { assert rest[i - 1].id == id; }
    if i :| 0 <= i < |rest| && rest[i].id == id { assert list[i + 1].id == id; }
  }

  /** One tick touches exactly the candidates nobody reads: their rows become expired and their files
      go; every other row is unchanged, and a file goes only with a row that this tick expired. */
  lemma {:induction false} ReapExpiresExactlyIdle(d: Disk, list: seq<Candidate>, refs: map<string, int>, faults: Faults, id: string)
    requires id in d.sessions
    requires forall i :: 0 <= i < |list| ==> list[i].id in d.sessions && list[i].path == d.sessions[list[i].id].path
    ensures var d' := ReapAll(d, list, refs, faults);
      var reaped := Open(d.sessions[id]) && !Busy(refs, id) && id !in faults.update && exists i :: 0 <= i < |list| && list[i].id == id;
      && d'.sessions.Keys == d.sessions.Keys
      && d'.sessions[id] == (if reaped then d.sessions[id].(status := Expired) else d.sessions[id])
      && (reaped && d.sessions[id].path != "" && d.sessions[id].path !in faults.unlink ==> d.sessions[id].path !in d'.files)
      && d'.files <= d.files && d.files * faults.unlink <= d'.files
      && (forall f :: f in d.files && f !in d'.files ==>
            exists i :: 0 <= i < |list| && list[i].path == f && Reaped(d, d', list[i].id, refs))
    decreases |list|
  {
    if list != [] {
      var d1, rest := ReapOne(d, list[0], refs, faults), list[1..];
      var d' := ReapAll(d, list, refs, faults);
      forall i | 0 <= i < |rest| ensures rest[i] == list[i + 1] {}
      ReapExpiresExactlyIdle(d1, rest, refs, faults, id);
      ReapExpiresExactlyIdle(d1, rest, refs, faults, list[0].id);
      InHeadOrRest(list, id);
      forall f | f in d.files && f !in d'.files
        ensures exists i :: 0 <= i < |list| && list[i].path == f && Reaped(d, d', list[i].id, refs)
      {
        if f in d1.files {
          var i :| 0 <= i < |rest| && rest[i].path == f && Reaped(d1, d', rest[i].id, refs);
          assert list[i + 1] == rest[i];
        } else {
          assert list[0].path == f;
        }
      }
    }
  }
}
