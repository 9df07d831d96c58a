/** Files without a row: the sweep lists rows, so such a file stays on the disk for good.  Which steps
    of the fills and the sweep can leave one, and runs that do; and a run that unlinks the file of a
    reader (internal/streaming/cache.go). */
module CacheOrphans {
  import opened Wrappers
  import opened CacheTable
  import opened SingleFlight
  import opened CacheProtocol

  ghost predicate EveryFileHasRow(st: Storage) {
    forall k :: k in st.files ==> HasKey(st.rows, k)
  }

  /** The sweep deletes the row of a key whose file has come back since the unlink, or a fill renames
      its file into place when no row holds its key any more. */
  ghost predicate Orphans(s: State, a: Action)
    requires CanDo(s, a)
  {
    || (a == SweepDelete(true) && s.sweep.entry.id in s.st.rows && s.st.rows[s.sweep.entry.id].cacheKey in s.st.files)
    || (a.FillAt? && a.fillStep == RenamePart(true) && !HasKey(s.st.rows, s.flight.calls[a.g].key))
  }

  lemma FillKeepsKeys(st: Storage, key: string, p: Fill, fs: FillStep, k: string)
    requires RowsOk(st) && OwnRow(st, key, p) && FillEnabled(st, p, fs) && HasKey(st.rows, k)
    ensures HasKey(FillStorage(st, key, p, fs).rows, k)
  {
    var id :| id in st.rows && st.rows[id].cacheKey == k;
    assert id in FillStorage(st, key, p, fs).rows && FillStorage(st, key, p, fs).rows[id].cacheKey == k;
  }

  lemma FillFiles(st: Storage, key: string, p: Fill, fs: FillStep)
    requires FillEnabled(st, p, fs)
    ensures FillStorage(st, key, p, fs).files.Keys == st.files.Keys + (if fs == RenamePart(true) then {key} else {})
    ensures fs == RenamePart(true) ==> FillStorage(st, key, p, fs).rows == st.rows
  {
  }

  lemma FillOrphansExactlyWhen(st: Storage, key: string, p: Fill, fs: FillStep)
    requires RowsOk(st) && OwnRow(st, key, p) && FillEnabled(st, p, fs) && EveryFileHasRow(st)
    ensures EveryFileHasRow(FillStorage(st, key, p, fs)) <==> !(fs == RenamePart(true) && !HasKey(st.rows, key))
  {
    var st' := FillStorage(st, key, p, fs);
    FillFiles(st, key, p, fs);
    forall k | HasKey(st.rows, k) ensures HasKey(st'.rows, k) { FillKeepsKeys(st, key, p, fs, k); }
    assert fs == RenamePart(true) ==> key in st'.files;
  }

  lemma DeleteOrphansExactlyWhen(s: State)
    requires CacheInv(s) && CanDo(s, SweepDelete(true)) && EveryFileHasRow(s.st)
    ensures EveryFileHasRow(Do(s, SweepDelete(true)).st) <==> !Orphans(s, SweepDelete(true))
  {
    var st', id := Do(s, SweepDelete(true)).st, s.sweep.entry.id;
    forall k | HasKey(s.st.rows, k) && !(id in s.st.rows && s.st.rows[id].cacheKey == k) ensures HasKey(st'.rows, k) {
      var other :| other in s.st.rows && s.st.rows[other].cacheKey == k;
      assert other in st'.rows;
    }
  }

  /** The only two steps that can leave a file without a row, and exactly when they do. */
  lemma OrphansExactlyWhen(s: State, a: Action)
    requires CacheInv(s) && CanDo(s, a) && EveryFileHasRow(s.st)
    ensures EveryFileHasRow(Do(s, a).st) <==> !Orphans(s, a)
  {
    if a.FillAt? {
      FillMovesOne(s, a.g, a.fillStep);
      FillOrphansExactlyWhen(s.st, s.flight.calls[a.g].key, s.fills[a.g], a.fillStep);
    } else if a == SweepDelete(true) {
      DeleteOrphansExactlyWhen(s);
    } else {
      assert Do(s, a).st.rows == s.st.rows && Do(s, a).st.files.Keys <= s.st.files.Keys;
    }
  }

  function Begun(key: string, pc: Pc): Call {
    Call(key, pc, pc == Leading, None, None, 0, false, false)
  }

  /** Two calls for one key have missed, and nothing else has happened. */
  ghost predicate TwoMissed(s: State, key: string) {
    && s.flight == Flight(map[0 := Begun(key, Missed), 1 := Begun(key, Missed)], map[], true)
    && s.fills == map[] && s.st == Fresh.st && s.holders == map[] && s.sweep == Idle
  }

  lemma MissTwice(key: string) returns (run: seq<Action>)
    ensures IsCacheRun(Fresh, run) && TwoMissed(End(Fresh, run), key)
  {
    run := [];
    Append(Fresh, run, CallAt(0, Enter(key)));           run := run + [CallAt(0, Enter(key))];
    Append(Fresh, run, CallAt(1, Enter(key)));           run := run + [CallAt(1, Enter(key))];
    Append(Fresh, run, CallAt(0, Miss));                 run := run + [CallAt(0, Miss)];
    Append(Fresh, run, CallAt(1, Miss));                 run := run + [CallAt(1, Miss)];
  }

  /** The first call has its row and its file, under the same key. */
  ghost predicate FirstRenamed(s: State, key: string, id: string) {
    && s.flight == Flight(map[0 := Begun(key, Leading), 1 := Begun(key, Missed)], map[key := 0], true)
    && s.fills == map[0 := Renamed(id, true, 0)]
    && s.st == Storage(map[id := Row(key, Pending, 0, 0)], map[key := 0], {}, {id}, {id}, {}, {})
    && s.holders == map[] && s.sweep == Idle
  }

  /** The first call leads, and has opened its .part file. */
  ghost predicate FirstOpened(s: State, key: string, id: string) {
    && s.flight == Flight(map[0 := Begun(key, Leading), 1 := Begun(key, Missed)], map[key := 0], true)
    && s.fills == map[0 := PartOpen(id)] && s.st == Storage(map[], map[], {key}, {id}, {}, {}, {})
    && s.holders == map[] && s.sweep == Idle
  }

  lemma LeadFirst(s: State, key: string, id: string) returns (run: seq<Action>)
    requires TwoMissed(s, key)
    ensures IsCacheRun(s, run) && FirstOpened(End(s, run), key, id)
  {
    run := [];
    Append(s, run, CallAt(0, LoadOrStore));              run := run + [CallAt(0, LoadOrStore)];
    Append(s, run, FillAt(0, CreatePart(id)));           run := run + [FillAt(0, CreatePart(id))];
  }

  lemma FillFirst(s: State, key: string, id: string) returns (run: seq<Action>)
    requires FirstOpened(s, key, id)
    ensures IsCacheRun(s, run) && FirstRenamed(End(s, run), key, id)
  {
    run := [];
    Append(s, run, FillAt(0, InsertRow(true, 0)));       run := run + [FillAt(0, InsertRow(true, 0))];
    Append(s, run, FillAt(0, CopyBody(true, 0)));        run := run + [FillAt(0, CopyBody(true, 0))];
    Append(s, run, FillAt(0, RenamePart(true)));         run := run + [FillAt(0, RenamePart(true))];
  }

  /** The row is ready, nothing is in flight, and the second call still believes in its miss. */
  ghost predicate ReadyButMissed(s: State, key: string, id: string) {
    && 1 in s.flight.calls && s.flight.calls[1] == Begun(key, Missed)
    && s.flight.inflight == map[] && s.flight.detached && s.fills == map[]
    && s.st == Storage(map[id := Row(key, Ready, 0, 0)], map[key := 0], {}, {id}, {id}, {}, {})
    && s.holders == map[] && s.sweep == Idle
  }

  lemma MarkFirst(s: State, key: string, id: string) returns (run: seq<Action>)
    requires FirstRenamed(s, key, id)
    ensures IsCacheRun(s, run)
    ensures var t := End(s, run);
      && t.flight.inflight == map[key := 0] && t.flight.detached && t.fills == map[] && t.holders == map[] && t.sweep == Idle
      && t.st == Storage(map[id := Row(key, Ready, 0, 0)], map[key := 0], {}, {id}, {id}, {}, {})
      && 0 in t.flight.calls && t.flight.calls[0].key == key && t.flight.calls[0].pc == Filled && t.flight.calls[0].result.Some?
      && 1 in t.flight.calls && t.flight.calls[1] == Begun(key, Missed)
  {
    run := [];
    Append(s, run, FillAt(0, MarkReady(true)));          run := run + [FillAt(0, MarkReady(true))];
  }

  lemma CloseFirst(s: State, key: string, id: string) returns (run: seq<Action>)
    requires s.flight.inflight == map[key := 0] && s.flight.detached && s.fills == map[] && s.holders == map[] && s.sweep == Idle
    requires s.st == Storage(map[id := Row(key, Ready, 0, 0)], map[key := 0], {}, {id}, {id}, {}, {})
    requires 0 in s.flight.calls && s.flight.calls[0].key == key && s.flight.calls[0].pc == Filled && s.flight.calls[0].result.Some?
    requires 1 in s.flight.calls && s.flight.calls[1] == Begun(key, Missed)
    ensures IsCacheRun(s, run) && ReadyButMissed(End(s, run), key, id)
  {
    run := [];
    Append(s, run, CallAt(0, CloseDone));                run := run + [CallAt(0, CloseDone)];
    Append(s, run, CallAt(0, DeleteInflight));           run := run + [CallAt(0, DeleteInflight)];
  }

  /** The second call leads a fill of its own beside the ready row, and is about to rename. */
  ghost predicate SecondCopied(s: State, key: string, id: string, newId: string) {
    && s.flight.detached && 1 in s.flight.calls && s.flight.calls[1] == Begun(key, Leading)
    && s.fills == map[1 := Copied(newId, false, 0)]
    && s.st.rows == map[id := Row(key, Ready, 0, 0)] && s.st.files == map[key := 0] && s.holders == map[] && s.sweep == Idle
  }

  lemma LeadSecond(s: State, key: string, id: string, newId: string) returns (run: seq<Action>)
    requires ReadyButMissed(s, key, id) && newId != id
    ensures IsCacheRun(s, run)
    ensures var t := End(s, run);
      && t.flight.detached && 1 in t.flight.calls && t.flight.calls[1] == Begun(key, Leading) && t.fills == map[1 := PartOpen(newId)]
      && t.st.rows == map[id := Row(key, Ready, 0, 0)] && t.st.files == map[key := 0] && t.holders == map[] && t.sweep == Idle
  {
    run := [];
    Append(s, run, CallAt(1, LoadOrStore));              run := run + [CallAt(1, LoadOrStore)];
    Append(s, run, FillAt(1, CreatePart(newId)));        run := run + [FillAt(1, CreatePart(newId))];
  }

  lemma CopySecond(s: State, key: string, id: string, newId: string) returns (run: seq<Action>)
    requires s.flight.detached && 1 in s.flight.calls && s.flight.calls[1] == Begun(key, Leading) && s.fills == map[1 := PartOpen(newId)]
    requires s.st.rows == map[id := Row(key, Ready, 0, 0)] && s.st.files == map[key := 0] && s.holders == map[] && s.sweep == Idle
    ensures IsCacheRun(s, run) && SecondCopied(End(s, run), key, id, newId)
  {
    run := [];
    assert id in s.st.rows && HasKey(s.st.rows, key);
    Append(s, run, FillAt(1, InsertRow(true, 0)));       run := run + [FillAt(1, InsertRow(true, 0))];
    Append(s, run, FillAt(1, CopyBody(true, 0)));        run := run + [FillAt(1, CopyBody(true, 0))];
  }

  /** The second fill is about to rename beside nothing at all. */
  lemma SweepBeforeRename(s: State, key: string, id: string, newId: string) returns (run: seq<Action>)
    requires SecondCopied(s, key, id, newId)
    ensures IsCacheRun(s, run) && CanDo(End(s, run), FillAt(1, RenamePart(true)))
    ensures End(s, run).st.files == map[] && key in Do(End(s, run), FillAt(1, RenamePart(true))).st.files
    ensures Do(End(s, run), FillAt(1, RenamePart(true))).st.rows == map[]
  {
    var list := [Listed(id, key)];
    run := [];
    Append(s, run, SweepBegin(list));                    run := run + [SweepBegin(list)];
    Append(s, run, SweepSelect);                         run := run + [SweepSelect];
    Append(s, run, SweepUnlink(true));                   run := run + [SweepUnlink(true)];
    Append(s, run, SweepDelete(true));                   run := run + [SweepDelete(true)];
  }

  /** The second fill has renamed between the unlink and the delete. */
  lemma SweepAroundRename(s: State, key: string, id: string, newId: string) returns (run: seq<Action>)
    requires SecondCopied(s, key, id, newId)
    ensures IsCacheRun(s, run) && CanDo(End(s, run), SweepDelete(true)) && EveryFileHasRow(End(s, run).st)
    ensures var t := Do(End(s, run), SweepDelete(true)); key in t.st.files && t.st.rows == map[]
  {
    var list := [Listed(id, key)];
    run := [];
    Append(s, run, SweepBegin(list));                    run := run + [SweepBegin(list)];
    Append(s, run, SweepSelect);                         run := run + [SweepSelect];
    Append(s, run, SweepUnlink(true));                   run := run + [SweepUnlink(true)];
    Append(s, run, FillAt(1, RenamePart(true)));         run := run + [FillAt(1, RenamePart(true))];
    assert id in End(s, run).st.rows && HasKey(End(s, run).st.rows, key);
  }

  /** A call that missed before the first fill ended fills again beside the ready row. */
  lemma SecondFill(key: string, id: string, newId: string) returns (run: seq<Action>)
    requires newId != id
    ensures IsCacheRun(Fresh, run) && SecondCopied(End(Fresh, run), key, id, newId)
  {
    run := ReadyBesideMiss(key, id);
    var more := LeadSecond(End(Fresh, run), key, id, newId);
    Concat(Fresh, run, more);
    run := run + more;
    more := CopySecond(End(Fresh, run), key, id, newId);
    Concat(Fresh, run, more);
    run := run + more;
  }

  lemma ReadyBesideMiss(key: string, id: string) returns (run: seq<Action>)
    ensures IsCacheRun(Fresh, run) && ReadyButMissed(End(Fresh, run), key, id)
  {
    run := MissTwice(key);
    var more := LeadFirst(End(Fresh, run), key, id);
    Concat(Fresh, run, more);
    run := run + more;
    more := FillFirst(End(Fresh, run), key, id);
    Concat(Fresh, run, more);
    run := run + more;
    more := MarkFirst(End(Fresh, run), key, id);
    Concat(Fresh, run, more);
    run := run + more;
    more := CloseFirst(End(Fresh, run), key, id);
    Concat(Fresh, run, more);
    run := run + more;
  }

  /** Both steps do orphan a file: the sweep evicts the ready row before the second fill renames, or
      deletes it after the rename has brought its file back.  No sweep will find that file. */
  lemma OrphanIsReachable(key: string, id: string, newId: string, bySweep: bool) returns (run: seq<Action>, last: Action)
    requires newId != id
    ensures IsCacheRun(Fresh, run) && EveryFileHasRow(End(Fresh, run).st) && CanDo(End(Fresh, run), last)
    ensures last == if bySweep then SweepDelete(true) else FillAt(1, RenamePart(true))
    ensures var s := Do(End(Fresh, run), last); key in s.st.files && !HasKey(s.st.rows, key)
  {
    run := SecondFill(key, id, newId);
    var more;
    if bySweep {
      more := SweepAroundRename(End(Fresh, run), key, id, newId);
      last := SweepDelete(true);
    } else {
      more := SweepBeforeRename(End(Fresh, run), key, id, newId);
      last := FillAt(1, RenamePart(true));
    }
    Concat(Fresh, run, more);
    run := run + more;
  }

  /** And a sweep does unlink under a reader that acquires after the busy check: the row still says ready. */
  lemma LateReaderIsHit(key: string, id: string, h: nat) returns (run: seq<Action>)
    ensures IsCacheRun(Fresh, run)
    ensures var s := End(Fresh, run); h in s.holders && s.holders[h].id == id && Hits(s.st.rows, key, id) && key !in s.st.files
  {
    run := ReadyBesideMiss(key, id);
    var more := AcquireInSweep(End(Fresh, run), key, id, h);
    Concat(Fresh, run, more);
    run := run + more;
  }

  lemma AcquireInSweep(s: State, key: string, id: string, h: nat) returns (run: seq<Action>)
    requires ReadyButMissed(s, key, id)
    ensures IsCacheRun(s, run)
    ensures var t := End(s, run); h in t.holders && t.holders[h].id == id && Hits(t.st.rows, key, id) && key !in t.st.files
  {
    var list := [Listed(id, key)];
    run := [];
    Append(s, run, SweepBegin(list));                    run := run + [SweepBegin(list)];
    Append(s, run, SweepSelect);                         run := run + [SweepSelect];
    Append(s, run, Acquire(h, id));                      run := run + [Acquire(h, id)];
    Append(s, run, SweepUnlink(true));                   run := run + [SweepUnlink(true)];
  }
}
