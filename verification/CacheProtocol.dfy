/** The cache fill and the eviction sweep together: any number of StartOrJoin calls, readers, and
    one sweep at a time, over the row table and the disk, with every outcome of every network,
    disk and database operation (internal/streaming/cache.go).

    The path of an entry is a function of its cache key, so files and .part files are indexed by
    cache key. */
module CacheProtocol {
  import opened Wrappers
  import opened CacheTable
  import opened SingleFlight

  /** Where fetchAsLeader stands; inserted says whether its INSERT took effect. */
  datatype Fill =
    | Fetching
    | PartOpen(id: string)                             // .part created, entry id minted
    | Copying(id: string, inserted: bool)              // InsertCacheEntry returned nil
    | Copied(id: string, inserted: bool, n: nat)
    | Renamed(id: string, inserted: bool, n: nat)
    | Cleaning(id: string, inserted: bool, mark: bool) // error path, before removing .part
    | Marking(id: string, inserted: bool)              // error path, before marking the row failed

  datatype FillStep =
    | FetchError                                       // fetch, nil body, mkdir or create failed
    | CreatePart(newId: string)
    | InsertRow(ok: bool, now: int)
    | CopyBody(ok: bool, n: nat)
    | RenamePart(ok: bool)
    | RemovePart(ok: bool)
    | MarkFailed(ok: bool)
    | MarkReady(ok: bool)

  datatype Progress = Go(fill: Fill) | Done(answer: Answer)

  datatype Storage = Storage(
    rows: Table,
    files: map<string, nat>,       // cache key -> size of the file at PathFor
    parts: set<string>,            // cache keys whose .part file exists
    ids: set<string>,              // every entry id minted so far
    won: set<string>,              // ids whose INSERT took effect
    swept: set<string>,            // ids whose file a sweep has unlinked
    stuck: set<string>)            // keys whose .part could not be removed at some point

  predicate FillEnabled(st: Storage, p: Fill, a: FillStep) {
    match a
    case FetchError => p == Fetching
    case CreatePart(newId) => p == Fetching && newId !in st.ids
    case InsertRow(_, _) => p.PartOpen?
    case CopyBody(_, _) => p.Copying?
    case RenamePart(_) => p.Copied?
    case RemovePart(_) => p.Cleaning?
    case MarkFailed(_) => p.Marking?
    case MarkReady(_) => p.Renamed?
  }

  ghost function FillStorage(st: Storage, key: string, p: Fill, a: FillStep): Storage
    requires FillEnabled(st, p, a)
  {
    match a
    case FetchError => st
    case CreatePart(newId) => st.(parts := st.parts + {key}, ids := st.ids + {newId})
    case InsertRow(ok, now) =>
      if !ok then st
      else st.(rows := Insert(st.rows, p.id, Row(key, Pending, 0, now)),
               won := if HasKey(st.rows, key) then st.won else st.won + {p.id})
    case CopyBody(_, _) => st
    case RenamePart(ok) => if ok then st.(parts := st.parts - {key}, files := st.files[key := p.n]) else st
    case RemovePart(ok) => if ok then st.(parts := st.parts - {key}) else st.(stuck := st.stuck + {key})
    case MarkFailed(ok) => if ok then st.(rows := UpdateStatus(st.rows, p.id, Failed, 0)) else st
    case MarkReady(ok) => if ok then st.(rows := UpdateStatus(st.rows, p.id, Ready, p.n)) else st
  }

  ghost function FillProgress(st: Storage, key: string, p: Fill, a: FillStep): Progress
    requires FillEnabled(st, p, a)
  {
    match a
    case FetchError => Done(FillError)
    case CreatePart(newId) => Go(PartOpen(newId))
    case InsertRow(ok, _) => if ok then Go(Copying(p.id, !HasKey(st.rows, key))) else Go(Cleaning(p.id, false, false))
    case CopyBody(ok, n) => if ok then Go(Copied(p.id, p.inserted, n)) else Go(Cleaning(p.id, p.inserted, true))
    case RenamePart(ok) => if ok then Go(Renamed(p.id, p.inserted, p.n)) else Go(Cleaning(p.id, p.inserted, true))
    case RemovePart(_) => if p.mark then Go(Marking(p.id, p.inserted)) else Done(FillError)
    case MarkFailed(_) => Done(FillError)
    case MarkReady(ok) => if ok then Done(Entry(p.id, key, p.n)) else Done(FillError)
  }

  datatype Listed = Listed(id: string, key: string)

  datatype Sweep =
    | Idle
    | Scanning(todo: seq<Listed>)
    | Selected(entry: Listed, todo: seq<Listed>, at: nat)  // busy check passed, before unlink
    | Unlinked(entry: Listed, todo: seq<Listed>, at: nat)  // before deleting the row

  /** An outstanding release closure and the step at which it was acquired. */
  datatype Holder = Holder(id: string, since: nat)

  datatype State = State(flight: Flight, fills: map<nat, Fill>, st: Storage,
                         holders: map<nat, Holder>, sweep: Sweep, clock: nat)

  datatype Action =
    | CallAt(g: nat, step: Step)               // any StartOrJoin step outside the fill
    | FillAt(g: nat, fillStep: FillStep)
    | Acquire(h: nat, held: string)
    | Release(h: nat)
    | SweepBegin(list: seq<Listed>)
    | SweepSkip
    | SweepSelect
    | SweepUnlink(ok: bool)                    // ok also covers "already gone"
    | SweepDelete(ok: bool)
    | SweepStop                                // total at or below the target, or list exhausted

  const Fresh := State(Start, map[], Storage(map[], map[], {}, {}, {}, {}, {}), map[], Idle, 0)

  ghost predicate InUse(s: State, id: string) {
    exists h :: h in s.holders && s.holders[h].id == id
  }

  /** What SELECT ... WHERE status = 'ready' can return: ready rows, each once. */
  ghost predicate IsListing(t: Table, list: seq<Listed>) {
    && (forall i :: 0 <= i < |list| ==> Hits(t, list[i].key, list[i].id))
    && (forall i, j :: 0 <= i < j < |list| ==> list[i].id != list[j].id)
  }

  /** A fill whose context is done cannot end in success. */
  predicate MayEnd(f: Flight, g: nat, next: Progress) {
    next.Done? ==> Enabled(f, g, Finish(next.answer))
  }

  ghost predicate CanDo(s: State, a: Action) {
    match a
    case CallAt(g, step) =>
      Enabled(s.flight, g, step) && !step.Finish? &&
      (step.Hit? ==> Hits(s.st.rows, s.flight.calls[g].key, step.answer.id) &&
                     step.answer == Entry(step.answer.id, s.flight.calls[g].key, s.st.rows[step.answer.id].bytes))
    case FillAt(g, fs) =>
      && g in s.fills && g in s.flight.calls && s.flight.calls[g].pc == Leading && FillEnabled(s.st, s.fills[g], fs)
      && MayEnd(s.flight, g, FillProgress(s.st, s.flight.calls[g].key, s.fills[g], fs))
    case Acquire(h, _) => h !in s.holders
    case Release(h) => h in s.holders
    case SweepBegin(list) => s.sweep == Idle && IsListing(s.st.rows, list)
    case SweepSkip => s.sweep.Scanning? && s.sweep.todo != [] && InUse(s, s.sweep.todo[0].id)
    case SweepSelect => s.sweep.Scanning? && s.sweep.todo != [] && !InUse(s, s.sweep.todo[0].id)
    case SweepUnlink(_) => s.sweep.Selected?
    case SweepDelete(_) => s.sweep.Unlinked?
    case SweepStop => s.sweep.Scanning?
  }

  ghost function StepCall(s: State, g: nat, step: Step): State
    requires Enabled(s.flight, g, step)
  {
    var flight := Apply(s.flight, g, step);
    s.(flight := flight, fills := if step == LoadOrStore && flight.calls[g].pc == Leading then s.fills[g := Fetching] else s.fills)
  }

  ghost function StepFill(s: State, g: nat, fs: FillStep): State
    requires CanDo(s, FillAt(g, fs))
  {
    var key := s.flight.calls[g].key;
    var s' := s.(st := FillStorage(s.st, key, s.fills[g], fs));
    match FillProgress(s.st, key, s.fills[g], fs)
    case Go(p) => s'.(fills := s.fills[g := p])
    case Done(r) => s'.(fills := s.fills - {g}, flight := Apply(s.flight, g, Finish(r)))
  }

  ghost function StepSweep(s: State, a: Action): State
    requires CanDo(s, a)
  {
    match a
    case SweepBegin(list) => s.(sweep := Scanning(list))
    case SweepSkip => s.(sweep := Scanning(s.sweep.todo[1..]))
    case SweepSelect => s.(sweep := Selected(s.sweep.todo[0], s.sweep.todo[1..], s.clock))
    case SweepUnlink(ok) =>
      var e := s.sweep.entry;
      if ok then s.(st := s.st.(files := s.st.files - {e.key}, swept := s.st.swept + {e.id}),
                    sweep := Unlinked(e, s.sweep.todo, s.sweep.at))
      else s.(sweep := Scanning(s.sweep.todo))
    case SweepDelete(ok) =>
      s.(st := if ok then s.st.(rows := Delete(s.st.rows, s.sweep.entry.id)) else s.st,
         sweep := Scanning(s.sweep.todo))
    case SweepStop => s.(sweep := Idle)
    case _ => s
  }

  ghost function Do(s: State, a: Action): State
    requires CanDo(s, a)
  {
    var s' := match a
      case CallAt(g, step) => StepCall(s, g, step)
      case FillAt(g, fs) => StepFill(s, g, fs)
      case Acquire(h, held) => s.(holders := s.holders[h := Holder(held, s.clock)])
      case Release(h) => s.(holders := s.holders - {h})
      case _ => StepSweep(s, a);
    s'.(clock := s.clock + 1)
  }

  // ---------------------------------------------------------------- invariants

  predicate HasPart(p: Fill) {
    p.PartOpen? || p.Copying? || p.Copied? || p.Cleaning?
  }

  /** A fill and its own row: present and pending exactly when its INSERT took effect, and after
      the rename the file has the size the fill will report. */
  predicate OwnRow(st: Storage, key: string, p: Fill) {
    p != Fetching ==>
      && p.id in st.ids
      && (if !p.PartOpen? && p.inserted
          then p.id in st.rows && st.rows[p.id].cacheKey == key && st.rows[p.id].status == Pending
          else p.id !in st.won)
      && (p.Renamed? && p.inserted ==> key in st.files && st.files[key] == p.n)
  }

  ghost predicate FillsOk(s: State) {
    && (forall g :: g in s.fills <==> g in s.flight.calls && s.flight.calls[g].pc == Leading)
    && (forall g :: g in s.fills ==> OwnRow(s.st, s.flight.calls[g].key, s.fills[g]))
    && (forall g, h :: g in s.fills && h in s.fills && g != h && s.fills[g] != Fetching && s.fills[h] != Fetching ==>
          s.fills[g].id != s.fills[h].id)
  }

  /** A .part file belongs to a running fill of its key, unless removing one failed. */
  ghost predicate PartsOk(s: State) {
    forall k :: k in s.st.parts && k !in s.st.stuck ==>
      k in s.flight.inflight && s.flight.inflight[k] in s.fills && HasPart(s.fills[s.flight.inflight[k]])
  }

  /** Every ready row has its file, until a sweep unlinks that row's file. */
  ghost predicate RowsOk(st: Storage) {
    && UniqueKeys(st.rows)
    && st.rows.Keys <= st.won <= st.ids
    && (forall id :: id in st.rows && st.rows[id].status == Ready && id !in st.swept ==> st.rows[id].cacheKey in st.files)
  }

  ghost predicate SweepOk(s: State) {
    && (s.sweep != Idle ==>
          && IsListing(s.st.rows, s.sweep.todo))
    && (s.sweep.Selected? || s.sweep.Unlinked? ==>
          && Hits(s.st.rows, s.sweep.entry.key, s.sweep.entry.id)
          && s.sweep.at < s.clock
          && (forall i :: 0 <= i < |s.sweep.todo| ==> s.sweep.todo[i].id != s.sweep.entry.id)
          && (forall h :: h in s.holders && s.holders[h].id == s.sweep.entry.id ==> s.sweep.at < s.holders[h].since))
    && (s.sweep.Unlinked? ==> s.sweep.entry.id in s.st.swept)
  }

  ghost predicate CacheInv(s: State) {
    Inv(s.flight) && s.flight.detached && FillsOk(s) && PartsOk(s) && RowsOk(s.st) && SweepOk(s)
  }

  /** The row a successful leader reported is there, ready, with the reported size, until a sweep
      has unlinked its file; a leader whose INSERT did nothing reported a row that never exists. */
  predicate Kept(st: Storage, key: string, r: Answer) {
    r.Entry? ==>
      && r.key == key
      && r.id in st.ids
      && (r.id in st.won && r.id !in st.swept ==> Hits(st.rows, key, r.id) && st.rows[r.id].bytes == r.bytes)
  }

  predicate OtherId(p: Fill, r: Answer) {
    p != Fetching && r.Entry? ==> p.id != r.id
  }

  ghost predicate AnswersOk(s: State) {
    forall g :: g in s.flight.calls && Given(s.flight.calls[g]).Some? ==>
      && Kept(s.st, s.flight.calls[g].key, Given(s.flight.calls[g]).value)
      && (forall h :: h in s.fills ==> OtherId(s.fills[h], Given(s.flight.calls[g]).value))
  }

  /** f' differs from f by one step of call g outside the fill: it starts at most its own fill,
      and every running fill stays where it is. */
  ghost predicate OutsideFill(f: Flight, f': Flight, g: nat) {
    && (forall h :: h in f.calls ==> h in f'.calls && f'.calls[h].key == f.calls[h].key)
    && (forall h :: h in f'.calls && h != g ==> h in f.calls && f'.calls[h] == f.calls[h])
    && (g in f.calls && f.calls[g].pc == Leading ==> g in f'.calls && f'.calls[g].pc == Leading)
    && (forall k :: k in f.inflight && f.inflight[k] in f.calls && f.calls[f.inflight[k]].pc == Leading ==>
          k in f'.inflight && f'.inflight[k] == f.inflight[k])
  }

  lemma CallStepFrame(f: Flight, g: nat, step: Step)
    requires Inv(f) && Enabled(f, g, step) && !step.Finish?
    ensures OutsideFill(f, Apply(f, g, step), g)
    ensures g in f.calls && f.calls[g].pc == Leading ==> step != LoadOrStore
    ensures Apply(f, g, step).calls[g].pc == Leading ==> (g in f.calls && f.calls[g].pc == Leading) || step == LoadOrStore
  {
    if g in f.calls { assert DownloadOk(f.calls[g]); }
  }

  lemma OutsideFillKeeps(s: State, s': State, g: nat)
    requires FillsOk(s) && PartsOk(s) && OutsideFill(s.flight, s'.flight, g) && s'.st == s.st
    requires g in s'.flight.calls && s'.flight.calls[g].pc == Leading && g !in s.fills ==> s'.fills == s.fills[g := Fetching]
    requires !(g in s'.flight.calls && s'.flight.calls[g].pc == Leading && g !in s.fills) ==> s'.fills == s.fills
    ensures FillsOk(s') && PartsOk(s')
  {
    forall h | h in s'.fills ensures OwnRow(s'.st, s'.flight.calls[h].key, s'.fills[h]) {
      if h in s.fills { assert OwnRow(s.st, s.flight.calls[h].key, s.fills[h]); }
    }
  }

  lemma CallStepKeeps(s: State, g: nat, step: Step)
    requires CacheInv(s) && CanDo(s, CallAt(g, step))
    ensures CacheInv(Do(s, CallAt(g, step)))
  {
    StepKeepsInv(s.flight, g, step);
    CallStepFrame(s.flight, g, step);
    OutsideFillKeeps(s, Do(s, CallAt(g, step)), g);
  }

  /** A fill leaves ready rows alone: they belong to other ids. */
  lemma FillKeepsHits(st: Storage, key: string, p: Fill, a: FillStep, k: string, id: string)
    requires RowsOk(st) && OwnRow(st, key, p) && FillEnabled(st, p, a) && Hits(st.rows, k, id)
    ensures Hits(FillStorage(st, key, p, a).rows, k, id)
  {
  }

  lemma FillKeepsRows(st: Storage, key: string, p: Fill, a: FillStep)
    requires RowsOk(st) && OwnRow(st, key, p) && FillEnabled(st, p, a)
    ensures RowsOk(FillStorage(st, key, p, a))
  {
  }

  lemma FillKeepsOwnRow(st: Storage, key: string, p: Fill, a: FillStep)
    requires RowsOk(st) && OwnRow(st, key, p) && FillEnabled(st, p, a)
    ensures FillProgress(st, key, p, a).Go? ==>
      OwnRow(FillStorage(st, key, p, a), key, FillProgress(st, key, p, a).fill)
  {
  }

  lemma FillKeepsOtherRow(st: Storage, key: string, p: Fill, a: FillStep, key2: string, q: Fill)
    requires RowsOk(st) && OwnRow(st, key, p) && FillEnabled(st, p, a)
    requires OwnRow(st, key2, q) && key != key2 && (p != Fetching && q != Fetching ==> p.id != q.id)
    ensures OwnRow(FillStorage(st, key, p, a), key2, q)
    ensures q != Fetching && FillProgress(st, key, p, a).Go? ==> FillProgress(st, key, p, a).fill.id != q.id
  {
  }

  lemma FillPartsFrame(st: Storage, key: string, p: Fill, a: FillStep)
    requires FillEnabled(st, p, a)
    requires key in st.parts && key !in st.stuck ==> HasPart(p)
    ensures var st' := FillStorage(st, key, p, a);
      && (forall k :: k != key ==> (k in st'.parts <==> k in st.parts) && (k in st'.stuck <==> k in st.stuck))
      && (key in st'.parts && key !in st'.stuck ==>
            FillProgress(st, key, p, a).Go? && HasPart(FillProgress(st, key, p, a).fill))
      && st'.swept == st.swept
      && (FillProgress(st, key, p, a).Go? ==> FillProgress(st, key, p, a).fill != Fetching)
      && (FillProgress(st, key, p, a).Done? ==> !FillProgress(st, key, p, a).answer.Cancelled?)
  {
  }

  /** One fill moved from p to its next place, or finished; the others are where they were. */
  ghost predicate OneFillMoved(s: State, s': State, g: nat, next: Progress) {
    && s'.fills == (if next.Go? then s.fills[g := next.fill] else s.fills - {g})
    && s'.flight.inflight == s.flight.inflight
    && s'.flight.calls.Keys == s.flight.calls.Keys
    && (forall h :: h in s.flight.calls ==> s'.flight.calls[h].key == s.flight.calls[h].key)
    && (forall h :: h in s.flight.calls && h != g ==> s'.flight.calls[h].pc == s.flight.calls[h].pc)
    && (g in s.flight.calls ==> (s'.flight.calls[g].pc == Leading <==> next.Go?))
  }

  lemma MovedKeepsFills(s: State, s': State, g: nat, next: Progress)
    requires FillsOk(s) && g in s.fills && OneFillMoved(s, s', g, next)
    requires next.Go? ==> OwnRow(s'.st, s.flight.calls[g].key, next.fill)
    requires forall h :: h in s.fills && h != g ==>
      OwnRow(s'.st, s.flight.calls[h].key, s.fills[h]) &&
      (next.Go? && next.fill != Fetching && s.fills[h] != Fetching ==> next.fill.id != s.fills[h].id)
    ensures FillsOk(s')
  {
  }

  lemma FillMovesOne(s: State, g: nat, fs: FillStep)
    requires Inv(s.flight) && CanDo(s, FillAt(g, fs))
    ensures OneFillMoved(s, Do(s, FillAt(g, fs)), g, FillProgress(s.st, s.flight.calls[g].key, s.fills[g], fs))
    ensures Do(s, FillAt(g, fs)).st == FillStorage(s.st, s.flight.calls[g].key, s.fills[g], fs)
  {
  }

  lemma FillKeepsOther(s: State, g: nat, fs: FillStep, h: nat)
    requires CacheInv(s) && CanDo(s, FillAt(g, fs)) && h in s.fills && h != g
    ensures var key, p := s.flight.calls[g].key, s.fills[g];
      && OwnRow(FillStorage(s.st, key, p, fs), s.flight.calls[h].key, s.fills[h])
      && (s.fills[h] != Fetching && FillProgress(s.st, key, p, fs).Go? ==> FillProgress(s.st, key, p, fs).fill.id != s.fills[h].id)
  {
    FillKeepsOtherRow(s.st, s.flight.calls[g].key, s.fills[g], fs, s.flight.calls[h].key, s.fills[h]);
  }

  lemma FillKeepsOthers(s: State, g: nat, fs: FillStep)
    requires CacheInv(s) && CanDo(s, FillAt(g, fs))
    ensures var key, p := s.flight.calls[g].key, s.fills[g];
      forall h :: h in s.fills && h != g ==>
        OwnRow(FillStorage(s.st, key, p, fs), s.flight.calls[h].key, s.fills[h]) &&
        (s.fills[h] != Fetching && FillProgress(s.st, key, p, fs).Go? ==> FillProgress(s.st, key, p, fs).fill.id != s.fills[h].id)
  {
    var key, p := s.flight.calls[g].key, s.fills[g];
    forall h | h in s.fills && h != g
      ensures OwnRow(FillStorage(s.st, key, p, fs), s.flight.calls[h].key, s.fills[h])
      ensures s.fills[h] != Fetching && FillProgress(s.st, key, p, fs).Go? ==> FillProgress(s.st, key, p, fs).fill.id != s.fills[h].id
    {
      FillKeepsOther(s, g, fs, h);
    }
  }

  lemma FillKeepsFills(s: State, g: nat, fs: FillStep)
    requires CacheInv(s) && CanDo(s, FillAt(g, fs))
    ensures FillsOk(Do(s, FillAt(g, fs)))
  {
    var key, p := s.flight.calls[g].key, s.fills[g];
    FillKeepsOwnRow(s.st, key, p, fs);
    FillMovesOne(s, g, fs);
    FillKeepsOthers(s, g, fs);
    MovedKeepsFills(s, Do(s, FillAt(g, fs)), g, FillProgress(s.st, key, p, fs));
  }

  lemma FillKeepsParts(s: State, g: nat, fs: FillStep)
    requires CacheInv(s) && CanDo(s, FillAt(g, fs))
    ensures PartsOk(Do(s, FillAt(g, fs)))
  {
    var key, s' := s.flight.calls[g].key, Do(s, FillAt(g, fs));
    FillPartsFrame(s.st, key, s.fills[g], fs);
    FillMovesOne(s, g, fs);
    forall k | k in s'.st.parts && k !in s'.st.stuck
      ensures k in s'.flight.inflight && s'.flight.inflight[k] in s'.fills && HasPart(s'.fills[s'.flight.inflight[k]])
    {
      if k != key { assert k in s.st.parts && k !in s.st.stuck; }
    }
  }

  lemma FillStepKeeps(s: State, g: nat, fs: FillStep)
    requires CacheInv(s) && CanDo(s, FillAt(g, fs))
    ensures CacheInv(Do(s, FillAt(g, fs)))
  {
    var key, p := s.flight.calls[g].key, s.fills[g];
    FillKeepsRows(s.st, key, p, fs);
    FillKeepsFills(s, g, fs);
    FillKeepsParts(s, g, fs);
    FillPartsFrame(s.st, key, p, fs);
    forall k, id | Hits(s.st.rows, k, id) ensures Hits(Do(s, FillAt(g, fs)).st.rows, k, id) {
      FillKeepsHits(s.st, key, p, fs, k, id);
    }
    match FillProgress(s.st, key, p, fs)
    case Go(_) =>
    case Done(r) => StepKeepsInv(s.flight, g, Finish(r));
  }

  /** The sweep only ever touches a ready row and the file of its key, so no running fill loses
      its row, and no file that a pending row of a fill relies on. */
  lemma SweepKeepsOwnRow(s: State, a: Action, key: string, p: Fill)
    requires CacheInv(s) && CanDo(s, a) && (a.SweepUnlink? || a.SweepDelete?) && OwnRow(s.st, key, p)
    ensures OwnRow(Do(s, a).st, key, p)
  {
  }

  lemma SweepKeepsStorage(s: State, a: Action)
    requires CacheInv(s) && CanDo(s, a) && (a.SweepUnlink? || a.SweepDelete?)
    ensures RowsOk(Do(s, a).st)
  {
  }

  lemma SweepKeepsRows(s: State, a: Action)
    requires CacheInv(s) && CanDo(s, a) && (a.SweepUnlink? || a.SweepDelete?)
    ensures RowsOk(Do(s, a).st) && SweepOk(Do(s, a))
  {
    SweepKeepsStorage(s, a);
  }

  /** Unlinking and deleting touch no fill, no .part file and no call. */
  lemma SweepWorkKeeps(s: State, a: Action)
    requires CacheInv(s) && CanDo(s, a) && (a.SweepUnlink? || a.SweepDelete?)
    ensures CacheInv(Do(s, a))
  {
    SweepKeepsRows(s, a);
    assert Do(s, a).fills == s.fills && Do(s, a).flight == s.flight && Do(s, a).st.parts == s.st.parts && Do(s, a).st.stuck == s.st.stuck;
    forall g | g in s.fills ensures OwnRow(Do(s, a).st, s.flight.calls[g].key, s.fills[g]) {
      SweepKeepsOwnRow(s, a, s.flight.calls[g].key, s.fills[g]);
    }
  }

  /** Listing, choosing and counting readers change no storage at all. */
  lemma ScanKeeps(s: State, a: Action)
    requires CacheInv(s) && CanDo(s, a) && !a.CallAt? && !a.FillAt? && !a.SweepUnlink? && !a.SweepDelete?
    ensures CacheInv(Do(s, a))
  {
    assert Do(s, a).st == s.st && Do(s, a).fills == s.fills && Do(s, a).flight == s.flight;
  }

  lemma SweepStepKeeps(s: State, a: Action)
    requires CacheInv(s) && CanDo(s, a) && !a.CallAt? && !a.FillAt?
    ensures CacheInv(Do(s, a))
  {
    if a.SweepUnlink? || a.SweepDelete? {
      SweepWorkKeeps(s, a);
    } else {
      ScanKeeps(s, a);
    }
  }

  lemma StepKeepsCache(s: State, a: Action)
    requires CacheInv(s) && CanDo(s, a)
    ensures CacheInv(Do(s, a))
  {
    match a
    case CallAt(g, step) => CallStepKeeps(s, g, step);
    case FillAt(g, fs) => FillStepKeeps(s, g, fs);
    case _ => SweepStepKeeps(s, a);
  }

  // ---------------------------------------------------------------- whole runs

  lemma FillKeepsKept(st: Storage, key: string, p: Fill, a: FillStep, k: string, r: Answer)
    requires RowsOk(st) && OwnRow(st, key, p) && FillEnabled(st, p, a) && Kept(st, k, r) && OtherId(p, r)
    ensures Kept(FillStorage(st, key, p, a), k, r)
    ensures FillProgress(st, key, p, a).Go? ==> OtherId(FillProgress(st, key, p, a).fill, r)
  {
  }

  lemma FillAnswerKept(st: Storage, key: string, p: Fill, a: FillStep)
    requires RowsOk(st) && OwnRow(st, key, p) && FillEnabled(st, p, a) && FillProgress(st, key, p, a).Done?
    ensures Kept(FillStorage(st, key, p, a), key, FillProgress(st, key, p, a).answer)
    ensures FillProgress(st, key, p, a).answer.Entry? ==> FillProgress(st, key, p, a).answer.id == p.id
  {
  }

  lemma CallStepKeepsGiven(f: Flight, g: nat, step: Step, h: nat)
    requires Inv(f) && Enabled(f, g, step) && !step.Finish? && h in Apply(f, g, step).calls
    ensures Given(Apply(f, g, step).calls[h]) ==
            if h == g && step.Hit? then Some(step.answer) else if h in f.calls then Given(f.calls[h]) else None
    ensures h in f.calls ==> Apply(f, g, step).calls[h].key == f.calls[h].key
  {
    if g in f.calls { assert DownloadOk(f.calls[g]); }
  }

  /** A ready row belongs to no running fill: what a call finds is kept like a fill's own answer. */
  lemma FoundIsKept(s: State, g: nat, r: Answer)
    requires CacheInv(s) && CanDo(s, CallAt(g, Hit(r)))
    ensures Kept(s.st, s.flight.calls[g].key, r)
    ensures forall h :: h in s.fills ==> OtherId(s.fills[h], r)
  {
    forall h | h in s.fills ensures OtherId(s.fills[h], r) { assert OwnRow(s.st, s.flight.calls[h].key, s.fills[h]); }
  }

  lemma CallKeepsAnswers(s: State, g: nat, step: Step)
    requires CacheInv(s) && AnswersOk(s) && CanDo(s, CallAt(g, step))
    ensures AnswersOk(Do(s, CallAt(g, step)))
  {
    var s' := Do(s, CallAt(g, step));
    assert s'.st == s.st && (s'.fills == s.fills || s'.fills == s.fills[g := Fetching]);
    forall h | h in s'.flight.calls && Given(s'.flight.calls[h]).Some?
      ensures Kept(s'.st, s'.flight.calls[h].key, Given(s'.flight.calls[h]).value)
      ensures forall q :: q in s'.fills ==> OtherId(s'.fills[q], Given(s'.flight.calls[h]).value)
    {
      CallStepKeepsGiven(s.flight, g, step, h);
      if h == g && step.Hit? {
        FoundIsKept(s, g, step.answer);
      } else {
        assert Given(s.flight.calls[h]).Some?;
      }
    }
  }

  /** What a fill step does to the answers: only the fill's own call can get one, and it is kept. */
  lemma FillKeepsAnswer(s: State, g: nat, fs: FillStep, h: nat)
    requires CacheInv(s) && AnswersOk(s) && CanDo(s, FillAt(g, fs))
    requires h in s.flight.calls && Given(s.flight.calls[h]).Some?
    ensures Kept(Do(s, FillAt(g, fs)).st, s.flight.calls[h].key, Given(s.flight.calls[h]).value)
    ensures forall q :: q in Do(s, FillAt(g, fs)).fills ==> OtherId(Do(s, FillAt(g, fs)).fills[q], Given(s.flight.calls[h]).value)
  {
    assert DownloadOk(s.flight.calls[h]);
    FillKeepsKept(s.st, s.flight.calls[g].key, s.fills[g], fs, s.flight.calls[h].key, Given(s.flight.calls[h]).value);
  }

  /** The result of call h after a step of fill g: its old one, or the answer of that fill. */
  lemma AnswerIsOldOrOwn(s: State, g: nat, fs: FillStep, h: nat)
    requires CacheInv(s) && CanDo(s, FillAt(g, fs)) && h in Do(s, FillAt(g, fs)).flight.calls
    ensures h in s.flight.calls && Do(s, FillAt(g, fs)).flight.calls[h].key == s.flight.calls[h].key
    ensures var next, r := FillProgress(s.st, s.flight.calls[g].key, s.fills[g], fs), Given(Do(s, FillAt(g, fs)).flight.calls[h]);
            r == Given(s.flight.calls[h]) || (h == g && next.Done? && r == Some(next.answer))
  {
  }

  lemma FillKeepsAnswers(s: State, g: nat, fs: FillStep)
    requires CacheInv(s) && AnswersOk(s) && CanDo(s, FillAt(g, fs))
    ensures AnswersOk(Do(s, FillAt(g, fs)))
  {
    var key, p, s' := s.flight.calls[g].key, s.fills[g], Do(s, FillAt(g, fs));
    if FillProgress(s.st, key, p, fs).Done? { FillAnswerKept(s.st, key, p, fs); }
    forall h | h in s'.flight.calls && Given(s'.flight.calls[h]).Some?
      ensures Kept(s'.st, s'.flight.calls[h].key, Given(s'.flight.calls[h]).value)
      ensures forall q :: q in s'.fills ==> OtherId(s'.fills[q], Given(s'.flight.calls[h]).value)
    {
      AnswerIsOldOrOwn(s, g, fs, h);
      if Given(s.flight.calls[h]).Some? { FillKeepsAnswer(s, g, fs, h); }
    }
  }

  lemma OthersKeepKept(s: State, a: Action, k: string, r: Answer)
    requires CacheInv(s) && CanDo(s, a) && !a.CallAt? && !a.FillAt? && Kept(s.st, k, r)
    ensures Kept(Do(s, a).st, k, r)
  {
  }

  lemma OthersKeepAnswers(s: State, a: Action)
    requires CacheInv(s) && AnswersOk(s) && CanDo(s, a) && !a.CallAt? && !a.FillAt?
    ensures AnswersOk(Do(s, a))
  {
    assert Do(s, a).flight == s.flight && Do(s, a).fills == s.fills;
    forall h | h in s.flight.calls && Given(s.flight.calls[h]).Some?
      ensures Kept(Do(s, a).st, s.flight.calls[h].key, Given(s.flight.calls[h]).value)
    {
      OthersKeepKept(s, a, s.flight.calls[h].key, Given(s.flight.calls[h]).value);
    }
  }

  lemma StepKeepsAnswers(s: State, a: Action)
    requires CacheInv(s) && AnswersOk(s) && CanDo(s, a)
    ensures AnswersOk(Do(s, a))
  {
    match a
    case CallAt(g, step) => CallKeepsAnswers(s, g, step);
    case FillAt(g, fs) => FillKeepsAnswers(s, g, fs);
    case _ => OthersKeepAnswers(s, a);
  }

  ghost predicate IsCacheRun(s: State, run: seq<Action>)
    decreases |run|
  {
    run == [] || (CanDo(s, run[0]) && IsCacheRun(Do(s, run[0]), run[1..]))
  }

  ghost function End(s: State, run: seq<Action>): State
    requires IsCacheRun(s, run)
    decreases |run|
  {
    if run == [] then s else End(Do(s, run[0]), run[1..])
  }

  lemma {:induction false} RunKeepsCache(s: State, run: seq<Action>)
    requires CacheInv(s) && AnswersOk(s) && IsCacheRun(s, run)
    ensures CacheInv(End(s, run)) && AnswersOk(End(s, run))
    decreases |run|
  {
    if run != [] {
      StepKeepsCache(s, run[0]);
      StepKeepsAnswers(s, run[0]);
      RunKeepsCache(Do(s, run[0]), run[1..]);
    }
  }

  /** The conditional form of the promise on StartOrJoin.  In every reachable state, for every
      leader that returned success: if its INSERT took effect, its row is the one Lookup finds,
      ready and with the reported size, and its file exists, until a sweep unlinks that file; if
      its INSERT did nothing, no row with its id exists at all. */
  lemma SuccessMeansReadyRow(run: seq<Action>, g: nat)
    requires IsCacheRun(Fresh, run)
    requires var c := End(Fresh, run).flight.calls; g in c && c[g].leader && c[g].pc.Returned? && c[g].pc.answer.Entry?
    ensures var s := End(Fresh, run); var c := s.flight.calls[g]; var r := c.pc.answer;
      && r.key == c.key
      && (r.id in s.st.won && r.id !in s.st.swept ==>
            Hits(s.st.rows, c.key, r.id) && s.st.rows[r.id].bytes == r.bytes && c.key in s.st.files)
      && (r.id !in s.st.won ==> r.id !in s.st.rows)
  {
    RunKeepsCache(Fresh, run);
    assert DownloadOk(End(Fresh, run).flight.calls[g]);
  }

  /** A call that finds a ready row returns it at once: the entry of its own key that Lookup finds, with
      the bytes of the row, and with its file unless a sweep has unlinked it. */
  lemma HitServesReadyRow(run: seq<Action>, g: nat, r: Answer)
    requires IsCacheRun(Fresh, run) && CanDo(End(Fresh, run), CallAt(g, Hit(r)))
    ensures var s := Do(End(Fresh, run), CallAt(g, Hit(r)));
      && g in s.flight.calls && s.flight.calls[g].pc.Returned? && s.flight.calls[g].pc.answer.Entry?
      && var key, e := s.flight.calls[g].key, s.flight.calls[g].pc.answer;
        && key == End(Fresh, run).flight.calls[g].key && e.key == key
        && Hits(s.st.rows, key, e.id) && s.st.rows[e.id].bytes == e.bytes
        && (e.id !in s.st.swept ==> key in s.st.files)
  {
    RunKeepsCache(Fresh, run);
  }

  /** A fresh call can return at once if and only if Lookup hits, and then with one answer only. */
  lemma HitIffLookupHits(s: State, g: nat)
    requires CacheInv(s) && g in s.flight.calls && s.flight.calls[g].pc == Entered
    ensures (exists r :: CanDo(s, CallAt(g, Hit(r)))) <==> LookupHits(s.st.rows, s.flight.calls[g].key)
    ensures forall r, q :: CanDo(s, CallAt(g, Hit(r))) && CanDo(s, CallAt(g, Hit(q))) ==> r == q
  {
    var key := s.flight.calls[g].key;
    if id :| Hits(s.st.rows, key, id) {
      assert CanDo(s, CallAt(g, Hit(Entry(id, key, s.st.rows[id].bytes))));
    }
  }

  /** Whatever way a call came by its entry, from a ready row, its own fill or another's: as long as the
      row was ever inserted and no sweep has unlinked its file, the row is the one Lookup finds, ready
      and with those bytes, and the file is there. */
  lemma EveryAnswerIsKept(run: seq<Action>, g: nat)
    requires IsCacheRun(Fresh, run)
    requires var c := End(Fresh, run).flight.calls; g in c && c[g].pc.Returned? && c[g].pc.answer.Entry?
    ensures var s := End(Fresh, run); var c := s.flight.calls[g]; var r := c.pc.answer;
      && r.key == c.key
      && (r.id in s.st.won && r.id !in s.st.swept ==>
            Hits(s.st.rows, c.key, r.id) && s.st.rows[r.id].bytes == r.bytes && c.key in s.st.files)
  {
    RunKeepsCache(Fresh, run);
    var f := End(Fresh, run).flight;
    assert DownloadOk(f.calls[g]) && FollowOk(f, f.calls[g]);
    var l := if f.calls[g].joined.Some? then f.calls[g].joined.value else g;
    assert DownloadOk(f.calls[l]) && Given(f.calls[l]) == Some(f.calls[g].pc.answer);
  }

  /** Exactly when the promise holds: the row the leader is about to report becomes the ready row
      of its key, beside a file of the reported size, if and only if there was no row for the key
      when it inserted. */
  lemma MarkReadyHitsIffInserted(s: State, g: nat)
    requires CacheInv(s) && CanDo(s, FillAt(g, MarkReady(true)))
    ensures var s' := Do(s, FillAt(g, MarkReady(true))); var p, key := s.fills[g], s.flight.calls[g].key;
      && s'.flight.calls[g].result == Some(Entry(p.id, key, p.n))
      && (Hits(s'.st.rows, key, p.id) <==> p.inserted)
      && (p.inserted ==> s'.st.rows[p.id].bytes == p.n && key in s'.st.files && s'.st.files[key] == p.n)
      && (key in s'.st.parts ==> key in s'.st.stuck)
  {
    assert OwnRow(s.st, s.flight.calls[g].key, s.fills[g]);
    MarkReadyLeavesNoPart(s, g);
  }

  lemma MarkReadyLeavesNoPart(s: State, g: nat)
    requires CacheInv(s) && CanDo(s, FillAt(g, MarkReady(true)))
    ensures s.flight.calls[g].key in Do(s, FillAt(g, MarkReady(true))).st.parts ==>
            s.flight.calls[g].key in Do(s, FillAt(g, MarkReady(true))).st.stuck
  {
    FillMovesOne(s, g, MarkReady(true));
    FillPartsFrame(s.st, s.flight.calls[g].key, s.fills[g], MarkReady(true));
  }

  lemma InsertTakesEffectIffNoRow(s: State, g: nat, now: int)
    requires CacheInv(s) && CanDo(s, FillAt(g, InsertRow(true, now)))
    ensures var s' := Do(s, FillAt(g, InsertRow(true, now)));
      && s'.fills[g].inserted == !HasKey(s.st.rows, s.flight.calls[g].key)
      && (s'.fills[g].id in s'.st.won <==> s'.fills[g].inserted)
      && (!s'.fills[g].inserted ==> s'.st.rows == s.st.rows)
  {
    assert OwnRow(s.st, s.flight.calls[g].key, s.fills[g]);
  }

  /** The step fails to remove the .part file of the key. */
  predicate FailsToRemove(a: Action, s: State, key: string) {
    a.FillAt? && a.fillStep == RemovePart(false) && a.g in s.flight.calls && s.flight.calls[a.g].key == key
  }

  lemma FillStuck(st: Storage, key: string, p: Fill, a: FillStep)
    requires FillEnabled(st, p, a)
    ensures FillStorage(st, key, p, a).stuck == if a == RemovePart(false) then st.stuck + {key} else st.stuck
  {
  }

  lemma StuckStep(s: State, a: Action, key: string)
    requires CanDo(s, a)
    ensures key in Do(s, a).st.stuck <==> key in s.st.stuck || FailsToRemove(a, s, key)
  {
    if a.FillAt? {
      FillStuck(s.st, s.flight.calls[a.g].key, s.fills[a.g], a.fillStep);
    } else {
      assert Do(s, a).st.stuck == s.st.stuck;
    }
  }

  ghost predicate FailedToRemove(s: State, run: seq<Action>, key: string)
    requires IsCacheRun(s, run)
    decreases |run|
  {
    run != [] && (FailsToRemove(run[0], s, key) || FailedToRemove(Do(s, run[0]), run[1..], key))
  }

  lemma {:induction false} StuckComesFromTheRun(s: State, run: seq<Action>, key: string)
    requires IsCacheRun(s, run)
    ensures key in End(s, run).st.stuck <==> key in s.st.stuck || FailedToRemove(s, run, key)
    decreases |run|
  {
    if run != [] {
      StuckStep(s, run[0], key);
      StuckComesFromTheRun(Do(s, run[0]), run[1..], key);
    }
  }

  /** On every path after creation the .part file is gone by the time the leader writes its result,
      unless some step of the run failed to remove a .part file of that key. */
  lemma NoPartAfterFill(run: seq<Action>, g: nat)
    requires IsCacheRun(Fresh, run)
    requires var c := End(Fresh, run).flight.calls; g in c && (c[g].pc == Filled || c[g].pc == Signalled)
    ensures var s := End(Fresh, run); s.flight.calls[g].key in s.st.parts ==> FailedToRemove(Fresh, run, s.flight.calls[g].key)
  {
    RunKeepsCache(Fresh, run);
    StuckComesFromTheRun(Fresh, run, End(Fresh, run).flight.calls[g].key);
  }

  /** A fill whose insert fails removes its .part file, touches no row and ends in an error. */
  lemma InsertFailureIsCleanedUp(s: State, g: nat, now: int)
    requires CanDo(s, FillAt(g, InsertRow(false, now)))
    ensures var s1 := Do(s, FillAt(g, InsertRow(false, now)));
      && CanDo(s1, FillAt(g, RemovePart(true))) && var s2 := Do(s1, FillAt(g, RemovePart(true)));
      && s2.st == s.st.(parts := s.st.parts - {s.flight.calls[g].key})
      && g in s2.flight.calls && s2.flight.calls[g].result == Some(FillError) && s2.flight.calls[g].pc == Filled
  {
  }

  /** A fill whose copy or rename fails removes its .part file, then marks its row failed, and ends in an
      error, whatever becomes of the mark. */
  lemma WriteFailureIsCleanedUp(s: State, g: nat, fs: FillStep, marked: bool)
    requires CanDo(s, FillAt(g, fs)) && (fs == RenamePart(false) || (fs.CopyBody? && !fs.ok))
    ensures var id, s1 := s.fills[g].id, Do(s, FillAt(g, fs));
      && CanDo(s1, FillAt(g, RemovePart(true))) && var s2 := Do(s1, FillAt(g, RemovePart(true)));
      && CanDo(s2, FillAt(g, MarkFailed(marked))) && var s3 := Do(s2, FillAt(g, MarkFailed(marked)));
      && s3.st == s.st.(parts := s.st.parts - {s.flight.calls[g].key},
                        rows := if marked then UpdateStatus(s.st.rows, id, Failed, 0) else s.st.rows)
      && g in s3.flight.calls && s3.flight.calls[g].result == Some(FillError) && s3.flight.calls[g].pc == Filled
  {
  }

  // ---------------------------------------------------------------- leftover rows

  /** A row that is not ready and that no running fill owns: its leader failed, or could not write
      the final status. */
  ghost predicate Leftover(s: State, id: string) {
    && id in s.st.rows && s.st.rows[id].status != Ready
    && (forall g :: g in s.fills && s.fills[g] != Fetching ==> s.fills[g].id != id)
  }

  lemma FillKeepsForeignRow(st: Storage, key: string, p: Fill, a: FillStep, id: string)
    requires RowsOk(st) && FillEnabled(st, p, a) && id in st.rows && (p != Fetching ==> p.id != id)
    ensures id in FillStorage(st, key, p, a).rows && FillStorage(st, key, p, a).rows[id] == st.rows[id]
    ensures FillProgress(st, key, p, a).Go? && FillProgress(st, key, p, a).fill != Fetching ==>
      FillProgress(st, key, p, a).fill.id != id
  {
  }

  lemma LeftoverStep(s: State, a: Action, id: string)
    requires CacheInv(s) && CanDo(s, a) && Leftover(s, id)
    ensures Leftover(Do(s, a), id) && Do(s, a).st.rows[id] == s.st.rows[id]
  {
    match a
    case CallAt(g, step) =>
    case FillAt(g, fs) =>
      FillMovesOne(s, g, fs);
      FillKeepsForeignRow(s.st, s.flight.calls[g].key, s.fills[g], fs, id);
    case _ =>
  }

  /** A leftover row stays for ever, unchanged, and as long as it stays every Lookup of its key
      misses: no run of calls, sweeps and readers brings the key back into the cache. */
  lemma {:induction false} LeftoverIsForEver(s: State, run: seq<Action>, id: string)
    requires CacheInv(s) && AnswersOk(s) && Leftover(s, id) && IsCacheRun(s, run)
    ensures id in End(s, run).st.rows && End(s, run).st.rows[id] == s.st.rows[id]
    ensures !LookupHits(End(s, run).st.rows, s.st.rows[id].cacheKey)
    decreases |run|
  {
    if run != [] {
      LeftoverStep(s, run[0], id);
      StepKeepsCache(s, run[0]);
      StepKeepsAnswers(s, run[0]);
      LeftoverIsForEver(Do(s, run[0]), run[1..], id);
    }
  }

  lemma {:induction false} Append(s: State, run: seq<Action>, a: Action)
    requires IsCacheRun(s, run) && CanDo(End(s, run), a)
    ensures IsCacheRun(s, run + [a]) && End(s, run + [a]) == Do(End(s, run), a)
    decreases |run|
  {
    assert run + [a] == (if run == [] then [a] + [] else [run[0]] + (run[1..] + [a]));
    if run != [] { Append(Do(s, run[0]), run[1..], a); }
  }

  lemma {:induction false} Concat(s: State, run: seq<Action>, more: seq<Action>)
    requires IsCacheRun(s, run) && IsCacheRun(End(s, run), more)
    ensures IsCacheRun(s, run + more) && End(s, run + more) == End(End(s, run), more)
    decreases |run|
  {
    if run == [] {
      assert run + more == more;
    } else {
      assert (run + more)[0] == run[0] && (run + more)[1..] == run[1..] + more;
      Concat(Do(s, run[0]), run[1..], more);
    }
  }

  /** Where a fresh call for a key without a leader stands once it has opened its .part file. */
  ghost predicate Opened(s: State, g: nat, key: string, newId: string, rows: Table) {
    && s.flight.detached && g in s.flight.calls && s.flight.calls[g].key == key && s.flight.calls[g].pc == Leading
    && !s.flight.calls[g].timedOut && g in s.fills && s.fills[g] == PartOpen(newId) && s.st.rows == rows
  }

  lemma Lead(s: State, g: nat, key: string) returns (run: seq<Action>)
    requires s.flight.detached && key !in s.flight.inflight && g !in s.flight.calls
    ensures IsCacheRun(s, run)
    ensures var t := End(s, run);
      && t.st == s.st && t.flight.detached && g in t.flight.calls && t.flight.calls[g].key == key
      && t.flight.calls[g].pc == Leading && !t.flight.calls[g].timedOut && g in t.fills && t.fills[g] == Fetching
  {
    run := [];
    Append(s, run, CallAt(g, Enter(key)));               run := run + [CallAt(g, Enter(key))];
    Append(s, run, CallAt(g, Miss));                     run := run + [CallAt(g, Miss)];
    Append(s, run, CallAt(g, LoadOrStore));              run := run + [CallAt(g, LoadOrStore)];
  }

  lemma OpenPart(s: State, g: nat, key: string, newId: string) returns (run: seq<Action>)
    requires s.flight.detached && key !in s.flight.inflight && g !in s.flight.calls && newId !in s.st.ids
    ensures IsCacheRun(s, run) && Opened(End(s, run), g, key, newId, s.st.rows)
  {
    run := Lead(s, g, key);
    Append(s, run, FillAt(g, CreatePart(newId)));        run := run + [FillAt(g, CreatePart(newId))];
  }

  /** From there on, with every step going well, the leader reports its entry. */
  lemma FinishOpened(s: State, g: nat, key: string, newId: string, rows: Table, n: nat) returns (run: seq<Action>)
    requires Opened(s, g, key, newId, rows)
    ensures IsCacheRun(s, run)
    ensures var t := End(s, run); g in t.flight.calls && t.flight.calls[g].result == Some(Entry(newId, key, n))
  {
    run := [];
    Append(s, run, FillAt(g, InsertRow(true, 0)));       run := run + [FillAt(g, InsertRow(true, 0))];
    Append(s, run, FillAt(g, CopyBody(true, n)));        run := run + [FillAt(g, CopyBody(true, n))];
    Append(s, run, FillAt(g, RenamePart(true)));         run := run + [FillAt(g, RenamePart(true))];
    Append(s, run, FillAt(g, MarkReady(true)));          run := run + [FillAt(g, MarkReady(true))];
  }

  /** The counterexample: while a leftover row holds the key, a fresh call whose every step goes
      well still returns success, with an entry that no Lookup of the key will ever find. */
  lemma SuccessWithoutReadyRow(s: State, id: string, g: nat, newId: string, n: nat) returns (run: seq<Action>)
    requires CacheInv(s) && AnswersOk(s) && Leftover(s, id)
    requires s.st.rows[id].cacheKey !in s.flight.inflight && g !in s.flight.calls && newId !in s.st.ids
    ensures IsCacheRun(s, run)
    ensures var s', key := End(s, run), s.st.rows[id].cacheKey;
      && g in s'.flight.calls && s'.flight.calls[g].result == Some(Entry(newId, key, n))
      && !LookupHits(s'.st.rows, key)
  {
    var key := s.st.rows[id].cacheKey;
    run := OpenPart(s, g, key, newId);
    var more := FinishOpened(End(s, run), g, key, newId, s.st.rows, n);
    Concat(s, run, more);
    run := run + more;
    LeftoverIsForEver(s, run, id);
  }

  lemma FailCopy(key: string, newId: string) returns (run: seq<Action>)
    ensures IsCacheRun(Fresh, run)
    ensures var s := End(Fresh, run);
      && 0 in s.fills && s.fills[0] == Marking(newId, true) && 0 in s.flight.calls && s.flight.calls[0].pc == Leading
      && s.flight.calls[0].key == key && newId in s.st.rows && s.st.rows[newId] == Row(key, Pending, 0, 0)
  {
    run := OpenPart(Fresh, 0, key, newId);
    Append(Fresh, run, FillAt(0, InsertRow(true, 0)));   run := run + [FillAt(0, InsertRow(true, 0))];
    Append(Fresh, run, FillAt(0, CopyBody(false, 0)));   run := run + [FillAt(0, CopyBody(false, 0))];
    Append(Fresh, run, FillAt(0, RemovePart(true)));     run := run + [FillAt(0, RemovePart(true))];
  }

  /** Marking its row failed ends a fill and leaves the row behind. */
  lemma MarkedFailed(s: State, g: nat, id: string)
    requires FillsOk(s) && g in s.fills && s.fills[g] == Marking(id, true)
    ensures CanDo(s, FillAt(g, MarkFailed(true)))
    ensures var s' := Do(s, FillAt(g, MarkFailed(true)));
      && Leftover(s', id) && s'.st.rows[id] == s.st.rows[id].(status := Failed, bytes := 0)
      && g in s'.flight.calls && s'.flight.calls[g].key == s.flight.calls[g].key && s'.flight.calls[g].pc == Filled
      && s'.flight.calls[g].result.Some?
  {
    assert OwnRow(s.st, s.flight.calls[g].key, s.fills[g]);
    assert Do(s, FillAt(g, MarkFailed(true))).fills == s.fills - {g};
  }

  /** Closing and forgetting the download afterwards touches neither table nor fills. */
  lemma ClosedAfterwards(s: State, g: nat)
    requires g in s.flight.calls && s.flight.calls[g].pc == Filled && s.flight.calls[g].result.Some?
    ensures CanDo(s, CallAt(g, CloseDone)) && CanDo(Do(s, CallAt(g, CloseDone)), CallAt(g, DeleteInflight))
    ensures var s' := Do(Do(s, CallAt(g, CloseDone)), CallAt(g, DeleteInflight));
      s'.st == s.st && s'.fills == s.fills && s.flight.calls[g].key !in s'.flight.inflight
  {
  }

  /** Leftover rows are reachable: one fill whose body cannot be copied leaves one. */
  lemma LeftoverIsReachable(key: string, newId: string) returns (run: seq<Action>)
    ensures IsCacheRun(Fresh, run) && Leftover(End(Fresh, run), newId)
    ensures End(Fresh, run).st.rows[newId] == Row(key, Failed, 0, 0) && key !in End(Fresh, run).flight.inflight
  {
    run := FailCopy(key, newId);
    RunKeepsCache(Fresh, run);
    MarkedFailed(End(Fresh, run), 0, newId);
    ClosedAfterwards(Do(End(Fresh, run), FillAt(0, MarkFailed(true))), 0);
    Append(Fresh, run, FillAt(0, MarkFailed(true)));     run := run + [FillAt(0, MarkFailed(true))];
    Append(Fresh, run, CallAt(0, CloseDone));            run := run + [CallAt(0, CloseDone)];
    Append(Fresh, run, CallAt(0, DeleteInflight));       run := run + [CallAt(0, DeleteInflight)];
  }

  // ---------------------------------------------------------------- readers against the sweep

  /** The sweep is not between its busy check of id and the end of its work on id. */
  predicate NotChosen(s: State, id: string) {
    s.sweep.Selected? || s.sweep.Unlinked? ==> s.sweep.entry.id != id
  }

  lemma HeldHitsStep(s: State, a: Action, id: string, key: string)
    requires CacheInv(s) && CanDo(s, a) && NotChosen(s, id) && Hits(s.st.rows, key, id) && id !in s.st.swept
    ensures Hits(Do(s, a).st.rows, key, id) && id !in Do(s, a).st.swept
  {
    match a
    case CallAt(g, step) =>
    case FillAt(g, fs) =>
      FillMovesOne(s, g, fs);
      FillKeepsHits(s.st, s.flight.calls[g].key, s.fills[g], fs, key, id);
      FillPartsFrame(s.st, s.flight.calls[g].key, s.fills[g], fs);
    case _ =>
  }

  lemma HeldStep(s: State, a: Action, h: nat, key: string)
    requires CacheInv(s) && CanDo(s, a) && a != Release(h)
    requires h in s.holders && NotChosen(s, s.holders[h].id)
    requires Hits(s.st.rows, key, s.holders[h].id) && s.holders[h].id !in s.st.swept
    ensures var s', id := Do(s, a), s.holders[h].id;
      && h in s'.holders && s'.holders[h] == s.holders[h] && NotChosen(s', id)
      && Hits(s'.st.rows, key, id) && id !in s'.st.swept
  {
    HeldHitsStep(s, a, s.holders[h].id, key);
  }

  /** An entry that is held when the sweep reaches its busy check keeps its row and its file for as
      long as that one hold lasts, whatever else runs. */
  lemma {:induction false} HeldEntrySurvives(s: State, run: seq<Action>, h: nat, key: string)
    requires CacheInv(s) && AnswersOk(s) && IsCacheRun(s, run) && Release(h) !in run
    requires h in s.holders && NotChosen(s, s.holders[h].id)
    requires Hits(s.st.rows, key, s.holders[h].id) && s.holders[h].id !in s.st.swept
    ensures var s', id := End(s, run), s.holders[h].id;
      Hits(s'.st.rows, key, id) && id !in s'.st.swept && key in s'.st.files
    decreases |run|
  {
    if run != [] {
      HeldStep(s, run[0], h, key);
      StepKeepsCache(s, run[0]);
      StepKeepsAnswers(s, run[0]);
      HeldEntrySurvives(Do(s, run[0]), run[1..], h, key);
    }
  }

  /** The exact condition: whatever runs while the hold lasts, the reader keeps its file, if and only if
      the sweep has not chosen the entry yet. */
  lemma HeldFileIsSafeIff(s: State, h: nat, key: string)
    requires CacheInv(s) && AnswersOk(s) && h in s.holders
    requires Hits(s.st.rows, key, s.holders[h].id) && s.holders[h].id !in s.st.swept
    ensures (forall run :: IsCacheRun(s, run) && Release(h) !in run ==> key in End(s, run).st.files) <==>
            NotChosen(s, s.holders[h].id)
  {
    if NotChosen(s, s.holders[h].id) {
      forall run | IsCacheRun(s, run) && Release(h) !in run ensures key in End(s, run).st.files {
        HeldEntrySurvives(s, run, h, key);
      }
    } else {
      var run := [SweepUnlink(true)];
      assert run[1..] == [];
      assert IsCacheRun(s, run) && Release(h) !in run && key !in End(s, run).st.files;
    }
  }

  /** A count lasts from its Acquire to its Release, and is its own. */
  lemma HoldsAreCounted(s: State, a: Action, id: string)
    requires CanDo(s, a)
    ensures InUse(Do(s, a), id) <==>
            (a.Acquire? && a.held == id) || exists h :: h in s.holders && s.holders[h].id == id && a != Release(h)
  {
    var s' := Do(s, a);
    if a.Acquire? && a.held == id { assert a.h in s'.holders && s'.holders[a.h].id == id; }
    if h :| h in s.holders && s.holders[h].id == id && a != Release(h) { assert h in s'.holders && s'.holders[h].id == id; }
  }

  predicate OnlySweeps(run: seq<Action>) {
    forall i :: 0 <= i < |run| ==> !run[i].CallAt? && !run[i].FillAt? && !run[i].Acquire? && !run[i].Release?
  }

  lemma EvictIdle(s: State, id: string, key: string) returns (run: seq<Action>)
    requires s.sweep == Idle && Hits(s.st.rows, key, id) && !InUse(s, id)
    ensures IsCacheRun(s, run) && OnlySweeps(run)
    ensures End(s, run).st.rows == s.st.rows - {id} && End(s, run).st.files == s.st.files - {key} && End(s, run).sweep == Idle
  {
    var list := [Listed(id, key)];
    run := [];
    Append(s, run, SweepBegin(list));                    run := run + [SweepBegin(list)];
    Append(s, run, SweepSelect);                         run := run + [SweepSelect];
    Append(s, run, SweepUnlink(true));                   run := run + [SweepUnlink(true)];
    Append(s, run, SweepDelete(true));                   run := run + [SweepDelete(true)];
    Append(s, run, SweepStop);                           run := run + [SweepStop];
  }

  /** Between two sweeps, sweeping can take a ready row away if and only if nobody holds it; and then it
      can take that row and its file and nothing else. */
  lemma EvictableIffUnheld(s: State, id: string, key: string)
    requires CacheInv(s) && AnswersOk(s) && s.sweep == Idle && Hits(s.st.rows, key, id) && id !in s.st.swept
    ensures (exists run :: IsCacheRun(s, run) && OnlySweeps(run) && id !in End(s, run).st.rows) <==> !InUse(s, id)
    ensures !InUse(s, id) ==>
      exists run :: IsCacheRun(s, run) && OnlySweeps(run) && End(s, run).st.rows == s.st.rows - {id} && End(s, run).st.files == s.st.files - {key}
  {
    if h :| h in s.holders && s.holders[h].id == id {
      forall run | IsCacheRun(s, run) && OnlySweeps(run) ensures id in End(s, run).st.rows {
        HeldEntrySurvives(s, run, h, key);
      }
    } else {
      var run := EvictIdle(s, id, key);
    }
  }

  /** What a sweep has still to look at. */
  function SweepLeft(w: Sweep): nat {
    match w
    case Idle => 0
    case Scanning(todo) => 3 * |todo|
    case Selected(_, todo, _) => 3 * |todo| + 2
    case Unlinked(_, todo, _) => 3 * |todo| + 1
  }

  /** The next step of a sweep that can remove nothing. */
  ghost function NextSweep(s: State): Action {
    match s.sweep
    case Unlinked(_, _, _) => SweepDelete(false)
    case Selected(_, _, _) => SweepUnlink(false)
    case Scanning(todo) => if todo == [] then SweepStop else if InUse(s, todo[0].id) then SweepSkip else SweepSelect
    case Idle => SweepStop
  }

  lemma SweepGoesOn(s: State)
    requires SweepLeft(s.sweep) > 0
    ensures CanDo(s, NextSweep(s)) && NextSweep(s) != SweepStop
    ensures var s' := Do(s, NextSweep(s));
      SweepLeft(s'.sweep) < SweepLeft(s.sweep) && s'.sweep != Idle && s' == s.(sweep := s'.sweep, clock := s'.clock)
  {
  }

  /** A sweep gets through its whole list, past entries that are held and files and rows that cannot be
      removed, and if it can remove nothing it leaves everything as it was. */
  lemma {:induction false} EverySweepGetsThrough(s: State) returns (run: seq<Action>)
    requires s.sweep != Idle
    ensures IsCacheRun(s, run) && OnlySweeps(run) && SweepStop !in run
    ensures End(s, run) == s.(sweep := Scanning([]), clock := End(s, run).clock)
    decreases SweepLeft(s.sweep)
  {
    if SweepLeft(s.sweep) == 0 {
      run := [];
    } else {
      SweepGoesOn(s);
      var a := NextSweep(s);
      var rest := EverySweepGetsThrough(Do(s, a));
      run := [a] + rest;
      assert run[1..] == rest;
    }
  }

  /** When the sweep does unlink a file under a reader, that reader acquired it after the sweep's
      busy check of the entry. */
  lemma UnlinkedUnderReaderMeansLateAcquire(run: seq<Action>, h: nat)
    requires IsCacheRun(Fresh, run) && CanDo(End(Fresh, run), SweepUnlink(true))
    requires var s := End(Fresh, run); h in s.holders && s.holders[h].id == s.sweep.entry.id
    ensures End(Fresh, run).sweep.at < End(Fresh, run).holders[h].since
  {
    RunKeepsCache(Fresh, run);
  }
}
