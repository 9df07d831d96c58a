/** The Kobo transfer protocol: serves of handleKoboServeFile (internal/server/opds_kosync_routes.go)
    and ticks of KoboSessionReaper (internal/scheduler/tasks.go), interleaved step by step on one
    clock that never goes back.  Transfers may take any time. */
module KoboTransfer {
  import opened KoboSessions

  datatype Stage =
    | Matched     // row found by the code search, before the expiry check
    | Checked     // expiry check passed, before Acquire
    | Held        // reader count taken (nothing to take when there is no registry)
    | Marked      // MarkKoboActiveByID done, before os.Open
    | Reading     // file open, io.Copy running
    | Copied      // io.Copy returned, before MarkKoboCompletedByID
    | Closing     // deferred close and release pending
    | Finished

  /** One request; at is when it passed its last time check. */
  datatype Serve = Serve(id: string, stage: Stage, at: int)

  /** The reaper's loop: rows listed, a row found idle but not yet updated, files to unlink. */
  datatype Reaper = Reaper(todo: seq<Candidate>, chosen: seq<Candidate>, removing: seq<Candidate>)

  datatype State = State(registry: bool, now: int, sessions: Sessions, files: set<string>,
                         serves: map<nat, Serve>, reaper: Reaper)

  datatype Action =
    | Wait(d: nat)
    | Create(id: string, path: string, codeHash: string, lag: nat)
    | Match(g: nat, id: string)
    | Check(g: nat)
    | Acquire(g: nat)
    | Activate(g: nat, ok: bool)      // the handler ignores a failed update, here and in Complete
    | OpenFile(g: nat, ok: bool)
    | EndCopy(g: nat)
    | Complete(g: nat, ok: bool)
    | Release(g: nat)
    | ReapList(list: seq<Candidate>, cutoff: int)
    | ReapSkip
    | ReapChoose
    | ReapExpire(ok: bool)
    | ReapExpireAll(list: seq<Candidate>, cutoff: int)
    | ReapUnlink(ok: bool)
    | SweepStray(path: string, id: string)

  function Initial(registry: bool): State {
    State(registry, 0, map[], {}, map[], Reaper([], [], []))
  }

  predicate Holding(stage: Stage) {
    stage == Held || stage == Marked || stage == Reading || stage == Copied || stage == Closing
  }

  predicate PastCheck(stage: Stage) {
    stage == Checked || Holding(stage)
  }

  ghost predicate InUse(s: State, id: string) {
    exists g :: g in s.serves && s.serves[g].id == id && Holding(s.serves[g].stage)
  }

  predicate Resting(r: Reaper) {
    r == Reaper([], [], [])
  }

  /** Rows of a SELECT or UPDATE ... RETURNING with expires_at < cutoff, taken in any order. */
  ghost predicate StaleRows(t: Sessions, list: seq<Candidate>, cutoff: int) {
    && (forall i :: 0 <= i < |list| ==> Stale(t, list[i].id, cutoff) && list[i].path == t[list[i].id].path)
    && (forall i, j :: 0 <= i < j < |list| ==> list[i].id != list[j].id)
  }

  ghost predicate AllStaleRows(t: Sessions, list: seq<Candidate>, cutoff: int) {
    && StaleRows(t, list, cutoff)
    && (forall id :: Stale(t, id, cutoff) ==> exists i :: 0 <= i < |list| && list[i].id == id)
  }

  /** The first cutoff of a tick is its time.Now() minus the grace, read no later than now. */
  ghost predicate CanDo(s: State, a: Action) {
    match a
    case Wait(_) => true
    case Create(id, path, _, _) => id !in s.sessions && path != "" && path !in s.files &&
      (forall other :: other in s.sessions ==> s.sessions[other].path != path)
    case Match(g, id) => g !in s.serves && Listed(s.sessions, id, s.now)
    case Check(g) => g in s.serves && s.serves[g].stage == Matched && s.serves[g].id in s.sessions
    case Acquire(g) => g in s.serves && s.serves[g].stage == Checked
    case Activate(g, _) => g in s.serves && s.serves[g].stage == Held
    case OpenFile(g, _) => g in s.serves && s.serves[g].stage == Marked && s.serves[g].id in s.sessions
    case EndCopy(g) => g in s.serves && s.serves[g].stage == Reading
    case Complete(g, _) => g in s.serves && s.serves[g].stage == Copied
    case Release(g) => g in s.serves && s.serves[g].stage == Closing
    case ReapList(list, cutoff) =>
      s.registry && Resting(s.reaper) && cutoff <= s.now - REAP_GRACE && StaleRows(s.sessions, list, cutoff)
    case ReapSkip => s.registry && s.reaper.todo != [] && s.reaper.chosen == s.reaper.removing == [] && InUse(s, s.reaper.todo[0].id)
    case ReapChoose => s.registry && s.reaper.todo != [] && s.reaper.chosen == s.reaper.removing == [] && !InUse(s, s.reaper.todo[0].id)
    case ReapExpire(_) => s.reaper.chosen != []
    case ReapExpireAll(list, cutoff) =>
      !s.registry && Resting(s.reaper) && cutoff <= s.now - REAP_GRACE && AllStaleRows(s.sessions, list, cutoff)
    case ReapUnlink(_) => s.reaper.removing != []
    case SweepStray(path, id) =>
      path in s.files && id in s.sessions && s.sessions[id].path == path && s.sessions[id].builtAt < s.now - STRAY_AGE
  }

  function Move(s: State, g: nat, stage: Stage): State
    requires g in s.serves
  {
    s.(serves := s.serves[g := s.serves[g].(stage := stage)])
  }

  ghost function Do(s: State, a: Action): State
    requires CanDo(s, a)
  {
    match a
    case Wait(d) => s.(now := s.now + d)
    case Create(id, path, hash, lag) =>
      s.(sessions := s.sessions[id := Session(hash, path, Pending, s.now, s.now + EXPIRY, s.now - lag)], files := s.files + {path})
    case Match(g, id) => s.(serves := s.serves[g := Serve(id, Matched, s.now)])
    case Check(g) =>
      if s.now > s.sessions[s.serves[g].id].expiresAt then Move(s, g, Finished)
      else s.(serves := s.serves[g := Serve(s.serves[g].id, Checked, s.now)])
    case Acquire(g) => Move(s, g, Held)
    case Activate(g, ok) => Move(if ok then s.(sessions := MarkActive(s.sessions, s.serves[g].id)) else s, g, Marked)
    case OpenFile(g, ok) => Move(s, g, if ok && s.sessions[s.serves[g].id].path in s.files then Reading else Closing)
    case EndCopy(g) => Move(s, g, Copied)
    case Complete(g, ok) => Move(if ok then s.(sessions := MarkCompleted(s.sessions, s.serves[g].id)) else s, g, Closing)
    case Release(g) => Move(s, g, Finished)
    case ReapList(list, _) => s.(reaper := Reaper(list, [], []))
    case ReapSkip => s.(reaper := s.reaper.(todo := s.reaper.todo[1..]))
    case ReapChoose => s.(reaper := s.reaper.(todo := s.reaper.todo[1..], chosen := [s.reaper.todo[0]]))
    case ReapExpire(ok) =>
      var c := s.reaper.chosen[0];
      if ok && c.id in s.sessions && Open(s.sessions[c.id]) then
        s.(sessions := ExpireByID(s.sessions, c.id), reaper := s.reaper.(chosen := [], removing := [c]))
      else s.(reaper := s.reaper.(chosen := []))
    case ReapExpireAll(list, cutoff) =>
      s.(sessions := ExpireStale(s.sessions, cutoff), reaper := Reaper([], [], list))
    case ReapUnlink(ok) =>
      s.(files := if ok then s.files - {s.reaper.removing[0].path} else s.files,
         reaper := s.reaper.(removing := s.reaper.removing[1..]))
    case SweepStray(path, _) => s.(files := s.files - {path})
  }

  /** The serve is not still between its expiry check and Acquire when the reaper may take its row. */
  ghost predicate Prompt(s: State, g: nat) {
    g in s.serves && s.serves[g].stage == Checked && s.serves[g].id in s.sessions ==>
      s.now <= s.sessions[s.serves[g].id].expiresAt + REAP_GRACE
  }

  ghost predicate Timely(s: State) {
    forall g :: g in s.serves ==> Prompt(s, g)
  }

  // ---------------------------------------------------------------- invariants

  ghost predicate TableOk(s: State) {
    && (forall id :: id in s.sessions ==>
          s.sessions[id].expiresAt == s.sessions[id].createdAt + EXPIRY && s.sessions[id].createdAt <= s.now)
    && (forall i, j :: i in s.sessions && j in s.sessions && i != j ==> s.sessions[i].path != s.sessions[j].path)
  }

  ghost predicate ServesOk(s: State) {
    forall g :: g in s.serves ==>
      && s.serves[g].id in s.sessions
      && s.serves[g].at <= s.now
      && (PastCheck(s.serves[g].stage) ==>
            s.sessions[s.serves[g].id].createdAt <= s.serves[g].at <= s.sessions[s.serves[g].id].expiresAt)
  }

  /** What the reaper has taken in hand is past its expiry by more than the grace. */
  ghost predicate Doomed(s: State, c: Candidate) {
    && c.id in s.sessions && c.path == s.sessions[c.id].path
    && s.sessions[c.id].expiresAt + REAP_GRACE < s.now
  }

  ghost predicate ReaperOk(s: State) {
    && (forall i :: 0 <= i < |s.reaper.todo| ==> Doomed(s, s.reaper.todo[i]))
    && (forall i :: 0 <= i < |s.reaper.chosen| ==> Doomed(s, s.reaper.chosen[i]))
    && (forall i :: 0 <= i < |s.reaper.removing| ==> Doomed(s, s.reaper.removing[i]))
    && |s.reaper.chosen| <= 1
    && (forall id :: id in s.sessions && s.sessions[id].status == Expired ==> s.sessions[id].expiresAt + REAP_GRACE < s.now)
  }

  /** With the registry, nobody reads what the reaper has found idle, nor what it has expired. */
  ghost predicate Exclusive(s: State) {
    s.registry ==>
      && (forall i :: 0 <= i < |s.reaper.chosen| ==> !InUse(s, s.reaper.chosen[i].id))
      && (forall i :: 0 <= i < |s.reaper.removing| ==>
            s.reaper.removing[i].id in s.sessions && s.sessions[s.reaper.removing[i].id].status == Expired)
      && (forall id :: id in s.sessions && s.sessions[id].status == Expired ==> !InUse(s, id))
  }

  ghost predicate Inv(s: State) {
    TableOk(s) && ServesOk(s) && ReaperOk(s)
  }

  /** No step changes anything of a row but its status, nor moves the clock back. */
  ghost predicate Extends(s: State, s': State) {
    && s.now <= s'.now && s'.registry == s.registry
    && (forall id :: id in s.sessions ==> id in s'.sessions && s'.sessions[id] == s.sessions[id].(status := s'.sessions[id].status))
  }

  lemma StepExtends(s: State, a: Action)
    requires CanDo(s, a)
    ensures Extends(s, Do(s, a))
  {
  }

  lemma StepKeepsTable(s: State, a: Action)
    requires TableOk(s) && CanDo(s, a)
    ensures TableOk(Do(s, a))
  {
    StepExtends(s, a);
    if !a.Create? { assert Do(s, a).sessions.Keys == s.sessions.Keys; }
  }

  /** A serve comes past its check only by the check, and keeps the time of it. */
  lemma ServeStep(s: State, a: Action, g: nat)
    requires CanDo(s, a) && g in Do(s, a).serves && g in s.serves
    ensures var v, v' := s.serves[g], Do(s, a).serves[g];
      && v'.id == v.id && (v'.at == v.at || v'.at == s.now)
      && (PastCheck(v'.stage) ==>
            (PastCheck(v.stage) && v'.at == v.at) || (v.id in s.sessions && v'.at == s.now <= s.sessions[v.id].expiresAt))
  {
  }

  lemma NewServe(s: State, a: Action, g: nat)
    requires CanDo(s, a) && g in Do(s, a).serves && g !in s.serves
    ensures var v := Do(s, a).serves[g]; v.id in s.sessions && v.at == s.now && v.stage == Matched
  {
  }

  lemma StepKeepsServes(s: State, a: Action)
    requires TableOk(s) && ServesOk(s) && CanDo(s, a)
    ensures ServesOk(Do(s, a))
  {
    StepExtends(s, a);
    var s' := Do(s, a);
    forall g | g in s'.serves
      ensures s'.serves[g].id in s'.sessions && s'.serves[g].at <= s'.now
      ensures PastCheck(s'.serves[g].stage) ==>
        s'.sessions[s'.serves[g].id].createdAt <= s'.serves[g].at <= s'.sessions[s'.serves[g].id].expiresAt
    {
      if g in s.serves { ServeStep(s, a, g); } else { NewServe(s, a, g); }
    }
  }

  /** Only the reaper expires a row, and only one past its expiry by more than the grace. */
  lemma StatusStep(s: State, a: Action, id: string)
    requires ReaperOk(s) && CanDo(s, a) && id in Do(s, a).sessions && Do(s, a).sessions[id].status == Expired
    ensures id in s.sessions && s.sessions[id].expiresAt + REAP_GRACE < s.now
  {
  }

  lemma DoomedStays(s: State, s': State, list: seq<Candidate>)
    requires Extends(s, s') && forall i :: 0 <= i < |list| ==> Doomed(s, list[i])
    ensures forall i :: 0 <= i < |list| ==> Doomed(s', list[i])
  {
  }

  lemma StepKeepsReaper(s: State, a: Action)
    requires ReaperOk(s) && CanDo(s, a)
    ensures ReaperOk(Do(s, a))
  {
    StepExtends(s, a);
    forall id | id in Do(s, a).sessions && Do(s, a).sessions[id].status == Expired
      ensures Do(s, a).sessions[id].expiresAt + REAP_GRACE < Do(s, a).now
    {
      StatusStep(s, a, id);
    }
    DoomedStays(s, Do(s, a), s.reaper.todo);
    DoomedStays(s, Do(s, a), s.reaper.chosen);
    DoomedStays(s, Do(s, a), s.reaper.removing);
  }

  lemma StepKeepsInv(s: State, a: Action)
    requires Inv(s) && CanDo(s, a)
    ensures Inv(Do(s, a))
  {
    StepKeepsTable(s, a);
    StepKeepsServes(s, a);
    StepKeepsReaper(s, a);
  }

  /** The heart of the protocol: by the time the reaper may look at a row, every serve that passed
      the expiry check has either acquired its count or finished. */
  lemma NoLateAcquire(s: State, g: nat)
    requires Inv(s) && Timely(s) && g in s.serves && s.serves[g].stage == Checked
    ensures s.sessions[s.serves[g].id].status != Expired
    ensures forall i :: 0 <= i < |s.reaper.chosen| ==> s.reaper.chosen[i].id != s.serves[g].id
  {
    assert Prompt(s, g);
  }

  /** A row nobody reads stays unread over any step but the Acquire of one of its own serves. */
  lemma IdleStep(s: State, a: Action, id: string)
    requires CanDo(s, a) && !InUse(s, id)
    requires a.Acquire? ==> s.serves[a.g].id != id
    ensures !InUse(Do(s, a), id)
  {
  }

  lemma StepKeepsIdleChosen(s: State, a: Action)
    requires Inv(s) && Timely(s) && Exclusive(s) && s.registry && CanDo(s, a)
    ensures forall i :: 0 <= i < |Do(s, a).reaper.chosen| ==> !InUse(Do(s, a), Do(s, a).reaper.chosen[i].id)
  {
    forall i | 0 <= i < |Do(s, a).reaper.chosen| ensures !InUse(Do(s, a), Do(s, a).reaper.chosen[i].id) {
      var id := Do(s, a).reaper.chosen[i].id;
      if a.Acquire? { NoLateAcquire(s, a.g); }
      IdleStep(s, a, id);
    }
  }

  /** With the registry a row is expired only while nobody reads it. */
  lemma ExpiredWasIdle(s: State, a: Action, id: string)
    requires Exclusive(s) && s.registry && CanDo(s, a)
    requires id in Do(s, a).sessions && Do(s, a).sessions[id].status == Expired
    ensures !InUse(s, id)
  {
  }

  /** A running completion is of a row that is read, so it never touches an expired one. */
  lemma ExpiredIsKept(s: State, a: Action, id: string)
    requires ServesOk(s) && Exclusive(s) && s.registry && CanDo(s, a) && id in s.sessions && s.sessions[id].status == Expired
    ensures id in Do(s, a).sessions && Do(s, a).sessions[id].status == Expired
  {
    if a.Complete? { assert Holding(s.serves[a.g].stage); }
  }

  lemma StepKeepsExclusive(s: State, a: Action)
    requires Inv(s) && Timely(s) && Exclusive(s) && CanDo(s, a)
    ensures Exclusive(Do(s, a))
  {
    if s.registry {
      StepKeepsIdleChosen(s, a);
      forall id | id in Do(s, a).sessions && Do(s, a).sessions[id].status == Expired ensures !InUse(Do(s, a), id) {
        ExpiredWasIdle(s, a, id);
        if a.Acquire? { NoLateAcquire(s, a.g); }
        IdleStep(s, a, id);
      }
      forall i | 0 <= i < |s.reaper.removing|
        ensures var c := s.reaper.removing[i]; c.id in Do(s, a).sessions && Do(s, a).sessions[c.id].status == Expired
      {
        ExpiredIsKept(s, a, s.reaper.removing[i].id);
      }
    }
  }

  // ---------------------------------------------------------------- whole runs

  /** A run in which every serve that passed the check acquires by the expiry plus the grace. */
  ghost predicate TimelyRun(s: State, run: seq<Action>)
    decreases |run|
  {
    Timely(s) && (run == [] || (CanDo(s, run[0]) && TimelyRun(Do(s, run[0]), run[1..])))
  }

  ghost predicate IsRun(s: State, run: seq<Action>)
    decreases |run|
  {
    run == [] || (CanDo(s, run[0]) && IsRun(Do(s, run[0]), run[1..]))
  }

  ghost function Final(s: State, run: seq<Action>): State
    requires IsRun(s, run)
    decreases |run|
  {
    if run == [] then s else Final(Do(s, run[0]), run[1..])
  }

  lemma {:induction false} RunKeepsInv(s: State, run: seq<Action>)
    requires Inv(s) && IsRun(s, run)
    ensures Inv(Final(s, run)) && Extends(s, Final(s, run))
    decreases |run|
  {
    if run != [] {
      StepKeepsInv(s, run[0]);
      StepExtends(s, run[0]);
      RunKeepsInv(Do(s, run[0]), run[1..]);
    }
  }

  lemma {:induction false} TimelyRunKeeps(s: State, run: seq<Action>)
    requires Inv(s) && Exclusive(s) && TimelyRun(s, run)
    ensures IsRun(s, run) && Inv(Final(s, run)) && Exclusive(Final(s, run)) && Timely(Final(s, run))
    decreases |run|
  {
    if run != [] {
      StepKeepsInv(s, run[0]);
      StepKeepsExclusive(s, run[0]);
      TimelyRunKeeps(Do(s, run[0]), run[1..]);
    }
  }

  /** A run in which this one serve acquires by the expiry plus the grace, if it acquires at all. */
  ghost predicate PromptRun(s: State, run: seq<Action>, g: nat)
    decreases |run|
  {
    Prompt(s, g) && (run == [] || (CanDo(s, run[0]) && PromptRun(Do(s, run[0]), run[1..], g)))
  }

  /** With the registry, what a serve holds is not in the reaper's hand. */
  ghost predicate OutOfReach(s: State, g: nat) {
    g in s.serves && Holding(s.serves[g].stage) ==>
      && (forall i :: 0 <= i < |s.reaper.chosen| ==> s.reaper.chosen[i].id != s.serves[g].id)
      && (forall i :: 0 <= i < |s.reaper.removing| ==> s.reaper.removing[i].id != s.serves[g].id)
  }

  lemma NotYetDoomed(s: State, g: nat)
    requires Inv(s) && Prompt(s, g) && g in s.serves && s.serves[g].stage == Checked
    ensures forall i :: 0 <= i < |s.reaper.chosen| ==> s.reaper.chosen[i].id != s.serves[g].id
    ensures forall i :: 0 <= i < |s.reaper.removing| ==> s.reaper.removing[i].id != s.serves[g].id
  {
    forall i | 0 <= i < |s.reaper.chosen| ensures s.reaper.chosen[i].id != s.serves[g].id { assert Doomed(s, s.reaper.chosen[i]); }
    forall i | 0 <= i < |s.reaper.removing| ensures s.reaper.removing[i].id != s.serves[g].id { assert Doomed(s, s.reaper.removing[i]); }
  }

  /** A serve comes to hold its row only by Acquire, from the check. */
  lemma HoldingStep(s: State, a: Action, g: nat)
    requires CanDo(s, a) && g in Do(s, a).serves && Holding(Do(s, a).serves[g].stage)
    ensures g in s.serves && Do(s, a).serves[g].id == s.serves[g].id
    ensures Holding(s.serves[g].stage) || (s.serves[g].stage == Checked && Do(s, a).reaper == s.reaper)
  {
  }

  /** What the reaper takes in hand is a row that nobody holds, or was in its hand before. */
  lemma ReaperHandStep(s: State, a: Action, id: string)
    requires CanDo(s, a) && s.registry && InUse(s, id)
    requires forall i :: 0 <= i < |s.reaper.chosen| ==> s.reaper.chosen[i].id != id
    requires forall i :: 0 <= i < |s.reaper.removing| ==> s.reaper.removing[i].id != id
    ensures forall i :: 0 <= i < |Do(s, a).reaper.chosen| ==> Do(s, a).reaper.chosen[i].id != id
    ensures forall i :: 0 <= i < |Do(s, a).reaper.removing| ==> Do(s, a).reaper.removing[i].id != id
  {
  }

  lemma StepKeepsOutOfReach(s: State, a: Action, g: nat)
    requires Inv(s) && s.registry && Prompt(s, g) && OutOfReach(s, g) && CanDo(s, a)
    ensures OutOfReach(Do(s, a), g)
  {
    if g in Do(s, a).serves && Holding(Do(s, a).serves[g].stage) {
      HoldingStep(s, a, g);
      if Holding(s.serves[g].stage) {
        ReaperHandStep(s, a, s.serves[g].id);
      } else {
        NotYetDoomed(s, g);
      }
    }
  }

  lemma {:induction false} PromptRunKeeps(s: State, run: seq<Action>, g: nat)
    requires Inv(s) && s.registry && OutOfReach(s, g) && PromptRun(s, run, g)
    ensures IsRun(s, run) && Inv(Final(s, run)) && Prompt(Final(s, run), g) && OutOfReach(Final(s, run), g)
    decreases |run|
  {
    if run != [] {
      StepKeepsInv(s, run[0]);
      StepKeepsOutOfReach(s, run[0], g);
      StepExtends(s, run[0]);
      PromptRunKeeps(Do(s, run[0]), run[1..], g);
    }
  }

  /** With the registry, in every interleaving, whatever the other serves do and however long the
      transfer takes: a serve that acquires by the expiry plus the grace never has its file unlinked by
      the reaper, from its expiry check to its end. */
  lemma ReaperNeverUnlinksUnderServe(run: seq<Action>, g: nat)
    requires PromptRun(Initial(true), run, g)
    requires IsRun(Initial(true), run) && Final(Initial(true), run).reaper.removing != []
    ensures !Serving(Final(Initial(true), run), g, Final(Initial(true), run).reaper.removing[0].path)
  {
    PromptRunKeeps(Initial(true), run, g);
    var s := Final(Initial(true), run);
    assert Doomed(s, s.reaper.removing[0]);
    if g in s.serves && s.serves[g].stage == Checked { NotYetDoomed(s, g); }
  }

  /** g is past its expiry check and has, or is about to take, the file at path. */
  predicate Serving(s: State, g: nat, path: string) {
    g in s.serves && PastCheck(s.serves[g].stage) && s.serves[g].id in s.sessions && s.sessions[s.serves[g].id].path == path
  }

  /** With or without the registry, and however long the check took: a serve still past its check
      when the reaper unlinks its file has outlived the expiry by more than the grace.  So a serve
      that ends within five minutes of expiry is never hit. */
  lemma UnlinkOnlyLongAfterExpiry(run: seq<Action>, registry: bool, g: nat)
    requires IsRun(Initial(registry), run) && Final(Initial(registry), run).reaper.removing != []
    requires Serving(Final(Initial(registry), run), g, Final(Initial(registry), run).reaper.removing[0].path)
    ensures var s := Final(Initial(registry), run); s.now > s.sessions[s.serves[g].id].expiresAt + REAP_GRACE
  {
    RunKeepsInv(Initial(registry), run);
    var s := Final(Initial(registry), run);
    assert Doomed(s, s.reaper.removing[0]);
  }

  /** With the registry an expired session stays expired: in particular it is never completed. */
  lemma {:induction false} ExpiredIsForEver(s: State, run: seq<Action>, id: string)
    requires Inv(s) && Exclusive(s) && s.registry && TimelyRun(s, run)
    requires id in s.sessions && s.sessions[id].status == Expired
    ensures IsRun(s, run) && id in Final(s, run).sessions && Final(s, run).sessions[id].status == Expired
    decreases |run|
  {
    if run != [] {
      StepKeepsInv(s, run[0]);
      StepKeepsExclusive(s, run[0]);
      ExpiredIsKept(s, run[0], id);
      StepExtends(s, run[0]);
      ExpiredIsForEver(Do(s, run[0]), run[1..], id);
    }
  }

  /** A completed session is never reopened nor expired, whatever runs. */
  lemma {:induction false} CompletedIsForEver(s: State, run: seq<Action>, id: string)
    requires IsRun(s, run) && id in s.sessions && s.sessions[id].status == Completed
    ensures id in Final(s, run).sessions && Final(s, run).sessions[id].status == Completed
    decreases |run|
  {
    if run != [] {
      assert Do(s, run[0]).sessions[id].status == Completed;
      CompletedIsForEver(Do(s, run[0]), run[1..], id);
    }
  }

  lemma {:induction false} Append(s: State, run: seq<Action>, a: Action)
    requires IsRun(s, run) && CanDo(Final(s, run), a)
    ensures IsRun(s, run + [a]) && Final(s, run + [a]) == Do(Final(s, run), a)
    decreases |run|
  {
    assert run + [a] == (if run == [] then [a] + [] else [run[0]] + (run[1..] + [a]));
    if run != [] { Append(Do(s, run[0]), run[1..], a); }
  }

  // ---------------------------------------------------------------- exactly when a serve can be hit

  /** The serve is copying a file that is no longer there. */
  ghost predicate Hit(s: State, g: nat) {
    && g in s.serves && s.serves[g].stage == Reading
    && s.serves[g].id in s.sessions && s.sessions[s.serves[g].id].path !in s.files
  }

  /** No time passes, and the stray sweep does not run. */
  predicate Instant(run: seq<Action>) {
    forall i :: 0 <= i < |run| ==> !run[i].Wait? && !run[i].SweepStray?
  }

  /** Some instant run hits the serve. */
  ghost predicate CanBeHitNow(s: State, g: nat) {
    exists run :: IsRun(s, run) && Instant(run) && Hit(Final(s, run), g)
  }

  ghost predicate Due(s: State, id: string) {
    id in s.sessions && s.now > s.sessions[id].expiresAt + REAP_GRACE
  }

  lemma InstantStepKeepsFile(s: State, a: Action, id: string)
    requires Inv(s) && CanDo(s, a) && !a.Wait? && !a.SweepStray?
    requires id in s.sessions && !Due(s, id) && s.sessions[id].path in s.files
    ensures id in Do(s, a).sessions && !Due(Do(s, a), id) && Do(s, a).sessions[id].path in Do(s, a).files
  {
    StepExtends(s, a);
    if a.ReapUnlink? { assert Doomed(s, s.reaper.removing[0]); }
  }

  lemma {:induction false} InstantKeepsFile(s: State, run: seq<Action>, id: string)
    requires Inv(s) && IsRun(s, run) && Instant(run)
    requires id in s.sessions && !Due(s, id) && s.sessions[id].path in s.files
    ensures id in Final(s, run).sessions && Final(s, run).sessions[id].path in Final(s, run).files
    decreases |run|
  {
    if run != [] {
      StepKeepsInv(s, run[0]);
      InstantStepKeepsFile(s, run[0], id);
      forall i | 0 <= i < |run| - 1 ensures run[1..][i] == run[i + 1] {}
      InstantKeepsFile(Do(s, run[0]), run[1..], id);
    }
  }

  lemma {:induction false} ServesKeepTheirSession(s: State, run: seq<Action>, g: nat)
    requires IsRun(s, run) && g in s.serves
    ensures g in Final(s, run).serves && Final(s, run).serves[g].id == s.serves[g].id
    decreases |run|
  {
    if run != [] {
      assert g in Do(s, run[0]).serves && Do(s, run[0]).serves[g].id == s.serves[g].id;
      ServesKeepTheirSession(Do(s, run[0]), run[1..], g);
    }
  }

  /** Before the deadline nothing that happens now can hit the serve, with or without the registry. */
  lemma NotHitBeforeDeadline(s: State, g: nat)
    requires Inv(s) && g in s.serves && s.sessions[s.serves[g].id].path in s.files && !Due(s, s.serves[g].id)
    ensures !CanBeHitNow(s, g)
  {
    if run :| IsRun(s, run) && Instant(run) && Hit(Final(s, run), g) {
      InstantKeepsFile(s, run, s.serves[g].id);
      ServesKeepTheirSession(s, run, g);
    }
  }

  /** The row of the serve is open with its file in place, and the reaper is between two ticks. */
  ghost predicate Exposed(s: State, g: nat) {
    && Resting(s.reaper) && g in s.serves && s.serves[g].id in s.sessions
    && Open(s.sessions[s.serves[g].id]) && s.sessions[s.serves[g].id].path in s.files
  }

  function CandidateOf(s: State, g: nat): Candidate
    requires g in s.serves && s.serves[g].id in s.sessions
  {
    Candidate(s.serves[g].id, s.sessions[s.serves[g].id].path)
  }

  /** From here the reaper has the row of the serve in hand, and the serve reads all the same. */
  ghost predicate Ambushed(s: State, g: nat) {
    && g in s.serves && s.serves[g].stage == Reading && s.serves[g].id in s.sessions && Open(s.sessions[s.serves[g].id])
    && s.reaper == Reaper([], [CandidateOf(s, g)], [])
  }

  /** The reaper finds the row idle just before the serve takes its count... */
  lemma ChosenBeforeAcquire(s: State, g: nat) returns (run: seq<Action>)
    requires s.registry && Exposed(s, g) && Due(s, s.serves[g].id) && s.serves[g].stage == Checked && !InUse(s, s.serves[g].id)
    ensures IsRun(s, run) && Instant(run)
    ensures Final(s, run) == s.(serves := s.serves[g := s.serves[g].(stage := Held)], reaper := Reaper([], [CandidateOf(s, g)], []))
  {
    var c, cutoff := CandidateOf(s, g), s.now - REAP_GRACE;
    run := [];
    Append(s, run, ReapList([c], cutoff));             run := run + [ReapList([c], cutoff)];
    Append(s, run, ReapChoose);                        run := run + [ReapChoose];
    Append(s, run, Acquire(g));                        run := run + [Acquire(g)];
  }

  /** ...and the serve opens the file. */
  lemma OpenInAmbush(s: State, g: nat) returns (run: seq<Action>)
    requires g in s.serves && s.serves[g].stage == Held && s.serves[g].id in s.sessions
    requires Open(s.sessions[s.serves[g].id]) && s.sessions[s.serves[g].id].path in s.files
    requires s.reaper == Reaper([], [CandidateOf(s, g)], [])
    ensures IsRun(s, run) && Instant(run) && Ambushed(Final(s, run), g)
  {
    run := [];
    Append(s, run, Activate(g, true));                       run := run + [Activate(g, true)];
    Append(s, run, OpenFile(g, true));                       run := run + [OpenFile(g, true)];
  }

  lemma SpringAmbush(s: State, g: nat) returns (run: seq<Action>)
    requires Ambushed(s, g)
    ensures IsRun(s, run) && Instant(run) && Hit(Final(s, run), g)
  {
    run := [];
    Append(s, run, ReapExpire(true));                  run := run + [ReapExpire(true)];
    Append(s, run, ReapUnlink(true));                  run := run + [ReapUnlink(true)];
  }

  lemma {:induction false} Concat(s: State, run: seq<Action>, more: seq<Action>)
    requires IsRun(s, run) && IsRun(Final(s, run), more)
    ensures IsRun(s, run + more) && Final(s, run + more) == Final(Final(s, run), more)
    decreases |run|
  {
    if run == [] {
      assert run + more == more;
    } else {
      assert (run + more)[0] == run[0] && (run + more)[1..] == run[1..] + more;
      Concat(Do(s, run[0]), run[1..], more);
    }
  }

  lemma LateAcquireIsHit(s: State, g: nat) returns (run: seq<Action>)
    requires s.registry && Exposed(s, g) && Due(s, s.serves[g].id) && s.serves[g].stage == Checked && !InUse(s, s.serves[g].id)
    ensures IsRun(s, run) && Instant(run) && Hit(Final(s, run), g)
  {
    run := ChosenBeforeAcquire(s, g);
    var more := OpenInAmbush(Final(s, run), g);
    Concat(s, run, more);
    run := run + more;
    more := SpringAmbush(Final(s, run), g);
    Concat(s, run, more);
    run := run + more;
  }

  /** With the registry, a serve between check and Acquire, of an open row that nobody holds, can lose
      its file while reading, without any more time passing, exactly when it is past the expiry plus the
      grace: the deadline of Prompt is the exact one. */
  lemma RegistryHitsExactlyTheLate(s: State, g: nat)
    requires Inv(s) && s.registry && Exposed(s, g) && s.serves[g].stage == Checked && !InUse(s, s.serves[g].id)
    ensures CanBeHitNow(s, g) <==> !Prompt(s, g)
  {
    if Prompt(s, g) {
      NotHitBeforeDeadline(s, g);
    } else {
      var run := LateAcquireIsHit(s, g);
    }
  }

  /** All stale rows, in some order. */
  lemma {:induction false} ListStale(t: Sessions, cutoff: int, ids: set<string>) returns (list: seq<Candidate>)
    requires forall id :: id in ids ==> Stale(t, id, cutoff)
    ensures StaleRows(t, list, cutoff)
    ensures forall id :: id in ids <==> exists i :: 0 <= i < |list| && list[i].id == id
    decreases |ids|
  {
    list := [];
    if ids != {} {
      var id :| id in ids;
      var rest := ListStale(t, cutoff, ids - {id});
      forall i | 0 <= i < |rest| ensures rest[i].id in ids && rest[i].id != id { assert rest[i].id in ids - {id}; }
      list := [Candidate(id, t[id].path)] + rest;
      forall other ensures other in ids <==> exists i :: 0 <= i < |list| && list[i].id == other {
        HeadOrRest(list, other);
        assert list[1..] == rest && (other in ids <==> other == id || other in ids - {id});
      }
    }
  }

  lemma HeadOrRest(list: seq<Candidate>, id: string)
    requires list != []
    ensures (exists i :: 0 <= i < |list| && list[i].id == id) <==>
            list[0].id == id || (exists i :: 0 <= i < |list[1..]| && list[1..][i].id == id)
  {
    var rest := list[1..];
    if i :| 0 <= i < |list| && list[i].id == id && i > 0 { assert rest[i - 1].id == id; }
    if i :| 0 <= i < |rest| && rest[i].id == id { assert list[i + 1].id == id; }
  }

  /** ...with a given one first. */
  lemma ListStaleFrom(t: Sessions, cutoff: int, id: string) returns (list: seq<Candidate>)
    requires Stale(t, id, cutoff)
    ensures AllStaleRows(t, list, cutoff) && list != [] && list[0] == Candidate(id, t[id].path)
  {
    var ids := set other | other in t && Stale(t, other, cutoff);
    var rest := ListStale(t, cutoff, ids - {id});
    forall i | 0 <= i < |rest| ensures rest[i].id != id { assert rest[i].id in ids - {id}; }
    list := [Candidate(id, t[id].path)] + rest;
    forall other | Stale(t, other, cutoff) ensures exists i :: 0 <= i < |list| && list[i].id == other {
      HeadOrRest(list, other);
      assert list[1..] == rest && (other == id || other in ids - {id});
    }
  }

  lemma LateReaderIsHit(s: State, g: nat) returns (run: seq<Action>)
    requires !s.registry && Exposed(s, g) && Due(s, s.serves[g].id) && s.serves[g].stage == Reading
    ensures IsRun(s, run) && Instant(run) && Hit(Final(s, run), g)
  {
    var cutoff := s.now - REAP_GRACE;
    var list := ListStaleFrom(s.sessions, cutoff, s.serves[g].id);
    run := [];
    Append(s, run, ReapExpireAll(list, cutoff));       run := run + [ReapExpireAll(list, cutoff)];
    Append(s, run, ReapUnlink(true));                  run := run + [ReapUnlink(true)];
  }

  /** Without the registry the same deadline binds the whole transfer: a reader of an open row can lose
      its file exactly when it is past the expiry plus the grace. */
  lemma WithoutRegistryHitsExactlyTheLate(s: State, g: nat)
    requires Inv(s) && !s.registry && Exposed(s, g) && s.serves[g].stage == Reading
    ensures CanBeHitNow(s, g) <==> Due(s, s.serves[g].id)
  {
    if Due(s, s.serves[g].id) {
      var run := LateReaderIsHit(s, g);
    } else {
      NotHitBeforeDeadline(s, g);
    }
  }

  // ---------------------------------------------------------------- such states are reached

  /** One session, past its grace, and one serve that passed its check at time zero. */
  ghost predicate OutlivedGrace(s: State, id: string, path: string, registry: bool, stage: Stage) {
    && s.registry == registry && Resting(s.reaper) && s.now == EXPIRY + REAP_GRACE + 1
    && s.sessions.Keys == {id} && Open(s.sessions[id]) && s.sessions[id].path == path && s.sessions[id].expiresAt == EXPIRY
    && path in s.files && s.serves == map[0 := Serve(id, stage, 0)]
  }

  ghost predicate CheckedAtZero(s: State, id: string, path: string, registry: bool) {
    && s.registry == registry && Resting(s.reaper) && s.now == 0
    && s.sessions == map[id := Session("", path, Pending, 0, EXPIRY, 0)]
    && s.files == {path} && s.serves == map[0 := Serve(id, Checked, 0)]
  }

  lemma CheckAtZero(id: string, path: string, registry: bool) returns (run: seq<Action>)
    requires path != ""
    ensures IsRun(Initial(registry), run) && CheckedAtZero(Final(Initial(registry), run), id, path, registry)
  {
    var z := Initial(registry);
    run := [];
    Append(z, run, Create(id, path, "", 0));           run := run + [Create(id, path, "", 0)];
    Append(z, run, Match(0, id));                      run := run + [Match(0, id)];
    Append(z, run, Check(0));                          run := run + [Check(0)];
  }

  lemma OutliveChecked(s: State, id: string, path: string) returns (run: seq<Action>)
    requires CheckedAtZero(s, id, path, true)
    ensures IsRun(s, run) && OutlivedGrace(Final(s, run), id, path, true, Checked)
  {
    run := [];
    Append(s, run, Wait(EXPIRY + REAP_GRACE + 1));     run := run + [Wait(EXPIRY + REAP_GRACE + 1)];
  }

  lemma OutliveReading(s: State, id: string, path: string) returns (run: seq<Action>)
    requires CheckedAtZero(s, id, path, false)
    ensures IsRun(s, run) && OutlivedGrace(Final(s, run), id, path, false, Reading)
  {
    run := [];
    Append(s, run, Acquire(0));                        run := run + [Acquire(0)];
    Append(s, run, Activate(0, true));                       run := run + [Activate(0, true)];
    Append(s, run, OpenFile(0, true));                       run := run + [OpenFile(0, true)];
    Append(s, run, Wait(EXPIRY + REAP_GRACE + 1));     run := run + [Wait(EXPIRY + REAP_GRACE + 1)];
  }

  /** With the registry the bound on the acquire is needed: some run hits a serve. */
  lemma SlowAcquireIsHit(id: string, path: string) returns (run: seq<Action>)
    requires path != ""
    ensures IsRun(Initial(true), run) && Hit(Final(Initial(true), run), 0)
  {
    var z := Initial(true);
    run := CheckAtZero(id, path, true);
    var more := OutliveChecked(Final(z, run), id, path);
    Concat(z, run, more);
    run := run + more;
    more := LateAcquireIsHit(Final(z, run), 0);
    Concat(z, run, more);
    run := run + more;
  }

  /** Without it a transfer that outlives the grace loses its file while reading, and then turns its
      expired session into a completed one. */
  lemma WithoutRegistryLongTransferIsHit(id: string, path: string) returns (run: seq<Action>, more: seq<Action>)
    requires path != ""
    ensures IsRun(Initial(false), run) && Hit(Final(Initial(false), run), 0) && Final(Initial(false), run).serves[0].id == id
    ensures var s := Final(Initial(false), run); id in s.sessions && s.sessions[id].status == Expired
    ensures IsRun(Final(Initial(false), run), more)
    ensures var s := Final(Final(Initial(false), run), more); id in s.sessions && s.sessions[id].status == Completed
  {
    var z := Initial(false);
    run := CheckAtZero(id, path, false);
    more := OutliveReading(Final(z, run), id, path);
    Concat(z, run, more);
    run := run + more;
    more := ExpireUnderReader(Final(z, run), id, path);
    Concat(z, run, more);
    run := run + more;
    more := CompleteExpired(Final(z, run), id);
  }

  lemma ExpireUnderReader(s: State, id: string, path: string) returns (run: seq<Action>)
    requires OutlivedGrace(s, id, path, false, Reading)
    ensures IsRun(s, run) && Hit(Final(s, run), 0) && Final(s, run).serves == s.serves
    ensures id in Final(s, run).sessions && Final(s, run).sessions[id].status == Expired
  {
    var c := [Candidate(id, path)];
    assert c[0].id == id;
    run := [];
    Append(s, run, ReapExpireAll(c, EXPIRY + 1));      run := run + [ReapExpireAll(c, EXPIRY + 1)];
    Append(s, run, ReapUnlink(true));                  run := run + [ReapUnlink(true)];
  }

  lemma CompleteExpired(s: State, id: string) returns (run: seq<Action>)
    requires 0 in s.serves && s.serves[0].stage == Reading && s.serves[0].id == id && id in s.sessions
    ensures IsRun(s, run) && id in Final(s, run).sessions && Final(s, run).sessions[id].status == Completed
  {
    run := [];
    Append(s, run, EndCopy(0));                        run := run + [EndCopy(0)];
    Append(s, run, Complete(0, true));                       run := run + [Complete(0, true)];
  }

  // ---------------------------------------------------------------- the six hour stray sweep

  /** How long before its row was inserted the converted file was written. */
  function Lag(s: State, id: string): int
    requires id in s.sessions
  {
    s.sessions[id].createdAt - s.sessions[id].builtAt
  }

  /** The stray sweep knows no counts; it can only hit a serve that has run, since its check, longer
      than six hours less the thirty minutes of the session and the lag of the conversion. */
  lemma StrayHitsOnlyVeryLongServes(run: seq<Action>, registry: bool, g: nat, path: string)
    requires IsRun(Initial(registry), run)
    requires Serving(Final(Initial(registry), run), g, path)
    requires var s := Final(Initial(registry), run); CanDo(s, SweepStray(path, s.serves[g].id))
    ensures var s := Final(Initial(registry), run);
      s.now - s.serves[g].at > STRAY_AGE - EXPIRY - Lag(s, s.serves[g].id)
  {
    RunKeepsInv(Initial(registry), run);
  }

  /** Every serve past its check is younger than the stray sweep's bound. */
  ghost predicate Brief(s: State) {
    forall g :: g in s.serves && PastCheck(s.serves[g].stage) && s.serves[g].id in s.sessions ==>
      s.now - s.serves[g].at <= STRAY_AGE - EXPIRY - Lag(s, s.serves[g].id)
  }

  ghost predicate SafeRun(s: State, run: seq<Action>)
    decreases |run|
  {
    && Timely(s)
    && (run == [] || (CanDo(s, run[0]) && (run[0].SweepStray? ==> Brief(s)) && SafeRun(Do(s, run[0]), run[1..])))
  }

  ghost predicate ReadersHaveFiles(s: State) {
    forall g :: g in s.serves && s.serves[g].stage == Reading ==>
      s.serves[g].id in s.sessions && s.sessions[s.serves[g].id].path in s.files
  }

  /** A reader was reading before the step, or opened a file that was there. */
  lemma ReaderHadFile(s: State, a: Action, g: nat)
    requires ReadersHaveFiles(s) && CanDo(s, a) && g in Do(s, a).serves && Do(s, a).serves[g].stage == Reading
    ensures g in s.serves && Holding(s.serves[g].stage) && Do(s, a).serves[g].id == s.serves[g].id
    ensures s.serves[g].id in s.sessions && s.sessions[s.serves[g].id].path in s.files
  {
  }

  /** Files of held sessions are out of the reaper's and, for brief serves, out of the sweep's reach. */
  lemma HeldFileStays(s: State, a: Action, g: nat)
    requires Inv(s) && Exclusive(s) && s.registry && CanDo(s, a) && (a.SweepStray? ==> Brief(s))
    requires g in s.serves && Holding(s.serves[g].stage) && s.sessions[s.serves[g].id].path in s.files
    ensures s.sessions[s.serves[g].id].path in Do(s, a).files
  {
    if a.ReapUnlink? { assert Doomed(s, s.reaper.removing[0]); }
  }

  lemma StepKeepsReadersFiles(s: State, a: Action)
    requires Inv(s) && Exclusive(s) && s.registry && ReadersHaveFiles(s) && CanDo(s, a) && (a.SweepStray? ==> Brief(s))
    ensures ReadersHaveFiles(Do(s, a))
  {
    StepExtends(s, a);
    forall g | g in Do(s, a).serves && Do(s, a).serves[g].stage == Reading
      ensures Do(s, a).serves[g].id in s.sessions && s.sessions[Do(s, a).serves[g].id].path in Do(s, a).files
    {
      ReaderHadFile(s, a, g);
      HeldFileStays(s, a, g);
    }
  }

  /** Over whole runs with the registry, stray sweeps included: a transfer of any length, up to the
      stray bound, keeps its file from open to end. */
  lemma {:induction false} FileOutlivesTransfer(s: State, run: seq<Action>)
    requires Inv(s) && Exclusive(s) && s.registry && ReadersHaveFiles(s) && SafeRun(s, run)
    ensures IsRun(s, run) && ReadersHaveFiles(Final(s, run))
    decreases |run|
  {
    if run != [] {
      StepKeepsInv(s, run[0]);
      StepKeepsExclusive(s, run[0]);
      StepKeepsReadersFiles(s, run[0]);
      StepExtends(s, run[0]);
      FileOutlivesTransfer(Do(s, run[0]), run[1..]);
    }
  }
}
