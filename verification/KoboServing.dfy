/** What the Kobo transfer protocol does get done: a session in time is served to its end, an idle one
    past its grace is reaped, and which steps change a row's status or remove a file
    (internal/server/opds_kosync_routes.go, internal/scheduler/tasks.go). */
module KoboServing {
  import opened KoboSessions
  import opened KoboTransfer

  // ---------------------------------------------------------------- what each step changes

  /** The expiry check lets a serve through if and only if the session has not expired. */
  lemma CheckPassesIffInTime(s: State, g: nat)
    requires Inv(s) && CanDo(s, Check(g))
    ensures var s', session := Do(s, Check(g)), s.sessions[s.serves[g].id];
      && (s'.serves[g].stage == Checked <==> s.now <= session.createdAt + 1_800_000_000_000)
      && (s'.serves[g].stage == Finished <==> s.now > session.createdAt + 1_800_000_000_000)
      && s'.sessions == s.sessions && s'.files == s.files
  {
  }

  /** What may come after a stage of a serve: after the match it is checked or refused, and only a serve that
      found its file reads it; whoever took a count gives it back last. */
  predicate Follows(stage: Stage, next: Stage) {
    match stage
    case Matched => next == Checked || next == Finished
    case Checked => next == Held
    case Held => next == Marked
    case Marked => next == Reading || next == Closing
    case Reading => next == Copied
    case Copied => next == Closing
    case Closing => next == Finished
    case Finished => false
  }

  /** Every serve goes through its stages in their order, whatever the others and the reaper do. */
  lemma ServesGoInOrder(s: State, a: Action, g: nat)
    requires CanDo(s, a) && g in Do(s, a).serves
    ensures if g !in s.serves then Do(s, a).serves[g].stage == Matched
            else Do(s, a).serves[g] == s.serves[g] || Follows(s.serves[g].stage, Do(s, a).serves[g].stage)
    ensures OwnStep(a, g) ==> g in s.serves && Follows(s.serves[g].stage, Do(s, a).serves[g].stage)
    ensures g in s.serves && s.serves[g].stage == Marked ==>
      (Do(s, a).serves[g].stage == Reading <==> a == OpenFile(g, true) && s.sessions[s.serves[g].id].path in s.files)
  {
  }

  /** A step of that serve's own, after its match. */
  predicate OwnStep(a: Action, g: nat) {
    || (a.Check? && a.g == g) || (a.Acquire? && a.g == g) || (a.Activate? && a.g == g) || (a.OpenFile? && a.g == g)
    || (a.EndCopy? && a.g == g) || (a.Complete? && a.g == g) || (a.Release? && a.g == g)
  }

  /** A serve holds its count from its Acquire to its Release. */
  lemma HoldsUntilRelease(s: State, a: Action, g: nat)
    requires CanDo(s, a) && g in Do(s, a).serves
    ensures Holding(Do(s, a).serves[g].stage) <==> a == Acquire(g) || (g in s.serves && Holding(s.serves[g].stage) && a != Release(g))
    ensures g in s.serves ==> Do(s, a).serves[g].id == s.serves[g].id
  {
  }

  /** A session is in use exactly from the Acquire of a serve of it to that serve's Release. */
  lemma CountedFromAcquireToRelease(s: State, a: Action, id: string)
    requires CanDo(s, a)
    ensures InUse(Do(s, a), id) <==>
      || (a.Acquire? && s.serves[a.g].id == id)
      || exists g :: g in s.serves && s.serves[g].id == id && Holding(s.serves[g].stage) && a != Release(g)
  {
    var s' := Do(s, a);
    assert s.serves.Keys <= s'.serves.Keys && (a.Acquire? ==> a == Acquire(a.g));
    forall g | g in s'.serves
      ensures Holding(s'.serves[g].stage) <==> a == Acquire(g) || (g in s.serves && Holding(s.serves[g].stage) && a != Release(g))
      ensures g in s.serves ==> s'.serves[g].id == s.serves[g].id
    {
      HoldsUntilRelease(s, a, g);
    }
    if a.Acquire? && s.serves[a.g].id == id { assert Holding(s'.serves[a.g].stage) && s'.serves[a.g].id == id; }
    if g :| g in s.serves && s.serves[g].id == id && Holding(s.serves[g].stage) && a != Release(g) {
      assert Holding(s'.serves[g].stage) && s'.serves[g].id == id;
    }
  }

  /** With the registry the reaper takes up the next row on its list if nobody holds it, and passes over it
      if somebody does; one row at a time. */
  lemma ReaperAsksTheRegistry(s: State)
    requires s.registry && s.reaper.todo != []
    ensures CanDo(s, ReapChoose) <==> s.reaper.chosen == [] && s.reaper.removing == [] && !InUse(s, s.reaper.todo[0].id)
    ensures CanDo(s, ReapSkip) <==> s.reaper.chosen == [] && s.reaper.removing == [] && InUse(s, s.reaper.todo[0].id)
  {
  }

  /** The only ways a row's status changes, in every state: the handler's two updates of its own row, and
      the reaper's two of an open row. */
  lemma StatusChangesOnlyBy(s: State, a: Action, id: string)
    requires CanDo(s, a) && id in s.sessions
    ensures id in Do(s, a).sessions
    ensures Do(s, a).sessions[id].status ==
      if a.Activate? && a.ok && s.serves[a.g].id == id && s.sessions[id].status == Pending then Active
      else if a.Complete? && a.ok && s.serves[a.g].id == id then Completed
      else if a.ReapExpire? && a.ok && s.reaper.chosen[0].id == id && s.sessions[id].status in {Pending, Active} then Expired
      else if a.ReapExpireAll? && s.sessions[id].status in {Pending, Active} && s.sessions[id].expiresAt < a.cutoff then Expired
      else s.sessions[id].status
  {
  }

  /** A file appears only with its session, and goes only by the reaper or the stray sweep. */
  lemma FilesChangeOnlyBy(s: State, a: Action, path: string)
    requires CanDo(s, a)
    ensures path in Do(s, a).files && path !in s.files <==> a.Create? && a.path == path
    ensures path !in Do(s, a).files && path in s.files <==>
            path in s.files && ((a == ReapUnlink(true) && s.reaper.removing[0].path == path) || (a.SweepStray? && a.path == path))
  {
  }

  /** The stray sweep can take the file of a session exactly when it was written more than six hours ago. */
  lemma StrayTakesTheOld(s: State, id: string)
    requires id in s.sessions && s.sessions[id].path in s.files
    ensures CanDo(s, SweepStray(s.sessions[id].path, id)) <==> s.now - s.sessions[id].builtAt > 21_600_000_000_000
  {
  }

  // ---------------------------------------------------------------- a session in time is served

  ghost predicate ServableNow(s: State, id: string) {
    && id in s.sessions && s.sessions[id].status in {Pending, Active}
    && s.now < s.sessions[id].createdAt + 1_800_000_000_000 && s.sessions[id].path in s.files
  }

  ghost predicate Reads(s: State, g: nat, id: string) {
    g in s.serves && s.serves[g].id == id && s.serves[g].stage == Reading
  }

  lemma Admit(s: State, g: nat, id: string) returns (run: seq<Action>)
    requires Inv(s) && g !in s.serves && ServableNow(s, id)
    ensures IsRun(s, run) && Instant(run)
    ensures Final(s, run) == s.(serves := s.serves[g := Serve(id, Held, s.now)])
  {
    run := [];
    Append(s, run, Match(g, id));                      run := run + [Match(g, id)];
    Append(s, run, Check(g));                          run := run + [Check(g)];
    Append(s, run, Acquire(g));                        run := run + [Acquire(g)];
    assert Final(s, run).serves == s.serves[g := Serve(id, Held, s.now)];
  }

  lemma StartReading(s: State, g: nat, id: string) returns (run: seq<Action>)
    requires g in s.serves && s.serves[g].stage == Held && s.serves[g].id == id && ServableNow(s, id)
    ensures IsRun(s, run) && Instant(run)
    ensures Reads(Final(s, run), g, id) && Final(s, run).files == s.files && Final(s, run).now == s.now
    ensures Final(s, run).sessions == s.sessions[id := s.sessions[id].(status := Active)]
  {
    run := [];
    Append(s, run, Activate(g, true));                 run := run + [Activate(g, true)];
    Append(s, run, OpenFile(g, true));                 run := run + [OpenFile(g, true)];
  }

  lemma ServeNow(s: State, g: nat, id: string) returns (run: seq<Action>)
    requires Inv(s) && g !in s.serves && ServableNow(s, id)
    ensures IsRun(s, run) && Instant(run)
    ensures Reads(Final(s, run), g, id) && Final(s, run).files == s.files && Final(s, run).now == s.now
    ensures Final(s, run).sessions == s.sessions[id := s.sessions[id].(status := Active)]
  {
    run := Admit(s, g, id);
    var more := StartReading(Final(s, run), g, id);
    Concat(s, run, more);
    run := run + more;
  }

  /** Nobody serves this request's session past the expiry check, and the session is closed or out of time. */
  ghost predicate TooLate(s: State, g: nat, id: string) {
    && id in s.sessions && !Listed(s.sessions, id, s.now)
    && (g in s.serves ==> s.serves[g].id != id)
  }

  ghost predicate FileGone(s: State, g: nat, id: string) {
    && id in s.sessions && s.sessions[id].path !in s.files
    && !Reads(s, g, id)
  }

  lemma TooLateStep(s: State, a: Action, g: nat, id: string)
    requires CanDo(s, a) && !a.Wait? && TooLate(s, g, id)
    ensures TooLate(Do(s, a), g, id)
  {
    StepExtends(s, a);
    StatusChangesOnlyBy(s, a, id);
  }

  lemma FileGoneStep(s: State, a: Action, g: nat, id: string)
    requires CanDo(s, a) && FileGone(s, g, id)
    ensures FileGone(Do(s, a), g, id)
  {
    StepExtends(s, a);
    FilesChangeOnlyBy(s, a, s.sessions[id].path);
  }

  lemma {:induction false} StaysUnservable(s: State, run: seq<Action>, g: nat, id: string)
    requires IsRun(s, run) && Instant(run) && (TooLate(s, g, id) || FileGone(s, g, id))
    ensures !Reads(Final(s, run), g, id)
    decreases |run|
  {
    if run != [] {
      assert !run[0].Wait?;
      if TooLate(s, g, id) { TooLateStep(s, run[0], g, id); } else { FileGoneStep(s, run[0], g, id); }
      forall i | 0 <= i < |run| - 1 ensures run[1..][i] == run[i + 1] {}
      StaysUnservable(Do(s, run[0]), run[1..], g, id);
    }
  }

  /** In every reachable state a new request can come to read a session's file, without time passing or
      the stray sweep running, if and only if the session is pending or active, less than thirty minutes
      old, and its file is there; whatever the reaper has in hand. */
  lemma ServableIff(s: State, g: nat, id: string)
    requires Inv(s) && g !in s.serves && id in s.sessions
    ensures (exists run :: IsRun(s, run) && Instant(run) && Reads(Final(s, run), g, id)) <==> ServableNow(s, id)
  {
    if ServableNow(s, id) {
      var run := ServeNow(s, g, id);
    } else {
      assert TooLate(s, g, id) || FileGone(s, g, id);
      forall run | IsRun(s, run) && Instant(run) ensures !Reads(Final(s, run), g, id) {
        StaysUnservable(s, run, g, id);
      }
    }
  }

  /** A transfer of any length, left alone, ends with its session completed and nobody holding it. */
  lemma FinishTransfer(s: State, g: nat, id: string, d: nat) returns (run: seq<Action>)
    requires Reads(s, g, id) && id in s.sessions
    ensures IsRun(s, run) && Final(s, run).now == s.now + d
    ensures Final(s, run).sessions == s.sessions[id := s.sessions[id].(status := Completed)] && Final(s, run).files == s.files
    ensures g in Final(s, run).serves && Final(s, run).serves[g].stage == Finished
  {
    run := [];
    Append(s, run, Wait(d));                           run := run + [Wait(d)];
    Append(s, run, EndCopy(g));                        run := run + [EndCopy(g)];
    Append(s, run, Complete(g, true));                 run := run + [Complete(g, true)];
    Append(s, run, Release(g));                        run := run + [Release(g)];
  }

  lemma CreateAndWait(s: State, id: string, path: string, hash: string, lag: nat, d: nat) returns (run: seq<Action>)
    requires Inv(s) && CanDo(s, Create(id, path, hash, lag))
    ensures IsRun(s, run) && Inv(Final(s, run))
    ensures var t := Final(s, run);
      && t.now == s.now + d && t.serves == s.serves && t.files == s.files + {path}
      && t.sessions == s.sessions[id := Session(hash, path, Pending, s.now, s.now + 1_800_000_000_000, s.now - lag)]
  {
    run := [];
    Append(s, run, Create(id, path, hash, lag));       run := run + [Create(id, path, hash, lag)];
    Append(s, run, Wait(d));                           run := run + [Wait(d)];
    RunKeepsInv(s, run);
  }

  /** A new session is served to its end, whatever the transfer takes, by a request that comes within
      thirty minutes; and its code is refused from then on. */
  lemma NewSessionIsServed(s: State, id: string, path: string, hash: string, lag: nat, d: nat, e: nat, g: nat)
    returns (before: seq<Action>, run: seq<Action>)
    requires Inv(s) && CanDo(s, Create(id, path, hash, lag)) && g !in s.serves
    ensures IsRun(s, before) && Final(s, before).now == s.now + d && id in Final(s, before).sessions
    ensures d < 1_800_000_000_000 ==>
      && IsRun(Final(s, before), run) && var t := Final(Final(s, before), run);
      && t.now == s.now + d + e && id in t.sessions && t.sessions[id].status == Completed
      && g in t.serves && t.serves[g].id == id && t.serves[g].stage == Finished
    ensures d >= 1_800_000_000_000 ==> !CanDo(Final(s, before), Match(g, id))
  {
    before := CreateAndWait(s, id, path, hash, lag, d);
    run := [];
    if d < 1_800_000_000_000 {
      var t := Final(s, before);
      run := ServeNow(t, g, id);
      var more := FinishTransfer(Final(t, run), g, id, e);
      ServesKeepTheirSession(Final(t, run), more, g);
      Concat(t, run, more);
      run := run + more;
    }
  }

  // ---------------------------------------------------------------- an idle stale session is reaped

  predicate OnlyReaper(run: seq<Action>) {
    forall i :: 0 <= i < |run| ==>
      run[i].ReapList? || run[i].ReapSkip? || run[i].ReapChoose? || run[i].ReapExpire? || run[i].ReapUnlink?
  }

  lemma ReapIdle(s: State, id: string) returns (run: seq<Action>)
    requires s.registry && Resting(s.reaper) && Due(s, id) && s.sessions[id].status in {Pending, Active} && !InUse(s, id)
    ensures IsRun(s, run) && OnlyReaper(run)
    ensures Final(s, run) == s.(sessions := s.sessions[id := s.sessions[id].(status := Expired)], files := s.files - {s.sessions[id].path})
  {
    var c, cutoff := Candidate(id, s.sessions[id].path), s.now - REAP_GRACE;
    run := [];
    Append(s, run, ReapList([c], cutoff));             run := run + [ReapList([c], cutoff)];
    Append(s, run, ReapChoose);                        run := run + [ReapChoose];
    Append(s, run, ReapExpire(true));                  run := run + [ReapExpire(true)];
    Append(s, run, ReapUnlink(true));                  run := run + [ReapUnlink(true)];
  }

  ghost predicate Spared(s: State, id: string) {
    && id in s.sessions && s.registry && (InUse(s, id) || !Due(s, id))
    && (forall i :: 0 <= i < |s.reaper.chosen| ==> s.reaper.chosen[i].id != id)
  }

  lemma SparedStep(s: State, a: Action, id: string)
    requires Inv(s) && CanDo(s, a) && OnlyReaper([a]) && Spared(s, id)
    ensures Spared(Do(s, a), id) && Do(s, a).sessions[id].status == s.sessions[id].status
  {
    assert [a][0] == a;
    StepExtends(s, a);
    StatusChangesOnlyBy(s, a, id);
    assert Do(s, a).serves == s.serves;
    if a.ReapChoose? { assert Doomed(s, s.reaper.todo[0]); }
  }

  lemma {:induction false} StaysSpared(s: State, run: seq<Action>, id: string)
    requires Inv(s) && IsRun(s, run) && OnlyReaper(run) && Spared(s, id)
    ensures id in Final(s, run).sessions && Final(s, run).sessions[id].status == s.sessions[id].status
    decreases |run|
  {
    if run != [] {
      assert OnlyReaper([run[0]]);
      SparedStep(s, run[0], id);
      StepKeepsInv(s, run[0]);
      forall i | 0 <= i < |run| - 1 ensures run[1..][i] == run[i + 1] {}
      StaysSpared(Do(s, run[0]), run[1..], id);
    }
  }

  /** Between two ticks, with the registry: reaping can expire an open session if and only if nobody holds
      it and it is more than thirty-five minutes old; and then it can take that row and its file alone. */
  lemma ReapableIff(s: State, id: string)
    requires Inv(s) && s.registry && Resting(s.reaper) && id in s.sessions && s.sessions[id].status in {Pending, Active}
    ensures (exists run :: IsRun(s, run) && OnlyReaper(run) && id in Final(s, run).sessions && Final(s, run).sessions[id].status == Expired) <==>
            !InUse(s, id) && s.now > s.sessions[id].createdAt + 2_100_000_000_000
    ensures !InUse(s, id) && s.now > s.sessions[id].createdAt + 2_100_000_000_000 ==>
      exists run :: IsRun(s, run) && OnlyReaper(run) &&
        Final(s, run) == s.(sessions := s.sessions[id := s.sessions[id].(status := Expired)], files := s.files - {s.sessions[id].path})
  {
    if !InUse(s, id) && Due(s, id) {
      var run := ReapIdle(s, id);
    } else {
      forall run | IsRun(s, run) && OnlyReaper(run) ensures id in Final(s, run).sessions && Final(s, run).sessions[id].status != Expired {
        StaysSpared(s, run, id);
      }
    }
  }

  /** What is left of a tick. */
  function TickLeft(r: KoboTransfer.Reaper): nat {
    3 * |r.todo| + 2 * |r.chosen| + |r.removing|
  }

  /** The next step of a tick whose every write fails. */
  ghost function NextReap(s: State): Action
    requires !Resting(s.reaper)
  {
    if s.reaper.removing != [] then ReapUnlink(false)
    else if s.reaper.chosen != [] then ReapExpire(false)
    else if InUse(s, s.reaper.todo[0].id) then ReapSkip
    else ReapChoose
  }

  lemma TickGoesOn(s: State)
    requires !Resting(s.reaper) && (s.registry || s.reaper.todo == [])
    ensures CanDo(s, NextReap(s)) && TickLeft(Do(s, NextReap(s)).reaper) < TickLeft(s.reaper)
    ensures var s' := Do(s, NextReap(s)); s' == s.(reaper := s'.reaper) && (s.reaper.todo == [] ==> s'.reaper.todo == [])
  {
  }

  /** Every tick comes to its end, wherever it stands and even if all its writes fail: then it has changed
      no row and no file, and the next tick finds the same rows again. */
  lemma {:induction false} EveryTickEnds(s: State) returns (run: seq<Action>)
    requires s.registry || s.reaper.todo == []
    ensures IsRun(s, run) && OnlyReaper(run) && Final(s, run) == s.(reaper := s.reaper.(todo := [], chosen := [], removing := []))
    decreases TickLeft(s.reaper)
  {
    if Resting(s.reaper) {
      run := [];
    } else {
      TickGoesOn(s);
      var a := NextReap(s);
      var rest := EveryTickEnds(Do(s, a));
      run := [a] + rest;
      assert run[1..] == rest;
    }
  }
}
