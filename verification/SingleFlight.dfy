/** The single-flight half of Manager.StartOrJoin (internal/streaming/cache.go), as a step machine.

    Each call runs on its own goroutine; one action below is one atomic step of one of them, so a
    list of actions is an interleaving.  What the leader does between winning LoadOrStore and
    writing its result is the fill, refined in CacheProtocol. */
module SingleFlight {
  import opened Wrappers

  /** What a call returns: an entry, an error of the fill, or its own context's error. */
  datatype Answer = Entry(id: string, key: string, bytes: nat) | FillError | Cancelled

  datatype Pc =
    | Entered                   // before Lookup
    | Missed                    // Lookup missed, before LoadOrStore
    | Following(leader: nat)    // blocked on the leader's done channel
    | Leading                   // download stored in inflight, fill running
    | Filled                    // result written, before close(done)
    | Signalled                 // done closed, before inflight.Delete
    | Returned(answer: Answer)

  /** One StartOrJoin call.  result and closes belong to the download object it owns if it leads;
      joined is the call whose download it found in inflight.  cancelled is the context of its own
      request, timedOut the deadline of the fill it leads. */
  datatype Call = Call(key: string, pc: Pc, leader: bool, joined: Option<nat>,
                       result: Option<Answer>, closes: nat, cancelled: bool, timedOut: bool)

  /** detached says that a fill runs on a context of its own (context.WithoutCancel and a deadline), as
      it does in the code, and not on the context of the leader's request. */
  datatype Flight = Flight(calls: map<nat, Call>, inflight: map<string, nat>, detached: bool)

  datatype Step =
    | Enter(key: string)
    | CancelRequest
    | Hit(answer: Answer)
    | Miss
    | LoadOrStore
    | Timeout                   // the deadline of the fill passes
    | Finish(answer: Answer)    // fetchAsLeader marks the row ready or gives up; d.entry and d.err are assigned
    | CloseDone
    | DeleteInflight
    | FollowerReturn
    | FollowerCancel

  function Initial(detached: bool): Flight {
    Flight(map[], map[], detached)
  }

  const Start := Initial(true)

  /** The context of the fill that c leads is done before its last statement, which marks the row ready:
      the fill cannot succeed.  A context that ends after that statement ends after Finish. */
  predicate FillCancelled(f: Flight, c: Call) {
    c.timedOut || (!f.detached && c.cancelled)
  }

  predicate InFill(pc: Pc) {
    pc == Leading || pc == Filled || pc == Signalled
  }

  predicate Enabled(f: Flight, g: nat, a: Step) {
    if a.Enter? then g !in f.calls
    else
      && g in f.calls
      && var c := f.calls[g];
      match a
      case Enter(_) => false
      case CancelRequest => true
      case Hit(r) => c.pc == Entered && r.Entry? && r.key == c.key
      case Miss => c.pc == Entered
      case LoadOrStore => c.pc == Missed
      case Timeout => c.pc == Leading
      case Finish(r) => c.pc == Leading && !r.Cancelled? && (r.Entry? ==> r.key == c.key && !FillCancelled(f, c))
      case CloseDone => c.pc == Filled
      case DeleteInflight => c.pc == Signalled && c.result.Some?
      case FollowerReturn =>
        c.pc.Following? && c.pc.leader in f.calls &&
        f.calls[c.pc.leader].closes > 0 && f.calls[c.pc.leader].result.Some?
      case FollowerCancel => c.pc.Following? && c.cancelled
  }

  /** The call after its step; f supplies the inflight map and the download it waits on. */
  function After(f: Flight, g: nat, a: Step): Call
    requires Enabled(f, g, a)
  {
    if a.Enter? then Call(a.key, Entered, false, None, None, 0, false, false)
    else
      var c := f.calls[g];
      match a
      case CancelRequest => c.(cancelled := true)
      case Hit(r) => c.(pc := Returned(r))
      case Miss => c.(pc := Missed)
      case LoadOrStore =>
        if c.key in f.inflight then c.(pc := Following(f.inflight[c.key]), joined := Some(f.inflight[c.key]))
        else c.(pc := Leading, leader := true)
      case Timeout => c.(timedOut := true)
      case Finish(r) => c.(pc := Filled, result := Some(r))
      case CloseDone => c.(pc := Signalled, closes := c.closes + 1)
      case DeleteInflight => c.(pc := Returned(c.result.value))
      case FollowerReturn => c.(pc := Returned(f.calls[c.pc.leader].result.value))
      case FollowerCancel => c.(pc := Returned(Cancelled))
  }

  function InflightAfter(f: Flight, g: nat, a: Step): map<string, nat>
    requires Enabled(f, g, a)
  {
    if a == LoadOrStore && f.calls[g].key !in f.inflight then f.inflight[f.calls[g].key := g]
    else if a == DeleteInflight then f.inflight - {f.calls[g].key}
    else f.inflight
  }

  function Apply(f: Flight, g: nat, a: Step): Flight
    requires Enabled(f, g, a)
  {
    Flight(f.calls[g := After(f, g, a)], InflightAfter(f, g, a), f.detached)
  }

  /** The download a call owns, by where the call is: the result is written once, and before the
      one close of the done channel. */
  predicate DownloadOk(c: Call) {
    && (InFill(c.pc) ==> c.leader && c.joined.None?)
    && (c.leader ==> InFill(c.pc) || c.pc.Returned?)
    && c.closes == (if c.pc == Signalled || (c.leader && c.pc.Returned?) then 1 else 0)
    && (c.result.Some? <==> c.pc == Filled || c.pc == Signalled || (c.leader && c.pc.Returned?))
    && (c.leader && c.pc.Returned? ==> c.result == Some(c.pc.answer))
    && (c.joined.Some? ==> !c.leader && (c.pc.Following? || c.pc.Returned?))
    && (c.pc.Following? ==> c.joined == Some(c.pc.leader))
    && (c.result.Some? ==> !c.result.value.Cancelled? && (c.result.value.Entry? ==> c.result.value.key == c.key))
  }

  /** What a call has got without waiting for another: the result of its own fill, or a ready row. */
  function Given(c: Call): Option<Answer> {
    if c.result.None? && c.pc.Returned? && c.joined.None? then Some(c.pc.answer) else c.result
  }

  /** A call that returned without a fill, its own or another's, holds a ready entry of its key. */
  predicate HitOk(c: Call) {
    c.pc.Returned? && !c.leader && c.joined.None? ==> c.pc.answer.Entry? && c.pc.answer.key == c.key
  }

  /** A follower answers with the result of the download it joined, or was itself cancelled. */
  predicate FollowOk(f: Flight, c: Call) {
    c.joined.Some? ==>
      && c.joined.value in f.calls
      && f.calls[c.joined.value].leader
      && f.calls[c.joined.value].key == c.key
      && (c.pc.Returned? ==>
            || (c.pc.answer == Cancelled && c.cancelled)
            || (f.calls[c.joined.value].result == Some(c.pc.answer) && f.calls[c.joined.value].closes == 1))
  }

  /** inflight holds every call in its fill... */
  ghost predicate LeadersListed(f: Flight) {
    forall g :: g in f.calls && InFill(f.calls[g].pc) ==> f.calls[g].key in f.inflight && f.inflight[f.calls[g].key] == g
  }

  /** ...and nothing else. */
  ghost predicate ListedLead(f: Flight) {
    forall k :: k in f.inflight ==>
      f.inflight[k] in f.calls && f.calls[f.inflight[k]].key == k && InFill(f.calls[f.inflight[k]].pc)
  }

  ghost predicate Inv(f: Flight) {
    && (forall g :: g in f.calls ==> DownloadOk(f.calls[g]) && HitOk(f.calls[g]) && FollowOk(f, f.calls[g]))
    && LeadersListed(f) && ListedLead(f)
  }

  lemma StepKeepsLeadersListed(f: Flight, g: nat, a: Step)
    requires Inv(f) && Enabled(f, g, a)
    ensures LeadersListed(Apply(f, g, a))
  {
  }

  lemma StepKeepsListedLead(f: Flight, g: nat, a: Step)
    requires Inv(f) && Enabled(f, g, a)
    ensures ListedLead(Apply(f, g, a))
  {
  }

  lemma StepKeepsCall(f: Flight, g: nat, a: Step, h: nat)
    requires Inv(f) && Enabled(f, g, a) && h in Apply(f, g, a).calls
    ensures var f' := Apply(f, g, a); DownloadOk(f'.calls[h]) && HitOk(f'.calls[h]) && FollowOk(f', f'.calls[h])
  {
    if g in f.calls { assert DownloadOk(f.calls[g]) && HitOk(f.calls[g]) && FollowOk(f, f.calls[g]); }
    if h in f.calls {
      assert DownloadOk(f.calls[h]) && HitOk(f.calls[h]) && FollowOk(f, f.calls[h]);
    }
  }

  lemma StepKeepsInv(f: Flight, g: nat, a: Step)
    requires Inv(f) && Enabled(f, g, a)
    ensures Inv(Apply(f, g, a))
  {
    StepKeepsLeadersListed(f, g, a);
    StepKeepsListedLead(f, g, a);
    forall h | h in Apply(f, g, a).calls
      ensures DownloadOk(Apply(f, g, a).calls[h]) && HitOk(Apply(f, g, a).calls[h]) && FollowOk(Apply(f, g, a), Apply(f, g, a).calls[h])
    {
      StepKeepsCall(f, g, a, h);
    }
  }

  // ---------------------------------------------------------------- whole runs

  type Run = seq<(nat, Step)>

  ghost predicate IsRun(f: Flight, run: Run)
    decreases |run|
  {
    run == [] || (Enabled(f, run[0].0, run[0].1) && IsRun(Apply(f, run[0].0, run[0].1), run[1..]))
  }

  ghost function Final(f: Flight, run: Run): Flight
    requires IsRun(f, run)
    decreases |run|
  {
    if run == [] then f else Final(Apply(f, run[0].0, run[0].1), run[1..])
  }

  lemma {:induction false} RunKeepsInv(f: Flight, run: Run)
    requires Inv(f) && IsRun(f, run)
    ensures Inv(Final(f, run))
    decreases |run|
  {
    if run != [] {
      StepKeepsInv(f, run[0].0, run[0].1);
      RunKeepsInv(Apply(f, run[0].0, run[0].1), run[1..]);
    }
  }

  /** Two fills of one key never overlap, in any interleaving of any calls. */
  lemma FillsNeverOverlap(run: Run, g: nat, h: nat)
    requires IsRun(Start, run)
    requires var f := Final(Start, run);
      g in f.calls && h in f.calls && f.calls[g].key == f.calls[h].key && InFill(f.calls[g].pc) && InFill(f.calls[h].pc)
    ensures g == h
  {
    RunKeepsInv(Start, run);
  }

  /** A written result is never rewritten, a closed channel never closed again, and a returned
      call keeps its answer. */
  lemma {:induction false} ResultIsFinal(f: Flight, run: Run, g: nat)
    requires Inv(f) && IsRun(f, run) && g in f.calls
    ensures g in Final(f, run).calls
    ensures var c, c' := f.calls[g], Final(f, run).calls[g];
      && c'.key == c.key
      && (c.leader ==> c'.leader)
      && (c.joined.Some? ==> c'.joined == c.joined)
      && (c.result.Some? ==> c'.result == c.result)
      && (c.closes <= c'.closes <= 1)
      && (c.pc.Returned? ==> c'.pc == c.pc)
    decreases |run|
  {
    assert DownloadOk(f.calls[g]);
    if run != [] {
      StepKeepsInv(f, run[0].0, run[0].1);
      ResultIsFinal(Apply(f, run[0].0, run[0].1), run[1..], g);
    }
  }

  /** Every done channel is closed at most once, only with the result written, and has been closed
      once the leader has returned. */
  lemma DoneClosedOnceAfterResult(run: Run, g: nat)
    requires IsRun(Start, run) && g in Final(Start, run).calls
    ensures var c := Final(Start, run).calls[g];
      && c.closes <= 1
      && (c.closes == 1 ==> c.result.Some?)
      && (c.leader && c.pc.Returned? ==> c.closes == 1)
  {
    RunKeepsInv(Start, run);
    assert DownloadOk(Final(Start, run).calls[g]);
  }

  /** A follower that was not itself cancelled answers exactly what its leader answers, whenever
      the two return and whatever happens in between. */
  lemma FollowerAnswersAsLeader(run: Run, later: Run, g: nat)
    requires IsRun(Start, run) && IsRun(Final(Start, run), later)
    requires var c := Final(Start, run).calls; g in c && c[g].joined.Some? && c[g].pc.Returned? && !c[g].cancelled
    ensures var l, f' := Final(Start, run).calls[g].joined.value, Final(Final(Start, run), later);
      && l in f'.calls && g in f'.calls && f'.calls[l].leader && f'.calls[l].key == f'.calls[g].key
      && f'.calls[g].pc.Returned? && f'.calls[l].result == Some(f'.calls[g].pc.answer) && f'.calls[l].closes == 1
      && (f'.calls[l].pc.Returned? ==> f'.calls[l].pc == f'.calls[g].pc)
  {
    var f := Final(Start, run);
    RunKeepsInv(Start, run);
    assert FollowOk(f, f.calls[g]) && DownloadOk(f.calls[g]);
    var l := f.calls[g].joined.value;
    ResultIsFinal(f, later, g);
    ResultIsFinal(f, later, l);
    RunKeepsInv(f, later);
    assert DownloadOk(Final(f, later).calls[l]);
  }

  /** A follower answers with its own context's error only if its own request was cancelled. */
  lemma OnlyOwnCancellationCancels(run: Run, g: nat)
    requires IsRun(Start, run) && g in Final(Start, run).calls
    requires var c := Final(Start, run).calls[g]; c.joined.Some? && c.pc == Returned(Cancelled)
    ensures Final(Start, run).calls[g].cancelled
  {
    RunKeepsInv(Start, run);
    var f := Final(Start, run);
    assert FollowOk(f, f.calls[g]);
    assert DownloadOk(f.calls[f.calls[g].joined.value]);
  }

  lemma FlagStep(f: Flight, h: nat, a: Step, g: nat)
    requires Enabled(f, h, a) && g in Apply(f, h, a).calls
    ensures var c := Apply(f, h, a).calls[g];
      && (c.cancelled <==> (h == g && a == CancelRequest) || (g in f.calls && f.calls[g].cancelled))
      && (c.timedOut <==> (h == g && a == Timeout) || (g in f.calls && f.calls[g].timedOut))
  {
  }

  /** The flags of a call are set by their own steps and by nothing else. */
  lemma {:induction false} FlagsComeFromTheRun(f: Flight, run: Run, g: nat)
    requires IsRun(f, run) && g in Final(f, run).calls
    ensures var c := Final(f, run).calls[g];
      && (c.cancelled <==> (g, CancelRequest) in run || (g in f.calls && f.calls[g].cancelled))
      && (c.timedOut <==> (g, Timeout) in run || (g in f.calls && f.calls[g].timedOut))
    decreases |run|
  {
    if run != [] {
      var f1 := Apply(f, run[0].0, run[0].1);
      assert run == [run[0]] + run[1..];
      FlagsComeFromTheRun(f1, run[1..], g);
      if g in f1.calls { FlagStep(f, run[0].0, run[0].1, g); }
    }
  }

  /** What any call answers, in every run: an entry is of its own key; an error is the result of a fill
      of its key, its own or the one it joined; and its context's error means that it joined and that
      its request was cancelled.  So a call that found a ready row returned an entry. */
  lemma AnswersOfARun(run: Run, g: nat)
    requires IsRun(Start, run) && g in Final(Start, run).calls && Final(Start, run).calls[g].pc.Returned?
    ensures var f := Final(Start, run); var c := f.calls[g];
      match c.pc.answer
      case Entry(_, key, _) => key == c.key
      case FillError =>
        exists l :: l in f.calls && f.calls[l].leader && f.calls[l].key == c.key && f.calls[l].result == Some(FillError) &&
                    (l == g || c.joined == Some(l))
      case Cancelled => c.joined.Some? && (g, CancelRequest) in run
  {
    RunKeepsInv(Start, run);
    FlagsComeFromTheRun(Start, run, g);
    var f := Final(Start, run);
    var c := f.calls[g];
    assert DownloadOk(c) && HitOk(c) && FollowOk(f, c);
    if c.joined.Some? { assert DownloadOk(f.calls[c.joined.value]); }
  }

  /** When a fill may still succeed: its deadline has not passed, and it runs on a context of its own or the
      request that leads it has not been cancelled.  It may fail at any time. */
  lemma FillMaySucceedIff(detached: bool, run: Run, g: nat, id: string, n: nat)
    requires IsRun(Initial(detached), run)
    requires var c := Final(Initial(detached), run).calls; g in c && c[g].pc == Leading
    ensures var f := Final(Initial(detached), run);
      && (Enabled(f, g, Finish(Entry(id, f.calls[g].key, n))) <==>
            (g, Timeout) !in run && (detached || (g, CancelRequest) !in run))
      && Enabled(f, g, Finish(FillError)) && Enabled(f, g, Timeout)
  {
    FlagsComeFromTheRun(Initial(detached), run, g);
    SameKind(Initial(detached), run);
  }

  lemma {:induction false} SameKind(f: Flight, run: Run)
    requires IsRun(f, run)
    ensures Final(f, run).detached == f.detached
    decreases |run|
  {
    if run != [] { SameKind(Apply(f, run[0].0, run[0].1), run[1..]); }
  }

  function WithCancel(f: Flight, g: nat): Flight
    requires g in f.calls
  {
    f.(calls := f.calls[g := f.calls[g].(cancelled := true)])
  }

  lemma CancelKeepsEnabled(f: Flight, h: nat, a: Step, g: nat)
    requires f.detached && g in f.calls && DownloadOk(f.calls[g]) && f.calls[g].leader
    ensures Enabled(f, h, a) <==> Enabled(WithCancel(f, g), h, a)
  {
  }

  lemma CancelCommutesAfter(f: Flight, h: nat, a: Step, g: nat)
    requires f.detached && g in f.calls && DownloadOk(f.calls[g]) && f.calls[g].leader && Enabled(f, h, a)
    ensures Enabled(WithCancel(f, g), h, a)
    ensures After(WithCancel(f, g), h, a) == if h == g then After(f, h, a).(cancelled := true) else After(f, h, a)
  {
    CancelKeepsEnabled(f, h, a, g);
  }

  lemma CancelCommutesInflight(f: Flight, h: nat, a: Step, g: nat)
    requires g in f.calls && Enabled(f, h, a) && Enabled(WithCancel(f, g), h, a)
    ensures InflightAfter(WithCancel(f, g), h, a) == InflightAfter(f, h, a)
  {
  }

  lemma CancelCommutes(f: Flight, h: nat, a: Step, g: nat)
    requires f.detached && g in f.calls && DownloadOk(f.calls[g]) && f.calls[g].leader && Enabled(f, h, a)
    ensures Enabled(WithCancel(f, g), h, a)
    ensures g in Apply(f, h, a).calls && Apply(f, h, a).calls[g].leader
    ensures Apply(WithCancel(f, g), h, a) == WithCancel(Apply(f, h, a), g)
  {
    CancelCommutesAfter(f, h, a, g);
    CancelCommutesInflight(f, h, a, g);
    assert Apply(WithCancel(f, g), h, a).calls == WithCancel(Apply(f, h, a), g).calls;
  }

  /** Since the fill is detached, cancelling a leader's own request commutes with every step of every call: the same runs stay
      possible and they end in the same state but for that one flag. */
  lemma {:induction false} CancellingLeaderChangesNothing(f: Flight, run: Run, g: nat)
    requires Inv(f) && f.detached && g in f.calls && f.calls[g].leader
    ensures IsRun(f, run) <==> IsRun(WithCancel(f, g), run)
    ensures IsRun(f, run) ==>
      g in Final(f, run).calls && Final(WithCancel(f, g), run) == WithCancel(Final(f, run), g)
    decreases |run|
  {
    if run != [] {
      assert DownloadOk(f.calls[g]);
      CancelKeepsEnabled(f, run[0].0, run[0].1, g);
      if Enabled(f, run[0].0, run[0].1) {
        StepKeepsInv(f, run[0].0, run[0].1);
        CancelCommutes(f, run[0].0, run[0].1, g);
        CancellingLeaderChangesNothing(Apply(f, run[0].0, run[0].1), run[1..], g);
      }
    }
  }

  /** The leader's fill has failed, or is bound to. */
  predicate BoundToFail(f: Flight, l: nat) {
    && l in f.calls && f.calls[l].leader
    && (f.calls[l].result == Some(FillError) || (f.calls[l].pc == Leading && f.calls[l].result.None? && f.calls[l].cancelled))
  }

  lemma {:induction false} StaysBoundToFail(f: Flight, run: Run, l: nat)
    requires Inv(f) && !f.detached && BoundToFail(f, l) && IsRun(f, run)
    ensures BoundToFail(Final(f, run), l)
    decreases |run|
  {
    assert DownloadOk(f.calls[l]);
    if run != [] {
      StepKeepsInv(f, run[0].0, run[0].1);
      StaysBoundToFail(Apply(f, run[0].0, run[0].1), run[1..], l);
    }
  }

  /** On the request's own context it would be otherwise: once the leader's request is cancelled, every
      follower that is not itself cancelled can only return an error, in every run. */
  lemma AttachedFillFailsFollowers(f: Flight, run: Run, l: nat, g: nat)
    requires Inv(f) && !f.detached && IsRun(f, run)
    requires l in f.calls && f.calls[l].pc == Leading && f.calls[l].cancelled
    requires var c := Final(f, run).calls; g in c && c[g].joined == Some(l) && c[g].pc.Returned? && !c[g].cancelled
    ensures Final(f, run).calls[g].pc.answer == FillError
  {
    assert DownloadOk(f.calls[l]);
    StaysBoundToFail(f, run, l);
    RunKeepsInv(f, run);
    assert FollowOk(Final(f, run), Final(f, run).calls[g]) && DownloadOk(Final(f, run).calls[g]);
  }

  lemma {:induction false} AppendStep(f: Flight, run: Run, g: nat, a: Step)
    requires IsRun(f, run) && Enabled(Final(f, run), g, a)
    ensures IsRun(f, run + [(g, a)]) && Final(f, run + [(g, a)]) == Apply(Final(f, run), g, a)
    decreases |run|
  {
    assert run + [(g, a)] == (if run == [] then [(g, a)] + [] else [run[0]] + (run[1..] + [(g, a)]));
    if run != [] { AppendStep(Apply(f, run[0].0, run[0].1), run[1..], g, a); }
  }

  /** Such a state is reached, with a follower waiting; detached, the same steps leave the fill free to
      succeed. */
  lemma LeaderIsCancelled(key: string, detached: bool, r: Answer) returns (run: Run)
    requires r.Entry? && r.key == key
    ensures IsRun(Initial(detached), run)
    ensures var f := Final(Initial(detached), run);
      && 0 in f.calls && f.calls[0].pc == Leading && f.calls[0].cancelled
      && 1 in f.calls && f.calls[1].pc == Following(0) && !f.calls[1].cancelled
      && (Enabled(f, 0, Finish(r)) <==> detached)
  {
    var f := Initial(detached);
    run := [];
    AppendStep(f, run, 0, Enter(key));           run := run + [(0, Enter(key))];
    AppendStep(f, run, 1, Enter(key));           run := run + [(1, Enter(key))];
    AppendStep(f, run, 0, Miss);                 run := run + [(0, Miss)];
    AppendStep(f, run, 1, Miss);                 run := run + [(1, Miss)];
    AppendStep(f, run, 0, LoadOrStore);          run := run + [(0, LoadOrStore)];
    AppendStep(f, run, 1, LoadOrStore);          run := run + [(1, LoadOrStore)];
    AppendStep(f, run, 0, CancelRequest);        run := run + [(0, CancelRequest)];
  }

  /** No call is stuck: it can step, or it waits on a leader that can. */
  lemma NoDeadlock(run: Run, g: nat)
    requires IsRun(Start, run) && g in Final(Start, run).calls && !Final(Start, run).calls[g].pc.Returned?
    ensures var f := Final(Start, run);
      exists h, a :: Enabled(f, h, a) && !a.CancelRequest? && !a.Enter? && (h == g || f.calls[g].pc == Following(h))
  {
    var f := Final(Start, run);
    RunKeepsInv(Start, run);
    assert DownloadOk(f.calls[g]) && FollowOk(f, f.calls[g]);
    var h := if f.calls[g].pc.Following? && f.calls[f.calls[g].pc.leader].closes == 0 then f.calls[g].pc.leader else g;
    assert DownloadOk(f.calls[h]);
    var a := match f.calls[h].pc
      case Entered => Miss
      case Missed => LoadOrStore
      case Following(_) => FollowerReturn
      case Leading => Finish(FillError)
      case Filled => CloseDone
      case Signalled => DeleteInflight
      case Returned(_) => Miss;
    assert Enabled(f, h, a);
  }

  /** The calls go on by themselves: nobody new comes, nobody is cancelled and no deadline passes. */
  predicate Undisturbed(run: Run) {
    forall i :: 0 <= i < |run| ==> !run[i].1.Enter? && !run[i].1.CancelRequest? && !run[i].1.Timeout?
  }

  lemma {:induction false} Prepend(f: Flight, g: nat, a: Step, rest: Run)
    requires Enabled(f, g, a) && IsRun(Apply(f, g, a), rest)
    ensures IsRun(f, [(g, a)] + rest) && Final(f, [(g, a)] + rest) == Final(Apply(f, g, a), rest)
    ensures !a.Enter? && !a.CancelRequest? && !a.Timeout? && Undisturbed(rest) ==> Undisturbed([(g, a)] + rest)
  {
    assert ([(g, a)] + rest)[1..] == rest;
  }

  /** Steps that a leader has left. */
  function StepsLeft(pc: Pc): nat {
    match pc
    case Leading => 3
    case Filled => 2
    case Signalled => 1
    case _ => 0
  }

  function LeaderStep(pc: Pc): Step {
    if pc == Leading then Finish(FillError) else if pc == Filled then CloseDone else DeleteInflight
  }

  lemma LeaderSteps(f: Flight, l: nat)
    requires Inv(f) && l in f.calls && InFill(f.calls[l].pc)
    ensures Enabled(f, l, LeaderStep(f.calls[l].pc))
    ensures var f1 := Apply(f, l, LeaderStep(f.calls[l].pc));
      && l in f1.calls && f1.calls[l].leader
      && (if f.calls[l].pc == Signalled then f1.calls[l].pc.Returned?
          else InFill(f1.calls[l].pc) && StepsLeft(f1.calls[l].pc) < StepsLeft(f.calls[l].pc))
      && f1.calls.Keys == f.calls.Keys && (forall h :: h in f.calls && h != l ==> f1.calls[h] == f.calls[h])
  {
    assert DownloadOk(f.calls[l]);
  }

  lemma {:induction false} LeaderReturns(f: Flight, l: nat) returns (run: Run)
    requires Inv(f) && l in f.calls && InFill(f.calls[l].pc)
    ensures IsRun(f, run) && Undisturbed(run) && Inv(Final(f, run)) && Final(f, run).calls.Keys == f.calls.Keys
    ensures Final(f, run).calls[l].pc.Returned? && Final(f, run).calls[l].leader
    ensures forall h :: h in f.calls && h != l ==> Final(f, run).calls[h] == f.calls[h]
    decreases StepsLeft(f.calls[l].pc)
  {
    var a := LeaderStep(f.calls[l].pc);
    LeaderSteps(f, l);
    StepKeepsInv(f, l, a);
    var f1 := Apply(f, l, a);
    var rest: Run := [];
    if f.calls[l].pc != Signalled { rest := LeaderReturns(f1, l); }
    Prepend(f, l, a, rest);
    run := [(l, a)] + rest;
  }

  lemma Join(f: Flight, run: Run, g: nat, a: Step) returns (whole: Run)
    requires IsRun(f, run) && Undisturbed(run) && Enabled(Final(f, run), g, a) && !a.Enter? && !a.CancelRequest? && !a.Timeout?
    ensures IsRun(f, whole) && Undisturbed(whole) && Final(f, whole) == Apply(Final(f, run), g, a)
  {
    AppendStep(f, run, g, a);
    whole := run + [(g, a)];
  }

  lemma FollowerReturns(f: Flight, g: nat) returns (run: Run)
    requires Inv(f) && g in f.calls && f.calls[g].pc.Following?
    ensures IsRun(f, run) && Undisturbed(run) && g in Final(f, run).calls && Final(f, run).calls[g].pc.Returned?
  {
    var l := f.calls[g].pc.leader;
    assert DownloadOk(f.calls[g]) && FollowOk(f, f.calls[g]) && DownloadOk(f.calls[l]);
    run := [];
    if InFill(f.calls[l].pc) { run := LeaderReturns(f, l); }
    assert DownloadOk(Final(f, run).calls[l]);
    run := Join(f, run, g, FollowerReturn);
  }

  /** Every call that has entered can return without any new call, cancellation or deadline: it is never
      left behind, whatever happened before. */
  lemma {:induction false} EveryCallCanReturn(f: Flight, g: nat) returns (run: Run)
    requires Inv(f) && g in f.calls
    ensures IsRun(f, run) && Undisturbed(run) && g in Final(f, run).calls && Final(f, run).calls[g].pc.Returned?
    decreases if f.calls[g].pc == Entered then 2 else if f.calls[g].pc == Missed then 1 else 0
  {
    var pc := f.calls[g].pc;
    if pc.Returned? {
      run := [];
    } else if InFill(pc) {
      run := LeaderReturns(f, g);
    } else if pc.Following? {
      run := FollowerReturns(f, g);
    } else {
      var a := if pc == Entered then Miss else LoadOrStore;
      StepKeepsInv(f, g, a);
      var rest := EveryCallCanReturn(Apply(f, g, a), g);
      Prepend(f, g, a, rest);
      run := [(g, a)] + rest;
    }
  }

  /** And a follower whose own request is cancelled can return at once, with its context's error. */
  lemma CancelledFollowerReturns(f: Flight, g: nat)
    requires g in f.calls && f.calls[g].pc.Following?
    ensures Enabled(f, g, FollowerCancel) <==> f.calls[g].cancelled
    ensures f.calls[g].cancelled ==>
      var f' := Apply(f, g, FollowerCancel); g in f'.calls && f'.calls[g] == f.calls[g].(pc := Returned(Cancelled)) && f'.inflight == f.inflight
  {
  }
}
