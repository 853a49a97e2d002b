/** What the engine promises its source and its caller, for any number of loops,
    any interleaving, any behaviour of the operating system and any clock. */
module EngineContract {
  import opened Basics
  import opened ConnectTypes
  import opened Protocol
  import opened Held
  import opened Engine
  import opened EngineSafety
  import opened EngineBooks
  import opened EngineStarts
  import F = Flight
  import W = Window

  /** A run of the engine, from set up. */
  datatype Run = Run(limit: nat, poolPace: nat, pace: W.Pace, up: seq<bool>, es: seq<Event>)
  {
    ghost predicate Valid() {
      1 <= |up| <= limit
    }

    function End(): State
      requires Valid()
    {
      Exec(Init(limit, poolPace, pace, up), es)
    }

    /** The run one event shorter. */
    function Before(): Run
      requires |es| > 0
    {
      this.(es := Front(es))
    }
  }

  // ---- Exactly once -------------------------------------------------------------

  lemma {:induction false} InitIsEmpty(loops: seq<Loop>, j: Job)
    requires forall i :: 0 <= i < |loops| ==> Holds(loops[i], j) == 0
    ensures AllHold(loops, j) == 0
  {
    if loops != [] {
      InitIsEmpty(loops[1..], j);
    }
  }

  lemma {:induction false} AlwaysConserved(r: Run, j: Job)
    requires r.Valid()
    ensures Conserved(r.End(), j)
    decreases |r.es|
  {
    if |r.es| == 0 {
      InitIsEmpty(r.End().loops, j);
    } else {
      AlwaysConserved(r.Before(), j);
      Reachable(r.limit, r.poolPace, r.pace, r.up, Front(r.es));
      StepConserves(r.Before().End(), Last(r.es), j);
    }
  }

  lemma {:induction false} AlwaysLegalFor(r: Run, j: Job)
    requires r.Valid()
    ensures LegalFor(r.End().shared.log, j)
    decreases |r.es|
  {
    if |r.es| > 0 {
      AlwaysLegalFor(r.Before(), j);
      AlwaysConserved(r, j);
      StepLegal(r.Before().End(), Last(r.es), j);
    }
  }

  /** At every moment of every run, also one that will fail, no job has been
      reported more often than the source handed it out. */
  lemma AtMostOnce(r: Run)
    requires r.Valid()
    ensures Legal(r.End().shared.log)
  {
    forall j ensures LegalFor(r.End().shared.log, j) {
      AlwaysLegalFor(r, j);
    }
    LegalForEach(r.End().shared.log);
  }

  /** A run that returned reported every job the source handed out exactly as often
      as it was handed out, and asked the source until it had no more. */
  lemma ExactlyOnce(r: Run)
    requires r.Valid() && r.End().phase == Returned
    ensures Complete(r.End().shared.log)
  {
    AtMostOnce(r);
    Reachable(r.limit, r.poolPace, r.pace, r.up, r.es);
    var s := r.End();
    assert LoopInv(s.loops[0], s);
    forall j: Job
      ensures multiset(Handed(s.shared.log))[j] == multiset(Reported(s.shared.log))[j]
    {
      AlwaysConserved(r, j);
      TimesAreCounts(s.shared.log, j);
      AllIdle(s, j);
    }
  }

  lemma AllIdle(s: State, j: Job)
    requires Inv(s) && forall i :: 0 <= i < |s.loops| ==> s.loops[i].pc.Finished?
    ensures AllHold(s.loops, j) == 0
  {
    forall i | 0 <= i < |s.loops| ensures Idle(s.loops[i]) {
      assert LoopInv(s.loops[i], s);
    }
    IdleHoldsNothing(s.loops, j);
  }

  lemma {:induction false} AlwaysBooked(r: Run, j: Job)
    requires r.Valid()
    ensures Booked(r.End(), j)
    decreases |r.es|
  {
    if |r.es| == 0 {
      NoneOnTheWayYet(r.End().loops, j);
    } else {
      AlwaysBooked(r.Before(), j);
      Reachable(r.limit, r.poolPace, r.pace, r.up, Front(r.es));
      StepKeepsBooks(r.Before().End(), Last(r.es), j);
    }
  }

  lemma {:induction false} NoneOnTheWayYet(loops: seq<Loop>, j: Job)
    requires forall i :: 0 <= i < |loops| ==> loops[i].flight == [] && loops[i].settled == []
    ensures AllOnTheWay(loops, j) == 0
  {
    if loops != [] {
      NoneOnTheWayYet(loops[1..], j);
    }
  }

  /** A run that ran out of sockets accounts for every job: those whose connect started,
      and the suspects given up, are reported or still to be confirmed, each exactly once;
      the others are dropped, and never reported. */
  lemma OutOfSocketsLeavesTheRest(r: Run, j: Job)
    requires r.Valid() && r.End().phase == OutOfSockets
    ensures var s := r.End();
            && multiset(Handed(s.shared.log))[j] ==
               multiset(s.went)[j] + multiset(s.waived)[j] + multiset(s.lost)[j]
            && multiset(Reported(s.shared.log))[j] + multiset(s.shared.unconfirmed)[j] ==
               multiset(s.went)[j] + multiset(s.waived)[j]
  {
    var s := r.End();
    AlwaysConserved(r, j);
    AlwaysBooked(r, j);
    Reachable(r.limit, r.poolPace, r.pace, r.up, r.es);
    TimesAreCounts(s.shared.log, j);
    CopiesAreCounts(s.shared.unconfirmed, j);
    CopiesAreCounts(s.lost, j);
    CopiesAreCounts(s.went, j);
    CopiesAreCounts(s.waived, j);
    AllIdle(s, j);
    AllIdleOnTheWay(s, j);
  }

  lemma AllIdleOnTheWay(s: State, j: Job)
    requires Inv(s) && forall i :: 0 <= i < |s.loops| ==> s.loops[i].pc.Finished?
    ensures AllOnTheWay(s.loops, j) == 0
  {
    forall i | 0 <= i < |s.loops| ensures Idle(s.loops[i]) {
      assert LoopInv(s.loops[i], s);
    }
    IdleHasNoneOnTheWay(s.loops, j);
  }

  lemma {:induction false} DeliverOnlyAdds(sh: Shared, rs: seq<F.Settled>, now: int, kept: nat -> bool)
    ensures sh.unconfirmed <= DeliverAll(sh, rs, now, kept).unconfirmed
  {
    if rs != [] {
      DeliverOnlyAdds(sh, Front(rs), now, kept);
    }
  }

  lemma OthersOnlyAdd(s: State, e: Event)
    requires !e.Confirm?
    ensures s.shared.unconfirmed <= Step(s, e).shared.unconfirmed
  {
    if Enabled(s, e) {
      match e
      case ReportSuspect(i, cap) =>
        DeliverOnlyAdds(s.shared, [F.Settled(s.loops[i].pc.suspect, Known(Filtered), 0)], s.loops[i].pc.at, _ => true);
      case ReportBatch(i, now, kept, cap) => DeliverOnlyAdds(s.shared, s.loops[i].settled, now, kept);
      case ReportLook(i, kept, cap) => DeliverOnlyAdds(s.shared, s.loops[i].settled, s.loops[i].pc.after, kept);
      case _ =>
    }
  }

  /** Unconfirmed jobs come last and alone: one leaves the list only once every
      loop is done with nothing held, in flight or unreported, in the same step
      that reports it and nothing else. */
  lemma ConfirmedLastAndAlone(r: Run)
    requires r.Valid() && |r.es| > 0
    requires !(r.Before().End().shared.unconfirmed <= r.End().shared.unconfirmed)
    ensures var s, s' := r.Before().End(), r.End();
            && s.phase == Confirming
            && (forall i :: 0 <= i < |s.loops| ==> s.loops[i].pc.Finished? && Idle(s.loops[i]))
            && s.shared.unconfirmed != []
            && s'.shared.unconfirmed == s.shared.unconfirmed[1..]
            && s'.shared.log.Then? && s'.shared.log.before == s.shared.log
            && s'.shared.log.call.DoneCall? && s'.shared.log.call.job == s.shared.unconfirmed[0]
  {
    var s, e := r.Before().End(), Last(r.es);
    Reachable(r.limit, r.poolPace, r.pace, r.up, Front(r.es));
    if !e.Confirm? {
      OthersOnlyAdd(s, e);
    }
    forall i | 0 <= i < |s.loops| ensures s.loops[i].pc.Finished? && Idle(s.loops[i]) {
      assert LoopInv(s.loops[i], s);
    }
  }

  // ---- Shortage -----------------------------------------------------------------

  /** A loop about to start a connect has a free slot to hold it, so the assertion
      in hold never fires; a suspect is alone and apart from any shortage; and a
      suspect is only reported once another connect started after it or the source
      ran dry. */
  lemma SuspectsAreFair(r: Run, i: nat)
    requires r.Valid() && i < |r.End().loops|
    ensures var l := r.End().loops[i];
            && |l.held.jobs| <= SLOTS
            && (l.pc.Launch? ==> |l.held.jobs| < SLOTS)
            && (l.held.suspect ==> |l.held.jobs| == 1 && !l.held.short)
            && (l.pc.Accuse? ==>
                  if l.pc.leave then SawDry(r.End().shared.log)
                  else l.tries != [] && Last(l.tries) == Begun(l.pc.at))
  {
    Reachable(r.limit, r.poolPace, r.pace, r.up, r.es);
    assert LoopInv(r.End().loops[i], r.End());
  }

  /** The run is given up only by a loop none of whose connects started for all of
      STALL_LIMIT_NS, from the attempt the shortage began with to the one just made. */
  lemma GivesUpOnlyWhenStalled(r: Run)
    requires r.Valid() && |r.es| > 0
    requires !r.Before().End().shared.starved && r.End().shared.starved
    ensures exists i, k ::
              && 0 <= i < |r.End().loops| && 0 <= k < |r.End().loops[i].tries|
              && FailedFrom(r.End().loops[i].tries, k)
              && r.End().loops[i].tries[k].at + STALL_LIMIT_NS <= Last(r.End().loops[i].tries).at
  {
    var s, e := r.Before().End(), Last(r.es);
    Reachable(r.limit, r.poolPace, r.pace, r.up, Front(r.es));
    OnlyStartStarves(s, e);
    var Start(i, attempt, _) := e;
    var l := s.loops[i];
    assert LoopInv(l, s);
    GivingUpMeansStalled(l.held, l.tries, l.pc.job, attempt.shortage, l.pc.at);
    var k :| 0 <= k < |l.tries| && FailedFrom(l.tries + [Failed(l.pc.at, attempt.shortage)], k)
             && l.tries[k].at + STALL_LIMIT_NS <= l.pc.at;
    assert r.End().loops[i].tries == l.tries + [Failed(l.pc.at, attempt.shortage)];
    assert FailedFrom(r.End().loops[i].tries, k);
  }

  lemma OnlyStartStarves(s: State, e: Event)
    requires Inv(s) && !s.shared.starved && Step(s, e).shared.starved
    ensures Enabled(s, e) && e.Start? && e.attempt.Unprobed?
    ensures !s.loops[e.i].held.CarriesOn(e.attempt.shortage, s.loops[e.i].pc.at)
  {
    match e
    case ReportSuspect(i, cap) =>
      DeliverKeeps(s.shared, [F.Settled(s.loops[i].pc.suspect, Known(Filtered), 0)], s.loops[i].pc.at, _ => true);
    case ReportBatch(i, now, kept, cap) => DeliverKeeps(s.shared, s.loops[i].settled, now, kept);
    case ReportLook(i, kept, cap) => DeliverKeeps(s.shared, s.loops[i].settled, s.loops[i].pc.after, kept);
    case _ =>
  }

  // ---- Bounds -------------------------------------------------------------------

  function TotalInFlight(loops: seq<Loop>): nat {
    if loops == [] then 0 else |loops[0].flight| + TotalInFlight(loops[1..])
  }

  lemma {:induction false} TotalBound(loops: seq<Loop>, bound: nat)
    requires forall i :: 0 <= i < |loops| ==> |loops[i].flight| <= bound
    ensures TotalInFlight(loops) <= |loops| * bound
  {
    if loops != [] {
      TotalBound(loops[1..], bound);
    }
  }

  lemma StepKeepsSizes(s: State, e: Event)
    ensures var s' := Step(s, e);
            |s'.loops| == |s.loops| && s'.limit == s.limit && s'.capacity == s.capacity
  {
  }

  lemma {:induction false} SizesStay(r: Run)
    requires r.Valid()
    ensures var s := r.End();
            |s.loops| == |r.up| && s.limit == r.limit && s.capacity == CeilDiv(r.limit, |r.up|)
    decreases |r.es|
  {
    if |r.es| > 0 {
      SizesStay(r.Before());
      StepKeepsSizes(r.Before().End(), Last(r.es));
    }
  }

  /** No loop outgrows its table or its verdict buffer, and the connects in flight
      altogether stay below the limit plus the number of loops. */
  lemma StaysWithinCapacity(r: Run)
    requires r.Valid()
    ensures var s := r.End();
            && (forall i :: 0 <= i < |s.loops| ==>
                  |s.loops[i].flight| <= s.capacity && |s.loops[i].settled| <= Max(s.capacity, START_BATCH))
            && TotalInFlight(s.loops) < r.limit + |r.up|
  {
    var s, n := r.End(), |r.up|;
    Reachable(r.limit, r.poolPace, r.pace, r.up, r.es);
    SizesStay(r);
    forall i | 0 <= i < |s.loops|
      ensures |s.loops[i].flight| <= s.capacity && |s.loops[i].settled| <= Max(s.capacity, START_BATCH)
    {
      assert LoopInv(s.loops[i], s);
    }
    TotalBound(s.loops, s.capacity);
    CeilDivBound(r.limit, n);
  }

  lemma CeilDivBound(a: nat, b: nat)
    requires b > 0
    ensures b * CeilDiv(a, b) < a + b
  {
  }

  /** While nothing was ever held, each loop keeps to its even share. */
  ghost predicate Quiet(l: Loop, share: nat) {
    && l.held.jobs == []
    && |l.flight| <= share
    && (l.pc.Launch? ==> |l.flight| < share)
    && !l.held.suspect
  }

  lemma ShareGrowsWithWindow(a: nat, b: nat, n: nat)
    requires a <= b && n > 0
    ensures a / n <= b / n
  {
    LessFactor(n, a / n, b / n + 1);
  }

  ghost predicate Moves(e: Event, i: nat) {
    !e.Join? && !e.Confirm? && e.i == i
  }

  lemma OthersStay(s: State, e: Event, i: nat)
    requires i < |s.loops| == |Step(s, e).loops| && !Moves(e, i)
    ensures Step(s, e).loops[i] == s.loops[i]
  {
  }

  lemma LookKeepsQuiet(s: State, e: Event, share: nat)
    requires Inv(s) && Enabled(s, e) && e.Look? && Quiet(s.loops[e.i], share)
    ensures Quiet(Step(s, e).loops[e.i], share)
  {
    var l := s.loops[e.i];
    assert LoopInv(l, s);
    var marked, cut := Mark(l.flight, e.bits), Cut(l.pc.waitMs, s.shared.lastCuttable);
    F.WalkSorts(marked, |marked|, cut, e.now);
  }

  lemma PickKeepsQuiet(s: State, e: Event, share: nat)
    requires Inv(s) && share == Max(1, s.limit / |s.loops|)
    requires e.Pick? && Enabled(s, e) && Quiet(s.loops[e.i], share)
    ensures Quiet(Step(s, e).loops[e.i], share)
  {
    ShareGrowsWithWindow(s.shared.window.size, s.limit, |s.loops|);
  }

  lemma StartKeepsQuiet(s: State, e: Event, share: nat)
    requires e.Start? && Enabled(s, e) && Quiet(s.loops[e.i], share) && !Step(s, e).everHeld
    ensures Quiet(Step(s, e).loops[e.i], share)
  {
  }

  lemma MoveKeepsQuiet(s: State, e: Event, share: nat)
    requires Inv(s) && share == Max(1, s.limit / |s.loops|) && !Step(s, e).everHeld
    requires !e.Join? && !e.Confirm? && Enabled(s, e) && Quiet(s.loops[e.i], share)
    ensures Quiet(Step(s, e).loops[e.i], share)
  {
    if e.Look? {
      LookKeepsQuiet(s, e, share);
    } else if e.Pick? {
      PickKeepsQuiet(s, e, share);
    } else if e.Start? {
      StartKeepsQuiet(s, e, share);
    }
  }

  lemma StepQuiet(s: State, e: Event, share: nat)
    requires Inv(s) && share == Max(1, s.limit / |s.loops|)
    requires !Step(s, e).everHeld
    requires forall i :: 0 <= i < |s.loops| ==> Quiet(s.loops[i], share)
    ensures forall i :: 0 <= i < |s.loops| ==> Quiet(Step(s, e).loops[i], share)
  {
    StepKeepsSizes(s, e);
    forall i | 0 <= i < |s.loops| ensures Quiet(Step(s, e).loops[i], share) {
      if Moves(e, i) && Enabled(s, e) {
        MoveKeepsQuiet(s, e, share);
      } else if Enabled(s, e) {
        OthersStay(s, e, i);
      }
    }
  }

  lemma {:induction false} QuietRuns(r: Run)
    requires r.Valid() && !r.End().everHeld
    ensures forall i :: 0 <= i < |r.End().loops| ==>
              Quiet(r.End().loops[i], Max(1, r.limit / |r.up|))
    decreases |r.es|
  {
    if |r.es| > 0 {
      SizesStay(r.Before());
      QuietRuns(r.Before());
      Reachable(r.limit, r.poolPace, r.pace, r.up, Front(r.es));
      StepQuiet(r.Before().End(), Last(r.es), Max(1, r.limit / |r.up|));
    }
  }

  /** In a run that never had to hold a connect back, the connects in flight
      altogether stay within the limit. */
  lemma WithinLimitWhenNothingHeld(r: Run)
    requires r.Valid() && !r.End().everHeld
    ensures TotalInFlight(r.End().loops) <= r.limit
  {
    QuietRuns(r);
    SizesStay(r);
    var share := Max(1, r.limit / |r.up|);
    TotalBound(r.End().loops, share);
    EvenShares(r.limit, |r.up|);
  }

  lemma EvenShares(limit: nat, n: nat)
    requires 1 <= n <= limit
    ensures n * Max(1, limit / n) <= limit
  {
    assert n * (limit / n) <= limit;
  }

  // ---- Cut waits ------------------------------------------------------------------

  /** The walk takes a connect exactly when it settled, its deadline is over, or
      its wait may be shortened and both bounds on it, the learned wait and the floor,
      were exceeded since the start as well as since the last answer that counts. */
  lemma LeavesOnlyInTime(c: F.Conn, cut: Cut, now: int)
    ensures c.Gone(cut, now) <==>
            || c.settled
            || now >= c.deadline
            || (&& c.job.target.cutFloorMs.Some? && cut.waitMs.Some?
                && (forall wait :: wait == cut.waitMs.value || wait == c.job.target.cutFloorMs.value ==>
                      && now - c.started >= wait * NS_PER_MS
                      && now - cut.lastAnswer >= wait * NS_PER_MS))
  {
    if c.job.target.cutFloorMs.Some? && cut.waitMs.Some? {
      var w, f := cut.waitMs.value, c.job.target.cutFloorMs.value;
      assert Max(w, f) == w || Max(w, f) == f;
    }
  }

  /** A connect reported without having settled before its own wait was over is
      reported with an elapsed time below that wait. */
  lemma {:induction false} CutReportsEarly(gone: seq<F.Conn>, finish: (nat, bool) -> Verdict, now: int, k: nat)
    requires k < |gone|
    requires now < gone[k].started + gone[k].job.target.timeoutMs * NS_PER_MS
    requires gone[k].job.target.timeoutMs > 0
    ensures var rs := F.Reports(gone, finish, now);
            k < |rs| && rs[k].job == gone[k].job && rs[k].us < gone[k].job.target.timeoutMs * US_PER_MS
  {
    if k == 0 {
      EarlyMeansBelowTheWait(gone[0].started, now, gone[0].job.target.timeoutMs);
    } else {
      CutReportsEarly(gone[1..], finish, now, k - 1);
    }
  }
}
