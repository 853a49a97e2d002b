/** When a run reports a connect that never started: src/core/connects.zig promises it
    never does, and this is exactly when it does all the same. */
module EngineSuspects {
  import opened Basics
  import opened ConnectTypes
  import opened Protocol
  import opened Held
  import opened Engine
  import opened EngineSafety
  import opened EngineBooks
  import opened EngineStarts
  import opened EngineContract
  import opened EngineWaits
  import F = Flight
  import W = Window

  /** The loop finds nothing to take: it has room, nothing held is due, and it saw the
      source dry before or sees it now. */
  predicate FindsNothing(s: State, i: nat, now: int, got: Option<Job>)
    requires i < |s.loops|
  {
    var l := s.loops[i];
    && |l.flight| < s.capacity && l.batch != START_BATCH
    && (l.dry || (|l.flight| < s.Share() && got == None))
  }

  /** The two moments a loop lets go of its suspect: another connect of it starts, or
      there is no other to try. */
  predicate GivesUp(s: State, e: Event) {
    && Enabled(s, e)
    && match e
       case Start(i, attempt, _) => s.loops[i].held.suspect && !attempt.Unprobed?
       case Pick(i, now, _, got) => s.loops[i].held.suspect && FindsNothing(s, i, now, got)
       case _ => false
  }

  /** A suspect was reported, or a loop is about to report one. */
  ghost predicate Accused(s: State) {
    s.waived != [] || exists i :: 0 <= i < |s.loops| && s.loops[i].pc.Accuse?
  }

  lemma PickAccuses(s: State, e: Event)
    requires e.Pick? && Enabled(s, e)
    ensures Step(s, e).loops[e.i].pc.Accuse? <==> GivesUp(s, e)
    ensures Step(s, e).waived == s.waived
  {
  }

  lemma StartAccuses(s: State, e: Event)
    requires e.Start? && Enabled(s, e)
    ensures Step(s, e).loops[e.i].pc.Accuse? <==> GivesUp(s, e)
    ensures Step(s, e).waived == s.waived
  {
  }

  /** What a step of loop i does to its own accusation. */
  lemma MoveAccuses(s: State, e: Event)
    requires Enabled(s, e) && !e.Join? && !e.Confirm?
    ensures Step(s, e).loops[e.i].pc.Accuse? <==> GivesUp(s, e)
    ensures s.loops[e.i].pc.Accuse? <==> e.ReportSuspect?
    ensures e.ReportSuspect? ==> Step(s, e).waived != []
    ensures !e.ReportSuspect? ==> Step(s, e).waived == s.waived
  {
    match e
    case Pick(_, _, _, _) => PickAccuses(s, e);
    case Start(_, _, _) => StartAccuses(s, e);
    case _ =>
  }

  lemma WaivedOnlyGrows(s: State, e: Event)
    ensures s.waived <= Step(s, e).waived
  {
    if Enabled(s, e) && !e.Join? && !e.Confirm? && !e.ReportSuspect? {
      MoveAccuses(s, e);
    }
  }

  /** A state is accused after a step exactly when it was before or the step gives up a
      suspect. */
  lemma StepAccuses(s: State, e: Event)
    ensures Accused(Step(s, e)) <==> Accused(s) || GivesUp(s, e)
  {
    var s' := Step(s, e);
    StepKeepsSizes(s, e);
    WaivedOnlyGrows(s, e);
    if Enabled(s, e) && !e.Join? && !e.Confirm? {
      MoveAccuses(s, e);
      if i :| 0 <= i < |s.loops| && s.loops[i].pc.Accuse? && i != e.i {
        OthersStay(s, e, i);
        assert s'.loops[i].pc.Accuse?;
      }
      if i :| 0 <= i < |s'.loops| && s'.loops[i].pc.Accuse? && i != e.i {
        OthersStay(s, e, i);
        assert s.loops[i].pc.Accuse?;
      }
      if GivesUp(s, e) {
        assert s'.loops[e.i].pc.Accuse?;
      }
    } else {
      assert s'.loops == s.loops && s'.waived == s.waived;
    }
  }

  /** Some event of the run gives up a suspect. */
  ghost predicate GivesUpIn(r: Run)
    requires r.Valid()
  {
    exists n :: 0 <= n < |r.es| && GivesUp(Upto(r, n).End(), r.es[n])
  }

  lemma {:induction false} RunAccuses(r: Run)
    requires r.Valid()
    ensures Accused(r.End()) <==> GivesUpIn(r)
    decreases |r.es|
  {
    if |r.es| > 0 {
      var last := |r.es| - 1;
      RunAccuses(r.Before());
      StepAccuses(r.Before().End(), Last(r.es));
      assert Upto(r, last) == r.Before() && r.es[last] == Last(r.es);
      forall n | 0 <= n < last ensures Upto(r.Before(), n) == Upto(r, n) {
        assert Front(r.es)[..n] == r.es[..n];
      }
      if GivesUpIn(r.Before()) {
        var n :| 0 <= n < last && GivesUp(Upto(r.Before(), n).End(), r.Before().es[n]);
        assert GivesUp(Upto(r, n).End(), r.es[n]);
      }
      if n :| 0 <= n < |r.es| && GivesUp(Upto(r, n).End(), r.es[n]) && n != last {
        assert GivesUp(Upto(r.Before(), n).End(), r.Before().es[n]);
      }
    }
  }

  lemma SameCountsSameJobs(a: seq<Job>, b: seq<Job>, c: seq<Job>)
    requires forall j :: Copies(a, j) == Copies(b, j) + Copies(c, j)
    ensures multiset(a) == multiset(b) <==> c == []
  {
    forall j: Job
      ensures multiset(a)[j] == Copies(a, j) && multiset(b)[j] == Copies(b, j) && multiset(c)[j] == Copies(c, j)
    {
      CopiesAreCounts(a, j);
      CopiesAreCounts(b, j);
      CopiesAreCounts(c, j);
    }
    if c != [] {
      assert Copies(c, c[0]) > 0;
      assert multiset(a)[c[0]] != multiset(b)[c[0]];
    } else {
      forall j: Job ensures multiset(a)[j] == multiset(b)[j] {
        assert Copies(a, j) == Copies(b, j) + Copies(c, j);
      }
    }
  }

  lemma ReportedAreWentAndWaived(r: Run, j: Job)
    requires r.Valid() && r.End().phase == Returned
    ensures Copies(Reported(r.End().shared.log), j) == Copies(r.End().went, j) + Copies(r.End().waived, j)
  {
    var s := r.End();
    AlwaysBooked(r, j);
    Reachable(r.limit, r.poolPace, r.pace, r.up, r.es);
    AllIdleOnTheWay(s, j);
    TimesAreCounts(s.shared.log, j);
    CopiesAreCounts(Reported(s.shared.log), j);
  }

  /** A run that returned reported just the connects that started, each as often as it
      did, exactly when no loop ever gave up a suspect: none had another connect start, or
      found nothing else to try, while it held one. */
  lemma StartedAreReportedExactly(r: Run)
    requires r.Valid() && r.End().phase == Returned
    ensures multiset(Reported(r.End().shared.log)) == multiset(r.End().went)
            <==> forall n :: 0 <= n < |r.es| ==> !GivesUp(Upto(r, n).End(), r.es[n])
  {
    var s := r.End();
    RunAccuses(r);
    Reachable(r.limit, r.poolPace, r.pace, r.up, r.es);
    assert !exists i :: 0 <= i < |s.loops| && s.loops[i].pc.Accuse?;
    assert Accused(s) <==> s.waived != [];
    forall j ensures Copies(Reported(s.shared.log), j) == Copies(s.went, j) + Copies(s.waived, j) {
      ReportedAreWentAndWaived(r, j);
    }
    SameCountsSameJobs(Reported(s.shared.log), s.went, s.waived);
  }

  // ---- One such run -----------------------------------------------------------------

  const LONE := Job(Target(0, 80, 500, None), false, false)

  /** One loop and one target no local port is found for: the run hands it out, cannot
      start it, and reports it. */
  function LoneSuspect(): Run {
    Run(1, 1, W.Adaptive, [true],
        [Enter(0), Pick(0, 0, false, Some(LONE)), Start(0, Unprobed(NoAddress), 0), Pick(0, 0, false, None),
         ReportSuspect(0, 0), ReportBatch(0, 0, _ => true, 0), Join])
  }

  function LoneLoop(pc: Pc, dry: bool, held: HeldState, batch: nat, tries: seq<Try>): Loop {
    Loop(pc, true, dry, held, [], [], batch, tries)
  }

  const SUSPECTED := HeldState([LONE], true, false, 0, 0, FIRST_PAUSE_NS)

  /** Its one loop stands at l, and this much was reported. */
  ghost predicate At(s: State, l: Loop, reported: seq<Job>) {
    && s.phase == Running && s.loops == [l] && s.capacity == 1
    && !s.shared.starved && s.shared.unconfirmed == [] && s.went == []
    && Reported(s.shared.log) == reported
  }

  lemma TakesIt(s: State)
    requires At(s, LoneLoop(Fill, false, EMPTY, 0, []), [])
    ensures At(Step(s, Pick(0, 0, false, Some(LONE))), LoneLoop(Launch(LONE, 0), false, EMPTY, 0, []), [])
  {
  }

  lemma CannotStartIt(s: State)
    requires At(s, LoneLoop(Launch(LONE, 0), false, EMPTY, 0, []), [])
    ensures At(Step(s, Start(0, Unprobed(NoAddress), 0)), LoneLoop(Fill, false, SUSPECTED, 1, [Failed(0, NoAddress)]), [])
  {
    var held := EMPTY.Hold(LONE, NoAddress, 0);
    assert held.jobs == [LONE];
    assert held == SUSPECTED;
    assert [] + [Failed(0, NoAddress)] == [Failed(0, NoAddress)];
  }

  lemma FindsNoOther(s: State)
    requires At(s, LoneLoop(Fill, false, SUSPECTED, 1, [Failed(0, NoAddress)]), [])
    ensures At(Step(s, Pick(0, 0, false, None)),
               LoneLoop(Accuse(LONE, 0, true), true, SUSPECTED.DropSuspect(), 1, [Failed(0, NoAddress)]), [])
  {
  }

  lemma ReportsIt(s: State)
    requires At(s, LoneLoop(Accuse(LONE, 0, true), true, SUSPECTED.DropSuspect(), 1, [Failed(0, NoAddress)]), [])
    ensures At(Step(s, ReportSuspect(0, 0)), LoneLoop(Report, true, SUSPECTED.DropSuspect(), 1, [Failed(0, NoAddress)]), [LONE])
  {
    var r := F.Settled(LONE, Known(Filtered), 0);
    assert Front([r]) == [];
    assert DeliverAll(s.shared, [], 0, _ => true) == s.shared;
    assert DeliverAll(s.shared, [r], 0, _ => true) == Deliver(s.shared, r, 0, true);
  }

  lemma ReturnsThen(s: State)
    requires At(s, LoneLoop(Report, true, SUSPECTED.DropSuspect(), 1, [Failed(0, NoAddress)]), [LONE])
    ensures var s' := Step(Step(s, ReportBatch(0, 0, _ => true, 0)), Join);
            s'.phase == Returned && Reported(s'.shared.log) == [LONE] && s'.went == []
  {
    var s1 := Step(s, ReportBatch(0, 0, _ => true, 0));
    assert At(s1, LoneLoop(Finished, true, SUSPECTED.DropSuspect(), 1, [Failed(0, NoAddress)]), [LONE]);
  }

  lemma ExecOneMore(s: State, es: seq<Event>, e: Event)
    ensures Exec(s, es + [e]) == Step(Exec(s, es), e)
  {
    assert Front(es + [e]) == es;
  }

  /** So the promise fails: a target was reported that no connect ever started for. */
  lemma UnstartedIsReported()
    ensures LoneSuspect().Valid() && LoneSuspect().End().phase == Returned
    ensures Reported(LoneSuspect().End().shared.log) == [LONE] && LoneSuspect().End().went == []
  {
    var s, es := Init(1, 1, W.Adaptive, [true]), LoneSuspect().es;
    assert Exec(s, []) == s;
    assert es == [] + [es[0]] + [es[1]] + [es[2]] + [es[3]] + [es[4]] + [es[5]] + [es[6]];
    ExecOneMore(s, [], es[0]);
    ExecOneMore(s, [] + [es[0]], es[1]);
    ExecOneMore(s, [] + [es[0]] + [es[1]], es[2]);
    ExecOneMore(s, [] + [es[0]] + [es[1]] + [es[2]], es[3]);
    ExecOneMore(s, [] + [es[0]] + [es[1]] + [es[2]] + [es[3]], es[4]);
    ExecOneMore(s, [] + [es[0]] + [es[1]] + [es[2]] + [es[3]] + [es[4]], es[5]);
    ExecOneMore(s, [] + [es[0]] + [es[1]] + [es[2]] + [es[3]] + [es[4]] + [es[5]], es[6]);
    var s1 := Step(s, es[0]);
    Begins(s);
    TakesIt(s1);
    var s2 := Step(s1, es[1]);
    CannotStartIt(s2);
    var s3 := Step(s2, es[2]);
    FindsNoOther(s3);
    var s4 := Step(s3, es[3]);
    ReportsIt(s4);
    ReturnsThen(Step(s4, es[4]));
  }

  lemma Begins(s: State)
    requires s == Init(1, 1, W.Adaptive, [true])
    ensures At(Step(s, Enter(0)), LoneLoop(Fill, false, EMPTY, 0, []), [])
  {
  }
}
