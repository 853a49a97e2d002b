/** Which of the jobs handed out ever started: every one that did is on its way or was
    reported, and so is, as unanswered, every suspect given up. */
module EngineStarts {
  import opened Basics
  import opened ConnectTypes
  import opened Protocol
  import opened Engine
  import opened EngineSafety
  import opened EngineBooks
  import F = Flight

  /** Copies of job j whose connect started and whose verdict is still in the loop. */
  function OnTheWay(l: Loop, j: Job): nat {
    InFlight(l.flight, j) + InBatch(l.settled, j)
  }

  function AllOnTheWay(loops: seq<Loop>, j: Job): nat {
    if loops == [] then 0 else OnTheWay(loops[0], j) + AllOnTheWay(loops[1..], j)
  }

  /** Every copy of j that started or was given up as a suspect is on its way, reported
      or still to be confirmed, and no other copy is. */
  ghost predicate Booked(s: State, j: Job) {
    Left(s.shared, j) + AllOnTheWay(s.loops, j) == Copies(s.went, j) + Copies(s.waived, j)
  }

  lemma {:induction false} AllOnTheWayPut(loops: seq<Loop>, i: nat, l: Loop, j: Job)
    requires i < |loops|
    ensures AllOnTheWay(loops[i := l], j) + OnTheWay(loops[i], j) == AllOnTheWay(loops, j) + OnTheWay(l, j)
  {
    if i == 0 {
      assert loops[0 := l][1..] == loops[1..];
    } else {
      AllOnTheWayPut(loops[1..], i - 1, l, j);
      assert loops[i := l][1..] == loops[1..][i - 1 := l];
    }
  }

  lemma {:induction false} IdleHasNoneOnTheWay(loops: seq<Loop>, j: Job)
    requires forall i :: 0 <= i < |loops| ==> Idle(loops[i])
    ensures AllOnTheWay(loops, j) == 0
  {
    if loops != [] {
      IdleHasNoneOnTheWay(loops[1..], j);
      assert Idle(loops[0]);
    }
  }

  /** A step of loop i keeps the book of j if its own entries still balance. */
  lemma StepBooks(s: State, i: nat, s': State, j: Job)
    requires Booked(s, j) && i < |s.loops| && |s'.loops| == |s.loops|
    requires s'.loops == s.loops[i := s'.loops[i]]
    requires Left(s'.shared, j) + OnTheWay(s'.loops[i], j) + Copies(s.went, j) + Copies(s.waived, j) ==
             Left(s.shared, j) + OnTheWay(s.loops[i], j) + Copies(s'.went, j) + Copies(s'.waived, j)
    ensures Booked(s', j)
  {
    AllOnTheWayPut(s.loops, i, s'.loops[i], j);
  }

  /** A step that starts nothing and reports nothing. */
  lemma LocalBooks(s: State, i: nat, l: Loop, j: Job)
    requires Booked(s, j) && i < |s.loops|
    requires l.flight == s.loops[i].flight && l.settled == s.loops[i].settled
    ensures Booked(Put(s, i, l), j)
  {
    StepBooks(s, i, Put(s, i, l), j);
  }

  lemma FailedStartBooks(s: State, i: nat, shortage: Shortage, us: nat, j: Job)
    requires Booked(s, j) && Enabled(s, Start(i, Unprobed(shortage), us))
    ensures Booked(DoStart(s, i, Unprobed(shortage), us), j)
  {
    var l, s' := s.loops[i], DoStart(s, i, Unprobed(shortage), us);
    if l.held.CarriesOn(shortage, l.pc.at) {
      LocalBooks(s.(everHeld := true), i, s'.loops[i], j);
    } else {
      StepBooks(s, i, s', j);
    }
  }

  lemma WentBooks(s: State, i: nat, job: Job, l: Loop, j: Job)
    requires Booked(s, j) && i < |s.loops| && OnTheWay(l, j) == OnTheWay(s.loops[i], j) + One(job, j)
    ensures Booked(Put(s, i, l).(went := s.went + [job]), j)
  {
    CopiesPush(s.went, job, j);
    StepBooks(s, i, Put(s, i, l).(went := s.went + [job]), j);
  }

  lemma StartBooks(s: State, i: nat, attempt: Attempt, us: nat, j: Job)
    requires Booked(s, j) && Enabled(s, Start(i, attempt, us))
    ensures Booked(DoStart(s, i, attempt, us), j)
  {
    var l := s.loops[i];
    var Launch(job, at) := l.pc;
    match attempt
    case Unprobed(shortage) => FailedStartBooks(s, i, shortage, us, j);
    case AtOnce(verdict) =>
      var r := F.Settled(job, verdict, us);
      assert Front(l.settled + [r]) == l.settled;
      WentBooks(s, i, job, Went(l, at).(settled := l.settled + [r]), j);
    case Pending(sock) =>
      var c := F.NewConn(job, sock, at);
      F.ColumnAppend(l.flight, c, F.JobOf);
      CopiesPush(F.Jobs(l.flight), job, j);
      WentBooks(s, i, job, Went(l, at).(flight := l.flight + [c]), j);
  }

  lemma ReportSuspectBooks(s: State, i: nat, cap: nat, j: Job)
    requires Booked(s, j) && Enabled(s, ReportSuspect(i, cap))
    ensures Booked(DoReportSuspect(s, i, cap), j)
  {
    var Accuse(suspect, at, _) := s.loops[i].pc;
    var r := F.Settled(suspect, Known(Filtered), 0);
    assert Front([r]) == [];
    DeliverMoves(s.shared, [r], at, _ => true, j);
    CopiesPush(s.waived, suspect, j);
    StepBooks(s, i, DoReportSuspect(s, i, cap), j);
  }

  lemma ReportBatchBooks(s: State, i: nat, now: int, kept: nat -> bool, cap: nat, j: Job)
    requires Booked(s, j) && Enabled(s, ReportBatch(i, now, kept, cap))
    ensures Booked(DoReportBatch(s, i, now, kept, cap), j)
  {
    DeliverMoves(s.shared, s.loops[i].settled, now, kept, j);
    StepBooks(s, i, DoReportBatch(s, i, now, kept, cap), j);
  }

  lemma LookBooks(s: State, i: nat, now: int, bits: nat -> bool, finish: (nat, bool) -> Verdict, j: Job)
    requires Inv(s) && Booked(s, j) && Enabled(s, Look(i, now, bits, finish))
    ensures Booked(DoLook(s, i, now, bits, finish), j)
  {
    var l := s.loops[i];
    assert LoopInv(l, s);
    WalkMoves(l.flight, bits, Cut(l.pc.waitMs, s.shared.lastCuttable), now, finish, j);
    StepBooks(s, i, DoLook(s, i, now, bits, finish), j);
  }

  lemma ReportLookBooks(s: State, i: nat, kept: nat -> bool, cap: nat, j: Job)
    requires Booked(s, j) && Enabled(s, ReportLook(i, kept, cap))
    ensures Booked(DoReportLook(s, i, kept, cap), j)
  {
    DeliverMoves(s.shared, s.loops[i].settled, s.loops[i].pc.after, kept, j);
    StepBooks(s, i, DoReportLook(s, i, kept, cap), j);
  }

  lemma TakeBooks(s: State, i: nat, now: int, stop: bool, got: Option<Job>, j: Job)
    requires Booked(s, j) && LoopAt(s, i) && s.loops[i].pc.Fill?
    ensures Booked(Take(s, i, now, stop, got), j)
  {
    var l := s.loops[i];
    var asked := s.(shared := s.shared.(log := Then(s.shared.log, NextCall(stop, got))));
    if got.Some? {
      LocalBooks(asked, i, l.(pc := Launch(got.value, now)), j);
    } else {
      LocalBooks(asked, i, RunDry(l.(dry := true), now), j);
    }
  }

  lemma PickBooks(s: State, i: nat, now: int, stop: bool, got: Option<Job>, j: Job)
    requires Booked(s, j) && Enabled(s, Pick(i, now, stop, got))
    ensures Booked(DoPick(s, i, now, stop, got), j)
  {
    var l := s.loops[i];
    if |l.flight| >= s.capacity || l.batch == START_BATCH {
      LocalBooks(s, i, l.(pc := Report), j);
    } else if l.held.Due(now) {
      LocalBooks(s, i, l.(pc := Launch(l.held.jobs[0], now), held := l.held.Pop()), j);
    } else if !l.held.IsOpen() {
      LocalBooks(s, i, l.(pc := Report), j);
    } else if l.dry {
      LocalBooks(s, i, RunDry(l, now), j);
    } else if |l.flight| >= s.Share() {
      LocalBooks(s, i, l.(pc := Report), j);
    } else {
      TakeBooks(s, i, now, stop, got, j);
    }
  }

  lemma StepKeepsBooks(s: State, e: Event, j: Job)
    requires Inv(s) && Booked(s, j)
    ensures Booked(Step(s, e), j)
  {
    if Enabled(s, e) {
      match e
      case Enter(i) => StepBooks(s, i, DoEnter(s, i), j);
      case Pick(i, now, stop, got) => PickBooks(s, i, now, stop, got, j);
      case Start(i, attempt, us) => StartBooks(s, i, attempt, us, j);
      case ReportSuspect(i, cap) => ReportSuspectBooks(s, i, cap, j);
      case ReportBatch(i, now, kept, cap) => ReportBatchBooks(s, i, now, kept, cap, j);
      case ReadCap(i) => StepBooks(s, i, DoReadCap(s, i), j);
      case Look(i, now, bits, finish) => LookBooks(s, i, now, bits, finish, j);
      case ReportLook(i, kept, cap) => ReportLookBooks(s, i, kept, cap, j);
      case Join =>
      case Confirm(outcome, us) => ConfirmBooks(s, outcome, us, j);
    }
  }

  lemma ConfirmBooks(s: State, outcome: Outcome, us: nat, j: Job)
    requires Booked(s, j) && Enabled(s, Confirm(outcome, us))
    ensures Booked(DoConfirm(s, outcome, us), j)
  {
  }
}
