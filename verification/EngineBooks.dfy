/** Job conservation in the engine, and the exactly-once contract it gives. The
    books are kept for one job value at a time: how often it was handed out, how
    often reported, and how often it is somewhere on the way. */
module EngineBooks {
  import opened Basics
  import opened ConnectTypes
  import opened Protocol
  import opened Held
  import opened Engine
  import opened EngineSafety
  import F = Flight

  // ---- Where the jobs are -----------------------------------------------------

  function One(x: Job, j: Job): nat {
    if x == j then 1 else 0
  }

  /** How often j occurs. */
  function Copies(s: seq<Job>, j: Job): nat {
    if s == [] then 0 else One(s[0], j) + Copies(s[1..], j)
  }

  function InHand(pc: Pc, j: Job): nat {
    match pc
    case Launch(job, _) => One(job, j)
    case Accuse(suspect, _, _) => One(suspect, j)
    case _ => 0
  }

  function InFlight(conns: seq<F.Conn>, j: Job): nat {
    Copies(F.Jobs(conns), j)
  }

  function InBatch(rs: seq<F.Settled>, j: Job): nat {
    if rs == [] then 0 else InBatch(Front(rs), j) + One(Last(rs).job, j)
  }

  /** How many copies of job j a loop is responsible for. */
  function Holds(l: Loop, j: Job): nat {
    Copies(l.held.jobs, j) + InHand(l.pc, j) + InFlight(l.flight, j) + InBatch(l.settled, j)
  }

  function AllHold(loops: seq<Loop>, j: Job): nat {
    if loops == [] then 0 else Holds(loops[0], j) + AllHold(loops[1..], j)
  }

  function TimesReported(log: Log, j: Job): nat {
    if log.Nothing? then 0
    else TimesReported(log.before, j) + (if log.call.DoneCall? then One(log.call.job, j) else 0)
  }

  function TimesHanded(log: Log, j: Job): nat {
    if log.Nothing? then 0
    else TimesHanded(log.before, j) +
         (if log.call.NextCall? && log.call.got.Some? then One(log.call.got.value, j) else 0)
  }

  /** Copies of job j the loops are no longer responsible for. */
  function Left(sh: Shared, j: Job): nat {
    TimesReported(sh.log, j) + Copies(sh.unconfirmed, j)
  }

  function Given(sh: Shared, j: Job): nat {
    TimesHanded(sh.log, j)
  }

  lemma {:induction false} CopiesPush(s: seq<Job>, x: Job, j: Job)
    ensures Copies(s + [x], j) == Copies(s, j) + One(x, j)
  {
    if s == [] {
      assert s + [x] == [x];
    } else {
      assert (s + [x])[1..] == s[1..] + [x];
      CopiesPush(s[1..], x, j);
    }
  }

  lemma {:induction false} CopiesAreCounts(s: seq<Job>, j: Job)
    ensures Copies(s, j) == multiset(s)[j]
  {
    if s != [] {
      CopiesAreCounts(s[1..], j);
      assert s == [s[0]] + s[1..];
    }
  }

  lemma {:induction false} TimesAreCounts(log: Log, j: Job)
    ensures TimesHanded(log, j) == multiset(Handed(log))[j]
    ensures TimesReported(log, j) == multiset(Reported(log))[j]
  {
    if log.Then? {
      TimesAreCounts(log.before, j);
    }
  }

  /** Every copy of j handed out is in exactly one place. */
  ghost predicate Conserved(s: State, j: Job) {
    Given(s.shared, j) == Left(s.shared, j) + Copies(s.lost, j) + AllHold(s.loops, j)
  }

  lemma {:induction false} AllHoldPut(loops: seq<Loop>, i: nat, l: Loop, j: Job)
    requires i < |loops|
    ensures AllHold(loops[i := l], j) + Holds(loops[i], j) == AllHold(loops, j) + Holds(l, j)
  {
    if i == 0 {
      assert loops[0 := l][1..] == loops[1..];
    } else {
      AllHoldPut(loops[1..], i - 1, l, j);
      assert loops[i := l][1..] == loops[1..][i - 1 := l];
    }
  }

  lemma {:induction false} IdleHoldsNothing(loops: seq<Loop>, j: Job)
    requires forall i :: 0 <= i < |loops| ==> Idle(loops[i])
    ensures AllHold(loops, j) == 0
  {
    if loops != [] {
      IdleHoldsNothing(loops[1..], j);
      assert Idle(loops[0]);
    }
  }

  /** A step of loop i keeps the books of j if its own entries still balance. */
  lemma StepBalances(s: State, i: nat, s': State, j: Job)
    requires Conserved(s, j) && i < |s.loops| && |s'.loops| == |s.loops|
    requires s'.loops == s.loops[i := s'.loops[i]]
    requires Given(s'.shared, j) + Left(s.shared, j) + Copies(s.lost, j) + Holds(s.loops[i], j) ==
             Given(s.shared, j) + Left(s'.shared, j) + Copies(s'.lost, j) + Holds(s'.loops[i], j)
    ensures Conserved(s', j)
  {
    AllHoldPut(s.loops, i, s'.loops[i], j);
  }

  // ---- Reporting ----------------------------------------------------------------

  /** Reporting a batch moves exactly its jobs from the loop to the source or to the
      list still to be confirmed. */
  lemma {:induction false} DeliverMoves(sh: Shared, rs: seq<F.Settled>, now: int, kept: nat -> bool, j: Job)
    ensures var sh' := DeliverAll(sh, rs, now, kept);
            && Left(sh', j) == Left(sh, j) + InBatch(rs, j)
            && TimesReported(sh.log, j) <= TimesReported(sh'.log, j)
            && TimesHanded(sh'.log, j) == TimesHanded(sh.log, j)
            && sh'.starved == sh.starved
  {
    if rs != [] {
      DeliverMoves(sh, Front(rs), now, kept, j);
      CopiesPush(DeliverAll(sh, Front(rs), now, kept).unconfirmed, Last(rs).job, j);
    }
  }

  /** At no moment was j reported more often than handed out. */
  ghost predicate LegalFor(log: Log, j: Job) {
    log.Nothing? || (LegalFor(log.before, j) && TimesReported(log, j) <= TimesHanded(log, j))
  }

  lemma {:induction false} LegalForEach(log: Log)
    requires forall j :: LegalFor(log, j)
    ensures Legal(log)
  {
    if log.Then? {
      forall j ensures LegalFor(log.before, j) {
        assert LegalFor(log, j);
      }
      LegalForEach(log.before);
      forall j: Job ensures multiset(Reported(log))[j] <= multiset(Handed(log))[j] {
        assert LegalFor(log, j);
        TimesAreCounts(log, j);
      }
    }
  }

  /** A batch only adds reports, so it is legal if j does not end up reported more
      often than it was handed out. */
  lemma {:induction false} DeliverLegal(sh: Shared, rs: seq<F.Settled>, now: int, kept: nat -> bool, j: Job)
    requires LegalFor(sh.log, j)
    requires var end := DeliverAll(sh, rs, now, kept).log; TimesReported(end, j) <= TimesHanded(end, j)
    ensures LegalFor(DeliverAll(sh, rs, now, kept).log, j)
  {
    if rs != [] {
      DeliverLegal(sh, Front(rs), now, kept, j);
    }
  }

  // ---- Every step keeps the books -----------------------------------------------

  lemma RunDryHolds(l: Loop, at: int, j: Job)
    requires l.held.suspect ==> l.held.jobs != []
    requires !l.pc.Launch? && !l.pc.Accuse?
    ensures Holds(RunDry(l, at), j) == Holds(l, j)
  {
  }

  lemma WentHolds(l: Loop, at: int, j: Job)
    requires l.held.suspect ==> l.held.jobs != []
    requires l.pc.Launch?
    ensures Holds(Went(l, at), j) + One(l.pc.job, j) == Holds(l, j)
  {
  }

  lemma {:induction false} CopiesJoin(a: seq<Job>, b: seq<Job>, j: Job)
    ensures Copies(a + b, j) == Copies(a, j) + Copies(b, j)
  {
    if a == [] {
      assert a + b == b;
    } else {
      assert (a + b)[1..] == a[1..] + b;
      CopiesJoin(a[1..], b, j);
    }
  }

  lemma EnterBalances(s: State, i: nat, j: Job)
    requires Conserved(s, j) && Enabled(s, Enter(i))
    ensures Conserved(DoEnter(s, i), j)
  {
    CopiesJoin(s.lost, s.loops[i].held.jobs, j);
    StepBalances(s, i, DoEnter(s, i), j);
  }

  /** A step that only rearranges what its own loop holds. */
  lemma LocalBalances(s: State, i: nat, l: Loop, j: Job)
    requires Conserved(s, j) && i < |s.loops| && Holds(l, j) == Holds(s.loops[i], j)
    ensures Conserved(Put(s, i, l), j)
  {
    StepBalances(s, i, Put(s, i, l), j);
  }

  lemma TakeBalances(s: State, i: nat, now: int, stop: bool, got: Option<Job>, j: Job)
    requires Conserved(s, j) && LoopAt(s, i) && s.loops[i].pc.Fill?
    ensures Conserved(Take(s, i, now, stop, got), j)
  {
    var l := s.loops[i];
    var asked := s.(shared := s.shared.(log := Then(s.shared.log, NextCall(stop, got))));
    if got == None {
      RunDryHolds(l.(dry := true), now, j);
      LocalBalances(asked, i, RunDry(l.(dry := true), now), j);
    } else {
      StepBalances(s, i, Take(s, i, now, stop, got), j);
    }
  }

  lemma PickBalances(s: State, i: nat, now: int, stop: bool, got: Option<Job>, j: Job)
    requires Conserved(s, j) && Enabled(s, Pick(i, now, stop, got))
    ensures Conserved(DoPick(s, i, now, stop, got), j)
  {
    var l := s.loops[i];
    if |l.flight| >= s.capacity || l.batch == START_BATCH {
      LocalBalances(s, i, l.(pc := Report), j);
    } else if l.held.Due(now) {
      LocalBalances(s, i, l.(pc := Launch(l.held.jobs[0], now), held := l.held.Pop()), j);
    } else if !l.held.IsOpen() {
      LocalBalances(s, i, l.(pc := Report), j);
    } else if l.dry {
      RunDryHolds(l, now, j);
      LocalBalances(s, i, RunDry(l, now), j);
    } else if |l.flight| >= s.Share() {
      LocalBalances(s, i, l.(pc := Report), j);
    } else {
      TakeBalances(s, i, now, stop, got, j);
    }
  }

  lemma HoldJobs(h: HeldState, job: Job, shortage: Shortage, now: int)
    ensures h.Hold(job, shortage, now).jobs == h.jobs + [job]
  {
  }

  lemma FailedStartBalances(s: State, i: nat, shortage: Shortage, us: nat, j: Job)
    requires Conserved(s, j) && Enabled(s, Start(i, Unprobed(shortage), us))
    ensures Conserved(DoStart(s, i, Unprobed(shortage), us), j)
  {
    var l := s.loops[i];
    var Launch(job, at) := l.pc;
    HoldJobs(l.held, job, shortage, at);
    CopiesPush(l.held.jobs, job, j);
    if l.held.CarriesOn(shortage, at) {
      LocalBalances(s.(everHeld := true), i, DoStart(s, i, Unprobed(shortage), us).loops[i], j);
    } else {
      CopiesJoin(s.lost, l.held.jobs + [job], j);
      StepBalances(s, i, DoStart(s, i, Unprobed(shortage), us), j);
    }
  }

  lemma StartBalances(s: State, i: nat, attempt: Attempt, us: nat, j: Job)
    requires Conserved(s, j) && Enabled(s, Start(i, attempt, us))
    ensures Conserved(DoStart(s, i, attempt, us), j)
  {
    var l := s.loops[i];
    var Launch(job, at) := l.pc;
    match attempt
    case Unprobed(shortage) => FailedStartBalances(s, i, shortage, us, j);
    case AtOnce(verdict) =>
      WentHolds(l, at, j);
      var r := F.Settled(job, verdict, us);
      assert Front(l.settled + [r]) == l.settled;
      LocalBalances(s.(went := s.went + [job]), i, Went(l, at).(settled := l.settled + [r]), j);
    case Pending(sock) =>
      WentHolds(l, at, j);
      var c := F.NewConn(job, sock, at);
      F.ColumnAppend(l.flight, c, F.JobOf);
      CopiesPush(F.Jobs(l.flight), job, j);
      LocalBalances(s.(went := s.went + [job]), i, Went(l, at).(flight := l.flight + [c]), j);
  }

  lemma DoneBalances(s: State, i: nat, s': State, rs: seq<F.Settled>, now: int, kept: nat -> bool, cap: nat, j: Job)
    requires Conserved(s, j) && i < |s.loops| && |s'.loops| == |s.loops|
    requires s'.loops == s.loops[i := s'.loops[i]]
    requires s'.shared == DoneBatch(s.shared, rs, now, kept, cap) && s'.lost == s.lost
    requires Holds(s.loops[i], j) == Holds(s'.loops[i], j) + InBatch(rs, j)
    ensures Conserved(s', j)
  {
    DeliverMoves(s.shared, rs, now, kept, j);
    StepBalances(s, i, s', j);
  }

  lemma {:induction false} ReportsJobs(gone: seq<F.Conn>, finish: (nat, bool) -> Verdict, now: int, j: Job)
    ensures InBatch(F.Reports(gone, finish, now), j) == InFlight(gone, j)
  {
    if gone != [] {
      var front, c := Front(gone), Last(gone);
      assert gone == front + [c];
      F.ReportsAppend(front, c, finish, now);
      F.ColumnAppend(front, c, F.JobOf);
      CopiesPush(F.Jobs(front), c.job, j);
      ReportsJobs(front, finish, now, j);
    }
  }

  /** The report walk moves jobs from the table to the verdict buffer. */
  lemma WalkMoves(conns: seq<F.Conn>, bits: nat -> bool, cut: Cut, now: int,
                  finish: (nat, bool) -> Verdict, j: Job)
    ensures var (kept, gone) := F.Walk(Mark(conns, bits), |conns|, cut, now);
            InFlight(conns, j) == InFlight(kept, j) + InBatch(F.Reports(gone, finish, now), j)
  {
    var marked := Mark(conns, bits);
    assert forall k :: 0 <= k < |conns| ==> F.JobOf(marked[k]) == F.JobOf(conns[k]);
    assert F.Jobs(marked) == F.Jobs(conns);
    var (kept, gone) := F.Walk(marked, |marked|, cut, now);
    F.WalkSplits(marked, cut, now);
    ReportsJobs(gone, finish, now, j);
    CopiesAreCounts(F.Jobs(conns), j);
    CopiesAreCounts(F.Jobs(kept), j);
    CopiesAreCounts(F.Jobs(gone), j);
  }

  lemma LookBalances(s: State, i: nat, now: int, bits: nat -> bool, finish: (nat, bool) -> Verdict, j: Job)
    requires Inv(s) && Conserved(s, j) && Enabled(s, Look(i, now, bits, finish))
    ensures Conserved(DoLook(s, i, now, bits, finish), j)
  {
    var l := s.loops[i];
    assert LoopInv(l, s);
    WalkMoves(l.flight, bits, Cut(l.pc.waitMs, s.shared.lastCuttable), now, finish, j);
    StepBalances(s, i, DoLook(s, i, now, bits, finish), j);
  }

  lemma ReportSuspectBalances(s: State, i: nat, cap: nat, j: Job)
    requires Conserved(s, j) && Enabled(s, ReportSuspect(i, cap))
    ensures Conserved(DoReportSuspect(s, i, cap), j)
  {
    var Accuse(suspect, at, _) := s.loops[i].pc;
    var r := F.Settled(suspect, Known(Filtered), 0);
    assert Front([r]) == [];
    DoneBalances(s, i, DoReportSuspect(s, i, cap), [r], at, _ => true, cap, j);
  }

  lemma ReportBatchBalances(s: State, i: nat, now: int, kept: nat -> bool, cap: nat, j: Job)
    requires Conserved(s, j) && Enabled(s, ReportBatch(i, now, kept, cap))
    ensures Conserved(DoReportBatch(s, i, now, kept, cap), j)
  {
    DoneBalances(s, i, DoReportBatch(s, i, now, kept, cap), s.loops[i].settled, now, kept, cap, j);
  }

  lemma ReportLookBalances(s: State, i: nat, kept: nat -> bool, cap: nat, j: Job)
    requires Conserved(s, j) && Enabled(s, ReportLook(i, kept, cap))
    ensures Conserved(DoReportLook(s, i, kept, cap), j)
  {
    DoneBalances(s, i, DoReportLook(s, i, kept, cap), s.loops[i].settled, s.loops[i].pc.after, kept, cap, j);
  }

  lemma ReadCapBalances(s: State, i: nat, j: Job)
    requires Conserved(s, j) && Enabled(s, ReadCap(i))
    ensures Conserved(DoReadCap(s, i), j)
  {
    StepBalances(s, i, DoReadCap(s, i), j);
  }

  lemma ConfirmBalances(s: State, outcome: Outcome, us: nat, j: Job)
    requires Conserved(s, j) && Enabled(s, Confirm(outcome, us))
    ensures Conserved(DoConfirm(s, outcome, us), j)
  {
  }

  lemma StepConserves(s: State, e: Event, j: Job)
    requires Inv(s) && Conserved(s, j)
    ensures Conserved(Step(s, e), j)
  {
    if Enabled(s, e) {
      match e
      case Enter(i) => EnterBalances(s, i, j);
      case Pick(i, now, stop, got) => PickBalances(s, i, now, stop, got, j);
      case Start(i, attempt, us) => StartBalances(s, i, attempt, us, j);
      case ReportSuspect(i, cap) => ReportSuspectBalances(s, i, cap, j);
      case ReportBatch(i, now, kept, cap) => ReportBatchBalances(s, i, now, kept, cap, j);
      case ReadCap(i) => ReadCapBalances(s, i, j);
      case Look(i, now, bits, finish) => LookBalances(s, i, now, bits, finish, j);
      case ReportLook(i, kept, cap) => ReportLookBalances(s, i, kept, cap, j);
      case Join =>
      case Confirm(outcome, us) => ConfirmBalances(s, outcome, us, j);
    }
  }

  lemma StepLegal(s: State, e: Event, j: Job)
    requires LegalFor(s.shared.log, j)
    requires TimesReported(Step(s, e).shared.log, j) <= TimesHanded(Step(s, e).shared.log, j)
    ensures LegalFor(Step(s, e).shared.log, j)
  {
    if Enabled(s, e) {
      match e
      case ReportSuspect(i, cap) =>
        var Accuse(suspect, at, _) := s.loops[i].pc;
        DeliverLegal(s.shared, [F.Settled(suspect, Known(Filtered), 0)], at, _ => true, j);
      case ReportBatch(i, now, kept, cap) => DeliverLegal(s.shared, s.loops[i].settled, now, kept, j);
      case ReportLook(i, kept, cap) => DeliverLegal(s.shared, s.loops[i].settled, s.loops[i].pc.after, kept, j);
      case _ =>
    }
  }
}
