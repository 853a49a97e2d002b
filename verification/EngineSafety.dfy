/** What every reachable state of the engine keeps, whatever the interleaving, the
    operating system and the clock do: each loop stays within its capacity, its
    verdict buffer and the two slots of Held. */
module EngineSafety {
  import opened Basics
  import opened ConnectTypes
  import opened Protocol
  import opened Held
  import opened Engine
  import F = Flight
  import W = Window

  ghost predicate LoopInv(l: Loop, s: State) {
    && l.held.Valid()
    && ShortSince(l.held, l.tries)
    && |l.flight| <= s.capacity
    && |l.settled| <= Max(s.capacity, START_BATCH)
    && (l.dry ==> s.shared.starved || SawDry(s.shared.log))
    && (l.dry && (l.held.jobs != [] || l.pc.Launch? || l.pc.Accuse?) ==> SawDry(s.shared.log))
    && (l.pc.Launch? || (l.held.short ==> l.held.jobs != []))
    && PcInv(l, s)
  }

  ghost predicate PcInv(l: Loop, s: State) {
    match l.pc
    case Top => l.settled == []
    case Fill => |l.settled| <= l.batch <= START_BATCH
    case Launch(_, _) =>
      |l.settled| <= l.batch < START_BATCH && |l.flight| < s.capacity && |l.held.jobs| < SLOTS
    case Accuse(_, at, leave) =>
      && |l.settled| <= l.batch <= START_BATCH
      && (if leave then l.dry else l.tries != [] && Last(l.tries) == Begun(at))
    case Report => true
    case Peek => l.settled == [] && l.flight != []
    case Sweep(_) => l.settled == [] && l.flight != []
    case ReportSwept(_) => true
    case Finished => Idle(l) && (l.up ==> l.dry)
  }

  /** Nothing held, nothing in flight, nothing to report. */
  predicate Idle(l: Loop) {
    l.held.jobs == [] && l.flight == [] && l.settled == [] && !l.pc.Launch? && !l.pc.Accuse?
  }

  ghost predicate PhaseInv(s: State)
    requires s.loops != []
  {
    && (s.phase != Running ==> forall i :: 0 <= i < |s.loops| ==> s.loops[i].pc.Finished?)
    && (s.phase == Confirming || s.phase == Returned ==> !s.shared.starved && s.loops[0].up)
    && (s.phase == OutOfSockets ==> s.shared.starved)
    && (s.phase == SetupFailed ==> !s.loops[0].up)
    && (s.phase == Returned ==> s.shared.unconfirmed == [])
  }

  ghost predicate Inv(s: State) {
    && 1 <= |s.loops| <= s.limit
    && s.shared.window.Valid()
    && s.shared.window.max <= s.limit
    && (forall i :: 0 <= i < |s.loops| ==> LoopInv(s.loops[i], s))
    && (!s.shared.starved ==> s.lost == [])
    && PhaseInv(s)
  }

  /** What other loops rely on only grows. */
  ghost predicate Later(s: State, s': State) {
    && |s'.loops| == |s.loops| && s'.limit == s.limit && s'.capacity == s.capacity
    && (s.shared.starved ==> s'.shared.starved)
    && (SawDry(s.shared.log) ==> SawDry(s'.shared.log))
  }

  lemma LoopInvLasts(l: Loop, s: State, s': State)
    requires Later(s, s') && LoopInv(l, s)
    ensures LoopInv(l, s')
  {
  }

  /** What one loop's step leaves to check. */
  lemma StepKeepsInv(s: State, i: nat, l: Loop, s': State)
    requires Inv(s) && s.phase == Running && i < |s.loops|
    requires Later(s, s') && s'.loops == s.loops[i := l] && s'.phase == Running
    requires s'.shared.window.Valid() && s'.shared.window.max == s.shared.window.max
    requires LoopInv(l, s')
    requires !s'.shared.starved ==> s'.lost == []
    ensures Inv(s')
  {
    forall k | 0 <= k < |s'.loops|
      ensures LoopInv(s'.loops[k], s')
    {
      if k != i {
        LoopInvLasts(s.loops[k], s, s');
      }
    }
  }

  /** A batch of reports keeps the window within its bounds. */
  lemma {:induction false} DeliverKeeps(sh: Shared, rs: seq<F.Settled>, now: int, kept: nat -> bool)
    requires sh.window.Valid()
    ensures var sh' := DeliverAll(sh, rs, now, kept);
            && sh'.window.Valid() && sh'.window.max == sh.window.max
            && sh'.starved == sh.starved
            && (SawDry(sh.log) ==> SawDry(sh'.log))
  {
    if rs != [] {
      DeliverKeeps(sh, Front(rs), now, kept);
    }
  }

  // ---- Every step keeps the invariant ---------------------------------------------

  lemma EnterKeeps(s: State, i: nat)
    requires Inv(s) && Enabled(s, Enter(i))
    ensures Inv(DoEnter(s, i))
  {
    var s' := DoEnter(s, i);
    assert LoopInv(s.loops[i], s);
    StepKeepsInv(s, i, s'.loops[i], s');
  }

  /** A step that touches nothing but its own loop. */
  lemma LocalStepKeeps(s: State, i: nat, l: Loop)
    requires Inv(s) && LoopAt(s, i) && LoopInv(l, s)
    ensures Inv(Put(s, i, l))
  {
    LoopInvLasts(l, s, Put(s, i, l));
    StepKeepsInv(s, i, l, Put(s, i, l));
  }

  lemma WentKeeps(s: State, i: nat, job: Job, l: Loop)
    requires Inv(s) && LoopAt(s, i) && LoopInv(l, s)
    ensures Inv(Put(s, i, l).(went := s.went + [job]))
  {
    var s' := Put(s, i, l).(went := s.went + [job]);
    LoopInvLasts(l, s, s');
    StepKeepsInv(s, i, l, s');
  }

  lemma AskKeeps(s: State, c: Call)
    requires Inv(s)
    ensures Inv(s.(shared := s.shared.(log := Then(s.shared.log, c))))
  {
    var s' := s.(shared := s.shared.(log := Then(s.shared.log, c)));
    forall k | 0 <= k < |s.loops| ensures LoopInv(s.loops[k], s') {
      LoopInvLasts(s.loops[k], s, s');
    }
  }

  lemma TakeKeeps(s: State, i: nat, now: int, stop: bool, got: Option<Job>)
    requires Inv(s) && LoopAt(s, i) && s.loops[i].pc.Fill?
    requires s.loops[i].held.IsOpen() && |s.loops[i].flight| < s.capacity && s.loops[i].batch < START_BATCH
    requires !s.loops[i].dry
    ensures Inv(Take(s, i, now, stop, got))
  {
    var l := s.loops[i];
    var asked := s.(shared := s.shared.(log := Then(s.shared.log, NextCall(stop, got))));
    assert LoopInv(l, s);
    AskKeeps(s, NextCall(stop, got));
    LoopInvLasts(l, s, asked);
    if got.Some? {
      LocalStepKeeps(asked, i, l.(pc := Launch(got.value, now)));
    } else {
      LocalStepKeeps(asked, i, RunDry(l.(dry := true), now));
    }
  }

  lemma PickKeeps(s: State, i: nat, now: int, stop: bool, got: Option<Job>)
    requires Inv(s) && Enabled(s, Pick(i, now, stop, got))
    ensures Inv(DoPick(s, i, now, stop, got))
  {
    var l := s.loops[i];
    assert LoopInv(l, s);
    if |l.flight| >= s.capacity || l.batch == START_BATCH {
      LocalStepKeeps(s, i, l.(pc := Report));
    } else if l.held.Due(now) {
      LocalStepKeeps(s, i, l.(pc := Launch(l.held.jobs[0], now), held := l.held.Pop()));
    } else if !l.held.IsOpen() {
      LocalStepKeeps(s, i, l.(pc := Report));
    } else if l.dry {
      LocalStepKeeps(s, i, RunDry(l, now));
    } else if |l.flight| >= s.Share() {
      LocalStepKeeps(s, i, l.(pc := Report));
    } else {
      TakeKeeps(s, i, now, stop, got);
    }
  }

  lemma FailedStartKeeps(s: State, i: nat, shortage: Shortage, us: nat)
    requires Inv(s) && Enabled(s, Start(i, Unprobed(shortage), us))
    ensures Inv(DoStart(s, i, Unprobed(shortage), us))
  {
    var s' := DoStart(s, i, Unprobed(shortage), us);
    var l := s.loops[i];
    assert LoopInv(l, s);
    HoldKeepsShortSince(l.held, l.tries, l.pc.job, shortage, l.pc.at);
    LoopInvLasts(l, s, s');
    StepKeepsInv(s, i, s'.loops[i], s');
  }

  lemma StartKeeps(s: State, i: nat, attempt: Attempt, us: nat)
    requires Inv(s) && Enabled(s, Start(i, attempt, us))
    ensures Inv(DoStart(s, i, attempt, us))
  {
    var l := s.loops[i];
    assert LoopInv(l, s);
    var Launch(job, at) := l.pc;
    match attempt
    case Unprobed(shortage) => FailedStartKeeps(s, i, shortage, us);
    case AtOnce(verdict) =>
      WentKeeps(s, i, job, Went(l, at).(settled := l.settled + [F.Settled(job, verdict, us)]));
    case Pending(sock) =>
      WentKeeps(s, i, job, Went(l, at).(flight := l.flight + [F.NewConn(job, sock, at)]));
  }

  lemma ReportSuspectKeeps(s: State, i: nat, cap: nat)
    requires Inv(s) && Enabled(s, ReportSuspect(i, cap))
    ensures Inv(DoReportSuspect(s, i, cap))
  {
    var s' := DoReportSuspect(s, i, cap);
    var l := s.loops[i];
    assert LoopInv(l, s);
    DeliverKeeps(s.shared, [F.Settled(l.pc.suspect, Known(Filtered), 0)], l.pc.at, _ => true);
    LoopInvLasts(l, s, s');
    StepKeepsInv(s, i, s'.loops[i], s');
  }

  lemma ReportBatchKeeps(s: State, i: nat, now: int, kept: nat -> bool, cap: nat)
    requires Inv(s) && Enabled(s, ReportBatch(i, now, kept, cap))
    ensures Inv(DoReportBatch(s, i, now, kept, cap))
  {
    var s' := DoReportBatch(s, i, now, kept, cap);
    var l := s.loops[i];
    assert LoopInv(l, s);
    DeliverKeeps(s.shared, l.settled, now, kept);
    LoopInvLasts(l, s, s');
    StepKeepsInv(s, i, s'.loops[i], s');
  }

  lemma ReadCapKeeps(s: State, i: nat)
    requires Inv(s) && Enabled(s, ReadCap(i))
    ensures Inv(DoReadCap(s, i))
  {
    assert LoopInv(s.loops[i], s);
    LocalStepKeeps(s, i, DoReadCap(s, i).loops[i]);
  }

  lemma {:induction false} ReportsLength(gone: seq<F.Conn>, finish: (nat, bool) -> Verdict, now: int)
    ensures |F.Reports(gone, finish, now)| == |gone|
  {
    if gone != [] {
      ReportsLength(gone[1..], finish, now);
    }
  }

  lemma LookKeeps(s: State, i: nat, now: int, bits: nat -> bool, finish: (nat, bool) -> Verdict)
    requires Inv(s) && Enabled(s, Look(i, now, bits, finish))
    ensures Inv(DoLook(s, i, now, bits, finish))
  {
    var s' := DoLook(s, i, now, bits, finish);
    var l := s.loops[i];
    assert LoopInv(l, s);
    var marked, cut := Mark(l.flight, bits), Cut(l.pc.waitMs, s.shared.lastCuttable);
    F.WalkSorts(marked, |marked|, cut, now);
    ReportsLength(F.Walk(marked, |marked|, cut, now).1, finish, now);
    StepKeepsInv(s, i, s'.loops[i], s');
  }

  lemma ReportLookKeeps(s: State, i: nat, kept: nat -> bool, cap: nat)
    requires Inv(s) && Enabled(s, ReportLook(i, kept, cap))
    ensures Inv(DoReportLook(s, i, kept, cap))
  {
    var s' := DoReportLook(s, i, kept, cap);
    var l := s.loops[i];
    assert LoopInv(l, s);
    DeliverKeeps(s.shared, l.settled, l.pc.after, kept);
    LoopInvLasts(l, s, s');
    StepKeepsInv(s, i, s'.loops[i], s');
  }

  lemma ConfirmKeeps(s: State, outcome: Outcome, us: nat)
    requires Inv(s) && Enabled(s, Confirm(outcome, us))
    ensures Inv(DoConfirm(s, outcome, us))
  {
    var s' := DoConfirm(s, outcome, us);
    forall k | 0 <= k < |s'.loops|
      ensures LoopInv(s'.loops[k], s')
    {
      LoopInvLasts(s.loops[k], s, s');
    }
  }

  lemma StepKeeps(s: State, e: Event)
    requires Inv(s)
    ensures Inv(Step(s, e))
  {
    if Enabled(s, e) {
      match e
      case Enter(i) => EnterKeeps(s, i);
      case Pick(i, now, stop, got) => PickKeeps(s, i, now, stop, got);
      case Start(i, attempt, us) => StartKeeps(s, i, attempt, us);
      case ReportSuspect(i, cap) => ReportSuspectKeeps(s, i, cap);
      case ReportBatch(i, now, kept, cap) => ReportBatchKeeps(s, i, now, kept, cap);
      case ReadCap(i) => ReadCapKeeps(s, i);
      case Look(i, now, bits, finish) => LookKeeps(s, i, now, bits, finish);
      case ReportLook(i, kept, cap) => ReportLookKeeps(s, i, kept, cap);
      case Confirm(outcome, us) => ConfirmKeeps(s, outcome, us);
      case Join =>
        forall k | 0 <= k < |s.loops| ensures LoopInv(s.loops[k], DoJoin(s)) {
          assert LoopInv(s.loops[k], s);
        }
    }
  }

  lemma {:induction false} Reachable(limit: nat, poolPace: nat, pace: W.Pace, up: seq<bool>, es: seq<Event>)
    requires 1 <= |up| <= limit
    ensures Inv(Exec(Init(limit, poolPace, pace, up), es))
  {
    if |es| > 0 {
      Reachable(limit, poolPace, pace, up, Front(es));
      StepKeeps(Exec(Init(limit, poolPace, pace, up), Front(es)), Last(es));
    }
  }
}
