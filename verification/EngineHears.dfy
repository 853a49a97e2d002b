/** What the loops learn from each other over whole runs: the window sees every verdict, the
    time of the last cuttable answer and the source's latest cap are what they say, and a
    loop asks the source only for what it has room for. */
module EngineHears {
  import opened Basics
  import opened ConnectTypes
  import opened Protocol
  import opened Engine
  import opened EngineSafety
  import opened EngineContract
  import opened EngineWaits
  import opened EngineVerdicts
  import F = Flight
  import W = Window

  // ---- Delivered and reported ---------------------------------------------------------

  /** The verdicts in the log. */
  function Verdicts(log: Log): seq<(Job, Outcome, nat)> {
    if log.Nothing? then []
    else if log.call.DoneCall? then Verdicts(log.before) + [(log.call.job, log.call.outcome, log.call.us)]
    else Verdicts(log.before)
  }

  function Told(heard: seq<Heard>): seq<(Job, Outcome, nat)> {
    seq(|heard|, k requires 0 <= k < |heard| => (heard[k].job, heard[k].outcome, heard[k].us))
  }

  /** What the window is shown of them. */
  function Samples(heard: seq<Heard>): seq<W.Sample> {
    seq(|heard|, k requires 0 <= k < |heard| => W.Sample(heard[k].outcome, heard[k].us, heard[k].now))
  }

  /** When a connect with a floor was last answered, 0 if none was. */
  function LastCuttable(heard: seq<Heard>): int {
    if heard == [] then 0
    else if Last(heard).outcome != Filtered && Last(heard).job.target.cutFloorMs.Some? then Last(heard).now
    else LastCuttable(Front(heard))
  }

  /** The shared state agrees with what was delivered. */
  ghost predicate Agrees(sh: Shared, w: W.WindowState) {
    && sh.window == w.ObserveAll(Samples(sh.heard))
    && sh.lastCuttable == LastCuttable(sh.heard)
    && Told(sh.heard) <= Verdicts(sh.log)
  }

  lemma SamplesPush(heard: seq<Heard>, h: Heard, w: W.WindowState)
    ensures w.ObserveAll(Samples(heard + [h])) == w.ObserveAll(Samples(heard)).Observe(W.Sample(h.outcome, h.us, h.now))
    ensures Told(heard + [h]) == Told(heard) + [(h.job, h.outcome, h.us)]
    ensures Front(heard + [h]) == heard
  {
    assert Front(Samples(heard + [h])) == Samples(heard);
  }

  lemma DeliverAgrees(sh: Shared, r: F.Settled, now: int, kept: bool, w: W.WindowState)
    requires Agrees(sh, w) && Told(sh.heard) == Verdicts(sh.log)
    ensures var sh' := Deliver(sh, r, now, kept); Agrees(sh', w) && Told(sh'.heard) == Verdicts(sh'.log)
  {
    SamplesPush(sh.heard, Heard(r.job, r.verdict.Alone(), r.us, now), w);
  }

  lemma {:induction false} DeliverAllAgrees(sh: Shared, rs: seq<F.Settled>, now: int, kept: nat -> bool, w: W.WindowState)
    requires Agrees(sh, w) && Told(sh.heard) == Verdicts(sh.log)
    ensures var sh' := DeliverAll(sh, rs, now, kept); Agrees(sh', w) && Told(sh'.heard) == Verdicts(sh'.log)
  {
    if rs != [] {
      DeliverAllAgrees(sh, Front(rs), now, kept, w);
      DeliverAgrees(DeliverAll(sh, Front(rs), now, kept), Last(rs), now, kept(|rs| - 1), w);
    }
  }

  /** Up to the confirmations the log holds just what was delivered. */
  ghost predicate Consistent(s: State, w: W.WindowState) {
    Agrees(s.shared, w) && (s.phase == Running ==> Told(s.shared.heard) == Verdicts(s.shared.log))
  }

  lemma QuietStep(s: State, e: Event)
    requires Enabled(s, e) && !e.ReportSuspect? && !e.ReportBatch? && !e.ReportLook? && !e.Confirm?
    ensures var sh, sh' := s.shared, Step(s, e).shared;
            && sh'.heard == sh.heard && sh'.window == sh.window && sh'.lastCuttable == sh.lastCuttable
            && (sh'.log == sh.log || (sh'.log.Then? && sh'.log.before == sh.log && sh'.log.call.NextCall?))
    ensures Step(s, e).phase == Running ==> s.phase == Running
  {
  }

  /** A step that delivers nothing. */
  lemma QuietStepKeeps(s: State, e: Event, w: W.WindowState)
    requires Consistent(s, w) && Enabled(s, e)
    requires !e.ReportSuspect? && !e.ReportBatch? && !e.ReportLook? && !e.Confirm?
    ensures Consistent(Step(s, e), w)
  {
    QuietStep(s, e);
  }

  lemma StepKeepsAgreement(s: State, e: Event, w: W.WindowState)
    requires Consistent(s, w)
    ensures Consistent(Step(s, e), w)
  {
    if Enabled(s, e) {
      match e
      case ReportSuspect(i, cap) =>
        DeliverAllAgrees(s.shared, [F.Settled(s.loops[i].pc.suspect, Known(Filtered), 0)], s.loops[i].pc.at, _ => true, w);
      case ReportBatch(i, now, kept, cap) => DeliverAllAgrees(s.shared, s.loops[i].settled, now, kept, w);
      case ReportLook(i, kept, cap) => DeliverAllAgrees(s.shared, s.loops[i].settled, s.loops[i].pc.after, kept, w);
      case Confirm(_, _) => assert Step(s, e).shared.heard == s.shared.heard;
      case _ => QuietStepKeeps(s, e, w);
    }
  }

  function FirstWindow(r: Run): W.WindowState
    requires r.Valid()
  {
    W.Init(Max(|r.up|, Min(r.poolPace, r.limit)), r.limit, r.pace)
  }

  lemma {:induction false} AlwaysConsistent(r: Run)
    requires r.Valid()
    ensures Consistent(r.End(), FirstWindow(r))
    decreases |r.es|
  {
    if |r.es| > 0 {
      AlwaysConsistent(r.Before());
      StepKeepsAgreement(r.Before().End(), Last(r.es), FirstWindow(r));
    } else {
      assert Told([]) == [] && Samples([]) == [];
    }
  }

  /** In every run the window is what it becomes from its first state by all verdicts of the
      run, in the order the source is told of them; only the confirming connects at the
      end do not reach it. */
  lemma WindowSeesEveryVerdict(r: Run)
    requires r.Valid()
    ensures var sh := r.End().shared;
            && sh.window == FirstWindow(r).ObserveAll(Samples(sh.heard))
            && Told(sh.heard) <= Verdicts(sh.log)
            && (r.End().phase == Running ==> Told(sh.heard) == Verdicts(sh.log))
  {
    AlwaysConsistent(r);
  }

  // ---- When ------------------------------------------------------------------------------

  /** Event n delivers h, and this is the clock reading it goes by: the loop's after its
      starts or after its look, or, for a suspect, the one of the attempt that settled its
      fate. */
  ghost predicate HeardAt(r: Run, n: nat, h: Heard)
    requires r.Valid()
  {
    && n < |r.es| && Enabled(Upto(r, n).End(), r.es[n])
    && var s := Upto(r, n).End();
       match r.es[n]
       case ReportSuspect(i, _) => h == Heard(s.loops[i].pc.suspect, Filtered, 0, s.loops[i].pc.at)
       case ReportBatch(i, now, _, _) => h.now == now && FromBuffer(s.loops[i].settled, h)
       case ReportLook(i, _, _) => h.now == s.loops[i].pc.after && FromBuffer(s.loops[i].settled, h)
       case _ => false
  }

  ghost predicate FromBuffer(rs: seq<F.Settled>, h: Heard) {
    exists w :: w in rs && w.job == h.job && w.verdict.Alone() == h.outcome && w.us == h.us
  }

  lemma {:induction false} DeliveredNow(sh: Shared, rs: seq<F.Settled>, now: int, kept: nat -> bool, h: Heard)
    requires h in DeliverAll(sh, rs, now, kept).heard && h !in sh.heard
    ensures h.now == now && FromBuffer(rs, h)
  {
    if h in DeliverAll(sh, Front(rs), now, kept).heard {
      DeliveredNow(sh, Front(rs), now, kept, h);
      var w :| w in Front(rs) && w.job == h.job && w.verdict.Alone() == h.outcome && w.us == h.us;
      assert w in rs;
    } else {
      assert Last(rs) in rs;
    }
  }

  lemma NewlyHeard(r: Run, h: Heard)
    requires r.Valid() && |r.es| > 0
    requires h in r.End().shared.heard && h !in r.Before().End().shared.heard
    ensures HeardAt(r, |r.es| - 1, h)
  {
    var s, e := r.Before().End(), Last(r.es);
    UptoBefore(r, |r.es| - 1);
    match e
    case ReportSuspect(i, cap) =>
      DeliveredNow(s.shared, [F.Settled(s.loops[i].pc.suspect, Known(Filtered), 0)], s.loops[i].pc.at, _ => true, h);
    case ReportBatch(i, now, kept, cap) => DeliveredNow(s.shared, s.loops[i].settled, now, kept, h);
    case ReportLook(i, kept, cap) => DeliveredNow(s.shared, s.loops[i].settled, s.loops[i].pc.after, kept, h);
    case _ =>
  }

  lemma {:induction false} WasHeard(r: Run, h: Heard) returns (n: nat)
    requires r.Valid() && h in r.End().shared.heard
    ensures HeardAt(r, n, h)
    decreases |r.es|
  {
    if |r.es| > 0 {
      if h in r.Before().End().shared.heard {
        n := WasHeard(r.Before(), h);
        UptoBefore(r, n);
      } else {
        n := |r.es| - 1;
        NewlyHeard(r, h);
      }
    }
  }

  lemma {:induction false} LastCuttableIs(heard: seq<Heard>)
    ensures forall k :: 0 <= k < |heard| && Cuttable(heard[k]) && (forall j :: k < j < |heard| ==> !Cuttable(heard[j]))
              ==> LastCuttable(heard) == heard[k].now
    ensures (forall k :: 0 <= k < |heard| ==> !Cuttable(heard[k])) ==> LastCuttable(heard) == 0
  {
    if heard != [] {
      LastCuttableIs(Front(heard));
    }
  }

  predicate Cuttable(h: Heard) {
    h.outcome != Filtered && h.job.target.cutFloorMs.Some?
  }

  /** In every run the time that cut waits count from is that of the last verdict delivered
      which answered a connect that has a floor, and an event delivered that verdict
      at that time. */
  lemma CutsCountFromTheLastAnswer(r: Run, k: nat)
    requires r.Valid() && k < |r.End().shared.heard| && Cuttable(r.End().shared.heard[k])
    requires forall j :: k < j < |r.End().shared.heard| ==> !Cuttable(r.End().shared.heard[j])
    ensures r.End().shared.lastCuttable == r.End().shared.heard[k].now
    ensures exists n: nat :: HeardAt(r, n, r.End().shared.heard[k])
  {
    AlwaysConsistent(r);
    LastCuttableIs(r.End().shared.heard);
    var n := WasHeard(r, r.End().shared.heard[k]);
  }

  // ---- The cap on waits --------------------------------------------------------------------

  /** The cap the source gives with this event, if it reports anything. */
  function CapGiven(s: State, e: Event): Option<nat> {
    if !Enabled(s, e) then None
    else
      match e
      case ReportSuspect(_, cap) => Some(cap)
      case ReportBatch(i, _, _, cap) => if s.loops[i].settled != [] then Some(cap) else None
      case ReportLook(i, _, cap) => if s.loops[i].settled != [] then Some(cap) else None
      case _ => None
  }

  /** The cap the source gave with the latest batch of verdicts, 0 for none. */
  function LatestCap(r: Run): nat
    requires r.Valid()
    decreases |r.es|
  {
    if |r.es| == 0 then 0
    else
      var given := CapGiven(r.Before().End(), Last(r.es));
      if given.Some? then given.value else LatestCap(r.Before())
  }

  lemma StepSetsCap(s: State, e: Event)
    ensures Step(s, e).shared.waitCap == if CapGiven(s, e).Some? then CapGiven(s, e).value else s.shared.waitCap
  {
  }

  lemma {:induction false} CapIsLatest(r: Run)
    requires r.Valid()
    ensures r.End().shared.waitCap == LatestCap(r)
    decreases |r.es|
  {
    if |r.es| > 0 {
      CapIsLatest(r.Before());
      StepSetsCap(r.Before().End(), Last(r.es));
    }
  }

  /** Loop i learned its wait at event n: it is the cap the source gave last by then. */
  ghost predicate CapReadAt(r: Run, n: nat, i: nat, waitMs: Option<nat>)
    requires r.Valid()
  {
    && n < |r.es| && r.es[n] == ReadCap(i) && Enabled(Upto(r, n).End(), r.es[n])
    && waitMs == if LatestCap(Upto(r, n)) == 0 then None else Some(LatestCap(Upto(r, n)))
  }

  /** In every run the wait a loop goes by in a look is the latest one the source gave when
      the loop asked, if it had one. */
  lemma {:induction false} WaitsAreTheSources(r: Run, i: nat) returns (n: nat)
    requires r.Valid() && i < |r.End().loops| && r.End().loops[i].pc.Sweep?
    ensures CapReadAt(r, n, i, r.End().loops[i].pc.waitMs)
    decreases |r.es|
  {
    SizesStay(r);
    if |r.es| > 0 {
      SizesStay(r.Before());
      var s, e := r.Before().End(), Last(r.es);
      UptoBefore(r, |r.es| - 1);
      if Enabled(s, e) && e == ReadCap(i) {
        CapIsLatest(r.Before());
        n := |r.es| - 1;
      } else {
        SweepStays(s, e, i);
        n := WaitsAreTheSources(r.Before(), i);
        UptoBefore(r, n);
      }
    }
  }

  lemma SweepStays(s: State, e: Event, i: nat)
    requires i < |s.loops| == |Step(s, e).loops| && Step(s, e).loops[i].pc.Sweep?
    requires !(Enabled(s, e) && e == ReadCap(i))
    ensures s.loops[i].pc == Step(s, e).loops[i].pc
  {
    if !Moves(e, i) {
      OthersStay(s, e, i);
    } else if Enabled(s, e) && e.Pick? {
      PickLeavesSweeps(s, e);
    } else if Enabled(s, e) && e.Start? {
      StartLeavesSweeps(s, e);
    }
  }

  lemma PickLeavesSweeps(s: State, e: Event)
    requires e.Pick? && Enabled(s, e)
    ensures !Step(s, e).loops[e.i].pc.Sweep?
  {
  }

  lemma StartLeavesSweeps(s: State, e: Event)
    requires e.Start? && Enabled(s, e)
    ensures !Step(s, e).loops[e.i].pc.Sweep?
  {
  }

  // ---- Asking --------------------------------------------------------------------------------

  /** A loop asks the source only while it saw it not dry yet, holds nothing but a suspect
      to test, and has fewer connects in flight than its share of the window, or none; and
      within its table and its batch. */
  lemma AsksOnlyWithRoom(r: Run)
    requires r.Valid() && |r.es| > 0
    requires r.End().shared.log.Then? && r.End().shared.log.call.NextCall?
    requires r.End().shared.log != r.Before().End().shared.log
    ensures var s, e := r.Before().End(), Last(r.es);
            && e.Pick? && Enabled(s, e) && r.End().shared.log == Then(s.shared.log, NextCall(e.stop, e.got))
            && !s.loops[e.i].dry
            && (s.loops[e.i].held.jobs == [] || s.loops[e.i].held.suspect)
            && |s.loops[e.i].flight| < Max(1, s.shared.window.size / |s.loops|)
            && |s.loops[e.i].flight| < s.capacity && s.loops[e.i].batch < START_BATCH
  {
    var s, e := r.Before().End(), Last(r.es);
    Reachable(r.limit, r.poolPace, r.pace, r.up, Front(r.es));
    match e
    case Pick(i, _, _, _) => assert LoopInv(s.loops[i], s);
    case ReportSuspect(i, cap) =>
      EndsInDone(s.shared, [F.Settled(s.loops[i].pc.suspect, Known(Filtered), 0)], s.loops[i].pc.at, _ => true);
    case ReportBatch(i, now, kept, cap) => EndsInDone(s.shared, s.loops[i].settled, now, kept);
    case ReportLook(i, kept, cap) => EndsInDone(s.shared, s.loops[i].settled, s.loops[i].pc.after, kept);
    case _ =>
  }

  lemma {:induction false} EndsInDone(sh: Shared, rs: seq<F.Settled>, now: int, kept: nat -> bool)
    ensures var log := DeliverAll(sh, rs, now, kept).log;
            log == sh.log || (log.Then? && log.call.DoneCall?)
  {
    if rs != [] {
      EndsInDone(sh, Front(rs), now, kept);
    }
  }
}
