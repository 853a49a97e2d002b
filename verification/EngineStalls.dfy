/** Shortages over whole runs: when a run is given up, and how long a loop waits between
    two attempts, told from the attempts alone. */
module EngineStalls {
  import opened Basics
  import opened ConnectTypes
  import opened Held
  import opened Engine
  import opened EngineSafety
  import opened EngineContract
  import opened EngineWaits
  import F = Flight

  /** The loop may make another attempt. */
  predicate Alive(l: Loop) {
    l.pc.Launch? || l.held.jobs != [] || !l.dry
  }

  /** What a loop that may make another attempt holds is what its attempts tell, and what
      it is about to try again has had its pause. */
  ghost predicate Telling(l: Loop) {
    Alive(l) ==>
      && Reflects(l.held, l.tries)
      && (l.pc.Launch? && !l.held.short && !l.held.suspect ==> l.held.jobs == [])
      && (l.pc.Launch? && l.held.short ==> l.pc.at >= l.held.retryAt)
  }

  /** Within a shortage every attempt came at least the pause after the one before. */
  ghost predicate PausesKept(tries: seq<Try>) {
    tries == [] || (PausesKept(Front(tries)) && PausedBefore(Front(tries), Last(tries)))
  }

  ghost predicate PausedBefore(tries: seq<Try>, t: Try) {
    Onset(tries).Some? ==> t.at >= Last(tries).at + PauseAfter(|tries| - Onset(tries).value)
  }

  ghost predicate LoopTells(l: Loop) {
    Telling(l) && PausesKept(l.tries)
  }

  lemma {:induction false} PauseKeptAt(tries: seq<Try>, k: nat)
    requires PausesKept(tries) && k < |tries|
    ensures PausedBefore(tries[..k], tries[k])
    decreases |tries|
  {
    if k < |tries| - 1 {
      assert Front(tries)[..k] == tries[..k];
      PauseKeptAt(Front(tries), k);
    } else {
      assert tries[..k] == Front(tries);
    }
  }

  /** An attempt about to be made keeps the pauses, however it ends. */
  lemma LaunchKeepsPauses(l: Loop, t: Try)
    requires l.pc.Launch? && LoopTells(l) && t.at == l.pc.at
    ensures PausesKept(l.tries + [t])
  {
    assert Front(l.tries + [t]) == l.tries;
  }

  lemma FailureTells(l: Loop, shortage: Shortage, l': Loop)
    requires LoopTells(l) && l.held.Valid() && l.pc.Launch?
    requires l'.tries == l.tries + [Failed(l.pc.at, shortage)] && l'.pc.Fill?
    requires l'.held == l.held.Hold(l.pc.job, shortage, l.pc.at) || (l'.held.jobs == [] && l'.dry)
    ensures LoopTells(l')
  {
    HoldReflects(l.held, l.tries, l.pc.job, shortage, l.pc.at);
    LaunchKeepsPauses(l, Failed(l.pc.at, shortage));
  }

  lemma BeginningTells(l: Loop, l': Loop)
    requires LoopTells(l) && l.held.Valid() && l.pc.Launch?
    requires l'.tries == l.tries + [Begun(l.pc.at)] && !l'.pc.Launch? && l'.held == l.held.Started()
    ensures LoopTells(l')
  {
    StartedReflects(l.held, l.tries, l.pc.at);
    LaunchKeepsPauses(l, Begun(l.pc.at));
  }

  lemma StartTells(s: State, e: Event)
    requires Inv(s) && e.Start? && Enabled(s, e) && LoopTells(s.loops[e.i])
    ensures LoopTells(Step(s, e).loops[e.i])
  {
    var l := s.loops[e.i];
    assert LoopInv(l, s);
    if e.attempt.Unprobed? {
      FailureTells(l, e.attempt.shortage, Step(s, e).loops[e.i]);
    } else {
      BeginningTells(l, Step(s, e).loops[e.i]);
    }
  }

  /** A held job is due: it is tried again. */
  lemma DueTells(l: Loop, now: int)
    requires LoopTells(l) && l.held.Valid() && l.held.Due(now)
    ensures LoopTells(l.(pc := Launch(l.held.jobs[0], now), held := l.held.Pop()))
  {
  }

  /** A new job is tried, to test a suspect or with nothing held. */
  lemma NewTells(l: Loop, job: Job, now: int)
    requires LoopTells(l) && l.held.Valid() && !l.dry && l.held.IsOpen() && (l.held.short ==> l.held.jobs != [])
    ensures LoopTells(l.(pc := Launch(job, now)))
  {
  }

  /** Nothing is left to try. */
  lemma DryTells(l: Loop, at: int)
    requires LoopTells(l) && l.held.Valid() && l.held.IsOpen() && l.dry && !l.pc.Launch?
    ensures LoopTells(RunDry(l, at))
  {
  }

  lemma StandsTells(l: Loop)
    requires LoopTells(l) && l.pc.Fill?
    ensures LoopTells(l.(pc := Report)) && (l.held.IsOpen() && l.held.Valid() ==> LoopTells(l.(dry := true)))
  {
  }

  lemma PickTells(s: State, e: Event)
    requires Inv(s) && e.Pick? && Enabled(s, e) && LoopTells(s.loops[e.i])
    ensures LoopTells(Step(s, e).loops[e.i])
  {
    var l := s.loops[e.i];
    assert LoopInv(l, s);
    StandsTells(l);
    if |l.flight| >= s.capacity || l.batch == START_BATCH {
    } else if l.held.Due(e.now) {
      DueTells(l, e.now);
    } else if l.held.IsOpen() && l.dry {
      DryTells(l, e.now);
    } else if l.held.IsOpen() && |l.flight| < s.Share() && e.got.Some? {
      NewTells(l, e.got.value, e.now);
    } else if l.held.IsOpen() && |l.flight| < s.Share() {
      DryTells(l.(dry := true), e.now);
    }
  }

  lemma MoveTells(s: State, e: Event, i: nat)
    requires Inv(s) && Enabled(s, e) && Moves(e, i) && i < |s.loops| == |Step(s, e).loops|
    requires LoopTells(s.loops[i])
    ensures LoopTells(Step(s, e).loops[i])
  {
    if e.Start? {
      StartTells(s, e);
    } else if e.Pick? {
      PickTells(s, e);
    } else {
      assert LoopInv(s.loops[i], s);
    }
  }

  /** In every reachable state every loop's attempts tell what it holds. */
  lemma {:induction false} AlwaysTells(r: Run, i: nat)
    requires r.Valid() && i < |r.End().loops|
    ensures LoopTells(r.End().loops[i])
    decreases |r.es|
  {
    if |r.es| > 0 {
      SizesStay(r);
      SizesStay(r.Before());
      AlwaysTells(r.Before(), i);
      Reachable(r.limit, r.poolPace, r.pace, r.up, Front(r.es));
      var s, e := r.Before().End(), Last(r.es);
      if Moves(e, i) && Enabled(s, e) {
        MoveTells(s, e, i);
      } else if Enabled(s, e) {
        OthersStay(s, e, i);
      }
    }
  }

  /** In every run each loop waits, between two attempts of one shortage, at least the
      pause for the failures so far: 1 ms after the first, twice as long after each
      further one, up to 100 ms. */
  lemma RetriesWaitTheirPause(r: Run, i: nat, k: nat)
    requires r.Valid() && i < |r.End().loops| && 0 < k < |r.End().loops[i].tries|
    requires Onset(r.End().loops[i].tries[..k]).Some?
    ensures var tries := r.End().loops[i].tries;
            var n := k - Onset(tries[..k]).value;
            && n > 0
            && tries[k].at - tries[k - 1].at >= Min(FIRST_PAUSE_NS * PowerOfTwo(n - 1), MAX_PAUSE_NS)
  {
    AlwaysTells(r, i);
    PauseKeptAt(r.End().loops[i].tries, k);
    PausesDouble(k - Onset(r.End().loops[i].tries[..k]).value - 1);
  }

  /** A failed attempt ends the run for want of sockets exactly when another loop had
      already, or the shortage of this loop, told from its attempts alone, is then at
      least STALL_LIMIT_NS old. */
  lemma StarvesExactly(r: Run)
    requires r.Valid() && |r.es| > 0 && Enabled(r.Before().End(), Last(r.es))
    requires Last(r.es).Start? && Last(r.es).attempt.Unprobed?
    ensures var tries := r.End().loops[Last(r.es).i].tries;
            && tries != []
            && (r.End().shared.starved <==>
                r.Before().End().shared.starved
                || (Onset(tries).Some? && Last(tries).at - tries[Onset(tries).value].at >= STALL_LIMIT_NS))
  {
    var s, e := r.Before().End(), Last(r.es);
    var l := s.loops[e.i];
    Reachable(r.limit, r.poolPace, r.pace, r.up, Front(r.es));
    AlwaysTells(r.Before(), e.i);
    assert LoopInv(l, s);
    GivesUpExactly(l.held, l.tries, e.attempt.shortage, l.pc.at);
    assert r.End().loops[e.i].tries == l.tries + [Failed(l.pc.at, e.attempt.shortage)];
  }

  // ---- Loops that are done ------------------------------------------------------------------

  lemma DeadStays(s: State, e: Event, i: nat)
    requires Inv(s) && i < |s.loops| && !Alive(s.loops[i])
    ensures i < |Step(s, e).loops| && !Alive(Step(s, e).loops[i])
    ensures !(e.Start? && e.i == i && Enabled(s, e))
  {
    StepKeepsSizes(s, e);
    assert LoopInv(s.loops[i], s);
    if !Moves(e, i) && Enabled(s, e) {
      OthersStay(s, e, i);
    } else if e.Pick? && Enabled(s, e) {
      DeadPicksNothing(s, e);
    }
  }

  lemma DeadPicksNothing(s: State, e: Event)
    requires e.Pick? && Enabled(s, e) && !Alive(s.loops[e.i])
    ensures !Alive(Step(s, e).loops[e.i])
  {
  }

  lemma {:induction false} DeadLasts(r: Run, n: nat, i: nat)
    requires r.Valid() && n <= |r.es| && i < |Upto(r, n).End().loops| && !Alive(Upto(r, n).End().loops[i])
    ensures i < |r.End().loops| && !Alive(r.End().loops[i])
    decreases |r.es|
  {
    if n < |r.es| {
      assert Front(r.es)[..n] == r.es[..n];
      assert Upto(r.Before(), n) == Upto(r, n);
      DeadLasts(r.Before(), n, i);
      Reachable(r.limit, r.poolPace, r.pace, r.up, Front(r.es));
      DeadStays(r.Before().End(), Last(r.es), i);
    } else {
      assert Upto(r, n) == r;
    }
  }

  /** A loop that comes round in a run already given up makes no further attempt. */
  lemma StarvedLoopsStop(r: Run, n: nat, i: nat)
    requires r.Valid() && n < |r.es| - 1 && r.es[n] == Enter(i) && Enabled(Upto(r, n).End(), r.es[n])
    requires Upto(r, n).End().shared.starved
    ensures !(Last(r.es).Start? && Last(r.es).i == i && Enabled(r.Before().End(), Last(r.es)))
  {
    var b := r.Before();
    var upto := Upto(b, n + 1);
    assert upto.Before() == Upto(r, n) && Last(upto.es) == Enter(i) by {
      assert Front(r.es)[..n + 1] == r.es[..n + 1];
      assert Front(r.es[..n + 1]) == r.es[..n];
    }
    DeadLasts(b, n + 1, i);
    Reachable(r.limit, r.poolPace, r.pace, r.up, Front(r.es));
    DeadStays(b.End(), Last(r.es), i);
  }

  /** A held job that is due goes before anything else there is room for, the oldest first;
      and a job held goes behind those already there. */
  lemma DueGoesFirst(s: State, e: Event)
    requires e.Pick? && Enabled(s, e) && s.loops[e.i].held.Due(e.now)
    requires |s.loops[e.i].flight| < s.capacity && s.loops[e.i].batch < START_BATCH
    ensures var l, l' := s.loops[e.i], Step(s, e).loops[e.i];
            && l'.pc == Launch(l.held.jobs[0], e.now) && l'.held.jobs == l.held.jobs[1..]
            && Step(s, e).shared.log == s.shared.log
    ensures forall job, shortage, at :: (
              s.loops[e.i].held.Hold(job, shortage, at).jobs == s.loops[e.i].held.jobs + [job])
  {
  }

  // ---- Rounds -----------------------------------------------------------------------------

  /** Loop i looks at event k. */
  ghost predicate LooksAt(r: Run, k: nat, i: nat)
    requires r.Valid()
  {
    k < |r.es| && r.es[k].Look? && r.es[k].i == i && Enabled(Upto(r, k).End(), r.es[k])
  }

  lemma OnTheWayToLook(s: State, e: Event, i: nat)
    requires i < |s.loops| == |Step(s, e).loops| && (s.loops[i].pc.Peek? || s.loops[i].pc.Sweep?)
    requires !(e.Look? && e.i == i && Enabled(s, e))
    ensures Step(s, e).loops[i].pc.Peek? || Step(s, e).loops[i].pc.Sweep?
  {
    if !Moves(e, i) {
      OthersStay(s, e, i);
    }
  }

  /** A loop that reports its starts while it has connects in flight looks at them before it
      comes round again. */
  lemma {:induction false} LooksBeforeComingRound(r: Run, n: nat, i: nat)
    requires r.Valid() && n < |r.es| && r.es[n].ReportBatch? && r.es[n].i == i && Enabled(Upto(r, n).End(), r.es[n])
    requires Upto(r, n).End().loops[i].flight != []
    requires forall k :: n < k < |r.es| ==> !LooksAt(r, k, i)
    ensures i < |r.End().loops| && (r.End().loops[i].pc.Peek? || r.End().loops[i].pc.Sweep?)
    decreases |r.es|
  {
    var b := r.Before();
    SizesStay(r);
    SizesStay(b);
    assert Upto(r, |r.es| - 1) == b;
    if n < |r.es| - 1 {
      forall k | n <= k < |b.es| ensures Upto(b, k) == Upto(r, k) && b.es[k] == r.es[k] {
        assert Front(r.es)[..k] == r.es[..k];
      }
      forall k | n < k < |b.es| ensures !LooksAt(b, k, i) {
        assert !LooksAt(r, k, i);
      }
      LooksBeforeComingRound(b, n, i);
      assert !LooksAt(r, |r.es| - 1, i);
      OnTheWayToLook(b.End(), Last(r.es), i);
    }
  }
}
