/** Verdicts over whole runs: what a loop finds of a connect is what the source is told of
    it, and the source is told nothing else. */
module EngineVerdicts {
  import opened Basics
  import opened ConnectTypes
  import opened Protocol
  import opened Engine
  import opened EngineSafety
  import opened EngineContract
  import opened EngineWaits
  import F = Flight

  /** Event n of the run finds w: loop i starts a connect that settles at once, or looks at
      one at its end. */
  ghost predicate FoundAt(r: Run, n: nat, i: nat, w: F.Settled)
    requires r.Valid()
  {
    && n < |r.es| && Enabled(Upto(r, n).End(), r.es[n])
    && match r.es[n]
       case Start(k, attempt, us) =>
         && k == i && attempt.AtOnce?
         && w == F.Settled(Upto(r, n).End().loops[k].pc.job, attempt.verdict, us)
       case Look(k, now, _, finish) =>
         k == i && exists c ::
           && Shows(r, n, c) && EndsAt(r, n, c)
           && w == F.Settled(c.job, finish(c.sock, c.settled), ElapsedUs(c.started, now))
       case _ => false
  }

  /** Event n reports p as a suspect given up. */
  ghost predicate WaivedAt(r: Run, n: nat, p: Job)
    requires r.Valid()
  {
    && n < |r.es| && r.es[n].ReportSuspect? && Enabled(Upto(r, n).End(), r.es[n])
    && Upto(r, n).End().loops[r.es[n].i].pc.suspect == p
  }

  /** Event n confirms p: it makes p's one more connect and reports it. */
  ghost predicate ConfirmedAt(r: Run, n: nat, p: Job)
    requires r.Valid()
  {
    && n < |r.es| && r.es[n].Confirm? && Enabled(Upto(r, n).End(), r.es[n])
    && Upto(r, n).End().shared.unconfirmed[0] == p
  }

  // ---- Runs and their beginnings ------------------------------------------------------

  lemma UptoBefore(r: Run, n: nat)
    requires |r.es| > 0 && n < |r.es|
    ensures Upto(r.Before(), n) == Upto(r, n) && Upto(r, |r.es| - 1) == r.Before()
    ensures n < |r.es| - 1 ==> r.Before().es[n] == r.es[n]
  {
    assert Front(r.es)[..n] == r.es[..n];
  }

  /** What an event of a shorter run did, it did in the longer one. */
  lemma FoundStays(r: Run, n: nat, i: nat, w: F.Settled)
    requires r.Valid() && |r.es| > 0 && FoundAt(r.Before(), n, i, w)
    ensures FoundAt(r, n, i, w)
  {
    UptoBefore(r, n);
    if r.es[n].Look? {
      var c :| Shows(r.Before(), n, c) && EndsAt(r.Before(), n, c)
               && w == F.Settled(c.job, r.es[n].finish(c.sock, c.settled), ElapsedUs(c.started, r.es[n].now));
      assert Shows(r, n, c) && EndsAt(r, n, c);
    }
  }

  lemma WaivedStays(r: Run, n: nat, p: Job)
    requires r.Valid() && |r.es| > 0 && WaivedAt(r.Before(), n, p)
    ensures WaivedAt(r, n, p)
  {
    UptoBefore(r, n);
  }

  lemma ConfirmedStays(r: Run, n: nat, p: Job)
    requires r.Valid() && |r.es| > 0 && ConfirmedAt(r.Before(), n, p)
    ensures ConfirmedAt(r, n, p)
  {
    UptoBefore(r, n);
  }

  // ---- What is found goes into the buffer ---------------------------------------------

  lemma {:induction false} TakenOutIsReported(gone: seq<F.Conn>, finish: (nat, bool) -> Verdict, now: int, c: F.Conn)
    requires c in gone
    ensures F.Settled(c.job, finish(c.sock, c.settled), ElapsedUs(c.started, now)) in F.Reports(gone, finish, now)
  {
    if c != gone[0] {
      TakenOutIsReported(gone[1..], finish, now, c);
    }
  }

  lemma {:induction false} ReportedWasTakenOut(
    gone: seq<F.Conn>, finish: (nat, bool) -> Verdict, now: int, w: F.Settled) returns (c: F.Conn)
    requires w in F.Reports(gone, finish, now)
    ensures c in gone && w == F.Settled(c.job, finish(c.sock, c.settled), ElapsedUs(c.started, now))
  {
    c := gone[0];
    if w != F.Settled(c.job, finish(c.sock, c.settled), ElapsedUs(c.started, now)) {
      c := ReportedWasTakenOut(gone[1..], finish, now, w);
    }
  }

  lemma LookBuffers(r: Run, n: nat, c: F.Conn)
    requires r.Valid() && Shows(r, n, c) && EndsAt(r, n, c)
    ensures r.es[n].i < |Upto(r, n + 1).End().loops|
    ensures F.Settled(c.job, r.es[n].finish(c.sock, c.settled), ElapsedUs(c.started, r.es[n].now))
            in Upto(r, n + 1).End().loops[r.es[n].i].settled
  {
    var upto, s, e := Upto(r, n + 1), Upto(r, n).End(), r.es[n];
    assert Last(upto.es) == e && upto.Before() == Upto(r, n);
    SizesStay(upto);
    SizesStay(Upto(r, n));
    LooksTakeExactly(upto, c);
    assert multiset(Looked(s, e))[c] > 0;
    assert c in multiset(TakenOut(s, e));
    TakenOutIsReported(TakenOut(s, e), e.finish, e.now, c);
  }

  lemma StartBuffers(s: State, e: Event)
    requires e.Start? && Enabled(s, e) && e.attempt.AtOnce?
    ensures var l, l' := s.loops[e.i], Step(s, e).loops[e.i];
            l'.settled == l.settled + [F.Settled(l.pc.job, e.attempt.verdict, e.us)]
  {
  }

  lemma FoundIsBuffered(r: Run, n: nat, i: nat, w: F.Settled)
    requires r.Valid() && FoundAt(r, n, i, w)
    ensures i < |Upto(r, n + 1).End().loops| && w in Upto(r, n + 1).End().loops[i].settled
  {
    var upto := Upto(r, n + 1);
    assert Last(upto.es) == r.es[n] && upto.Before() == Upto(r, n);
    SizesStay(upto);
    SizesStay(Upto(r, n));
    if r.es[n].Start? {
      StartBuffers(Upto(r, n).End(), r.es[n]);
    } else {
      var c :| Shows(r, n, c) && EndsAt(r, n, c)
               && w == F.Settled(c.job, r.es[n].finish(c.sock, c.settled), ElapsedUs(c.started, r.es[n].now));
      LookBuffers(r, n, c);
    }
  }

  // ---- And from there to the source ---------------------------------------------------

  lemma {:induction false} DeliveredStays(sh: Shared, rs: seq<F.Settled>, now: int, kept: nat -> bool,
                                          p: Job, o: Outcome, us: nat)
    requires ReportedAs(sh.log, p, o, us)
    ensures ReportedAs(DeliverAll(sh, rs, now, kept).log, p, o, us)
  {
    if rs != [] {
      DeliveredStays(sh, Front(rs), now, kept, p, o, us);
    }
  }

  /** A delivered verdict reaches the source, or, unconfirmed and kept, the list. */
  lemma {:induction false} DeliveredArrives(sh: Shared, rs: seq<F.Settled>, now: int, kept: nat -> bool, w: F.Settled)
    requires w in rs
    ensures var sh' := DeliverAll(sh, rs, now, kept);
            ReportedAs(sh'.log, w.job, w.verdict.Alone(), w.us)
            || (w.verdict.Unconfirmed? && w.job in sh'.unconfirmed)
  {
    if w != Last(rs) {
      assert rs == Front(rs) + [Last(rs)];
      DeliveredArrives(sh, Front(rs), now, kept, w);
    }
  }

  /** And nothing else does. */
  lemma {:induction false} DeliveredIsFrom(sh: Shared, rs: seq<F.Settled>, now: int, kept: nat -> bool,
                                           p: Job, o: Outcome, us: nat)
    requires ReportedAs(DeliverAll(sh, rs, now, kept).log, p, o, us)
    ensures ReportedAs(sh.log, p, o, us)
            || exists w :: w in rs && w.job == p && w.verdict.Alone() == o && w.us == us
  {
    if rs != [] {
      if !ReportedAs(DeliverAll(sh, Front(rs), now, kept).log, p, o, us) {
        assert Last(rs) in rs;
      } else {
        DeliveredIsFrom(sh, Front(rs), now, kept, p, o, us);
      }
    }
  }

  lemma ReportsStay(s: State, e: Event, p: Job, o: Outcome, us: nat)
    requires ReportedAs(s.shared.log, p, o, us)
    ensures ReportedAs(Step(s, e).shared.log, p, o, us)
  {
    if Enabled(s, e) {
      match e
      case ReportSuspect(i, cap) =>
        DeliveredStays(s.shared, [F.Settled(s.loops[i].pc.suspect, Known(Filtered), 0)], s.loops[i].pc.at, _ => true, p, o, us);
      case ReportBatch(i, now, kept, cap) => DeliveredStays(s.shared, s.loops[i].settled, now, kept, p, o, us);
      case ReportLook(i, kept, cap) => DeliveredStays(s.shared, s.loops[i].settled, s.loops[i].pc.after, kept, p, o, us);
      case _ =>
    }
  }

  lemma {:induction false} ReportsLast(r: Run, n: nat, p: Job, o: Outcome, us: nat)
    requires r.Valid() && n <= |r.es| && ReportedAs(Upto(r, n).End().shared.log, p, o, us)
    ensures ReportedAs(r.End().shared.log, p, o, us)
    decreases |r.es|
  {
    if n < |r.es| {
      UptoBefore(r, n);
      ReportsLast(r.Before(), n, p, o, us);
      ReportsStay(r.Before().End(), Last(r.es), p, o, us);
    } else {
      assert Upto(r, n) == r;
    }
  }

  /** What a confirming connect finds is reported. */
  lemma ConfirmedIsReported(r: Run, m: nat, p: Job)
    requires r.Valid() && ConfirmedAt(r, m, p)
    ensures ReportedAs(r.End().shared.log, p, r.es[m].outcome, r.es[m].us)
  {
    var upto := Upto(r, m + 1);
    assert Last(upto.es) == r.es[m] && upto.Before() == Upto(r, m);
    ReportsLast(r, m + 1, p, r.es[m].outcome, r.es[m].us);
  }

  lemma PickKeepsBuffer(s: State, e: Event)
    requires e.Pick? && Enabled(s, e)
    ensures Step(s, e).loops[e.i].settled == s.loops[e.i].settled
  {
  }

  lemma StartKeepsBuffer(s: State, e: Event)
    requires e.Start? && Enabled(s, e)
    ensures s.loops[e.i].settled <= Step(s, e).loops[e.i].settled
  {
  }

  /** Where w, found by loop i, is now: in the loop's buffer, reported, on the list to be
      confirmed, or confirmed. */
  ghost predicate Underway(r: Run, i: nat, w: F.Settled)
    requires r.Valid()
  {
    var s := r.End();
    && i < |s.loops|
    && (|| w in s.loops[i].settled
        || ReportedAs(s.shared.log, w.job, w.verdict.Alone(), w.us)
        || (w.verdict.Unconfirmed? && w.job in s.shared.unconfirmed)
        || (w.verdict.Unconfirmed? && exists m: nat :: ConfirmedAt(r, m, w.job)))
  }

  /** A step of the loop itself keeps its buffer or delivers it. */
  lemma BufferStaysOrGoes(s: State, e: Event, w: F.Settled)
    requires Inv(s) && Enabled(s, e) && !e.Join? && !e.Confirm? && w in s.loops[e.i].settled
    ensures |Step(s, e).loops| == |s.loops|
    ensures var s' := Step(s, e);
            || w in s'.loops[e.i].settled
            || ReportedAs(s'.shared.log, w.job, w.verdict.Alone(), w.us)
            || (w.verdict.Unconfirmed? && w.job in s'.shared.unconfirmed)
  {
    StepKeepsSizes(s, e);
    assert LoopInv(s.loops[e.i], s);
    match e
    case Pick(_, _, _, _) => PickKeepsBuffer(s, e);
    case Start(_, _, _) => StartKeepsBuffer(s, e);
    case ReportBatch(i, now, kept, cap) => DeliveredArrives(s.shared, s.loops[i].settled, now, kept, w);
    case ReportLook(i, kept, cap) => DeliveredArrives(s.shared, s.loops[i].settled, s.loops[i].pc.after, kept, w);
    case _ =>
  }

  lemma ListedStaysOrIsConfirmed(s: State, e: Event, p: Job)
    requires p in s.shared.unconfirmed
    ensures p in Step(s, e).shared.unconfirmed || (Enabled(s, e) && e.Confirm? && s.shared.unconfirmed[0] == p)
  {
    if !e.Confirm? {
      OthersOnlyAdd(s, e);
    }
  }

  lemma UnderwayStays(r: Run, i: nat, w: F.Settled)
    requires r.Valid() && |r.es| > 0 && Underway(r.Before(), i, w)
    ensures Underway(r, i, w)
  {
    var s, e := r.Before().End(), Last(r.es);
    Reachable(r.limit, r.poolPace, r.pace, r.up, Front(r.es));
    StepKeepsSizes(s, e);
    UptoBefore(r, |r.es| - 1);
    if ReportedAs(s.shared.log, w.job, w.verdict.Alone(), w.us) {
      ReportsStay(s, e, w.job, w.verdict.Alone(), w.us);
    } else if w in s.loops[i].settled {
      if Moves(e, i) && Enabled(s, e) {
        BufferStaysOrGoes(s, e, w);
      } else if Enabled(s, e) {
        OthersStay(s, e, i);
      }
    } else if w.job in s.shared.unconfirmed {
      ListedStaysOrIsConfirmed(s, e, w.job);
      assert w.job !in r.End().shared.unconfirmed ==> ConfirmedAt(r, |r.es| - 1, w.job);
    } else {
      var m: nat :| ConfirmedAt(r.Before(), m, w.job);
      ConfirmedStays(r, m, w.job);
    }
  }

  lemma {:induction false} UnderwayLasts(r: Run, n: nat, i: nat, w: F.Settled)
    requires r.Valid() && n <= |r.es| && Underway(Upto(r, n), i, w)
    ensures Underway(r, i, w)
    decreases |r.es|
  {
    if n < |r.es| {
      UptoBefore(r, n);
      UnderwayLasts(r.Before(), n, i, w);
      UnderwayStays(r, i, w);
    } else {
      assert Upto(r, n) == r;
    }
  }

  /** In a run that returned, whatever a loop found of a connect reached the source as it
      was found, verdict and time, whether the connect settled as it started or in flight;
      and one found unconfirmed got one more connect of its own, whose outcome was reported,
      or was reported as open because it could not be kept. */
  lemma FoundIsReported(r: Run, n: nat, i: nat, w: F.Settled)
    requires r.Valid() && r.End().phase == Returned && FoundAt(r, n, i, w)
    ensures ReportedAs(r.End().shared.log, w.job, w.verdict.Alone(), w.us)
            || (w.verdict.Unconfirmed?
                && exists m: nat :: ConfirmedAt(r, m, w.job)
                               && ReportedAs(r.End().shared.log, w.job, r.es[m].outcome, r.es[m].us))
  {
    FoundIsBuffered(r, n, i, w);
    UnderwayLasts(r, n + 1, i, w);
    Reachable(r.limit, r.poolPace, r.pace, r.up, r.es);
    assert LoopInv(r.End().loops[i], r.End());
    if !ReportedAs(r.End().shared.log, w.job, w.verdict.Alone(), w.us) {
      var m: nat :| ConfirmedAt(r, m, w.job);
      ConfirmedIsReported(r, m, w.job);
    }
  }

  /** A connect that settles as it starts is reported with the verdict it settled with. */
  lemma AtOnceIsReported(r: Run, n: nat)
    requires r.Valid() && r.End().phase == Returned && n < |r.es|
    requires Enabled(Upto(r, n).End(), r.es[n]) && r.es[n].Start? && r.es[n].attempt.AtOnce?
    ensures var job, v := Upto(r, n).End().loops[r.es[n].i].pc.job, r.es[n].attempt.verdict;
            if v.Known? then ReportedAs(r.End().shared.log, job, v.outcome, r.es[n].us)
            else ReportedAs(r.End().shared.log, job, Open, r.es[n].us)
                 || exists m: nat :: ConfirmedAt(r, m, job)
                                && ReportedAs(r.End().shared.log, job, r.es[m].outcome, r.es[m].us)
  {
    var job, v := Upto(r, n).End().loops[r.es[n].i].pc.job, r.es[n].attempt.verdict;
    FoundIsReported(r, n, r.es[n].i, F.Settled(job, v, r.es[n].us));
  }

  /** A connect a look found at its end, with a known verdict, is reported with it and with
      the whole microseconds from its start to that look. */
  lemma EndedIsReported(r: Run, n: nat, c: F.Conn)
    requires r.Valid() && r.End().phase == Returned
    requires Shows(r, n, c) && EndsAt(r, n, c) && r.es[n].finish(c.sock, c.settled).Known?
    ensures exists us :: Measures(c.started, r.es[n].now, us)
                         && ReportedAs(r.End().shared.log, c.job, r.es[n].finish(c.sock, c.settled).outcome, us)
  {
    var e := r.es[n];
    var w := F.Settled(c.job, e.finish(c.sock, c.settled), ElapsedUs(c.started, e.now));
    assert FoundAt(r, n, e.i, w);
    FoundIsReported(r, n, e.i, w);
    ElapsedMeasures(c.started, e.now);
  }

  /** And one it found unconfirmed is confirmed by one more connect of its own, or reported
      as open because it could not be kept. */
  lemma UnconfirmedIsConfirmed(r: Run, n: nat, c: F.Conn)
    requires r.Valid() && r.End().phase == Returned
    requires Shows(r, n, c) && EndsAt(r, n, c) && r.es[n].finish(c.sock, c.settled).Unconfirmed?
    ensures ReportedAs(r.End().shared.log, c.job, Open, ElapsedUs(c.started, r.es[n].now))
            || exists m: nat :: ConfirmedAt(r, m, c.job)
                           && ReportedAs(r.End().shared.log, c.job, r.es[m].outcome, r.es[m].us)
  {
    var e := r.es[n];
    var w := F.Settled(c.job, e.finish(c.sock, c.settled), ElapsedUs(c.started, e.now));
    assert FoundAt(r, n, e.i, w);
    FoundIsReported(r, n, e.i, w);
  }

  // ---- Nothing else is reported -----------------------------------------------------------

  /** A step of loop i puts nothing in its buffer but what it finds. */
  lemma BufferGrowsByFinds(r: Run, i: nat, w: F.Settled)
    requires r.Valid() && |r.es| > 0 && i < |r.End().loops| == |r.Before().End().loops|
    requires w in r.End().loops[i].settled && w !in r.Before().End().loops[i].settled
    ensures FoundAt(r, |r.es| - 1, i, w)
  {
    var s, e := r.Before().End(), Last(r.es);
    UptoBefore(r, |r.es| - 1);
    if !Moves(e, i) {
      OthersStay(s, e, i);
    } else if e.Look? && Enabled(s, e) {
      LookFinds(r, w);
    } else if Enabled(s, e) {
      MoveFinds(s, e, w);
    }
  }

  /** Only a start that settles at once puts something in the buffer outside a look. */
  lemma MoveFinds(s: State, e: Event, w: F.Settled)
    requires Enabled(s, e) && !e.Join? && !e.Confirm? && !e.Look?
    requires |Step(s, e).loops| == |s.loops|
    requires w in Step(s, e).loops[e.i].settled && w !in s.loops[e.i].settled
    ensures e.Start? && e.attempt.AtOnce? && w == F.Settled(s.loops[e.i].pc.job, e.attempt.verdict, e.us)
  {
    if e.Pick? {
      PickKeepsBuffer(s, e);
    }
  }

  lemma LookFinds(r: Run, w: F.Settled)
    requires r.Valid() && |r.es| > 0 && Last(r.es).Look? && Enabled(r.Before().End(), Last(r.es))
    requires w in r.End().loops[Last(r.es).i].settled
    ensures FoundAt(r, |r.es| - 1, Last(r.es).i, w)
  {
    var s, e := r.Before().End(), Last(r.es);
    UptoBefore(r, |r.es| - 1);
    var gone := TakenOut(s, e);
    assert r.End().loops[e.i].settled == F.Reports(gone, e.finish, e.now);
    var c := ReportedWasTakenOut(gone, e.finish, e.now, w);
    LooksTakeExactly(r, c);
    assert c in multiset(gone);
    assert c in multiset(Looked(s, e));
    assert Shows(r, |r.es| - 1, c) && EndsAt(r, |r.es| - 1, c);
  }

  lemma {:induction false} BufferedWasFound(r: Run, i: nat, w: F.Settled) returns (n: nat)
    requires r.Valid() && i < |r.End().loops| && w in r.End().loops[i].settled
    ensures FoundAt(r, n, i, w)
    decreases |r.es|
  {
    SizesStay(r);
    if |r.es| > 0 {
      SizesStay(r.Before());
      if w in r.Before().End().loops[i].settled {
        n := BufferedWasFound(r.Before(), i, w);
        FoundStays(r, n, i, w);
      } else {
        n := |r.es| - 1;
        BufferGrowsByFinds(r, i, w);
      }
    }
  }

  /** Some event accounts for a report: a loop found just that, a suspect was given up, or
      a confirming connect found it. */
  ghost predicate AccountedFor(r: Run, p: Job, o: Outcome, us: nat)
    requires r.Valid()
  {
    || (exists n, i, w :: FoundAt(r, n, i, w) && w.job == p && w.verdict.Alone() == o && w.us == us)
    || (o == Filtered && us == 0 && exists n: nat :: WaivedAt(r, n, p))
    || (exists n: nat :: ConfirmedAt(r, n, p) && r.es[n].outcome == o && r.es[n].us == us)
  }

  lemma AccountedStays(r: Run, p: Job, o: Outcome, us: nat)
    requires r.Valid() && |r.es| > 0 && AccountedFor(r.Before(), p, o, us)
    ensures AccountedFor(r, p, o, us)
  {
    if n, i, w :| FoundAt(r.Before(), n, i, w) && w.job == p && w.verdict.Alone() == o && w.us == us {
      FoundStays(r, n, i, w);
    } else if n: nat :| WaivedAt(r.Before(), n, p) && o == Filtered && us == 0 {
      WaivedStays(r, n, p);
    } else {
      var n: nat :| ConfirmedAt(r.Before(), n, p) && r.Before().es[n].outcome == o && r.Before().es[n].us == us;
      ConfirmedStays(r, n, p);
      UptoBefore(r, n);
    }
  }

  /** A report of a loop's buffer is of something the loop found. */
  lemma BufferAccounts(r: Run, i: nat, now: int, kept: nat -> bool, p: Job, o: Outcome, us: nat)
    requires r.Valid() && |r.es| > 0 && i < |r.Before().End().loops|
    requires var s := r.Before().End();
             ReportedAs(DeliverAll(s.shared, s.loops[i].settled, now, kept).log, p, o, us)
             && !ReportedAs(s.shared.log, p, o, us)
    ensures AccountedFor(r, p, o, us)
  {
    var s := r.Before().End();
    DeliveredIsFrom(s.shared, s.loops[i].settled, now, kept, p, o, us);
    var w :| w in s.loops[i].settled && w.job == p && w.verdict.Alone() == o && w.us == us;
    var n := BufferedWasFound(r.Before(), i, w);
    FoundStays(r, n, i, w);
  }

  lemma SuspectAccounts(r: Run, p: Job, o: Outcome, us: nat)
    requires r.Valid() && |r.es| > 0 && Last(r.es).ReportSuspect? && Enabled(r.Before().End(), Last(r.es))
    requires ReportedAs(r.End().shared.log, p, o, us) && !ReportedAs(r.Before().End().shared.log, p, o, us)
    ensures AccountedFor(r, p, o, us)
  {
    var s, i := r.Before().End(), Last(r.es).i;
    UptoBefore(r, |r.es| - 1);
    DeliveredIsFrom(s.shared, [F.Settled(s.loops[i].pc.suspect, Known(Filtered), 0)], s.loops[i].pc.at, _ => true, p, o, us);
    assert WaivedAt(r, |r.es| - 1, p);
  }

  lemma NewReportIsAccountedFor(r: Run, p: Job, o: Outcome, us: nat)
    requires r.Valid() && |r.es| > 0
    requires ReportedAs(r.End().shared.log, p, o, us) && !ReportedAs(r.Before().End().shared.log, p, o, us)
    ensures AccountedFor(r, p, o, us)
  {
    var s, e := r.Before().End(), Last(r.es);
    UptoBefore(r, |r.es| - 1);
    match e
    case ReportSuspect(_, _) => SuspectAccounts(r, p, o, us);
    case ReportBatch(i, now, kept, cap) => BufferAccounts(r, i, now, kept, p, o, us);
    case ReportLook(i, kept, cap) => BufferAccounts(r, i, s.loops[i].pc.after, kept, p, o, us);
    case Confirm(_, _) => assert ConfirmedAt(r, |r.es| - 1, p);
    case _ =>
  }

  /** In every run, whatever the source is told of a job is what some loop found of it, what
      a confirming connect found, or that a suspect was given up. */
  lemma {:induction false} ReportedIsAccountedFor(r: Run, p: Job, o: Outcome, us: nat)
    requires r.Valid() && ReportedAs(r.End().shared.log, p, o, us)
    ensures AccountedFor(r, p, o, us)
    decreases |r.es|
  {
    if |r.es| > 0 {
      if ReportedAs(r.Before().End().shared.log, p, o, us) {
        ReportedIsAccountedFor(r.Before(), p, o, us);
        AccountedStays(r, p, o, us);
      } else {
        NewReportIsAccountedFor(r, p, o, us);
      }
    }
  }

  // ---- When connects started -------------------------------------------------------------

  /** Event n puts c in flight, from the clock reading loop i picked its job at. */
  ghost predicate StartedAt(r: Run, n: nat, i: nat, c: F.Conn)
    requires r.Valid()
  {
    && n < |r.es| && Enabled(Upto(r, n).End(), r.es[n])
    && r.es[n].Start? && r.es[n].i == i && r.es[n].attempt == Pending(c.sock)
    && Upto(r, n).End().loops[i].pc == Launch(c.job, c.started)
  }

  /** Event n picks this job at this reading. */
  ghost predicate PickedAt(r: Run, n: nat, i: nat, job: Job, at: int)
    requires r.Valid()
  {
    && n < |r.es| && Enabled(Upto(r, n).End(), r.es[n])
    && r.es[n].Pick? && r.es[n].i == i && r.es[n].now == at
    && i < |Upto(r, n + 1).End().loops| && Upto(r, n + 1).End().loops[i].pc == Launch(job, at)
  }

  lemma NewConnOnly(s: State, e: Event, c: F.Conn)
    requires Enabled(s, e) && !e.Join? && !e.Confirm? && !e.Look?
    requires c in Step(s, e).loops[e.i].flight && c !in s.loops[e.i].flight
    ensures e.Start? && e.attempt == Pending(c.sock) && s.loops[e.i].pc == Launch(c.job, c.started) && !c.settled
  {
    if e.Pick? {
      MoveLeavesTheTable(s, e);
    }
  }

  /** What a look leaves in the table was there before it. */
  lemma LookLeaves(s: State, e: Event, c: F.Conn)
    requires e.Look? && Enabled(s, e) && c in Step(s, e).loops[e.i].flight
    requires forall d :: d in s.loops[e.i].flight ==> !d.settled
    ensures c in s.loops[e.i].flight && !c.settled
  {
    var l := s.loops[e.i];
    var marked, cut := Mark(l.flight, e.bits), Cut(l.pc.waitMs, s.shared.lastCuttable);
    WalkTakesFrom(marked, cut, e.now, c);
    F.WalkSplits(marked, cut, e.now);
    var k :| 0 <= k < |marked| && marked[k] == c;
    assert l.flight[k] in l.flight && c == l.flight[k].(settled := c.settled);
  }

  ghost predicate Unsettled(conns: seq<F.Conn>) {
    forall c :: c in conns ==> !c.settled
  }

  lemma {:induction false} TablesAreUnsettled(r: Run, i: nat)
    requires r.Valid() && i < |r.End().loops|
    ensures Unsettled(r.End().loops[i].flight)
    decreases |r.es|
  {
    if |r.es| > 0 {
      SizesStay(r);
      SizesStay(r.Before());
      TablesAreUnsettled(r.Before(), i);
      forall c | c in r.End().loops[i].flight ensures !c.settled {
        NewOrOld(r, i, c);
      }
    }
  }

  /** A connect in flight after an event was there before or is started by it. */
  lemma NewOrOld(r: Run, i: nat, c: F.Conn)
    requires r.Valid() && |r.es| > 0 && i < |r.Before().End().loops| == |r.End().loops|
    requires Unsettled(r.Before().End().loops[i].flight) && c in r.End().loops[i].flight
    ensures !c.settled && (c in r.Before().End().loops[i].flight || StartedAt(r, |r.es| - 1, i, c))
  {
    var s, e := r.Before().End(), Last(r.es);
    UptoBefore(r, |r.es| - 1);
    if c !in s.loops[i].flight {
      if !Moves(e, i) && Enabled(s, e) {
        OthersStay(s, e, i);
      } else if e.Look? {
        LookLeaves(s, e, c);
      } else if Enabled(s, e) {
        NewConnOnly(s, e, c);
      }
    }
  }

  lemma PickedIsPicked(s: State, e: Event)
    requires Enabled(s, e) && !e.Join? && !e.Confirm? && Step(s, e).loops[e.i].pc.Launch?
    ensures e.Pick? && Step(s, e).loops[e.i].pc.at == e.now
  {
    if e.Start? {
      StartLeavesLaunch(s, e);
    } else if e.Pick? {
      PickReadsClock(s, e);
    }
  }

  lemma StartLeavesLaunch(s: State, e: Event)
    requires e.Start? && Enabled(s, e)
    ensures !Step(s, e).loops[e.i].pc.Launch?
  {
  }

  lemma PickReadsClock(s: State, e: Event)
    requires e.Pick? && Enabled(s, e) && Step(s, e).loops[e.i].pc.Launch?
    ensures Step(s, e).loops[e.i].pc.at == e.now
  {
  }

  lemma {:induction false} LaunchWasPicked(r: Run, i: nat) returns (n: nat)
    requires r.Valid() && i < |r.End().loops| && r.End().loops[i].pc.Launch?
    ensures PickedAt(r, n, i, r.End().loops[i].pc.job, r.End().loops[i].pc.at)
    decreases |r.es|
  {
    SizesStay(r);
    if |r.es| > 0 {
      SizesStay(r.Before());
      var s, e := r.Before().End(), Last(r.es);
      UptoBefore(r, |r.es| - 1);
      if Moves(e, i) && Enabled(s, e) {
        PickedIsPicked(s, e);
        n := |r.es| - 1;
        assert Upto(r, n + 1) == r;
      } else {
        if Enabled(s, e) {
          OthersStay(s, e, i);
        }
        n := LaunchWasPicked(r.Before(), i);
        PickedStays(r, n, i, r.End().loops[i].pc.job, r.End().loops[i].pc.at);
      }
    }
  }

  lemma PickedStays(r: Run, n: nat, i: nat, job: Job, at: int)
    requires r.Valid() && |r.es| > 0 && PickedAt(r.Before(), n, i, job, at)
    ensures PickedAt(r, n, i, job, at)
  {
    UptoBefore(r, n);
    assert Front(r.es)[..n + 1] == r.es[..n + 1];
    assert Upto(r.Before(), n + 1) == Upto(r, n + 1);
  }

  /** In every run each connect in flight is one an event started, and its start is the clock
      reading taken when its job was picked. */
  lemma {:induction false} InFlightWasStarted(r: Run, i: nat, c: F.Conn) returns (n: nat, m: nat)
    requires r.Valid() && i < |r.End().loops| && c in r.End().loops[i].flight
    ensures StartedAt(r, n, i, c) && PickedAt(r, m, i, c.job, c.started)
    decreases |r.es|
  {
    SizesStay(r);
    if |r.es| > 0 {
      SizesStay(r.Before());
      TablesAreUnsettled(r.Before(), i);
      NewOrOld(r, i, c);
      if c in r.Before().End().loops[i].flight {
        n, m := InFlightWasStarted(r.Before(), i, c);
        UptoBefore(r, n);
        PickedStays(r, m, i, c.job, c.started);
      } else {
        n := |r.es| - 1;
        UptoBefore(r, n);
        m := LaunchWasPicked(r.Before(), i);
        PickedStays(r, m, i, c.job, c.started);
      }
    }
  }
}
