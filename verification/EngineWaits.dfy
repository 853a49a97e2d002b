/** When a connect leaves the table of a loop, over whole runs. */
module EngineWaits {
  import opened Basics
  import opened ConnectTypes
  import opened Protocol
  import opened Engine
  import opened EngineSafety
  import opened EngineContract
  import F = Flight

  // ---- Deadlines ------------------------------------------------------------------

  ghost predicate OwnDeadline(c: F.Conn) {
    c.deadline == c.started + c.job.target.timeoutMs * NS_PER_MS
  }

  ghost predicate OwnDeadlines(conns: seq<F.Conn>) {
    forall c :: c in conns ==> OwnDeadline(c)
  }

  lemma MarkKeepsDeadlines(conns: seq<F.Conn>, bits: nat -> bool)
    requires OwnDeadlines(conns)
    ensures OwnDeadlines(Mark(conns, bits))
  {
    var marked := Mark(conns, bits);
    forall c | c in marked ensures OwnDeadline(c) {
      var k :| 0 <= k < |marked| && marked[k] == c;
      assert conns[k] in conns;
    }
  }

  /** What the walk leaves or takes was in the table. */
  lemma WalkTakesFrom(conns: seq<F.Conn>, cut: Cut, now: int, c: F.Conn)
    ensures var (kept, gone) := F.Walk(conns, |conns|, cut, now);
            c in kept || c in gone <==> c in conns
  {
    F.WalkSplits(conns, cut, now);
    var (kept, gone) := F.Walk(conns, |conns|, cut, now);
    assert c in multiset(conns) <==> c in multiset(kept) || c in multiset(gone);
  }

  lemma LookKeepsDeadlines(s: State, e: Event)
    requires e.Look? && Enabled(s, e) && OwnDeadlines(s.loops[e.i].flight)
    ensures OwnDeadlines(Step(s, e).loops[e.i].flight)
  {
    var l := s.loops[e.i];
    MarkKeepsDeadlines(l.flight, e.bits);
    var marked, cut := Mark(l.flight, e.bits), Cut(l.pc.waitMs, s.shared.lastCuttable);
    forall c | c in F.Walk(marked, |marked|, cut, e.now).0 ensures OwnDeadline(c) {
      WalkTakesFrom(marked, cut, e.now, c);
    }
  }

  /** Only a look at a loop's own table takes anything out of it: any other step leaves
      every connect where it is, and adds at most one behind them. */
  lemma OthersLeaveTheTable(s: State, e: Event, i: nat)
    requires i < |s.loops| && !(e.Look? && Enabled(s, e) && e.i == i)
    ensures |Step(s, e).loops| == |s.loops|
    ensures var before, after := s.loops[i].flight, Step(s, e).loops[i].flight;
            after == before || (after != [] && Front(after) == before && OwnDeadline(Last(after)))
  {
    StepKeepsSizes(s, e);
    if Moves(e, i) && Enabled(s, e) {
      MoveLeavesTheTable(s, e);
    } else if Enabled(s, e) {
      OthersStay(s, e, i);
    }
  }

  lemma MoveLeavesTheTable(s: State, e: Event)
    requires Enabled(s, e) && !e.Join? && !e.Confirm? && !e.Look?
    ensures var before, after := s.loops[e.i].flight, Step(s, e).loops[e.i].flight;
            after == before || (after != [] && Front(after) == before && OwnDeadline(Last(after)))
  {
    if e.Start? && e.attempt.Pending? {
      var l := s.loops[e.i];
      var c := F.NewConn(l.pc.job, e.attempt.sock, l.pc.at);
      assert Front(l.flight + [c]) == l.flight;
    }
  }

  lemma StepKeepsDeadlines(s: State, e: Event, i: nat)
    requires i < |s.loops| && OwnDeadlines(s.loops[i].flight)
    ensures |Step(s, e).loops| == |s.loops| && OwnDeadlines(Step(s, e).loops[i].flight)
  {
    StepKeepsSizes(s, e);
    if e.Look? && Enabled(s, e) && e.i == i {
      LookKeepsDeadlines(s, e);
    } else {
      OthersLeaveTheTable(s, e, i);
      var after := Step(s, e).loops[i].flight;
      if after != [] {
        assert after == Front(after) + [Last(after)];
      }
    }
  }

  /** In every reachable state each connect in flight has its own start plus its own
      timeout as its deadline. */
  lemma {:induction false} DeadlinesAreOwn(r: Run, i: nat)
    requires r.Valid() && i < |r.End().loops|
    ensures OwnDeadlines(r.End().loops[i].flight)
    decreases |r.es|
  {
    if |r.es| > 0 {
      SizesStay(r);
      SizesStay(r.Before());
      DeadlinesAreOwn(r.Before(), i);
      StepKeepsDeadlines(r.Before().End(), Last(r.es), i);
    }
  }

  // ---- Who leaves -------------------------------------------------------------------

  /** Time for c to leave, seen at `now`: it settled, its own wait since its start is
      over, or it may be cut and the wait learned, never below its floor, has passed since
      both its start and the last cuttable answer. */
  predicate Ends(c: F.Conn, waitMs: Option<nat>, lastAnswer: int, now: int) {
    || c.settled
    || now - c.started >= c.job.target.timeoutMs * NS_PER_MS
    || (&& c.job.target.cutFloorMs.Some? && waitMs.Some?
        && now - Max(c.started, lastAnswer) >= Max(waitMs.value, c.job.target.cutFloorMs.value) * NS_PER_MS)
  }

  lemma GoneMeansEnds(c: F.Conn, cut: Cut, now: int)
    requires OwnDeadline(c)
    ensures c.Gone(cut, now) <==> Ends(c, cut.waitMs, cut.lastAnswer, now)
  {
    LeavesOnlyInTime(c, cut, now);
  }

  lemma WalkTakesExactly(conns: seq<F.Conn>, cut: Cut, now: int, c: F.Conn)
    requires OwnDeadlines(conns)
    ensures var (kept, gone) := F.Walk(conns, |conns|, cut, now);
            if Ends(c, cut.waitMs, cut.lastAnswer, now)
            then multiset(kept)[c] == 0 && multiset(gone)[c] == multiset(conns)[c]
            else multiset(kept)[c] == multiset(conns)[c] && multiset(gone)[c] == 0
  {
    F.WalkSplits(conns, cut, now);
    var (kept, gone) := F.Walk(conns, |conns|, cut, now);
    assert multiset(conns)[c] == multiset(kept)[c] + multiset(gone)[c];
    if c in conns {
      GoneMeansEnds(c, cut, now);
    }
  }

  /** What the sockets showed of the table looked at. */
  function Looked(s: State, e: Event): seq<F.Conn>
    requires e.Look? && Enabled(s, e)
  {
    Mark(s.loops[e.i].flight, e.bits)
  }

  /** The table, each connect with what the wait found of its socket. */
  ghost predicate ShownAs(shown: seq<F.Conn>, conns: seq<F.Conn>, bits: nat -> bool) {
    && |shown| == |conns|
    && forall k :: 0 <= k < |conns| ==> shown[k] == conns[k].(settled := bits(k))
  }

  /** What the look took out of it. */
  function TakenOut(s: State, e: Event): seq<F.Conn>
    requires e.Look? && Enabled(s, e)
  {
    F.Walk(Looked(s, e), |Looked(s, e)|, Cut(s.loops[e.i].pc.waitMs, s.shared.lastCuttable), e.now).1
  }

  /** In every run, a look takes exactly the connects out of the table whose time it is,
      keeps all others, each as often as it was there, and puts just the verdicts of those
      taken out up for report. */
  lemma LooksTakeExactly(r: Run, c: F.Conn)
    requires r.Valid() && |r.es| > 0 && Last(r.es).Look? && Enabled(r.Before().End(), Last(r.es))
    ensures var s, e := r.Before().End(), Last(r.es);
            var l, after := s.loops[e.i], r.End().loops[e.i];
            && after.settled == F.Reports(TakenOut(s, e), e.finish, e.now)
            && ShownAs(Looked(s, e), l.flight, e.bits)
            && (if Ends(c, l.pc.waitMs, s.shared.lastCuttable, e.now)
                then multiset(after.flight)[c] == 0
                     && multiset(TakenOut(s, e))[c] == multiset(Looked(s, e))[c]
                else multiset(after.flight)[c] == multiset(Looked(s, e))[c]
                     && multiset(TakenOut(s, e))[c] == 0)
  {
    var s, e := r.Before().End(), Last(r.es);
    DeadlinesAreOwn(r.Before(), e.i);
    MarkKeepsDeadlines(s.loops[e.i].flight, e.bits);
    WalkTakesExactly(Looked(s, e), Cut(s.loops[e.i].pc.waitMs, s.shared.lastCuttable), e.now, c);
  }

  /** And no step of any run but a look takes anything out of a table. */
  lemma OnlyLooksTakeOut(r: Run, i: nat)
    requires r.Valid() && |r.es| > 0 && i < |r.Before().End().loops|
    requires !(Last(r.es).Look? && Enabled(r.Before().End(), Last(r.es)) && Last(r.es).i == i)
    ensures i < |r.End().loops| && r.Before().End().loops[i].flight <= r.End().loops[i].flight
  {
    OthersLeaveTheTable(r.Before().End(), Last(r.es), i);
  }

  // ---- Looks of a run -----------------------------------------------------------------

  /** The run up to its event n. */
  function Upto(r: Run, n: nat): Run
    requires n <= |r.es|
  {
    r.(es := r.es[..n])
  }

  /** Event n of the run is a look at a table that showed c. */
  ghost predicate Shows(r: Run, n: nat, c: F.Conn)
    requires r.Valid()
  {
    && n < |r.es| && r.es[n].Look? && Enabled(Upto(r, n).End(), r.es[n])
    && c in Looked(Upto(r, n).End(), r.es[n])
  }

  ghost predicate EndsAt(r: Run, n: nat, c: F.Conn)
    requires r.Valid() && Shows(r, n, c)
  {
    var s, e := Upto(r, n).End(), r.es[n];
    Ends(c, s.loops[e.i].pc.waitMs, s.shared.lastCuttable, e.now)
  }
}
