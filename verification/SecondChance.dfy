/** Which ports of the first pass get a second try, exactly: those that stayed silent for a
    learned wait, so that a single lost packet cannot hide an open port, or for a blind one
    that was cut short or found the host near by. */
module SecondChance {
  import opened Basics
  import opened ConnectTypes
  import opened Protocol
  import opened PortScan
  import opened ScanPasses
  import opened ScanInvariants
  import opened ScanLearns
  import W = WholeScan
  import EC = EngineContract
  import EV = EngineVerdicts
  import EW = EngineWaits
  import F = Flight

  /** A silent try reported after `us`, and after these answers, earns its port another. */
  predicate Earns(p: Job, us: nat, answers: seq<nat>) {
    p.deferrable || (p.blind && (CutShort(p, us) || NearBy(answers)))
  }

  predicate EarnsLast(log: Log) {
    log.Then? && log.call.DoneCall? && log.call.outcome == Filtered
    && Earns(log.call.job, log.call.us, Answers(log.before))
  }

  /** The ports of the tries that did. */
  function EarningPorts(log: Log): seq<nat> {
    if log.Nothing? then []
    else if EarnsLast(log) then EarningPorts(log.before) + [Port(log.call.job)]
    else EarningPorts(log.before)
  }

  /** Some silent report of p earned its port another try. */
  predicate Earned(log: Log, p: Job) {
    log.Then? && ((EarnsLast(log) && log.call.job == p) || Earned(log.before, p))
  }

  /** Port q was deferred for every silent try that earned it another, and for no other. */
  ghost predicate ChanceInv(s0: ScanState, log: Log, q: nat) {
    Count(DeferredPorts(Replay(s0, log).retries), q) == Count(EarningPorts(log), q)
  }

  lemma DoneDefers(t: ScanState, p: Job, o: Outcome, us: nat, answers: seq<nat>)
    requires t.pass == First && (|t.retries| < t.room || (!p.deferrable && !p.blind))
    requires t.LearnedWait().Some? <==> NearBy(answers)
    ensures t.Done(p, o, us).retries ==
            if o == Filtered && Earns(p, us, answers) then t.retries + [DeferredOf(p)] else t.retries
  {
  }

  /** What a report of the first pass defers. */
  lemma ReportDefers(s0: ScanState, log: Log)
    requires Outstanding(log) && s0.pass == First && Same(s0, s0)
    requires s0.est == After([]) && s0.fastest == NO_ANSWER_YET
    requires s0.fixedMs.None? ==> |s0.Remaining()| <= s0.room
    requires FirstInv(s0, log.before)
    ensures Replay(s0, log).retries ==
            Replay(s0, log.before).retries + if EarnsLast(log) then [DeferredOf(log.call.job)] else []
  {
    var t := Replay(s0, log.before);
    ReplayKeepsSame(s0, log.before);
    LearnedSoFar(s0, log.before);
    HandedPortsAre(log.before);
    var DoneCall(p, o, us) := log.call;
    assert FirstJobOk(s0, p);
    DoneDefers(t, p, o, us, Answers(log.before));
  }

  lemma ChanceStep(s0: ScanState, log: Log, q: nat)
    requires log.Then? && log.call.DoneCall? && ChanceInv(s0, log.before, q)
    requires Replay(s0, log).retries ==
             Replay(s0, log.before).retries + if EarnsLast(log) then [DeferredOf(log.call.job)] else []
    ensures ChanceInv(s0, log, q)
  {
    if EarnsLast(log) {
      var p, ds := log.call.job, Replay(s0, log.before).retries;
      CountAppend(EarningPorts(log.before), Port(p), q);
      CountAppend(DeferredPorts(ds), Port(p), q);
      assert DeferredPorts(ds + [DeferredOf(p)]) == DeferredPorts(ds) + [Port(p)];
    } else {
      assert Replay(s0, log).retries == Replay(s0, log.before).retries;
    }
  }

  lemma ChanceNext(s0: ScanState, log: Log, q: nat)
    requires log.Then? && log.call.NextCall? && s0.pass == First && Same(s0, s0)
    requires ChanceInv(s0, log.before, q)
    ensures ChanceInv(s0, log, q)
  {
    ReplayKeepsSame(s0, log.before);
    NextFirstIsHead(Replay(s0, log.before));
  }

  lemma {:induction false} ChancesKept(s0: ScanState, log: Log, q: nat)
    requires Legal(log) && Follows(s0, log) && Same(s0, s0)
    requires FirstInv(s0, Nothing) && s0.pass == First && s0.retries == []
    requires s0.est == After([]) && s0.fastest == NO_ANSWER_YET
    requires s0.fixedMs.None? ==> |s0.Remaining()| <= s0.room
    ensures ChanceInv(s0, log, q)
  {
    if log.Then? {
      ChancesKept(s0, log.before, q);
      FirstPass(s0, log.before);
      match log.call
      case NextCall(_, _) => ChanceNext(s0, log, q);
      case DoneCall(_, _, _) =>
        ReportedWasHanded(log);
        ReportDefers(s0, log);
        ChanceStep(s0, log, q);
    }
  }

  lemma {:induction false} ReportedIsIn(log: Log, p: Job, o: Outcome, us: nat)
    requires ReportedAs(log, p, o, us)
    ensures p in Reported(log)
    ensures o == Filtered && (p.deferrable || (p.blind && CutShort(p, us))) ==> Earned(log, p)
  {
    if log.call != DoneCall(p, o, us) {
      ReportedIsIn(log.before, p, o, us);
    }
  }

  lemma {:induction false} EarnedIsIn(log: Log, p: Job)
    requires Earned(log, p)
    ensures p in Reported(log) && Port(p) in EarningPorts(log) && (p.deferrable || p.blind)
  {
    if !(EarnsLast(log) && log.call.job == p) {
      EarnedIsIn(log.before, p);
    }
  }

  lemma {:induction false} EarnerOf(log: Log, q: nat) returns (p: Job)
    requires q in EarningPorts(log)
    ensures Earned(log, p) && Port(p) == q
  {
    if EarnsLast(log) && Port(log.call.job) == q {
      p := log.call.job;
    } else {
      p := EarnerOf(log.before, q);
    }
  }

  /** A port reported silent was reported so for one of the jobs handed out. */
  lemma {:induction false} SilentJobOf(log: Log, q: nat) returns (p: Job, us: nat)
    requires q in PortsWith(log, Filtered)
    ensures ReportedAs(log, p, Filtered, us) && Port(p) == q
  {
    if log.call.DoneCall? && log.call.outcome == Filtered && Port(log.call.job) == q {
      p, us := log.call.job, log.call.us;
    } else {
      p, us := SilentJobOf(log.before, q);
    }
  }

  lemma ReportedIsHanded(s: W.Scan, p: Job)
    requires s.Valid() && p in Reported(s.first)
    ensures p in Handed(s.first)
  {
    assert p in multiset(Reported(s.first));
    assert p in multiset(Handed(s.first));
  }

  lemma ScanChances(s: W.Scan, q: nat)
    requires s.Valid()
    ensures ChanceInv(s.s0, s.first, q)
  {
    W.FirstStarts(s);
    ChancesKept(s.s0, s.first, q);
  }

  lemma SecondTries(s: W.Scan, q: nat)
    requires s.Valid() && s.Uncancelled()
    ensures Count(HandedPorts(s.second), q) == Count(EarningPorts(s.first), q) <= 1
  {
    ScanChances(s, q);
    W.EveryPortIsTried(s, q);
    W.PortBooks(s, q);
  }

  /** In an uncancelled scan a port gets a second try exactly if its first stayed silent and
      earned it one, and then just one: it had a learned wait, or was blind and cut short,
      or blind on a host that was near by when it was reported. */
  lemma SecondTriesExactly(s: W.Scan, p: Job)
    requires s.Valid() && s.Uncancelled() && p in Handed(s.first)
    ensures Count(HandedPorts(s.second), Port(p)) == if Earned(s.first, p) then 1 else 0
  {
    SecondTries(s, Port(p));
    CountIn(EarningPorts(s.first), Port(p));
    if Earned(s.first, p) {
      EarnedIsIn(s.first, p);
    } else if Port(p) in EarningPorts(s.first) {
      var j := EarnerOf(s.first, Port(p));
      EarnedIsIn(s.first, j);
      ReportedIsHanded(s, j);
      W.HandedOnce(s, j, p);
    }
  }

  /** In particular every port that stayed silent for a learned wait, or for a blind one cut
      short, gets exactly one more try. */
  lemma SilentTriesGetAnother(s: W.Scan, p: Job, us: nat)
    requires s.Valid() && s.Uncancelled()
    requires ReportedAs(s.first, p, Filtered, us) && (p.deferrable || (p.blind && CutShort(p, us)))
    ensures Count(HandedPorts(s.second), Port(p)) == 1
  {
    ReportedIsIn(s.first, p, Filtered, us);
    ReportedIsHanded(s, p);
    SecondTriesExactly(s, p);
  }

  /** So one lost packet cannot hide a port first tried with a learned
      wait. */
  lemma LearnedTriesGetAnother(s: W.Scan, p: Job)
    requires s.Valid() && s.Uncancelled() && p in Handed(s.first)
    requires p.deferrable && Port(p) in PortsWith(s.first, Filtered)
    ensures Count(HandedPorts(s.second), Port(p)) == 1
  {
    var j, us := SilentJobOf(s.first, Port(p));
    ReportedIsIn(s.first, j, Filtered, us);
    ReportedIsHanded(s, j);
    W.HandedOnce(s, j, p);
    SilentTriesGetAnother(s, j, us);
  }

  /** A first try with the full wait, neither learned nor blind, is the only one of its
      port. */
  lemma FullTriesGetNone(s: W.Scan, p: Job)
    requires s.Valid() && s.Uncancelled() && p in Handed(s.first)
    requires !p.deferrable && !p.blind
    ensures Count(HandedPorts(s.second), Port(p)) == 0
  {
    SecondTriesExactly(s, p);
    if Earned(s.first, p) {
      EarnedIsIn(s.first, p);
    }
  }

  // ---- The third pass -----------------------------------------------------------------

  lemma {:induction false} VerdictsAddUp(log: Log)
    ensures |PortsWith(log, Open)| + |PortsWith(log, Refused)| + |PortsWith(log, Filtered)| == |Reported(log)|
  {
    if log.Then? {
      VerdictsAddUp(log.before);
    }
  }

  /** A scan goes on to a third pass exactly if nobody asked it to stop by then, its second
      left a port silent and was answered at least 1000 times, and for at least a tenth of the
      ports the first one deferred, which are those it tried unless it was cancelled. */
  lemma ThirdPassExactly(s: W.Scan)
    requires s.Valid()
    ensures var answered := |PortsWith(s.second, Open)| + |PortsWith(s.second, Refused)|;
            s.HasThird() <==>
            && !s.stop && PortsWith(s.second, Filtered) != []
            && answered >= 1000 && 10 * answered >= |s.AfterFirst().retries|
    ensures s.Uncancelled() ==> |s.AfterFirst().retries| == |HandedPorts(s.second)|
  {
    W.SecondKeeps(s);
    VerdictsAddUp(s.second);
    HandedPortsAre(s.second);
  }

  // ---- On top of the engine ------------------------------------------------------------

  /** An uncancelled scan driven by the engine: whenever a loop finds a blind try out of
      time, or settled, before its own wait is over, and finds it silent, the port gets
      exactly one more try. */
  lemma EarlyBlindIsDeferred(s: W.Scan, r1: EC.Run, r2: EC.Run, r3: EC.Run, n: nat, c: F.Conn)
    requires W.DrivenBy(s, r1, r2, r3) && s.Uncancelled()
    requires EW.Shows(r1, n, c) && EW.EndsAt(r1, n, c) && c.job.blind
    requires r1.es[n].now < c.started + c.job.target.timeoutMs * NS_PER_MS
    requires r1.es[n].finish(c.sock, c.settled) == Known(Filtered)
    ensures Count(HandedPorts(s.second), Port(c.job)) == 1
  {
    W.DrivenIsValid(s, r1, r2, r3);
    EV.EndedIsReported(r1, n, c);
    var us :| Measures(c.started, r1.es[n].now, us) && ReportedAs(s.first, c.job, Filtered, us);
    ElapsedMeasures(c.started, r1.es[n].now);
    ReportedIsIn(s.first, c.job, Filtered, us);
    ReportedIsHanded(s, c.job);
    BlindWaitsInFull(s, c.job);
    EarlyMeansBelowTheWait(c.started, r1.es[n].now, c.job.target.timeoutMs);
    SilentTriesGetAnother(s, c.job, us);
  }

  lemma BlindWaitsInFull(s: W.Scan, p: Job)
    requires s.Valid() && p in Handed(s.first) && p.blind
    ensures p.target.timeoutMs == PORT_TIMEOUT_MS
  {
    W.FirstKeeps(s);
    assert FirstJobOk(s.s0, p);
  }
}
