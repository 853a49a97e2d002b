/** What a port scan learns over a whole pass: its estimator and its quickest answer are told
    from the answers alone, and so is every wait it asks for. */
module ScanLearns {
  import opened Basics
  import opened ConnectTypes
  import opened Protocol
  import opened PortScan
  import opened ScanPasses
  import opened ScanInvariants
  import R = Rtt
  import W = WholeScan

  /** The round trips of the answers so far, open or refused, in order. */
  function Answers(log: Log): seq<nat> {
    if log.Nothing? then []
    else if log.call.DoneCall? && log.call.outcome != Filtered then Answers(log.before) + [log.call.us]
    else Answers(log.before)
  }

  function Quickest(start: nat, answers: seq<nat>): nat {
    if answers == [] then start else Min(Quickest(start, Front(answers)), Last(answers))
  }

  lemma {:induction false} QuickestIsLeast(start: nat, answers: seq<nat>)
    ensures Quickest(start, answers) <= start
    ensures forall k :: 0 <= k < |answers| ==> Quickest(start, answers) <= answers[k]
    ensures Quickest(start, answers) == start || Quickest(start, answers) in answers
  {
    if answers != [] {
      QuickestIsLeast(start, Front(answers));
    }
  }

  lemma NextLearnsNothing(t: ScanState, stop: bool)
    ensures t.Next(stop).0.est == t.est && t.Next(stop).0.fastest == t.fastest
  {
    NextFirstIsHead(t);
  }

  lemma DoneLearns(t: ScanState, p: Job, o: Outcome, us: nat)
    ensures t.Done(p, o, us).est == if o == Filtered then t.est else t.est.Observe(us)
    ensures t.Done(p, o, us).fastest == if o == Filtered then t.fastest else Min(t.fastest, us)
  {
  }

  /** At every moment of any pass the estimator has observed just the answers of the pass, in
      order, and the quickest answer is the least of them and of what was there before. */
  lemma {:induction false} AnswersAreLearned(s0: ScanState, log: Log)
    ensures Replay(s0, log).est == s0.est.ObserveAll(Answers(log))
    ensures Replay(s0, log).fastest == Quickest(s0.fastest, Answers(log))
  {
    if log.Then? {
      AnswersAreLearned(s0, log.before);
      var t := Replay(s0, log.before);
      match log.call
      case NextCall(stop, _) => NextLearnsNothing(t, stop);
      case DoneCall(p, o, us) =>
        DoneLearns(t, p, o, us);
        if o != Filtered {
          assert Front(Answers(log)) == Answers(log.before);
        }
    }
  }

  // ---- What the answers say ------------------------------------------------------------

  /** Some answer counts as one: the source takes the greatest 64-bit number for none. */
  predicate Heard(answers: seq<nat>) {
    exists k :: 0 <= k < |answers| && answers[k] < NO_ANSWER_YET
  }

  /** The estimator of a fresh scan after these answers. */
  function After(answers: seq<nat>): R.Estimate {
    R.Init(FLOOR_MS, HEADROOM_MS, PORT_TIMEOUT_MS).ObserveAll(answers)
  }

  /** The host is near by: some answer took at most the floor, and two waits learned from
      the answers fit in a whole one. */
  predicate NearBy(answers: seq<nat>) {
    && (exists k :: 0 <= k < |answers| && answers[k] <= FLOOR_MS * US_PER_MS)
    && 2 * After(answers).TimeoutMs() <= PORT_TIMEOUT_MS
  }

  lemma FreshLearnedWait(s: ScanState, answers: seq<nat>)
    requires s.est == After(answers) && s.fastest == Quickest(NO_ANSWER_YET, answers)
    ensures s.LearnedWait() == if NearBy(answers) then Some(After(answers).TimeoutMs()) else None
    ensures s.fastest == NO_ANSWER_YET <==> !Heard(answers)
  {
    QuickestIsLeast(NO_ANSWER_YET, answers);
  }

  lemma LearnedSoFar(s0: ScanState, log: Log)
    requires s0.est == After([]) && s0.fastest == NO_ANSWER_YET
    ensures Replay(s0, log).est == After(Answers(log))
    ensures Replay(s0, log).LearnedWait() ==
            if NearBy(Answers(log)) then Some(After(Answers(log)).TimeoutMs()) else None
    ensures Replay(s0, log).fastest == NO_ANSWER_YET <==> !Heard(Answers(log))
  {
    AnswersAreLearned(s0, log);
    FreshLearnedWait(Replay(s0, log), Answers(log));
  }

  /** The first try after these answers: blind before the first one, with a learned wait on a
      host near by, with the whole wait otherwise. */
  predicate FirstTryAfter(p: Job, fixedMs: Option<nat>, answers: seq<nat>) {
    var t := p.target;
    if fixedMs.Some? then t.timeoutMs == fixedMs.value && t.cutFloorMs == None && !p.deferrable && !p.blind
    else if !Heard(answers) then t.timeoutMs == PORT_TIMEOUT_MS && t.cutFloorMs == Some(FLOOR_MS) && !p.deferrable && p.blind
    else if NearBy(answers) then
      t.timeoutMs == After(answers).TimeoutMs() && t.cutFloorMs == None && p.deferrable && !p.blind
    else t.timeoutMs == PORT_TIMEOUT_MS && t.cutFloorMs == None && !p.deferrable && !p.blind
  }

  /** Each first try of a scan is told from the answers before it: in particular, once some
      try was answered none is blind. */
  lemma FirstTriesFollowAnswers(s: W.Scan, log: Log)
    requires s.Valid() && log.Then? && Follows(s.s0, log) && log.call.NextCall? && log.call.got.Some?
    ensures FirstTryAfter(log.call.got.value, s.s0.fixedMs, Answers(log.before))
  {
    var t := Replay(s.s0, log.before);
    W.FirstStarts(s);
    ReplayKeepsSame(s.s0, log.before);
    LearnedSoFar(s.s0, log.before);
    NextFirstIsHead(t);
    var (u, port) := t.AfterNextFirst();
    FreshFirstTry(u, port.value, Answers(log.before));
  }

  lemma FreshFirstTry(s: ScanState, port: nat, answers: seq<nat>)
    requires s.LearnedWait() == if NearBy(answers) then Some(After(answers).TimeoutMs()) else None
    requires s.fastest == NO_ANSWER_YET <==> !Heard(answers)
    ensures FirstTryAfter(s.FirstTry(port), s.fixedMs, answers)
  {
  }

  /** Every try of any pass goes to the host the scan is of. */
  lemma {:induction false} TriesGoToTheHost(s0: ScanState, log: Log)
    requires Follows(s0, log)
    ensures Replay(s0, log).ip == s0.ip
    ensures forall p :: p in Handed(log) ==> p.target.ip == s0.ip
  {
    if log.Then? {
      TriesGoToTheHost(s0, log.before);
      if log.call.NextCall? {
        NextGoesToTheHost(Replay(s0, log.before), log.call.stop);
      }
    }
  }

  lemma NextGoesToTheHost(t: ScanState, stop: bool)
    ensures t.Next(stop).0.ip == t.ip
    ensures t.Next(stop).1.Some? ==> t.Next(stop).1.value.target.ip == t.ip
  {
    NextFirstIsHead(t);
  }

  /** No call that was told to stop handed anything out. */
  predicate StopsHandOutNothing(log: Log) {
    log.Nothing? ||
    (StopsHandOutNothing(log.before) && (log.call.NextCall? && log.call.stop ==> log.call.got == None))
  }

  /** A scan asked to stop hands out nothing more, in any pass. */
  lemma {:induction false} StoppedScansTryNothing(s0: ScanState, log: Log)
    requires Follows(s0, log)
    ensures StopsHandOutNothing(log)
  {
    if log.Then? {
      StoppedScansTryNothing(s0, log.before);
    }
  }

  // ---- Whole scans ---------------------------------------------------------------------

  lemma {:induction false} ObserveAllJoins(e: R.Estimate, a: seq<nat>, b: seq<nat>)
    ensures e.ObserveAll(a + b) == e.ObserveAll(a).ObserveAll(b)
  {
    if b == [] {
      assert a + b == a;
    } else {
      assert Front(a + b) == a + Front(b);
      ObserveAllJoins(e, a, Front(b));
    }
  }

  lemma FirstLearned(s: W.Scan)
    requires s.Valid()
    ensures s.AfterFirst().est == After(Answers(s.first))
  {
    AnswersAreLearned(s.s0, s.first);
  }

  lemma LearnedBySecond(s: W.Scan, log: Log)
    requires s.Valid()
    ensures Replay(s.AfterFirst().(pass := Retry), log).est == After(Answers(s.first) + Answers(log))
  {
    FirstLearned(s);
    AnswersAreLearned(s.AfterFirst().(pass := Retry), log);
    ObserveAllJoins(R.Init(FLOOR_MS, HEADROOM_MS, PORT_TIMEOUT_MS), Answers(s.first), Answers(log));
  }

  lemma SecondPassKeeps(s: W.Scan, log: Log)
    requires s.Valid() && Legal(log)
    requires Follows(s.AfterFirst().(pass := Retry), log)
    ensures var s1 := s.AfterFirst().(pass := Retry);
            && Same(s1, s1) && RetryInv(s1, log)
            && forall k :: 0 <= k < |s1.retries| ==> LeavesRoom(s1.retries[k])
  {
    W.FirstKeeps(s);
    W.RetryStarts(s);
    RetryPass(s.AfterFirst().(pass := Retry), log);
  }

  /** The try for the k-th of these deferred ports waits what the answers have taught, but at
      most what remains of a whole wait; a blind first try counts for nothing. */
  predicate SecondTryAfter(p: Job, ds: seq<Deferred>, k: nat, answers: seq<nat>) {
    && k < |ds| && Port(p) == ds[k].port
    && p.target.timeoutMs
       == Min(After(answers).TimeoutMs(), PORT_TIMEOUT_MS - if ds[k].blind then 0 else ds[k].waitedMs)
  }

  /** So does each second try of a scan, after all answers of both passes so far. */
  lemma SecondTriesFollowAnswers(s: W.Scan, log: Log)
    requires s.Valid() && Legal(log) && Follows(s.AfterFirst().(pass := Retry), log)
    requires log.Then? && log.call.NextCall? && log.call.got.Some?
    ensures SecondTryAfter(log.call.got.value, s.AfterFirst().retries, |Handed(log.before)|,
                           Answers(s.first) + Answers(log.before))
  {
    SecondPassKeeps(s, log.before);
    LearnedBySecond(s, log.before);
    RetryTakes(s.AfterFirst().(pass := Retry), log, Answers(s.first) + Answers(log.before));
  }

  lemma RetryTakes(s1: ScanState, log: Log, answers: seq<nat>)
    requires s1.pass == Retry && Same(s1, s1) && log.Then? && Follows(s1, log)
    requires log.call.NextCall? && log.call.got.Some? && RetryInv(s1, log.before)
    requires forall k :: 0 <= k < |s1.retries| ==> LeavesRoom(s1.retries[k])
    requires Replay(s1, log.before).est == After(answers)
    ensures SecondTryAfter(log.call.got.value, s1.retries, |Handed(log.before)|, answers)
  {
    ReplayKeepsSame(s1, log.before);
    var t := Replay(s1, log.before);
    assert t.nextRetry < |t.retries| ==> t.retries[t.nextRetry] == s1.retries[t.nextRetry];
  }

  /** And each third try waits what they have all taught. */
  lemma ThirdTriesFollowAnswers(s: W.Scan, log: Log)
    requires s.Valid() && Follows(s.AfterSecond().(pass := Third), log)
    requires log.Then? && log.call.NextCall? && log.call.got.Some?
    ensures log.call.got.value.target.timeoutMs
            == After(Answers(s.first) + Answers(s.second) + Answers(log.before)).TimeoutMs()
  {
    var s2 := s.AfterSecond().(pass := Third);
    LearnedBySecond(s, s.second);
    AnswersAreLearned(s2, log.before);
    ThirdStays(s2, log.before);
    ObserveAllJoins(R.Init(FLOOR_MS, HEADROOM_MS, PORT_TIMEOUT_MS),
                    Answers(s.first) + Answers(s.second), Answers(log.before));
  }

  lemma {:induction false} ThirdStays(s2: ScanState, log: Log)
    requires s2.pass == Third
    ensures Replay(s2, log).pass == Third
  {
    if log.Then? {
      ThirdStays(s2, log.before);
    }
  }
}
