/** What each pass of the port scan keeps, at every moment of every run. */
module ScanInvariants {
  import opened Basics
  import opened ConnectTypes
  import opened Protocol
  import opened PortScan
  import opened ScanPasses

  /** The parts no call changes. */
  ghost predicate Same(s0: ScanState, s: ScanState) {
    && s.pass == s0.pass && s.ip == s0.ip && s.ranked == s0.ranked
    && s.start == s0.start && s.end == s0.end && s.fixedMs == s0.fixedMs && s.room == s0.room
    && s.est.floorMs == FLOOR_MS && s.est.headroomMs == HEADROOM_MS && s.est.ceilingMs == PORT_TIMEOUT_MS
  }

  lemma WaitBounds(s: ScanState)
    requires s.est.floorMs == FLOOR_MS && s.est.ceilingMs == PORT_TIMEOUT_MS
    ensures FLOOR_MS <= s.est.TimeoutMs() <= PORT_TIMEOUT_MS
    ensures s.LearnedWait().Some? ==> FLOOR_MS <= s.LearnedWait().value <= PORT_TIMEOUT_MS / 2
  {
  }

  lemma NextKeepsSame(s0: ScanState, t: ScanState, stop: bool)
    requires Same(s0, t)
    ensures Same(s0, t.Next(stop).0)
  {
    NextFirstIsHead(t);
  }

  lemma DoneKeepsSame(s0: ScanState, t: ScanState, p: Job, o: Outcome, us: nat)
    requires Same(s0, t)
    ensures Same(s0, t.Done(p, o, us))
  {
  }

  lemma {:induction false} ReplayKeepsSame(s0: ScanState, log: Log)
    requires Same(s0, s0)
    ensures Same(s0, Replay(s0, log))
  {
    if log.Then? {
      ReplayKeepsSame(s0, log.before);
      var t := Replay(s0, log.before);
      match log.call
      case NextCall(stop, _) => NextKeepsSame(s0, t, stop);
      case DoneCall(p, o, us) => DoneKeepsSame(s0, t, p, o, us);
    }
  }

  /** A report only ever concerns a job handed out before it. */
  lemma ReportedWasHanded(log: Log)
    requires log.Then? && Legal(log) && log.call.DoneCall?
    ensures log.call.job in Handed(log.before)
    ensures |Reported(log.before)| < |Handed(log.before)|
  {
    assert Reported(log) == Reported(log.before) + [log.call.job];
    assert Handed(log) == Handed(log.before);
    assert log.call.job in multiset(Reported(log));
    assert log.call.job in multiset(Handed(log));
    assert |multiset(Reported(log))| <= |multiset(Handed(log))| by {
      SmallerMultiset(multiset(Reported(log)), multiset(Handed(log)));
    }
  }

  lemma NoMoreReportsThanHanded(log: Log)
    requires Legal(log)
    ensures |Reported(log)| <= |Handed(log)|
  {
    SmallerMultiset(multiset(Reported(log)), multiset(Handed(log)));
  }

  lemma SmallerMultiset<T>(a: multiset<T>, b: multiset<T>)
    requires a <= b
    ensures |a| <= |b|
  {
    assert b == a + (b - a);
  }

  // ---- First pass -------------------------------------------------------------------

  ghost predicate FirstJobOk(s0: ScanState, p: Job) {
    if s0.fixedMs.Some? then
      p.target.timeoutMs == s0.fixedMs.value && !p.deferrable && !p.blind
    else
      && FLOOR_MS <= p.target.timeoutMs <= PORT_TIMEOUT_MS
      && (p.deferrable ==> !p.blind && p.target.timeoutMs <= PORT_TIMEOUT_MS / 2)
      && (p.blind ==> p.target == Target(s0.ip, Port(p), PORT_TIMEOUT_MS, Some(FLOOR_MS)))
  }

  ghost predicate FirstInv(s0: ScanState, log: Log) {
    var s := Replay(s0, log);
    && HandedPorts(log) + s.Remaining() == s0.Remaining()
    && s.openPorts == s0.openPorts + PortsWith(log, Open)
    && |s.retries| <= |Reported(log)|
    && (s0.fixedMs.Some? ==> s.retries == [])
    && s.halves + |s.retries| == 2 * |Reported(log)|
    && s.advances == s.halves / 2
    && (forall k :: 0 <= k < |Handed(log)| ==> FirstJobOk(s0, Handed(log)[k]))
    && (SawDry(log) && NeverStopped(log) ==> s.Remaining() == [])
    && s.nextRetry == s.silentTwice == s.answeredTwice == s.nextThird == 0
    && !s.fault
  }

  lemma FirstTryOk(s0: ScanState, s: ScanState, port: nat)
    requires Same(s0, s)
    ensures FirstJobOk(s0, s.FirstTry(port)) && Port(s.FirstTry(port)) == port
  {
    WaitBounds(s);
  }

  /** What one call to `next` changes in the first pass. */
  lemma FirstNextEffect(s0: ScanState, t: ScanState, stop: bool)
    requires Same(s0, t) && t.pass == First
    ensures var (u, got) := t.Next(stop);
            && u == t.(nextRanked := u.nextRanked, nextPort := u.nextPort)
            && (got.None? ==> u.Remaining() == t.Remaining() && (stop || u.Remaining() == []))
            && (got.Some? ==> t.Remaining() == [Port(got.value)] + u.Remaining() && FirstJobOk(s0, got.value))
  {
    NextFirstIsHead(t);
    var (u, port) := t.AfterNextFirst();
    if port.Some? {
      FirstTryOk(s0, u, port.value);
    }
  }

  lemma FirstNext(s0: ScanState, log: Log)
    requires log.Then? && log.call.NextCall? && Follows(s0, log) && Same(s0, s0) && s0.pass == First
    requires FirstInv(s0, log.before)
    ensures FirstInv(s0, log)
  {
    var t := Replay(s0, log.before);
    ReplayKeepsSame(s0, log.before);
    FirstNextEffect(s0, t, log.call.stop);
    var u, got, handed := t.Next(log.call.stop).0, log.call.got, HandedPorts(log.before);
    if got.Some? {
      assert handed + ([Port(got.value)] + u.Remaining()) == (handed + [Port(got.value)]) + u.Remaining();
    }
  }

  /** What one verdict changes in the first pass. */
  lemma FirstDoneEffect(t: ScanState, p: Job, o: Outcome, us: nat)
    requires t.pass == First && !t.fault && (|t.retries| < t.room || (!p.deferrable && !p.blind))
    ensures var u := t.Done(p, o, us);
            && u.Remaining() == t.Remaining() && !u.fault
            && u.openPorts == (if o == Open then t.openPorts + [Port(p)] else t.openPorts)
            && (u.retries == t.retries || (o == Filtered && (p.deferrable || p.blind) && u.retries == t.retries + [DeferredOf(p)]))
            && u.halves + |u.retries| == t.halves + |t.retries| + 2
            && u.advances - t.advances == u.halves / 2 - t.halves / 2
            && u.nextRetry == t.nextRetry && u.silentTwice == t.silentTwice
            && u.answeredTwice == t.answeredTwice && u.nextThird == t.nextThird
  {
  }

  /** The call reports a job handed out before, with room for one more report. */
  ghost predicate Outstanding(log: Log) {
    && log.Then? && log.call.DoneCall?
    && log.call.job in Handed(log.before)
    && |Reported(log.before)| < |Handed(log.before)|
  }

  lemma FirstDone(s0: ScanState, log: Log)
    requires Outstanding(log) && s0.pass == First && Same(s0, s0)
    requires s0.fixedMs.None? ==> |s0.Remaining()| <= s0.room
    requires FirstInv(s0, log.before)
    ensures FirstInv(s0, log)
  {
    var t := Replay(s0, log.before);
    ReplayKeepsSame(s0, log.before);
    HandedPortsAre(log.before);
    var DoneCall(p, o, us) := log.call;
    assert FirstJobOk(s0, p);
    FirstDoneEffect(t, p, o, us);
  }

  /** Over every log of the first pass: the ports handed out are the order's, in
      order; the open list is the open verdicts'; progress counts two halves for
      every port settled and one for every port deferred; and nothing faults. */
  lemma {:induction false} FirstPass(s0: ScanState, log: Log)
    requires Legal(log) && Follows(s0, log) && Same(s0, s0)
    requires FirstInv(s0, Nothing) && s0.pass == First
    requires s0.fixedMs.None? ==> |s0.Remaining()| <= s0.room
    ensures FirstInv(s0, log)
  {
    if log.Then? {
      FirstPass(s0, log.before);
      match log.call
      case NextCall(_, _) => FirstNext(s0, log);
      case DoneCall(_, _, _) =>
        ReportedWasHanded(log);
        FirstDone(s0, log);
    }
  }

  // ---- The deferred list ----------------------------------------------------------------

  function DeferredPorts(ds: seq<Deferred>): seq<nat> {
    seq(|ds|, i requires 0 <= i < |ds| => ds[i].port)
  }

  /** What deferring each silent job of the log would add, in order. */
  function SilentDeferred(log: Log): seq<Deferred> {
    if log.Nothing? then []
    else if log.call.DoneCall? && log.call.outcome == Filtered then
      SilentDeferred(log.before) + [DeferredOf(log.call.job)]
    else SilentDeferred(log.before)
  }

  /** The first wait took at most half of the whole, or none of it counts. */
  predicate LeavesRoom(d: Deferred) {
    d.blind || d.waitedMs <= PORT_TIMEOUT_MS / 2
  }

  ghost predicate DeferInv(s0: ScanState, log: Log) {
    var s := Replay(s0, log);
    && (forall p :: Count(DeferredPorts(s.retries), p) <= Count(PortsWith(log, Filtered), p))
    && (forall k :: 0 <= k < |s.retries| ==> s.retries[k] in SilentDeferred(log) && LeavesRoom(s.retries[k]))
  }

  lemma DeferDone(s0: ScanState, log: Log)
    requires Outstanding(log) && s0.pass == First && Same(s0, s0)
    requires s0.fixedMs.None? ==> |s0.Remaining()| <= s0.room
    requires FirstInv(s0, log.before) && DeferInv(s0, log.before)
    ensures DeferInv(s0, log)
  {
    var t := Replay(s0, log.before);
    ReplayKeepsSame(s0, log.before);
    HandedPortsAre(log.before);
    var DoneCall(p, o, us) := log.call;
    assert FirstJobOk(s0, p);
    FirstDoneEffect(t, p, o, us);
    var u := t.Done(p, o, us);
    if u.retries != t.retries {
      assert DeferredPorts(u.retries) == DeferredPorts(t.retries) + [Port(p)];
    }
    forall q ensures Count(DeferredPorts(u.retries), q) <= Count(PortsWith(log, Filtered), q) {
      CountJoin(DeferredPorts(t.retries), [Port(p)], q);
      CountJoin(PortsWith(log.before, Filtered), [Port(p)], q);
    }
  }

  /** The deferred list holds only ports whose try was reported silent, each at most
      as often, and a second wait always fits beside a wait that was not blind. */
  lemma {:induction false} FirstPassDefers(s0: ScanState, log: Log)
    requires Legal(log) && Follows(s0, log) && Same(s0, s0)
    requires FirstInv(s0, Nothing) && s0.pass == First && s0.retries == []
    requires s0.fixedMs.None? ==> |s0.Remaining()| <= s0.room
    ensures DeferInv(s0, log)
  {
    if log.Then? {
      FirstPassDefers(s0, log.before);
      FirstPass(s0, log.before);
      match log.call
      case NextCall(_, _) =>
        ReplayKeepsSame(s0, log.before);
        NextFirstIsHead(Replay(s0, log.before));
      case DoneCall(_, _, _) =>
        ReportedWasHanded(log);
        DeferDone(s0, log);
    }
  }

  // ---- Retry pass -------------------------------------------------------------------

  /** The second try of d: bounded on its own, and together with the first one. */
  ghost predicate RetryJobOk(d: Deferred, p: Job) {
    && Port(p) == d.port && !p.deferrable && !p.blind
    && FLOOR_MS <= p.target.timeoutMs <= PORT_TIMEOUT_MS
    && (!d.blind ==> d.waitedMs + p.target.timeoutMs <= PORT_TIMEOUT_MS)
  }

  /** In-place compaction: the slots handed out so far are those below nextRetry, of
      which the first silentTwice were rewritten; the rest of the list is untouched. */
  ghost predicate RetryInv(s0: ScanState, log: Log) {
    var s := Replay(s0, log);
    && s.nextRetry == |Handed(log)| <= |s.retries| == |s0.retries|
    && s.silentTwice + s.answeredTwice == |Reported(log)|
    && s.silentTwice == |PortsWith(log, Filtered)| <= s.nextRetry
    && (forall k :: s.nextRetry <= k < |s.retries| ==> s.retries[k] == s0.retries[k])
    && (forall k :: 0 <= k < s.nextRetry ==> RetryJobOk(s0.retries[k], Handed(log)[k]))
    && (forall k :: 0 <= k < s.silentTwice ==> s.retries[k].port == PortsWith(log, Filtered)[k])
    && s.openPorts == s0.openPorts + PortsWith(log, Open)
    && s.halves == s0.halves + |Reported(log)|
    && s.advances == s.halves / 2
    && (SawDry(log) && NeverStopped(log) ==> s.nextRetry == |s.retries|)
    && s.nextThird == 0
    && !s.fault
  }

  /** What one call to `next` changes in the retry pass. */
  lemma RetryNextEffect(t: ScanState, stop: bool)
    requires t.pass == Retry && t.est.floorMs == FLOOR_MS && t.est.ceilingMs == PORT_TIMEOUT_MS
    requires t.nextRetry < |t.retries| ==> LeavesRoom(t.retries[t.nextRetry])
    ensures var (u, got) := t.Next(stop);
            if stop || t.nextRetry >= |t.retries| then u == t && got == None
            else u == t.(nextRetry := t.nextRetry + 1) && got.Some? && RetryJobOk(t.retries[t.nextRetry], got.value)
  {
    WaitBounds(t);
  }

  lemma RetryNext(s0: ScanState, log: Log)
    requires log.Then? && log.call.NextCall? && Follows(s0, log) && Same(s0, s0) && s0.pass == Retry
    requires forall k :: 0 <= k < |s0.retries| ==> LeavesRoom(s0.retries[k])
    requires RetryInv(s0, log.before)
    ensures RetryInv(s0, log)
  {
    var t := Replay(s0, log.before);
    ReplayKeepsSame(s0, log.before);
    assert t.nextRetry < |t.retries| ==> t.retries[t.nextRetry] == s0.retries[t.nextRetry];
    RetryNextEffect(t, log.call.stop);
    if log.call.got.Some? {
      RetryHandsOut(s0, log);
    } else {
      assert Replay(s0, log) == t && Handed(log) == Handed(log.before);
    }
  }

  lemma RetryHandsOut(s0: ScanState, log: Log)
    requires log.Then? && log.call.NextCall? && log.call.got.Some?
    requires RetryInv(s0, log.before)
    requires var t := Replay(s0, log.before);
             && t.nextRetry < |t.retries| && t.retries[t.nextRetry] == s0.retries[t.nextRetry]
             && Replay(s0, log) == t.(nextRetry := t.nextRetry + 1)
             && RetryJobOk(t.retries[t.nextRetry], log.call.got.value)
    ensures RetryInv(s0, log)
  {
    var before, job := Handed(log.before), log.call.got.value;
    assert Handed(log) == before + [job];
    assert Reported(log) == Reported(log.before);
    assert PortsWith(log, Filtered) == PortsWith(log.before, Filtered);
    assert PortsWith(log, Open) == PortsWith(log.before, Open);
    forall k | 0 <= k < |before| + 1 ensures RetryJobOk(s0.retries[k], Handed(log)[k]) {
      if k < |before| {
        assert RetryJobOk(s0.retries[k], before[k]);
      }
    }
  }

  /** What one verdict changes in the retry pass. */
  lemma RetryDoneEffect(t: ScanState, p: Job, o: Outcome, us: nat)
    requires t.pass == Retry && !t.fault && t.silentTwice < |t.retries| && !p.deferrable && !p.blind
    ensures var u := t.Done(p, o, us);
            && !u.fault && u.nextRetry == t.nextRetry && u.nextThird == t.nextThird
            && u.openPorts == (if o == Open then t.openPorts + [Port(p)] else t.openPorts)
            && u.silentTwice == (if o == Filtered then t.silentTwice + 1 else t.silentTwice)
            && u.answeredTwice == (if o == Filtered then t.answeredTwice else t.answeredTwice + 1)
            && u.retries == (if o == Filtered then
                               t.retries[t.silentTwice := Deferred(Port(p), p.target.timeoutMs, false)]
                             else t.retries)
            && u.halves == t.halves + 1
            && u.advances - t.advances == u.halves / 2 - t.halves / 2
  {
  }

  lemma RetryDone(s0: ScanState, log: Log)
    requires Outstanding(log) && Same(s0, s0) && s0.pass == Retry
    requires RetryInv(s0, log.before)
    ensures RetryInv(s0, log)
  {
    var t := Replay(s0, log.before);
    ReplayKeepsSame(s0, log.before);
    var DoneCall(p, o, us) := log.call;
    var k :| 0 <= k < |Handed(log.before)| && Handed(log.before)[k] == p;
    assert RetryJobOk(s0.retries[k], p);
    RetryDoneEffect(t, p, o, us);
  }

  lemma {:induction false} RetryPass(s0: ScanState, log: Log)
    requires Legal(log) && Follows(s0, log) && Same(s0, s0) && s0.pass == Retry
    requires forall k :: 0 <= k < |s0.retries| ==> LeavesRoom(s0.retries[k])
    requires RetryInv(s0, Nothing)
    ensures RetryInv(s0, log)
  {
    if log.Then? {
      RetryPass(s0, log.before);
      match log.call
      case NextCall(_, _) => RetryNext(s0, log);
      case DoneCall(_, _, _) =>
        ReportedWasHanded(log);
        RetryDone(s0, log);
    }
  }

  /** In every reachable state of the retry pass the slots handed out are the ones
      settled twice plus the retries still outstanding, so the next silent verdict
      lands in a slot already handed out and never one still to be read. */
  lemma RetriesInFlight(s0: ScanState, log: Log)
    requires Legal(log) && RetryInv(s0, log)
    ensures var s := Replay(s0, log);
            var outstanding := |Handed(log)| - |Reported(log)|;
            && s.nextRetry == s.silentTwice + s.answeredTwice + outstanding
            && outstanding >= 0
            && (outstanding > 0 ==> s.silentTwice < s.nextRetry)
  {
    NoMoreReportsThanHanded(log);
  }

  // ---- Third pass -------------------------------------------------------------------

  ghost predicate ThirdInv(s0: ScanState, log: Log) {
    var s := Replay(s0, log);
    && Same(s0, s)
    && s == s0.(nextThird := s.nextThird, openPorts := s.openPorts, est := s.est, fastest := s.fastest)
    && s.nextThird == |Handed(log)| <= s0.silentTwice <= |s0.retries|
    && (forall k :: 0 <= k < s.nextThird ==>
          && Port(Handed(log)[k]) == s0.retries[k].port
          && FLOOR_MS <= Handed(log)[k].target.timeoutMs <= PORT_TIMEOUT_MS)
    && s.openPorts == s0.openPorts + PortsWith(log, Open)
    && (SawDry(log) && NeverStopped(log) ==> s.nextThird == s0.silentTwice)
  }

  /** What one call to `next` changes in the third pass. */
  lemma ThirdNextEffect(t: ScanState, stop: bool)
    requires t.pass == Third && t.est.floorMs == FLOOR_MS && t.est.ceilingMs == PORT_TIMEOUT_MS
    requires t.silentTwice <= |t.retries|
    ensures var (u, got) := t.Next(stop);
            if stop || t.nextThird >= t.silentTwice then u == t && got == None
            else
              && u == t.(nextThird := t.nextThird + 1) && got.Some?
              && Port(got.value) == t.retries[t.nextThird].port
              && FLOOR_MS <= got.value.target.timeoutMs <= PORT_TIMEOUT_MS
  {
    WaitBounds(t);
  }

  lemma ThirdNext(s0: ScanState, log: Log)
    requires log.Then? && log.call.NextCall? && Follows(s0, log) && Same(s0, s0) && s0.pass == Third
    requires ThirdInv(s0, log.before)
    ensures ThirdInv(s0, log)
  {
    var t := Replay(s0, log.before);
    ThirdNextEffect(t, log.call.stop);
    if log.call.got.Some? {
      assert Handed(log) == Handed(log.before) + [log.call.got.value];
    } else {
      assert Replay(s0, log) == t && Handed(log) == Handed(log.before);
    }
  }

  lemma ThirdDone(s0: ScanState, log: Log)
    requires log.Then? && log.call.DoneCall? && s0.pass == Third && ThirdInv(s0, log.before)
    requires Same(s0, s0)
    ensures ThirdInv(s0, log)
  {
    assert Handed(log) == Handed(log.before);
  }

  /** The third pass serves exactly the ports now at the front of the list. */
  lemma {:induction false} ThirdPass(s0: ScanState, log: Log)
    requires Legal(log) && Follows(s0, log) && Same(s0, s0) && s0.pass == Third
    requires s0.silentTwice <= |s0.retries| && s0.nextThird == 0
    ensures ThirdInv(s0, log)
  {
    if log.Then? {
      ThirdPass(s0, log.before);
      ReplayKeepsSame(s0, log.before);
      match log.call
      case NextCall(_, _) => ThirdNext(s0, log);
      case DoneCall(_, _, _) => ThirdDone(s0, log);
    }
  }
}
