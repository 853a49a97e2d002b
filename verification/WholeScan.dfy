/** scanPorts as a whole: three passes, each a run of the connect engine, and the
    list of open ports that comes back. */
module WholeScan {
  import opened Basics
  import opened ConnectTypes
  import opened Protocol
  import opened PortScan
  import opened ScanPasses
  import opened ScanInvariants
  import EC = EngineContract
  import En = Engine

  // ---- Sorting ------------------------------------------------------------------------

  function Insert(x: nat, s: seq<nat>): seq<nat> {
    if s == [] || x <= s[0] then [x] + s else [s[0]] + Insert(x, s[1..])
  }

  /** Stands for std.mem.sort. */
  function Sort(s: seq<nat>): seq<nat> {
    if s == [] then [] else Insert(s[0], Sort(s[1..]))
  }

  ghost predicate Ascending(s: seq<nat>) {
    forall i :: 0 <= i < |s| - 1 ==> s[i] <= s[i + 1]
  }

  ghost predicate StrictlyAscending(s: seq<nat>) {
    forall i, j :: 0 <= i < j < |s| ==> s[i] < s[j]
  }

  lemma {:induction false} InsertSorts(x: nat, s: seq<nat>, y: nat)
    requires Ascending(s)
    ensures Ascending(Insert(x, s))
    ensures Count(Insert(x, s), y) == Count(s, y) + (if x == y then 1 else 0)
    ensures Insert(x, s)[0] == if s == [] then x else Min(x, s[0])
  {
    if s != [] && x > s[0] {
      InsertSorts(x, s[1..], y);
    }
  }

  lemma {:induction false} SortSorts(s: seq<nat>, y: nat)
    ensures Ascending(Sort(s)) && Count(Sort(s), y) == Count(s, y)
  {
    if s != [] {
      SortSorts(s[1..], y);
      InsertSorts(s[0], Sort(s[1..]), y);
    }
  }

  lemma {:induction false} AscendingMeansOrdered(s: seq<nat>, i: nat, j: nat)
    requires Ascending(s) && i < j < |s|
    ensures s[i] <= s[j]
  {
    if j > i + 1 {
      AscendingMeansOrdered(s, i, j - 1);
    }
    assert s[j - 1] <= s[j - 1 + 1];
  }

  lemma SortedWithoutRepeats(s: seq<nat>)
    requires forall x :: Count(s, x) <= 1
    ensures StrictlyAscending(Sort(s))
    ensures forall x: nat :: x in Sort(s) <==> Count(s, x) == 1
  {
    var t := Sort(s);
    forall x: nat ensures Count(t, x) == Count(s, x) && Count(t, x) == multiset(t)[x] {
      SortSorts(s, x);
      CountIn(t, x);
    }
    SortSorts(s, 0);
    CountsDistinct(t);
    forall i, j | 0 <= i < j < |t| ensures t[i] < t[j] {
      AscendingMeansOrdered(t, i, j);
    }
  }

  // ---- One scan -----------------------------------------------------------------------

  /** The calls of the three passes; the third log stays empty when there is no third
      pass. `stop` is whether the scan had been asked to stop when it was decided. */
  datatype Scan = Scan(s0: ScanState, first: Log, second: Log, third: Log, stop: bool)
  {
    function AfterFirst(): ScanState {
      Replay(s0, first)
    }

    function AfterSecond(): ScanState {
      Replay(AfterFirst().(pass := Retry), second)
    }

    predicate HasThird() {
      AfterSecond().NeedsThirdPass(stop)
    }

    function End(): ScanState {
      if HasThird() then Replay(AfterSecond().(pass := Third), third) else AfterSecond()
    }

    function Total(): nat
      requires s0.start <= s0.end
    {
      s0.end - s0.start + 1
    }

    /** A scan set up by scanPorts whose passes all returned. */
    ghost predicate Valid() {
      && s0.start <= s0.end && Distinct(s0.ranked)
      && s0 == Init(s0.ip, s0.ranked, s0.start, s0.end, s0.fixedMs)
      && Complete(first) && Follows(s0, first)
      && Complete(second) && Follows(AfterFirst().(pass := Retry), second)
      && (if HasThird() then Complete(third) && Follows(AfterSecond().(pass := Third), third)
          else third == Nothing)
    }

    ghost predicate Uncancelled() {
      NeverStopped(first) && NeverStopped(second) && NeverStopped(third) && !stop
    }

    /** The open ports, as scanPorts returns them. */
    function Result(): seq<nat> {
      Sort(End().openPorts)
    }
  }

  lemma InitStarts(s0: ScanState)
    requires s0.start <= s0.end && s0 == Init(s0.ip, s0.ranked, s0.start, s0.end, s0.fixedMs)
    ensures FirstInv(s0, Nothing) && Same(s0, s0)
  {
  }

  /** The first pass starts out as its invariant wants. */
  lemma FirstStarts(s: Scan)
    requires s.Valid()
    ensures FirstInv(s.s0, Nothing) && Same(s.s0, s.s0) && s.s0.pass == First && s.s0.retries == []
    ensures s.s0.fixedMs.None? ==> |s.s0.Remaining()| <= s.s0.room
    ensures |s.s0.Remaining()| == s.Total()
  {
    InitStarts(s.s0);
    FirstOrderLength(s.s0);
  }

  lemma FirstKeeps(s: Scan)
    requires s.Valid()
    ensures FirstInv(s.s0, s.first) && DeferInv(s.s0, s.first)
    ensures Same(s.s0, s.AfterFirst())
  {
    FirstStarts(s);
    FirstPass(s.s0, s.first);
    FirstPassDefers(s.s0, s.first);
    ReplayKeepsSame(s.s0, s.first);
  }

  lemma RetryStarts(s: Scan)
    requires s.Valid() && FirstInv(s.s0, s.first)
    ensures RetryInv(s.AfterFirst().(pass := Retry), Nothing)
  {
  }

  lemma SecondKeeps(s: Scan)
    requires s.Valid()
    ensures RetryInv(s.AfterFirst().(pass := Retry), s.second)
    ensures Same(s.AfterFirst().(pass := Retry), s.AfterSecond())
  {
    FirstKeeps(s);
    var s1 := s.AfterFirst().(pass := Retry);
    RetryStarts(s);
    RetryPass(s1, s.second);
    ReplayKeepsSame(s1, s.second);
  }

  /** All three passes keep their invariants. */
  lemma PassesKeep(s: Scan)
    requires s.Valid()
    ensures FirstInv(s.s0, s.first) && DeferInv(s.s0, s.first)
    ensures Same(s.s0, s.AfterFirst())
    ensures RetryInv(s.AfterFirst().(pass := Retry), s.second)
    ensures s.HasThird() ==> ThirdInv(s.AfterSecond().(pass := Third), s.third)
  {
    FirstKeeps(s);
    SecondKeeps(s);
    if s.HasThird() {
      ThirdPass(s.AfterSecond().(pass := Third), s.third);
    }
  }

  lemma {:induction false} CountPrefix(a: seq<nat>, b: seq<nat>, x: nat)
    requires a <= b
    ensures Count(a, x) <= Count(b, x)
    ensures |a| == |b| ==> Count(a, x) == Count(b, x)
  {
    assert b == a + b[|a|..];
    CountJoin(a, b[|a|..], x);
  }

  /** What happens to one port, pass by pass. */
  lemma PortBooks(s: Scan, p: nat)
    requires s.Valid()
    ensures Count(HandedPorts(s.first), p) <= (if s.s0.start <= p <= s.s0.end then 1 else 0)
    ensures Count(PortsWith(s.first, Open), p) + Count(PortsWith(s.first, Refused), p)
            + Count(PortsWith(s.first, Filtered), p) == Count(HandedPorts(s.first), p)
    ensures Count(DeferredPorts(s.AfterFirst().retries), p) <= Count(PortsWith(s.first, Filtered), p)
    ensures Count(HandedPorts(s.second), p) <= Count(DeferredPorts(s.AfterFirst().retries), p)
    ensures Count(PortsWith(s.second, Open), p) + Count(PortsWith(s.second, Refused), p)
            + Count(PortsWith(s.second, Filtered), p) == Count(HandedPorts(s.second), p)
    ensures Count(HandedPorts(s.third), p) <= Count(PortsWith(s.second, Filtered), p)
    ensures Count(PortsWith(s.third, Open), p) <= Count(HandedPorts(s.third), p)
    ensures Count(s.End().openPorts, p) ==
            Count(PortsWith(s.first, Open), p) + Count(PortsWith(s.second, Open), p) + Count(PortsWith(s.third, Open), p)
  {
    PassesKeep(s);
    FirstOrderIsTheRange(s.s0, p);
    CountJoin(HandedPorts(s.first), s.AfterFirst().Remaining(), p);
    LegalPorts(s.first, p);
    LegalPorts(s.second, p);
    var s1, s2 := s.AfterFirst(), s.AfterSecond();
    HandedPortsAre(s.second);
    CountPrefix(HandedPorts(s.second), DeferredPorts(s1.retries), p);
    CountJoin(s1.openPorts, PortsWith(s.second, Open), p);
    if s.HasThird() {
      HandedPortsAre(s.third);
      LegalPorts(s.third, p);
      CountPrefix(HandedPorts(s.third), PortsWith(s.second, Filtered), p);
      CountJoin(s2.openPorts, PortsWith(s.third, Open), p);
    }
    assert s.s0.openPorts + PortsWith(s.first, Open) == PortsWith(s.first, Open);
  }

  /** A scan, also one stopped early, returns a strictly ascending list, and it holds
      exactly the ports some pass reported open. */
  lemma ResultIsTheOpenPorts(s: Scan)
    requires s.Valid()
    ensures StrictlyAscending(s.Result())
    ensures forall p: nat :: p in s.Result() <==>
              p in PortsWith(s.first, Open) || p in PortsWith(s.second, Open) || p in PortsWith(s.third, Open)
    ensures forall p :: p in s.Result() ==> s.s0.start <= p <= s.s0.end
  {
    forall p: nat ensures Count(s.End().openPorts, p) <= (if s.s0.start <= p <= s.s0.end then 1 else 0) {
      PortBooks(s, p);
    }
    SortedWithoutRepeats(s.End().openPorts);
    forall p: nat
      ensures Count(s.End().openPorts, p) == 1 <==>
              p in PortsWith(s.first, Open) || p in PortsWith(s.second, Open) || p in PortsWith(s.third, Open)
    {
      PortBooks(s, p);
      CountIn(PortsWith(s.first, Open), p);
      CountIn(PortsWith(s.second, Open), p);
      CountIn(PortsWith(s.third, Open), p);
    }
  }

  /** An uncancelled scan tries every port of the range exactly once first; then once
      more exactly the ports it deferred, all of them silent before; and in a third
      pass, if one comes, exactly the ports two tries left silent. */
  lemma EveryPortIsTried(s: Scan, p: nat)
    requires s.Valid() && s.Uncancelled()
    ensures Count(HandedPorts(s.first), p) == if s.s0.start <= p <= s.s0.end then 1 else 0
    ensures Count(HandedPorts(s.second), p) == Count(DeferredPorts(s.AfterFirst().retries), p)
            <= Count(PortsWith(s.first, Filtered), p)
    ensures Count(HandedPorts(s.third), p) == if s.HasThird() then Count(PortsWith(s.second, Filtered), p) else 0
  {
    PassesKeep(s);
    FirstOrderIsTheRange(s.s0, p);
    CountJoin(HandedPorts(s.first), s.AfterFirst().Remaining(), p);
    PortBooks(s, p);
    HandedPortsAre(s.second);
    CountPrefix(HandedPorts(s.second), DeferredPorts(s.AfterFirst().retries), p);
    if s.HasThird() {
      HandedPortsAre(s.third);
      CountPrefix(HandedPorts(s.third), PortsWith(s.second, Filtered), p);
    }
  }

  /** No list index, reserved room or unsigned subtraction of the scan ever fails, in
      any run: in particular a deferred port's first wait never exceeds the whole. */
  lemma NothingFaults(s: Scan)
    requires s.Valid()
    ensures !s.AfterFirst().fault && !s.AfterSecond().fault && !s.End().fault
  {
    PassesKeep(s);
  }

  // ---- Progress -------------------------------------------------------------------------

  /** In half ports, progress never passes twice the range at any moment of the first
      pass, and the calls to `advance` are always its whole ports. */
  lemma FirstNeverOvershoots(s: Scan, log: Log)
    requires s.Valid() && Legal(log) && Follows(s.s0, log)
    ensures var t := Replay(s.s0, log); t.halves <= 2 * s.Total() && t.advances == t.halves / 2
  {
    FirstStarts(s);
    FirstPass(s.s0, log);
    NoMoreReportsThanHanded(log);
    HandedPortsAre(log);
  }

  lemma HalvesAfterFirst(s: Scan)
    requires s.Valid()
    ensures s.AfterFirst().halves + |s.AfterFirst().retries| <= 2 * s.Total()
  {
    FirstKeeps(s);
    FirstOrderLength(s.s0);
    HandedPortsAre(s.first);
    SameSize(Handed(s.first), Reported(s.first));
  }

  /** Nor at any moment of the second. */
  lemma SecondNeverOvershoots(s: Scan, log: Log)
    requires s.Valid() && Legal(log) && Follows(s.AfterFirst().(pass := Retry), log)
    ensures var t := Replay(s.AfterFirst().(pass := Retry), log);
            t.halves <= 2 * s.Total() && t.advances == t.halves / 2
  {
    FirstKeeps(s);
    HalvesAfterFirst(s);
    NoMoreReportsThanHanded(log);
    assert RetryInv(s.AfterFirst().(pass := Retry), Nothing);
    RetryPass(s.AfterFirst().(pass := Retry), log);
  }

  lemma SameSize<T>(a: seq<T>, b: seq<T>)
    requires multiset(a) == multiset(b)
    ensures |a| == |b|
  {
    assert |multiset(a)| == |multiset(b)|;
  }

  /** The first two passes of an uncancelled scan call `advance` exactly once for
      every port of the range, and the third pass never. */
  lemma ProgressIsExact(s: Scan)
    requires s.Valid() && s.Uncancelled()
    ensures s.AfterSecond().halves == 2 * s.Total()
    ensures s.AfterSecond().advances == s.Total() == s.End().advances
  {
    PassesKeep(s);
    FirstOrderLength(s.s0);
    HandedPortsAre(s.first);
    SameSize(Handed(s.first), Reported(s.first));
    SameSize(Handed(s.second), Reported(s.second));
    assert HandedPorts(s.first) + [] == HandedPorts(s.first);
  }

  // ---- Waits ------------------------------------------------------------------------------

  /** With a learned timeout every wait of every pass lies in 100..500 ms, and a
      learned first wait in 100..250. */
  lemma EveryWaitIsBounded(s: Scan, p: Job)
    requires s.Valid() && s.s0.fixedMs.None?
    requires p in Handed(s.first) || p in Handed(s.second) || p in Handed(s.third)
    ensures FLOOR_MS <= p.target.timeoutMs <= PORT_TIMEOUT_MS
    ensures p in Handed(s.first) && p.deferrable ==> p.target.timeoutMs <= PORT_TIMEOUT_MS / 2
  {
    if p in Handed(s.first) {
      FirstKeeps(s);
      assert FirstJobOk(s.s0, p);
    } else if p in Handed(s.second) {
      SecondKeeps(s);
      var k :| 0 <= k < |Handed(s.second)| && Handed(s.second)[k] == p;
      assert RetryJobOk(s.AfterFirst().retries[k], p);
    } else {
      PassesKeep(s);
      var k :| 0 <= k < |Handed(s.third)| && Handed(s.third)[k] == p;
    }
  }

  /** With a fixed timeout every wait is that, and no port is tried twice. */
  lemma FixedWaitsStayFixed(s: Scan)
    requires s.Valid() && s.s0.fixedMs.Some?
    ensures forall p :: p in Handed(s.first) ==> p.target.timeoutMs == s.s0.fixedMs.value
    ensures Handed(s.second) == [] && s.third == Nothing
  {
    FirstKeeps(s);
    SecondKeeps(s);
    forall p | p in Handed(s.first) ensures p.target.timeoutMs == s.s0.fixedMs.value {
      var k :| 0 <= k < |Handed(s.first)| && Handed(s.first)[k] == p;
      assert FirstJobOk(s.s0, Handed(s.first)[k]);
    }
  }

  lemma {:induction false} SilentDeferredFrom(log: Log, d: Deferred)
    requires d in SilentDeferred(log)
    ensures exists p :: p in Reported(log) && DeferredOf(p) == d
  {
    if log.call.DoneCall? && log.call.outcome == Filtered && d == DeferredOf(log.call.job) {
      assert log.call.job in Reported(log);
    } else {
      SilentDeferredFrom(log.before, d);
      var p :| p in Reported(log.before) && DeferredOf(p) == d;
      assert p in Reported(log);
    }
  }

  lemma HandedOnce(s: Scan, a: Job, b: Job)
    requires s.Valid() && a in Handed(s.first) && b in Handed(s.first) && Port(a) == Port(b)
    ensures a == b
  {
    HandedPortsAre(s.first);
    var ports := HandedPorts(s.first);
    forall x ensures Count(ports, x) <= 1 {
      PortBooks(s, x);
    }
    DistinctFromCounts(ports);
    var i :| 0 <= i < |ports| && Handed(s.first)[i] == a;
    var j :| 0 <= j < |ports| && Handed(s.first)[j] == b;
    assert ports[i] == ports[j];
  }

  /** The first and second wait of a port fit in one full wait together, whatever the
      estimator learned in between, unless the first went out blind. */
  lemma TwoWaitsFitInOne(s: Scan, a: Job, b: Job)
    requires s.Valid() && s.s0.fixedMs.None?
    requires a in Handed(s.first) && b in Handed(s.second) && Port(a) == Port(b) && !a.blind
    ensures a.target.timeoutMs + b.target.timeoutMs <= PORT_TIMEOUT_MS
  {
    PassesKeep(s);
    var k :| 0 <= k < |Handed(s.second)| && Handed(s.second)[k] == b;
    var d := s.AfterFirst().retries[k];
    assert RetryJobOk(d, b);
    SilentDeferredFrom(s.first, d);
    var p :| p in Reported(s.first) && DeferredOf(p) == d;
    assert p in multiset(Reported(s.first));
    assert p in multiset(Handed(s.first));
    HandedOnce(s, a, p);
  }

  // ---- On top of the engine ------------------------------------------------------------------

  /** Three engine runs that returned, fed by the scan, make a scan as above. */
  ghost predicate DrivenBy(s: Scan, r1: EC.Run, r2: EC.Run, r3: EC.Run) {
    && s.s0.start <= s.s0.end && Distinct(s.s0.ranked)
    && s.s0 == Init(s.s0.ip, s.s0.ranked, s.s0.start, s.s0.end, s.s0.fixedMs)
    && Delivers(r1, s.s0, s.first)
    && Delivers(r2, s.AfterFirst().(pass := Retry), s.second)
    && (if s.HasThird() then Delivers(r3, s.AfterSecond().(pass := Third), s.third) else s.third == Nothing)
  }

  /** The engine run returned without error and its log is the scan's. */
  ghost predicate Delivers(r: EC.Run, from: ScanState, log: Log) {
    r.Valid() && r.End().phase == En.Returned && r.End().shared.log == log && Follows(from, log)
  }

  /** Whatever the engine returns respects the contract the scan relies on. */
  lemma DrivenIsValid(s: Scan, r1: EC.Run, r2: EC.Run, r3: EC.Run)
    requires DrivenBy(s, r1, r2, r3)
    ensures s.Valid()
  {
    EC.ExactlyOnce(r1);
    EC.ExactlyOnce(r2);
    if s.HasThird() {
      EC.ExactlyOnce(r3);
    }
  }

  /** A port scan driven by the connect engine, whatever the loops, the operating
      system and the host do: it returns in strictly ascending order exactly the
      ports the engine reported open, and when it was not cancelled it tried every
      port of the range once and counted each of them once. */
  lemma ScanOverEngine(s: Scan, r1: EC.Run, r2: EC.Run, r3: EC.Run)
    requires DrivenBy(s, r1, r2, r3)
    ensures StrictlyAscending(s.Result()) && !s.End().fault
    ensures forall p: nat :: p in s.Result() <==>
              p in PortsWith(s.first, Open) || p in PortsWith(s.second, Open) || p in PortsWith(s.third, Open)
    ensures s.Uncancelled() ==> s.End().advances == s.Total()
    ensures s.Uncancelled() ==>
              forall p: nat :: Count(HandedPorts(s.first), p) == if s.s0.start <= p <= s.s0.end then 1 else 0
  {
    DrivenIsValid(s, r1, r2, r3);
    ResultIsTheOpenPorts(s);
    NothingFaults(s);
    if s.Uncancelled() {
      ProgressIsExact(s);
      forall p: nat ensures Count(HandedPorts(s.first), p) == if s.s0.start <= p <= s.s0.end then 1 else 0 {
        EveryPortIsTried(s, p);
      }
    }
  }
}
