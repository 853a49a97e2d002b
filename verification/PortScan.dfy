/** The three-pass port scan of src/core/scanner.zig (PortScan), as the engine's source:
    what it answers to a request for a job and how a verdict changes it, both as a value
    and as the object updated in place. */
module PortScan {
  import opened Basics
  import opened ConnectTypes
  import R = Rtt

  const PORT_TIMEOUT_MS := 500
  const FLOOR_MS := 100
  const HEADROOM_MS := 40
  const LOSSY_MIN_ANSWERS := 1000
  const NO_ANSWER_YET := 0xFFFF_FFFF_FFFF_FFFF

  datatype Pass = First | Retry | Third

  /** An entry of the retry list: the port, and how its first wait was spent. */
  datatype Deferred = Deferred(port: nat, waitedMs: nat, blind: bool)

  function DeferredOf(p: Job): Deferred {
    Deferred(p.target.port, p.target.timeoutMs, p.blind)
  }

  /** A probe the engine gave up on before its own wait was over. */
  predicate CutShort(p: Job, us: nat) {
    us < p.target.timeoutMs * US_PER_MS
  }

  /** The ranked ports of the range from by_rank entry `from` on. */
  function RankedFrom(ranked: seq<nat>, from: nat, lo: nat, hi: nat): seq<nat>
    decreases |ranked| - from
  {
    if from >= |ranked| then []
    else if lo <= ranked[from] <= hi then [ranked[from]] + RankedFrom(ranked, from + 1, lo, hi)
    else RankedFrom(ranked, from + 1, lo, hi)
  }

  /** The unranked ports from `from` to `hi`. */
  function RestFrom(ranked: seq<nat>, from: nat, hi: nat): seq<nat>
    decreases hi + 1 - from
  {
    if from > hi then []
    else if from !in ranked then [from] + RestFrom(ranked, from + 1, hi)
    else RestFrom(ranked, from + 1, hi)
  }

  /** `fault` records what Zig would stop the program for: a list index out of
      range, a list grown past its reserved room, an unsigned underflow. */
  datatype ScanState = ScanState(
    pass: Pass,
    ip: nat,
    ranked: seq<nat>,
    nextRanked: nat,
    nextPort: nat,
    start: nat,
    end: nat,
    fixedMs: Option<nat>,
    est: R.Estimate,
    fastest: nat,
    openPorts: seq<nat>,
    retries: seq<Deferred>,
    room: nat,
    nextRetry: nat,
    silentTwice: nat,
    answeredTwice: nat,
    nextThird: nat,
    halves: nat,
    advances: nat,
    fault: bool)
  {
    /** The first pass's ports still to come, in order. */
    function Remaining(): seq<nat> {
      RankedFrom(ranked, nextRanked, start, end) + RestFrom(ranked, nextPort, end)
    }

    function AfterNextFirst(): (ScanState, Option<nat>)
      decreases |ranked| - nextRanked, end + 1 - nextPort
    {
      if nextRanked < |ranked| then
        var port := ranked[nextRanked];
        var s := this.(nextRanked := nextRanked + 1);
        if start <= port <= end then (s, Some(port)) else s.AfterNextFirst()
      else if nextPort <= end then
        var s := this.(nextPort := nextPort + 1);
        if nextPort !in ranked then (s, Some(nextPort)) else s.AfterNextFirst()
      else (this, None)
    }

    /** A wait short enough to use twice in place of the full one, if the host's answers
        so far allow that. */
    function LearnedWait(): Option<nat> {
      var learned := est.TimeoutMs();
      if fastest > FLOOR_MS * US_PER_MS || 2 * learned > PORT_TIMEOUT_MS then None else Some(learned)
    }

    function Probe(port: nat, timeoutMs: nat, deferrable: bool): Job {
      Job(Target(ip, port, timeoutMs, None), deferrable, false)
    }

    function FirstTry(port: nat): Job {
      if fixedMs.Some? then Probe(port, fixedMs.value, false)
      else if fastest == NO_ANSWER_YET then
        Job(Target(ip, port, PORT_TIMEOUT_MS, Some(FLOOR_MS)), false, true)
      else if LearnedWait().Some? then Probe(port, LearnedWait().value, true)
      else Probe(port, PORT_TIMEOUT_MS, false)
    }

    /** The answer to the engine's request for a job; `stop` models the caller's wish to
        end the scan. */
    function Next(stop: bool): (ScanState, Option<Job>) {
      if stop then (this, None)
      else
        match pass
        case First =>
          var (s, port) := AfterNextFirst();
          if port.None? then (s, None) else (s, Some(s.FirstTry(port.value)))
        case Retry =>
          if nextRetry >= |retries| then (this, None)
          else
            var d := retries[nextRetry];
            var s := this.(nextRetry := nextRetry + 1);
            if !d.blind && d.waitedMs > PORT_TIMEOUT_MS then (s.(fault := true), None)
            else
              var left := if d.blind then PORT_TIMEOUT_MS else PORT_TIMEOUT_MS - d.waitedMs;
              (s, Some(Probe(d.port, Min(est.TimeoutMs(), left), false)))
        case Third =>
          if nextThird >= silentTwice then (this, None)
          else if nextThird >= |retries| then (this.(fault := true), None)
          else
            (this.(nextThird := nextThird + 1),
             Some(Probe(retries[nextThird].port, est.TimeoutMs(), false)))
    }

    /** An answer teaches its round trip. */
    function Learn(outcome: Outcome, us: nat): ScanState {
      if outcome == Filtered then this
      else this.(est := est.Observe(us), fastest := Min(fastest, us))
    }

    /** The retry pass moves ports still silent to the front of the list. */
    function NoteRetry(p: Job, outcome: Outcome): ScanState {
      if pass != Retry then this
      else if outcome != Filtered then this.(answeredTwice := answeredTwice + 1)
      else if silentTwice >= |retries| then this.(fault := true)
      else
        this.(retries := retries[silentTwice := Deferred(p.target.port, p.target.timeoutMs, false)],
              silentTwice := silentTwice + 1)
    }

    function Defer(p: Job): ScanState {
      if |retries| >= room then this.(fault := true)
      else this.(retries := retries + [DeferredOf(p)])
    }

    function AdvanceHalves(n: nat): ScanState {
      this.(halves := halves + n, advances := advances + (halves + n) / 2 - halves / 2)
    }

    function RecordOpen(port: nat): ScanState {
      this.(openPorts := openPorts + [port])
    }

    /** A silent try that earns the port another one. */
    predicate Defers(p: Job, us: nat) {
      p.deferrable || (p.blind && (LearnedWait().Some? || CutShort(p, us)))
    }

    /** One port's verdict. */
    function Done(p: Job, outcome: Outcome, us: nat): ScanState {
      var s := Learn(outcome, us).NoteRetry(p, outcome);
      var port := p.target.port;
      if pass == Third then
        if outcome == Open then s.RecordOpen(port) else s
      else
        var whole := if pass == First then 2 else 1;
        match outcome
        case Open => s.RecordOpen(port).AdvanceHalves(whole)
        case Refused => s.AdvanceHalves(whole)
        case Filtered => if s.Defers(p, us) then s.Defer(p).AdvanceHalves(1) else s.AdvanceHalves(whole)
    }

    /** Enough second tries were answered, in number and as a share, to suspect that first
        ones were lost. */
    predicate NeedsThirdPass(stop: bool) {
      && !stop && silentTwice != 0
      && answeredTwice >= LOSSY_MIN_ANSWERS
      && 10 * answeredTwice >= |retries|
    }
  }

  /** scanPorts' start, for start <= end. With a fixed timeout nothing is deferred,
      so no room is reserved. */
  function Init(ip: nat, ranked: seq<nat>, start: nat, end: nat, fixedMs: Option<nat>): ScanState
    requires start <= end
  {
    ScanState(
      First, ip, ranked, 0, start, start, end, fixedMs,
      R.Init(FLOOR_MS, HEADROOM_MS, PORT_TIMEOUT_MS), NO_ANSWER_YET,
      [], [], if fixedMs.None? then end - start + 1 else 0, 0, 0, 0, 0, 0, 0, false)
  }

  /** PortScan as the source keeps it: fields and lists updated in place. */
  class Scan {
    var pass: Pass
    const ip: nat
    const ranked: seq<nat>
    var nextRanked: nat
    var nextPort: nat
    const start: nat
    const end: nat
    const fixedMs: Option<nat>
    const estimator: R.Estimator
    var fastest: nat
    var openPorts: seq<nat>
    var retries: seq<Deferred>
    const room: nat
    var nextRetry: nat
    var silentTwice: nat
    var answeredTwice: nat
    var nextThird: nat
    var halves: nat
    var advances: nat

    ghost const Repr: set<object> := {this, estimator}

    ghost predicate Valid()
      reads this
    {
      estimator.floorMs <= estimator.ceilingMs
    }

    ghost function State(): ScanState
      reads this, estimator
    {
      ScanState(pass, ip, ranked, nextRanked, nextPort, start, end, fixedMs, estimator.State(),
                fastest, openPorts, retries, room, nextRetry, silentTwice, answeredTwice,
                nextThird, halves, advances, false)
    }

    constructor (ip: nat, ranked: seq<nat>, start: nat, end: nat, fixedMs: Option<nat>)
      requires start <= end
      ensures Valid() && State() == Init(ip, ranked, start, end, fixedMs)
      ensures fresh(Repr)
    {
      this.pass, this.ip, this.ranked, nextRanked, nextPort := First, ip, ranked, 0, start;
      this.start, this.end, this.fixedMs := start, end, fixedMs;
      var e := new R.Estimator(FLOOR_MS, HEADROOM_MS, PORT_TIMEOUT_MS);
      estimator, fastest := e, NO_ANSWER_YET;
      openPorts, retries := [], [];
      room := if fixedMs.None? then end - start + 1 else 0;
      nextRetry, silentTwice, answeredTwice, nextThird, halves, advances := 0, 0, 0, 0, 0, 0;
    }

    method NextFirstPort() returns (port: Option<nat>)
      requires Valid()
      modifies this`nextRanked, this`nextPort
      ensures (State(), port) == old(State()).AfterNextFirst()
    {
      while nextRanked < |ranked|
        invariant State().AfterNextFirst() == old(State()).AfterNextFirst()
      {
        var p := ranked[nextRanked];
        nextRanked := nextRanked + 1;
        if start <= p <= end { return Some(p); }
      }
      while nextPort <= end
        invariant nextRanked >= |ranked|
        invariant State().AfterNextFirst() == old(State()).AfterNextFirst()
      {
        var p := nextPort;
        nextPort := nextPort + 1;
        if p !in ranked { return Some(p); }
      }
      return None;
    }

    method LearnedWait() returns (wait: Option<nat>)
      requires Valid()
      ensures wait == State().LearnedWait()
    {
      var learned := estimator.TimeoutMs();
      var far := fastest > FLOOR_MS * US_PER_MS;
      if far || 2 * learned > PORT_TIMEOUT_MS { return None; }
      return Some(learned);
    }

    method FirstTry(port: nat) returns (p: Job)
      requires Valid()
      ensures p == State().FirstTry(port)
    {
      if fixedMs.Some? { return Job(Target(ip, port, fixedMs.value, None), false, false); }
      if fastest == NO_ANSWER_YET {
        return Job(Target(ip, port, PORT_TIMEOUT_MS, Some(FLOOR_MS)), false, true);
      }
      var learned := LearnedWait();
      if learned.Some? { return Job(Target(ip, port, learned.value, None), true, false); }
      return Job(Target(ip, port, PORT_TIMEOUT_MS, None), false, false);
    }

    method Next(stop: bool) returns (p: Option<Job>)
      requires Valid() && !State().Next(stop).0.fault
      modifies this`nextRanked, this`nextPort, this`nextRetry, this`nextThird
      ensures (State(), p) == old(State()).Next(stop)
    {
      if stop { return None; }
      match pass {
        case First =>
          var port := NextFirstPort();
          if port.None? { return None; }
          var job := FirstTry(port.value);
          return Some(job);
        case Retry =>
          if nextRetry >= |retries| { return None; }
          var deferred := retries[nextRetry];
          nextRetry := nextRetry + 1;
          var left := if deferred.blind then PORT_TIMEOUT_MS else PORT_TIMEOUT_MS - deferred.waitedMs;
          var learned := estimator.TimeoutMs();
          return Some(Job(Target(ip, deferred.port, Min(learned, left), None), false, false));
        case Third =>
          if nextThird >= silentTwice { return None; }
          var deferred := retries[nextThird];
          nextThird := nextThird + 1;
          var learned := estimator.TimeoutMs();
          return Some(Job(Target(ip, deferred.port, learned, None), false, false));
      }
    }

    method AdvanceHalves(n: nat)
      modifies this`halves, this`advances
      ensures State() == old(State()).AdvanceHalves(n)
    {
      var before := halves;
      halves := halves + n;
      for i := before / 2 to halves / 2
        modifies this`advances
        invariant advances == old(advances) + i - before / 2
      {
        advances := advances + 1;
      }
    }

    method Done(p: Job, outcome: Outcome, us: nat)
      requires Valid() && !State().Done(p, outcome, us).fault
      modifies this, estimator
      ensures Valid() && State() == old(State()).Done(p, outcome, us)
    {
      if outcome != Filtered {
        estimator.Observe(us);
        fastest := Min(fastest, us);
      }
      assert State() == old(State()).Learn(outcome, us);
      var port := p.target.port;
      if pass == Retry {
        if outcome == Filtered {
          retries := retries[silentTwice := Deferred(port, p.target.timeoutMs, false)];
          silentTwice := silentTwice + 1;
        } else {
          answeredTwice := answeredTwice + 1;
        }
      }
      ghost var noted := State();
      assert noted == old(State()).Learn(outcome, us).NoteRetry(p, outcome);
      if pass == Third {
        if outcome == Open { openPorts := openPorts + [port]; }
        return;
      }
      if outcome == Open {
        openPorts := openPorts + [port];
      } else if outcome == Filtered {
        var learned := LearnedWait();
        if p.deferrable || (p.blind && (learned.Some? || CutShort(p, us))) {
          retries := retries + [Deferred(port, p.target.timeoutMs, p.blind)];
          AdvanceHalves(1);
          return;
        }
      }
      AdvanceHalves(if pass == First then 2 else 1);
    }
  }
}
