/** One pass of the port scan, over every log an engine run can produce: the scan
    answers `next` and takes `done` in any order the contract allows. */
module ScanPasses {
  import opened Basics
  import opened ConnectTypes
  import opened Protocol
  import opened PortScan

  // ---- A pass over a log ----------------------------------------------------------

  /** The scan after the calls in the log. */
  function Replay(s: ScanState, log: Log): ScanState {
    if log.Nothing? then s
    else
      var t := Replay(s, log.before);
      match log.call
      case NextCall(stop, _) => t.Next(stop).0
      case DoneCall(p, o, us) => t.Done(p, o, us)
  }

  /** Every answer in the log is the one the scan gives. */
  ghost predicate Follows(s: ScanState, log: Log) {
    log.Nothing? ||
    (Follows(s, log.before) &&
     (log.call.NextCall? ==> log.call.got == Replay(s, log.before).Next(log.call.stop).1))
  }

  function Port(p: Job): nat { p.target.port }

  /** The ports handed out, in order. */
  function HandedPorts(log: Log): seq<nat> {
    if log.Nothing? then []
    else if log.call.NextCall? && log.call.got.Some? then HandedPorts(log.before) + [Port(log.call.got.value)]
    else HandedPorts(log.before)
  }

  /** The ports reported with outcome o, in order. */
  function PortsWith(log: Log, o: Outcome): seq<nat> {
    if log.Nothing? then []
    else if log.call.DoneCall? && log.call.outcome == o then PortsWith(log.before, o) + [Port(log.call.job)]
    else PortsWith(log.before, o)
  }

  function PortSeq(jobs: seq<Job>): seq<nat> {
    if jobs == [] then [] else [Port(jobs[0])] + PortSeq(jobs[1..])
  }

  lemma {:induction false} PortSeqJoin(a: seq<Job>, b: seq<Job>)
    ensures PortSeq(a + b) == PortSeq(a) + PortSeq(b)
  {
    if a == [] {
      assert a + b == b;
    } else {
      assert (a + b)[1..] == a[1..] + b;
      PortSeqJoin(a[1..], b);
    }
  }

  lemma {:induction false} HandedPortsAre(log: Log)
    ensures PortSeq(Handed(log)) == HandedPorts(log)
    ensures |HandedPorts(log)| == |Handed(log)|
    ensures forall k :: 0 <= k < |Handed(log)| ==> HandedPorts(log)[k] == Port(Handed(log)[k])
  {
    if log.Then? {
      HandedPortsAre(log.before);
      PortSeqJoin(Handed(log.before), HandedBy(log.call));
    }
  }

  /** Each report of a port carries one of the three outcomes. */
  lemma {:induction false} ReportedPortsSplit(log: Log, p: nat)
    ensures Count(PortSeq(Reported(log)), p) ==
            Count(PortsWith(log, Open), p) + Count(PortsWith(log, Refused), p) + Count(PortsWith(log, Filtered), p)
  {
    if log.Then? {
      ReportedPortsSplit(log.before, p);
      PortSeqJoin(Reported(log.before), ReportedBy(log.call));
      if log.call.DoneCall? {
        var q := [Port(log.call.job)];
        assert PortSeq(ReportedBy(log.call)) == q;
        CountJoin(PortSeq(Reported(log.before)), q, p);
        CountJoin(PortsWith(log.before, log.call.outcome), q, p);
      } else {
        assert Reported(log) == Reported(log.before);
      }
    }
  }

  lemma PortsTakeOut(b: seq<Job>, k: nat, p: nat)
    requires k < |b|
    ensures Count(PortSeq(b), p) == Count(PortSeq(b[..k] + b[k + 1..]), p) + (if Port(b[k]) == p then 1 else 0)
    ensures multiset(b) == multiset(b[..k] + b[k + 1..]) + multiset{b[k]}
  {
    var x, y, one := b[..k], b[k + 1..], [b[k]];
    assert b == x + one + y;
    PortSeqJoin(x + one, y);
    PortSeqJoin(x, one);
    PortSeqJoin(x, y);
    assert PortSeq(one) == [Port(b[k])];
    CountJoin(PortSeq(x + one), PortSeq(y), p);
    CountJoin(PortSeq(x), PortSeq(one), p);
    CountJoin(PortSeq(x), PortSeq(y), p);
  }

  lemma {:induction false} PortsOfSubset(a: seq<Job>, b: seq<Job>, p: nat)
    requires multiset(a) <= multiset(b)
    ensures Count(PortSeq(a), p) <= Count(PortSeq(b), p)
  {
    if a != [] {
      assert a == [a[0]] + a[1..];
      assert a[0] in multiset(b);
      var k :| 0 <= k < |b| && b[k] == a[0];
      PortsTakeOut(b, k, p);
      var ma, mb := multiset(a[1..]), multiset(b[..k] + b[k + 1..]);
      assert ma + multiset{a[0]} <= mb + multiset{a[0]};
      forall t: Job ensures ma[t] <= mb[t] {
        assert (ma + multiset{a[0]})[t] <= (mb + multiset{a[0]})[t];
      }
      PortsOfSubset(a[1..], b[..k] + b[k + 1..], p);
    }
  }

  /** What a legal log says about one port: it was reported at most as often as it
      was handed out, and just as often once the log is complete. */
  lemma LegalPorts(log: Log, p: nat)
    requires Legal(log)
    ensures Count(PortsWith(log, Open), p) + Count(PortsWith(log, Refused), p) + Count(PortsWith(log, Filtered), p)
            <= Count(HandedPorts(log), p)
    ensures Complete(log) ==>
              Count(PortsWith(log, Open), p) + Count(PortsWith(log, Refused), p)
              + Count(PortsWith(log, Filtered), p) == Count(HandedPorts(log), p)
  {
    ReportedPortsSplit(log, p);
    HandedPortsAre(log);
    PortsOfSubset(Reported(log), Handed(log), p);
    if Complete(log) {
      PortsOfSubset(Handed(log), Reported(log), p);
    }
  }

  // ---- The order of the first pass ---------------------------------------------------

  /** Asking for the next port takes the head of what remains. */
  lemma {:induction false} NextFirstIsHead(s: ScanState)
    ensures var (t, port) := s.AfterNextFirst();
            && t == s.(nextRanked := t.nextRanked, nextPort := t.nextPort)
            && (port == None ==> s.Remaining() == [] && t.Remaining() == [])
            && (port.Some? ==> s.Remaining() == [port.value] + t.Remaining())
    decreases |s.ranked| - s.nextRanked, s.end + 1 - s.nextPort
  {
    if s.nextRanked < |s.ranked| {
      var port, t := s.ranked[s.nextRanked], s.(nextRanked := s.nextRanked + 1);
      if s.start <= port <= s.end {
        var rest := RankedFrom(s.ranked, t.nextRanked, s.start, s.end);
        assert ([port] + rest) + RestFrom(s.ranked, s.nextPort, s.end) == [port] + (rest + RestFrom(s.ranked, s.nextPort, s.end));
      } else {
        NextFirstIsHead(t);
      }
    } else if s.nextPort <= s.end {
      assert RankedFrom(s.ranked, s.nextRanked, s.start, s.end) == [];
      var t := s.(nextPort := s.nextPort + 1);
      if s.nextPort in s.ranked {
        NextFirstIsHead(t);
      }
    }
  }

  lemma {:induction false} RankedCounts(ranked: seq<nat>, from: nat, lo: nat, hi: nat, p: nat)
    requires from <= |ranked|
    ensures Count(RankedFrom(ranked, from, lo, hi), p) ==
            if lo <= p <= hi then Count(ranked[from..], p) else 0
    decreases |ranked| - from
  {
    if from < |ranked| {
      RankedCounts(ranked, from + 1, lo, hi, p);
      assert ranked[from..][1..] == ranked[from + 1..];
    } else {
      assert ranked[from..] == [];
    }
  }

  lemma {:induction false} RestCounts(ranked: seq<nat>, from: nat, hi: nat, p: nat)
    ensures Count(RestFrom(ranked, from, hi), p) == if from <= p <= hi && p !in ranked then 1 else 0
    decreases hi + 1 - from
  {
    if from <= hi {
      RestCounts(ranked, from + 1, hi, p);
    }
  }

  /** The first pass lists every port of the range exactly once and nothing else. */
  lemma FirstOrderIsTheRange(s: ScanState, p: nat)
    requires Distinct(s.ranked) && s.nextRanked == 0 && s.nextPort == s.start
    ensures Count(s.Remaining(), p) == if s.start <= p <= s.end then 1 else 0
  {
    var a, b := RankedFrom(s.ranked, 0, s.start, s.end), RestFrom(s.ranked, s.start, s.end);
    CountJoin(a, b, p);
    RankedCounts(s.ranked, 0, s.start, s.end, p);
    RestCounts(s.ranked, s.start, s.end, p);
    assert s.ranked[0..] == s.ranked;
    DistinctCounts(s.ranked, p);
    CountIn(s.ranked, p);
  }

  lemma {:induction false} CountShift(s: seq<nat>, lo: nat, t: seq<nat>, x: nat)
    requires |t| == |s| && forall i :: 0 <= i < |s| ==> s[i] >= lo && t[i] == s[i] - lo
    ensures Count(t, x) == Count(s, x + lo)
  {
    if s != [] {
      CountShift(s[1..], lo, t[1..], x);
    }
  }

  /** So it lists as many ports as the range has. */
  lemma FirstOrderLength(s: ScanState)
    requires Distinct(s.ranked) && s.nextRanked == 0 && s.nextPort == s.start <= s.end
    ensures |s.Remaining()| == s.end - s.start + 1
  {
    var order, n := s.Remaining(), s.end - s.start + 1;
    forall i | 0 <= i < |order| ensures s.start <= order[i] <= s.end {
      CountIn(order, order[i]);
      FirstOrderIsTheRange(s, order[i]);
    }
    var t: seq<nat> := seq(|order|, i requires 0 <= i < |order| => order[i] - s.start);
    forall x: nat ensures Count(t, x) == if x < n then 1 else 0 {
      CountShift(order, s.start, t, x);
      FirstOrderIsTheRange(s, x + s.start);
    }
    Pigeonhole(t, n);
  }
}
