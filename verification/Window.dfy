/** The congestion window of src/core/connects.zig, as a value stepped by one observation
    at a time, as the struct the source updates, and over whole traces. */
module Window {
  import opened Basics
  import opened ConnectTypes

  const SLACK_US := 20_000
  const DARK_NS := 500_000_000

  datatype Pace = Adaptive | Fixed | Pool

  /** What the window learns from one verdict: `rtt` is in microseconds, and `now` need
      not grow from one sample to the next, since several loops take turns reporting. */
  datatype Sample = Sample(outcome: Outcome, rtt: nat, now: int)

  datatype WindowState = WindowState(
    size: nat,
    min: nat,
    max: nat,
    fastest: Option<nat>,
    holdUntil: int,
    adaptive: bool,
    settled: nat,
    answered: nat,
    lastAnswer: int,
    dark: bool)
  {
    ghost predicate Valid() {
      1 <= min <= size <= max && answered <= settled && (dark ==> size == min)
    }

    /** The fastest answer once `rtt` is in. */
    function Fastest(rtt: nat): nat {
      if fastest.Some? then Min(fastest.value, rtt) else rtt
    }

    /** An answer slow enough to count as queueing. */
    predicate Slow(s: Sample) {
      s.outcome != Filtered && s.rtt > 2 * Fastest(s.rtt) + SLACK_US
    }

    /** The sample makes the window halve. */
    predicate Cuts(s: Sample) {
      adaptive && Slow(s) && s.now >= holdUntil
    }

    /** The silence that makes the host count as dark. */
    predicate TurnsDark(s: Sample) {
      && adaptive && !dark && s.outcome == Filtered
      && answered > 0 && 2 * answered >= settled + 1
      && s.now - lastAnswer >= DARK_NS
    }

    /** The state after one sample. */
    function Observe(s: Sample): WindowState {
      if !adaptive then this
      else if s.outcome == Filtered then
        var w := this.(settled := settled + 1);
        if dark then w
        else if TurnsDark(s) then w.(dark := true, size := min)
        else if s.now < holdUntil then w
        else w.(size := Min(max, size + 1))
      else
        var w := this.(settled := settled + 1, answered := answered + 1,
          lastAnswer := s.now, dark := false, fastest := Some(Fastest(s.rtt)));
        if Cuts(s) then
          w.(size := Max(min, size / 2), holdUntil := s.now + s.rtt * NS_PER_US)
        else if Slow(s) || s.now < holdUntil then w
        else w.(size := Min(max, size + 1))
    }

    function ObserveAll(trace: seq<Sample>): WindowState {
      if trace == [] then this
      else ObserveAll(Front(trace)).Observe(Last(trace))
    }
  }

  function Init(min: nat, max: nat, pace: Pace): WindowState
    requires 1 <= min <= max
  {
    WindowState(
      if pace == Fixed then max else min, min, if pace == Pool then min else max,
      None, 0, pace == Adaptive, 0, 0, 0, false)
  }

  /** Window as the source keeps it: one struct updated in place. */
  class Window {
    var size: nat
    var min: nat
    var max: nat
    var fastest: Option<nat>
    var holdUntil: int
    var adaptive: bool
    var settled: nat
    var answered: nat
    var lastAnswer: int
    var dark: bool

    ghost function State(): WindowState
      reads this
    {
      WindowState(size, min, max, fastest, holdUntil, adaptive, settled, answered, lastAnswer, dark)
    }

    constructor (lo: nat, hi: nat, pace: Pace)
      requires 1 <= lo <= hi
      ensures State() == Init(lo, hi, pace) && State().Valid()
    {
      size := if pace == Fixed then hi else lo;
      min := lo;
      max := if pace == Pool then lo else hi;
      fastest, holdUntil, adaptive := None, 0, pace == Adaptive;
      settled, answered, lastAnswer, dark := 0, 0, 0, false;
    }

    method Observe(outcome: Outcome, rtt: nat, now: int)
      modifies this
      ensures State() == old(State()).Observe(Sample(outcome, rtt, now))
    {
      if !adaptive { return; }
      settled := settled + 1;
      if outcome != Filtered {
        answered := answered + 1;
        lastAnswer := now;
        dark := false;
        var best := if fastest.Some? then Min(fastest.value, rtt) else rtt;
        fastest := Some(best);
        if rtt > 2 * best + SLACK_US {
          if now >= holdUntil {
            size := Max(min, size / 2);
            holdUntil := now + rtt * NS_PER_US;
          }
          return;
        }
      }
      if outcome == Filtered {
        var gone := GoneDark(now);
        if gone { return; }
      }
      if now < holdUntil { return; }
      size := Min(max, size + 1);
    }

    method GoneDark(now: int) returns (gone: bool)
      modifies this`dark, this`size
      ensures gone == (old(dark) || (answered > 0 && 2 * answered >= settled && now - lastAnswer >= DARK_NS))
      ensures dark == gone
      ensures size == if gone && !old(dark) then min else old(size)
    {
      if dark { return true; }
      if answered == 0 || 2 * answered < settled { return false; }
      if now - lastAnswer < DARK_NS { return false; }
      dark := true;
      size := min;
      return true;
    }
  }

  // ---- Over any trace ------------------------------------------------------

  /** The bounds hold at every moment of every run, and a dark host is always
      asked at the minimum; the bounds themselves never move. */
  lemma {:induction false} StaysInBounds(w: WindowState, trace: seq<Sample>)
    requires w.Valid()
    ensures w.ObserveAll(trace).Valid()
    ensures w.ObserveAll(trace).min == w.min && w.ObserveAll(trace).max == w.max
    ensures w.ObserveAll(trace).adaptive == w.adaptive
  {
    if trace != [] {
      StaysInBounds(w, Front(trace));
    }
  }

  /** A fixed or pool-paced window never moves, whatever it observes. */
  lemma {:induction false} OnlyAdaptiveMoves(min: nat, max: nat, pace: Pace, trace: seq<Sample>)
    requires 1 <= min <= max && pace != Adaptive
    ensures Init(min, max, pace).ObserveAll(trace) == Init(min, max, pace)
    ensures Init(min, max, pace).size == if pace == Fixed then max else min
  {
    if trace != [] {
      OnlyAdaptiveMoves(min, max, pace, Front(trace));
    }
  }

  /** The size falls in just two ways: an answer slower than twice the fastest
      one plus the slack halves it, or the host goes dark. */
  lemma OnlyTwoWaysDown(w: WindowState, s: Sample)
    requires w.Valid() && w.Observe(s).size < w.size
    ensures (w.Cuts(s) && w.Observe(s).size == Max(w.min, w.size / 2)) ||
            (w.TurnsDark(s) && w.Observe(s).size == w.min && w.Observe(s).dark)
    ensures w.Observe(s).size >= w.size / 2 || w.Observe(s).dark
  {
  }

  /** Sample i of a trace halves the window. */
  ghost predicate CutAt(w: WindowState, trace: seq<Sample>, i: nat) {
    i < |trace| && w.ObserveAll(trace[..i]).Cuts(trace[i])
  }

  lemma {:induction false} HoldSince(w: WindowState, trace: seq<Sample>, i: nat, k: nat)
    requires CutAt(w, trace, i) && i < k <= |trace|
    requires forall j :: i < j < k ==> !CutAt(w, trace, j)
    ensures w.ObserveAll(trace[..k]).holdUntil == trace[i].now + trace[i].rtt * NS_PER_US
  {
    assert Front(trace[..k]) == trace[..k - 1];
    if k > i + 1 {
      HoldSince(w, trace, i, k - 1);
      assert !CutAt(w, trace, k - 1);
    }
  }

  /** Two halvings in a row lie at least the first one's slow round trip apart,
      and until that round trip is over nothing makes the window grow: not even
      prompt answers, and not even when clock readings arrive out of order. */
  lemma OneCutPerRoundTrip(w: WindowState, trace: seq<Sample>, i: nat, k: nat)
    requires w.Valid() && CutAt(w, trace, i) && i < k < |trace|
    requires forall j :: i < j < k ==> !CutAt(w, trace, j)
    ensures CutAt(w, trace, k) ==> trace[k].now - trace[i].now >= trace[i].rtt * NS_PER_US
    ensures trace[k].now - trace[i].now < trace[i].rtt * NS_PER_US ==>
              w.ObserveAll(trace[..k + 1]).size <= w.ObserveAll(trace[..k]).size
  {
    HoldSince(w, trace, i, k);
    assert Front(trace[..k + 1]) == trace[..k];
    StaysInBounds(w, trace[..k]);
  }

  function Answers(trace: seq<Sample>): nat {
    if trace == [] then 0
    else Answers(Front(trace)) + (if Last(trace).outcome == Filtered then 0 else 1)
  }

  lemma {:induction false} Tallies(min: nat, max: nat, trace: seq<Sample>)
    requires 1 <= min <= max
    ensures var w := Init(min, max, Adaptive).ObserveAll(trace);
            w.adaptive && w.settled == |trace| && w.answered == Answers(trace)
  {
    if trace != [] {
      Tallies(min, max, Front(trace));
    }
  }

  /** A host that answers fewer than half of its probes, counted at every moment
      of the run, never goes dark. */
  lemma {:induction false} QuietHostsAreNeverDark(min: nat, max: nat, trace: seq<Sample>)
    requires 1 <= min <= max
    requires forall n :: 0 < n <= |trace| && trace[n - 1].outcome == Filtered ==> 2 * Answers(trace[..n]) < n
    ensures !Init(min, max, Adaptive).ObserveAll(trace).dark
  {
    if trace != [] {
      var front := Front(trace);
      forall n | 0 < n <= |front| && front[n - 1].outcome == Filtered
        ensures 2 * Answers(front[..n]) < n
      {
        assert front[..n] == trace[..n];
      }
      QuietHostsAreNeverDark(min, max, front);
      Tallies(min, max, front);
      assert trace[..|trace|] == trace;
    }
  }
}
