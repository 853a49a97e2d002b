/** The round-trip estimator of src/core/rtt.zig (section 2 of RFC 6298), in whole
    microseconds with truncating division. */
module Rtt {
  import opened Basics

  const US_PER_MS := 1_000

  function Distance(a: nat, b: nat): nat {
    if a > b then a - b else b - a
  }

  datatype Estimate = Estimate(
    floorMs: nat,
    headroomMs: nat,
    ceilingMs: nat,
    srtt: Option<nat>,
    rttvar: nat)
  {
    ghost predicate Valid() {
      floorMs <= ceilingMs
    }

    /** Learn from one answer that took `rtt`. The variation moves first. */
    function Observe(rtt: nat): Estimate {
      if srtt.None? then this.(srtt := Some(rtt), rttvar := rtt / 2)
      else
        this.(rttvar := (3 * rttvar + Distance(srtt.value, rtt)) / 4,
              srtt := Some((7 * srtt.value + rtt) / 8))
    }

    function ObserveAll(samples: seq<nat>): Estimate {
      if samples == [] then this else ObserveAll(Front(samples)).Observe(Last(samples))
    }

    /** The timeout that follows from what was observed, in whole milliseconds. */
    function TimeoutMs(): nat {
      if srtt.None? then ceilingMs
      else
        Clamp(CeilDiv(srtt.value + Max(4 * rttvar, headroomMs * US_PER_MS), US_PER_MS), floorMs, ceilingMs)
    }
  }

  function Init(floorMs: nat, headroomMs: nat, ceilingMs: nat): Estimate {
    Estimate(floorMs, headroomMs, ceilingMs, None, 0)
  }

  /** The estimator as the source keeps it. */
  class Estimator {
    const floorMs: nat
    const headroomMs: nat
    const ceilingMs: nat
    var srtt: Option<nat>
    var rttvar: nat

    ghost function State(): Estimate
      reads this
    {
      Estimate(floorMs, headroomMs, ceilingMs, srtt, rttvar)
    }

    constructor (floorMs: nat, headroomMs: nat, ceilingMs: nat)
      requires floorMs <= ceilingMs
      ensures State() == Init(floorMs, headroomMs, ceilingMs)
    {
      this.floorMs, this.headroomMs, this.ceilingMs := floorMs, headroomMs, ceilingMs;
      srtt, rttvar := None, 0;
    }

    method Observe(rtt: nat)
      modifies this
      ensures State() == old(State()).Observe(rtt)
    {
      if srtt.None? {
        srtt := Some(rtt);
        rttvar := rtt / 2;
        return;
      }
      var smoothed := srtt.value;
      var deviation := if smoothed > rtt then smoothed - rtt else rtt - smoothed;
      rttvar := (3 * rttvar + deviation) / 4;
      srtt := Some((7 * smoothed + rtt) / 8);
    }

    method TimeoutMs() returns (ms: nat)
      requires floorMs <= ceilingMs
      ensures ms == State().TimeoutMs()
    {
      if srtt.None? { return ceilingMs; }
      var headroom := Max(4 * rttvar, headroomMs * US_PER_MS);
      var wait := (srtt.value + headroom + US_PER_MS - 1) / US_PER_MS;
      ms := Clamp(wait, floorMs, ceilingMs);
    }
  }

  // ---- Over any samples -----------------------------------------------------------

  /** Over any samples the smoothed round trip stays between the least and the
      greatest of them, and the variation at most the greatest. */
  lemma {:induction false} StaysAmongSamples(e: Estimate, samples: seq<nat>, lo: nat, hi: nat)
    requires e.srtt.None? && samples != []
    requires forall i :: 0 <= i < |samples| ==> lo <= samples[i] <= hi
    ensures var e' := e.ObserveAll(samples);
            e'.srtt.Some? && lo <= e'.srtt.value <= hi && e'.rttvar <= hi
  {
    if |samples| == 1 {
      assert Front(samples) == [];
    } else {
      StaysAmongSamples(e, Front(samples), lo, hi);
      assert lo <= Last(samples) <= hi;
    }
  }

  /** The bounds never change, and every wait lies between them. */
  lemma {:induction false} WaitsWithinBounds(e: Estimate, samples: seq<nat>)
    requires e.Valid()
    ensures var e' := e.ObserveAll(samples);
            && e'.floorMs == e.floorMs && e'.headroomMs == e.headroomMs && e'.ceilingMs == e.ceilingMs
            && e.floorMs <= e'.TimeoutMs() <= e.ceilingMs
  {
    if samples != [] {
      WaitsWithinBounds(e, Front(samples));
    }
  }

  // ---- Constant samples -------------------------------------------------------------

  function Steady(e: Estimate, r: nat, n: nat): Estimate {
    if n == 0 then e else Steady(e, r, n - 1).Observe(r)
  }

  /** Where integer rounding lets srtt come to rest under constant samples r. */
  predicate Smooth(e: Estimate, r: nat) {
    e.srtt.Some? && r - 7 <= e.srtt.value <= r
  }

  /** Fully settled: the variation has come to rest as well. */
  predicate Settled(e: Estimate, r: nat) {
    Smooth(e, r) && e.rttvar <= 7
  }

  /** A sample r moves srtt strictly closer until it is at rest, and then leaves it
      exactly there. */
  lemma SampleMovesCloser(e: Estimate, r: nat)
    requires e.srtt.Some?
    ensures e.Observe(r).srtt.Some?
    ensures Smooth(e, r) ==> e.Observe(r).srtt == e.srtt
    ensures !Smooth(e, r) ==> Distance(e.Observe(r).srtt.value, r) < Distance(e.srtt.value, r)
  {
  }

  lemma {:induction false} SmoothAfter(e: Estimate, r: nat, n: nat)
    requires e.srtt.Some?
    ensures var e' := Steady(e, r, n);
            e'.srtt.Some? && (Smooth(e', r) || Distance(e'.srtt.value, r) + n <= Distance(e.srtt.value, r))
  {
    if n > 0 {
      SmoothAfter(e, r, n - 1);
      SampleMovesCloser(Steady(e, r, n - 1), r);
    }
  }

  /** Once srtt is at rest the variation falls by one a sample until it is too. */
  lemma {:induction false} VariationAfter(e: Estimate, r: nat, n: nat)
    requires Smooth(e, r)
    ensures var e' := Steady(e, r, n);
            e'.srtt == e.srtt && (e'.rttvar <= 7 || e'.rttvar + n <= e.rttvar)
  {
    if n > 0 {
      VariationAfter(e, r, n - 1);
      SampleMovesCloser(Steady(e, r, n - 1), r);
    }
  }

  lemma {:induction false} SteadyAdds(e: Estimate, r: nat, m: nat, n: nat)
    ensures Steady(Steady(e, r, m), r, n) == Steady(e, r, m + n)
  {
    if n > 0 {
      SteadyAdds(e, r, m, n - 1);
    }
  }

  lemma SteadyInThree(e: Estimate, r: nat, a: nat, b: nat, c: nat)
    ensures Steady(Steady(Steady(e, r, a), r, b), r, c) == Steady(e, r, a + b + c)
  {
    SteadyAdds(Steady(e, r, a), r, b, c);
    SteadyAdds(e, r, a, b + c);
  }

  /** From any state, constant samples r settle the estimator for good: from some
      sample on, srtt is one fixed value in r-7..r and rttvar lies in 0..7. */
  lemma ConstantSamplesSettle(e: Estimate, r: nat) returns (from: nat)
    ensures forall n :: n >= from ==> Settled(Steady(e, r, n), r)
    ensures forall n :: n >= from ==> Steady(e, r, n).srtt == Steady(e, r, from).srtt
  {
    var e1 := Steady(e, r, 1);
    assert e1 == Steady(e, r, 0).Observe(r);
    var n1 := Distance(e1.srtt.value, r) + 1;
    SmoothAfter(e1, r, n1);
    var e2 := Steady(e1, r, n1);
    from := 1 + n1 + (e2.rttvar + 1);
    forall n | n >= from
      ensures Settled(Steady(e, r, n), r) && Steady(e, r, n).srtt == e2.srtt
    {
      VariationAfter(e2, r, n - n1 - 1);
      SteadyInThree(e, r, 1, n1, n - n1 - 1);
    }
  }

  /** With 40 ms of headroom a settled estimator waits the clamped round trip plus
      headroom, up to one millisecond less for what rounding keeps below r. */
  lemma SettledWait(e: Estimate, r: nat)
    requires e.Valid() && e.headroomMs == 40 && Settled(e, r)
    ensures var wait := Clamp(CeilDiv(r + 40_000, US_PER_MS), e.floorMs, e.ceilingMs);
            wait - 1 <= e.TimeoutMs() <= wait
  {
  }

  // ---- The standard ---------------------------------------------------------------------

  /** Rules 2.2 and 2.3 of RFC 6298, in whole numbers: the first sample is taken as it is,
      with half of it for variation; after that the new values are 7/8 and 3/4 of the old
      ones and 1/8 and 1/4 of what came in, rounded down, the variation against the old
      smoothed value. */
  lemma ObserveFollowsTheStandard(e: Estimate, rtt: nat)
    ensures var e' := e.Observe(rtt);
            && e'.srtt.Some?
            && (e.srtt.None? ==> e'.srtt.value == rtt && 2 * e'.rttvar <= rtt < 2 * e'.rttvar + 2)
            && (e.srtt.Some? ==>
                  var dev := if rtt > e.srtt.value then rtt - e.srtt.value else e.srtt.value - rtt;
                  && 8 * e'.srtt.value <= 7 * e.srtt.value + rtt < 8 * e'.srtt.value + 8
                  && 4 * e'.rttvar <= 3 * e.rttvar + dev < 4 * e'.rttvar + 4)
  {
  }

  /** Below the ceiling a wait covers the smoothed round trip plus four variations and plus
      the headroom; above the floor it is less than a millisecond longer than one of the two
      asks for. Before the first sample it is the ceiling. */
  lemma WaitCoversVariation(e: Estimate)
    requires e.Valid()
    ensures e.srtt.None? ==> e.TimeoutMs() == e.ceilingMs
    ensures e.srtt.Some? && e.TimeoutMs() < e.ceilingMs ==>
              && e.TimeoutMs() * 1_000 >= e.srtt.value + 4 * e.rttvar
              && e.TimeoutMs() * 1_000 >= e.srtt.value + e.headroomMs * 1_000
    ensures e.srtt.Some? && e.TimeoutMs() > e.floorMs ==>
              || (e.TimeoutMs() - 1) * 1_000 < e.srtt.value + 4 * e.rttvar
              || (e.TimeoutMs() - 1) * 1_000 < e.srtt.value + e.headroomMs * 1_000
  {
  }
}
