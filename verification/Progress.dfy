/** Counting a scan's progress (src/core/progress.zig): workers bump a counter
    without a lock, and whoever crosses a whole percent claims the newest count
    under the output lock. */
module Progress {
  import opened Basics

  datatype Phase = Ports | SweepHosts | Arp | Identify

  /** Whole percents finished. */
  function Percent(done: nat, total: nat): nat
    requires total > 0
  {
    done * 100 / total
  }

  predicate CrossesPercent(done: nat, total: nat) {
    total > 0 && 0 < done <= total && Percent(done, total) != Percent(done - 1, total)
  }

  // ---- The tracker ----------------------------------------------------------------

  datatype TrackerState = TrackerState(found: nat, done: nat, phase: Option<Phase>, total: nat, lastClaimed: nat)
  {
    /** The count a claim made now prints, if any. */
    function Claimable(): Option<nat> {
      var newest := Min(done, total);
      if newest <= lastClaimed then None else Some(newest)
    }
  }

  class Tracker {
    var found: nat
    var done: nat
    var phase: Option<Phase>
    var total: nat
    var lastClaimed: nat

    ghost function State(): TrackerState
      reads this
    {
      TrackerState(found, done, phase, total, lastClaimed)
    }

    constructor ()
      ensures State() == TrackerState(0, 0, None, 0, 0)
    {
      found, done, phase, total, lastClaimed := 0, 0, None, 0, 0;
    }

    method StartPhase(phase: Phase, total: nat)
      modifies this
      ensures State() == TrackerState(old(found), 0, Some(phase), total, 0)
    {
      this.phase := Some(phase);
      this.total := total;
      done := 0;
      lastClaimed := 0;
    }

    method Advance() returns (due: bool)
      modifies this`done
      ensures done == old(done) + 1 && due == CrossesPercent(done, total)
    {
      done := done + 1;
      if total == 0 || done > total { return false; }
      return done * 100 / total != (done - 1) * 100 / total;
    }

    method AddFound()
      modifies this`found
      ensures found == old(found) + 1
    {
      found := found + 1;
    }

    method Claim() returns (count: Option<nat>)
      modifies this`lastClaimed
      ensures count == old(State()).Claimable()
      ensures lastClaimed == if count.Some? then count.value else old(lastClaimed)
    {
      var newest := Min(done, total);
      if newest <= lastClaimed { return None; }
      lastClaimed := newest;
      return Some(newest);
    }

    /** What a display reads: a count that never exceeds its phase's total, so a
        percentage that never exceeds 100. */
    method Snapshot() returns (p: Option<Phase>, d: nat, t: nat, f: nat)
      ensures p == phase && t == total && f == found && d == Min(done, total)
      ensures t > 0 ==> Percent(d, t) <= 100
    {
      p, d, t, f := phase, Min(done, total), total, found;
      if t > 0 {
        PercentGrows(d, t, t);
        DivModUnique(t * 100, t, 100, 0);
      }
    }
  }

  lemma PercentGrows(a: nat, b: nat, total: nat)
    requires a <= b && total > 0
    ensures Percent(a, total) <= Percent(b, total)
  {
    var q, p := a * 100 / total, b * 100 / total;
    assert a * 100 == total * q + a * 100 % total;
    assert b * 100 == total * p + b * 100 % total;
    assert total * (p + 1) == total * p + total;
    LessFactor(total, q, p + 1);
  }

  /** Finishing the final unit is always an event, and the one that shows 100%. */
  lemma LastUnitCrosses(total: nat)
    requires total > 0
    ensures CrossesPercent(total, total) && Percent(total, total) == 100
  {
    DivModUnique(total * 100, total, 100, 0);
    var q := (total - 1) * 100 / total;
    assert (total - 1) * 100 == total * q + (total - 1) * 100 % total;
    LessFactor(total, q, 100);
  }

  // ---- Workers racing ---------------------------------------------------------------

  /** Workers of one phase and their claims. `waiting` is how many crossed a percent
      and have not had the output lock since. */
  datatype Race = Race(total: nat, done: nat, lastClaimed: nat, waiting: nat, claims: seq<nat>)

  /** A worker's two atomic steps: the unlocked fetch-and-add, and the claim with the
      lock held. */
  datatype Move = AdvanceMove | ClaimMove

  function Step(r: Race, m: Move): Race {
    match m
    case AdvanceMove =>
      if r.done == r.total then r
      else
        r.(done := r.done + 1, waiting := r.waiting + if CrossesPercent(r.done + 1, r.total) then 1 else 0)
    case ClaimMove =>
      if r.waiting == 0 then r
      else
        var count := TrackerState(0, r.done, None, r.total, r.lastClaimed).Claimable();
        if count == None then r.(waiting := r.waiting - 1)
        else r.(waiting := r.waiting - 1, lastClaimed := count.value, claims := r.claims + [count.value])
  }

  function RunRace(total: nat, moves: seq<Move>): Race {
    if moves == [] then Race(total, 0, 0, 0, [])
    else Step(RunRace(total, Front(moves)), Last(moves))
  }

  ghost predicate Increasing(s: seq<nat>) {
    forall i, j :: 0 <= i < j < |s| ==> s[i] < s[j]
  }

  ghost predicate RaceInv(r: Race) {
    && r.lastClaimed <= r.done <= r.total
    && Increasing(r.claims)
    && (forall i :: 0 <= i < |r.claims| ==> 0 < r.claims[i] <= r.lastClaimed)
    && (if r.claims == [] then r.lastClaimed == 0 else Last(r.claims) == r.lastClaimed)
    && |r.claims| + r.waiting <= (if r.total == 0 then 0 else Percent(r.done, r.total))
    && (r.done == r.total && r.total > 0 ==> r.waiting > 0 || r.lastClaimed == r.total)
    && (r.total > 0 && r.waiting == 0 ==> Percent(r.lastClaimed, r.total) == Percent(r.done, r.total))
  }

  lemma AdvanceKeeps(r: Race)
    requires RaceInv(r) && r.done < r.total
    ensures RaceInv(Step(r, AdvanceMove))
  {
    PercentGrows(r.done, r.done + 1, r.total);
    if r.done + 1 == r.total {
      LastUnitCrosses(r.total);
    }
  }

  lemma {:induction false} RaceKeeps(total: nat, moves: seq<Move>)
    ensures RaceInv(RunRace(total, moves)) && RunRace(total, moves).total == total
  {
    if moves != [] {
      RaceKeeps(total, Front(moves));
      var r := RunRace(total, Front(moves));
      if Last(moves) == AdvanceMove && r.done < r.total {
        AdvanceKeeps(r);
      }
    } else if total > 0 {
      assert Percent(0, total) == 0;
    }
  }

  /** However the workers race, the claimed counts strictly increase and there are at
      most 100 of them. Once every unit is finished and no worker is still waiting for
      the lock, the last one is the total, and it was claimed exactly once. */
  lemma ClaimsAreOrdered(total: nat, moves: seq<Move>)
    ensures var r := RunRace(total, moves);
            && Increasing(r.claims) && |r.claims| <= 100
            && (forall i :: 0 <= i < |r.claims| ==> 0 < r.claims[i] <= total)
            && (r.done == total && r.waiting == 0 && total > 0 ==>
                  r.claims != [] && Last(r.claims) == total
                  && forall i :: 0 <= i < |r.claims| - 1 ==> r.claims[i] != total)
  {
    RaceKeeps(total, moves);
    var r := RunRace(total, moves);
    if total > 0 {
      PercentGrows(r.done, total, total);
      LastUnitCrosses(total);
    }
  }

  /** Whenever no worker waits for the lock, the count claimed last shows the percentage
      reached. */
  lemma ClaimsKeepUp(total: nat, moves: seq<Move>)
    requires total > 0
    ensures var r := RunRace(total, moves);
            r.waiting == 0 ==> Percent(r.lastClaimed, total) == Percent(r.done, total)
    ensures var r := RunRace(total, moves);
            r.lastClaimed == if r.claims == [] then 0 else Last(r.claims)
  {
    RaceKeeps(total, moves);
  }

  // ---- Which units count --------------------------------------------------------------------

  lemma PercentReached(done: nat, total: nat, p: nat)
    requires total > 0
    ensures Percent(done, total) >= p <==> p * total <= done * 100
  {
    var q, rest := done * 100 / total, done * 100 % total;
    assert done * 100 == total * q + rest;
    assert total * (q + 1) == total * q + total;
    if q >= p {
      Times(total, p, q);
    } else {
      Times(total, q + 1, p);
    }
  }

  lemma Times(n: nat, a: nat, b: nat)
    requires a <= b
    ensures n * a <= n * b
  {
    assert n * b == n * a + n * (b - a);
  }

  /** A unit is an event exactly if it brings the phase to some whole percent it was short of
      before. */
  lemma CrossesExactly(done: nat, total: nat)
    requires 0 < done <= total
    ensures CrossesPercent(done, total) <==>
            exists p: nat :: p * total <= done * 100 && (done - 1) * 100 < p * total
  {
    var now, before := Percent(done, total), Percent(done - 1, total);
    PercentGrows(done - 1, done, total);
    PercentReached(done, total, now);
    PercentReached(done - 1, total, now);
    if CrossesPercent(done, total) {
      assert now * total <= done * 100 && (done - 1) * 100 < now * total;
    }
    if p: nat :| p * total <= done * 100 && (done - 1) * 100 < p * total {
      PercentReached(done, total, p);
      PercentReached(done - 1, total, p);
    }
  }

  /** How many of the first units are events. */
  function Crossings(done: nat, total: nat): nat {
    if done == 0 then 0 else Crossings(done - 1, total) + if CrossesPercent(done, total) then 1 else 0
  }

  lemma OneStep(done: nat, total: nat)
    requires 0 < done <= total
    ensures total >= 100 ==> Percent(done, total) <= Percent(done - 1, total) + 1
    ensures total <= 100 ==> Percent(done, total) > Percent(done - 1, total)
  {
    var p := Percent(done - 1, total);
    PercentReached(done - 1, total, p);
    PercentReached(done - 1, total, p + 1);
    PercentReached(done, total, p + 1);
    PercentReached(done, total, p + 2);
    assert (p + 1) * total == p * total + total && (p + 2) * total == (p + 1) * total + total;
  }

  lemma {:induction false} CrossingsCount(done: nat, total: nat)
    requires done <= total && total > 0
    ensures Crossings(done, total) == if total >= 100 then Percent(done, total) else done
  {
    if done == 0 {
      assert Percent(0, total) == 0;
    } else {
      CrossingsCount(done - 1, total);
      PercentGrows(done - 1, done, total);
      OneStep(done, total);
    }
  }

  /** A phase has one event for each whole percent, or, with fewer than 100 units, one for
      each unit. */
  lemma EventsOfAPhase(total: nat)
    requires total > 0
    ensures Crossings(total, total) == Min(total, 100)
  {
    CrossingsCount(total, total);
    LastUnitCrosses(total);
  }
}
