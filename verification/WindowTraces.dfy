/** The congestion window told from its trace alone: what it takes for fastest, how long a
    halving lasts, when the host counts as dark, and from these every move of the size. */
module WindowTraces {
  import opened Basics
  import opened ConnectTypes
  import opened Window

  predicate IsAnswer(s: Sample) {
    s.outcome != Filtered
  }

  /** The least round trip answered so far. */
  function Least(trace: seq<Sample>): Option<nat> {
    if trace == [] then None
    else
      var before, last := Least(Front(trace)), Last(trace);
      if !IsAnswer(last) then before
      else if before.Some? then Some(Min(before.value, last.rtt))
      else Some(last.rtt)
  }

  lemma {:induction false} LeastIsLeast(trace: seq<Sample>)
    ensures forall k :: 0 <= k < |trace| && IsAnswer(trace[k]) ==>
              Least(trace).Some? && Least(trace).value <= trace[k].rtt
    ensures Least(trace).Some? ==>
              exists k :: 0 <= k < |trace| && IsAnswer(trace[k]) && trace[k].rtt == Least(trace).value
  {
    if trace != [] {
      LeastIsLeast(Front(trace));
      if Least(Front(trace)).Some? {
        var k :| 0 <= k < |trace| - 1 && IsAnswer(trace[k]) && trace[k].rtt == Least(Front(trace)).value;
      }
    }
  }

  /** The last sample is an answer above twice the least one, itself included, plus the
      slack. */
  predicate EndsSlow(trace: seq<Sample>)
    requires trace != []
  {
    IsAnswer(Last(trace)) && Last(trace).rtt > 2 * Least(trace).value + SLACK_US
  }

  predicate EndsPrompt(trace: seq<Sample>)
    requires trace != []
  {
    IsAnswer(Last(trace)) && Last(trace).rtt <= 2 * Least(trace).value + SLACK_US
  }

  /** When the round trip of the latest halving is over; 0 before the first. A slow answer
      halves unless it comes within the round trip of the halving before. */
  function HoldEnd(trace: seq<Sample>): int {
    if trace == [] then 0
    else if EndsSlow(trace) && Last(trace).now >= HoldEnd(Front(trace)) then
      Last(trace).now + Last(trace).rtt * NS_PER_US
    else HoldEnd(Front(trace))
  }

  /** When the last answer came, 0 before the first. */
  function AnsweredAt(trace: seq<Sample>): int {
    if trace == [] then 0
    else if IsAnswer(Last(trace)) then Last(trace).now
    else AnsweredAt(Front(trace))
  }

  /** The last sample is silence that turns the host dark: it answered at least half of all
      its probes, and for DARK_NS nothing. */
  predicate EndsDark(trace: seq<Sample>)
    requires trace != []
  {
    && !IsAnswer(Last(trace))
    && Answers(trace) > 0 && 2 * Answers(trace) >= |trace|
    && Last(trace).now - AnsweredAt(trace) >= DARK_NS
  }

  /** Dark from such a silence on, up to the next answer. */
  predicate IsDark(trace: seq<Sample>) {
    trace != [] && !IsAnswer(Last(trace)) && (IsDark(Front(trace)) || EndsDark(trace))
  }

  /** What the window remembers is what the trace tells. */
  lemma {:induction false} RemembersTheTrace(min: nat, max: nat, trace: seq<Sample>)
    requires 1 <= min <= max
    ensures var w := Init(min, max, Adaptive).ObserveAll(trace);
            && w.Valid() && w.min == min && w.max == max && w.adaptive
            && w.settled == |trace| && w.answered == Answers(trace)
            && w.fastest == Least(trace) && w.holdUntil == HoldEnd(trace)
            && w.lastAnswer == AnsweredAt(trace) && w.dark == IsDark(trace)
  {
    if trace != [] {
      RemembersTheTrace(min, max, Front(trace));
      StaysInBounds(Init(min, max, Adaptive), trace);
    }
  }

  /** How the size moves on the last sample of a trace. A slow answer halves it, a prompt one
      adds one, and silence adds one too unless the host is dark, or turns dark and drops it
      to the minimum; but while the round trip of a halving lasts nothing but the dark moves
      it. */
  function Moved(size: nat, min: nat, max: nat, trace: seq<Sample>): nat
    requires trace != []
  {
    var held := Last(trace).now < HoldEnd(Front(trace));
    if !IsAnswer(Last(trace)) && IsDark(Front(trace)) then size
    else if !IsAnswer(Last(trace)) && EndsDark(trace) then min
    else if held then size
    else if EndsSlow(trace) then Max(min, size / 2)
    else Min(max, size + 1)
  }

  /** Every move of an adaptive window, told from the trace alone. */
  lemma MovesExactly(min: nat, max: nat, trace: seq<Sample>)
    requires 1 <= min <= max && trace != []
    ensures var w := Init(min, max, Adaptive);
            w.ObserveAll(trace).size == Moved(w.ObserveAll(Front(trace)).size, min, max, trace)
  {
    RemembersTheTrace(min, max, Front(trace));
    RemembersTheTrace(min, max, trace);
  }

  /** So while answers stay prompt the window opens by one for each, up to its maximum. */
  lemma {:induction false} PromptAnswersOpenIt(min: nat, max: nat, trace: seq<Sample>)
    requires 1 <= min <= max
    requires forall n :: 0 < n <= |trace| ==> EndsPrompt(trace[..n]) && trace[n - 1].now >= 0
    ensures Init(min, max, Adaptive).ObserveAll(trace).size == Min(max, min + |trace|)
    ensures HoldEnd(trace) == 0
  {
    if trace != [] {
      var front := Front(trace);
      forall n | 0 < n <= |front| ensures EndsPrompt(front[..n]) && front[n - 1].now >= 0 {
        assert front[..n] == trace[..n];
      }
      PromptAnswersOpenIt(min, max, front);
      assert trace[..|trace|] == trace;
      MovesExactly(min, max, trace);
    }
  }
}
