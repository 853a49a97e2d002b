/** What src/core/connects.zig passes around: outcomes, verdicts, targets, and
    the time arithmetic around a connect. Times are nanoseconds on one clock. */
module ConnectTypes {
  import opened Basics

  const NS_PER_US := 1_000
  const NS_PER_MS := 1_000_000
  const US_PER_MS := 1_000
  const MAX_C_INT := 0x7FFF_FFFF

  datatype Outcome = Open | Refused | Filtered

  /** What finishing a connect yields. `Unconfirmed` stands for a success on a local
      address, where the other end may be a second connect of the same run. */
  datatype Verdict = Known(outcome: Outcome) | Unconfirmed
  {
    function Alone(): Outcome {
      match this
      case Known(o) => o
      case Unconfirmed => Open
    }
  }

  datatype Target = Target(ip: nat, port: nat, timeoutMs: nat, cutFloorMs: Option<nat>)

  /** A job as the port scan hands it out (PortProbe). The engine reads only
      `target`; the two flags come back unchanged with the verdict. */
  datatype Job = Job(target: Target, deferrable: bool, blind: bool)

  /** What shortens waits: the source's learned wait, if it has one, and the time of the
      latest answer to a connect with a cut floor. */
  datatype Cut = Cut(waitMs: Option<nat>, lastAnswer: int)

  /** Why the machine refused to start a connect. */
  datatype Shortage = NoSocket | NoAddress

  /** What starting a connect came to. */
  datatype Attempt = AtOnce(verdict: Verdict) | Pending(sock: nat) | Unprobed(shortage: Shortage)

  /** Milliseconds until `deadline`, rounded up, at most what a C int holds. */
  function MsUntil(now: int, deadline: int): nat {
    if deadline <= now then 0
    else Min((deadline - now + NS_PER_MS - 1) / NS_PER_MS, MAX_C_INT)
  }

  function ElapsedUs(started: int, finished: int): nat {
    Max(0, DivTrunc(finished - started, NS_PER_US))
  }

  /** That many whole microseconds went by between the two readings, none if the clock
      went backwards. */
  predicate Measures(started: int, finished: int, us: nat) {
    if finished < started then us == 0
    else us * 1_000 <= finished - started < (us + 1) * 1_000
  }

  lemma ElapsedMeasures(started: int, finished: int)
    ensures forall us: nat :: Measures(started, finished, us) <==> us == ElapsedUs(started, finished)
  {
    if finished >= started {
      var gap := finished - started;
      assert gap == NS_PER_US * (gap / NS_PER_US) + gap % NS_PER_US;
      forall us: nat | Measures(started, finished, us) ensures us == gap / NS_PER_US {
        DivModUnique(gap, NS_PER_US, us, gap - NS_PER_US * us);
      }
    }
  }

  /** A wait of MsUntil never ends short of a deadline that lies ahead, and ends
      less than a millisecond after it, exactly when the deadline is near enough
      for a C int of milliseconds to reach it; past that it always ends early. */
  lemma MsUntilRoundsUp(now: int, deadline: int)
    requires now < deadline
    ensures deadline - now <= MAX_C_INT * NS_PER_MS <==>
            0 <= now + MsUntil(now, deadline) * NS_PER_MS - deadline
    ensures now + MsUntil(now, deadline) * NS_PER_MS - deadline < NS_PER_MS
    ensures MsUntil(now, deadline) > 0
  {
    var gap := deadline - now;
    var ms := (gap + NS_PER_MS - 1) / NS_PER_MS;
    assert gap <= ms * NS_PER_MS < gap + NS_PER_MS;
  }

  /** A connect found out of time before its own wait was over reports an
      elapsed time below that wait, however the clock readings round. */
  lemma EarlyMeansBelowTheWait(started: int, finished: int, timeoutMs: nat)
    requires finished < started + timeoutMs * NS_PER_MS
    requires timeoutMs > 0
    ensures ElapsedUs(started, finished) < timeoutMs * US_PER_MS
  {
  }
}
