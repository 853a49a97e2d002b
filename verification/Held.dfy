/** The holding slots of one loop, for jobs the machine refused to start (Held in
    src/core/connects.zig): at most two, tried again oldest first after a pause,
    with a lone missing local port held back as a suspect first. */
module Held {
  import opened Basics
  import opened ConnectTypes

  const FIRST_PAUSE_NS := 1_000_000
  const MAX_PAUSE_NS := 100_000_000
  const STALL_LIMIT_NS := 5_000_000_000
  const SLOTS := 2

  datatype HeldState = HeldState(
    jobs: seq<Job>,
    suspect: bool,
    short: bool,
    since: int,
    retryAt: int,
    pause: int)
  {
    /** A suspect is alone and not part of a shortage; a shortage is due within
        the longest pause of the last try. */
    ghost predicate Valid() {
      && |jobs| <= SLOTS
      && (suspect ==> |jobs| == 1 && !short)
      && (|jobs| == SLOTS ==> short)
      && FIRST_PAUSE_NS <= pause <= MAX_PAUSE_NS
    }

    /** The oldest job may have another attempt at `now`. */
    predicate Due(now: int) {
      jobs != [] && !suspect && (!short || now >= retryAt)
    }

    /** The loop may take a new job: nothing is held, or only a suspect to test. */
    predicate IsOpen() {
      jobs == [] || suspect
    }

    function Pop(): HeldState
      requires jobs != []
    {
      this.(jobs := jobs[1..])
    }

    /** The state after an attempt at `job` failed at `now`. */
    function Hold(job: Job, shortage: Shortage, now: int): HeldState {
      var h := this.(jobs := jobs + [job]);
      if shortage == NoAddress && !short && jobs == [] then h.(suspect := true)
      else
        var paused := if short then pause else FIRST_PAUSE_NS;
        h.(suspect := false, short := true, since := if short then since else now,
           retryAt := now + paused, pause := Min(2 * paused, MAX_PAUSE_NS))
    }

    /** Whether Hold leaves the run going: the shortage has not lasted too long. */
    predicate CarriesOn(shortage: Shortage, now: int) {
      (shortage == NoAddress && !short && jobs == []) ||
      now - (if short then since else now) < STALL_LIMIT_NS
    }

    function Suspect(): Option<Job>
      requires suspect ==> jobs != []
    {
      if suspect then Some(jobs[0]) else None
    }

    /** The suspect, if any, leaves. */
    function DropSuspect(): HeldState
      requires suspect ==> jobs != []
    {
      if suspect then Pop().(suspect := false) else this
    }

    /** The state after an attempt succeeded: the shortage is over, a suspect leaves. */
    function Started(): HeldState
      requires suspect ==> jobs != []
    {
      this.(short := false).DropSuspect()
    }
  }

  const EMPTY := HeldState([], false, false, 0, 0, FIRST_PAUSE_NS)

  /** Held as the source keeps it: two slots and a length, updated in place. */
  class Table {
    const jobs: array<Job>
    var len: nat
    var suspect: bool
    var short: bool
    var since: int
    var retryAt: int
    var pause: int

    ghost predicate Valid()
      reads this, jobs
    {
      jobs.Length == SLOTS && len <= SLOTS && State().Valid()
    }

    ghost function State(): HeldState
      requires jobs.Length == SLOTS && len <= SLOTS
      reads this, jobs
    {
      HeldState(jobs[..len], suspect, short, since, retryAt, pause)
    }

    constructor ()
      ensures Valid() && State() == EMPTY && fresh(jobs)
    {
      jobs := new Job[SLOTS];
      len, suspect, short, since, retryAt, pause := 0, false, false, 0, 0, FIRST_PAUSE_NS;
    }

    method Due(now: int) returns (due: bool)
      requires Valid()
      ensures due == State().Due(now)
    {
      due := len > 0 && !suspect && (!short || now >= retryAt);
    }

    method IsOpen() returns (open: bool)
      requires Valid()
      ensures open == State().IsOpen()
    {
      open := len == 0 || suspect;
    }

    method Pop() returns (job: Job)
      requires Valid() && len > 0
      modifies this`len, jobs
      ensures len == old(len) - 1
      ensures job == old(State()).jobs[0] && State() == old(State()).Pop()
    {
      job := jobs[0];
      jobs[0] := jobs[1];
      len := len - 1;
    }

    /** `full` slots would trip the source's assertion: hence the requires. */
    method Hold(job: Job, shortage: Shortage, now: int) returns (goOn: bool)
      requires Valid() && len < SLOTS
      modifies this, jobs
      ensures Valid() && State() == old(State()).Hold(job, shortage, now)
      ensures goOn == old(State()).CarriesOn(shortage, now)
    {
      jobs[len] := job;
      len := len + 1;
      assert jobs[..len] == old(jobs[..len]) + [job];
      if shortage == NoAddress && !short && len == 1 {
        suspect := true;
        return true;
      }
      suspect := false;
      if !short {
        short := true;
        since := now;
        pause := FIRST_PAUSE_NS;
      }
      retryAt := now + pause;
      pause := Min(2 * pause, MAX_PAUSE_NS);
      return now - since < STALL_LIMIT_NS;
    }

    method DropSuspect() returns (dropped: Option<Job>)
      requires Valid()
      modifies this`len, this`suspect, jobs
      ensures Valid() && State() == old(State()).DropSuspect()
      ensures dropped == old(State()).Suspect()
    {
      if !suspect { return None; }
      suspect := false;
      var job := Pop();
      return Some(job);
    }

    method Started() returns (dropped: Option<Job>)
      requires jobs.Length == SLOTS && len < SLOTS && (suspect ==> len == 1)
      requires FIRST_PAUSE_NS <= pause <= MAX_PAUSE_NS
      modifies this`len, this`suspect, this`short, jobs
      ensures Valid() && State() == old(State()).Started()
      ensures dropped == old(State()).Suspect()
    {
      short := false;
      dropped := DropSuspect();
    }
  }

  // ---- The shortage over a loop's attempts ----------------------------------

  /** One attempt to start a connect, and when it was made. */
  datatype Try = Begun(at: int) | Failed(at: int, shortage: Shortage)

  /** The shortage, if any, began with a failed attempt and nothing has started
      since. */
  ghost predicate ShortSince(h: HeldState, tries: seq<Try>) {
    h.short ==> exists k :: 0 <= k < |tries| && FailedFrom(tries, k) && tries[k].at == h.since
  }

  ghost predicate FailedFrom(tries: seq<Try>, k: nat) {
    forall j :: k <= j < |tries| ==> tries[j].Failed?
  }

  lemma HoldKeepsShortSince(h: HeldState, tries: seq<Try>, job: Job, shortage: Shortage, now: int)
    requires h.Valid() && |h.jobs| < SLOTS && ShortSince(h, tries)
    ensures h.Hold(job, shortage, now).Valid()
    ensures ShortSince(h.Hold(job, shortage, now), tries + [Failed(now, shortage)])
  {
    var more := tries + [Failed(now, shortage)];
    if h.short {
      var k :| 0 <= k < |tries| && FailedFrom(tries, k) && tries[k].at == h.since;
      assert FailedFrom(more, k) && more[k].at == h.since;
    } else {
      assert FailedFrom(more, |tries|) && more[|tries|].at == now;
    }
  }

  /** Giving up means every attempt failed for the whole of STALL_LIMIT_NS, from
      the one the shortage began with to the one just made. */
  lemma GivingUpMeansStalled(h: HeldState, tries: seq<Try>, job: Job, shortage: Shortage, now: int)
    requires h.Valid() && |h.jobs| < SLOTS && ShortSince(h, tries)
    requires !h.CarriesOn(shortage, now)
    ensures exists k :: 0 <= k < |tries| && FailedFrom(tries + [Failed(now, shortage)], k)
                        && tries[k].at + STALL_LIMIT_NS <= now
  {
    var k :| 0 <= k < |tries| && FailedFrom(tries, k) && tries[k].at == h.since;
    assert FailedFrom(tries + [Failed(now, shortage)], k);
  }

  // ---- The shortage, told from the attempts alone -------------------------------------

  /** The attempt the present shortage began with: since the last start, the first failure
      that is for want of a socket or comes right after another failure. */
  function Onset(tries: seq<Try>): (k: Option<nat>)
    ensures k.Some? ==> k.value < |tries|
  {
    if tries == [] || Last(tries).Begun? then None
    else if Onset(Front(tries)).Some? then Onset(Front(tries))
    else if Last(tries).shortage == NoSocket || (|tries| > 1 && Last(Front(tries)).Failed?) then Some(|tries| - 1)
    else None
  }

  /** The pause after the n-th failure of a shortage: 1 ms, then twice as long each time,
      up to 100 ms. */
  function PauseAfter(n: nat): int {
    if n <= 1 then FIRST_PAUSE_NS else Min(2 * PauseAfter(n - 1), MAX_PAUSE_NS)
  }

  function PowerOfTwo(n: nat): nat {
    if n == 0 then 1 else 2 * PowerOfTwo(n - 1)
  }

  lemma {:induction false} PausesDouble(n: nat)
    ensures PauseAfter(n + 1) == Min(FIRST_PAUSE_NS * PowerOfTwo(n), MAX_PAUSE_NS)
  {
    if n > 0 {
      PausesDouble(n - 1);
    }
  }

  /** What is held is what the attempts so far tell. */
  ghost predicate Reflects(h: HeldState, tries: seq<Try>) {
    var k := Onset(tries);
    && (h.short <==> k.Some?)
    && (h.short ==>
          && h.since == tries[k.value].at
          && h.retryAt == Last(tries).at + PauseAfter(|tries| - k.value)
          && h.pause == PauseAfter(|tries| - k.value + 1))
    && (!h.short ==> (h.suspect <==> tries != [] && Last(tries).Failed?))
  }

  lemma HoldReflects(h: HeldState, tries: seq<Try>, job: Job, shortage: Shortage, now: int)
    requires h.Valid() && Reflects(h, tries) && (!h.short && !h.suspect ==> h.jobs == [])
    ensures Reflects(h.Hold(job, shortage, now), tries + [Failed(now, shortage)])
  {
    var more := tries + [Failed(now, shortage)];
    assert Front(more) == tries;
  }

  lemma StartedReflects(h: HeldState, tries: seq<Try>, at: int)
    requires h.suspect ==> h.jobs != []
    ensures Reflects(h.Started(), tries + [Begun(at)])
  {
  }

  /** Whether a loop gives up, told from its attempts alone: exactly when the present
      shortage, this failure included, is STALL_LIMIT_NS old. */
  lemma GivesUpExactly(h: HeldState, tries: seq<Try>, shortage: Shortage, now: int)
    requires h.Valid() && Reflects(h, tries) && (!h.short && !h.suspect ==> h.jobs == [])
    ensures var more := tries + [Failed(now, shortage)];
            !h.CarriesOn(shortage, now) <==>
            Onset(more).Some? && now - more[Onset(more).value].at >= STALL_LIMIT_NS
  {
    var more := tries + [Failed(now, shortage)];
    assert Front(more) == tries;
  }
}
