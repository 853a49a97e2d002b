/** The connect engine of src/core/connects.zig as a state machine: a few loops
    that share one source, one window and a handful of atomics. Every step of a
    loop touches the shared part at most once, under the mutex or through one
    atomic, so any run of the threads is a sequence of these steps. What the
    operating system decides (starts, settled sockets, verdicts, clock readings)
    and what the source answers come with the event. */
module Engine {
  import opened Basics
  import opened ConnectTypes
  import opened Protocol
  import opened Held
  import F = Flight
  import W = Window

  const START_BATCH := 16

  // ---- State ----------------------------------------------------------------

  /** Where a loop stands, and what it has in hand there. */
  datatype Pc =
    | Top
    | Fill                                   // about to pick the next connect
    | Launch(job: Job, at: int)              // about to start `job`
    | Accuse(suspect: Job, at: int, leave: bool) // about to report a suspect
    | Report                                 // about to report the batch
    | Peek                                   // about to wait and read the cap
    | Sweep(waitMs: Option<nat>)             // about to look what settled
    | ReportSwept(after: int)                // about to report that
    | Finished

  datatype Loop = Loop(
    pc: Pc,
    up: bool,
    dry: bool,
    held: HeldState,
    flight: seq<F.Conn>,
    settled: seq<F.Settled>,
    batch: nat,
    tries: seq<Try>)

  /** One verdict as it was delivered: whose, what, how long it took and when. */
  datatype Heard = Heard(job: Job, outcome: Outcome, us: nat, now: int)

  /** What the loops share (Shared). The log stands for the source; `heard` lists what was
      delivered to it and is kept for the statements only. */
  datatype Shared = Shared(
    window: W.WindowState,
    unconfirmed: seq<Job>,
    starved: bool,
    waitCap: nat,
    lastCuttable: int,
    log: Log,
    heard: seq<Heard>)

  datatype Phase = Running | Confirming | Returned | OutOfSockets | SetupFailed

  /** The last four are kept for the statements below only: whether a connect was ever
      held, the jobs dropped unstarted, those whose connect started, and the suspects
      given up as unanswered. */
  datatype State = State(
    limit: nat,
    capacity: nat,
    shared: Shared,
    loops: seq<Loop>,
    phase: Phase,
    everHeld: bool,
    lost: seq<Job>,
    went: seq<Job>,
    waived: seq<Job>)
  {
    /** This loop's even share of the window, at least one. */
    function Share(): nat
      requires loops != []
    {
      Max(1, shared.window.size / |loops|)
    }
  }

  /** Loop 0 runs on the caller's thread; another that cannot be set up costs only
      its share. */
  function Init(limit: nat, poolPace: nat, pace: W.Pace, up: seq<bool>): State
    requires 1 <= |up| <= limit
  {
    State(
      limit,
      CeilDiv(limit, |up|),
      Shared(W.Init(Max(|up|, Min(poolPace, limit)), limit, pace), [], false, 0, 0, Nothing, []),
      seq(|up|, i requires 0 <= i < |up| =>
        Loop(if up[i] then Top else Finished, up[i], false, EMPTY, [], [], 0, [])),
      Running, false, [], [], [])
  }

  // ---- Reporting --------------------------------------------------------------

  /** One verdict reaches the source, or its job joins the list to be confirmed. `kept`
      false stands for a failed append to that list, which turns the verdict into Open. */
  function Deliver(sh: Shared, r: F.Settled, now: int, kept: bool): Shared {
    if r.verdict.Unconfirmed? && kept then
      sh.(unconfirmed := sh.unconfirmed + [r.job])
    else
      var o := r.verdict.Alone();
      sh.(window := sh.window.Observe(W.Sample(o, r.us, now)),
          log := Then(sh.log, DoneCall(r.job, o, r.us)),
          heard := sh.heard + [Heard(r.job, o, r.us, now)],
          lastCuttable := if o != Filtered && r.job.target.cutFloorMs.Some? then now else sh.lastCuttable)
  }

  function DeliverAll(sh: Shared, rs: seq<F.Settled>, now: int, kept: nat -> bool): Shared {
    if rs == [] then sh
    else Deliver(DeliverAll(sh, Front(rs), now, kept), Last(rs), now, kept(|rs| - 1))
  }

  /** Shared.done: one lock for the batch, then the source's cap is read. */
  function DoneBatch(sh: Shared, rs: seq<F.Settled>, now: int, kept: nat -> bool, cap: nat): Shared {
    if rs == [] then sh else DeliverAll(sh, rs, now, kept).(waitCap := cap)
  }

  // ---- Steps ------------------------------------------------------------------

  datatype Event =
    | Enter(i: nat)
    | Pick(i: nat, now: int, stop: bool, got: Option<Job>)
    | Start(i: nat, attempt: Attempt, us: nat)
    | ReportSuspect(i: nat, cap: nat)
    | ReportBatch(i: nat, now: int, kept: nat -> bool, cap: nat)
    | ReadCap(i: nat)
    | Look(i: nat, now: int, bits: nat -> bool, finish: (nat, bool) -> Verdict)
    | ReportLook(i: nat, kept: nat -> bool, cap: nat)
    | Join
    | Confirm(outcome: Outcome, us: nat)

  function Put(s: State, i: nat, l: Loop): State
    requires i < |s.loops|
  {
    s.(loops := s.loops[i := l])
  }

  /** Head of the loop: in a starved run, drop what is held and stop asking. */
  function DoEnter(s: State, i: nat): State
    requires i < |s.loops|
  {
    var l := s.loops[i];
    if s.shared.starved then
      Put(s, i, l.(pc := Fill, batch := 0, held := EMPTY, dry := true))
      .(lost := s.lost + l.held.jobs)
    else Put(s, i, l.(pc := Fill, batch := 0))
  }

  /** Nothing more to take: a suspect is left with nothing to test it against. */
  function RunDry(l: Loop, at: int): Loop
    requires l.held.suspect ==> l.held.jobs != []
  {
    if l.held.suspect then l.(held := l.held.DropSuspect(), pc := Accuse(l.held.jobs[0], at, true))
    else l.(pc := Report)
  }

  /** Choose the next connect: a held one that is due, else one from the source. */
  function DoPick(s: State, i: nat, now: int, stop: bool, got: Option<Job>): State
    requires i < |s.loops| && (s.loops[i].held.suspect ==> s.loops[i].held.jobs != [])
  {
    var l := s.loops[i];
    if |l.flight| >= s.capacity || l.batch == START_BATCH then Put(s, i, l.(pc := Report))
    else if l.held.Due(now) then
      Put(s, i, l.(pc := Launch(l.held.jobs[0], now), held := l.held.Pop()))
    else if !l.held.IsOpen() then Put(s, i, l.(pc := Report))
    else if l.dry then Put(s, i, RunDry(l, now))
    else if |l.flight| >= s.Share() then Put(s, i, l.(pc := Report))
    else Take(s, i, now, stop, got)
  }

  /** Shared.take, with room in the window: ask the source. */
  function Take(s: State, i: nat, now: int, stop: bool, got: Option<Job>): State
    requires i < |s.loops| && (s.loops[i].held.suspect ==> s.loops[i].held.jobs != [])
  {
    var l := s.loops[i];
    var asked := s.(shared := s.shared.(log := Then(s.shared.log, NextCall(stop, got))));
    if got.Some? then Put(asked, i, l.(pc := Launch(got.value, now)))
    else Put(asked, i, RunDry(l.(dry := true), now))
  }

  /** start(): the connect settles at once, goes in flight, or cannot start. */
  function DoStart(s: State, i: nat, attempt: Attempt, us: nat): State
    requires i < |s.loops| && s.loops[i].pc.Launch?
    requires s.loops[i].held.suspect ==> s.loops[i].held.jobs != []
  {
    var l := s.loops[i];
    var Launch(job, at) := l.pc;
    match attempt
    case Unprobed(shortage) =>
      var l' := l.(pc := Fill, batch := l.batch + 1, held := l.held.Hold(job, shortage, at),
                   tries := l.tries + [Failed(at, shortage)]);
      if l.held.CarriesOn(shortage, at) then Put(s, i, l').(everHeld := true)
      else
        Put(s, i, l'.(held := EMPTY, dry := true))
        .(everHeld := true, lost := s.lost + l'.held.jobs, shared := s.shared.(starved := true))
    case AtOnce(verdict) =>
      Put(s, i, Went(l, at).(settled := l.settled + [F.Settled(job, verdict, us)])).(went := s.went + [job])
    case Pending(sock) =>
      Put(s, i, Went(l, at).(flight := l.flight + [F.NewConn(job, sock, at)])).(went := s.went + [job])
  }

  /** A connect started: the suspect's failure was its own target's. */
  function Went(l: Loop, at: int): Loop
    requires l.held.suspect ==> l.held.jobs != []
  {
    l.(pc := if l.held.suspect then Accuse(l.held.jobs[0], at, false) else Fill,
       batch := l.batch + 1, held := l.held.Started(), tries := l.tries + [Begun(at)])
  }

  function DoReportSuspect(s: State, i: nat, cap: nat): State
    requires i < |s.loops| && s.loops[i].pc.Accuse?
  {
    var l := s.loops[i];
    var Accuse(suspect, at, leave) := l.pc;
    Put(s, i, l.(pc := if leave then Report else Fill))
    .(shared := DoneBatch(s.shared, [F.Settled(suspect, Known(Filtered), 0)], at, _ => true, cap),
      waived := s.waived + [suspect])
  }

  function DoReportBatch(s: State, i: nat, now: int, kept: nat -> bool, cap: nat): State
    requires i < |s.loops|
  {
    var l := s.loops[i];
    var pc :=
      if l.flight != [] then Peek
      else if l.held.short then Top
      else if l.dry && l.held.jobs == [] then Finished
      else Top;
    Put(s, i, l.(pc := pc, settled := []))
    .(shared := DoneBatch(s.shared, l.settled, now, kept, cap))
  }

  function DoReadCap(s: State, i: nat): State
    requires i < |s.loops|
  {
    var cap := s.shared.waitCap;
    Put(s, i, s.loops[i].(pc := Sweep(if cap == 0 then None else Some(cap))))
  }

  /** The sockets the wait found settled. */
  function Mark(conns: seq<F.Conn>, bits: nat -> bool): seq<F.Conn> {
    seq(|conns|, k requires 0 <= k < |conns| => conns[k].(settled := bits(k)))
  }

  function DoLook(s: State, i: nat, now: int, bits: nat -> bool, finish: (nat, bool) -> Verdict): State
    requires i < |s.loops| && s.loops[i].pc.Sweep?
  {
    var l := s.loops[i];
    var cut := Cut(l.pc.waitMs, s.shared.lastCuttable);
    var walk := F.Walk(Mark(l.flight, bits), |l.flight|, cut, now);
    Put(s, i, l.(pc := ReportSwept(now), flight := walk.0, settled := F.Reports(walk.1, finish, now)))
  }

  function DoReportLook(s: State, i: nat, kept: nat -> bool, cap: nat): State
    requires i < |s.loops| && s.loops[i].pc.ReportSwept?
  {
    var l := s.loops[i];
    Put(s, i, l.(pc := Top, settled := []))
    .(shared := DoneBatch(s.shared, l.settled, l.pc.after, kept, cap))
  }

  /** Every thread is back. */
  function DoJoin(s: State): State
    requires s.loops != []
  {
    s.(phase :=
      if !s.loops[0].up then SetupFailed
      else if s.shared.starved then OutOfSockets
      else if s.shared.unconfirmed == [] then Returned
      else Confirming)
  }

  /** One more connect to the first port still to be confirmed, alone. */
  function DoConfirm(s: State, outcome: Outcome, us: nat): State
    requires s.shared.unconfirmed != []
  {
    var sh := s.shared;
    s.(shared := sh.(unconfirmed := sh.unconfirmed[1..],
                     log := Then(sh.log, DoneCall(sh.unconfirmed[0], outcome, us))),
       phase := if |sh.unconfirmed| == 1 then Returned else Confirming)
  }

  predicate LoopAt(s: State, i: nat) {
    s.phase == Running && i < |s.loops| &&
    (s.loops[i].held.suspect ==> s.loops[i].held.jobs != [])
  }

  predicate Enabled(s: State, e: Event) {
    match e
    case Enter(i) => LoopAt(s, i) && s.loops[i].pc.Top?
    case Pick(i, _, _, _) => LoopAt(s, i) && s.loops[i].pc.Fill?
    case Start(i, _, _) => LoopAt(s, i) && s.loops[i].pc.Launch?
    case ReportSuspect(i, _) => LoopAt(s, i) && s.loops[i].pc.Accuse?
    case ReportBatch(i, _, _, _) => LoopAt(s, i) && s.loops[i].pc.Report?
    case ReadCap(i) => LoopAt(s, i) && s.loops[i].pc.Peek?
    case Look(i, _, _, _) => LoopAt(s, i) && s.loops[i].pc.Sweep?
    case ReportLook(i, _, _) => LoopAt(s, i) && s.loops[i].pc.ReportSwept?
    case Join => s.phase == Running && s.loops != [] && forall l :: l in s.loops ==> l.pc.Finished?
    case Confirm(_, _) => s.phase == Confirming && s.shared.unconfirmed != []
  }

  /** One step; an event that cannot happen now changes nothing. */
  function Step(s: State, e: Event): State {
    if !Enabled(s, e) then s
    else
      match e
      case Enter(i) => DoEnter(s, i)
      case Pick(i, now, stop, got) => DoPick(s, i, now, stop, got)
      case Start(i, attempt, us) => DoStart(s, i, attempt, us)
      case ReportSuspect(i, cap) => DoReportSuspect(s, i, cap)
      case ReportBatch(i, now, kept, cap) => DoReportBatch(s, i, now, kept, cap)
      case ReadCap(i) => DoReadCap(s, i)
      case Look(i, now, bits, finish) => DoLook(s, i, now, bits, finish)
      case ReportLook(i, kept, cap) => DoReportLook(s, i, kept, cap)
      case Join => DoJoin(s)
      case Confirm(outcome, us) => DoConfirm(s, outcome, us)
  }

  /** Any interleaving of any number of steps. */
  function Exec(s: State, es: seq<Event>): State {
    if |es| == 0 then s else Step(Exec(s, Front(es)), Last(es))
  }
}
