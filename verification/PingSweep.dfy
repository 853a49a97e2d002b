/** The in-process ping sweep of src/c/icmp_ping.c (POSIX icmp_ping_sweep): one echo
    to each host, paced and windowed, each host reported once. A sweep runs over a
    script of rounds, one per turn of its loop, which holds what the clock, the
    sockets and the caller do in that turn. */
module PingSweep {
  import opened Basics

  const SENDS_PER_MS := 2
  const BUSY_GIVE_UP_MS := 5000

  datatype Status = Waiting | InFlight | Reported

  datatype SendOutcome = SendOk | SendBusy | SendFailed

  /** What the observer is told of a host. */
  datatype Report = Report(index: nat, up: bool)

  /** One turn of the loop: the clock reading, whether the caller wants to stop, what
      sending to a host through a socket comes to, and the hosts whose replies are
      read at the end, -1 for a packet that is none. */
  datatype Round = Round(now: int, stop: bool, send: (nat, nat) -> SendOutcome, replies: seq<int>)

  function InFlightCount(s: seq<Status>): nat {
    if s == [] then 0 else (if s[0] == InFlight then 1 else 0) + InFlightCount(s[1..])
  }

  lemma {:induction false} CountUpdate(s: seq<Status>, i: nat, v: Status)
    requires i < |s|
    ensures InFlightCount(s[i := v]) + (if s[i] == InFlight then 1 else 0) ==
            InFlightCount(s) + (if v == InFlight then 1 else 0)
  {
    if i == 0 {
      assert s[0 := v][1..] == s[1..];
    } else {
      CountUpdate(s[1..], i - 1, v);
      assert s[i := v][1..] == s[1..][i - 1 := v];
    }
  }

  lemma {:induction false} NoneInFlight(s: seq<Status>, i: nat)
    requires i < |s| && InFlightCount(s) == 0
    ensures s[i] != InFlight
  {
    if i > 0 {
      NoneInFlight(s[1..], i - 1);
    }
  }

  function TimesReported(rs: seq<Report>, i: nat): nat {
    if rs == [] then 0 else TimesReported(Front(rs), i) + (if Last(rs).index == i then 1 else 0)
  }

  lemma TimesReportedPush(rs: seq<Report>, r: Report, i: nat)
    ensures TimesReported(rs + [r], i) == TimesReported(rs, i) + (if r.index == i then 1 else 0)
  {
    assert Front(rs + [r]) == rs;
  }

  function SendBudget(elapsedMs: int, sent: nat): nat {
    var allowed := (elapsedMs + 1) * SENDS_PER_MS;
    if allowed > sent then allowed - sent else 0
  }

  /** The k-th socket tried for a host, counting round from its own. */
  function SocketAt(host: nat, k: nat, sockets: nat): nat
    requires sockets >= 1
  {
    (host + k) % sockets
  }

  /** The sockets are tried round robin, starting from the host's own share. */
  function FirstNotFull(send: (nat, nat) -> SendOutcome, host: nat, sockets: nat, k: nat): SendOutcome
    requires sockets >= 1
    decreases sockets - k
  {
    if k >= sockets then SendBusy
    else if send(host, SocketAt(host, k, sockets)) != SendBusy then send(host, SocketAt(host, k, sockets))
    else FirstNotFull(send, host, sockets, k + 1)
  }

  lemma {:induction false} FullFrom(send: (nat, nat) -> SendOutcome, host: nat, sockets: nat, k: nat, j: nat)
    requires sockets >= 1 && k <= j < sockets && FirstNotFull(send, host, sockets, k) == SendBusy
    ensures send(host, SocketAt(host, j, sockets)) == SendBusy
    decreases sockets - k
  {
    if k < j {
      FullFrom(send, host, sockets, k + 1, j);
    }
  }

  /** An echo goes out on the first socket that is not full, counted round from the host's
      own. */
  lemma {:induction false} SocketsInTurn(send: (nat, nat) -> SendOutcome, host: nat, sockets: nat, k: nat, from: nat)
    requires from <= k < sockets && send(host, SocketAt(host, k, sockets)) != SendBusy
    requires forall j :: from <= j < k ==> send(host, SocketAt(host, j, sockets)) == SendBusy
    ensures FirstNotFull(send, host, sockets, from) == send(host, SocketAt(host, k, sockets))
    decreases k - from
  {
    if from < k {
      SocketsInTurn(send, host, sockets, k, from + 1);
    }
  }

  /** A host is found busy only when every single socket was full for it. */
  lemma BusyMeansEverySocketFull(send: (nat, nat) -> SendOutcome, host: nat, sockets: nat, sock: nat)
    requires sock < sockets && FirstNotFull(send, host, sockets, 0) == SendBusy
    ensures send(host, sock) == SendBusy
  {
    var own := host % sockets;
    var j := if sock >= own then sock - own else sock + sockets - own;
    RoundRobin(host, sockets, sock, own, j);
    FullFrom(send, host, sockets, 0, j);
    assert SocketAt(host, j, sockets) == sock;
  }

  lemma RoundRobin(host: nat, sockets: nat, sock: nat, own: nat, j: nat)
    requires sock < sockets && own == host % sockets
    requires j == if sock >= own then sock - own else sock + sockets - own
    ensures (host + j) % sockets == sock && j < sockets
  {
    var turns := host / sockets;
    assert host == sockets * turns + own;
    if sock >= own {
      DivModUnique(host + j, sockets, turns, sock);
    } else {
      assert sockets * (turns + 1) == sockets * turns + sockets;
      DivModUnique(host + j, sockets, turns + 1, sock);
    }
  }

  // ---- What a sweep went through -------------------------------------------------------

  /** What sending to host i in this round comes to. */
  function Tried(r: Round, i: nat, sockets: nat): SendOutcome
    requires sockets >= 1
  {
    FirstNotFull(r.send, i, sockets, 0)
  }

  /** Why a host was reported, in terms of the rounds so far: the one its echo went out or
      first met full sockets in, and the one it was reported in. */
  datatype Cause =
    | Answered(sent: nat, turn: nat)
    | TimedOut(sent: nat, turn: nat)
    | CouldNotSend(turn: nat)
    | NeverDrained(since: nat, turn: nat)

  /** A reply read in this round is in time for an echo that went out in that one. */
  predicate InTime(past: seq<Round>, sent: nat, turn: nat, timeoutMs: int)
    requires sent < |past| && turn < |past|
  {
    turn == sent || past[turn].now < past[sent].now + timeoutMs
  }

  /** No reply of host i was read from one round up to another. */
  ghost predicate Unanswered(past: seq<Round>, i: nat, from: nat, to: nat)
    requires to <= |past|
  {
    forall m :: from <= m < to ==> i !in past[m].replies
  }

  /** The rounds bear the cause out: up needs a reply in time, and down needs a whole
      timeout without one, a failed send, or every socket full at both ends of a span of
      BUSY_GIVE_UP_MS. */
  ghost predicate Backed(r: Report, c: Cause, past: seq<Round>, timeoutMs: int, sockets: nat)
    requires sockets >= 1
  {
    match c
    case Answered(sent, turn) =>
      && r.up && sent <= turn < |past|
      && Tried(past[sent], r.index, sockets) == SendOk
      && r.index in past[turn].replies && InTime(past, sent, turn, timeoutMs)
    case TimedOut(sent, turn) =>
      && !r.up && sent < turn < |past|
      && Tried(past[sent], r.index, sockets) == SendOk
      && past[turn].now >= past[sent].now + timeoutMs
      && Unanswered(past, r.index, sent, turn)
    case CouldNotSend(turn) =>
      !r.up && turn < |past| && Tried(past[turn], r.index, sockets) == SendFailed
    case NeverDrained(since, turn) =>
      && !r.up && since <= turn < |past|
      && Tried(past[since], r.index, sockets) == SendBusy
      && Tried(past[turn], r.index, sockets) == SendBusy
      && past[turn].now - past[since].now >= BUSY_GIVE_UP_MS
  }

  /** Every report has a cause, backed and filed. */
  ghost predicate AllBacked(rs: seq<Report>, cs: seq<Cause>, past: seq<Round>, timeoutMs: int, sockets: nat)
    requires sockets >= 1
  {
    |cs| == |rs| && forall k :: 0 <= k < |rs| ==> Backed(rs[k], cs[k], past, timeoutMs, sockets)
  }

  ghost predicate AllFiled(rs: seq<Report>, cs: seq<Cause>, sentIn: map<nat, nat>) {
    |cs| == |rs| && forall k :: 0 <= k < |rs| ==> Filed(rs[k], cs[k], sentIn)
  }

  lemma AllBackedStays(rs: seq<Report>, cs: seq<Cause>, past: seq<Round>, more: seq<Round>, timeoutMs: int, sockets: nat)
    requires sockets >= 1 && past <= more && AllBacked(rs, cs, past, timeoutMs, sockets)
    ensures AllBacked(rs, cs, more, timeoutMs, sockets)
  {
    forall k | 0 <= k < |rs| ensures Backed(rs[k], cs[k], more, timeoutMs, sockets) {
      BackedStays(rs[k], cs[k], past, more, timeoutMs, sockets);
    }
  }

  lemma AllBackedPush(rs: seq<Report>, cs: seq<Cause>, r: Report, c: Cause,
                      past: seq<Round>, timeoutMs: int, sockets: nat, sentIn: map<nat, nat>)
    requires sockets >= 1 && AllBacked(rs, cs, past, timeoutMs, sockets) && AllFiled(rs, cs, sentIn)
    requires Backed(r, c, past, timeoutMs, sockets) && Filed(r, c, sentIn)
    ensures AllBacked(rs + [r], cs + [c], past, timeoutMs, sockets) && AllFiled(rs + [r], cs + [c], sentIn)
  {
  }

  /** An echo to a host without a report touches no report's file. */
  lemma AllFiledStays(rs: seq<Report>, cs: seq<Cause>, sentIn: map<nat, nat>, i: nat, turn: nat)
    requires AllFiled(rs, cs, sentIn) && TimesReported(rs, i) == 0
    ensures AllFiled(rs, cs, sentIn[i := turn])
  {
    Unreported(rs, i);
  }

  lemma BackedStays(r: Report, c: Cause, past: seq<Round>, more: seq<Round>, timeoutMs: int, sockets: nat)
    requires sockets >= 1 && past <= more && Backed(r, c, past, timeoutMs, sockets)
    ensures Backed(r, c, more, timeoutMs, sockets)
  {
  }

  /** A cause with an echo behind it names the round the echo went out in; one without
      is for a host none went out to. */
  predicate Filed(r: Report, c: Cause, sentIn: map<nat, nat>) {
    match c
    case Answered(sent, _) => r.index in sentIn && sentIn[r.index] == sent
    case TimedOut(sent, _) => r.index in sentIn && sentIn[r.index] == sent
    case CouldNotSend(_) => r.index !in sentIn
    case NeverDrained(_, _) => r.index !in sentIn
  }

  ghost predicate ClockGrows(past: seq<Round>) {
    forall m, n :: 0 <= m < n < |past| ==> past[m].now <= past[n].now
  }

  /** A reply to the echo sent in round `sent` was read before its wait was over. */
  ghost predicate HeardInTime(past: seq<Round>, i: nat, sent: nat, timeoutMs: int) {
    exists m :: sent <= m < |past| && i in past[m].replies && InTime(past, sent, m, timeoutMs)
  }

  lemma TooLateStays(past: seq<Round>, sent: nat, turn: nat, later: nat, timeoutMs: int)
    requires ClockGrows(past) && sent < turn <= later < |past|
    requires past[turn].now >= past[sent].now + timeoutMs
    ensures !InTime(past, sent, later, timeoutMs)
  {
    assert turn < later ==> past[turn].now <= past[later].now;
  }

  /** Being up is exactly having been heard in time. */
  lemma UpMeansHeard(r: Report, c: Cause, past: seq<Round>, sentIn: map<nat, nat>, timeoutMs: int, sockets: nat)
    requires sockets >= 1 && Backed(r, c, past, timeoutMs, sockets) && Filed(r, c, sentIn) && ClockGrows(past)
    ensures r.up <==> r.index in sentIn && HeardInTime(past, r.index, sentIn[r.index], timeoutMs)
  {
    if c.TimedOut? {
      forall m | c.turn <= m < |past| ensures !InTime(past, c.sent, m, timeoutMs) {
        TooLateStays(past, c.sent, c.turn, m, timeoutMs);
      }
    }
  }

  /** Some hosts more were reported, all of them down. */
  ghost predicate OnlyDown(before: seq<Report>, after: seq<Report>) {
    before <= after && forall k :: |before| <= k < |after| ==> !after[k].up
  }

  lemma OnlyDownJoins(a: seq<Report>, b: seq<Report>, c: seq<Report>)
    requires OnlyDown(a, b) && OnlyDown(b, c)
    ensures OnlyDown(a, c)
  {
  }

  ghost predicate OnlyUp(before: seq<Report>, after: seq<Report>) {
    before <= after && forall k :: |before| <= k < |after| ==> after[k].up
  }

  /** How many hosts were reported up. */
  function Ups(rs: seq<Report>): nat {
    if rs == [] then 0 else Ups(Front(rs)) + if Last(rs).up then 1 else 0
  }

  lemma {:induction false} OnlyUpAddsUps(before: seq<Report>, after: seq<Report>)
    requires OnlyUp(before, after)
    ensures Ups(after) == Ups(before) + (|after| - |before|)
    decreases |after|
  {
    if |after| > |before| {
      OnlyUpAddsUps(before, Front(after));
    } else {
      assert after == before;
    }
  }

  lemma {:induction false} OnlyDownKeepsUps(before: seq<Report>, after: seq<Report>)
    requires OnlyDown(before, after)
    ensures Ups(after) == Ups(before)
    decreases |after|
  {
    if |after| > |before| {
      OnlyDownKeepsUps(before, Front(after));
    } else {
      assert after == before;
    }
  }

  /** Echoes may have gone out to further hosts, and nothing else changed. */
  ghost predicate KeepsSent(before: map<nat, nat>, after: map<nat, nat>, next: nat) {
    forall i :: i < next ==> (i in after <==> i in before) && (i in before ==> after[i] == before[i])
  }

  lemma {:induction false} Unreported(rs: seq<Report>, i: nat)
    requires TimesReported(rs, i) == 0
    ensures forall k :: 0 <= k < |rs| ==> rs[k].index != i
  {
    if rs != [] {
      Unreported(Front(rs), i);
      assert forall k :: 0 <= k < |rs| - 1 ==> rs[k] == Front(rs)[k];
    }
  }

  /** The echo of host i went out at `at`, in the round filed, and no reply was read in
      any of the first `read` rounds since. */
  ghost predicate OnItsWay(i: nat, at: int, past: seq<Round>, read: nat, sentIn: map<nat, nat>, sockets: nat)
    requires sockets >= 1 && read <= |past|
  {
    && i in sentIn && sentIn[i] < |past|
    && Tried(past[sentIn[i]], i, sockets) == SendOk
    && at == past[sentIn[i]].now
    && Unanswered(past, i, sentIn[i], read)
  }

  // ---- What every step keeps ------------------------------------------------------------

  /** Hosts below `oldest` are reported, those from `next` on are waiting, and no others
      are; `inFlight` counts those in flight. */
  ghost predicate Shape(st: seq<Status>, oldest: nat, next: nat, inFlight: nat) {
    && oldest <= next <= |st|
    && (forall i :: 0 <= i < oldest ==> st[i] == Reported)
    && (forall i :: oldest <= i < next ==> st[i] != Waiting)
    && (forall i :: next <= i < |st| ==> st[i] == Waiting)
    && inFlight == InFlightCount(st)
  }

  /** Exactly the hosts marked reported were reported, once each, for a cause the rounds
      so far bear out. */
  ghost predicate Ledger(st: seq<Status>, rs: seq<Report>, cs: seq<Cause>, past: seq<Round>,
                         sentIn: map<nat, nat>, timeoutMs: int, sockets: nat)
    requires sockets >= 1
  {
    && (forall i: nat :: TimesReported(rs, i) == if i < |st| && st[i] == Reported then 1 else 0)
    && AllBacked(rs, cs, past, timeoutMs, sockets) && AllFiled(rs, cs, sentIn)
  }

  /** Echoes in flight went out in index order, each in a round that let it, and were not
      answered since. */
  ghost predicate Travelling(st: seq<Status>, at: seq<int>, next: nat, past: seq<Round>, read: nat,
                             sentIn: map<nat, nat>, clock: int, sockets: nat)
    requires sockets >= 1
  {
    && |st| == |at| && next <= |st| && read <= |past|
    && (forall i :: i in sentIn ==> i < next)
    && (forall i :: 0 <= i < next && st[i] == InFlight ==>
          at[i] <= clock && OnItsWay(i, at[i], past, read, sentIn, sockets))
    && (forall i, j :: 0 <= i < j < next && st[i] == InFlight && st[j] == InFlight ==> at[i] <= at[j])
  }

  /** Pacing held, and `busySince` is from a round in which every socket was full for the
      next host. */
  ghost predicate Paced(next: nat, past: seq<Round>, busySince: int, busyIn: nat, started: int, clock: int, sockets: nat)
    requires sockets >= 1
  {
    && 0 <= started <= clock
    && ClockGrows(past) && (past != [] ==> clock == Last(past).now)
    && next <= SENDS_PER_MS * (clock - started + 1)
    && -1 <= busySince <= clock
    && (busySince >= 0 ==>
          busyIn < |past| && past[busyIn].now == busySince && Tried(past[busyIn], next, sockets) == SendBusy)
  }

  /** A host leaves the flight. */
  lemma ShapeSettles(st: seq<Status>, oldest: nat, next: nat, inFlight: nat, i: nat)
    requires Shape(st, oldest, next, inFlight) && i < next && st[i] == InFlight
    ensures inFlight > 0 && Shape(st[i := Reported], oldest, next, inFlight - 1)
  {
    CountUpdate(st, i, Reported);
  }

  /** The oldest host, reported by now, is left behind. */
  lemma ShapePasses(st: seq<Status>, oldest: nat, next: nat, inFlight: nat)
    requires Shape(st, oldest, next, inFlight) && oldest < next && st[oldest] == Reported
    ensures Shape(st, oldest + 1, next, inFlight)
  {
  }

  /** The next host is dealt with. */
  lemma ShapeMovesOn(st: seq<Status>, oldest: nat, next: nat, inFlight: nat, v: Status)
    requires Shape(st, oldest, next, inFlight) && next < |st| && v != Waiting
    ensures Shape(st[next := v], oldest, next + 1, inFlight + if v == InFlight then 1 else 0)
  {
    CountUpdate(st, next, v);
  }

  lemma LedgerReports(st: seq<Status>, rs: seq<Report>, cs: seq<Cause>, past: seq<Round>,
                      sentIn: map<nat, nat>, timeoutMs: int, sockets: nat, r: Report, c: Cause)
    requires sockets >= 1 && Ledger(st, rs, cs, past, sentIn, timeoutMs, sockets)
    requires r.index < |st| && st[r.index] != Reported
    requires Backed(r, c, past, timeoutMs, sockets) && Filed(r, c, sentIn)
    ensures Ledger(st[r.index := Reported], rs + [r], cs + [c], past, sentIn, timeoutMs, sockets)
  {
    AllBackedPush(rs, cs, r, c, past, timeoutMs, sockets, sentIn);
    forall i: nat
      ensures TimesReported(rs + [r], i) == if i < |st| && st[r.index := Reported][i] == Reported then 1 else 0
    {
      TimesReportedPush(rs, r, i);
    }
  }

  lemma LedgerLaunches(st: seq<Status>, rs: seq<Report>, cs: seq<Cause>, past: seq<Round>,
                       sentIn: map<nat, nat>, timeoutMs: int, sockets: nat, i: nat, turn: nat)
    requires sockets >= 1 && Ledger(st, rs, cs, past, sentIn, timeoutMs, sockets)
    requires i < |st| && st[i] == Waiting
    ensures Ledger(st[i := InFlight], rs, cs, past, sentIn[i := turn], timeoutMs, sockets)
  {
    AllFiledStays(rs, cs, sentIn, i, turn);
  }

  /** A host less in flight, with the next one dealt with or not. */
  lemma TravellingDrops(st: seq<Status>, at: seq<int>, next: nat, past: seq<Round>, read: nat,
                        sentIn: map<nat, nat>, clock: int, sockets: nat, i: nat, next': nat)
    requires sockets >= 1 && Travelling(st, at, next, past, read, sentIn, clock, sockets)
    requires i < |st| && (next' == next || (next' == next + 1 && i == next))
    ensures Travelling(st[i := Reported], at, next', past, read, sentIn, clock, sockets)
  {
  }

  lemma TravellingLaunches(st: seq<Status>, at: seq<int>, next: nat, past: seq<Round>, read: nat,
                           sentIn: map<nat, nat>, clock: int, sockets: nat)
    requires sockets >= 1 && Travelling(st, at, next, past, read, sentIn, clock, sockets)
    requires next < |st| && past != [] && read < |past| && clock == Last(past).now
    requires Tried(Last(past), next, sockets) == SendOk
    ensures Travelling(st[next := InFlight], at[next := clock], next + 1, past, read,
                       sentIn[next := |past| - 1], clock, sockets)
  {
    var at', sentIn' := at[next := clock], sentIn[next := |past| - 1];
    forall i | 0 <= i < next + 1 && st[next := InFlight][i] == InFlight
      ensures at'[i] <= clock && OnItsWay(i, at'[i], past, read, sentIn', sockets)
    {
      if i < next {
        assert OnItsWay(i, at[i], past, read, sentIn, sockets);
      }
    }
  }

  /** A later clock and one more round, not read yet. */
  lemma TravellingGoesOn(st: seq<Status>, at: seq<int>, next: nat, past: seq<Round>, read: nat,
                         sentIn: map<nat, nat>, clock: int, sockets: nat, round: Round)
    requires sockets >= 1 && Travelling(st, at, next, past, read, sentIn, clock, sockets) && round.now >= clock
    ensures Travelling(st, at, next, past + [round], read, sentIn, round.now, sockets)
    ensures forall i :: 0 <= i < next && st[i] == InFlight ==> sentIn[i] < |past|
  {
    forall i | 0 <= i < next && st[i] == InFlight
      ensures OnItsWay(i, at[i], past + [round], read, sentIn, sockets) && sentIn[i] < |past|
    {
      assert OnItsWay(i, at[i], past, read, sentIn, sockets);
    }
  }

  /** The replies of the last round are read, and name no host still in flight. */
  lemma TravellingReads(st: seq<Status>, at: seq<int>, next: nat, past: seq<Round>, read: nat,
                        sentIn: map<nat, nat>, clock: int, sockets: nat)
    requires sockets >= 1 && Travelling(st, at, next, past, read, sentIn, clock, sockets)
    requires past != [] && read == |past| - 1
    requires forall i :: 0 <= i < next && st[i] == InFlight ==> i !in Last(past).replies
    ensures Travelling(st, at, next, past, |past|, sentIn, clock, sockets)
  {
    forall i | 0 <= i < next && st[i] == InFlight
      ensures at[i] <= clock && OnItsWay(i, at[i], past, |past|, sentIn, sockets)
    {
      assert OnItsWay(i, at[i], past, read, sentIn, sockets);
    }
  }

  lemma PacedGoesOn(next: nat, past: seq<Round>, busySince: int, busyIn: nat, started: int, clock: int, sockets: nat,
                    round: Round)
    requires sockets >= 1 && Paced(next, past, busySince, busyIn, started, clock, sockets) && round.now >= clock
    requires past == [] || clock == Last(past).now
    ensures Paced(next, past + [round], busySince, busyIn, started, round.now, sockets)
  {
    var more := past + [round];
    forall m, n | 0 <= m < n < |more| ensures more[m].now <= more[n].now {
      if n == |past| && m < |past| - 1 {
        assert past[m].now <= past[|past| - 1].now;
      }
    }
  }

  class Sweep {
    const count: nat
    const timeoutMs: int
    const maxInFlight: nat
    const sockets: nat
    const started: int
    const state: array<Status>
    const sentAt: array<int>
    var next: nat
    var oldest: nat
    var inFlight: nat
    var stopped: bool
    var busySince: int
    var reports: seq<Report>
    var clock: int  // the loop's latest reading
    ghost var past: seq<Round>         // the rounds so far
    ghost var read: nat                // how many of them have had their replies read
    ghost var sentIn: map<nat, nat>    // the round each echo went out in
    ghost var busyIn: nat              // the round `busySince` is from
    ghost var causes: seq<Cause>       // of the reports

    ghost predicate Valid()
      reads this, state, sentAt
    {
      && state.Length == sentAt.Length == count
      && maxInFlight >= 1 && sockets >= 1 && inFlight <= maxInFlight
      && Shape(state[..], oldest, next, inFlight)
      && Ledger(state[..], reports, causes, past, sentIn, timeoutMs, sockets)
      && Travelling(state[..], sentAt[..], next, past, read, sentIn, clock, sockets)
      && Paced(next, past, busySince, busyIn, started, clock, sockets)
    }

    /** Between two turns: every reply there was has been read. */
    ghost predicate Resting()
      reads this, state, sentAt
    {
      Valid() && read == |past|
    }

    /** Within a turn: the replies of its round are still to be read. */
    ghost predicate Busy()
      reads this, state, sentAt
    {
      Valid() && past != [] && read == |past| - 1
    }

    /** icmp_ping_sweep past its early returns: at least one host and one socket. */
    constructor (count: nat, timeoutMs: int, maxInFlight: nat, sockets: nat, now: int)
      requires count > 0 && sockets > 0 && now >= 0
      ensures Resting() && next == 0 && reports == [] && past == [] && clock == started == now
      ensures this.count == count && this.timeoutMs == timeoutMs && !stopped
      ensures this.maxInFlight == Max(1, maxInFlight) && this.sockets == sockets
      ensures fresh(state) && fresh(sentAt)
    {
      this.count, this.timeoutMs, this.sockets := count, timeoutMs, sockets;
      this.maxInFlight := if maxInFlight == 0 then 1 else maxInFlight;
      started := now;
      var s := new Status[count](_ => Waiting);
      state := s;
      sentAt := new int[count];
      next, oldest, inFlight, stopped, busySince, reports := 0, 0, 0, false, -1, [];
      clock := now;
      past, read, sentIn, busyIn, causes := [], 0, map[], 0, [];
      new;
      NothingYet(state[..]);
    }

    static lemma {:induction false} NothingYet(s: seq<Status>)
      requires forall i :: 0 <= i < |s| ==> s[i] == Waiting
      ensures InFlightCount(s) == 0
    {
      if s != [] {
        NothingYet(s[1..]);
      }
    }

    /** A turn begins: the clock is read. Every echo in flight is from an earlier one. */
    method Begin(round: Round)
      requires Resting() && round.now >= clock
      modifies this`clock, this`past
      ensures Busy() && clock == round.now && past == old(past) + [round]
      ensures forall i :: 0 <= i < next && state[i] == InFlight ==> sentIn[i] < |past| - 1
    {
      TravellingGoesOn(state[..], sentAt[..], next, past, read, sentIn, clock, sockets, round);
      PacedGoesOn(next, past, busySince, busyIn, started, clock, sockets, round);
      AllBackedStays(reports, causes, past, past + [round], timeoutMs, sockets);
      clock := round.now;
      past := past + [round];
    }

    /** Report host i, in flight so far: `report` and the count that goes with it. */
    method Settle(i: nat, up: bool, ghost cause: Cause)
      requires Valid() && i < next && state[i] == InFlight
      requires Backed(Report(i, up), cause, past, timeoutMs, sockets) && Filed(Report(i, up), cause, sentIn)
      modifies this`reports, this`causes, this`inFlight, state
      ensures Valid() && inFlight == old(inFlight) - 1
      ensures state[..] == old(state[..])[i := Reported]
      ensures reports == old(reports) + [Report(i, up)] && causes == old(causes) + [cause]
    {
      ShapeSettles(state[..], oldest, next, inFlight, i);
      LedgerReports(state[..], reports, causes, past, sentIn, timeoutMs, sockets, Report(i, up), cause);
      TravellingDrops(state[..], sentAt[..], next, past, read, sentIn, clock, sockets, i, next);
      state[i] := Reported;
      assert state[..] == old(state[..])[i := Reported];
      reports := reports + [Report(i, up)];
      causes := causes + [cause];
      inFlight := inFlight - 1;
    }

    lemma InFlightBelowNext(i: nat)
      requires Valid() && i < count && state[i] == InFlight
      ensures i < next
    {
    }

    lemma TimeoutIsBacked(i: nat)
      requires Busy() && i < next && state[i] == InFlight
      requires clock >= sentAt[i] + timeoutMs && sentIn[i] < |past| - 1
      ensures Backed(Report(i, false), TimedOut(sentIn[i], |past| - 1), past, timeoutMs, sockets)
      ensures Filed(Report(i, false), TimedOut(sentIn[i], |past| - 1), sentIn)
    {
      assert OnItsWay(i, sentAt[i], past, read, sentIn, sockets);
    }

    lemma AnswerIsBacked(i: nat)
      requires Busy() && i < count && state[i] == InFlight && i in Last(past).replies
      requires i in sentIn ==> sentIn[i] == |past| - 1 || clock < sentAt[i] + timeoutMs
      ensures i < next && i in sentIn
      ensures Backed(Report(i, true), Answered(sentIn[i], |past| - 1), past, timeoutMs, sockets)
      ensures Filed(Report(i, true), Answered(sentIn[i], |past| - 1), sentIn)
    {
      InFlightBelowNext(i);
      assert OnItsWay(i, sentAt[i], past, read, sentIn, sockets);
    }

    /** The oldest host is reported, now at the latest, and left behind. */
    method PassOldest()
      requires Busy() && oldest < next
      requires state[oldest] == InFlight ==> clock >= sentAt[oldest] + timeoutMs && sentIn[oldest] < |past| - 1
      modifies this`oldest, this`inFlight, this`reports, this`causes, state
      ensures Busy() && oldest == old(oldest) + 1
      ensures forall j :: 0 <= j < count ==> state[j] == if j == old(oldest) then Reported else old(state[j])
      ensures OnlyDown(old(reports), reports)
    {
      if state[oldest] == InFlight {
        TimeoutIsBacked(oldest);
        Settle(oldest, false, TimedOut(sentIn[oldest], |past| - 1));
      }
      ShapePasses(state[..], oldest, next, inFlight);
      oldest := oldest + 1;
    }

    /** Stopping at the first host still waiting misses none: echoes went out in index
        order, so all later ones are younger. */
    lemma NoneOverdue()
      requires Valid()
      requires oldest < next ==> state[oldest] == InFlight && clock < sentAt[oldest] + timeoutMs
      ensures forall i :: 0 <= i < next && state[i] == InFlight ==> clock < sentAt[i] + timeoutMs
    {
    }

    /** Leave hosts behind up to the first that is still live, all those in flight among
        them overdue. */
    method LeaveBehind()
      requires Busy() && forall i :: 0 <= i < next && state[i] == InFlight ==> sentIn[i] < |past| - 1
      modifies this`oldest, this`inFlight, this`reports, this`causes, state
      ensures Busy() && OnlyDown(old(reports), reports)
      ensures forall i :: 0 <= i < oldest && old(state[i]) == InFlight ==> clock >= sentAt[i] + timeoutMs
      ensures forall i :: oldest <= i < count ==> state[i] == old(state[i])
      ensures oldest < next ==> state[oldest] == InFlight && clock < sentAt[oldest] + timeoutMs
    {
      while oldest < next
        invariant Busy() && OnlyDown(old(reports), reports)
        invariant forall i :: 0 <= i < oldest && old(state[i]) == InFlight ==> clock >= sentAt[i] + timeoutMs
        invariant forall i :: oldest <= i < count ==> state[i] == old(state[i])
        decreases next - oldest
      {
        if state[oldest] == InFlight && clock < sentAt[oldest] + timeoutMs { break; }
        ghost var before := reports;
        PassOldest();
        OnlyDownJoins(old(reports), before, reports);
      }
    }

    /** Give up every host that is overdue, and no other. */
    method Expire()
      requires Busy() && forall i :: 0 <= i < next && state[i] == InFlight ==> sentIn[i] < |past| - 1
      modifies this`oldest, this`inFlight, this`reports, this`causes, state
      ensures Busy() && OnlyDown(old(reports), reports)
      ensures forall i :: 0 <= i < next ==>
                state[i] == if old(state[i]) == InFlight && clock >= sentAt[i] + timeoutMs then Reported else old(state[i])
    {
      LeaveBehind();
      NoneOverdue();
    }

    /** Try the sockets in turn, from the host's own one on, until one is not full. */
    method SendEcho(send: (nat, nat) -> SendOutcome) returns (sent: SendOutcome)
      requires sockets >= 1
      ensures sent == FirstNotFull(send, next, sockets, 0)
    {
      sent := SendBusy;
      var k := 0;
      while k < sockets && sent == SendBusy
        invariant k <= sockets
        invariant FirstNotFull(send, next, sockets, 0) ==
                  if sent == SendBusy then FirstNotFull(send, next, sockets, k) else sent
      {
        sent := send(next, SocketAt(next, k, sockets));
        k := k + 1;
      }
    }

    /** An echo went out to the next host. */
    method Launch()
      requires Busy() && next < count && inFlight < maxInFlight
      requires Tried(Last(past), next, sockets) == SendOk
      requires next < SENDS_PER_MS * (clock - started + 1)
      modifies this`next, this`inFlight, this`busySince, this`sentIn, state, sentAt
      ensures Busy() && next == old(next) + 1 && inFlight == old(inFlight) + 1
      ensures forall j :: 0 <= j < old(next) ==> state[j] == old(state[j]) && sentAt[j] == old(sentAt[j])
      ensures state[old(next)] == InFlight && sentAt[old(next)] == clock
      ensures sentIn == old(sentIn)[old(next) := |past| - 1]
    {
      ShapeMovesOn(state[..], oldest, next, inFlight, InFlight);
      LedgerLaunches(state[..], reports, causes, past, sentIn, timeoutMs, sockets, next, |past| - 1);
      TravellingLaunches(state[..], sentAt[..], next, past, read, sentIn, clock, sockets);
      busySince := -1;
      state[next] := InFlight;
      sentAt[next] := clock;
      assert state[..] == old(state[..])[next := InFlight];
      assert sentAt[..] == old(sentAt[..])[next := clock];
      sentIn := sentIn[next := |past| - 1];
      inFlight := inFlight + 1;
      next := next + 1;
    }

    /** No echo reached the next host: report it and move on. */
    method Skip(ghost cause: Cause)
      requires Busy() && next < count
      requires Backed(Report(next, false), cause, past, timeoutMs, sockets)
      requires cause.CouldNotSend? || cause.NeverDrained?
      requires next < SENDS_PER_MS * (clock - started + 1)
      modifies this`next, this`reports, this`causes, this`busySince, state
      ensures Busy() && next == old(next) + 1
      ensures forall j :: 0 <= j < old(next) ==> state[j] == old(state[j])
      ensures state[old(next)] == Reported && old(next) !in sentIn
      ensures reports == old(reports) + [Report(old(next), false)] && causes == old(causes) + [cause]
    {
      ShapeMovesOn(state[..], oldest, next, inFlight, Reported);
      LedgerReports(state[..], reports, causes, past, sentIn, timeoutMs, sockets, Report(next, false), cause);
      TravellingDrops(state[..], sentAt[..], next, past, read, sentIn, clock, sockets, next, next + 1);
      busySince := -1;
      state[next] := Reported;
      assert state[..] == old(state[..])[next := Reported];
      reports := reports + [Report(next, false)];
      causes := causes + [cause];
      next := next + 1;
    }

    /** The next host found every socket full: note when first. */
    method NoteFull()
      requires Busy() && Tried(Last(past), next, sockets) == SendBusy
      modifies this`busySince, this`busyIn
      ensures Busy() && busySince == (if old(busySince) < 0 then clock else old(busySince))
      ensures busySince >= 0 && busyIn < |past|
    {
      if busySince < 0 {
        busySince := clock;
        busyIn := |past| - 1;
      }
    }

    /** Every socket was full for the next host: wait for room, or give it up if that took
        too long. */
    method MeetFull() returns (busy: bool)
      requires Busy() && next < count && Tried(Last(past), next, sockets) == SendBusy
      requires next < SENDS_PER_MS * (clock - started + 1)
      modifies this`next, this`reports, this`causes, this`busySince, this`busyIn, state
      ensures Busy() && OnlyDown(old(reports), reports)
      ensures next == old(next) + if busy then 0 else 1
      ensures busy ==> Blocked()
      ensures Dealt(old(next))
      ensures forall i :: 0 <= i < old(next) ==> state[i] == old(state[i])
    {
      NoteFull();
      if clock - busySince < BUSY_GIVE_UP_MS { return true; }
      Skip(NeverDrained(busyIn, |past| - 1));
      return false;
    }

    /** The budget and the window allow no more, or there is nobody left to send to. */
    predicate Spent()
      reads this
    {
      stopped || next == count || inFlight == maxInFlight || next >= SENDS_PER_MS * (clock - started + 1)
    }

    /** Each host from `from` on was dealt with as its send came out in this round. */
    ghost predicate Dealt(from: nat)
      requires state.Length == sentAt.Length == count && next <= count && sockets >= 1 && past != []
      reads this, state, sentAt
    {
      forall i :: from <= i < next ==>
        if Tried(Last(past), i, sockets) == SendOk
        then state[i] == InFlight && sentAt[i] == clock && i in sentIn && sentIn[i] == |past| - 1
        else state[i] == Reported && i !in sentIn
    }

    /** The next host found every socket full, not yet for too long. */
    ghost predicate Blocked()
      requires sockets >= 1 && past != []
      reads this
    {
      Tried(Last(past), next, sockets) == SendBusy && clock - busySince < BUSY_GIVE_UP_MS
    }

    method MeetOk()
      requires Busy() && !Spent() && Tried(Last(past), next, sockets) == SendOk
      modifies this`next, this`inFlight, this`busySince, this`sentIn, state, sentAt
      ensures Busy() && next == old(next) + 1
      ensures Dealt(old(next)) && KeepsSent(old(sentIn), sentIn, old(next))
      ensures forall i :: 0 <= i < old(next) ==> state[i] == old(state[i]) && sentAt[i] == old(sentAt[i])
    {
      Launch();
    }

    method MeetFailure()
      requires Busy() && !Spent() && Tried(Last(past), next, sockets) == SendFailed
      modifies this`next, this`reports, this`causes, this`busySince, state
      ensures Busy() && next == old(next) + 1 && OnlyDown(old(reports), reports)
      ensures Dealt(old(next))
      ensures forall i :: 0 <= i < old(next) ==> state[i] == old(state[i])
    {
      Skip(CouldNotSend(|past| - 1));
    }

    /** One more send; `busy` when the next host found every socket full and waits. */
    method SendNext(send: (nat, nat) -> SendOutcome) returns (busy: bool)
      requires Busy() && !Spent() && send == Last(past).send
      modifies this`next, this`inFlight, this`reports, this`causes, this`busySince, this`busyIn, this`sentIn, state, sentAt
      ensures Busy() && OnlyDown(old(reports), reports)
      ensures next == old(next) + if busy then 0 else 1
      ensures busy ==> Blocked()
      ensures Dealt(old(next))
      ensures KeepsSent(old(sentIn), sentIn, old(next))
      ensures forall i :: 0 <= i < old(next) ==> state[i] == old(state[i]) && sentAt[i] == old(sentAt[i])
    {
      busy := false;
      var sent := SendEcho(send);
      if sent == SendOk {
        MeetOk();
      } else if sent == SendFailed {
        MeetFailure();
      } else {
        busy := MeetFull();
      }
    }

    /** Send what the window and the pace allow. `busy` says the next host found every
        socket full and waits for room. */
    method SendBatch(send: (nat, nat) -> SendOutcome) returns (busy: bool)
      requires Busy() && send == Last(past).send
      modifies this`next, this`inFlight, this`reports, this`causes, this`busySince, this`busyIn, this`sentIn, state, sentAt
      ensures Busy() && OnlyDown(old(reports), reports) && old(next) <= next
      ensures stopped ==> next == old(next)
      ensures if busy then Blocked() else Spent()
      ensures Dealt(old(next))
      ensures KeepsSent(old(sentIn), sentIn, old(next))
      ensures forall i :: 0 <= i < old(next) ==> state[i] == old(state[i]) && sentAt[i] == old(sentAt[i])
    {
      busy := false;
      var budget := SendBudget(clock - started, next);
      while !stopped && next < count && inFlight < maxInFlight && budget > 0
        invariant Busy() && OnlyDown(old(reports), reports) && old(next) <= next
        invariant stopped ==> next == old(next)
        invariant next + budget == SENDS_PER_MS * (clock - started + 1)
        invariant Dealt(old(next))
        invariant KeepsSent(old(sentIn), sentIn, old(next))
        invariant forall i :: 0 <= i < old(next) ==> state[i] == old(state[i]) && sentAt[i] == old(sentAt[i])
        decreases budget
      {
        busy := SendNext(send);
        if busy { break; }
        budget := budget - 1;
      }
    }

    /** An echo still in flight went out in this very turn or has time left. */
    ghost predicate NoneLate()
      requires Valid()
      reads this, state, sentAt
    {
      forall i :: 0 <= i < next && state[i] == InFlight ==>
        sentIn[i] == |past| - 1 || clock < sentAt[i] + timeoutMs
    }

    /** A turn up to its sends: give up what is overdue, hear the caller. */
    method Prepare(round: Round)
      requires Resting() && round.now >= clock
      modifies this`clock, this`past, this`oldest, this`inFlight, this`reports, this`causes, this`stopped, state
      ensures Busy() && past == old(past) + [round] && clock == round.now
      ensures OnlyDown(old(reports), reports) && stopped == (old(stopped) || round.stop)
      ensures forall i :: 0 <= i < next ==>
                state[i] == if old(state[i]) == InFlight && clock >= sentAt[i] + timeoutMs then Reported else old(state[i])
    {
      Begin(round);
      Expire();
      if !stopped && round.stop { stopped := true; }
    }

    /** A turn up to its wait. */
    method Advance(round: Round) returns (busy: bool)
      requires Resting() && round.now >= clock
      modifies this, state, sentAt
      ensures Busy() && past == old(past) + [round] && clock == round.now && read == old(read)
      ensures OnlyDown(old(reports), reports) && old(next) <= next
      ensures stopped == (old(stopped) || round.stop) && (stopped ==> next == old(next))
      ensures if busy then Blocked() else Spent()
      ensures Dealt(old(next)) && KeepsSent(old(sentIn), sentIn, old(next)) && NoneLate()
    {
      Prepare(round);
      busy := SendBatch(round.send);
    }

    /** A reply of host i, in time: report it up. */
    method Hear(i: nat)
      requires Busy() && i < count && state[i] == InFlight && i in Last(past).replies
      requires i in sentIn ==> sentIn[i] == |past| - 1 || clock < sentAt[i] + timeoutMs
      modifies this`inFlight, this`reports, this`causes, state
      ensures Busy() && inFlight == old(inFlight) - 1
      ensures forall j :: 0 <= j < count ==> state[j] == if j == i then Reported else old(state[j])
      ensures reports == old(reports) + [Report(i, true)]
    {
      AnswerIsBacked(i);
      Settle(i, true, Answered(sentIn[i], |past| - 1));
    }

    /** Every reply of the round was read. */
    ghost method AllRead()
      requires Busy() && forall i :: 0 <= i < next && state[i] == InFlight ==> i !in Last(past).replies
      modifies this`read
      ensures Resting()
    {
      TravellingReads(state[..], sentAt[..], next, past, read, sentIn, clock, sockets);
      read := |past|;
    }

    /** Count each reply for its host, once: more replies, or ones too late, change
        nothing. */
    method CountReplies(replies: seq<int>)
      requires Busy() && NoneLate() && replies == Last(past).replies
      requires forall m :: 0 <= m < |replies| ==> replies[m] < count
      modifies this`inFlight, this`reports, this`causes, state
      ensures Busy() && OnlyUp(old(reports), reports)
      ensures forall i :: 0 <= i < count ==>
                state[i] == if old(state[i]) == InFlight && i in replies then Reported else old(state[i])
      ensures inFlight + |reports| == old(inFlight) + |old(reports)|
    {
      for n := 0 to |replies|
        invariant Busy() && OnlyUp(old(reports), reports)
        invariant forall i :: 0 <= i < count ==>
                    state[i] == if old(state[i]) == InFlight && i in replies[..n] then Reported else old(state[i])
        invariant inFlight + |reports| == old(inFlight) + |old(reports)|
      {
        assert forall i :: i in replies[..n + 1] <==> i in replies[..n] || i == replies[n];
        if replies[n] >= 0 && state[replies[n]] == InFlight {
          InFlightBelowNext(replies[n]);
          Hear(replies[n]);
        }
      }
      assert replies[..|replies|] == replies;
    }

    /** The end of a turn: every reply of its round is read and counted. */
    method Receive(replies: seq<int>)
      requires Busy() && NoneLate() && replies == Last(past).replies
      requires forall m :: 0 <= m < |replies| ==> replies[m] < count
      modifies this`inFlight, this`reports, this`causes, this`read, state
      ensures Resting() && NoneLate() && OnlyUp(old(reports), reports)
      ensures forall i :: 0 <= i < count ==>
                state[i] == if old(state[i]) == InFlight && i in replies then Reported else old(state[i])
      ensures inFlight + Ups(reports) == old(inFlight) + Ups(old(reports))
    {
      CountReplies(replies);
      OnlyUpAddsUps(old(reports), reports);
      AllRead();
    }

    /** One turn of the sweep's loop; `over` when it leaves it. */
    method Turn(round: Round) returns (over: bool)
      requires Resting() && round.now >= clock
      requires forall m :: 0 <= m < |round.replies| ==> round.replies[m] < count
      modifies this, state, sentAt
      ensures Valid() && past == old(past) + [round] && clock == round.now && old(reports) <= reports
      ensures stopped == (old(stopped) || round.stop)
      ensures old(next) <= next && (stopped ==> next == old(next))
      ensures KeepsSent(old(sentIn), sentIn, old(next)) && NoneLate()
      ensures forall i :: old(next) <= i < next ==>
                (i in sentIn <==> Tried(round, i, sockets) == SendOk) && (i in sentIn ==> sentIn[i] == |past| - 1)
      ensures Spent() || Blocked() || inFlight + Ups(reports) - Ups(old(reports)) == maxInFlight
      ensures over ==> inFlight == 0 && (stopped || next == count)
      ensures !over ==> Resting()
    {
      var busy := Advance(round);
      OnlyDownKeepsUps(old(reports), reports);
      if inFlight == 0 && (stopped || next == count) { return true; }
      Receive(round.replies);
      return false;
    }

    /** The sweep's loop over a script of rounds: until it leaves it, or the script ends.
        `done` is the part of the script it went through. */
    method Loop(rounds: seq<Round>) returns (over: bool, done: seq<Round>)
      requires Resting() && Usable(rounds, clock, count)
      modifies this, state, sentAt
      ensures Valid() && (!over ==> Resting()) && (done != [] ==> NoneLate())
      ensures done <= rounds && past == old(past) + done && (!over ==> done == rounds)
      ensures stopped == (old(stopped) || AskedToStop(done))
      ensures over ==> inFlight == 0 && (stopped || next == count)
    {
      over, done := false, [];
      var rest := rounds;
      while rest != [] && !over
        invariant Valid() && rounds == done + rest && past == old(past) + done
        invariant done != [] ==> NoneLate()
        invariant !over ==> Resting() && Usable(rest, clock, count)
        invariant stopped == (old(stopped) || AskedToStop(done))
        invariant over ==> inFlight == 0 && (stopped || next == count)
        decreases |rest|
      {
        NextRound(done, rest);
        over := Turn(rest[0]);
        done := done + [rest[0]];
        rest := rest[1..];
      }
    }

    /** The whole sweep. Whether the script ends or the loop is left, every host reported
        was reported once, for a cause the rounds so far bear out; it was reported up
        exactly if its echo went out and a reply to it was read before its wait was over;
        no host still in flight is overdue; and the pace held. When the loop was left,
        exactly the hosts it got to were reported, and unless the caller asked to stop
        that is all of them. */
    method Run(rounds: seq<Round>) returns (over: bool, done: seq<Round>)
      requires Resting() && Usable(rounds, clock, count)
      modifies this, state, sentAt
      ensures Valid() && (!over ==> Resting()) && (done != [] ==> NoneLate())
      ensures done <= rounds && past == old(past) + done && (!over ==> done == rounds)
      ensures forall i: nat :: TimesReported(reports, i) <= if i < next then 1 else 0
      ensures AllBacked(reports, causes, past, timeoutMs, sockets)
      ensures forall k :: 0 <= k < |reports| ==>
                (reports[k].up <==>
                 reports[k].index in sentIn
                 && HeardInTime(past, reports[k].index, sentIn[reports[k].index], timeoutMs))
      ensures next <= SENDS_PER_MS * (clock - started + 1)
      ensures stopped == (old(stopped) || AskedToStop(done))
      ensures over ==> stopped || next == count
      ensures over ==> forall i: nat :: TimesReported(reports, i) == if i < next then 1 else 0
    {
      over, done := Loop(rounds);
      Upness();
      if over {
        forall i | 0 <= i < next ensures state[i] == Reported {
          NoneInFlight(state[..], i);
        }
      }
    }

    lemma Upness()
      requires Valid()
      ensures forall k :: 0 <= k < |reports| ==>
                (reports[k].up <==>
                 reports[k].index in sentIn
                 && HeardInTime(past, reports[k].index, sentIn[reports[k].index], timeoutMs))
    {
      forall k | 0 <= k < |reports|
        ensures reports[k].up <==>
                reports[k].index in sentIn
                && HeardInTime(past, reports[k].index, sentIn[reports[k].index], timeoutMs)
      {
        UpMeansHeard(reports[k], causes[k], past, sentIn, timeoutMs, sockets);
      }
    }
  }

  predicate AskedToStop(rounds: seq<Round>) {
    rounds != [] && (Last(rounds).stop || AskedToStop(Front(rounds)))
  }

  lemma NextRound(done: seq<Round>, rest: seq<Round>)
    requires rest != []
    ensures (done + [rest[0]]) + rest[1..] == done + rest
    ensures AskedToStop(done + [rest[0]]) == (AskedToStop(done) || rest[0].stop)
  {
    assert Front(done + [rest[0]]) == done;
  }

  /** The clock never goes back, and replies are for this sweep's hosts or none. */
  ghost predicate Usable(rounds: seq<Round>, clock: int, count: nat) {
    rounds == [] ||
    (&& rounds[0].now >= clock
     && (forall m :: 0 <= m < |rounds[0].replies| ==> rounds[0].replies[m] < count)
     && Usable(rounds[1..], rounds[0].now, count))
  }

  datatype SweepResult = SweepDone | Unavailable | NoMemory

  /** icmp_ping_sweep's early returns: nothing was sent or reported. */
  method Start(count: nat, timeoutMs: int, maxInFlight: nat, socketsOpen: nat, memory: bool, now: int)
      returns (result: SweepResult, sweep: Sweep?)
    requires now >= 0
    ensures sweep == null <==> count == 0 || socketsOpen == 0 || !memory
    ensures sweep == null ==>
              result == if count == 0 then SweepDone else if socketsOpen == 0 then Unavailable else NoMemory
    ensures sweep != null ==>
              sweep.Resting() && sweep.next == 0 && sweep.reports == [] && sweep.past == [] && sweep.count == count
  {
    if count == 0 { return SweepDone, null; }
    if socketsOpen == 0 { return Unavailable, null; }
    if !memory { return NoMemory, null; }
    var s := new Sweep(count, timeoutMs, maxInFlight, socketsOpen, now);
    return SweepDone, s;
  }
}
