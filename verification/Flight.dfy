/** The connects one loop has in flight (Flight in src/core/connects.zig): parallel
    arrays with swap removal, and the backwards walk that reports what settled. */
module Flight {
  import opened Basics
  import opened ConnectTypes

  const NEVER := 0x7FFF_FFFF_FFFF_FFFF_FFFF_FFFF  // the largest i96

  /** One slot across the parallel arrays. */
  datatype Conn = Conn(job: Job, sock: nat, started: int, deadline: int, settled: bool)
  {
    /** The deadline that counts under `cut`: the slot's own unless the connect has a
        floor and a wait is known, which together can only bring it forward. */
    function Deadline(cut: Cut): int {
      if job.target.cutFloorMs.None? || cut.waitMs.None? then deadline
      else
        var wait := Max(cut.waitMs.value, job.target.cutFloorMs.value);
        Min(deadline, Max(started, cut.lastAnswer) + wait * NS_PER_MS)
    }

    /** The walk takes this slot out at `now`. */
    predicate Gone(cut: Cut, now: int) {
      settled || now >= Deadline(cut)
    }

    /** When the loop looks at it again at the latest, seen from `now`. */
    function Wake(cut: Cut, now: int): int {
      var due := Deadline(cut);
      if cut.waitMs.None? && job.target.cutFloorMs.Some? then
        var check := started + job.target.cutFloorMs.value * NS_PER_MS;
        if check > now then Min(due, check) else due
      else due
    }
  }

  function NewConn(job: Job, sock: nat, started: int): Conn {
    Conn(job, sock, started, started + job.target.timeoutMs * NS_PER_MS, false)
  }

  /** An entry of a loop's verdict buffer. */
  datatype Settled = Settled(job: Job, verdict: Verdict, us: nat)

  /** The last slot moves into the removed one. */
  function SwapRemove<T>(s: seq<T>, i: nat): seq<T>
    requires i < |s|
  {
    s[i := Last(s)][..|s| - 1]
  }

  /** The walk from slot i - 1 down to 0: what is left, and what was reported. */
  function Walk(conns: seq<Conn>, i: nat, cut: Cut, now: int): (r: (seq<Conn>, seq<Conn>))
    requires i <= |conns|
    decreases i
  {
    if i == 0 then (conns, [])
    else if conns[i - 1].Gone(cut, now) then
      var rest := Walk(SwapRemove(conns, i - 1), i - 1, cut, now);
      (rest.0, [conns[i - 1]] + rest.1)
    else Walk(conns, i - 1, cut, now)
  }

  /** The reports for the connects the walk took out. `finish` is the verdict of
      closing a socket, told whether it had settled. */
  function Reports(gone: seq<Conn>, finish: (nat, bool) -> Verdict, now: int): seq<Settled> {
    if gone == [] then []
    else [Settled(gone[0].job, finish(gone[0].sock, gone[0].settled), ElapsedUs(gone[0].started, now))]
         + Reports(gone[1..], finish, now)
  }

  /** One of the parallel arrays. */
  function Column<T>(conns: seq<Conn>, field: Conn -> T): seq<T> {
    seq(|conns|, k requires 0 <= k < |conns| => field(conns[k]))
  }

  lemma ColumnAppend<T>(conns: seq<Conn>, c: Conn, field: Conn -> T)
    ensures Column(conns + [c], field) == Column(conns, field) + [field(c)]
  {
  }

  function JobOf(c: Conn): Job { c.job }

  function SockOf(c: Conn): nat { c.sock }

  function Jobs(conns: seq<Conn>): seq<Job> {
    Column(conns, JobOf)
  }

  function Socks(conns: seq<Conn>): seq<nat> {
    Column(conns, SockOf)
  }

  lemma {:induction false} ReportsAppend(a: seq<Conn>, c: Conn, finish: (nat, bool) -> Verdict, now: int)
    ensures Reports(a + [c], finish, now) ==
            Reports(a, finish, now) + [Settled(c.job, finish(c.sock, c.settled), ElapsedUs(c.started, now))]
  {
    if a == [] {
      assert a + [c] == [c];
    } else {
      assert (a + [c])[1..] == a[1..] + [c];
      ReportsAppend(a[1..], c, finish, now);
    }
  }

  lemma SwapRemoveLoses<T>(s: seq<T>, i: nat)
    requires i < |s|
    ensures multiset(s) == multiset(SwapRemove(s, i)) + multiset{s[i]}
    ensures forall k :: 0 <= k < i ==> SwapRemove(s, i)[k] == s[k]
  {
    var n := |s| - 1;
    if i < n {
      var a, b := s[..i], s[i + 1..n];
      assert s == a + [s[i]] + b + [s[n]];
      assert SwapRemove(s, i) == a + [s[n]] + b;
    } else {
      assert s == SwapRemove(s, i) + [s[n]];
    }
  }

  /** Nothing the walk leaves is due, and everything it takes is. */
  lemma {:induction false} WalkSorts(conns: seq<Conn>, i: nat, cut: Cut, now: int)
    requires i <= |conns|
    requires forall k :: i <= k < |conns| ==> !conns[k].Gone(cut, now)
    decreases i
    ensures var (kept, gone) := Walk(conns, i, cut, now);
            && (forall k :: 0 <= k < |kept| ==> !kept[k].Gone(cut, now))
            && (forall k :: 0 <= k < |gone| ==> gone[k].Gone(cut, now))
            && |conns| == |kept| + |gone|
  {
    if i > 0 {
      var next := if conns[i - 1].Gone(cut, now) then SwapRemove(conns, i - 1) else conns;
      WalkSorts(next, i - 1, cut, now);
    }
  }

  /** Each array splits with no entry lost or doubled: every job comes out once, and
      every socket is closed once, even where two slots look alike. */
  lemma {:induction false} WalkSplitsColumn<T>(conns: seq<Conn>, i: nat, cut: Cut, now: int, field: Conn -> T)
    requires i <= |conns|
    decreases i
    ensures var (kept, gone) := Walk(conns, i, cut, now);
            multiset(Column(conns, field)) == multiset(Column(kept, field)) + multiset(Column(gone, field))
  {
    if i == 0 {
      assert multiset(Column<T>([], field)) == multiset{};
    } else if conns[i - 1].Gone(cut, now) {
      var smaller := SwapRemove(conns, i - 1);
      SwapRemoveLoses(Column(conns, field), i - 1);
      assert Column(smaller, field) == SwapRemove(Column(conns, field), i - 1);
      WalkSplitsColumn(smaller, i - 1, cut, now, field);
      var gone := Walk(smaller, i - 1, cut, now).1;
      assert Column([conns[i - 1]] + gone, field) == [field(conns[i - 1])] + Column(gone, field);
    } else {
      WalkSplitsColumn(conns, i - 1, cut, now, field);
    }
  }

  function Itself(c: Conn): Conn { c }

  /** The whole walk splits the table in two: the due connects are reported once each,
      everything else stays. */
  lemma WalkSplits(conns: seq<Conn>, cut: Cut, now: int)
    ensures var (kept, gone) := Walk(conns, |conns|, cut, now);
            && multiset(conns) == multiset(kept) + multiset(gone)
            && multiset(Jobs(conns)) == multiset(Jobs(kept)) + multiset(Jobs(gone))
            && multiset(Socks(conns)) == multiset(Socks(kept)) + multiset(Socks(gone))
            && (forall c :: c in kept ==> !c.Gone(cut, now))
            && (forall c :: c in gone ==> c.Gone(cut, now))
            && |conns| == |kept| + |gone|
  {
    var (kept, gone) := Walk(conns, |conns|, cut, now);
    WalkSorts(conns, |conns|, cut, now);
    WalkSplitsColumn(conns, |conns|, cut, now, Itself);
    WalkSplitsColumn(conns, |conns|, cut, now, JobOf);
    WalkSplitsColumn(conns, |conns|, cut, now, SockOf);
    assert Column(conns, Itself) == conns;
    assert Column(kept, Itself) == kept;
    assert Column(gone, Itself) == gone;
  }

  /** One reported slot moves from what the walk has left to what it reported. */
  lemma WalkStep(conns: seq<Conn>, i: nat, cut: Cut, now: int, gone: seq<Conn>)
    requires i < |conns| && conns[i].Gone(cut, now)
    ensures var before, after := Walk(conns, i + 1, cut, now), Walk(SwapRemove(conns, i), i, cut, now);
            before.0 == after.0 && gone + before.1 == gone + [conns[i]] + after.1
  {
  }

  /** The parallel arrays as the source keeps them. */
  class Table {
    const jobs: array<Job>
    const socks: array<nat>
    const started: array<int>
    const deadlines: array<int>
    const settled: array<bool>
    var len: nat

    ghost const Arrays: set<object> := {jobs, socks, started, deadlines, settled}

    ghost predicate Valid()
      reads this
    {
      && jobs.Length == socks.Length == started.Length == deadlines.Length == settled.Length
      && started != deadlines
      && len <= jobs.Length
    }

    ghost function At(i: nat): Conn
      requires Valid() && i < len
      reads this, Arrays
    {
      Conn(jobs[i], socks[i], started[i], deadlines[i], settled[i])
    }

    ghost function Conns(): seq<Conn>
      requires Valid()
      reads this, Arrays
    {
      seq(len, i requires Valid() && 0 <= i < len reads this, Arrays => At(i))
    }

    constructor (capacity: nat)
      ensures Valid() && Conns() == [] && jobs.Length == capacity && fresh(Arrays)
    {
      jobs := new Job[capacity];
      socks := new nat[capacity];
      started := new int[capacity];
      deadlines := new int[capacity];
      settled := new bool[capacity];
      len := 0;
    }

    method Add(job: Job, sock: nat, at: int)
      requires Valid() && len < jobs.Length
      modifies this`len, Arrays
      ensures Valid() && len == old(len) + 1
      ensures Conns()[..len - 1] == old(Conns())
      ensures Conns()[len - 1].(settled := false) == NewConn(job, sock, at)
    {
      jobs[len] := job;
      socks[len] := sock;
      started[len] := at;
      deadlines[len] := at + job.target.timeoutMs * NS_PER_MS;
      len := len + 1;
    }

    method Remove(i: nat)
      requires Valid() && i < len
      modifies this`len, Arrays
      ensures Valid() && Conns() == SwapRemove(old(Conns()), i)
    {
      var last := len - 1;
      jobs[i] := jobs[last];
      socks[i] := socks[last];
      started[i] := started[last];
      deadlines[i] := deadlines[last];
      settled[i] := settled[last];
      len := last;
    }

    method Deadline(i: nat, cut: Cut) returns (due: int)
      requires Valid() && i < len
      ensures due == At(i).Deadline(cut)
    {
      var own := deadlines[i];
      var target := jobs[i].target;
      if target.cutFloorMs.None? { return own; }
      if cut.waitMs.None? { return own; }
      var from := Max(started[i], cut.lastAnswer);
      return Min(own, from + Max(cut.waitMs.value, target.cutFloorMs.value) * NS_PER_MS);
    }

    /** Never later than any connect's deadline, and never later than the floor
        of one that may still be cut while that lies ahead. */
    method EarliestWake(cut: Cut, now: int) returns (earliest: int)
      requires Valid()
      ensures forall i :: 0 <= i < len ==> earliest <= At(i).Wake(cut, now) <= At(i).Deadline(cut)
      ensures cut.waitMs.None? ==>
                forall i :: 0 <= i < len && At(i).job.target.cutFloorMs.Some?
                            && At(i).started + At(i).job.target.cutFloorMs.value * NS_PER_MS > now ==>
                  earliest <= At(i).started + At(i).job.target.cutFloorMs.value * NS_PER_MS
      ensures earliest == NEVER || exists i :: 0 <= i < len && earliest == At(i).Wake(cut, now)
    {
      earliest := NEVER;
      ghost var at: nat := 0;
      for i := 0 to len
        invariant forall k :: 0 <= k < i ==> earliest <= At(k).Wake(cut, now)
        invariant earliest == NEVER || (0 <= at < i && earliest == At(at).Wake(cut, now))
      {
        var wake := Deadline(i, cut);
        if cut.waitMs.None? {
          if jobs[i].target.cutFloorMs.Some? {
            var check := started[i] + jobs[i].target.cutFloorMs.value * NS_PER_MS;
            if check > now {
              wake := Min(wake, check);
            }
          }
        }
        assert wake == At(i).Wake(cut, now);
        if wake < earliest {
          earliest := wake;
          at := i;
        }
      }
    }

    /** Finish slot i: its verdict goes to the buffer, its socket closes. */
    method ReportOne(i: nat, now: int, finish: (nat, bool) -> Verdict, out: array<Settled>, count: nat)
        returns (sock: nat)
      requires Valid() && i < len && count < out.Length && out as object !in Arrays
      modifies this`len, Arrays, out
      ensures Valid() && sock == old(At(i).sock)
      ensures Conns() == SwapRemove(old(Conns()), i)
      ensures var c := old(At(i));
              out[..count + 1] ==
              old(out[..count]) + [Settled(c.job, finish(c.sock, c.settled), ElapsedUs(c.started, now))]
    {
      sock := socks[i];
      out[count] := Settled(jobs[i], finish(sock, settled[i]), ElapsedUs(started[i], now));
      Remove(i);
    }

    /** The loop's report walk. `out` is its verdict buffer; `closed` lists the
        sockets it finished, in order. */
    method ReportGone(cut: Cut, now: int, finish: (nat, bool) -> Verdict, out: array<Settled>)
        returns (count: nat, closed: seq<nat>)
      requires Valid() && out.Length >= len && out as object !in Arrays
      modifies this`len, Arrays, out
      ensures Valid() && count <= out.Length
      ensures var w := Walk(old(Conns()), old(len), cut, now);
              && Conns() == w.0
              && count == |w.1|
              && out[..count] == Reports(w.1, finish, now)
              && closed == Socks(w.1)
    {
      count, closed := 0, [];
      ghost var whole := Walk(Conns(), len, cut, now);
      ghost var gone: seq<Conn> := [];
      assert gone + whole.1 == whole.1;
      var i: nat := len;
      while i > 0
        invariant Valid() && i <= len && count <= out.Length
        invariant count == |gone| && count + len == old(len)
        invariant var rest := Walk(Conns(), i, cut, now);
                  whole.0 == rest.0 && whole.1 == gone + rest.1
        invariant out[..count] == Reports(gone, finish, now)
        invariant closed == Socks(gone)
      {
        i := i - 1;
        var due := Deadline(i, cut);
        if settled[i] || now >= due {
          ghost var c, conns := At(i), Conns();
          WalkStep(conns, i, cut, now, gone);
          var sock := ReportOne(i, now, finish, out, count);
          ReportsAppend(gone, c, finish, now);
          closed := closed + [sock];
          assert SockOf(c) == sock;
          ColumnAppend(gone, c, SockOf);
          gone := gone + [c];
          count := count + 1;
        }
      }
      assert gone + [] == gone;
    }
  }
}
