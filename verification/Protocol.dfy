/** The calls an engine run makes into its source, in order, and what it means
    for them to respect the contract in src/core/connects.zig: every job handed
    out comes back in exactly one `done`. The engine modules prove their logs
    respect it; the port scan modules rely on nothing else about the engine. */
module Protocol {
  import opened Basics
  import opened ConnectTypes

  /** One serialized call into the source. `stop` is whether the scan had been
      asked to stop when the source looked. */
  datatype Call =
    | NextCall(stop: bool, got: Option<Job>)
    | DoneCall(job: Job, outcome: Outcome, us: nat)

  /** The calls so far, the latest outermost. */
  datatype Log = Nothing | Then(before: Log, call: Call)

  function HandedBy(c: Call): seq<Job> {
    if c.NextCall? && c.got.Some? then [c.got.value] else []
  }

  function ReportedBy(c: Call): seq<Job> {
    if c.DoneCall? then [c.job] else []
  }

  /** Every job the source handed out, in order. */
  function Handed(log: Log): seq<Job> {
    if log.Nothing? then [] else Handed(log.before) + HandedBy(log.call)
  }

  /** Every job reported back, in order. */
  function Reported(log: Log): seq<Job> {
    if log.Nothing? then [] else Reported(log.before) + ReportedBy(log.call)
  }

  /** The job was reported with this outcome, this long after it started. */
  ghost predicate ReportedAs(log: Log, p: Job, o: Outcome, us: nat) {
    log.Then? && (log.call == DoneCall(p, o, us) || ReportedAs(log.before, p, o, us))
  }

  /** At every moment only jobs handed out and not reported yet were reported. */
  ghost predicate Legal(log: Log) {
    log.Nothing? || (Legal(log.before) && multiset(Reported(log)) <= multiset(Handed(log)))
  }

  /** The source said at least once that it has no more. */
  predicate SawDry(log: Log) {
    log.Then? && (log.call == NextCall(true, None) || log.call == NextCall(false, None) || SawDry(log.before))
  }

  /** The scan was not asked to stop. */
  predicate NeverStopped(log: Log) {
    log.Nothing? || (!(log.call.NextCall? && log.call.stop) && NeverStopped(log.before))
  }

  /** What a run that returned leaves behind. */
  ghost predicate Complete(log: Log) {
    && Legal(log)
    && SawDry(log)
    && multiset(Handed(log)) == multiset(Reported(log))
  }
}
