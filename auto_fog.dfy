/**
 * The Auto-Fog state of the fog server: the module-level record
 * `autoFogState` (server.js:74-81), changed only by `startAutoFog`
 * (server.js:177-218) and `stopAutoFog` (server.js:220-236). The handles
 * that `cron.schedule` and `setTimeout` return are opaque numbers supplied by
 * the caller; their callbacks are not run here. The one-hour timeout firing
 * is a call of `StopAutoFog`.
 */
module AutoFog {
  import opened Wrappers

  /** An opaque handle of a scheduled cron job or of a pending timeout. */
  type Handle = nat

  /** `60 * 60 * 1000`: the Auto-Fog ceiling in milliseconds. */
  const HOUR_MS: int := 3600000

  /** The interval, in minutes, of the record before the first start. */
  const DEFAULT_INTERVAL: int := 5

  /** The record `autoFogState` as a value; times are clock readings in milliseconds. */
  datatype Snapshot = Snapshot(
    active: bool,
    interval: int,
    cronJob: Option<Handle>,
    startTime: Option<int>,
    autoDisableTime: Option<int>,
    autoDisableTimeout: Option<Handle>)

  const INITIAL: Snapshot := Snapshot(false, DEFAULT_INTERVAL, None, None, None, None)

  /** The ceiling that belongs to a start time: one hour later. */
  function Ceiling(startTime: Option<int>): Option<int> {
    if startTime.Some? then Some(startTime.value + HOUR_MS) else None
  }

  /**
   * What holds of the record at every point between two operations: an
   * active record owns both a cron job and a ceiling timeout and records its
   * start and its ceiling; a timeout is only held while active; a record
   * without a cron job has no times; the ceiling is always one hour after
   * the start. (A record may own a cron job while inactive: see
   * `FailedStartKeepsJob`.)
   */
  predicate Consistent(s: Snapshot) {
    (s.active ==> s.cronJob.Some? && s.autoDisableTimeout.Some? && s.startTime.Some?) &&
    (s.autoDisableTimeout.Some? ==> s.active) &&
    (s.cronJob.None? ==> s.startTime.None?) &&
    s.autoDisableTime == Ceiling(s.startTime)
  }

  lemma InitialConsistent()
    ensures Consistent(INITIAL) && !INITIAL.active
  {
  }

  /**
   * Where the `try` block of `startAutoFog` throws, if it does: in
   * `cron.schedule`, in `cronJob.start()` or in `setTimeout`.
   */
  datatype Fault = NoFault | ScheduleThrows | CronStartThrows | TimeoutThrows

  /** Whether `startAutoFog`'s guard lets the call through. */
  predicate CanStart(s: Snapshot) {
    !s.active && s.cronJob.None?
  }

  /**
   * `startAutoFog(interval)` at clock reading `now`, with `job` and `timeout`
   * the handles the scheduler hands out: the new record, and whether the
   * call returns (true) or rethrows (false).
   */
  function StartTransition(s: Snapshot, interval: int, now: int, job: Handle, timeout: Handle, fault: Fault): (r: (Snapshot, bool))
    // a second start while active, or while a cron job is held, changes nothing and is not an error
    ensures !CanStart(s) ==> r == (s, true)
    // a start that gets through and does not throw
    ensures CanStart(s) && fault == NoFault ==>
      r.1 && r.0 == Snapshot(true, interval, Some(job), Some(now), Some(now + HOUR_MS), Some(timeout))
    // it throws exactly when it gets through and a scheduling call fails, and then the flag is rolled back
    ensures !r.1 <==> CanStart(s) && fault != NoFault
    ensures !r.1 ==> !r.0.active && r.0.autoDisableTimeout == s.autoDisableTimeout
    ensures Consistent(s) ==> Consistent(r.0)
    // the ceiling lies exactly one hour after the start
    ensures Consistent(s) && r.0.active ==>
      r.0.startTime.Some? && r.0.autoDisableTime.Some? && r.0.autoDisableTime.value - r.0.startTime.value == HOUR_MS
  {
    if !CanStart(s) then (s, true)
    else
      match fault
      case NoFault =>
        (Snapshot(true, interval, Some(job), Some(now), Some(now + HOUR_MS), Some(timeout)), true)
      case ScheduleThrows =>
        (s.(active := false), false)
      case _ =>
        (s.(cronJob := Some(job), interval := interval, startTime := Some(now),
            autoDisableTime := Some(now + HOUR_MS), active := false), false)
  }

  /** `stopAutoFog()`: destroys and forgets the cron job and the timeout, and clears the flag and the times. */
  function StopTransition(s: Snapshot): (r: Snapshot)
    ensures !r.active && r.cronJob.None? && r.autoDisableTimeout.None?
    ensures r.startTime.None? && r.autoDisableTime.None?
    ensures r.interval == s.interval
    ensures Consistent(r)
    ensures Consistent(s) && !s.active && s.cronJob.None? ==> r == s
  {
    s.(cronJob := None, autoDisableTimeout := None, active := false, startTime := None, autoDisableTime := None)
  }

  /** Stopping twice is stopping once. */
  lemma StopIdempotent(s: Snapshot)
    ensures StopTransition(StopTransition(s)) == StopTransition(s)
  {
  }

  /**
   * Two starts in a row leave the first start's cron job and timeout in place:
   * there is never a second periodic task.
   */
  lemma SecondStartIsNoOp(s: Snapshot, i1: int, t1: int, j1: Handle, o1: Handle, i2: int, t2: int, j2: Handle, o2: Handle, f2: Fault)
    requires CanStart(s)
    ensures var first := StartTransition(s, i1, t1, j1, o1, NoFault).0;
      StartTransition(first, i2, t2, j2, o2, f2) == (first, true) && first.cronJob == Some(j1)
  {
  }

  /** After a stop (the ceiling firing or the disable route) a start goes through again. */
  lemma StartAfterStop(s: Snapshot, interval: int, now: int, job: Handle, timeout: Handle)
    ensures StartTransition(StopTransition(s), interval, now, job, timeout, NoFault).0.active
  {
  }

  /**
   * A start that throws after the cron job was created rolls back the flag
   * but keeps the job: until the next stop, every further start is a silent
   * no-op that still returns normally.
   */
  lemma FailedStartKeepsJob(s: Snapshot, interval: int, now: int, job: Handle, timeout: Handle, fault: Fault,
                            i2: int, t2: int, j2: Handle, o2: Handle, f2: Fault)
    requires CanStart(s) && (fault == CronStartThrows || fault == TimeoutThrows)
    ensures var after := StartTransition(s, interval, now, job, timeout, fault);
      !after.1 && !after.0.active && after.0.cronJob == Some(job) &&
      StartTransition(after.0, i2, t2, j2, o2, f2) == (after.0, true)
  {
  }

  // ---------------------------------------------------------------------------
  // Histories: no cron job or timeout is ever lost
  // ---------------------------------------------------------------------------

  /** One call into the Auto-Fog state. */
  datatype Op = Start(interval: int, now: int, job: Handle, timeout: Handle, fault: Fault) | Stop

  function Apply(s: Snapshot, op: Op): Snapshot {
    match op
    case Start(interval, now, job, timeout, fault) => StartTransition(s, interval, now, job, timeout, fault).0
    case Stop => StopTransition(s)
  }

  /**
   * How many cron jobs and ceiling timeouts one call creates and releases.
   * A start past the guard creates a job unless `cron.schedule` throws, and a
   * timeout unless something throws before `setTimeout` returns; a stop
   * destroys the job and clears the timeout it finds.
   */
  function JobsCreated(s: Snapshot, op: Op): nat {
    if op.Start? && CanStart(s) && op.fault != ScheduleThrows then 1 else 0
  }

  function TimeoutsCreated(s: Snapshot, op: Op): nat {
    if op.Start? && CanStart(s) && op.fault == NoFault then 1 else 0
  }

  function JobsReleased(s: Snapshot, op: Op): nat {
    if op.Stop? && s.cronJob.Some? then 1 else 0
  }

  function TimeoutsReleased(s: Snapshot, op: Op): nat {
    if op.Stop? && s.autoDisableTimeout.Some? then 1 else 0
  }

  /** The record after a history of calls, the last call applied last. */
  function Run(s: Snapshot, ops: seq<Op>): Snapshot
    decreases |ops|
  {
    if ops == [] then s else Apply(Run(s, ops[..|ops| - 1]), ops[|ops| - 1])
  }

  /** Cron jobs created and not yet destroyed along a history. */
  function LiveJobs(s: Snapshot, ops: seq<Op>): int
    decreases |ops|
  {
    if ops == [] then 0
    else
      var before := Run(s, ops[..|ops| - 1]);
      LiveJobs(s, ops[..|ops| - 1]) + JobsCreated(before, ops[|ops| - 1]) - JobsReleased(before, ops[|ops| - 1])
  }

  /** Ceiling timeouts created and not yet cleared along a history. */
  function LiveTimeouts(s: Snapshot, ops: seq<Op>): int
    decreases |ops|
  {
    if ops == [] then 0
    else
      var before := Run(s, ops[..|ops| - 1]);
      LiveTimeouts(s, ops[..|ops| - 1]) + TimeoutsCreated(before, ops[|ops| - 1]) - TimeoutsReleased(before, ops[|ops| - 1])
  }

  /**
   * From the initial record, along any history of starts and stops (with or
   * without scheduling failures), the record stays consistent, at most one
   * cron job and one timeout are alive, and the live ones are exactly those
   * the record holds: no handle is ever overwritten or leaked.
   */
  lemma {:induction false} NoLeakedHandles(ops: seq<Op>)
    ensures Consistent(Run(INITIAL, ops))
    ensures LiveJobs(INITIAL, ops) == (if Run(INITIAL, ops).cronJob.Some? then 1 else 0)
    ensures LiveTimeouts(INITIAL, ops) == (if Run(INITIAL, ops).autoDisableTimeout.Some? then 1 else 0)
    decreases |ops|
  {
    if ops != [] {
      NoLeakedHandles(ops[..|ops| - 1]);
    }
  }

  /**
   * The record `autoFogState`, with the fields the source gives it.
   */
  class AutoFogState {
    var active: bool
    var interval: int
    var cronJob: Option<Handle>
    var startTime: Option<int>
    var autoDisableTime: Option<int>
    var autoDisableTimeout: Option<Handle>

    function Value(): Snapshot
      reads this
    {
      Snapshot(active, interval, cronJob, startTime, autoDisableTime, autoDisableTimeout)
    }

    /** The record as the server creates it at load time. */
    constructor ()
      ensures Value() == INITIAL
    {
      active := false;
      interval := DEFAULT_INTERVAL;
      cronJob := None;
      startTime := None;
      autoDisableTime := None;
      autoDisableTimeout := None;
    }

    /**
     * `startAutoFog(interval)`: returns false where the source rethrows.
     * The source reads the clock twice; one reading `now` stands for both.
     */
    method StartAutoFog(interval: int, now: int, job: Handle, timeout: Handle, fault: Fault) returns (ok: bool)
      modifies this
      ensures (Value(), ok) == StartTransition(old(Value()), interval, now, job, timeout, fault)
    {
      if active || cronJob.Some? {
        return true;
      }
      active := true;
      if fault == ScheduleThrows {
        active := false;
        return false;
      }
      cronJob := Some(job);
      this.interval := interval;
      startTime := Some(now);
      autoDisableTime := Some(now + HOUR_MS);
      if fault == CronStartThrows || fault == TimeoutThrows {
        active := false;
        return false;
      }
      autoDisableTimeout := Some(timeout);
      ok := true;
    }

    /** `stopAutoFog()`, also what the one-hour timeout runs when it fires. */
    method StopAutoFog()
      modifies this
      ensures Value() == StopTransition(old(Value()))
    {
      if cronJob.Some? {
        cronJob := None;
      }
      if autoDisableTimeout.Some? {
        autoDisableTimeout := None;
      }
      active := false;
      startTime := None;
      autoDisableTime := None;
    }
  }
}
