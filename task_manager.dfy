/**
 * The task manager: the deadline monitor of the static schedule. For each
 * task kind it records the absolute and the dephased start time of the
 * current invocation and counts the invocations since the phase reference
 * was last taken. Each task body brackets its work between
 * `RegisterTaskStart` and `SimulateComputationTime`; the latter busy-waits
 * so that the task occupies its budget (or, if it is already too late to
 * meet its window, until the end of that window) and emits a log record.
 */
module TaskManager {
  import opened TaskConfig
  import opened Uptime

  const U32Limit: int := 0x1_0000_0000

  /** The width of the invocation counters. */
  type uint32 = x: int | 0 <= x < U32Limit

  /** Unsigned 32-bit successor, as `_nbrOfCalls[i] + 1` and `_nbrOfCalls[i]++` compute it. */
  function U32Succ(c: uint32): (s: uint32)
    ensures c + 1 < U32Limit ==> s == c + 1
    ensures c + 1 == U32Limit ==> s == 0
  {
    (c + 1) % U32Limit
  }

  /** The window a dephased start time is expected to fall in. */
  datatype StartBounds = StartBounds(min: int, max: int)

  /**
   * The expected window of the dephased start of invocation number `calls`
   * of task `t`: from the start of its period to the latest start that still
   * leaves its full budget before the next period boundary.
   */
  function DephasedStartBounds(t: TaskType, calls: uint32): (b: StartBounds)
    ensures b.min == Period(t) * calls
    ensures calls + 1 < U32Limit ==> b.max + ComputationTime(t) == Period(t) * (calls + 1)
    ensures calls + 1 < U32Limit ==> b.max - b.min == Period(t) - ComputationTime(t) > 0
  {
    Schedulable(t, false);
    StartBounds(Period(t) * calls, Period(t) * U32Succ(calls) - ComputationTime(t))
  }

  /** The windows of consecutive invocations are ordered and do not overlap. */
  lemma WindowsOrdered(t: TaskType, calls: uint32)
    requires calls + 1 < U32Limit
    ensures DephasedStartBounds(t, calls).max < DephasedStartBounds(t, calls + 1).min
  {
  }

  /**
   * After 2^32 - 1 invocations without a new phase, the counter successor
   * wraps and the window of the last invocation is empty.
   */
  lemma WindowEmptyAtWrap(t: TaskType)
    ensures DephasedStartBounds(t, U32Limit - 1).max < DephasedStartBounds(t, U32Limit - 1).min
  {
  }

  /** What the task manager reports for one invocation. */
  datatype TaskLog = TaskLog(
    taskType: TaskType,
    dephasedStart: int,
    computationTime: int,
    bounds: StartBounds,
    dropped: bool)

  /** The test-build check that the measured computation time is within budget. */
  predicate ComputationTooLong(log: TaskLog)
  {
    log.computationTime > ComputationTime(log.taskType) + AllowedDelta
  }

  /** The test-build check that the task did not start before its window. */
  predicate StartedTooEarly(log: TaskLog)
  {
    log.dephasedStart < log.bounds.min - AllowedDelta
  }

  /** The test-build check that the task did not start after its window. */
  predicate StartedTooLate(log: TaskLog)
  {
    log.dephasedStart > log.bounds.max + AllowedDelta
  }

  class TaskManager {
    /**
     * Whether logging is built in; it selects the overhead constant. The
     * build has a single switch for it, so the gear device must be given
     * the same value.
     */
    const logEnabled: bool

    const taskStartTime: array<int>
    const dephasedTaskStartTime: array<int>
    const nbrOfCalls: array<uint32>
    var phase: int

    /** The phase has no initial value until `InitializePhase` runs. */
    ghost var phaseInitialized: bool

    ghost predicate Valid()
      reads this
    {
      && taskStartTime.Length == NbrOfTaskTypes
      && dephasedTaskStartTime.Length == NbrOfTaskTypes
      && nbrOfCalls.Length == NbrOfTaskTypes
      && taskStartTime != dephasedTaskStartTime
    }

    constructor (logEnabled: bool)
      ensures Valid() && !phaseInitialized
      ensures fresh(taskStartTime) && fresh(dephasedTaskStartTime) && fresh(nbrOfCalls)
      ensures this.logEnabled == logEnabled
      ensures forall i :: 0 <= i < NbrOfTaskTypes ==>
        taskStartTime[i] == 0 && dephasedTaskStartTime[i] == 0 && nbrOfCalls[i] == 0
    {
      this.logEnabled := logEnabled;
      taskStartTime := new int[NbrOfTaskTypes](_ => 0);
      dephasedTaskStartTime := new int[NbrOfTaskTypes](_ => 0);
      nbrOfCalls := new uint32[NbrOfTaskTypes](_ => 0);
      phaseInitialized := false;
    }

    /** Restarts the invocation count of every task kind and takes the current time as phase. */
    method InitializePhase(clock: Clock)
      requires Valid()
      modifies this`phase, this`phaseInitialized, nbrOfCalls, clock
      ensures Valid() && phaseInitialized
      ensures forall i :: 0 <= i < NbrOfTaskTypes ==> nbrOfCalls[i] == 0
      ensures phase == clock.now && clock.now > old(clock.now)
      ensures unchanged(taskStartTime) && unchanged(dephasedTaskStartTime)
    {
      var taskIndex := 0;
      while taskIndex < NbrOfTaskTypes
        invariant 0 <= taskIndex <= NbrOfTaskTypes
        invariant forall i :: 0 <= i < taskIndex ==> nbrOfCalls[i] == 0
        modifies nbrOfCalls
      {
        nbrOfCalls[taskIndex] := 0;
        taskIndex := taskIndex + 1;
      }
      phase := clock.GetUpTime();
      phaseInitialized := true;
    }

    /** Records the start of an invocation of `t`, absolute and relative to the phase. */
    method RegisterTaskStart(t: TaskType, clock: Clock)
      requires Valid() && phaseInitialized
      modifies taskStartTime, dephasedTaskStartTime, clock
      ensures clock.now > old(clock.now)
      ensures taskStartTime[..] == old(taskStartTime[..])[Index(t) := clock.now]
      ensures dephasedTaskStartTime[..] == old(dephasedTaskStartTime[..])[Index(t) := clock.now - phase]
      ensures dephasedTaskStartTime[Index(t)] == taskStartTime[Index(t)] - phase
    {
      var taskIndex := Index(t);
      var now := clock.GetUpTime();
      taskStartTime[taskIndex] := now;
      dephasedTaskStartTime[taskIndex] := taskStartTime[taskIndex] - phase;
    }

    /**
     * Whether the current invocation of `t`, running for its full budget,
     * ends before the boundary of its period: exactly when its dephased
     * start is before the latest start of its window.
     */
    predicate IsWithinExpectedTime(t: TaskType)
      requires Valid()
      reads this, dephasedTaskStartTime, nbrOfCalls
      ensures IsWithinExpectedTime(t) <==>
        dephasedTaskStartTime[Index(t)] < DephasedStartBounds(t, nbrOfCalls[Index(t)]).max
    {
      var taskIndex := Index(t);
      dephasedTaskStartTime[taskIndex] + ComputationTime(t) < Period(t) * U32Succ(nbrOfCalls[taskIndex])
    }

    /** The record of an invocation that was on time; it measures the time since the start. */
    method LogTaskTime(t: TaskType, clock: Clock) returns (log: TaskLog)
      requires Valid()
      modifies clock
      ensures clock.now > old(clock.now)
      ensures !log.dropped && log.taskType == t
      ensures log.computationTime == clock.now - taskStartTime[Index(t)]
      ensures log.dephasedStart == dephasedTaskStartTime[Index(t)]
      ensures log.bounds == DephasedStartBounds(t, nbrOfCalls[Index(t)])
    {
      var taskIndex := Index(t);
      var now := clock.GetUpTime();
      log := TaskLog(t, dephasedTaskStartTime[taskIndex], now - taskStartTime[taskIndex],
                     DephasedStartBounds(t, nbrOfCalls[taskIndex]), false);
    }

    /** The record of a dropped invocation; it reports the budget as computation time. */
    function LogDropTask(t: TaskType): (log: TaskLog)
      requires Valid()
      reads this, dephasedTaskStartTime, nbrOfCalls
      ensures log.dropped && log.taskType == t
      ensures log.computationTime == ComputationTime(t)
      ensures log.bounds == DephasedStartBounds(t, nbrOfCalls[Index(t)])
      ensures log.dephasedStart == dephasedTaskStartTime[Index(t)]
    {
      var taskIndex := Index(t);
      TaskLog(t, dephasedTaskStartTime[taskIndex], ComputationTime(t),
              DephasedStartBounds(t, nbrOfCalls[taskIndex]), true)
    }

    /**
     * Ends an invocation of `t`. On time: busy-waits until the budget less
     * the overhead has elapsed since the start. Too late: busy-waits until
     * the theoretical end of the period less the overhead, and reports a
     * drop. Either way the invocation count rises by exactly one (modulo
     * 2^32) and nothing else of the task manager changes.
     */
    method SimulateComputationTime(t: TaskType, clock: Clock) returns (log: TaskLog)
      requires Valid() && phaseInitialized
      modifies nbrOfCalls, clock
      ensures Valid()
      ensures nbrOfCalls[..] == old(nbrOfCalls[..])[Index(t) := U32Succ(old(nbrOfCalls[Index(t)]))]
      ensures log.taskType == t
      ensures log.dropped <==> !old(IsWithinExpectedTime(t))
      ensures log.dephasedStart == dephasedTaskStartTime[Index(t)]
      ensures log.bounds == DephasedStartBounds(t, old(nbrOfCalls[Index(t)]))
      ensures !log.dropped ==> clock.now - taskStartTime[Index(t)] >= GetTaskComputationTime(t, logEnabled)
      ensures !log.dropped ==> log.computationTime == clock.now - taskStartTime[Index(t)]
      ensures !log.dropped ==> !StartedTooLate(log)
      ensures log.dropped ==>
        clock.now >= phase + Period(t) * U32Succ(old(nbrOfCalls[Index(t)])) - TaskOverheadTime(logEnabled)
      ensures log.dropped ==> log.computationTime == ComputationTime(t)
      ensures log.dropped ==> log.dephasedStart >= log.bounds.max
      ensures clock.now >= old(clock.now)
    {
      var taskIndex := Index(t);
      if IsWithinExpectedTime(t) {
        var now := clock.GetUpTime();
        var elapsedTime := now - taskStartTime[taskIndex];
        while elapsedTime < GetTaskComputationTime(t, logEnabled)
          invariant elapsedTime == clock.now - taskStartTime[taskIndex]
          modifies clock
          decreases taskStartTime[taskIndex] + GetTaskComputationTime(t, logEnabled) - clock.now
        {
          now := clock.GetUpTime();
          elapsedTime := now - taskStartTime[taskIndex];
        }
        log := LogTaskTime(t, clock);
      } else {
        var expectedTaskEndTime :=
          phase + Period(t) * U32Succ(nbrOfCalls[taskIndex]) - TaskOverheadTime(logEnabled);
        var currentTime := clock.GetUpTime();
        while currentTime < expectedTaskEndTime
          invariant currentTime == clock.now
          modifies clock
          decreases expectedTaskEndTime - clock.now
        {
          currentTime := clock.GetUpTime();
        }
        log := LogDropTask(t);
      }
      nbrOfCalls[taskIndex] := U32Succ(nbrOfCalls[taskIndex]);
    }
  }
}
