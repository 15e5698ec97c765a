/**
 * The static task configuration of the task manager: the task kinds, their
 * periods and budgeted computation times in microseconds, the overhead
 * reserved for logging between tasks, and the tolerance of the timing checks.
 */
module TaskConfig {

  /** The task kinds, in the order of their table index. */
  datatype TaskType =
    | GearTaskType
    | SpeedTaskType
    | TemperatureTaskType
    | ResetTaskType
    | DisplayTask1Type
    | DisplayTask2Type

  const NbrOfTaskTypes: nat := 6

  /** Budgeted computation times, indexed by task kind. */
  const TaskComputationTimes: seq<int> := [100000, 200000, 100000, 100000, 200000, 100000]

  /** Periods, indexed by task kind. */
  const TaskPeriods: seq<int> := [800000, 400000, 1600000, 800000, 1600000, 1600000]

  /** Tolerance of the timing checks. */
  const AllowedDelta: int := 1000

  /** The period of the major cycle: every task period divides it. */
  const MajorCyclePeriod: int := 1600000

  /** The overhead reserved for logging: 13000 us with logging built in, 5 us without. */
  function TaskOverheadTime(logEnabled: bool): (overhead: int)
    ensures overhead == 13000 || overhead == 5
    ensures logEnabled <==> overhead == 13000
  {
    if logEnabled then 13000 else 5
  }

  /** The table index of a task kind. */
  function Index(t: TaskType): (i: nat)
    ensures i < NbrOfTaskTypes
    ensures i < |TaskPeriods| && i < |TaskComputationTimes|
  {
    match t
    case GearTaskType => 0
    case SpeedTaskType => 1
    case TemperatureTaskType => 2
    case ResetTaskType => 3
    case DisplayTask1Type => 4
    case DisplayTask2Type => 5
  }

  /** The task kind at a table index: the inverse of `Index`. */
  function FromIndex(i: nat): (t: TaskType)
    requires i < NbrOfTaskTypes
    ensures Index(t) == i
  {
    [GearTaskType, SpeedTaskType, TemperatureTaskType, ResetTaskType, DisplayTask1Type, DisplayTask2Type][i]
  }

  /** Distinct task kinds use distinct table entries. */
  lemma IndexInjective(t1: TaskType, t2: TaskType)
    ensures Index(t1) == Index(t2) ==> t1 == t2
  {
  }

  lemma IndexRoundTrip(t: TaskType)
    ensures FromIndex(Index(t)) == t
  {
  }

  /** The period of a task kind: positive, and a divisor of the major cycle. */
  function Period(t: TaskType): (p: int)
    ensures p > 0 && MajorCyclePeriod % p == 0
  {
    TaskPeriods[Index(t)]
  }

  /** The budgeted computation time of a task kind: positive, and shorter than its period. */
  function ComputationTime(t: TaskType): (c: int)
    ensures 0 < c < Period(t)
  {
    TaskComputationTimes[Index(t)]
  }

  /**
   * The time a task body busy-waits for: its budget less the logging
   * overhead. Positive for every task kind under either overhead.
   */
  function GetTaskComputationTime(t: TaskType, logEnabled: bool): (budget: int)
    ensures 0 < budget < ComputationTime(t)
    ensures budget + TaskOverheadTime(logEnabled) == ComputationTime(t)
  {
    ComputationTime(t) - TaskOverheadTime(logEnabled)
  }

  /**
   * The table is schedulable: every budget (with either overhead) fits
   * strictly inside its period, and every period divides the major cycle.
   */
  lemma Schedulable(t: TaskType, logEnabled: bool)
    ensures 0 < ComputationTime(t) < Period(t)
    ensures ComputationTime(t) + TaskOverheadTime(logEnabled) <= Period(t)
    ensures MajorCyclePeriod % Period(t) == 0
  {
  }
}
