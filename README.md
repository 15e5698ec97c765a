# Static scheduler of the bike computer, modelled in Dafny

This project models the statically scheduled core of a bicycle computer built on Zephyr. It has three parts.

- **The time-triggered cyclic executive (TTCE)**, in `ttce.dfy`. It holds a table of `NbrOfMinorCycles × MaxMinorCycleSize` callable slots and one occupancy counter per minor cycle. `AddTask` appends a callable to a minor cycle. The work handler, modelled as `Dispatch`, runs the non-null slots of the current minor cycle in slot order and then advances the minor-cycle index modulo the number of minor cycles.
  - Callables are opaque task identities (`Option<TaskId>`, where `None` is the null pointer).
  - Running a callable appends its identity to the `executed` trace.
- **The task manager**, the deadline monitor, in `task_config.dfy` and `task_manager.dfy`.
  - `task_config.dfy` holds the six task kinds and their tables: periods, budgeted computation times, the logging overhead (13000 µs with logging built in, 5 µs without) and the allowed delta of the checks.
  - `task_manager.dfy` holds the per-kind arrays: absolute start time, dephased start time and call counter. It also holds the phase reference and the bracket `RegisterTaskStart` / `SimulateComputationTime`.
  - `SimulateComputationTime` busy-waits either until the budget less the overhead has elapsed (on time), or until the theoretical end of the period less the overhead (drop). It then bumps the counter once and returns the record the source logs (`TaskLog`).
- **The gear device**, in `gear_device.dfy`. `GetCurrentGear` polls the buttons for the gear task's computation time and latches at most one `uint8_t` gear change per call. `GetCurrentGearSize` is the `uint8_t` difference between the largest gear size and the gear.

Time is integer microseconds read from an abstract `Clock` (`uptime.dfy`). Each reading is strictly later than the previous one, so every busy-wait provably terminates. The test-build checks of `logTaskTime` are the predicates `ComputationTooLong`, `StartedTooEarly` and `StartedTooLate` on a `TaskLog`.

Facts about the code that the model keeps as they are:
- `addTask` reports an invalid index and a full minor cycle with one code, `k_inval`.
- The TTCE has no "stopped" state: `stop()` leaves `isStarted` true.
- Nothing in the code rejects a period table that is not schedulable. `TaskConfig.Schedulable` proves that the shipped table is.
- `isWithinExpectedTime` compares exactly, with no tolerance.

## Model

| member | source | states |
|---|---|---|
| Ttce.Present | bike_computer/src/common/ttce.hpp:133-137 | the callables a row runs: never more than the slots; every id run is registered in that row, and every non-null slot of the row is run |
| Ttce.PresentAppend | bike_computer/src/common/ttce.hpp:133-137 | running the slots of a row piece by piece runs them in slot order: the run of a concatenation is the concatenation of the runs |
| Ttce.PresentAllSome | bike_computer/src/common/ttce.hpp:133-137 | a row holding no null runs exactly its registered callables, in registration order |
| Ttce.NextMinorCycle | bike_computer/src/common/ttce.hpp:138 | the next index stays below the number of minor cycles; it is the following cycle, or 0 after the last |
| Ttce.Visited | bike_computer/src/common/ttce.hpp:138 | k consecutive index steps pass through k minor cycles, each a valid index |
| Ttce.IndexAfter | bike_computer/src/common/ttce.hpp:138 | the index stays in range after any number of steps |
| Ttce.IndexAfterStep | bike_computer/src/common/ttce.hpp:138 | the index after k + 1 steps is one step on from the index after k steps |
| Ttce.VisitedStep | bike_computer/src/common/ttce.hpp:138 | the minor cycles of k + 1 steps are those of k steps followed by the cycle the index holds after k steps |
| Ttce.VisitedAt | bike_computer/src/common/ttce.hpp:138 | the j-th of k steps visits the minor cycle the index holds after j steps |
| Ttce.IndexAfterRotates | bike_computer/src/common/ttce.hpp:138 | within one major cycle, j steps move the index j places forward, wrapping once past the last minor cycle |
| Ttce.MajorCycle | bike_computer/src/common/ttce.hpp:138 | on the index walk: from index 0, NbrOfMinorCycles steps visit minor cycles 0, 1, …, n−1 in order and bring the index back to 0 |
| Ttce.MajorCycleFrom | bike_computer/src/common/ttce.hpp:138 | on the index walk: from any index, n steps visit every minor cycle exactly once and return the index to where it started |
| Ttce.RunCyclesAppend | bike_computer/src/common/ttce.hpp:125-139 | dispatching two runs of minor cycles one after the other runs their callables one after the other |
| Ttce.RunCyclesCovers | bike_computer/src/common/ttce.hpp:125-139 | every non-null callable registered in a dispatched minor cycle is run |
| Ttce.MajorCycleRunsAll | bike_computer/src/common/ttce.hpp:125-139 | one major cycle, from any index, runs every non-null callable registered anywhere in the table |
| Ttce.TTCE.constructor | bike_computer/src/common/ttce.hpp:144-149 | a new executive has an empty table, zero counts, index 0 and is not started |
| Ttce.TTCE.Start | bike_computer/src/common/ttce.hpp:56-68 | after start the executive reports itself started |
| Ttce.TTCE.Stop | bike_computer/src/common/ttce.hpp:70-82 | stop does not clear the started flag |
| Ttce.TTCE.IsStarted | bike_computer/src/common/ttce.hpp:84 | reports the started flag |
| Ttce.TTCE.AddTask | bike_computer/src/common/ttce.hpp:86-106 | fails with Inval exactly when the index is out of range or the row is full, and then changes nothing; otherwise stores f at slot "old count" of that row, raises that row's count by one, and leaves every other row and count, the index and the trace unchanged; keeps count ≤ MaxMinorCycleSize and every slot at or after the count null |
| Ttce.TTCE.Dispatch | bike_computer/src/common/ttce.hpp:125-139 | appends to the trace exactly the non-null callables of the current row, in slot order, leaves the table alone, and moves the index to (old + 1) mod NbrOfMinorCycles |
| Ttce.TTCE.DispatchMajorCycle | bike_computer/src/common/ttce.hpp:125-139 | NbrOfMinorCycles consecutive work-handler runs append the callables of the minor cycles visited from the current index, in order, and leave the index where it was |
| TaskConfig.TaskOverheadTime | bike_computer/src/common/task_manager.hpp:69-73 | the overhead is 13000 µs exactly when logging is built in, 5 µs otherwise |
| TaskConfig.Index | bike_computer/src/common/task_manager.hpp:41-49 | every task kind indexes the tables within their bounds (below kNbrOfTaskTypes = 6) |
| TaskConfig.FromIndex | bike_computer/src/common/task_manager.hpp:41-49 | every index below 6 is the index of a task kind |
| TaskConfig.IndexInjective | bike_computer/src/common/task_manager.hpp:41-49 | distinct task kinds use distinct table entries |
| TaskConfig.IndexRoundTrip | bike_computer/src/common/task_manager.hpp:41-49 | index and task kind convert into each other without loss |
| TaskConfig.Period | bike_computer/src/common/task_manager.hpp:76-77 | the period of a task kind, from kTaskPeriods (800, 400, 1600, 800, 1600, 1600 ms): positive, and a divisor of the 1 600 000 µs major cycle |
| TaskConfig.ComputationTime | bike_computer/src/common/task_manager.hpp:74-75 | the budget of a task kind, from kTaskComputationTimes (100, 200, 100, 100, 200, 100 ms): positive and strictly below its period |
| TaskConfig.GetTaskComputationTime | bike_computer/src/common/task_manager.hpp:55-58 | the busy-wait time is the budget less the overhead, strictly positive and below the budget, under either overhead |
| TaskConfig.Schedulable | bike_computer/src/common/task_manager.hpp:74-77 | every budget is positive and strictly below its period, budget plus overhead fits in the period, and every period divides the 1 600 000 µs major cycle |
| TaskManager.U32Succ | bike_computer/src/common/task_manager.cpp:73 | the uint32 counter successor is c + 1, or 0 after 2^32 − 1 |
| TaskManager.DephasedStartBounds | bike_computer/src/common/task_manager.cpp:99-105 | the window of invocation n starts at P·n; its latest start leaves the full budget before P·(n+1); the window has width P − C > 0 (before the counter wraps) |
| TaskManager.WindowsOrdered | bike_computer/src/common/task_manager.cpp:99-105 | the windows of consecutive invocations do not overlap and come in order |
| TaskManager.WindowEmptyAtWrap | bike_computer/src/common/task_manager.cpp:99-105 | at counter 2^32 − 1 the successor wraps and the window is empty |
| TaskManager.ComputationTooLong | bike_computer/src/common/task_manager.cpp:92-97 | the negation of the test-build assertion that the measured computation time is at most the budget plus kAllowedDelta |
| TaskManager.StartedTooEarly | bike_computer/src/common/task_manager.cpp:112-118 | the negation of the test-build assertion that the dephased start is no earlier than the window's start less kAllowedDelta |
| TaskManager.StartedTooLate | bike_computer/src/common/task_manager.cpp:119-125 | the negation of the test-build assertion that the dephased start is no later than the window's latest start plus kAllowedDelta |
| TaskManager.TaskManager.constructor | bike_computer/src/common/task_manager.hpp:80-83 | all start times, dephased start times and counters start at zero; the phase is not yet initialised |
| TaskManager.TaskManager.InitializePhase | bike_computer/src/common/task_manager.cpp:49-54 | every counter becomes 0, the phase becomes the current clock reading, and the start times are unchanged |
| TaskManager.TaskManager.RegisterTaskStart | bike_computer/src/common/task_manager.cpp:56-60 | the start time of t becomes the clock reading, its dephased start becomes reading − phase, and the other kinds' entries are unchanged; needs an initialised phase |
| TaskManager.TaskManager.IsWithinExpectedTime | bike_computer/src/common/task_manager.cpp:159-164 | holds exactly when the dephased start is before the latest start of the current window, i.e. when the full budget ends before the next period boundary; no side effects |
| TaskManager.TaskManager.LogTaskTime | bike_computer/src/common/task_manager.cpp:86-142 | the on-time record: measured time since the start (from a fresh clock reading), the dephased start, and the window at the current count |
| TaskManager.TaskManager.LogDropTask | bike_computer/src/common/task_manager.cpp:144-157 | the drop record: reports the budget as computation time, the dephased start, and the window at the current count |
| TaskManager.TaskManager.SimulateComputationTime | bike_computer/src/common/task_manager.cpp:62-84 | drops exactly when the invocation is not within expected time; on time, it returns only once at least budget − overhead has elapsed since the start, and the "started too late" check cannot fail; when dropped, it returns only once the clock reaches phase + P·(count+1) − overhead; either way the count of t rises by exactly one (mod 2^32) and nothing else changes |
| Uptime.Clock.GetUpTime | bike_computer/src/common/task_manager.cpp:53 | every reading is strictly later than the previous one |
| GearDevice.Decrement | bike_computer/src/static_scheduling/gear_device.cpp:50 | the uint8_t decrement: one less, and 0 wraps to 255 |
| GearDevice.Increment | bike_computer/src/static_scheduling/gear_device.cpp:55 | the uint8_t increment: one more, and 255 wraps to 0 |
| GearDevice.IncrementUndoesDecrement | bike_computer/src/static_scheduling/gear_device.cpp:50-55 | an increment and a decrement cancel out, also across the wrap |
| GearDevice.Apply | bike_computer/src/static_scheduling/gear_device.cpp:48-57 | without button 2 nothing changes; button 3 shifts down, button 4 shifts up, both together apply both and give no net change |
| GearDevice.Latches | bike_computer/src/static_scheduling/gear_device.cpp:48-57 | a sample sets the change latch exactly when button 2 is held together with button 3 or button 4 |
| GearDevice.GearAfter | bike_computer/src/static_scheduling/gear_device.cpp:44-57 | the gear one getCurrentGear call leaves: the first latching sample applies its change, and the samples after it are ignored |
| GearDevice.AtMostOneStep | bike_computer/src/static_scheduling/gear_device.cpp:44-57 | one call moves the gear by at most one step (modulo 256) |
| GearDevice.ChangeNeedsButton2 | bike_computer/src/static_scheduling/gear_device.cpp:48 | a changed gear implies a sample with button 2 held and exactly one of buttons 3 and 4 |
| GearDevice.BothShiftsCancel | bike_computer/src/static_scheduling/gear_device.cpp:47-57 | a sample holding buttons 2, 3 and 4 latches with no change, and no later sample of the same call changes the gear |
| GearDevice.NonLatchingPrefix | bike_computer/src/static_scheduling/gear_device.cpp:47-48 | samples that do not latch leave the gear unchanged |
| GearDevice.Buttons.Read | bike_computer/src/static_scheduling/gear_device.cpp:48-54 | every poll of the buttons is recorded, in order |
| GearDevice.GearDevice.constructor | bike_computer/src/static_scheduling/gear_device.cpp:68 | the device holds the largest gear size that line 68 subtracts from (a build constant), the build's logging choice and an initial gear (set in a header that is not part of this model) |
| GearDevice.GearDevice.GetCurrentGear | bike_computer/src/static_scheduling/gear_device.cpp:37-63 | reads at least one sample; the new gear is the one the first latching sample gives (old gear if none); no sample is read after one latches; it returns only once the elapsed time reaches the gear task's computation time; the returned value is the stored gear |
| GearDevice.GearDevice.GetCurrentGearSize | bike_computer/src/static_scheduling/gear_device.cpp:65-69 | the size plus the gear is the largest gear size modulo 256, and exactly that when the gear does not exceed it; no state changes |

## Left out

- The Zephyr timer and work queue are not modelled. This covers `k_timer_init/start/stop`, `k_work_queue_init/run/drain/stop`, the timer thunk and the coalescing of submissions. `Dispatch` stands for one execution of the work handler, and `DispatchMajorCycle` for NbrOfMinorCycles of them in a row. Periodic triggering, the minor-cycle period and draining on stop are not modelled.
- The pointer casts between the work item, the timer user data and the TTCE object are not modelled. They are a layout trick, not behaviour.
- Task bodies are opaque identities, so the model cannot express a task that re-enters the TTCE (for example, calling `addTask` during a dispatch).
- The `__ASSERT` in the error paths of `addTask` is not modelled. With kernel assertions enabled it halts the system. The model follows the error return taken when assertions are disabled.
- Logging text, `LOG_DBG`, `sys_trace_named_event` and the task descriptor strings are not modelled. The logged values are kept as the `TaskLog` record.
- Uptime.Clock.GetUpTime: a strictly increasing clock is an assumption. The real up-time clock may return the same value twice. Strictness is what lets the busy-waits be proved to terminate.
- TaskManager.TaskManager.SimulateComputationTime: the test-build check that the measured computation time is at most budget + 1000 µs (`ComputationTooLong`) is not proved. The "started too early" check (`StartedTooEarly`) is not proved either. Both depend on how late the real clock and the dispatcher run, which the abstract clock does not bound. Only the "started too late" check is proved, and only for the on-time branch.
- The single `CONFIG_LOG` build switch is a `logEnabled` value given separately to `TaskManager.TaskManager` and `GearDevice.GearDevice`. The model does not force the two to agree; a client must give both the same value.
- Times are unbounded integers. 64-bit microsecond overflow is not modelled, since it cannot occur within the up-time range. The uint32 counter and the uint8_t gear do wrap in the model.
- `task_manager.hpp` declares `logPeriodAndExecutionTime`, but the implementation file defines `logTaskTime` instead. The model follows the implementation.
- `kMaxGearSize`, the initial gear and the button polarity live in headers that are not part of this model. The first two are constructor parameters, and a button sample records directly whether each button is pressed.
- The three button reads of one poll form one sample. Buttons 3 and 4 are only read while button 2 is pressed, and no read happens once the latch is set.
- `bike_system_skeleton.cpp` and `bike_system.hpp` (the super-loop), the display, the speedometer, the reset device, the sensor drivers and the multi-tasking variant are not part of this model.
