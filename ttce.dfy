/**
 * The time-triggered cyclic executive (TTCE): a fixed grid of task slots,
 * `nbrOfMinorCycles` rows of `maxMinorCycleSize` slots, filled by `AddTask`
 * before start, and a dispatcher that, once per minor cycle, runs the
 * occupied slots of the current row in slot order and then moves on to the
 * next row, wrapping around after the last one.
 *
 * A callable is an opaque task identity; a null callable is `None`. Running
 * a callable is recorded by appending its identity to `executed`.
 */
module Ttce {
  import opened Wrappers

  /** The identity of a registered callable. */
  type TaskId = nat

  /** A slot content: a callable, or the null pointer. */
  type Callable = Option<TaskId>

  const U16Limit: int := 0x1_0000

  /** The width of the minor-cycle index parameter and of the counters. */
  type uint16 = x: int | 0 <= x < U16Limit

  datatype ErrorCode = Inval

  /** A success, or an error with its code. */
  datatype ZephyrResult = Ok | Err(code: ErrorCode)

  /** The identities of the callables of `slots`, in slot order, skipping nulls. */
  function Present(slots: seq<Callable>): (ids: seq<TaskId>)
    ensures |ids| <= |slots|
    ensures forall id :: id in ids ==> Some(id) in slots
    ensures forall j :: 0 <= j < |slots| && slots[j].Some? ==> slots[j].value in ids
  {
    if slots == [] then []
    else (if slots[0].Some? then [slots[0].value] else []) + Present(slots[1..])
  }

  lemma {:induction false} PresentAppend(a: seq<Callable>, b: seq<Callable>)
    ensures Present(a + b) == Present(a) + Present(b)
  {
    if a == [] {
      assert a + b == b;
    } else {
      assert (a + b)[1..] == a[1..] + b;
      PresentAppend(a[1..], b);
    }
  }

  /** A row where no null was registered runs exactly its registered callables. */
  lemma {:induction false} PresentAllSome(slots: seq<Callable>)
    requires forall j :: 0 <= j < |slots| ==> slots[j].Some?
    ensures |Present(slots)| == |slots|
    ensures forall j :: 0 <= j < |slots| ==> Present(slots)[j] == slots[j].value
  {
    if slots != [] {
      PresentAllSome(slots[1..]);
    }
  }

  /** The minor cycle the dispatcher moves to after minor cycle `i`. */
  function NextMinorCycle(i: nat, n: nat): (next: nat)
    requires i < n
    ensures next < n
    ensures next == i + 1 || (i == n - 1 && next == 0)
  {
    (i + 1) % n
  }

  /** The minor cycles run by `k` consecutive dispatches starting at minor cycle `start`. */
  function Visited(start: nat, k: nat, n: nat): (cycles: seq<nat>)
    requires start < n
    ensures |cycles| == k
    ensures forall j :: 0 <= j < k ==> cycles[j] < n
    decreases k
  {
    if k == 0 then [] else [start] + Visited(NextMinorCycle(start, n), k - 1, n)
  }

  /** The minor-cycle index after `k` consecutive dispatches starting at `start`. */
  function IndexAfter(start: nat, k: nat, n: nat): (i: nat)
    requires start < n
    ensures i < n
    decreases k
  {
    if k == 0 then start else IndexAfter(NextMinorCycle(start, n), k - 1, n)
  }

  /** The `j`-th of `k` dispatches from `start` runs the minor cycle reached after `j` dispatches. */
  lemma {:induction false} VisitedAt(start: nat, k: nat, n: nat, j: nat)
    requires start < n && j < k
    ensures Visited(start, k, n)[j] == IndexAfter(start, j, n)
    decreases k
  {
    if j > 0 {
      VisitedAt(NextMinorCycle(start, n), k - 1, n, j - 1);
    }
  }

  /** One more dispatch moves the index one minor cycle on from where `k` dispatches left it. */
  lemma {:induction false} IndexAfterStep(start: nat, k: nat, n: nat)
    requires start < n
    ensures IndexAfter(start, k + 1, n) == NextMinorCycle(IndexAfter(start, k, n), n)
    decreases k
  {
    if k > 0 {
      IndexAfterStep(NextMinorCycle(start, n), k - 1, n);
    }
  }

  /** One more dispatch runs the minor cycle where `k` dispatches left the index. */
  lemma {:induction false} VisitedStep(start: nat, k: nat, n: nat)
    requires start < n
    ensures Visited(start, k + 1, n) == Visited(start, k, n) + [IndexAfter(start, k, n)]
    decreases k
  {
    if k > 0 {
      var next := NextMinorCycle(start, n);
      VisitedStep(next, k - 1, n);
      assert [start] + (Visited(next, k - 1, n) + [IndexAfter(next, k - 1, n)])
          == ([start] + Visited(next, k - 1, n)) + [IndexAfter(next, k - 1, n)];
    }
  }

  /**
   * Within one major cycle, `j` dispatches from `start` move the index
   * `j` places forward, wrapping once past the last minor cycle.
   */
  lemma {:induction false} IndexAfterRotates(start: nat, j: nat, n: nat)
    requires start < n && j <= n
    ensures IndexAfter(start, j, n) == if start + j < n then start + j else start + j - n
    decreases j
  {
    if j > 0 {
      IndexAfterRotates(NextMinorCycle(start, n), j - 1, n);
    }
  }

  /**
   * A major cycle: from minor cycle 0, `n` consecutive dispatches run the
   * minor cycles 0, 1, ..., n - 1, in this order, and leave the index back
   * at 0.
   */
  lemma MajorCycle(n: nat)
    requires n > 0
    ensures forall j :: 0 <= j < n ==> Visited(0, n, n)[j] == j
    ensures IndexAfter(0, n, n) == 0
  {
    forall j | 0 <= j < n
      ensures Visited(0, n, n)[j] == j
    {
      VisitedAt(0, n, n, j);
      IndexAfterRotates(0, j, n);
    }
    IndexAfterRotates(0, n, n);
  }

  /**
   * From any minor cycle, `n` consecutive dispatches run every minor cycle
   * exactly once and return the index to where it started.
   */
  lemma MajorCycleFrom(start: nat, n: nat)
    requires start < n
    ensures IndexAfter(start, n, n) == start
    ensures forall c :: 0 <= c < n ==> c in Visited(start, n, n)
    ensures forall j1, j2 :: 0 <= j1 < j2 < n ==> Visited(start, n, n)[j1] != Visited(start, n, n)[j2]
  {
    IndexAfterRotates(start, n, n);
    forall j | 0 <= j < n
      ensures Visited(start, n, n)[j] == if start + j < n then start + j else start + j - n
    {
      VisitedAt(start, n, n, j);
      IndexAfterRotates(start, j, n);
    }
    forall c | 0 <= c < n
      ensures c in Visited(start, n, n)
    {
      var j := if c >= start then c - start else c + n - start;
      assert Visited(start, n, n)[j] == c;
    }
  }

  /** The callables run by dispatching the minor cycles `cycles` of `schedule`, in order. */
  function RunCycles(schedule: seq<seq<Callable>>, cycles: seq<nat>): seq<TaskId>
    requires forall j :: 0 <= j < |cycles| ==> cycles[j] < |schedule|
  {
    if cycles == [] then []
    else Present(schedule[cycles[0]]) + RunCycles(schedule, cycles[1..])
  }

  /** Dispatching two runs of minor cycles one after the other runs their callables one after the other. */
  lemma {:induction false} RunCyclesAppend(schedule: seq<seq<Callable>>, a: seq<nat>, b: seq<nat>)
    requires forall j :: 0 <= j < |a| ==> a[j] < |schedule|
    requires forall j :: 0 <= j < |b| ==> b[j] < |schedule|
    ensures RunCycles(schedule, a + b) == RunCycles(schedule, a) + RunCycles(schedule, b)
  {
    if a == [] {
      assert a + b == b;
    } else {
      assert (a + b)[1..] == a[1..] + b;
      RunCyclesAppend(schedule, a[1..], b);
    }
  }

  /** Every callable registered in a dispatched minor cycle is run. */
  lemma {:induction false} RunCyclesCovers(schedule: seq<seq<Callable>>, cycles: seq<nat>, j: nat, slot: nat)
    requires forall i :: 0 <= i < |cycles| ==> cycles[i] < |schedule|
    requires j < |cycles| && slot < |schedule[cycles[j]]| && schedule[cycles[j]][slot].Some?
    ensures schedule[cycles[j]][slot].value in RunCycles(schedule, cycles)
  {
    if j > 0 {
      RunCyclesCovers(schedule, cycles[1..], j - 1, slot);
    }
  }

  /**
   * A major cycle from any minor cycle runs every non-null callable
   * registered anywhere in the table.
   */
  lemma MajorCycleRunsAll(schedule: seq<seq<Callable>>, start: nat)
    requires start < |schedule|
    ensures forall i, slot :: 0 <= i < |schedule| && 0 <= slot < |schedule[i]| && schedule[i][slot].Some? ==>
      schedule[i][slot].value in RunCycles(schedule, Visited(start, |schedule|, |schedule|))
  {
    var n := |schedule|;
    MajorCycleFrom(start, n);
    forall i, slot | 0 <= i < n && 0 <= slot < |schedule[i]| && schedule[i][slot].Some?
      ensures schedule[i][slot].value in RunCycles(schedule, Visited(start, n, n))
    {
      var cycles := Visited(start, n, n);
      assert i in cycles;
      var j :| 0 <= j < |cycles| && cycles[j] == i;
      RunCyclesCovers(schedule, cycles, j, slot);
    }
  }

  class TTCE {
    /** The template parameters `NbrOfMinorCycles` and `MaxMinorCycleSize`. */
    const nbrOfMinorCycles: uint16
    const maxMinorCycleSize: uint16
    /** The minor-cycle period in milliseconds (used only by the timer). */
    const minorCycle: nat

    const tasks: array2<Callable>
    const nbrOfTasksInMinorCycle: array<uint16>
    var minorCycleIndex: uint16
    var isStarted: bool

    /** Every callable run so far, in the order run. */
    var executed: seq<TaskId>

    /** The registered callables of each minor cycle, in registration order. */
    ghost var schedule: seq<seq<Callable>>

    ghost predicate Valid()
      reads this, tasks, nbrOfTasksInMinorCycle
    {
      && 0 < nbrOfMinorCycles
      && 0 < maxMinorCycleSize
      && tasks.Length0 == nbrOfMinorCycles
      && tasks.Length1 == maxMinorCycleSize
      && nbrOfTasksInMinorCycle.Length == nbrOfMinorCycles
      && minorCycleIndex < nbrOfMinorCycles
      && |schedule| == nbrOfMinorCycles
      && (forall i :: 0 <= i < nbrOfMinorCycles ==>
            nbrOfTasksInMinorCycle[i] <= maxMinorCycleSize
            && |schedule[i]| == nbrOfTasksInMinorCycle[i])
      && (forall i, j :: 0 <= i < nbrOfMinorCycles && 0 <= j < maxMinorCycleSize ==>
            tasks[i, j] == if j < |schedule[i]| then schedule[i][j] else None)
    }

    constructor (minorCycle: nat, nbrOfMinorCycles: uint16, maxMinorCycleSize: uint16)
      requires 0 < nbrOfMinorCycles && 0 < maxMinorCycleSize
      ensures Valid() && fresh(tasks) && fresh(nbrOfTasksInMinorCycle)
      ensures this.nbrOfMinorCycles == nbrOfMinorCycles
      ensures this.maxMinorCycleSize == maxMinorCycleSize
      ensures this.minorCycle == minorCycle
      ensures schedule == seq(nbrOfMinorCycles, _ => [])
      ensures minorCycleIndex == 0 && !isStarted && executed == []
    {
      this.minorCycle := minorCycle;
      this.nbrOfMinorCycles := nbrOfMinorCycles;
      this.maxMinorCycleSize := maxMinorCycleSize;
      tasks := new Callable[nbrOfMinorCycles, maxMinorCycleSize]((_, _) => None);
      nbrOfTasksInMinorCycle := new uint16[nbrOfMinorCycles](_ => 0);
      minorCycleIndex := 0;
      isStarted := false;
      executed := [];
      schedule := seq(nbrOfMinorCycles, _ => []);
    }

    /** Starts the timer and the work queue; only the started flag is modelled. */
    method Start()
      modifies this`isStarted
      ensures isStarted
    {
      isStarted := true;
    }

    /** Stops the timer and drains the work queue; the started flag is left as it is. */
    method Stop()
      ensures isStarted == old(isStarted)
    {
    }

    method IsStarted() returns (started: bool)
      ensures started == isStarted
    {
      started := isStarted;
    }

    /**
     * Registers `f` as the next callable of minor cycle `index`: fails with
     * `Inval` when the index is out of range or the row is full, and then
     * changes nothing.
     */
    method AddTask(index: uint16, f: Callable) returns (res: ZephyrResult)
      requires Valid()
      modifies this, tasks, nbrOfTasksInMinorCycle
      ensures Valid()
      ensures res == Err(Inval) || res == Ok
      ensures res.Err? <==>
        index >= nbrOfMinorCycles || old(nbrOfTasksInMinorCycle[index]) == maxMinorCycleSize
      ensures res.Err? ==> schedule == old(schedule) && unchanged(tasks, nbrOfTasksInMinorCycle)
      ensures res.Ok? ==> schedule == old(schedule)[index := old(schedule[index]) + [f]]
      ensures res.Ok? ==> tasks[index, old(nbrOfTasksInMinorCycle[index])] == f
      ensures res.Ok? ==>
        nbrOfTasksInMinorCycle[..] == old(nbrOfTasksInMinorCycle[..])[index := old(nbrOfTasksInMinorCycle[index]) + 1]
      ensures minorCycleIndex == old(minorCycleIndex) && isStarted == old(isStarted)
      ensures executed == old(executed)
    {
      if index >= nbrOfMinorCycles {
        return Err(Inval);
      }
      if nbrOfTasksInMinorCycle[index] >= maxMinorCycleSize {
        return Err(Inval);
      }
      var count := nbrOfTasksInMinorCycle[index];
      tasks[index, count] := f;
      nbrOfTasksInMinorCycle[index] := count + 1;
      schedule := schedule[index := schedule[index] + [f]];
      res := Ok;
    }

    /**
     * One minor cycle (the work handler): runs the non-null slots of the
     * current row in slot order, then advances the index modulo the number
     * of minor cycles. The table itself is not touched.
     */
    method Dispatch()
      requires Valid()
      modifies this`executed, this`minorCycleIndex
      ensures Valid()
      ensures executed == old(executed) + Present(schedule[old(minorCycleIndex)])
      ensures minorCycleIndex == NextMinorCycle(old(minorCycleIndex), nbrOfMinorCycles)
    {
      var row := minorCycleIndex;
      var taskIndex: uint16 := 0;
      while taskIndex < maxMinorCycleSize
        invariant Valid()
        invariant minorCycleIndex == row
        invariant 0 <= taskIndex <= maxMinorCycleSize
        invariant taskIndex <= |schedule[row]| ==>
          executed == old(executed) + Present(schedule[row][..taskIndex])
        invariant taskIndex > |schedule[row]| ==>
          executed == old(executed) + Present(schedule[row])
      {
        var slot := tasks[row, taskIndex];
        if slot != None {
          executed := executed + [slot.value];
        }
        if taskIndex < |schedule[row]| {
          assert schedule[row][..taskIndex + 1] == schedule[row][..taskIndex] + [slot];
          PresentAppend(schedule[row][..taskIndex], [slot]);
          assert Present([slot]) == if slot.Some? then [slot.value] else [];
        } else {
          assert schedule[row][..|schedule[row]|] == schedule[row];
        }
        taskIndex := taskIndex + 1;
      }
      assert schedule[row][..|schedule[row]|] == schedule[row];
      minorCycleIndex := (minorCycleIndex + 1) % nbrOfMinorCycles;
    }

    /**
     * A major cycle: `nbrOfMinorCycles` consecutive runs of the work
     * handler, as the periodic timer triggers them. It runs the minor
     * cycles from the current index on, each once, and leaves the index
     * where it was.
     */
    method DispatchMajorCycle()
      requires Valid()
      modifies this`executed, this`minorCycleIndex
      ensures Valid()
      ensures minorCycleIndex == old(minorCycleIndex)
      ensures executed == old(executed) +
        RunCycles(schedule, Visited(old(minorCycleIndex), nbrOfMinorCycles, nbrOfMinorCycles))
    {
      var k := 0;
      while k < nbrOfMinorCycles
        invariant Valid() && k <= nbrOfMinorCycles
        invariant minorCycleIndex == IndexAfter(old(minorCycleIndex), k, nbrOfMinorCycles)
        invariant executed == old(executed) +
          RunCycles(schedule, Visited(old(minorCycleIndex), k, nbrOfMinorCycles))
      {
        ghost var cycles := Visited(old(minorCycleIndex), k, nbrOfMinorCycles);
        ghost var row := minorCycleIndex;
        Dispatch();
        IndexAfterStep(old(minorCycleIndex), k, nbrOfMinorCycles);
        VisitedStep(old(minorCycleIndex), k, nbrOfMinorCycles);
        RunCyclesAppend(schedule, cycles, [row]);
        assert RunCycles(schedule, [row]) == Present(schedule[row]) + [];
        k := k + 1;
      }
      MajorCycleFrom(old(minorCycleIndex), nbrOfMinorCycles);
    }
  }
}
