/**
 * The gear device of the statically scheduled bike computer. Each call to
 * `GetCurrentGear` polls the buttons for the gear task's computation time;
 * while button 2 is held, button 3 shifts down and button 4 shifts up, and
 * at most one change is latched per call. The gear is an unsigned 8-bit
 * value that wraps around.
 */
module GearDevice {
  import opened TaskConfig
  import opened Uptime

  const U8Limit: int := 0x100

  type uint8 = x: int | 0 <= x < U8Limit

  /** One poll of the three buttons: whether each is pressed. */
  datatype ButtonSample = ButtonSample(button2: bool, button3: bool, button4: bool)

  /** `_currentGear--` on a `uint8_t`. */
  function Decrement(g: uint8): (r: uint8)
    ensures g > 0 ==> r == g - 1
    ensures g == 0 ==> r == U8Limit - 1
  {
    (g - 1) % U8Limit
  }

  /** `_currentGear++` on a `uint8_t`. */
  function Increment(g: uint8): (r: uint8)
    ensures g < U8Limit - 1 ==> r == g + 1
    ensures g == U8Limit - 1 ==> r == 0
  {
    (g + 1) % U8Limit
  }

  lemma IncrementUndoesDecrement(g: uint8)
    ensures Increment(Decrement(g)) == g && Decrement(Increment(g)) == g
  {
  }

  /** Whether a sample sets the change latch: button 2 held with button 3 or button 4. */
  predicate Latches(s: ButtonSample)
  {
    s.button2 && (s.button3 || s.button4)
  }

  /** The effect of one sample on the gear while the latch is still clear. */
  function Apply(g: uint8, s: ButtonSample): (r: uint8)
    ensures !Latches(s) ==> r == g
    ensures s.button2 && s.button3 && !s.button4 ==> r == Decrement(g)
    ensures s.button2 && !s.button3 && s.button4 ==> r == Increment(g)
    ensures s.button2 && s.button3 && s.button4 ==> r == g
  {
    if !s.button2 then g
    else
      var down := if s.button3 then Decrement(g) else g;
      if s.button4 then Increment(down) else down
  }

  /**
   * The gear after one call that read `samples`: the first latching sample
   * decides the change, and every later one is ignored.
   */
  function GearAfter(g: uint8, samples: seq<ButtonSample>): uint8
  {
    if samples == [] then g
    else if Latches(samples[0]) then Apply(g, samples[0])
    else GearAfter(g, samples[1..])
  }

  /** One call changes the gear by at most one step, in either direction, with wrap-around. */
  lemma {:induction false} AtMostOneStep(g: uint8, samples: seq<ButtonSample>)
    ensures GearAfter(g, samples) in {g, Decrement(g), Increment(g)}
  {
    if samples != [] && !Latches(samples[0]) {
      AtMostOneStep(g, samples[1..]);
    }
  }

  /** A change needs button 2 held, together with exactly one of buttons 3 and 4, in one sample. */
  lemma {:induction false} ChangeNeedsButton2(g: uint8, samples: seq<ButtonSample>)
    requires GearAfter(g, samples) != g
    ensures exists k :: 0 <= k < |samples| && samples[k].button2 && samples[k].button3 != samples[k].button4
  {
    if Latches(samples[0]) {
      assert samples[0].button2 && samples[0].button3 != samples[0].button4;
    } else {
      ChangeNeedsButton2(g, samples[1..]);
      var k :| 0 <= k < |samples[1..]| && samples[1..][k].button2 && samples[1..][k].button3 != samples[1..][k].button4;
      assert samples[k + 1] == samples[1..][k];
    }
  }

  /**
   * Buttons 2, 3 and 4 held together latch with no net change, and the
   * samples after them are ignored.
   */
  lemma BothShiftsCancel(g: uint8, s: ButtonSample, rest: seq<ButtonSample>)
    requires s.button2 && s.button3 && s.button4
    ensures GearAfter(g, [s] + rest) == g
  {
  }

  /** Samples that do not latch leave the gear as it is. */
  lemma {:induction false} NonLatchingPrefix(g: uint8, prefix: seq<ButtonSample>, rest: seq<ButtonSample>)
    requires forall k :: 0 <= k < |prefix| ==> !Latches(prefix[k])
    ensures GearAfter(g, prefix + rest) == GearAfter(g, rest)
  {
    if prefix == [] {
      assert prefix + rest == rest;
    } else {
      assert (prefix + rest)[0] == prefix[0] && !Latches(prefix[0]);
      assert (prefix + rest)[1..] == prefix[1..] + rest;
      NonLatchingPrefix(g, prefix[1..], rest);
    }
  }

  /** The physical buttons; every poll is recorded in `samples`. */
  class Buttons {
    var samples: seq<ButtonSample>

    constructor ()
      ensures samples == []
    {
      samples := [];
    }

    /** Reads buttons 2, 3 and 4: whatever the rider is pressing now. */
    method Read() returns (s: ButtonSample)
      modifies this
      ensures samples == old(samples) + [s]
    {
      s :| true;
      samples := samples + [s];
    }
  }

  class GearDevice {
    /** The largest gear size (a build constant). */
    const maxGearSize: uint8
    /**
     * Whether logging is built in; it selects the task overhead. The build
     * has a single switch for it, so the task manager must be given the
     * same value.
     */
    const logEnabled: bool
    var currentGear: uint8

    constructor (maxGearSize: uint8, logEnabled: bool, initialGear: uint8)
      ensures this.maxGearSize == maxGearSize && this.logEnabled == logEnabled
      ensures currentGear == initialGear
    {
      this.maxGearSize := maxGearSize;
      this.logEnabled := logEnabled;
      currentGear := initialGear;
    }

    /**
     * Polls the buttons until the gear task's computation time has elapsed
     * since the call began, latching at most one gear change, and returns
     * the resulting gear. Once a sample latches no further sample is read,
     * so only the last sample read can latch.
     */
    method GetCurrentGear(clock: Clock, buttons: Buttons) returns (gear: uint8, ghost initialTime: int)
      modifies this`currentGear, clock, buttons
      ensures gear == currentGear
      ensures |buttons.samples| > |old(buttons.samples)|
      ensures buttons.samples[..|old(buttons.samples)|] == old(buttons.samples)
      ensures currentGear == GearAfter(old(currentGear), buttons.samples[|old(buttons.samples)|..])
      ensures forall k :: |old(buttons.samples)| <= k < |buttons.samples| - 1 ==> !Latches(buttons.samples[k])
      ensures old(clock.now) < initialTime
      ensures clock.now - initialTime >= GetTaskComputationTime(GearTaskType, logEnabled)
    {
      ghost var before := buttons.samples;
      ghost var g0 := currentGear;
      var start := clock.GetUpTime();
      initialTime := start;
      var elapsedTime := 0;
      var hasChanged := false;
      while elapsedTime < GetTaskComputationTime(GearTaskType, logEnabled)
        invariant start == initialTime && elapsedTime == clock.now - start
        invariant |buttons.samples| >= |before|
        invariant buttons.samples[..|before|] == before
        invariant hasChanged ==> |buttons.samples| > |before|
        invariant elapsedTime > 0 ==> |buttons.samples| > |before|
        invariant forall k :: |before| <= k < |buttons.samples| - (if hasChanged then 1 else 0) ==>
          !Latches(buttons.samples[k])
        invariant hasChanged ==> Latches(buttons.samples[|buttons.samples| - 1])
        invariant currentGear == GearAfter(g0, buttons.samples[|before|..])
        modifies this`currentGear, clock, buttons
        decreases start + GetTaskComputationTime(GearTaskType, logEnabled) - clock.now
      {
        if !hasChanged {
          ghost var read := buttons.samples[|before|..];
          var s := buttons.Read();
          assert buttons.samples[|before|..] == read + [s];
          NonLatchingPrefix(g0, read, [s]);
          NonLatchingPrefix(g0, read, []);
          assert read + [] == read;
          if s.button2 {
            if s.button3 {
              currentGear := Decrement(currentGear);
              hasChanged := true;
            }
            if s.button4 {
              currentGear := Increment(currentGear);
              hasChanged := true;
            }
          }
        }
        var now := clock.GetUpTime();
        elapsedTime := now - start;
      }
      gear := currentGear;
    }

    /** The gear size: the largest size less the gear, as an unsigned 8-bit value. */
    function GetCurrentGearSize(): (size: uint8)
      reads this
      ensures (size + currentGear) % U8Limit == maxGearSize
      ensures currentGear <= maxGearSize ==> size + currentGear == maxGearSize
    {
      (maxGearSize - currentGear) % U8Limit
    }
  }
}
