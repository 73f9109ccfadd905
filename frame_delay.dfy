/** `delayTime` of demo/demo.c: how long the main loop sleeps so that a frame lasts at
    least `goal` ticks, computed in 32-bit unsigned arithmetic. */
module FrameDelay {
  /** 2^32, the modulus of C's `unsigned int`. */
  const TWO_32: int := 0x1_0000_0000

  newtype u32 = x: int | 0 <= x < 0x1_0000_0000

  /** `end - start` on `unsigned int`: the difference wraps modulo 2^32, and is the
      number of ticks that takes the counter from `start` to `end`. */
  function Frame(start: u32, end: u32): (r: u32)
    ensures Advance(start, r) == end
  {
    ((end as int - start as int) % TWO_32) as u32
  }

  /** The tick counter `d` ticks after `start`, wrapping modulo 2^32. */
  function Advance(start: u32, d: u32): u32 {
    ((start as int + d as int) % TWO_32) as u32
  }

  /** The sleep never exceeds the goal; it is zero exactly when the frame already took
      `goal` ticks or more, and otherwise tops the frame up to exactly `goal`. */
  function DelayTime(goal: u32, start: u32, end: u32): (r: u32)
    ensures r <= goal
    ensures r == 0 <==> goal <= Frame(start, end)
    ensures r != 0 ==> Frame(start, end) as int + r as int == goal as int
  {
    var frame := Frame(start, end);
    if frame >= goal then 0 else goal - frame
  }

  /** Frame time plus sleep is the larger of the frame time and the goal. */
  lemma FrameLastsAtLeastGoal(goal: u32, start: u32, end: u32)
    ensures Frame(start, end) as int + DelayTime(goal, start, end) as int
         == if Frame(start, end) < goal then goal as int else Frame(start, end) as int
  {
  }

  /** The frame time is the true elapsed time for any elapsed time below 2^32, also
      when the tick counter wraps between `start` and `end`. */
  lemma FrameRecoversElapsed(start: u32, d: u32)
    ensures Frame(start, Advance(start, d)) == d
  {
    var s, e := start as int, Advance(start, d) as int;
    if s + d as int < TWO_32 {
      assert e == s + d as int;
    } else {
      assert e == s + d as int - TWO_32;
      assert (e - s) % TWO_32 == (d as int - TWO_32) % TWO_32;
    }
  }
}
