/**
 Windowed frame counting (fps_calculator.cpp). Times are microseconds; a window closes when more than 1000 whole
 milliseconds have passed since the last one closed. `long` and `unsigned int` have 32 bits.
*/
module FpsCalculator {
  const FPS_CALCULATOR_CYCLE_TIME := 1000

  /** total_milliseconds() truncates toward zero. */
  function Milliseconds(us: int): int {
    if us >= 0 then us / 1000 else -((-us) / 1000)
  }

  /** Conversion to, or an overflow of, a 32-bit long. */
  function Wrap(x: int): (r: int)
    ensures FitsLong(r) && (r - x) % 0x1_0000_0000 == 0
  {
    (x + 0x8000_0000) % 0x1_0000_0000 - 0x8000_0000
  }

  predicate FitsLong(x: int) {
    -0x8000_0000 <= x < 0x8000_0000
  }

  /** Division of C: toward zero. */
  function Divide(a: int, b: int): int
    requires b > 0
  {
    if a >= 0 then a / b else -((-a) / b)
  }

  /** A closed window: the rate it reported, its length in ms, and the frames it counted. */
  datatype Window = Window(rate: int, length: int, frames: int)

  /** m_d, and the windows closed so far. `fps` starts out with whatever is in memory: the constructor does not set
      it. */
  datatype Calculator = Calculator(lastTime: int, frames: int, fps: int, windows: seq<Window>)

  function Start(now: int, garbage: int): Calculator {
    Calculator(now, 0, garbage, [])
  }

  /** calc_fps as compiled. */
  function Calc(c: Calculator, now: int): Calculator {
    var frames := Wrap(c.frames + 1);
    var delta := Wrap(Milliseconds(now - c.lastTime));
    if delta > FPS_CALCULATOR_CYCLE_TIME then
      var rate := Divide(Wrap(frames * 1000), delta);
      Calculator(now, 0, rate % 0x1_0000_0000, c.windows + [Window(rate % 0x1_0000_0000, delta, frames)])
    else c.(frames := frames)
  }

  /** calc_fps over the integers. */
  function IdealCalc(c: Calculator, now: int): Calculator
    requires c.frames >= 0
  {
    var delta := Milliseconds(now - c.lastTime);
    if delta > FPS_CALCULATOR_CYCLE_TIME then
      var rate := (c.frames + 1) * 1000 / delta;
      Calculator(now, 0, rate, c.windows + [Window(rate, delta, c.frames + 1)])
    else c.(frames := c.frames + 1)
  }

  const MOST_FRAMES := 2147483

  /** No step of the call overflows: the frames can still be counted, and a window that closes holds at most 2147483
      frames and less than 2^31 ms. (A window that stays open does so for the truncated milliseconds too.) */
  predicate InRange(c: Calculator, now: int) {
    var delta := Milliseconds(now - c.lastTime);
    && 0 <= c.frames < 0x7FFF_FFFF
    && (if delta > FPS_CALCULATOR_CYCLE_TIME then delta < 0x8000_0000 && c.frames < MOST_FRAMES
        else Wrap(delta) <= FPS_CALCULATOR_CYCLE_TIME)
  }

  lemma Unwrapped(x: int)
    requires FitsLong(x)
    ensures Wrap(x) == x && (x >= 0 ==> x % 0x1_0000_0000 == x)
  {}

  lemma Scales(a: int, b: int, c: int)
    requires c > 0
    ensures a <= b ==> a * c <= b * c
  {}

  lemma RateBelowFrames(frames: int, delta: int)
    requires frames >= 1 && delta > 1000
    ensures 0 <= frames * 1000 / delta < frames
    ensures frames * 1000 / delta * delta <= frames * 1000 < (frames * 1000 / delta + 1) * delta
  {
    var q, r := frames * 1000 / delta, frames * 1000 % delta;
    assert frames * 1000 == q * delta + r;
    assert (q + 1) * delta == q * delta + delta;
    Scales(frames, q, delta);
    Scales(1000, delta - 1, frames);
  }

  /** Within the limits 32-bit arithmetic gives what the integers give. */
  lemma NoOverflow(c: Calculator, now: int)
    requires InRange(c, now)
    ensures Calc(c, now) == IdealCalc(c, now)
  {
    var delta := Milliseconds(now - c.lastTime);
    Unwrapped(c.frames + 1);
    if delta > FPS_CALCULATOR_CYCLE_TIME {
      Unwrapped(delta);
      RateBelowFrames(c.frames + 1, delta);
      Unwrapped((c.frames + 1) * 1000);
      Unwrapped((c.frames + 1) * 1000 / delta);
    }
  }

  // Beyond 2147483 frames the product loses a multiple of 2^32.

  lemma WrapLoses(x: int) returns (k: int)
    requires 0x8000_0000 <= x
    ensures Wrap(x) == x - k * 0x1_0000_0000 && k >= 1
  {
    k := (x + 0x8000_0000) / 0x1_0000_0000;
  }

  lemma DivideBelow(a: int, b: int)
    requires b > 1000 && a < 0x8000_0000
    ensures Divide(a, b) < 0x8000_0000
    ensures -0x8000_0000 <= a ==> -0x8000_0000 <= Divide(a, b)
    ensures Divide(a, b) * b <= a + b
    ensures a >= 0 ==> Divide(a, b) * b <= a < Divide(a, b) * b + b
    ensures a < 0 ==> a <= Divide(a, b) * b < a + b
  {}

  lemma OrderedBy(a: int, b: int, d: int)
    requires d > 0 && a * d < b * d
    ensures a < b
  {}

  /** Then the quotient is too small, or negative and read as an unsigned number too big. */
  lemma RateIsWrong(frames: int, delta: int)
    requires MOST_FRAMES < frames < 0x8000_0000 && 1000 < delta < 0x8000_0000
    ensures Divide(Wrap(frames * 1000), delta) % 0x1_0000_0000 != frames * 1000 / delta
  {
    var k := WrapLoses(frames * 1000);
    var w, q := Wrap(frames * 1000), frames * 1000 / delta;
    var e := Divide(w, delta);
    DivideBelow(w, delta);
    RateBelowFrames(frames, delta);
    assert (q + 1) * delta == q * delta + delta;
    if e >= 0 { OrderedBy(e, q, delta); }
  }

  /** What a call that closes a window reports is the integer rate if and only if the window holds at most 2147483
      frames: for every frame count and window length of 32 bits. */
  lemma RateExactly(c: Calculator, now: int)
    requires 0 <= c.frames < 0x7FFF_FFFF && 1000 < Milliseconds(now - c.lastTime) < 0x8000_0000
    ensures Calc(c, now).fps == IdealCalc(c, now).fps <==> c.frames < MOST_FRAMES
  {
    var delta := Milliseconds(now - c.lastTime);
    if c.frames < MOST_FRAMES {
      NoOverflow(c, now);
    } else {
      Unwrapped(c.frames + 1);
      Unwrapped(delta);
      RateIsWrong(c.frames + 1, delta);
    }
  }

  lemma WrapChanges(x: int)
    requires !FitsLong(x)
    ensures Wrap(x) != x
  {}

  lemma OtherWindow(w: seq<Window>, x: Window, y: Window)
    ensures w + [x] != w && w + [y] != w && (x != y ==> w + [x] != w + [y])
  {
    assert (w + [x])[|w|] == x && (w + [y])[|w|] == y;
  }

  lemma OutOfRange(c: Calculator, now: int)
    requires 0 <= c.frames < 0x8000_0000 && !InRange(c, now)
    ensures Calc(c, now) != IdealCalc(c, now)
  {
    var delta := Milliseconds(now - c.lastTime);
    var x := Window(Divide(Wrap(Wrap(c.frames + 1) * 1000), if Wrap(delta) > 1000 then Wrap(delta) else 1)
                    % 0x1_0000_0000, Wrap(delta), Wrap(c.frames + 1));
    var y := Window((c.frames + 1) * 1000 / (if delta > 1000 then delta else 1), delta, c.frames + 1);
    if c.frames == 0x7FFF_FFFF {
      WrapChanges(c.frames + 1);
    } else {
      Unwrapped(c.frames + 1);
      if !FitsLong(delta) { WrapChanges(delta); } else { Unwrapped(delta); }
      if 1000 < delta < 0x8000_0000 { RateIsWrong(c.frames + 1, delta); }
    }
    OtherWindow(c.windows, x, y);
  }

  /** A call does what the integers do if and only if it is in range. */
  lemma OverflowExactly(c: Calculator, now: int)
    requires 0 <= c.frames < 0x8000_0000
    ensures Calc(c, now) == IdealCalc(c, now) <==> InRange(c, now)
  {
    if InRange(c, now) { NoOverflow(c, now); } else { OutOfRange(c, now); }
  }

  // ---------------------------------------------------------------------------------------------------------
  // Runs

  function Run(c: Calculator, times: seq<int>): Calculator {
    if times == [] then c else Calc(Run(c, times[..|times| - 1]), times[|times| - 1])
  }

  function IdealRun(c: Calculator, times: seq<int>): (d: Calculator)
    requires c.frames >= 0
    ensures d.frames >= 0
  {
    if times == [] then c else IdealCalc(IdealRun(c, times[..|times| - 1]), times[|times| - 1])
  }

  /** No call of the run overflows. */
  predicate RunInRange(c: Calculator, times: seq<int>) {
    times == [] ||
    (RunInRange(c, times[..|times| - 1]) && InRange(Run(c, times[..|times| - 1]), times[|times| - 1]))
  }

  lemma {:induction false} RunIsIdeal(c: Calculator, times: seq<int>)
    requires c.frames >= 0 && RunInRange(c, times)
    ensures Run(c, times) == IdealRun(c, times)
  {
    if times != [] {
      RunIsIdeal(c, times[..|times| - 1]);
      NoOverflow(Run(c, times[..|times| - 1]), times[|times| - 1]);
    }
  }

  function Lengths(w: seq<Window>): int {
    if w == [] then 0 else Lengths(w[..|w| - 1]) + w[|w| - 1].length
  }

  /** Frames times 1000 as the reported rates account for them, at least and (exclusively) at most. */
  function Reported(w: seq<Window>, more: int): int {
    if w == [] then 0 else Reported(w[..|w| - 1], more) + (w[|w| - 1].rate + more) * w[|w| - 1].length
  }

  /** What the frames say about the windows. */
  ghost predicate Accounts(c: Calculator, start: int, calls: int) {
    && c.frames >= 0
    && Reported(c.windows, 0) <= 1000 * (calls - c.frames)
    && (c.windows == [] ==> c.frames == calls && c.lastTime == start)
    && (c.windows != [] ==> 1000 * (calls - c.frames) < Reported(c.windows, 1))
    && (forall i :: 0 <= i < |c.windows| ==> c.windows[i].length > 1000 && 0 <= c.windows[i].rate < c.windows[i].frames)
    && 1000 * Lengths(c.windows) <= c.lastTime - start
    && (c.windows != [] ==> c.lastTime - start < 1000 * Lengths(c.windows) + 1000 * |c.windows|)
    && (c.windows != [] ==> c.fps == c.windows[|c.windows| - 1].rate)
  }

  lemma OneMoreWindow(w: seq<Window>, x: Window, more: int)
    ensures Lengths(w + [x]) == Lengths(w) + x.length
    ensures Reported(w + [x], more) == Reported(w, more) + (x.rate + more) * x.length
  {
    assert (w + [x])[..|w|] == w;
  }

  /** calc_fps, given the rate it works out. */
  function Next(c: Calculator, now: int, delta: int, rate: int): Calculator {
    if delta > FPS_CALCULATOR_CYCLE_TIME then
      Calculator(now, 0, rate, c.windows + [Window(rate, delta, c.frames + 1)])
    else c.(frames := c.frames + 1)
  }

  ghost predicate IsRate(rate: int, frames: int, delta: int) {
    0 <= rate < frames && rate * delta <= frames * 1000 < (rate + 1) * delta
  }

  lemma IdealIsNext(c: Calculator, now: int) returns (delta: int, rate: int)
    requires c.frames >= 0
    ensures IdealCalc(c, now) == Next(c, now, delta, rate)
    ensures delta > 1000 ==> IsRate(rate, c.frames + 1, delta)
    ensures delta > 1000 ==> 1000 * delta <= now - c.lastTime < 1000 * delta + 1000
  {
    delta, rate := Milliseconds(now - c.lastTime), 0;
    if delta > FPS_CALCULATOR_CYCLE_TIME {
      rate := (c.frames + 1) * 1000 / delta;
      RateBelowFrames(c.frames + 1, delta);
    }
  }

  lemma NextAccounts(c: Calculator, start: int, calls: int, now: int, delta: int, rate: int)
    requires Accounts(c, start, calls)
    requires delta > 1000 ==> IsRate(rate, c.frames + 1, delta)
    requires delta > 1000 ==> 1000 * delta <= now - c.lastTime < 1000 * delta + 1000
    ensures Accounts(Next(c, now, delta, rate), start, calls + 1)
  {
    var x := Window(rate, delta, c.frames + 1);
    OneMoreWindow(c.windows, x, 0);
    OneMoreWindow(c.windows, x, 1);
  }

  lemma CalcAccounts(c: Calculator, start: int, calls: int, now: int)
    requires Accounts(c, start, calls)
    ensures Accounts(IdealCalc(c, now), start, calls + 1)
  {
    var delta, rate := IdealIsNext(c, now);
    NextAccounts(c, start, calls, now, delta, rate);
  }

  /** For every sequence of clock readings, backwards jumps included, over the integers: the reported rates times the
      window lengths account for the frames of the closed windows, to less than one frame per second of each window;
      every window is longer than 1000 ms and reports less than its frame count; and the lengths add up to the time from
      the start to the last close, to less than 1 ms a window. */
  lemma {:induction false} IdealRatesAccount(start: int, garbage: int, times: seq<int>)
    ensures Accounts(IdealRun(Start(start, garbage), times), start, |times|)
  {
    if times != [] {
      IdealRatesAccount(start, garbage, times[..|times| - 1]);
      CalcAccounts(IdealRun(Start(start, garbage), times[..|times| - 1]), start, |times| - 1, times[|times| - 1]);
    }
  }

  /** In 32 bits the same holds as long as no call overflows. */
  lemma RatesAccountForFrames(start: int, garbage: int, times: seq<int>)
    requires RunInRange(Start(start, garbage), times)
    ensures Accounts(Run(Start(start, garbage), times), start, |times|)
  {
    RunIsIdeal(Start(start, garbage), times);
    IdealRatesAccount(start, garbage, times);
  }

  /** Until a window has closed calc_fps returns what was in memory. */
  lemma {:induction false} FirstWindowIsGarbage(start: int, garbage: int, times: seq<int>)
    requires Run(Start(start, garbage), times).windows == []
    ensures Run(Start(start, garbage), times).fps == garbage
  {
    if times != [] { FirstWindowIsGarbage(start, garbage, times[..|times| - 1]); }
  }

  // ---------------------------------------------------------------------------------------------------------
  // The object

  /** A call at least 1.001 s after the last window closed closes one: it reports the frames a second of that window,
      rounded down, and begins a new one. Any other counts a frame and reports what was reported before. */
  predicate Answered(c: Calculator, d: Calculator, now: int) {
    if now - c.lastTime >= 1_001_000 then
      var length := (now - c.lastTime) / 1000;
      && 0 <= d.fps && d.fps * length <= (c.frames + 1) * 1000 < (d.fps + 1) * length
      && d.frames == 0 && d.lastTime == now && d.windows == c.windows + [Window(d.fps, length, c.frames + 1)]
    else d == c.(frames := c.frames + 1)
  }

  lemma IdealAnswers(c: Calculator, now: int)
    requires c.frames >= 0
    ensures Answered(c, IdealCalc(c, now), now)
  {
    var delta := Milliseconds(now - c.lastTime);
    if delta > FPS_CALCULATOR_CYCLE_TIME { RateBelowFrames(c.frames + 1, delta); }
  }

  lemma CalcAnswers(c: Calculator, now: int, start: int, calls: int)
    ensures InRange(c, now) ==> Answered(c, Calc(c, now), now)
    ensures InRange(c, now) && Accounts(c, start, calls) ==> Accounts(Calc(c, now), start, calls + 1)
  {
    if InRange(c, now) {
      NoOverflow(c, now);
      IdealAnswers(c, now);
      if Accounts(c, start, calls) { CalcAccounts(c, start, calls, now); }
    }
  }

  class Counter {
    var lastTime: int
    var frames: int
    var fps: int
    // what happened so far: windows closed, when the object was made, how often calc_fps was called
    ghost var windows: seq<Window>
    ghost const start: int
    ghost var calls: int

    ghost function State(): Calculator
      reads this
    {
      Calculator(lastTime, frames, fps, windows)
    }

    /** The rates reported so far account for the calls so far. */
    ghost predicate Accounted()
      reads this
    {
      Accounts(State(), start, calls)
    }

    /** `garbage` is what happens to be in the memory of fps. */
    constructor (now: int, garbage: int)
      ensures State() == Start(now, garbage) && start == now && calls == 0
      ensures Accounted()
    {
      lastTime, frames, fps, windows := now, 0, garbage, [];
      start, calls := now, 0;
    }

    /** A call in range keeps the account, and answers as Answered says. */
    method CalcFps(now: int) returns (r: int)
      modifies this
      ensures State() == Calc(old(State()), now) && calls == old(calls) + 1 && r == fps
      ensures old(Accounted()) && InRange(old(State()), now) ==> Accounted()
      ensures InRange(old(State()), now) ==> Answered(old(State()), State(), now)
    {
      CalcAnswers(State(), now, start, calls);
      frames := Wrap(frames + 1);
      var delta := Wrap(Milliseconds(now - lastTime));
      if delta > FPS_CALCULATOR_CYCLE_TIME {
        lastTime := now;
        fps := Divide(Wrap(frames * 1000), delta) % 0x1_0000_0000;
        windows := windows + [Window(fps, delta, frames)];
        frames := 0;
      }
      calls := calls + 1;
      r := fps;
    }

    /** What get_fps answers is the rate of the window that closed last. */
    method GetFps() returns (r: int)
      ensures r == fps
      ensures Accounted() && windows != [] ==>
                r == windows[|windows| - 1].rate && 0 <= r < windows[|windows| - 1].frames
    {
      r := fps;
    }

    /** One call a clock reading. */
    method Count(times: seq<int>)
      requires frames == 0 && windows == []
      modifies this
      ensures State() == Run(old(State()), times)
      ensures RunInRange(old(State()), times) ==> Accounts(State(), old(lastTime), |times|)
    {
      ghost var c := State();
      assert times[..0] == [];
      for i := 0 to |times|
        invariant State() == Run(c, times[..i])
      {
        var r := CalcFps(times[i]);
        assert times[..i + 1][..i] == times[..i];
      }
      assert times[..|times|] == times;
      if RunInRange(c, times) { RatesAccountForFrames(c.lastTime, c.fps, times); }
    }
  }
}
