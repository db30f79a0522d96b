/**
 The destructor of gles_engine sleeps instead of joining (gles_engine.cpp, lines 133 to 151). Here time is counted
 in milliseconds, and the threads meet upper bounds on what they do.
*/
module GlesShutdown {
  import opened Common
  import opened GlesProtocol
  import opened GlesSafety

  const RENDER_THREAD_STOP_TIMEOUT: nat := 250
  const DATA_THREAD_STOP_TIMEOUT: nat := 250

  /** Longest durations: of the initialization test with an init_display_impl in it, of a draw or the sleep of 50 ms
      (or of starting up), of the final destroy_display with the last log line, and of one pass of the update loop.
      The time that the render thread waits for the lock is not counted. */
  datatype Bounds = Bounds(init: nat, work: nat, destroy: nat, update: nat)

  /** The due times are when the current piece of work is over at the latest; wake ends a sleep of main. */
  datatype Timed = Timed(s: State, now: nat, renderDue: nat, updateDue: nat, wake: nat, stopAt: nat, dataStopAt: nat)

  datatype TimedAction = Act(a: Action) | Tick

  function TimedInit(): Timed {
    Timed(InitialState(), 0, 0, 0, 0, 0, 0)
  }

  predicate RenderAlive(s: State) {
    !s.render.Unborn? && !s.render.Done?
  }

  predicate UpdateAlive(s: State) {
    !s.update.Unhatched? && !s.update.Ended?
  }

  predicate RenderBlocked(s: State) {
    s.lock == Some(Main) &&
    (s.render == Init(InitLock) || s.render == Work(DrawLock) || s.render == Final(FinalLock))
  }

  predicate Sleeping(pc: MainPc) {
    pc == Destruct(SleepRender) || pc == Destruct(SleepUpdate)
  }

  /** A piece of work begins: its bound runs from now. */
  function RenderDue(b: Bounds, t: Timed, render: RenderPc): nat {
    if render == t.s.render then t.renderDue else
      match render
      case Start => t.now + b.work
      case Init(i) => if i.TestInit? then t.now + b.init else t.renderDue
      case Work(w) => if w.TestAnimated? then t.now + b.work else t.renderDue
      case Final(f) => if f.FinalStore? then t.now + b.destroy else t.renderDue
      case Unborn | TestWorked | StopLog | Done => t.renderDue
  }

  function UpdateDue(b: Bounds, t: Timed, update: UpdatePc): nat {
    if update != t.s.update && (update.Begin? || update.TestUpdated?) then t.now + b.update else t.updateDue
  }

  function Woken(t: Timed, main: MainPc): nat {
    if main == t.s.main then t.wake
    else if main == Destruct(SleepRender) then t.now + RENDER_THREAD_STOP_TIMEOUT
    else if main == Destruct(SleepUpdate) then t.now + DATA_THREAD_STOP_TIMEOUT
    else t.wake
  }

  /** A millisecond passes only while everybody is within the bounds. */
  predicate MayTick(t: Timed) {
    && t.s.status == Running
    && (RenderAlive(t.s) && !RenderBlocked(t.s) ==> t.now < t.renderDue)
    && (UpdateAlive(t.s) ==> t.now < t.updateDue)
  }

  function After(b: Bounds, t: Timed, u: State): Timed {
    Timed(u, t.now, RenderDue(b, t, u.render), UpdateDue(b, t, u.update), Woken(t, u.main),
          if u.main != t.s.main && u.main == Destruct(StopAnimated) then t.now else t.stopAt,
          if u.main != t.s.main && u.main == Destruct(StopDataUpdated) then t.now else t.dataStopAt)
  }

  function TimedStep(b: Bounds, t: Timed, ta: TimedAction): Timed {
    match ta
    case Act(a) =>
      if a.MainStep? && Sleeping(t.s.main) && t.now < t.wake then t else After(b, t, Step(t.s, a))
    case Tick =>
      if MayTick(t) then
        t.(now := t.now + 1, renderDue := if RenderBlocked(t.s) then t.renderDue + 1 else t.renderDue)
      else t
  }

  function TimedExec(b: Bounds, t: Timed, schedule: seq<TimedAction>): Timed
    decreases |schedule|
  {
    if schedule == [] then t else TimedExec(b, TimedStep(b, t, schedule[0]), schedule[1..])
  }

  // ---------------------------------------------------------------------------------------------------------
  // The invariant of timed runs

  function PieceBound(b: Bounds, pc: RenderPc): nat {
    match pc
    case Init(_) => b.init
    case Unborn | Start | TestWorked | Work(_) => b.work
    case Final(_) | StopLog | Done => b.destroy
  }

  /** How long after the store of line 135 the current piece may last. */
  function Cap(b: Bounds, pc: RenderPc): nat {
    match pc
    case Init(_) => b.init
    case Unborn | Start | TestWorked | Work(_) => b.init + b.work
    case Final(_) | StopLog | Done => b.init + b.work + b.destroy
  }

  ghost predicate RenderClock(b: Bounds, t: Timed) {
    RenderAlive(t.s) ==>
      && t.now <= t.renderDue <= t.now + PieceBound(b, t.s.render)
      && (Beyond(t.s.main, StopWorked) ==> t.renderDue <= t.stopAt + Cap(b, t.s.render))
  }

  ghost predicate UpdateClock(b: Bounds, t: Timed) {
    UpdateAlive(t.s) ==>
      && t.now <= t.updateDue <= t.now + b.update
      && (Beyond(t.s.main, StopDataWorked) ==> t.updateDue <= t.dataStopAt + b.update)
  }

  ghost predicate MainClock(t: Timed) {
    && (Beyond(t.s.main, StopWorked) ==> t.stopAt <= t.now)
    && (t.s.main == Destruct(SleepRender) ==> t.wake >= t.stopAt + RENDER_THREAD_STOP_TIMEOUT)
    && (Beyond(t.s.main, SleepRender) ==> t.now >= t.stopAt + RENDER_THREAD_STOP_TIMEOUT)
    && (Beyond(t.s.main, StopDataWorked) ==> t.stopAt + RENDER_THREAD_STOP_TIMEOUT <= t.dataStopAt <= t.now)
    && (t.s.main == Destruct(SleepUpdate) ==> t.wake >= t.dataStopAt + DATA_THREAD_STOP_TIMEOUT)
    && (Beyond(t.s.main, SleepUpdate) ==> t.now >= t.dataStopAt + DATA_THREAD_STOP_TIMEOUT)
  }

  ghost predicate Clocks(b: Bounds, t: Timed) {
    RenderClock(b, t) && UpdateClock(b, t) && MainClock(t)
  }

  ghost predicate TimedInv(b: Bounds, t: Timed) {
    Inv(t.s) && Clocks(b, t)
  }

  lemma TickKeeps(b: Bounds, t: Timed)
    requires TimedInv(b, t)
    ensures TimedInv(b, TimedStep(b, t, Tick))
  {}

  /** The moves of the render thread as far as its clock is concerned. */
  predicate RenderMoves(pc: RenderPc, next: RenderPc, stopped: bool) {
    next == pc ||
    match pc
    case Start => next.TestWorked?
    case TestWorked => next == Final(FinalStore) || (next == Init(TestInit) && !stopped)
    case Init(_) => next == Work(TestAnimated) || (next.Init? && !next.i.TestInit?)
    case Work(_) => next.TestWorked? || (next.Work? && !next.w.TestAnimated?)
    case Final(_) => next.StopLog? || (next.Final? && !next.f.FinalStore?)
    case StopLog => next.Done?
    case Unborn | Done => false
  }

  lemma RenderMove(s: State, ok: bool)
    requires Stages(s)
    ensures var u := StepRender(s, ok);
            && u.main == s.main && u.update == s.update
            && RenderMoves(s.render, u.render, Beyond(s.main, StopWorked))
  {}

  lemma RenderClocks(b: Bounds, t: Timed, u: State)
    requires Clocks(b, t) && u.main == t.s.main && u.update == t.s.update
    requires RenderMoves(t.s.render, u.render, Beyond(t.s.main, StopWorked))
    ensures Clocks(b, After(b, t, u))
  {}

  lemma UpdateMove(s: State)
    requires Stages(s)
    ensures var u := StepUpdate(s);
            && (u.update != s.update ==> UpdateAlive(s))
            && (u.update.TestUpdated? && !s.update.TestUpdated? ==> !Beyond(s.main, StopDataWorked))
            && (u.update.Begin? ==> s.update.Begin?)
  {}

  lemma UpdateClocks(b: Bounds, t: Timed, u: State)
    requires Clocks(b, t) && u.main == t.s.main && u.render == t.s.render
    requires u.update != t.s.update ==> UpdateAlive(t.s) && !u.update.Begin?
    requires u.update.TestUpdated? && !t.s.update.TestUpdated? ==> !Beyond(t.s.main, StopDataWorked)
    ensures Clocks(b, After(b, t, u))
  {}

  lemma MainMove(s: State)
    requires Stages(s)
    ensures var u := StepMain(s);
            && (u.render != s.render ==> u.render.Start? && s.render.Unborn?)
            && (u.update != s.update ==> u.update.Begin? && s.update.Unhatched?)
            && (if s.main.Destruct? then u.main.Destruct? && Rank(s.main.d) <= Rank(u.main.d) <= Rank(s.main.d) + 1
                else !u.main.Destruct?)
  {
    if s.main.Destruct? { DestructRanks(s, s.main.d); } else { ForegroundMove(s); }
  }

  lemma ForegroundMove(s: State)
    requires Stages(s) && !s.main.Destruct?
    ensures var u := StepMain(s);
            && (u.render != s.render ==> u.render.Start? && s.render.Unborn?)
            && (u.update != s.update ==> u.update.Begin? && s.update.Unhatched?)
            && !u.main.Destruct?
  {}

  lemma RankInjective(a: DestructPc, b: DestructPc)
    ensures Rank(a) == Rank(b) <==> a == b
  {}

  lemma MainClocks(b: Bounds, t: Timed, u: State)
    requires Clocks(b, t)
    requires Sleeping(t.s.main) ==> t.now >= t.wake
    requires u.render != t.s.render ==> u.render.Start? && t.s.render.Unborn? && !u.main.Destruct?
    requires u.update != t.s.update ==> u.update.Begin? && t.s.update.Unhatched? && !u.main.Destruct?
    requires u.main.Destruct? ==>
               if t.s.main.Destruct? then Rank(t.s.main.d) <= Rank(u.main.d) <= Rank(t.s.main.d) + 1
               else u.main.d.StopWorked?
    requires t.s.main.Destruct? ==> u.main.Destruct?
    ensures Clocks(b, After(b, t, u))
  {
    if u.main.Destruct? && t.s.main.Destruct? { RankInjective(u.main.d, t.s.main.d); }
  }

  lemma TimedStepKeeps(b: Bounds, t: Timed, ta: TimedAction)
    requires TimedInv(b, t)
    ensures TimedInv(b, TimedStep(b, t, ta))
  {
    match ta
    case Tick => TickKeeps(b, t);
    case Act(a) =>
      StepKeeps(t.s, a);
      ActClocks(b, t, a);
  }

  lemma ActClocks(b: Bounds, t: Timed, a: Action)
    requires TimedInv(b, t)
    ensures Clocks(b, TimedStep(b, t, Act(a)))
  {
    var u := Step(t.s, a);
    if t.s.status == Running {
      match a
      case RenderStep(ok) => RenderMove(t.s, ok); RenderClocks(b, t, u);
      case UpdateStep => UpdateFrame(t.s); UpdateMove(t.s); UpdateClocks(b, t, u);
      case MainStep =>
        MainMove(t.s);
        if !(Sleeping(t.s.main) && t.now < t.wake) { MainClocks(b, t, u); }
      case Deliver(_) => if t.s.main.Idle? { MainClocks(b, t, u); }
      case RequestDestroy => if t.s.main.Idle? { MainClocks(b, t, u); }
    }
  }

  lemma {:induction false} TimedExecKeeps(b: Bounds, t: Timed, schedule: seq<TimedAction>)
    requires TimedInv(b, t)
    ensures TimedInv(b, TimedExec(b, t, schedule))
    decreases |schedule|
  {
    if schedule != [] {
      TimedStepKeeps(b, t, schedule[0]);
      TimedExecKeeps(b, TimedStep(b, t, schedule[0]), schedule[1..]);
    }
  }

  predicate InTime(b: Bounds) {
    b.init + b.work + b.destroy < 500 && b.update < 250
  }

  /** Something that a thread still uses has been freed. */
  predicate Dangling(s: State) {
    (s.freed.calculator || s.freed.data || s.freed.logger) && (RenderAlive(s) || UpdateAlive(s))
  }

  ghost predicate SafeShutdown(b: Bounds) {
    forall schedule :: !Dangling(TimedExec(b, TimedInit(), schedule).s)
  }

  /** Within the bounds both threads are over before the destructor frees anything, in every run. */
  lemma ShutdownInTime(b: Bounds, schedule: seq<TimedAction>)
    requires InTime(b)
    ensures var s := TimedExec(b, TimedInit(), schedule).s;
            Beyond(s.main, SleepUpdate) ==> s.render.Done? && s.update.Ended?
    ensures !Dangling(TimedExec(b, TimedInit(), schedule).s)
  {
    TimedExecKeeps(b, TimedInit(), schedule);
    OverInTime(b, TimedExec(b, TimedInit(), schedule));
  }

  lemma OverInTime(b: Bounds, t: Timed)
    requires InTime(b) && TimedInv(b, t)
    ensures Beyond(t.s.main, SleepUpdate) ==> t.s.render.Done? && t.s.update.Ended?
    ensures !Dangling(t.s)
  {}
}
