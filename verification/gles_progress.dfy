/** How the render thread moves on when main is quiet, and how it stops. */
module GlesProgress {
  import opened GlesProtocol
  import opened GlesSafety

  /** Render and update steps only, and every engine construction succeeds. Main is idle, so its step does nothing. */
  predicate Calm(schedule: seq<Action>) {
    forall i :: 0 <= i < |schedule| ==> CalmAction(schedule[i])
  }

  predicate CalmAction(a: Action) {
    a == MainStep || a == RenderStep(true) || a == UpdateStep
  }

  function RenderSteps(schedule: seq<Action>): nat {
    if schedule == [] then 0 else (if schedule[0].RenderStep? then 1 else 0) + RenderSteps(schedule[1..])
  }

  /** Steps of the render thread to its next test of line 217, at most. */
  function ToTest(pc: RenderPc): nat {
    match pc
    case TestWorked | Unborn | Done => 0
    case Start => 1
    case Init(i) => (
      match i
      case TestInit => 14
      case TestNull => 13
      case InitLock => 12
      case Recheck => 11
      case Create => 10
      case Publish => 9
      case Setup => 8
      case InitUnlock => 7)
    case Work(w) => (
      match w
      case TestAnimated => 6
      case TestEngine => 5
      case DrawLock => 4
      case Draw => 3
      case Swap => 2
      case DrawUnlock => 1
      case Sleep => 1)
    case Final(_) | StopLog => 0
  }

  const PASS := 15

  /** Main is idle, so the flags stand, and the thread runs. */
  predicate Settled(s: State) {
    s.status == Running && s.main.Idle? && s.flags.worked
  }

  /** There is an engine, or the render thread is about to make one, or it will because the display is initialized. */
  predicate EngineComes(s: State) {
    s.flags.initialized || s.engine.Some? || (s.render.Init? && !s.render.i.TestInit?)
  }

  /** What passes end in, from the next one on: draws, or else sleeps. */
  predicate WillDraw(s: State) {
    s.flags.animated && EngineComes(s)
  }

  /** In a pass that was begun while the state was settled. */
  predicate Cycling(s: State) {
    match s.render
    case TestWorked | Init(_) => true
    case Work(w) =>
      if WillDraw(s) then s.engine.Some? && !w.Sleep?
      else w.TestAnimated? || w.Sleep? || (w.TestEngine? && s.engine.None?)
    case Unborn | Start | Final(_) | StopLog | Done => false
  }

  /** What a pass ends in. */
  function Score(s: State): nat {
    if WillDraw(s) then s.past.draws else s.past.sleeps
  }

  function OtherScore(s: State): nat {
    if WillDraw(s) then s.past.sleeps else s.past.draws
  }

  /** 1 in a pass that has not scored yet. */
  function Unscored(pc: RenderPc): nat {
    if pc.Init? || (pc.Work? && !pc.w.DrawUnlock?) then 1 else 0
  }

  ghost predicate CycleKept(s: State, t: State, steps: nat) {
    && Settled(t) && Cycling(t) && WillDraw(t) == WillDraw(s)
    && OtherScore(t) == OtherScore(s)
    && t.past.passes - Score(t) - Unscored(t.render) == s.past.passes - Score(s) - Unscored(s.render)
    && PASS * t.past.passes - ToTest(t.render) >= PASS * s.past.passes - ToTest(s.render) + steps
  }

  lemma CycleInit(s: State, pc: InitPc)
    requires Inv(s) && Settled(s) && s.render == Init(pc)
    ensures CycleKept(s, StepInit(s, pc, true), 1)
  {}

  lemma CycleWork(s: State, pc: WorkPc)
    requires Inv(s) && Settled(s) && Cycling(s) && s.render == Work(pc)
    ensures CycleKept(s, StepWork(s, pc), 1)
  {}

  lemma CycleStep(s: State, a: Action)
    requires Inv(s) && Settled(s) && Cycling(s) && CalmAction(a)
    ensures CycleKept(s, Step(s, a), if a.RenderStep? then 1 else 0)
  {
    if a.RenderStep? {
      match s.render
      case Init(pc) => CycleInit(s, pc);
      case Work(pc) => CycleWork(s, pc);
      case TestWorked =>
    }
  }

  /** Once a pass begins in a settled state, every pass that begins ends in a draw when animated with an engine there or
      to come, and in a sleep otherwise, and a pass takes at most 15 steps of the render thread. */
  lemma {:induction false} EveryPassScores(s: State, schedule: seq<Action>)
    requires Inv(s) && Settled(s) && Cycling(s) && Calm(schedule)
    ensures CycleKept(s, Exec(s, schedule), RenderSteps(schedule))
    decreases |schedule|
  {
    if schedule != [] {
      CycleStep(s, schedule[0]);
      StepKeeps(s, schedule[0]);
      CalmTail(schedule);
      EveryPassScores(Step(s, schedule[0]), schedule[1..]);
    }
  }

  lemma CalmTail(schedule: seq<Action>)
    requires Calm(schedule) && schedule != []
    ensures CalmAction(schedule[0]) && Calm(schedule[1..])
  {
    forall i | 0 <= i < |schedule| - 1 ensures CalmAction(schedule[1..][i]) {
      assert schedule[1..][i] == schedule[i + 1];
    }
  }

  /** The draw that is under way, if any, has an engine: the pointer was not nulled since its test. */
  predicate SafeDraw(s: State) {
    DrawSection(s.render) ==> s.engine.Some?
  }

  lemma PassInit(s: State, pc: InitPc)
    requires Inv(s) && Settled(s) && s.render == Init(pc)
    ensures var t := StepInit(s, pc, true);
            Settled(t) && SafeDraw(t) && WillDraw(t) == WillDraw(s) && ToTest(t.render) < ToTest(s.render)
  {}

  lemma PassWork(s: State, pc: WorkPc)
    requires Inv(s) && Settled(s) && SafeDraw(s) && s.render == Work(pc)
    ensures var t := StepWork(s, pc);
            Settled(t) && SafeDraw(t) && WillDraw(t) == WillDraw(s) && ToTest(t.render) < ToTest(s.render)
  {}

  lemma PassStep(s: State, a: Action)
    requires Inv(s) && Settled(s) && SafeDraw(s) && CalmAction(a) && !s.render.TestWorked?
    ensures var t := Step(s, a);
            && Settled(t) && SafeDraw(t) && WillDraw(t) == WillDraw(s)
            && ToTest(t.render) + (if a.RenderStep? then 1 else 0) <= ToTest(s.render)
  {
    if a.RenderStep? {
      match s.render
      case Init(pc) => PassInit(s, pc);
      case Work(pc) => PassWork(s, pc);
      case _ =>
    }
  }

  /** Steps to swap_buffers. */
  function ToSwap(pc: RenderPc): nat {
    match pc
    case Work(w) => if w.DrawLock? then 3 else if w.Draw? then 2 else if w.Swap? then 1 else 0
    case _ => 0
  }

  /** Main does not run a command: it is idle and stays so, or it is in the destructor. */
  predicate Aloof(s: State, schedule: seq<Action>) {
    s.main.Destruct? || (s.main.Idle? && Calm(schedule))
  }

  lemma {:induction false} HaltedStays(s: State, schedule: seq<Action>)
    requires s.status != Running
    ensures Exec(s, schedule) == s
    decreases |schedule|
  {
    if schedule != [] { HaltedStays(s, schedule[1..]); }
  }

  lemma UnsafeRender(s: State, ok: bool)
    requires Inv(s) && s.status == Running && !SafeDraw(s) && (s.main.Destruct? || s.main.Idle?)
    ensures var t := StepRender(s, ok);
            t.main == s.main
            && (t.status == Faulted || (t.status == Running && !SafeDraw(t) && ToSwap(t.render) < ToSwap(s.render)))
            && (ToSwap(s.render) == 1 ==> t.status == Faulted)
  {}

  lemma UnsafeOther(s: State, a: Action)
    requires s.status == Running && !SafeDraw(s) && !a.RenderStep?
    requires s.main.Destruct? || (s.main.Idle? && CalmAction(a))
    ensures var t := Step(s, a);
            t.status == Running && t.render == s.render && t.engine == s.engine
            && (if s.main.Destruct? then t.main.Destruct? else t.main.Idle?)
  {
    if a.UpdateStep? { UpdateFrame(s); }
  }

  /** A draw under way without an engine never ends: its first three steps of the render thread go through null. */
  lemma {:induction false} UnsafeFaults(s: State, schedule: seq<Action>)
    requires Inv(s) && s.status == Running && !SafeDraw(s) && Aloof(s, schedule)
    ensures var t := Exec(s, schedule);
            && (t.status == Faulted || (t.status == Running && !SafeDraw(t)))
            && (RenderSteps(schedule) >= ToSwap(s.render) ==> t.status == Faulted)
    ensures 1 <= ToSwap(s.render) <= 3
    decreases |schedule|
  {
    if schedule != [] {
      var a := schedule[0];
      if a.RenderStep? { UnsafeRender(s, a.ok); } else { UnsafeOther(s, a); }
      StepKeeps(s, a);
      if s.main.Idle? { CalmTail(schedule); }
      if Step(s, a).status == Running {
        UnsafeFaults(Step(s, a), schedule[1..]);
      } else {
        HaltedStays(Step(s, a), schedule[1..]);
      }
    }
  }

  /** The pass that s is in is over after i actions. */
  ghost predicate PassOver(s: State, schedule: seq<Action>, i: nat) {
    i <= |schedule| && Exec(s, schedule[..i]).status == Running && Exec(s, schedule[..i]).render.TestWorked?
  }

  lemma {:induction false} SafePassEnds(s: State, schedule: seq<Action>) returns (i: nat)
    requires Inv(s) && Settled(s) && SafeDraw(s) && Calm(schedule)
    requires RenderSteps(schedule) >= ToTest(s.render)
    ensures PassOver(s, schedule, i) && RenderSteps(schedule[i..]) + ToTest(s.render) >= RenderSteps(schedule)
    ensures var u := Exec(s, schedule[..i]); Inv(u) && Settled(u) && WillDraw(u) == WillDraw(s)
    ensures Exec(s, schedule) == Exec(Exec(s, schedule[..i]), schedule[i..]) && Calm(schedule[i..])
    decreases |schedule|
  {
    if s.render.TestWorked? {
      i := 0;
      assert schedule[..0] == [] && schedule[0..] == schedule;
    } else {
      var a := schedule[0];
      PassStep(s, a);
      StepKeeps(s, a);
      CalmTail(schedule);
      var j := SafePassEnds(Step(s, a), schedule[1..]);
      i := j + 1;
      assert schedule[..i][1..] == schedule[1..][..j];
      assert schedule[i..] == schedule[1..][j..];
    }
  }

  /** From any settled state, with the 14 render steps that a pass takes at most: the current pass is over at some point
      if and only if no draw is under way on a pointer that was nulled. */
  lemma PassEnds(s: State, schedule: seq<Action>)
    requires Inv(s) && Settled(s) && Calm(schedule) && RenderSteps(schedule) >= ToTest(s.render)
    ensures ToTest(s.render) <= 14
    ensures (exists i :: PassOver(s, schedule, i)) <==> SafeDraw(s)
    ensures Exec(s, schedule).status == if SafeDraw(s) then Running else Faulted
  {
    if SafeDraw(s) {
      var i := SafePassEnds(s, schedule);
      EveryPassScores(Exec(s, schedule[..i]), schedule[i..]);
    } else {
      UnsafeFaults(s, schedule);
      forall i: nat ensures !PassOver(s, schedule, i) {
        if i <= |schedule| { UnsafeFaults(s, schedule[..i]); }
      }
    }
  }

  /** Main idle, worked and animated standing, constructions succeeding, and an engine there or to come: the thread goes
      on if and only if no draw is under way on a nulled pointer; and then, once the current pass is over, every pass
      draws, and n render steps bring at least (n - 13) / 15 draws. */
  lemma SteadyDraws(s: State, schedule: seq<Action>) returns (i: nat)
    requires Inv(s) && Settled(s) && WillDraw(s) && Calm(schedule)
    requires RenderSteps(schedule) >= ToTest(s.render)
    ensures Exec(s, schedule).status == if SafeDraw(s) then Running else Faulted
    ensures SafeDraw(s) ==>
              && PassOver(s, schedule, i) && RenderSteps(schedule[i..]) + ToTest(s.render) >= RenderSteps(schedule)
              && var u, t := Exec(s, schedule[..i]), Exec(s, schedule);
                 && t.past.sleeps == u.past.sleeps
                 && t.past.draws - u.past.draws == t.past.passes - u.past.passes - Unscored(t.render)
                 && PASS * (t.past.draws - u.past.draws) + 13 >= RenderSteps(schedule[i..])
  {
    PassEnds(s, schedule);
    i := 0;
    if SafeDraw(s) {
      i := SafePassEnds(s, schedule);
      EveryPassScores(Exec(s, schedule[..i]), schedule[i..]);
    }
  }

  /** In all other cases, animated false or no engine there and none to come, every later pass sleeps and none draws. */
  lemma SteadySleeps(s: State, schedule: seq<Action>) returns (i: nat)
    requires Inv(s) && Settled(s) && !WillDraw(s) && Calm(schedule)
    requires RenderSteps(schedule) >= ToTest(s.render)
    ensures Exec(s, schedule).status == if SafeDraw(s) then Running else Faulted
    ensures SafeDraw(s) ==>
              && PassOver(s, schedule, i) && RenderSteps(schedule[i..]) + ToTest(s.render) >= RenderSteps(schedule)
              && var u, t := Exec(s, schedule[..i]), Exec(s, schedule);
                 && t.past.draws == u.past.draws
                 && t.past.sleeps - u.past.sleeps == t.past.passes - u.past.passes - Unscored(t.render)
                 && PASS * (t.past.sleeps - u.past.sleeps) + 14 >= RenderSteps(schedule[i..])
  {
    PassEnds(s, schedule);
    i := 0;
    if SafeDraw(s) {
      i := SafePassEnds(s, schedule);
      EveryPassScores(Exec(s, schedule[..i]), schedule[i..]);
    }
  }

  // ---------------------------------------------------------------------------------------------------------
  // Stopping

  /** Steps of the render thread to its end, at most, once render_thread_worked is false. */
  function ToEnd(pc: RenderPc): nat {
    match pc
    case Unborn | Done => 0
    case StopLog => 1
    case Final(f) => (
      match f
      case FinalUnlock => 2
      case FinalNull => 3
      case FinalDelete => 4
      case FinalLock => 5
      case FinalStore => 6)
    case Start | TestWorked | Init(_) | Work(_) => 7 + ToTest(pc)
  }

  lemma StopInit(s: State, pc: InitPc, ok: bool)
    requires Inv(s) && s.status == Running && s.main.Destruct? && s.render == Init(pc)
    ensures var t := StepInit(s, pc, ok);
            if pc.Create? && !ok then t.status == Thrown
            else t.main == s.main && t.status == Running && SafeDraw(t) && ToEnd(t.render) < ToEnd(s.render)
  {}

  lemma StopWork(s: State, pc: WorkPc)
    requires Inv(s) && s.status == Running && s.main.Destruct? && SafeDraw(s) && s.render == Work(pc)
    ensures var t := StepWork(s, pc);
            t.main == s.main && t.status == Running && SafeDraw(t) && ToEnd(t.render) < ToEnd(s.render)
  {}

  lemma StopFinal(s: State, pc: FinalPc)
    requires Inv(s) && s.status == Running && s.main.Destruct? && s.render == Final(pc)
    ensures var t := StepFinal(s, pc);
            t.main == s.main && t.status == Running && SafeDraw(t) && ToEnd(t.render) < ToEnd(s.render)
  {}

  lemma StopMain(s: State, pc: DestructPc)
    requires s.status == Running && s.main == Destruct(pc) && Rank(pc) > 0
    ensures var t := StepDestruct(s, pc);
            t.status == Running && Beyond(t.main, StopWorked) && t.render == s.render && t.engine == s.engine
  {}

  lemma StopStep(s: State, a: Action)
    requires Inv(s) && s.status == Running && Beyond(s.main, StopWorked) && SafeDraw(s)
    ensures var t := Step(s, a);
            || (t.status == Thrown && a == RenderStep(false))
            || (t.status == Running && Beyond(t.main, StopWorked) && SafeDraw(t)
                && (a.RenderStep? && ToEnd(s.render) > 0 ==> ToEnd(t.render) < ToEnd(s.render))
                && (!a.RenderStep? ==> t.render == s.render))
  {
    if a.RenderStep? {
      match s.render
      case Init(pc) => StopInit(s, pc, a.ok);
      case Work(pc) => StopWork(s, pc);
      case Final(pc) => StopFinal(s, pc);
      case _ =>
    } else if a.MainStep? {
      StopMain(s, s.main.d);
    } else {
      UpdateFrame(s);
    }
  }

  lemma {:induction false} SafeStops(s: State, schedule: seq<Action>)
    requires Inv(s) && s.status == Running && Beyond(s.main, StopWorked) && SafeDraw(s)
    ensures var t := Exec(s, schedule);
            && (t.status == Thrown || t.status == Running)
            && (t.status == Thrown ==> RenderStep(false) in schedule)
            && (t.status == Running && RenderSteps(schedule) >= ToEnd(s.render) ==> t.render.Done?)
    decreases |schedule|
  {
    if schedule == [] {
      EndIsDone(s);
    } else {
      var a := schedule[0];
      StopStep(s, a);
      StepKeeps(s, a);
      if Step(s, a).status == Running {
        SafeStops(Step(s, a), schedule[1..]);
      } else {
        HaltedStays(Step(s, a), schedule[1..]);
      }
    }
  }

  /** Once the destructor has stored false at line 135 the render thread has at most 21 steps before it, whatever the
      other threads do meanwhile: with them it faults if and only if a draw was under way on a nulled pointer, it throws
      only if the construction of an engine fails, and otherwise it is at its end. */
  lemma RenderStops(s: State, schedule: seq<Action>)
    requires Inv(s) && s.status == Running && Beyond(s.main, StopWorked)
    requires RenderSteps(schedule) >= ToEnd(s.render)
    ensures ToEnd(s.render) <= 21
    ensures var t := Exec(s, schedule);
            && (t.status == Faulted <==> !SafeDraw(s))
            && (t.status == Thrown ==> RenderStep(false) in schedule)
            && (t.status == Running ==> t.render.Done?)
  {
    if SafeDraw(s) { SafeStops(s, schedule); } else { UnsafeFaults(s, schedule); }
  }

  lemma EndIsDone(s: State)
    requires Inv(s) && Beyond(s.main, StopWorked)
    ensures ToEnd(s.render) == 0 ==> s.render.Done?
  {}
}
