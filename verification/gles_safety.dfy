/** What every interleaving of the three threads keeps. */
module GlesSafety {
  import opened Common
  import Binary32
  import opened GlesProtocol

  predicate MainHolds(pc: MainPc) {
    pc.Busy? && (pc.b.TermDelete? || pc.b.TermNull? || pc.b.TermUnlock?)
  }

  predicate RenderHolds(pc: RenderPc) {
    match pc
    case Init(i) => !(i.TestInit? || i.TestNull? || i.InitLock?)
    case Work(w) => w.Draw? || w.Swap? || w.DrawUnlock?
    case Final(f) => !(f.FinalStore? || f.FinalLock?)
    case Unborn | Start | TestWorked | StopLog | Done => false
  }

  /** How far the destructor is. */
  function Rank(pc: DestructPc): nat {
    match pc
    case StopWorked => 0
    case StopAnimated => 1
    case StopInitialized => 2
    case SleepRender => 3
    case DropRender => 4
    case StopDataWorked => 5
    case StopDataUpdated => 6
    case SleepUpdate => 7
    case DropUpdate => 8
    case FreeCalculator => 9
    case FreeData => 10
    case FreeLogger => 11
    case Over => 12
  }

  function ConstructRank(pc: ConstructPc): nat {
    match pc
    case StoreWorked => 0
    case StartRender => 1
    case StoreDataWorked => 2
    case StoreDataUpdated => 3
    case StartUpdate => 4
  }

  /** The destructor is past the given step. */
  predicate Beyond(pc: MainPc, step: DestructPc) {
    pc.Destruct? && Rank(pc.d) > Rank(step)
  }

  /** The constructor is not past the given step. */
  predicate Before(pc: MainPc, step: ConstructPc) {
    pc.Construct? && ConstructRank(pc.c) <= ConstructRank(step)
  }

  /** The render thread is past its final destroy_display. */
  predicate Left(pc: RenderPc) {
    pc.StopLog? || pc.Done?
  }

  /** And past the store of line 160 in it. */
  predicate Retired(pc: RenderPc) {
    (pc.Final? && !pc.f.FinalStore?) || Left(pc)
  }

  /** From the unlocked test of line 226 to the unlock of line 256. */
  predicate DrawSection(pc: RenderPc) {
    pc.Work? && (pc.w.DrawLock? || pc.w.Draw? || pc.w.Swap? || pc.w.DrawUnlock?)
  }

  /** The pointer does not tell whether an engine is alive in two windows: constructed but not yet stored, and deleted
      but not yet nulled. */
  predicate Live(s: State) {
    if s.render == Init(Publish) then true
    else if s.main == Busy(TermNull) || s.render == Final(FinalNull) then false
    else s.engine.Some?
  }

  ghost predicate Locking(s: State) {
    match s.lock
    case None => !MainHolds(s.main) && !RenderHolds(s.render)
    case Some(Main) => MainHolds(s.main) && !RenderHolds(s.render)
    case Some(Render) => RenderHolds(s.render) && !MainHolds(s.main)
    case Some(Update) => false
  }

  ghost predicate Pointer(s: State) {
    && (s.engine.Some? ==> s.engine.value + 1 == s.past.made)
    && (s.render == Init(Create) || s.render == Init(Publish) ==> s.engine.None?)
    && (s.render == Init(Publish) ==> s.past.made > 0)
    && (s.render == Init(Setup) || s.render == Init(InitUnlock) || s.render == Work(DrawUnlock) ==> s.engine.Some?)
    && (s.render == Final(FinalUnlock) || Left(s.render) ==> s.engine.None?)
    && (s.main == Busy(TermUnlock) ==> s.engine.None?)
    && (s.status == Faulted ==> s.render == Work(Swap) && s.engine.None?)
    && (s.status == Thrown ==> s.render == Init(Create))
  }

  /** The trace tells the same story as the pointer. */
  ghost predicate Story(s: State) {
    && Replay(s.past.trace) == Life(s.past.made, Live(s))
    && AllGuarded(s.past.trace)
    && (DrawSection(s.render) ==> (s.engine.None? <==> NulledSinceTest(s.past.trace)))
  }

  ghost predicate Stages(s: State) {
    && (s.flags.worked <==> !Beyond(s.main, StopWorked) && !Before(s.main, StoreWorked))
    && (s.flags.dataWorked <==> !Beyond(s.main, StopDataWorked) && !Before(s.main, StoreDataWorked))
    && (s.flags.dataUpdated <==> !Beyond(s.main, StopDataUpdated) && !Before(s.main, StoreDataUpdated))
    && (s.render.Unborn? <==> Before(s.main, StartRender))
    && (s.update.Unhatched? <==> s.main.Construct?)
    && (s.render.Final? || Left(s.render) ==> Beyond(s.main, StopWorked))
    && (s.main == Busy(TermLock) || MainHolds(s.main) ==> !s.flags.initialized)
    && (Beyond(s.main, StopInitialized) || s.main.Construct? || Retired(s.render) ==> !s.flags.initialized)
    && (s.freed.calculator <==> Beyond(s.main, FreeCalculator))
    && (s.freed.data <==> Beyond(s.main, FreeData))
    && (s.freed.logger <==> Beyond(s.main, FreeLogger))
  }

  ghost predicate Commands(s: State) {
    match s.main
    case Construct(_) => !s.flags.animated && s.past.commands == []
    case Idle => s.flags.animated == LastEnables(s.past.commands)
    case Busy(pc) =>
      if pc.InitStore? || pc.Enable? then LastEnables(s.past.commands)
      else !LastEnables(s.past.commands) && (pc.Disable? || pc.TermDisable? || !s.flags.animated)
    case Destruct(pc) => if Rank(pc) <= 1 then s.flags.animated == LastEnables(s.past.commands) else !s.flags.animated
  }

  ghost predicate Angle(s: State) {
    s.rotate == Binary32.Min(s.past.increments, Binary32.LIMIT)
  }

  ghost predicate Inv(s: State) {
    Locking(s) && Pointer(s) && Story(s) && Stages(s) && Commands(s) && Angle(s)
  }

  /** What one more event does to the readings of a trace. */
  lemma OneMore(trace: seq<Event>, e: Event)
    ensures Replay(trace + [e]) == Next(Replay(trace), e.what)
    ensures AllGuarded(trace) && Guarded(e) ==> AllGuarded(trace + [e])
    ensures NulledSinceTest(trace + [e]) == if e.what.Tested? then false else e.what.Nulled? || NulledSinceTest(trace)
  {
    assert (trace + [e])[..|trace|] == trace;
  }

  /** A step without an event keeps the story when it keeps what the story speaks of. */
  lemma QuietKeepsStory(s: State, t: State)
    requires Story(s) && Quiet(s, t)
    ensures Story(t)
  {}

  predicate Quiet(s: State, t: State) {
    && t.past.trace == s.past.trace && t.past.made == s.past.made && Live(t) == Live(s)
    && (DrawSection(t.render) ==> DrawSection(s.render) && t.engine.None? == s.engine.None?)
  }

  /** One event outside the draw section. */
  lemma EventKeepsStory(s: State, t: State, e: Event)
    requires Story(s) && t.past.trace == s.past.trace + [e] && Guarded(e) && !DrawSection(t.render)
    requires Next(Life(s.past.made, Live(s)), e.what) == Life(t.past.made, Live(t))
    ensures Story(t)
  {
    OneMore(s.past.trace, e);
  }

  lemma DeletedKeepsStory(s: State, who: Thread, t: State)
    requires Locking(s) && Pointer(s) && Story(s) && s.lock == Some(who)
    requires (who.Main? && s.main == Busy(TermDelete)) || (who.Render? && s.render == Final(FinalDelete))
    requires t == (if who.Main? then DeleteEngine(s, who).(main := Busy(TermNull))
                   else DeleteEngine(s, who).(render := Final(FinalNull)))
    ensures Story(t)
  {
    if s.engine.Some? { OneMore(s.past.trace, Event(Deleted(s.engine.value), who, s.lock)); }
  }

  lemma NulledKeepsStory(s: State, who: Thread, t: State)
    requires Locking(s) && Pointer(s) && Story(s) && s.lock == Some(who)
    requires (who.Main? && s.main == Busy(TermNull)) || (who.Render? && s.render == Final(FinalNull))
    requires t == (if who.Main? then NullEngine(s, who).(main := Busy(TermUnlock))
                   else NullEngine(s, who).(render := Final(FinalUnlock)))
    ensures Story(t)
  {
    OneMore(s.past.trace, Event(Nulled, who, s.lock));
  }

  // ---------------------------------------------------------------------------------------------------------
  // The main thread

  lemma ConstructKeeps(s: State, pc: ConstructPc)
    requires Inv(s) && s.main == Construct(pc)
    ensures Inv(StepConstruct(s, pc))
  {}

  lemma CommandKeeps(s: State, pc: CommandPc)
    requires Locking(s) && Pointer(s) && Stages(s) && s.main == Busy(pc)
    ensures var t := StepCommand(s, pc); Locking(t) && Pointer(t)
  {}

  lemma CommandKeepsRest(s: State, pc: CommandPc)
    requires Stages(s) && Commands(s) && Angle(s) && s.main == Busy(pc)
    ensures var t := StepCommand(s, pc); Stages(t) && Commands(t) && Angle(t)
  {}

  lemma CommandIsQuiet(s: State, pc: CommandPc)
    requires Locking(s) && Pointer(s) && s.main == Busy(pc) && !pc.TermDelete? && !pc.TermNull?
    ensures Quiet(s, StepCommand(s, pc))
  {}

  lemma DestructKeeps(s: State, pc: DestructPc)
    requires Locking(s) && Pointer(s) && s.main == Destruct(pc)
    ensures var t := StepDestruct(s, pc); Locking(t) && Pointer(t) && Quiet(s, t)
  {}

  lemma DestructKeepsCommands(s: State, pc: DestructPc)
    requires Commands(s) && Angle(s) && s.main == Destruct(pc)
    ensures var t := StepDestruct(s, pc); Commands(t) && Angle(t)
  {}

  lemma DestructKeepsStages(s: State, pc: DestructPc)
    requires Stages(s) && s.main == Destruct(pc)
    ensures Stages(StepDestruct(s, pc))
  {
    DestructRanks(s, pc);
  }

  lemma DestructRanks(s: State, pc: DestructPc)
    requires s.main == Destruct(pc)
    ensures var t := StepDestruct(s, pc);
            t.main.Destruct? && Rank(t.main.d) == (if pc.Over? then 12 else Rank(pc) + 1)
            && t.render == s.render && t.update == s.update
  {}

  lemma ReceiveKeeps(s: State, c: Command)
    requires Inv(s) && s.main.Idle?
    ensures Inv(Receive(s, c))
  {
    assert (s.past.commands + [c])[..|s.past.commands|] == s.past.commands;
  }

  lemma RequestKeeps(s: State)
    requires Inv(s) && s.main.Idle?
    ensures Inv(s.(main := Destruct(StopWorked)))
  {}

  // ---------------------------------------------------------------------------------------------------------
  // The render thread

  /** What a step of the render thread leaves to the others. */
  predicate RenderOnly(s: State, t: State) {
    && t.main == s.main && t.update == s.update && t.freed == s.freed && t.rotate == s.rotate
    && t.past.commands == s.past.commands && t.past.increments == s.past.increments
    && t.flags == s.flags.(initialized := t.flags.initialized) && (t.flags.initialized ==> s.flags.initialized)
  }

  /** And the only way out of its loop. */
  predicate RenderFrame(s: State, t: State) {
    && RenderOnly(s, t)
    && !t.render.Unborn? && !s.render.Unborn?
    && (t.render.Final? || Left(t.render) ==> s.render.Final? || Left(s.render))
    && (Retired(t.render) ==> Retired(s.render) || !t.flags.initialized)
  }

  lemma FrameKeepsRest(s: State, t: State)
    requires Stages(s) && Commands(s) && Angle(s) && RenderFrame(s, t)
    ensures Stages(t) && Commands(t) && Angle(t)
  {}

  lemma InitKeeps(s: State, pc: InitPc, ok: bool)
    requires Inv(s) && s.render == Init(pc) && s.status == Running
    ensures var t := StepInit(s, pc, ok); Locking(t) && Pointer(t)
  {}

  lemma InitFrame(s: State, pc: InitPc, ok: bool)
    requires s.render == Init(pc)
    ensures RenderFrame(s, StepInit(s, pc, ok))
  {}

  lemma InitIsQuiet(s: State, pc: InitPc, ok: bool)
    requires Locking(s) && Pointer(s) && s.render == Init(pc) && !pc.Create? && !pc.Setup?
    ensures Quiet(s, StepInit(s, pc, ok))
  {}

  lemma CreateKeepsStory(s: State, ok: bool)
    requires Locking(s) && Pointer(s) && Story(s) && s.render == Init(Create)
    ensures Story(StepInit(s, Create, ok))
  {
    if ok { EventKeepsStory(s, StepInit(s, Create, ok), Event(Created(s.past.made), Render, s.lock)); }
  }

  lemma SetupKeepsStory(s: State)
    requires Locking(s) && Pointer(s) && Story(s) && s.render == Init(Setup)
    ensures Story(StepInit(s, Setup, true))
  {
    EventKeepsStory(s, StepInit(s, Setup, true), Event(Used(s.engine.value), Render, s.lock));
  }

  lemma WorkKeeps(s: State, pc: WorkPc)
    requires Inv(s) && s.render == Work(pc) && s.status == Running
    ensures var t := StepWork(s, pc); Locking(t) && Pointer(t)
  {}

  lemma WorkFrame(s: State, pc: WorkPc)
    requires s.render == Work(pc)
    ensures RenderFrame(s, StepWork(s, pc))
  {}

  lemma WorkIsQuiet(s: State, pc: WorkPc)
    requires s.render == Work(pc) && !pc.TestEngine? && !pc.Swap?
    ensures Quiet(s, StepWork(s, pc))
  {}

  lemma TestedKeepsStory(s: State, t: State, e: Event)
    requires Story(s) && e.what == Tested && t.past.trace == s.past.trace + [e]
    requires t.past.made == s.past.made && Live(t) == Live(s) && t.engine.Some?
    ensures Story(t)
  {
    OneMore(s.past.trace, e);
  }

  lemma TestEngineKeepsStory(s: State)
    requires Locking(s) && Pointer(s) && Story(s) && s.render == Work(TestEngine)
    ensures Story(StepWork(s, TestEngine))
  {
    if s.engine.Some? {
      TestedKeepsStory(s, StepWork(s, TestEngine), Event(Tested, Render, s.lock));
    } else {
      QuietKeepsStory(s, StepWork(s, TestEngine));
    }
  }

  lemma SwapKeepsStory(s: State)
    requires Locking(s) && Pointer(s) && Story(s) && s.render == Work(Swap)
    ensures Story(StepWork(s, Swap))
  {
    OneMore(s.past.trace, Event(if s.engine.Some? then Used(s.engine.value) else NullUse, Render, s.lock));
  }

  lemma FinalKeeps(s: State, pc: FinalPc)
    requires Inv(s) && s.render == Final(pc) && s.status == Running
    ensures var t := StepFinal(s, pc); Locking(t) && Pointer(t)
  {}

  lemma FinalFrame(s: State, pc: FinalPc)
    requires s.render == Final(pc)
    ensures RenderFrame(s, StepFinal(s, pc))
  {}

  lemma FinalIsQuiet(s: State, pc: FinalPc)
    requires s.render == Final(pc) && !pc.FinalDelete? && !pc.FinalNull?
    ensures Quiet(s, StepFinal(s, pc))
  {}

  lemma TestKeeps(s: State)
    requires Inv(s) && s.render.TestWorked? && s.status == Running
    ensures Inv(StepTest(s))
  {}

  lemma EdgeKeeps(s: State, next: RenderPc)
    requires Inv(s) && s.status == Running
    requires (s.render.Start? && next.TestWorked?) || (s.render.StopLog? && next.Done?)
    ensures Inv(s.(render := next))
  {}

  /** The update thread touches nothing that the other clauses speak of. */
  lemma UpdateKeeps(s: State, update: UpdatePc, rotate: nat, increments: nat)
    requires Locking(s) && Pointer(s) && Story(s) && Stages(s) && Commands(s)
    requires update.Unhatched? == s.update.Unhatched?
    ensures var t := s.(update := update, rotate := rotate, past := s.past.(increments := increments));
            Locking(t) && Pointer(t) && Story(t) && Stages(t) && Commands(t)
  {}

  lemma UpdateFrame(s: State)
    ensures var t := StepUpdate(s);
            t == s.(update := t.update, rotate := t.rotate, past := s.past.(increments := t.past.increments))
    ensures StepUpdate(s).update.Unhatched? == s.update.Unhatched?
  {}

  lemma UpdateKeepsAngle(s: State)
    requires Angle(s)
    ensures Angle(StepUpdate(s))
  {
    Binary32.AddDeltaAt(s.rotate);
  }

  // ---------------------------------------------------------------------------------------------------------
  // All of them

  lemma MainKeeps(s: State)
    requires Inv(s)
    ensures Inv(StepMain(s))
  {
    match s.main
    case Construct(pc) => ConstructKeeps(s, pc);
    case Idle =>
    case Busy(pc) =>
      CommandKeeps(s, pc);
      CommandKeepsRest(s, pc);
      if pc.TermDelete? { DeletedKeepsStory(s, Main, StepCommand(s, pc)); }
      else if pc.TermNull? { NulledKeepsStory(s, Main, StepCommand(s, pc)); }
      else { CommandIsQuiet(s, pc); QuietKeepsStory(s, StepCommand(s, pc)); }
    case Destruct(pc) =>
      DestructKeeps(s, pc);
      DestructKeepsCommands(s, pc);
      DestructKeepsStages(s, pc);
      QuietKeepsStory(s, StepDestruct(s, pc));
  }

  lemma InitKeepsAll(s: State, pc: InitPc, ok: bool)
    requires Inv(s) && s.render == Init(pc) && s.status == Running
    ensures Inv(StepInit(s, pc, ok))
  {
    InitKeeps(s, pc, ok);
    InitFrame(s, pc, ok);
    FrameKeepsRest(s, StepInit(s, pc, ok));
    if pc.Create? { CreateKeepsStory(s, ok); }
    else if pc.Setup? { SetupKeepsStory(s); }
    else { InitIsQuiet(s, pc, ok); QuietKeepsStory(s, StepInit(s, pc, ok)); }
  }

  lemma WorkKeepsAll(s: State, pc: WorkPc)
    requires Inv(s) && s.render == Work(pc) && s.status == Running
    ensures Inv(StepWork(s, pc))
  {
    WorkKeeps(s, pc);
    WorkFrame(s, pc);
    FrameKeepsRest(s, StepWork(s, pc));
    if pc.TestEngine? { TestEngineKeepsStory(s); }
    else if pc.Swap? { SwapKeepsStory(s); }
    else { WorkIsQuiet(s, pc); QuietKeepsStory(s, StepWork(s, pc)); }
  }

  lemma FinalKeepsAll(s: State, pc: FinalPc)
    requires Inv(s) && s.render == Final(pc) && s.status == Running
    ensures Inv(StepFinal(s, pc))
  {
    FinalKeeps(s, pc);
    FinalFrame(s, pc);
    FrameKeepsRest(s, StepFinal(s, pc));
    if pc.FinalDelete? { DeletedKeepsStory(s, Render, StepFinal(s, pc)); }
    else if pc.FinalNull? { NulledKeepsStory(s, Render, StepFinal(s, pc)); }
    else { FinalIsQuiet(s, pc); QuietKeepsStory(s, StepFinal(s, pc)); }
  }

  lemma RenderKeeps(s: State, ok: bool)
    requires Inv(s) && s.status == Running
    ensures Inv(StepRender(s, ok))
  {
    match s.render
    case Unborn | Done =>
    case Start => EdgeKeeps(s, TestWorked);
    case TestWorked => TestKeeps(s);
    case Init(pc) => InitKeepsAll(s, pc, ok);
    case Work(pc) => WorkKeepsAll(s, pc);
    case Final(pc) => FinalKeepsAll(s, pc);
    case StopLog => EdgeKeeps(s, Done);
  }

  lemma StepKeeps(s: State, a: Action)
    requires Inv(s)
    ensures Inv(Step(s, a))
  {
    if s.status == Running {
      match a
      case MainStep => MainKeeps(s);
      case RenderStep(ok) => RenderKeeps(s, ok);
      case Deliver(c) => if s.main.Idle? { ReceiveKeeps(s, c); }
      case RequestDestroy => if s.main.Idle? { RequestKeeps(s); }
      case UpdateStep =>
        var t := StepUpdate(s);
        UpdateFrame(s);
        UpdateKeeps(s, t.update, t.rotate, t.past.increments);
        UpdateKeepsAngle(s);
    }
  }

  lemma {:induction false} ExecKeeps(s: State, schedule: seq<Action>)
    requires Inv(s)
    ensures Inv(Exec(s, schedule))
    decreases |schedule|
  {
    if schedule != [] {
      StepKeeps(s, schedule[0]);
      ExecKeeps(Step(s, schedule[0]), schedule[1..]);
    }
  }

  /** The invariant holds in every state of every run. */
  lemma ReachableInv(s: State)
    requires Reachable(s)
    ensures Inv(s)
  {
    var schedule: seq<Action> :| s == Exec(InitialState(), schedule);
    ExecKeeps(InitialState(), schedule);
  }
}
