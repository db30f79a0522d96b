/** What the protocol of gles_engine.cpp guarantees in every run, and exactly where an unlocked test weakens it. */
module GlesTheorems {
  import opened Common
  import Binary32
  import opened GlesProtocol
  import opened GlesSafety

  // ---------------------------------------------------------------------------------------------------------
  // Engines are made and deleted one at a time

  function Creations(trace: seq<Event>): nat {
    if trace == [] then 0 else
      Creations(trace[..|trace| - 1]) + if trace[|trace| - 1].what.Created? then 1 else 0
  }

  function Deletions(trace: seq<Event>): nat {
    if trace == [] then 0 else
      Deletions(trace[..|trace| - 1]) + if trace[|trace| - 1].what.Deleted? then 1 else 0
  }

  lemma {:induction false} ReplayTotals(trace: seq<Event>)
    requires Replay(trace).Life?
    ensures Creations(trace) == Replay(trace).made
    ensures Creations(trace) - Deletions(trace) == if Replay(trace).live then 1 else 0
  {
    if trace != [] { ReplayTotals(trace[..|trace| - 1]); }
  }

  /** Calls of swap_buffers on an engine, lines 191 to 202 and 255 alike. */
  function Uses(trace: seq<Event>): nat {
    if trace == [] then 0 else
      Uses(trace[..|trace| - 1]) + if trace[|trace| - 1].what.Used? then 1 else 0
  }

  function Tests(trace: seq<Event>): nat {
    if trace == [] then 0 else
      Tests(trace[..|trace| - 1]) + if trace[|trace| - 1].what.Tested? then 1 else 0
  }

  /** An engine is made and not yet set up. */
  predicate Unset(pc: RenderPc) {
    pc.Init? && (pc.i.Publish? || pc.i.Setup?)
  }

  /** A draw is begun and not yet counted. */
  predicate Drawing(pc: RenderPc) {
    DrawSection(pc) && !pc.w.DrawUnlock?
  }

  ghost predicate Counted(s: State) {
    && Uses(s.past.trace) == s.past.draws + s.past.made - (if Unset(s.render) then 1 else 0)
    && Tests(s.past.trace) == s.past.draws + (if Drawing(s.render) then 1 else 0)
    && s.past.passes == s.past.draws + s.past.sleeps + (if s.render.Init? || s.render.Work? then 1 else 0)
         - (if s.render == Work(DrawUnlock) then 1 else 0)
  }

  lemma OneMoreUse(trace: seq<Event>, e: Event)
    ensures Uses(trace + [e]) == Uses(trace) + (if e.what.Used? then 1 else 0)
    ensures Tests(trace + [e]) == Tests(trace) + (if e.what.Tested? then 1 else 0)
  {
    assert (trace + [e])[..|trace|] == trace;
  }

  lemma CommandCounts(s: State, pc: CommandPc)
    requires Counted(s) && s.main == Busy(pc)
    ensures Counted(StepCommand(s, pc))
  {
    OneMoreUse(s.past.trace, Event(Nulled, Main, s.lock));
    if s.engine.Some? { OneMoreUse(s.past.trace, Event(Deleted(s.engine.value), Main, s.lock)); }
  }

  lemma ConstructCounts(s: State, pc: ConstructPc)
    requires Counted(s) && Stages(s) && s.main == Construct(pc)
    ensures Counted(StepConstruct(s, pc))
  {}

  lemma DestructCounts(s: State, pc: DestructPc)
    requires Counted(s) && s.main == Destruct(pc)
    ensures Counted(StepDestruct(s, pc))
  {}

  lemma MainCounts(s: State)
    requires Counted(s) && Stages(s)
    ensures Counted(StepMain(s))
  {
    match s.main
    case Construct(pc) => ConstructCounts(s, pc);
    case Idle =>
    case Busy(pc) => CommandCounts(s, pc);
    case Destruct(pc) => DestructCounts(s, pc);
  }

  lemma InitCounts(s: State, pc: InitPc, ok: bool)
    requires Counted(s) && Pointer(s) && s.render == Init(pc)
    ensures Counted(StepInit(s, pc, ok))
  {
    OneMoreUse(s.past.trace, Event(Created(s.past.made), Render, s.lock));
    if pc.Setup? { OneMoreUse(s.past.trace, Event(Used(s.engine.value), Render, s.lock)); }
  }

  lemma TestCounts(s: State)
    requires Counted(s) && s.render == Work(TestEngine)
    ensures Counted(StepWork(s, TestEngine))
  {
    if s.engine.Some? {
      EventCounts(s, StepWork(s, TestEngine), Event(Tested, Render, s.lock));
    } else {
      assert StepWork(s, TestEngine) == s.(render := Work(Sleep));
    }
  }

  lemma EventCounts(s: State, t: State, e: Event)
    requires Counted(s) && e.what == Tested && s.render == Work(TestEngine)
    requires t == s.(render := Work(DrawLock), past := s.past.(trace := s.past.trace + [e]))
    ensures Counted(t)
  {
    OneMoreUse(s.past.trace, e);
  }

  lemma SwapCounts(s: State)
    requires Counted(s) && s.render == Work(Swap)
    ensures Counted(StepWork(s, Swap))
  {
    OneMoreUse(s.past.trace, Event(if s.engine.Some? then Used(s.engine.value) else NullUse, Render, s.lock));
  }

  lemma WorkCounts(s: State, pc: WorkPc)
    requires Counted(s) && s.render == Work(pc)
    ensures Counted(StepWork(s, pc))
  {
    if pc.TestEngine? { TestCounts(s); }
    if pc.Swap? { SwapCounts(s); }
  }

  lemma FinalCounts(s: State, pc: FinalPc)
    requires Counted(s) && s.render == Final(pc)
    ensures Counted(StepFinal(s, pc))
  {
    OneMoreUse(s.past.trace, Event(Nulled, Render, s.lock));
    if s.engine.Some? { OneMoreUse(s.past.trace, Event(Deleted(s.engine.value), Render, s.lock)); }
  }

  lemma StepCounts(s: State, a: Action)
    requires Inv(s) && Counted(s)
    ensures Counted(Step(s, a))
  {
    if s.status == Running {
      match a
      case MainStep => MainCounts(s);
      case RenderStep(ok) =>
        match s.render {
          case Init(pc) => InitCounts(s, pc, ok);
          case Work(pc) => WorkCounts(s, pc);
          case Final(pc) => FinalCounts(s, pc);
          case _ =>
        }
      case UpdateStep => UpdateFrame(s);
      case _ =>
    }
  }

  lemma {:induction false} ExecCounts(s: State, schedule: seq<Action>)
    requires Inv(s) && Counted(s)
    ensures Counted(Exec(s, schedule))
    decreases |schedule|
  {
    if schedule != [] {
      StepKeeps(s, schedule[0]);
      StepCounts(s, schedule[0]);
      ExecCounts(Step(s, schedule[0]), schedule[1..]);
    }
  }

  /** In every interleaving: each draw and each engine made has used the engine once, but for one that is made and not
      yet set up; each draw has tested the pointer once; and each pass begun draws or sleeps once. */
  lemma UsesAreCounted(s: State)
    requires Reachable(s)
    ensures Uses(s.past.trace) + (if Unset(s.render) then 1 else 0) == s.past.draws + s.past.made
    ensures Tests(s.past.trace) == s.past.draws + (if Drawing(s.render) then 1 else 0)
    ensures !s.render.Init? && !s.render.Work? ==> s.past.passes == s.past.draws + s.past.sleeps
  {
    var schedule: seq<Action> :| s == Exec(InitialState(), schedule);
    ExecCounts(InitialState(), schedule);
  }

  predicate InWindow(s: State) {
    s.render == Init(Publish) || s.main == Busy(TermNull) || s.render == Final(FinalNull)
  }

  /** In every interleaving each engine is created once and deleted at most once, at most one is alive, and outside the
      two windows the pointer is non-null exactly when one is. */
  lemma EngineLifeCycle(s: State, id: EngineId)
    requires Reachable(s)
    ensures Count(s.past.trace, Created(id)) <= 1
    ensures Count(s.past.trace, Deleted(id)) <= Count(s.past.trace, Created(id))
    ensures 0 <= Creations(s.past.trace) - Deletions(s.past.trace) <= 1
    ensures !InWindow(s) ==> (s.engine.Some? <==> Creations(s.past.trace) - Deletions(s.past.trace) == 1)
    ensures s.engine == Some(id) ==> Count(s.past.trace, Created(id)) == 1
    ensures s.engine == Some(id) && !InWindow(s) ==> Count(s.past.trace, Deleted(id)) == 0
  {
    ReachableInv(s);
    ReplayCounts(s.past.trace, id);
    ReplayTotals(s.past.trace);
  }

  /** Every create, delete, use and null store is made under render_mutex by the thread that holds it. */
  lemma EventsAreGuarded(s: State, i: nat)
    requires Reachable(s) && i < |s.past.trace| && !s.past.trace[i].what.Tested?
    ensures s.past.trace[i].holder == Some(s.past.trace[i].who)
  {
    ReachableInv(s);
    assert Guarded(s.past.trace[i]);
  }

  predicate RenderWaits(s: State) {
    s.render == Init(InitLock) || s.render == Work(DrawLock) || s.render == Final(FinalLock)
  }

  predicate MainWaits(s: State) {
    s.main == Busy(TermLock)
  }

  /** render_mutex is never requested by its holder, and a holder can always go on. */
  lemma NoDeadlock(s: State)
    requires Reachable(s)
    ensures RenderWaits(s) ==> s.lock != Some(Render)
    ensures MainWaits(s) ==> s.lock != Some(Main)
    ensures s.status == Running && s.lock == Some(Main) ==> StepMain(s).main != s.main && !MainWaits(s)
    ensures s.status == Running && s.lock == Some(Render) ==>
              StepRender(s, true).render != s.render || StepRender(s, true).status == Faulted
  {
    ReachableInv(s);
  }

  // ---------------------------------------------------------------------------------------------------------
  // The engine seen by a draw

  predicate DrawHolds(pc: RenderPc) {
    pc.Work? && (pc.w.Draw? || pc.w.Swap? || pc.w.DrawUnlock?)
  }

  /** The render thread stays inside the critical section of lines 228 to 256 throughout the schedule. */
  predicate StaysDrawing(s: State, schedule: seq<Action>)
    decreases |schedule|
  {
    DrawHolds(s.render) && (schedule != [] ==> StaysDrawing(Step(s, schedule[0]), schedule[1..]))
  }

  lemma DrawRender(s: State, ok: bool)
    requires Inv(s) && DrawHolds(s.render) && DrawHolds(StepRender(s, ok).render)
    ensures StepRender(s, ok).engine == s.engine && StepRender(s, ok).past.made == s.past.made
  {}

  lemma DrawMain(s: State)
    requires Inv(s) && s.lock == Some(Render)
    ensures StepMain(s).engine == s.engine && StepMain(s).past.made == s.past.made
  {}

  lemma DrawStep(s: State, a: Action)
    requires Inv(s) && DrawHolds(s.render) && DrawHolds(Step(s, a).render)
    ensures Step(s, a).engine == s.engine && Step(s, a).past.made == s.past.made
  {
    if s.status == Running {
      match a
      case RenderStep(ok) => DrawRender(s, ok);
      case MainStep => DrawMain(s);
      case UpdateStep => UpdateFrame(s);
      case _ =>
    }
  }

  /** The pointer is the same from the lock of line 228 to the unlock of line 256, whatever the others do. */
  lemma {:induction false} DrawSectionFixed(s: State, schedule: seq<Action>)
    requires Inv(s) && StaysDrawing(s, schedule)
    ensures Exec(s, schedule).engine == s.engine
    ensures Exec(s, schedule).past.made == s.past.made
    decreases |schedule|
  {
    if schedule != [] {
      StepKeeps(s, schedule[0]);
      DrawStep(s, schedule[0]);
      DrawSectionFixed(Step(s, schedule[0]), schedule[1..]);
    }
  }

  /** swap_buffers goes through a null pointer exactly when the pointer was nulled after the unlocked test of line 226;
      otherwise it uses an engine that is alive. */
  lemma SwapThroughNull(s: State, ok: bool)
    requires Reachable(s) && s.status == Running && s.render == Work(Swap)
    ensures Step(s, RenderStep(ok)).status == Faulted <==> NulledSinceTest(s.past.trace)
    ensures !NulledSinceTest(s.past.trace) ==> s.engine.Some? && Replay(s.past.trace) == Life(s.engine.value + 1, true)
  {
    ReachableInv(s);
  }

  /** Only main can null the pointer between the test and the lock, and nobody once the draw holds the lock. */
  lemma NullingStep(s: State, a: Action)
    requires Reachable(s) && s.status == Running && DrawSection(s.render)
    requires !NulledSinceTest(s.past.trace) && NulledSinceTest(Step(s, a).past.trace)
    ensures a == MainStep && s.main == Busy(TermNull) && s.render == Work(DrawLock)
  {
    ReachableInv(s);
    if a.RenderStep? {
      RenderDraws(s, a.ok);
    }
  }

  lemma RenderDraws(s: State, ok: bool)
    requires Inv(s) && s.status == Running && DrawSection(s.render) && !NulledSinceTest(s.past.trace)
    ensures !NulledSinceTest(StepRender(s, ok).past.trace)
  {
    if s.render == Work(Swap) {
      OneMore(s.past.trace, Event(Used(s.engine.value), Render, s.lock));
    }
  }

  // ---------------------------------------------------------------------------------------------------------
  // Between a completed destroy_display and the next init_display

  /** The render thread has read render_thread_initialized as true in this pass and has not made the engine yet. */
  predicate Owes(pc: RenderPc) {
    pc.Init? && (pc.i.TestNull? || pc.i.InitLock? || pc.i.Recheck? || pc.i.Create?)
  }

  function Debt(pc: RenderPc): nat {
    if Owes(pc) then 1 else 0
  }

  /** The schedule issues no init_display. */
  predicate WithoutInit(schedule: seq<Action>) {
    forall i :: 0 <= i < |schedule| ==> schedule[i] != Deliver(InitWindow)
  }

  predicate Uninitialized(s: State) {
    !s.flags.initialized && s.main != Busy(InitStore)
  }

  lemma QuietRender(s: State, ok: bool)
    requires Uninitialized(s)
    ensures var t := StepRender(s, ok); Uninitialized(t) && t.past.made + Debt(t.render) <= s.past.made + Debt(s.render)
  {}

  lemma QuietMain(s: State)
    requires Uninitialized(s)
    ensures var t := StepMain(s); Uninitialized(t) && t.past.made == s.past.made && Debt(t.render) <= Debt(s.render)
  {}

  lemma QuietStep(s: State, a: Action)
    requires Uninitialized(s) && a != Deliver(InitWindow)
    ensures var t := Step(s, a); Uninitialized(t) && t.past.made + Debt(t.render) <= s.past.made + Debt(s.render)
  {
    match a
    case RenderStep(ok) => QuietRender(s, ok);
    case MainStep => QuietMain(s);
    case UpdateStep => UpdateFrame(s);
    case _ =>
  }

  /** After the store of line 160 the engines made until the next init_display are at most the one that the render
      thread owed at that store, having read true at line 219 before it. */
  lemma {:induction false} CreationsAfterStore(s: State, schedule: seq<Action>)
    requires Uninitialized(s) && WithoutInit(schedule)
    ensures var t := Exec(s, schedule); t.past.made + Debt(t.render) <= s.past.made + Debt(s.render)
    decreases |schedule|
  {
    if schedule != [] {
      var a := schedule[0];
      QuietStep(s, a);
      assert WithoutInit(schedule[1..]) by {
        forall i | 0 <= i < |schedule| - 1 ensures schedule[1..][i] != Deliver(InitWindow) {
          assert schedule[1..][i] == schedule[i + 1];
        }
      }
      CreationsAfterStore(Step(s, a), schedule[1..]);
    }
  }

  /** No engine, none on its way, and none owed. */
  predicate Bare(s: State) {
    s.engine.None? && s.render != Init(Publish) && !Owes(s.render)
  }

  lemma BareRender(s: State, ok: bool)
    requires Inv(s) && Uninitialized(s) && Bare(s)
    ensures Bare(StepRender(s, ok))
  {}

  lemma BareMain(s: State)
    requires Bare(s) && s.main != Construct(StartRender)
    ensures Bare(StepMain(s))
  {}

  lemma BareStep(s: State, a: Action)
    requires Inv(s) && Uninitialized(s) && Bare(s)
    ensures Bare(Step(s, a))
  {
    match a
    case RenderStep(ok) => BareRender(s, ok);
    case MainStep => if s.main != Construct(StartRender) { BareMain(s); }
    case UpdateStep => UpdateFrame(s);
    case _ =>
  }

  /** With nothing owed and no engine, the pointer stays null until the next init_display. */
  lemma {:induction false} NullStays(s: State, schedule: seq<Action>)
    requires Inv(s) && Uninitialized(s) && WithoutInit(schedule)
    requires Bare(s)
    ensures Exec(s, schedule).engine.None?
    decreases |schedule|
  {
    if schedule != [] {
      var a := schedule[0];
      StepKeeps(s, a);
      QuietStep(s, a);
      BareStep(s, a);
      assert WithoutInit(schedule[1..]) by {
        forall i | 0 <= i < |schedule| - 1 ensures schedule[1..][i] != Deliver(InitWindow) {
          assert schedule[1..][i] == schedule[i + 1];
        }
      }
      NullStays(Step(s, a), schedule[1..]);
    }
  }

  /** The state right after the unlock that ends a destroy_display. */
  predicate JustDestroyed(s: State) {
    s.main == Busy(TermUnlock) && s.status == Running
  }

  /** After a completed destroy_display, some run without init_display brings an engine back exactly when the render
      thread owed one. It then holds none of the lock, so it waits at line 219 or 221. */
  lemma EngineComesBack(s: State)
    requires Reachable(s) && JustDestroyed(s)
    ensures var t := Step(s, MainStep);
            (exists schedule :: WithoutInit(schedule) && Exec(t, schedule).engine.Some?) <==> Owes(t.render)
  {
    ReachableInv(s);
    StepKeeps(s, MainStep);
    var t := Step(s, MainStep);
    if Owes(t.render) {
      var schedule := OwedRun(t);
      assert WithoutInit(schedule) && Exec(t, schedule).engine.Some?;
    } else {
      forall schedule | WithoutInit(schedule) ensures Exec(t, schedule).engine.None? {
        NullStays(t, schedule);
      }
    }
  }

  lemma OwedRun(t: State) returns (schedule: seq<Action>)
    requires Inv(t) && t.status == Running && t.main.Idle? && t.engine.None? && t.lock.None? && Owes(t.render)
    ensures WithoutInit(schedule) && Exec(t, schedule).engine.Some?
  {
    var r := RenderStep(true);
    if t.render == Init(TestNull) {
      var u := Step(t, r);
      StepKeeps(t, r);
      var rest := FromInitLock(u);
      schedule := [r] + rest;
      assert schedule[1..] == rest;
    } else {
      schedule := FromInitLock(t);
    }
  }

  lemma FromInitLock(t: State) returns (schedule: seq<Action>)
    requires t.status == Running && t.engine.None? && t.lock.None? && t.render == Init(InitLock)
    ensures WithoutInit(schedule) && Exec(t, schedule).engine.Some?
  {
    var r := RenderStep(true);
    schedule := [r, r, r, r];
    var t1 := Step(t, r);
    var t2 := Step(t1, r);
    var t3 := Step(t2, r);
    assert schedule[1..] == [r, r, r] && [r, r, r][1..] == [r, r] && [r, r][1..] == [r] && [r][1..] == [];
    assert Exec(t, schedule) == Exec(t1, [r, r, r]) == Exec(t2, [r, r]) == Exec(t3, [r]) == Exec(Step(t3, r), []);
  }

  // ---------------------------------------------------------------------------------------------------------
  // After the render thread's own destroy_display

  lemma LeftStep(s: State, a: Action)
    requires Inv(s) && Left(s.render)
    ensures var t := Step(s, a); Left(t.render) && t.past.made == s.past.made
  {}

  /** Once the render thread is past its final destroy_display nothing is alive, and nothing is ever made again. */
  lemma {:induction false} NothingAfterStop(s: State, schedule: seq<Action>)
    requires Inv(s) && Left(s.render)
    ensures var t := Exec(s, schedule);
            && t.engine.None? && !t.flags.initialized && t.past.made == s.past.made
            && Creations(t.past.trace) == Deletions(t.past.trace) == s.past.made
    decreases |schedule|
  {
    if schedule == [] {
      ReplayTotals(s.past.trace);
      StoppedMain(s);
    } else {
      LeftStep(s, schedule[0]);
      StepKeeps(s, schedule[0]);
      NothingAfterStop(Step(s, schedule[0]), schedule[1..]);
    }
  }

  lemma StoppedMain(s: State)
    requires Inv(s) && Left(s.render)
    ensures !Live(s)
  {}

  // ---------------------------------------------------------------------------------------------------------
  // destroy_display with nobody in the way

  lemma TermLocks(s: State) returns (t: State)
    requires Inv(s) && s.status == Running && s.main == Busy(TermStore) && s.lock.None?
    ensures Inv(t) && t == s.(flags := s.flags.(initialized := false), lock := Some(Main), main := Busy(TermDelete))
    ensures t == Step(Step(s, MainStep), MainStep)
  {
    StepKeeps(s, MainStep);
    t := Step(Step(s, MainStep), MainStep);
    StepKeeps(Step(s, MainStep), MainStep);
  }

  lemma TermDeletes(s: State) returns (t: State)
    requires Inv(s) && s.status == Running && s.main == Busy(TermDelete)
    ensures Inv(t) && t == s.(engine := None, lock := None, main := Idle, past := s.past.(trace := t.past.trace))
    ensures t == Step(Step(Step(s, MainStep), MainStep), MainStep)
    ensures Creations(t.past.trace) == Deletions(t.past.trace) == s.past.made
  {
    t := ThreeSteps(s);
    TermTail(s);
    NoneLeft(t);
  }

  lemma ThreeSteps(s: State) returns (t: State)
    requires Inv(s)
    ensures Inv(t) && t == Step(Step(Step(s, MainStep), MainStep), MainStep)
  {
    StepKeeps(s, MainStep);
    StepKeeps(Step(s, MainStep), MainStep);
    t := Step(Step(Step(s, MainStep), MainStep), MainStep);
    StepKeeps(Step(Step(s, MainStep), MainStep), MainStep);
  }

  lemma TermTail(s: State)
    requires s.status == Running && s.main == Busy(TermDelete)
    ensures var t := Step(Step(Step(s, MainStep), MainStep), MainStep);
            t == s.(engine := None, lock := None, main := Idle, past := s.past.(trace := t.past.trace))
  {
    var u := StepMain(s);
    assert u.main == Busy(TermNull) && u == s.(main := u.main, past := s.past.(trace := u.past.trace));
    var v := StepMain(u);
    assert v == u.(main := Busy(TermUnlock), engine := None, past := u.past.(trace := v.past.trace));
  }

  lemma NoneLeft(t: State)
    requires Locking(t) && Story(t) && t.lock.None? && t.main.Idle? && t.engine.None?
    ensures Creations(t.past.trace) == Deletions(t.past.trace) == t.past.made
  {
    ReplayTotals(t.past.trace);
  }

  // ---------------------------------------------------------------------------------------------------------
  // is_enabled and the angle

  /** When main is between commands, is_enabled is what the last INIT, TERM, GAINED or LOST said. */
  lemma EnabledByLastCommand(s: State)
    requires Reachable(s) && s.main.Idle?
    ensures s.flags.animated <==> LastEnables(s.past.commands)
  {
    ReachableInv(s);
  }

  /** In every state of every run the angle is what the executed increments accumulate to in binary32: half their
      number, up to 2^24 increments, and 2^23 from then on. */
  lemma AngleClosedForm(s: State)
    requires Reachable(s)
    ensures s.rotate == Binary32.Accumulate(s.past.increments)
    ensures s.rotate == Binary32.Min(s.past.increments, Binary32.LIMIT)
  {
    ReachableInv(s);
    Binary32.RotationClosedForm(s.past.increments);
  }
}
