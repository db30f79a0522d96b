/**
 The engine object in the form of the source: m_d's fields, written in place. First the single steps of the three
 threads and the choices of main, each proved to do what the transition system says and to keep the invariant; then
 whole runs in any interleaving, and the whole calls of the source with nobody in the way.
*/
module GlesEngine {
  import opened Common
  import Binary32
  import P = GlesProtocol
  import opened GlesSafety
  import opened GlesProgress
  import opened GlesShutdown
  import GlesTheorems
  import C = GlesCalls

  class Engine {
    // where the threads are
    var main: P.MainPc
    var render: P.RenderPc
    var update: P.UpdatePc
    // m_d
    var displayEngine: Option<P.EngineId>
    var renderMutex: Option<P.Thread>
    var renderThreadWorked: bool
    var renderThreadAnimated: bool
    var renderThreadInitialized: bool
    var dataThreadWorked: bool
    var dataThreadUpdated: bool
    var rotate: nat
    // what is freed at the end, and whether the process still runs
    var calculatorFreed: bool
    var dataFreed: bool
    var loggerFreed: bool
    var status: P.Status
    // the record of the run
    var past: P.Past

    ghost function State(): P.State
      reads this
    {
      P.State(main, render, update,
              P.Flags(renderThreadWorked, renderThreadAnimated, renderThreadInitialized, dataThreadWorked,
                  dataThreadUpdated),
              displayEngine, renderMutex, rotate,
              P.Freed(calculatorFreed, dataFreed, loggerFreed), status, past)
    }

    constructor ()
      ensures State() == P.InitialState()
      ensures Inv(State())
    {
      main, render, update := P.Construct(P.StoreWorked), P.Unborn, P.Unhatched;
      displayEngine, renderMutex, rotate := None, None, 0;
      renderThreadWorked, renderThreadAnimated, renderThreadInitialized := false, false, false;
      dataThreadWorked, dataThreadUpdated := false, false;
      calculatorFreed, dataFreed, loggerFreed := false, false, false;
      status := P.Running;
      past := P.Past(0, [], [], 0, 0, 0, 0);
    }

    method Record(what: P.What, who: P.Thread)
      modifies this
      ensures State() == P.Record(old(State()), what, who)
    {
      past := past.(trace := past.trace + [P.Event(what, who, renderMutex)]);
    }

    method DeleteEngine(who: P.Thread)
      modifies this
      ensures State() == P.DeleteEngine(old(State()), who)
    {
      if displayEngine.Some? { Record(P.Deleted(displayEngine.value), who); }
    }

    method NullEngine(who: P.Thread)
      modifies this
      ensures State() == P.NullEngine(old(State()), who)
    {
      Record(P.Nulled, who);
      displayEngine := None;
    }

    // -------------------------------------------------------------------------------------------------------
    // The main thread

    method StepConstruct(pc: P.ConstructPc)
      modifies this
      ensures State() == P.StepConstruct(old(State()), pc)
    {
      match pc
      case StoreWorked => renderThreadWorked := true; main := P.Construct(P.StartRender);
      case StartRender => render := P.Start; main := P.Construct(P.StoreDataWorked);
      case StoreDataWorked => dataThreadWorked := true; main := P.Construct(P.StoreDataUpdated);
      case StoreDataUpdated => dataThreadUpdated := true; main := P.Construct(P.StartUpdate);
      case StartUpdate => update := P.Begin; main := P.Idle;
    }

    method StepCommand(pc: P.CommandPc)
      modifies this
      ensures State() == P.StepCommand(old(State()), pc)
    {
      match pc
      case InitStore => renderThreadInitialized := true; main := P.Busy(P.Enable);
      case Enable => renderThreadAnimated := true; main := P.Idle;
      case Disable => renderThreadAnimated := false; main := P.Idle;
      case TermDisable => renderThreadAnimated := false; main := P.Busy(P.TermStore);
      case TermStore => renderThreadInitialized := false; main := P.Busy(P.TermLock);
      case TermLock => if renderMutex.None? { renderMutex := Some(P.Main); main := P.Busy(P.TermDelete); }
      case TermDelete => DeleteEngine(P.Main); main := P.Busy(P.TermNull);
      case TermNull => NullEngine(P.Main); main := P.Busy(P.TermUnlock);
      case TermUnlock => renderMutex := None; main := P.Idle;
    }

    method StepStop(pc: P.DestructPc)
      requires Rank(pc) <= 8
      modifies this
      ensures State() == P.StepDestruct(old(State()), pc)
    {
      match pc
      case StopWorked => renderThreadWorked := false; main := P.Destruct(P.StopAnimated);
      case StopAnimated => renderThreadAnimated := false; main := P.Destruct(P.StopInitialized);
      case StopInitialized => renderThreadInitialized := false; main := P.Destruct(P.SleepRender);
      case SleepRender => main := P.Destruct(P.DropRender);
      case DropRender => main := P.Destruct(P.StopDataWorked);
      case StopDataWorked => dataThreadWorked := false; main := P.Destruct(P.StopDataUpdated);
      case StopDataUpdated => dataThreadUpdated := false; main := P.Destruct(P.SleepUpdate);
      case SleepUpdate => main := P.Destruct(P.DropUpdate);
      case DropUpdate => main := P.Destruct(P.FreeCalculator);
    }

    method StepDestruct(pc: P.DestructPc)
      modifies this
      ensures State() == P.StepDestruct(old(State()), pc)
    {
      match pc
      case FreeCalculator => calculatorFreed := true; main := P.Destruct(P.FreeData);
      case FreeData => dataFreed := true; main := P.Destruct(P.FreeLogger);
      case FreeLogger => loggerFreed := true; main := P.Destruct(P.Over);
      case Over =>
      case _ => StepStop(pc);
    }

    /** One step of main: it keeps the invariant and what main guarantees to the other threads. */
    method MainStep()
      requires Inv(State())
      modifies this
      ensures State() == P.Step(old(State()), P.Action.MainStep) && Inv(State())
      ensures old(status).Running? ==> C.MainGuarantee(old(State()), State())
    {
      StepKeeps(State(), P.Action.MainStep);
      if status.Running? {
        C.MainGuarantees(State());
        match main
        case Construct(pc) => StepConstruct(pc);
        case Idle =>
        case Busy(pc) => StepCommand(pc);
        case Destruct(pc) => StepDestruct(pc);
      }
    }

    method Deliver(command: P.Command)
      requires Inv(State())
      modifies this
      ensures State() == P.Step(old(State()), P.Action.Deliver(command)) && Inv(State())
    {
      StepKeeps(State(), P.Action.Deliver(command));
      if status.Running? && main.Idle? {
        past := past.(commands := past.commands + [command]);
        main := P.AfterCommand(command);
      }
    }

    method RequestDestroy()
      requires Inv(State())
      modifies this
      ensures State() == P.Step(old(State()), P.Action.RequestDestroy) && Inv(State())
    {
      StepKeeps(State(), P.Action.RequestDestroy);
      if status.Running? && main.Idle? { main := P.Destruct(P.StopWorked); }
    }

    // -------------------------------------------------------------------------------------------------------
    // The render thread

    method StepInit(pc: P.InitPc, ok: bool)
      modifies this
      ensures State() == P.StepInit(old(State()), pc, ok)
    {
      match pc
      case TestInit => render := if renderThreadInitialized then P.Init(P.TestNull) else P.Work(P.TestAnimated);
      case TestNull => render := if displayEngine.None? then P.Init(P.InitLock) else P.Work(P.TestAnimated);
      case InitLock => if renderMutex.None? { renderMutex := Some(P.Render); render := P.Init(P.Recheck); }
      case Recheck => render := if displayEngine.Some? then P.Init(P.InitUnlock) else P.Init(P.Create);
      case Create =>
        if ok {
          Record(P.Created(past.made), P.Render);
          past := past.(made := past.made + 1);
          render := P.Init(P.Publish);
        } else {
          status := P.Thrown;
        }
      case Publish =>
        displayEngine := if past.made > 0 then Some(past.made - 1) else None;
        render := P.Init(P.Setup);
      case Setup =>
        if displayEngine.Some? { Record(P.Used(displayEngine.value), P.Render); }
        render := P.Init(P.InitUnlock);
      case InitUnlock => renderMutex := None; render := P.Work(P.TestAnimated);
    }

    method StepWork(pc: P.WorkPc)
      modifies this
      ensures State() == P.StepWork(old(State()), pc)
    {
      match pc
      case TestAnimated => render := if renderThreadAnimated then P.Work(P.TestEngine) else P.Work(P.Sleep);
      case TestEngine =>
        if displayEngine.Some? {
          Record(P.Tested, P.Render);
          render := P.Work(P.DrawLock);
        } else {
          render := P.Work(P.Sleep);
        }
      case DrawLock => if renderMutex.None? { renderMutex := Some(P.Render); render := P.Work(P.Draw); }
      case Draw => render := P.Work(P.Swap);
      case Swap =>
        if displayEngine.Some? {
          Record(P.Used(displayEngine.value), P.Render);
          past := past.(draws := past.draws + 1);
          render := P.Work(P.DrawUnlock);
        } else {
          Record(P.NullUse, P.Render);
          status := P.Faulted;
        }
      case DrawUnlock => renderMutex := None; render := P.TestWorked;
      case Sleep => past := past.(sleeps := past.sleeps + 1); render := P.TestWorked;
    }

    method StepFinal(pc: P.FinalPc)
      modifies this
      ensures State() == P.StepFinal(old(State()), pc)
    {
      match pc
      case FinalStore => renderThreadInitialized := false; render := P.Final(P.FinalLock);
      case FinalLock => if renderMutex.None? { renderMutex := Some(P.Render); render := P.Final(P.FinalDelete); }
      case FinalDelete => DeleteEngine(P.Render); render := P.Final(P.FinalNull);
      case FinalNull => NullEngine(P.Render); render := P.Final(P.FinalUnlock);
      case FinalUnlock => renderMutex := None; render := P.StopLog;
    }

    method MoveRender(ok: bool)
      modifies this
      ensures State() == P.StepRender(old(State()), ok)
    {
      match render
      case Unborn | Done =>
      case Start => render := P.TestWorked;
      case TestWorked =>
        if renderThreadWorked {
          past := past.(passes := past.passes + 1);
          render := P.Init(P.TestInit);
        } else {
          render := P.Final(P.FinalStore);
        }
      case Init(pc) => StepInit(pc, ok);
      case Work(pc) => StepWork(pc);
      case Final(pc) => StepFinal(pc);
      case StopLog => render := P.Done;
    }

    /** One step of the render thread: it keeps the invariant and what the render thread guarantees to the others. */
    method RenderStep(ok: bool)
      requires Inv(State())
      modifies this
      ensures State() == P.Step(old(State()), P.Action.RenderStep(ok)) && Inv(State())
      ensures old(status).Running? ==> C.RenderGuarantee(old(State()), State(), ok)
    {
      StepKeeps(State(), P.Action.RenderStep(ok));
      if status.Running? {
        C.RenderGuarantees(State(), ok);
        MoveRender(ok);
      }
    }

    // -------------------------------------------------------------------------------------------------------
    // The update thread

    method MoveUpdate()
      modifies this
      ensures State() == P.StepUpdate(old(State()))
    {
      match update
      case Unhatched | Ended =>
      case Begin => update := P.TestData;
      case TestData => update := if dataThreadWorked then P.TestUpdated else P.EndLog;
      case TestUpdated => update := if dataThreadUpdated then P.Add else P.Nap;
      case Add =>
        rotate := Binary32.AddDelta(rotate);
        past := past.(increments := past.increments + 1);
        update := P.Nap;
      case Nap => update := P.TestData;
      case EndLog => update := P.Ended;
    }

    /** One step of the update thread: it touches nothing but the angle, which is the binary32 sum of the increments. */
    method UpdateStep()
      requires Inv(State())
      modifies this
      ensures State() == P.Step(old(State()), P.Action.UpdateStep) && Inv(State())
      ensures old(status).Running? ==> C.UpdateGuarantee(old(State()), State())
    {
      StepKeeps(State(), P.Action.UpdateStep);
      if status.Running? {
        C.UpdateGuarantees(State());
        MoveUpdate();
      }
    }

    // -------------------------------------------------------------------------------------------------------
    // Whole runs, and whole calls

    method Take(a: P.Action)
      requires Inv(State())
      modifies this
      ensures State() == P.Step(old(State()), a) && Inv(State())
    {
      match a
      case MainStep => MainStep();
      case Deliver(c) => Deliver(c);
      case RequestDestroy => RequestDestroy();
      case RenderStep(ok) => RenderStep(ok);
      case UpdateStep => UpdateStep();
    }

    /** Any interleaving: the object is where the transition system says, and keeps the invariant. */
    method Run(schedule: seq<P.Action>)
      requires Inv(State())
      modifies this
      ensures State() == P.Exec(old(State()), schedule)
      ensures Inv(State())
    {
      var i := 0;
      while i < |schedule|
        invariant 0 <= i <= |schedule| && Inv(State())
        invariant P.Exec(State(), schedule[i..]) == P.Exec(old(State()), schedule)
      {
        assert schedule[i..][0] == schedule[i] && schedule[i..][1..] == schedule[i + 1..];
        Take(schedule[i]);
        i := i + 1;
      }
      assert schedule[i..] == [];
    }

    /** is_enabled, asked by main between commands. */
    method IsEnabled() returns (enabled: bool)
      requires Inv(State()) && main.Idle?
      ensures enabled <==> P.LastEnables(past.commands)
    {
      enabled := renderThreadAnimated;
    }

    /** destroy_display with nobody in the way: the engine, if there is one, is deleted and the pointer nulled. */
    method DestroyDisplay()
      requires Inv(State()) && status.Running? && main == P.Busy(P.TermStore) && renderMutex.None?
      modifies this
      ensures Inv(State()) && main.Idle? && renderMutex.None? && displayEngine.None? && !renderThreadInitialized
      ensures renderThreadAnimated == old(renderThreadAnimated) && render == old(render) && past.made == old(past.made)
      ensures GlesTheorems.Creations(past.trace) == GlesTheorems.Deletions(past.trace)
    {
      ghost var s := GlesTheorems.TermLocks(State());
      MainStep();
      MainStep();
      ghost var t := GlesTheorems.TermDeletes(s);
      MainStep();
      MainStep();
      MainStep();
    }

    /** engine_handle_cmd with nobody in the way. Afterwards is_enabled is what the last INIT, TERM, GAINED or LOST
        said; INIT_WINDOW has asked for a display and TERM_WINDOW left none; no other command touches the display, and
        none makes an engine. */
    method HandleCommand(command: P.Command)
      requires Inv(State()) && status.Running? && main.Idle? && renderMutex.None?
      modifies this
      ensures Inv(State()) && status.Running? && main.Idle? && renderMutex.None?
      ensures past.commands == old(past.commands) + [command] && renderThreadAnimated == P.LastEnables(past.commands)
      ensures past.made == old(past.made) && render == old(render) && update == old(update) && rotate == old(rotate)
      ensures command.InitWindow? ==> renderThreadInitialized && displayEngine == old(displayEngine)
      ensures command.TermWindow? ==>
                && !renderThreadInitialized && displayEngine.None?
                && P.Replay(past.trace) == P.Life(past.made, false)
      ensures !command.InitWindow? && !command.TermWindow? ==>
                renderThreadInitialized == old(renderThreadInitialized) && displayEngine == old(displayEngine)
    {
      ghost var s0 := State();
      C.HandlingBegins(s0, command);
      Deliver(command);
      while main.Busy?
        invariant Inv(State()) && C.Handling(s0, State(), command)
        decreases C.ToIdle(main)
      {
        C.HandlingGoesOn(s0, State(), command, main.b);
        MainStep();
      }
    }

    /** One turn of the loop of render() with nobody in the way. If the display is initialized and there is no engine,
        one is made and used; a failing construction ends the process. Then the pass draws if animated and there is an
        engine, which it uses with the mutex held, and sleeps otherwise. */
    method RenderPass(ok: bool)
      requires Inv(State()) && status.Running? && render.TestWorked? && renderThreadWorked && !MainHolds(main)
      modifies this
      ensures Inv(State()) && RenderOnly(old(State()), State())
      ensures status.Thrown? <==> C.Makes(old(State())) && !ok
      ensures !status.Thrown? ==>
                && status.Running? && render.TestWorked? && past.passes == old(past.passes) + 1
                && displayEngine == C.Wanted(old(State()))
                && (if old(renderThreadAnimated) && displayEngine.Some?
                    then past.draws == old(past.draws) + 1 && past.sleeps == old(past.sleeps)
                    else past.draws == old(past.draws) && past.sleeps == old(past.sleeps) + 1)
      ensures !status.Thrown? ==>
                past.trace
                == old(past.trace)
                   + (if C.Makes(old(State()))
                      then [C.Locked(P.Created(old(past.made))), C.Locked(P.Used(old(past.made)))] else [])
                   + (if old(renderThreadAnimated) && displayEngine.Some?
                      then [P.Event(P.Tested, P.Render, None), C.Locked(P.Used(displayEngine.value))] else [])
    {
      ghost var s0 := State();
      C.PassBegins(s0, ok);
      RenderStep(ok);
      while status.Running? && !render.TestWorked?
        invariant Inv(State()) && C.Passing(s0, State(), ok)
        decreases C.TurnLeft(State())
      {
        C.PassingGoesOn(s0, State(), ok);
        RenderStep(ok);
      }
    }

    /** The end of render(), lines 217 and 263 to 265: whatever engine there is is deleted. */
    method StopRender()
      requires Inv(State()) && status.Running? && render.TestWorked? && !renderThreadWorked && !MainHolds(main)
      modifies this
      ensures Inv(State()) && RenderOnly(old(State()), State()) && status.Running? && render.Done?
      ensures displayEngine.None? && !renderThreadInitialized && past.made == old(past.made)
      ensures GlesTheorems.Creations(past.trace) == GlesTheorems.Deletions(past.trace) == past.made
    {
      ghost var s0 := State();
      while !render.Done?
        invariant Inv(State()) && C.MidStop(s0, State())
        decreases ToEnd(render)
      {
        C.MidStopGoesOn(s0, State(), true);
        RenderStep(true);
      }
      GlesTheorems.NothingAfterStop(State(), []);
    }

    /** One turn of the loop of update(): an increment if data_thread_updated, and nothing else. */
    method UpdatePass()
      requires Inv(State()) && status.Running? && update.TestData? && dataThreadWorked
      modifies this
      ensures Inv(State()) && update.TestData?
      ensures past.increments == old(past.increments) + (if old(dataThreadUpdated) then 1 else 0)
      ensures rotate == Binary32.Accumulate(past.increments)
      ensures C.Turned(old(State()), State())
    {
      ghost var s0 := State();
      C.UpdateBegins(s0);
      UpdateStep();
      while !update.TestData?
        invariant Inv(State()) && status.Running?
        invariant if update.TestData? then C.Turned(s0, State()) else C.MidUpdate(s0, State())
        decreases C.ToData(update)
      {
        C.MidUpdateGoesOn(s0, State());
        UpdateStep();
      }
      Binary32.RotationClosedForm(past.increments);
    }

    /** The destructor and the end of android_main with nobody in the way: everything is freed and every flag is false,
        while the threads stay where they were. So what is freed is still in use unless both were over. */
    method Destroy()
      requires Inv(State()) && status.Running? && main.Idle?
      modifies this
      ensures Inv(State()) && main == P.Destruct(P.Over) && calculatorFreed && dataFreed && loggerFreed
      ensures !renderThreadWorked && !renderThreadAnimated && !renderThreadInitialized
      ensures !dataThreadWorked && !dataThreadUpdated
      ensures render == old(render) && update == old(update) && displayEngine == old(displayEngine)
      ensures past == old(past) && rotate == old(rotate) && renderMutex == old(renderMutex)
      ensures Dangling(State()) <==> !(old(render).Done? && old(update).Ended?)
    {
      ghost var s0 := State();
      RequestDestroy();
      while main != P.Destruct(P.Over)
        invariant Inv(State()) && C.MidDestruct(s0, State())
        decreases if main.Destruct? then 12 - Rank(main.d) else 0
      {
        C.MidDestructGoesOn(s0, State(), main.d);
        MainStep();
      }
      C.DestructOver(s0, State());
    }
  }
}
