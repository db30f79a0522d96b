/** The EGL handles in every interleaving of the threads of gles-engine (gles_engine.cpp with egl_engine.cpp). */
module EglThreads {
  import opened Common
  import opened GlesProtocol
  import opened GlesSafety
  import opened EglEngine

  /** The surface and the context of each engine. */
  type Owned = EngineId -> set<Handle>

  /** Every engine has handles, and its own. */
  ghost predicate Distinct(own: Owned) {
    (forall i :: own(i) != {}) && forall i, j :: i != j ==> own(i) !! own(j)
  }

  /** EGL after the events of a run. */
  function After(trace: seq<Event>, own: Owned): Egl {
    if trace == [] then Nothing()
    else Happens(After(trace[..|trace| - 1], own), trace[|trace| - 1], own)
  }

  function Happens(e: Egl, event: Event, own: Owned): Egl {
    match event.what
    case Created(id) => Opened(e, own(id), event.who)
    case Deleted(_) => Closed(e, event.who)
    case Used(_) | NullUse | Nulled | Tested => e
  }

  // ---------------------------------------------------------------------------------------------------------
  // Who does what

  /** Only the render thread makes and uses engines; main deletes them too. */
  predicate ByWhom(e: Event) {
    (e.what.Created? || e.what.Used? ==> e.who == Render) && (e.what.Deleted? ==> e.who != Update)
  }

  predicate AllByWhom(trace: seq<Event>) {
    forall i :: 0 <= i < |trace| ==> ByWhom(trace[i])
  }

  lemma InitByWhom(s: State, pc: InitPc, ok: bool)
    requires AllByWhom(s.past.trace)
    ensures AllByWhom(StepInit(s, pc, ok).past.trace)
  {}

  lemma WorkByWhom(s: State, pc: WorkPc)
    requires AllByWhom(s.past.trace)
    ensures AllByWhom(StepWork(s, pc).past.trace)
  {}

  lemma FinalByWhom(s: State, pc: FinalPc)
    requires AllByWhom(s.past.trace)
    ensures AllByWhom(StepFinal(s, pc).past.trace)
  {}

  lemma CommandByWhom(s: State, pc: CommandPc)
    requires AllByWhom(s.past.trace)
    ensures AllByWhom(StepCommand(s, pc).past.trace)
  {}

  lemma MainByWhom(s: State)
    requires AllByWhom(s.past.trace)
    ensures AllByWhom(StepMain(s).past.trace)
  {
    match s.main
    case Construct(pc) =>
    case Idle =>
    case Busy(pc) => CommandByWhom(s, pc);
    case Destruct(pc) =>
  }

  lemma StepByWhom(s: State, a: Action)
    requires AllByWhom(s.past.trace)
    ensures AllByWhom(Step(s, a).past.trace)
  {
    match a
    case MainStep => MainByWhom(s);
    case RenderStep(ok) =>
      match s.render {
        case Init(pc) => InitByWhom(s, pc, ok);
        case Work(pc) => WorkByWhom(s, pc);
        case Final(pc) => FinalByWhom(s, pc);
        case _ =>
      }
    case UpdateStep => UpdateFrame(s);
    case _ =>
  }

  lemma {:induction false} ExecByWhom(s: State, schedule: seq<Action>)
    requires AllByWhom(s.past.trace)
    ensures AllByWhom(Exec(s, schedule).past.trace)
    decreases |schedule|
  {
    if schedule != [] {
      StepByWhom(s, schedule[0]);
      ExecByWhom(Step(s, schedule[0]), schedule[1..]);
    }
  }

  lemma ReachableByWhom(s: State)
    requires Reachable(s)
    ensures AllByWhom(s.past.trace)
  {
    var schedule: seq<Action> :| s == Exec(InitialState(), schedule);
    ExecByWhom(InitialState(), schedule);
  }

  // ---------------------------------------------------------------------------------------------------------
  // What is held

  /** Who deleted the engine that was deleted last. */
  function LastDeleter(trace: seq<Event>): Option<Thread> {
    if trace == [] then None
    else if trace[|trace| - 1].what.Deleted? then Some(trace[|trace| - 1].who)
    else LastDeleter(trace[..|trace| - 1])
  }

  /** The state of EGL, from the life of the engines alone. */
  ghost predicate Tells(l: Life, deleter: Option<Thread>, e: Egl, own: Owned) {
    && l.Life? && e.main == e.update == {} && e.initialized == l.live
    && (l.live ==> l.made > 0 && e.held == e.render == own(l.made - 1) && e.marked == {})
    && (!l.live && l.made > 0 && deleter == Some(Main) ==> e.held == e.marked == e.render == own(l.made - 1))
    && (!l.live && (l.made == 0 || deleter == Some(Render)) ==> e == Nothing())
    && (!l.live && l.made > 0 ==> deleter == Some(Main) || deleter == Some(Render))
  }

  lemma CreatedTells(l: Life, deleter: Option<Thread>, e: Egl, own: Owned)
    requires Tells(l, deleter, e, own) && !l.live && Distinct(own)
    ensures Tells(Life(l.made + 1, true), deleter, Opened(e, own(l.made), Render), own)
  {
    if l.made > 0 { assert own(l.made - 1) !! own(l.made); }
  }

  lemma DeletedTells(l: Life, deleter: Option<Thread>, e: Egl, own: Owned, who: Thread)
    requires Tells(l, deleter, e, own) && l.live && who != Update
    ensures Tells(Life(l.made, false), Some(who), Closed(e, who), own)
  {}

  lemma {:induction false} TraceTells(trace: seq<Event>, own: Owned)
    requires Replay(trace).Life? && AllByWhom(trace) && Distinct(own)
    ensures Tells(Replay(trace), LastDeleter(trace), After(trace, own), own)
  {
    if trace != [] {
      var front, last := trace[..|trace| - 1], trace[|trace| - 1];
      TraceTells(front, own);
      assert ByWhom(last);
      match last.what
      case Created(_) => CreatedTells(Replay(front), LastDeleter(front), After(front, own), own);
      case Deleted(_) => DeletedTells(Replay(front), LastDeleter(front), After(front, own), own, last.who);
      case _ =>
    }
  }

  /** In every interleaving: the handles of at most one engine are held, those of the last one made. They are held while
      it is alive; if the render thread deletes it they are released with it; and if main deletes it they stay, marked
      and current to the render thread, until that thread makes another engine. The display is initialized exactly while
      an engine is alive. */
  lemma HandlesOfRun(s: State, own: Owned)
    requires Reachable(s) && Distinct(own)
    ensures var e, l := After(s.past.trace, own), Replay(s.past.trace);
            && l == Life(s.past.made, Live(s)) && e.initialized == Live(s)
            && e.held == (if s.past.made > 0 && (Live(s) || LastDeleter(s.past.trace) == Some(Main))
                          then own(s.past.made - 1) else {})
            && e.marked == (if Live(s) then {} else e.held) && e.render == e.held && e.main == e.update == {}
  {
    ReachableInv(s);
    ReachableByWhom(s);
    TraceTells(s.past.trace, own);
  }

  /** When the render thread is over, its last engine's surface and context are still there if and only if it was main
      that deleted it; nothing takes them away afterwards. */
  lemma HandlesAtTheEnd(s: State, own: Owned)
    requires Reachable(s) && Distinct(own) && Left(s.render)
    ensures After(s.past.trace, own).held != {} <==> LastDeleter(s.past.trace) == Some(Main)
  {
    ReachableInv(s);
    ReachableByWhom(s);
    TraceTells(s.past.trace, own);
    NoneDeleted(s.past.trace);
  }

  /** Without an engine there is no deletion. */
  lemma {:induction false} NoneDeleted(trace: seq<Event>)
    requires Replay(trace).Life?
    ensures Replay(trace).made == 0 ==> LastDeleter(trace).None? && !Replay(trace).live
  {
    if trace != [] { NoneDeleted(trace[..|trace| - 1]); }
  }

  lemma {:induction false} PrefixReplays(trace: seq<Event>, i: nat)
    requires Replay(trace).Life? && i <= |trace|
    ensures Replay(trace[..i]).Life?
  {
    if i == |trace| {
      assert trace[..i] == trace;
    } else {
      PrefixReplays(trace[..|trace| - 1], i);
      assert trace[..|trace| - 1][..i] == trace[..i];
    }
  }

  /** Every use of an engine, set-up and swap, is made by the thread to which its context is current, with its handles
      held and not marked. */
  lemma UsesAreCurrent(s: State, own: Owned, i: nat, id: EngineId)
    requires Reachable(s) && Distinct(own) && i < |s.past.trace| && s.past.trace[i].what == Used(id)
    ensures var e := After(s.past.trace[..i], own);
            Current(e, s.past.trace[i].who) == own(id) == e.held && e.marked == {} && e.initialized
  {
    ReachableInv(s);
    ReachableByWhom(s);
    UseTells(s.past.trace, own, i, id);
  }

  lemma UseTells(trace: seq<Event>, own: Owned, i: nat, id: EngineId)
    requires Replay(trace).Life? && AllByWhom(trace) && Distinct(own) && i < |trace| && trace[i].what == Used(id)
    ensures var e := After(trace[..i], own);
            Current(e, trace[i].who) == own(id) == e.held && e.marked == {} && e.initialized
  {
    PrefixReplays(trace, i);
    UsedAlive(trace, i, id);
    assert ByWhom(trace[i]);
    TraceTells(trace[..i], own);
  }

  lemma UsedAlive(trace: seq<Event>, i: nat, id: EngineId)
    requires Replay(trace).Life? && i < |trace| && trace[i].what == Used(id)
    ensures Replay(trace[..i]) == Life(id + 1, true)
  {
    PrefixReplays(trace, i + 1);
    assert trace[..i + 1][..i] == trace[..i];
  }
}
