/**
 The three threads of gles-engine as one transition system (gles_engine.cpp, main.cpp).

 Every read or write of a shared field is one step, numbered by its source line; the steps of the threads
 interleave in any order. Memory is taken to be sequentially consistent. SAFE_DELETE is two steps, delete then null.
*/
module GlesProtocol {
  import opened Common
  import Binary32

  type EngineId = nat

  datatype Thread = Main | Render | Update

  /** The commands of engine_handle_cmd; Other stands for every command the switch does not list. */
  datatype Command = SaveState | InitWindow | TermWindow | GainedFocus | LostFocus | Other

  /** gles_engine::gles_engine, lines 125 to 130. */
  datatype ConstructPc = StoreWorked | StartRender | StoreDataWorked | StoreDataUpdated | StartUpdate

  /** What engine_handle_cmd calls: init_display 155, enable 166, disable 171, then for TERM_WINDOW disable 171,
      destroy_display 160 and destroy_display_impl 209 to 211. */
  datatype CommandPc =
    | InitStore | Enable | Disable
    | TermDisable | TermStore | TermLock | TermDelete | TermNull | TermUnlock

  /** gles_engine::~gles_engine, lines 135 to 150, and the end of android_main. */
  datatype DestructPc =
    | StopWorked | StopAnimated | StopInitialized | SleepRender | DropRender
    | StopDataWorked | StopDataUpdated | SleepUpdate | DropUpdate
    | FreeCalculator | FreeData | FreeLogger | Over

  datatype MainPc = Construct(c: ConstructPc) | Idle | Busy(b: CommandPc) | Destruct(d: DestructPc)

  /** Lines 219 to 224 with init_display_impl, 181 to 204, inside. */
  datatype InitPc = TestInit | TestNull | InitLock | Recheck | Create | Publish | Setup | InitUnlock

  /** Lines 226 to 261. */
  datatype WorkPc = TestAnimated | TestEngine | DrawLock | Draw | Swap | DrawUnlock | Sleep

  /** The destroy_display of line 263: 160 and 209 to 211. */
  datatype FinalPc = FinalStore | FinalLock | FinalDelete | FinalNull | FinalUnlock

  datatype RenderPc =
    | Unborn | Start | TestWorked | Init(i: InitPc) | Work(w: WorkPc) | Final(f: FinalPc) | StopLog | Done

  /** gles_engine::update, lines 270 to 283. */
  datatype UpdatePc = Unhatched | Begin | TestData | TestUpdated | Add | Nap | EndLog | Ended

  /** What happened to the display engine, by whom, and who held render_mutex at that moment. Tested is the unlocked
      read of a non-null pointer at line 226; NullUse is swap_buffers through a null pointer. */
  datatype What = Created(id: EngineId) | Deleted(id: EngineId) | Used(id: EngineId) | NullUse | Nulled | Tested
  datatype Event = Event(what: What, who: Thread, holder: Option<Thread>)

  /** Thrown: the egl_engine constructor threw out of the render thread. Faulted: a null engine was used. The process
      is gone in both cases. */
  datatype Status = Running | Thrown | Faulted

  datatype Flags = Flags(worked: bool, animated: bool, initialized: bool, dataWorked: bool, dataUpdated: bool)

  /** What the destructor and the end of android_main have freed: the calculator, m_d, the logger. */
  datatype Freed = Freed(calculator: bool, data: bool, logger: bool)

  /** A record of the run: engines made, what befell them, commands delivered, increments of m_rotate, and passes of
      the render loop begun, ended by a draw, ended by a sleep. */
  datatype Past = Past(made: nat, trace: seq<Event>, commands: seq<Command>, increments: nat,
                       passes: nat, draws: nat, sleeps: nat)

  /** m_rotate is counted in halves. */
  datatype State = State(main: MainPc, render: RenderPc, update: UpdatePc,
                         flags: Flags, engine: Option<EngineId>, lock: Option<Thread>, rotate: nat,
                         freed: Freed, status: Status, past: Past)

  function InitialState(): State {
    State(Construct(StoreWorked), Unborn, Unhatched,
          Flags(false, false, false, false, false), None, None, 0,
          Freed(false, false, false), Running, Past(0, [], [], 0, 0, 0, 0))
  }

  /** `ok` says whether the egl_engine constructor succeeds, should this step run it. */
  datatype Action = MainStep | Deliver(command: Command) | RequestDestroy | RenderStep(ok: bool) | UpdateStep

  function Record(s: State, what: What, who: Thread): State {
    s.(past := s.past.(trace := s.past.trace + [Event(what, who, s.lock)]))
  }

  /** delete display_engine: a null pointer is ignored. */
  function DeleteEngine(s: State, who: Thread): State {
    if s.engine.Some? then Record(s, Deleted(s.engine.value), who) else s
  }

  function NullEngine(s: State, who: Thread): State {
    Record(s, Nulled, who).(engine := None)
  }

  function AfterCommand(command: Command): MainPc {
    match command
    case InitWindow => Busy(InitStore)
    case TermWindow => Busy(TermDisable)
    case GainedFocus => Busy(Enable)
    case LostFocus => Busy(Disable)
    case SaveState | Other => Idle
  }

  function StepConstruct(s: State, pc: ConstructPc): State {
    match pc
    case StoreWorked => s.(flags := s.flags.(worked := true), main := Construct(StartRender))
    case StartRender => s.(render := Start, main := Construct(StoreDataWorked))
    case StoreDataWorked => s.(flags := s.flags.(dataWorked := true), main := Construct(StoreDataUpdated))
    case StoreDataUpdated => s.(flags := s.flags.(dataUpdated := true), main := Construct(StartUpdate))
    case StartUpdate => s.(update := Begin, main := Idle)
  }

  function StepCommand(s: State, pc: CommandPc): State {
    match pc
    case InitStore => s.(flags := s.flags.(initialized := true), main := Busy(Enable))
    case Enable => s.(flags := s.flags.(animated := true), main := Idle)
    case Disable => s.(flags := s.flags.(animated := false), main := Idle)
    case TermDisable => s.(flags := s.flags.(animated := false), main := Busy(TermStore))
    case TermStore => s.(flags := s.flags.(initialized := false), main := Busy(TermLock))
    case TermLock => if s.lock.None? then s.(lock := Some(Main), main := Busy(TermDelete)) else s
    case TermDelete => DeleteEngine(s, Main).(main := Busy(TermNull))
    case TermNull => NullEngine(s, Main).(main := Busy(TermUnlock))
    case TermUnlock => s.(lock := None, main := Idle)
  }

  function StepDestruct(s: State, pc: DestructPc): State {
    match pc
    case StopWorked => s.(flags := s.flags.(worked := false), main := Destruct(StopAnimated))
    case StopAnimated => s.(flags := s.flags.(animated := false), main := Destruct(StopInitialized))
    case StopInitialized => s.(flags := s.flags.(initialized := false), main := Destruct(SleepRender))
    case SleepRender => s.(main := Destruct(DropRender))
    case DropRender => s.(main := Destruct(StopDataWorked))
    case StopDataWorked => s.(flags := s.flags.(dataWorked := false), main := Destruct(StopDataUpdated))
    case StopDataUpdated => s.(flags := s.flags.(dataUpdated := false), main := Destruct(SleepUpdate))
    case SleepUpdate => s.(main := Destruct(DropUpdate))
    case DropUpdate => s.(main := Destruct(FreeCalculator))
    case FreeCalculator => s.(freed := s.freed.(calculator := true), main := Destruct(FreeData))
    case FreeData => s.(freed := s.freed.(data := true), main := Destruct(FreeLogger))
    case FreeLogger => s.(freed := s.freed.(logger := true), main := Destruct(Over))
    case Over => s
  }

  /** A thread that waits for the lock or for a command, or is over, does not move. */
  function StepMain(s: State): State {
    match s.main
    case Construct(pc) => StepConstruct(s, pc)
    case Idle => s
    case Busy(pc) => StepCommand(s, pc)
    case Destruct(pc) => StepDestruct(s, pc)
  }

  function StepInit(s: State, pc: InitPc, ok: bool): State {
    match pc
    case TestInit => s.(render := if s.flags.initialized then Init(TestNull) else Work(TestAnimated))
    case TestNull => s.(render := if s.engine.None? then Init(InitLock) else Work(TestAnimated))
    case InitLock => if s.lock.None? then s.(lock := Some(Render), render := Init(Recheck)) else s
    case Recheck => s.(render := if s.engine.Some? then Init(InitUnlock) else Init(Create))
    case Create =>
      if ok then
        var t := Record(s, Created(s.past.made), Render);
        t.(past := t.past.(made := s.past.made + 1), render := Init(Publish))
      else s.(status := Thrown)
    case Publish => s.(engine := if s.past.made > 0 then Some(s.past.made - 1) else None, render := Init(Setup))
    case Setup =>
      (if s.engine.Some? then Record(s, Used(s.engine.value), Render) else s).(render := Init(InitUnlock))
    case InitUnlock => s.(lock := None, render := Work(TestAnimated))
  }

  function StepWork(s: State, pc: WorkPc): State {
    match pc
    case TestAnimated => s.(render := if s.flags.animated then Work(TestEngine) else Work(Sleep))
    case TestEngine =>
      if s.engine.Some? then Record(s, Tested, Render).(render := Work(DrawLock)) else s.(render := Work(Sleep))
    case DrawLock => if s.lock.None? then s.(lock := Some(Render), render := Work(Draw)) else s
    case Draw => s.(render := Work(Swap))
    case Swap =>
      if s.engine.Some? then
        var t := Record(s, Used(s.engine.value), Render);
        t.(past := t.past.(draws := s.past.draws + 1), render := Work(DrawUnlock))
      else Record(s, NullUse, Render).(status := Faulted)
    case DrawUnlock => s.(lock := None, render := TestWorked)
    case Sleep => s.(past := s.past.(sleeps := s.past.sleeps + 1), render := TestWorked)
  }

  function StepFinal(s: State, pc: FinalPc): State {
    match pc
    case FinalStore => s.(flags := s.flags.(initialized := false), render := Final(FinalLock))
    case FinalLock => if s.lock.None? then s.(lock := Some(Render), render := Final(FinalDelete)) else s
    case FinalDelete => DeleteEngine(s, Render).(render := Final(FinalNull))
    case FinalNull => NullEngine(s, Render).(render := Final(FinalUnlock))
    case FinalUnlock => s.(lock := None, render := StopLog)
  }

  /** The test of render_thread_worked at line 217. */
  function StepTest(s: State): State {
    if s.flags.worked then s.(past := s.past.(passes := s.past.passes + 1), render := Init(TestInit))
    else s.(render := Final(FinalStore))
  }

  function StepRender(s: State, ok: bool): State {
    match s.render
    case Unborn | Done => s
    case Start => s.(render := TestWorked)
    case TestWorked => StepTest(s)
    case Init(pc) => StepInit(s, pc, ok)
    case Work(pc) => StepWork(s, pc)
    case Final(pc) => StepFinal(s, pc)
    case StopLog => s.(render := Done)
  }

  function StepUpdate(s: State): State {
    match s.update
    case Unhatched | Ended => s
    case Begin => s.(update := TestData)
    case TestData => s.(update := if s.flags.dataWorked then TestUpdated else EndLog)
    case TestUpdated => s.(update := if s.flags.dataUpdated then Add else Nap)
    case Add =>
      s.(rotate := Binary32.AddDelta(s.rotate), past := s.past.(increments := s.past.increments + 1), update := Nap)
    case Nap => s.(update := TestData)
    case EndLog => s.(update := Ended)
  }

  function Receive(s: State, c: Command): State {
    s.(past := s.past.(commands := s.past.commands + [c]), main := AfterCommand(c))
  }

  /** One action; one that is not possible now changes nothing. */
  function Step(s: State, a: Action): State {
    if s.status != Running then s else
      match a
      case MainStep => StepMain(s)
      case Deliver(c) => if s.main.Idle? then Receive(s, c) else s
      case RequestDestroy => if s.main.Idle? then s.(main := Destruct(StopWorked)) else s
      case RenderStep(ok) => StepRender(s, ok)
      case UpdateStep => StepUpdate(s)
  }

  /** A run: any actions in any order. */
  function Exec(s: State, schedule: seq<Action>): State
    decreases |schedule|
  {
    if schedule == [] then s else Exec(Step(s, schedule[0]), schedule[1..])
  }

  ghost predicate Reachable(s: State) {
    exists schedule: seq<Action> :: s == Exec(InitialState(), schedule)
  }

  lemma {:induction false} ExecAppend(s: State, a: seq<Action>, b: seq<Action>)
    ensures Exec(s, a + b) == Exec(Exec(s, a), b)
    decreases |a|
  {
    if a == [] {
      assert a + b == b;
    } else {
      assert (a + b)[1..] == a[1..] + b;
      ExecAppend(Step(s, a[0]), a[1..], b);
    }
  }

  lemma ReachableExec(s: State, schedule: seq<Action>)
    requires Reachable(s)
    ensures Reachable(Exec(s, schedule))
  {
    var before: seq<Action> :| s == Exec(InitialState(), before);
    ExecAppend(InitialState(), before, schedule);
  }

  // ---------------------------------------------------------------------------------------------------------
  // What a history means, independently of the program counters

  /** The engine life cycle that a trace tells: how many were made, and whether the last one is still alive. */
  datatype Life = Life(made: nat, live: bool) | Broken

  /** Engine k + 1 is made only after engine k is deleted, each is deleted while it is alive, and only the one that
      is alive is used. The pointer is nulled only when nothing is alive. */
  function Next(l: Life, what: What): Life {
    if l.Broken? then Broken else
      match what
      case Created(id) => if !l.live && id == l.made then Life(l.made + 1, true) else Broken
      case Deleted(id) => if l.live && id + 1 == l.made then Life(l.made, false) else Broken
      case Used(id) => if l.live && id + 1 == l.made then l else Broken
      case Nulled => if l.live then Broken else l
      case NullUse => if l.live then Broken else l
      case Tested => l
  }

  function Replay(trace: seq<Event>): Life {
    if trace == [] then Life(0, false) else Next(Replay(trace[..|trace| - 1]), trace[|trace| - 1].what)
  }

  /** The pointer was stored null after the last unlocked non-null test of line 226. */
  predicate NulledSinceTest(trace: seq<Event>) {
    if trace == [] then false else
      match trace[|trace| - 1].what
      case Tested => false
      case Nulled => true
      case Created(_) | Deleted(_) | Used(_) | NullUse => NulledSinceTest(trace[..|trace| - 1])
  }

  /** Everything but the unlocked test happens under render_mutex, held by the thread that does it. */
  predicate Guarded(e: Event) {
    e.what.Tested? || e.holder == Some(e.who)
  }

  predicate AllGuarded(trace: seq<Event>) {
    forall i :: 0 <= i < |trace| ==> Guarded(trace[i])
  }

  /** What the commands decide about is_enabled: the last INIT, TERM, GAINED or LOST. */
  predicate LastEnables(commands: seq<Command>) {
    if commands == [] then false else
      match commands[|commands| - 1]
      case InitWindow | GainedFocus => true
      case TermWindow | LostFocus => false
      case SaveState | Other => LastEnables(commands[..|commands| - 1])
  }

  /** How often an event occurs in a trace. */
  function Count(trace: seq<Event>, what: What): nat {
    if trace == [] then 0 else
      Count(trace[..|trace| - 1], what) + if trace[|trace| - 1].what == what then 1 else 0
  }

  /** A trace that replays makes each engine exactly once and deletes each at most once, all but possibly the last. */
  lemma {:induction false} ReplayCounts(trace: seq<Event>, id: EngineId)
    requires Replay(trace).Life?
    ensures Count(trace, Created(id)) == if id < Replay(trace).made then 1 else 0
    ensures Count(trace, Deleted(id)) ==
            if id + 1 < Replay(trace).made || (id + 1 == Replay(trace).made && !Replay(trace).live) then 1 else 0
  {
    if trace != [] {
      ReplayCounts(trace[..|trace| - 1], id);
    }
  }
}
