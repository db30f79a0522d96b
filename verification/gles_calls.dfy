/**
 What a step of a thread may do to what the threads share, and what the calls of the source do from beginning to end
 when no other thread gets in between.
*/
module GlesCalls {
  import opened Common
  import Binary32
  import opened GlesProtocol
  import opened GlesSafety
  import opened GlesProgress
  import opened GlesShutdown

  // ---------------------------------------------------------------------------------------------------------
  // Guarantees of the threads to each other

  /** The mutex is taken only when it is free, and given back only by its holder. */
  predicate LockKept(s: State, t: State, who: Thread) {
    t.lock == s.lock || (s.lock.None? && t.lock == Some(who)) || (s.lock == Some(who) && t.lock.None?)
  }

  /** The pointer is written only by the holder of the mutex, who still holds it afterwards. */
  predicate PointerKept(s: State, t: State, who: Thread) {
    t.engine != s.engine ==> s.lock == Some(who) && t.lock == Some(who)
  }

  /** At most one event, the thread's own; other than the unlocked test it happens under the mutex. */
  predicate TraceKept(s: State, t: State, who: Thread) {
    t.past.trace == s.past.trace ||
    (|t.past.trace| == |s.past.trace| + 1 && t.past.trace[..|s.past.trace|] == s.past.trace
     && t.past.trace[|s.past.trace|].who == who && t.past.trace[|s.past.trace|].holder == s.lock
     && Guarded(t.past.trace[|s.past.trace|]))
  }

  predicate Disciplined(s: State, t: State, who: Thread) {
    LockKept(s, t, who) && PointerKept(s, t, who) && TraceKept(s, t, who)
  }

  /** Main makes no engine and takes part in no pass; it can only null the pointer, and only starts the threads. */
  predicate MainGuarantee(s: State, t: State) {
    && Disciplined(s, t, Main)
    && (t.engine == s.engine || t.engine.None?) && t.status == s.status && t.rotate == s.rotate
    && (t.render == s.render || (s.render.Unborn? && t.render.Start?))
    && (t.update == s.update || (s.update.Unhatched? && t.update.Begin?))
    && t.past == s.past.(trace := t.past.trace)
  }

  /** The render thread leaves main, the update thread and the angle alone, and of the flags only clears initialized. It
      makes at most one engine, and faults exactly when it swaps through a pointer nulled since its test. */
  predicate RenderGuarantee(s: State, t: State, ok: bool) {
    && Disciplined(s, t, Render) && RenderOnly(s, t)
    && (t.past.made == s.past.made || (t.past.made == s.past.made + 1 && s.lock == Some(Render) && s.engine.None?))
    && (t.status == Faulted <==> s.render == Work(Swap) && NulledSinceTest(s.past.trace))
    && (t.status == Thrown <==> s.render == Init(Create) && !ok)
  }

  /** The update thread touches the angle alone, and the angle is the sum of the increments. */
  predicate UpdateGuarantee(s: State, t: State) {
    && t == s.(update := t.update, rotate := t.rotate, past := s.past.(increments := t.past.increments))
    && s.past.increments <= t.past.increments <= s.past.increments + 1
    && t.rotate == Binary32.Accumulate(t.past.increments)
  }

  lemma OneEvent(trace: seq<Event>, e: Event)
    ensures |trace + [e]| == |trace| + 1 && (trace + [e])[..|trace|] == trace && (trace + [e])[|trace|] == e
  {}

  lemma CommandDisciplined(s: State, pc: CommandPc)
    requires Locking(s) && Pointer(s) && s.main == Busy(pc)
    ensures MainGuarantee(s, StepCommand(s, pc))
  {
    if pc.TermDelete? && s.engine.Some? { OneEvent(s.past.trace, Event(Deleted(s.engine.value), Main, s.lock)); }
    if pc.TermNull? { OneEvent(s.past.trace, Event(Nulled, Main, s.lock)); }
  }

  lemma ConstructDisciplined(s: State, pc: ConstructPc)
    requires Stages(s) && s.main == Construct(pc)
    ensures MainGuarantee(s, StepConstruct(s, pc))
  {}

  lemma DestructDisciplined(s: State, pc: DestructPc)
    requires s.main == Destruct(pc)
    ensures MainGuarantee(s, StepDestruct(s, pc))
  {}

  lemma MainGuarantees(s: State)
    requires Inv(s) && s.status == Running
    ensures MainGuarantee(s, StepMain(s))
  {
    match s.main
    case Construct(pc) => ConstructDisciplined(s, pc);
    case Idle =>
    case Busy(pc) => CommandDisciplined(s, pc);
    case Destruct(pc) => DestructDisciplined(s, pc);
  }

  lemma InitDisciplined(s: State, pc: InitPc, ok: bool)
    requires Locking(s) && Pointer(s) && s.status == Running && s.render == Init(pc)
    ensures var t := StepInit(s, pc, ok); LockKept(s, t, Render) && PointerKept(s, t, Render)
    ensures TraceKept(s, StepInit(s, pc, ok), Render)
  {
    if pc.Create? && ok { OneEvent(s.past.trace, Event(Created(s.past.made), Render, s.lock)); }
    if pc.Setup? && s.engine.Some? { OneEvent(s.past.trace, Event(Used(s.engine.value), Render, s.lock)); }
  }

  lemma InitOutcome(s: State, pc: InitPc, ok: bool)
    requires Locking(s) && Pointer(s) && s.status == Running && s.render == Init(pc)
    ensures var t := StepInit(s, pc, ok);
            && (t.past.made == s.past.made
                || (t.past.made == s.past.made + 1 && s.lock == Some(Render) && s.engine.None?))
            && t.status == (if pc.Create? && !ok then Thrown else Running)
  {}

  lemma WorkDisciplined(s: State, pc: WorkPc)
    requires Locking(s) && Pointer(s) && s.status == Running && s.render == Work(pc)
    ensures var t := StepWork(s, pc); LockKept(s, t, Render) && PointerKept(s, t, Render)
    ensures TraceKept(s, StepWork(s, pc), Render) && StepWork(s, pc).past.made == s.past.made
  {
    if pc.TestEngine? && s.engine.Some? { OneEvent(s.past.trace, Event(Tested, Render, s.lock)); }
    if pc.Swap? {
      OneEvent(s.past.trace, Event(if s.engine.Some? then Used(s.engine.value) else NullUse, Render, s.lock));
    }
  }

  lemma FinalDisciplined(s: State, pc: FinalPc)
    requires Locking(s) && Pointer(s) && s.status == Running && s.render == Final(pc)
    ensures var t := StepFinal(s, pc); LockKept(s, t, Render) && PointerKept(s, t, Render)
    ensures var t := StepFinal(s, pc); TraceKept(s, t, Render) && t.past.made == s.past.made && t.status == Running
  {
    if pc.FinalDelete? && s.engine.Some? { OneEvent(s.past.trace, Event(Deleted(s.engine.value), Render, s.lock)); }
    if pc.FinalNull? { OneEvent(s.past.trace, Event(Nulled, Render, s.lock)); }
  }

  lemma RenderGuarantees(s: State, ok: bool)
    requires Inv(s) && s.status == Running
    ensures RenderGuarantee(s, StepRender(s, ok), ok)
  {
    match s.render
    case Init(pc) => InitDisciplined(s, pc, ok); InitOutcome(s, pc, ok); InitFrame(s, pc, ok);
    case Work(pc) => WorkDisciplined(s, pc); WorkFrame(s, pc);
    case Final(pc) => FinalDisciplined(s, pc); FinalFrame(s, pc);
    case _ =>
  }

  lemma UpdateGuarantees(s: State)
    requires Inv(s) && s.status == Running
    ensures UpdateGuarantee(s, StepUpdate(s))
  {
    UpdateFrame(s);
    UpdateKeepsAngle(s);
    Binary32.RotationClosedForm(StepUpdate(s).past.increments);
  }

  // ---------------------------------------------------------------------------------------------------------
  // engine_handle_cmd, from the command to idle again

  /** Steps to the end of the command. */
  function ToIdle(pc: MainPc): nat {
    if !pc.Busy? then 0 else
      match pc.b
      case InitStore => 2
      case Enable | Disable | TermUnlock => 1
      case TermNull => 2
      case TermDelete => 3
      case TermLock => 4
      case TermStore => 5
      case TermDisable => 6
  }

  /** s is on the way to the end of command c, begun in s0. */
  ghost predicate Handling(s0: State, s: State, c: Command) {
    && s.status == Running && (s.main.Idle? || s.main.Busy?) && s.lock != Some(Render)
    && s.render == s0.render && s.update == s0.update && s.rotate == s0.rotate && s.freed == s0.freed
    && s.past == s0.past.(commands := s0.past.commands + [c], trace := s.past.trace)
    && (match c
        case TermWindow =>
          (s.main.Idle? || s.main == Busy(TermUnlock) ==> s.engine.None?)
          && (s.main.Busy? ==> !s.main.b.InitStore? && !s.main.b.Enable? && !s.main.b.Disable?)
          && ((s.main.Busy? && (s.main.b.TermDisable? || s.main.b.TermStore?)) || !s.flags.initialized)
        case InitWindow =>
          s.engine == s0.engine && s.past.trace == s0.past.trace
          && (s.main == Busy(InitStore) || (s.flags.initialized && (s.main == Busy(Enable) || s.main.Idle?)))
        case _ =>
          s.engine == s0.engine && s.past.trace == s0.past.trace && s.flags.initialized == s0.flags.initialized
          && (s.main.Busy? ==> s.main.b.Enable? || s.main.b.Disable?))
  }

  lemma HandlingBegins(s: State, c: Command)
    requires Inv(s) && s.status == Running && s.main.Idle? && s.lock.None?
    ensures Handling(s, Receive(s, c), c) && ToIdle(Receive(s, c).main) <= 6
  {}

  lemma HandlingGoesOn(s0: State, s: State, c: Command, pc: CommandPc)
    requires Locking(s) && Pointer(s) && Handling(s0, s, c) && s.main == Busy(pc)
    ensures Handling(s0, StepCommand(s, pc), c) && ToIdle(StepCommand(s, pc).main) < ToIdle(s.main)
  {}

  // ---------------------------------------------------------------------------------------------------------
  // One pass of the render loop

  /** The engine that a pass works with: the one there is, or a new one if the display is initialized. */
  function Wanted(s: State): Option<EngineId> {
    if s.flags.initialized && s.engine.None? then Some(s.past.made) else s.engine
  }

  predicate Makes(s: State) {
    s.flags.initialized && s.engine.None?
  }

  /** s lies between the test of line 219 and the end of the pass begun in s0. */
  ghost predicate MidPass(s0: State, s: State) {
    && s.status == Running && RenderOnly(s0, s) && s.flags == s0.flags && !MainHolds(s0.main)
    && s.past.passes == s0.past.passes + 1
    && match s.render
       case Init(i) => MidInit(s0, s, i)
       case Work(w) => s.engine == Wanted(s0) && MidWork(s0, s, w)
       case TestWorked =>
         s.engine == Wanted(s0)
         && (if s0.flags.animated && Wanted(s0).Some?
             then s.past.draws == s0.past.draws + 1 && s.past.sleeps == s0.past.sleeps
             else s.past.draws == s0.past.draws && s.past.sleeps == s0.past.sleeps + 1)
       case _ => false
  }

  ghost predicate MidInit(s0: State, s: State, i: InitPc) {
    && s.past.draws == s0.past.draws && s.past.sleeps == s0.past.sleeps
    && match i
       case TestInit => s.engine == s0.engine && s.past.made == s0.past.made
       case TestNull => s.engine == s0.engine && s.past.made == s0.past.made && s0.flags.initialized
       case InitLock | Recheck | Create => s.engine.None? && s.past.made == s0.past.made && Makes(s0)
       case Publish => s.past.made == s0.past.made + 1 && Makes(s0)
       case Setup | InitUnlock => s.past.made == s0.past.made + 1 && Makes(s0) && s.engine == Wanted(s0)
  }

  ghost predicate MidWork(s0: State, s: State, w: WorkPc) {
    match w
    case TestAnimated => NotScored(s0, s)
    case TestEngine => NotScored(s0, s) && s0.flags.animated
    case DrawLock | Draw | Swap => NotScored(s0, s) && s0.flags.animated && Wanted(s0).Some?
    case DrawUnlock =>
      s0.flags.animated && Wanted(s0).Some?
      && s.past.draws == s0.past.draws + 1 && s.past.sleeps == s0.past.sleeps
    case Sleep => NotScored(s0, s) && !(s0.flags.animated && Wanted(s0).Some?)
  }

  predicate NotScored(s0: State, s: State) {
    s.past.draws == s0.past.draws && s.past.sleeps == s0.past.sleeps
  }

  /** By the render thread under the mutex. */
  function Locked(what: What): Event {
    Event(what, Render, Some(Render))
  }

  /** What the pass records when it makes an engine, and when it draws. */
  function Made(s: State): seq<Event> {
    if Makes(s) then [Locked(Created(s.past.made)), Locked(Used(s.past.made))] else []
  }

  function Drawn(s: State): seq<Event> {
    if s.flags.animated && Wanted(s).Some? then [Event(Tested, Render, None), Locked(Used(Wanted(s).value))] else []
  }

  ghost predicate Told(s0: State, s: State) {
    var before, after := s0.past.trace, s0.past.trace + Made(s0);
    match s.render
    case Init(i) =>
      s.past.trace == (if i.Publish? || i.Setup? then before + [Locked(Created(s0.past.made))]
                       else if i.InitUnlock? then after
                       else before)
    case Work(w) =>
      s.past.trace == (if w.DrawLock? || w.Draw? || w.Swap? then after + [Event(Tested, Render, None)]
                       else if w.DrawUnlock? then after + Drawn(s0)
                       else after)
    case TestWorked => s.past.trace == after + Drawn(s0)
    case _ => true
  }

  lemma TwoEvents(trace: seq<Event>, a: Event, b: Event)
    ensures trace + [a] + [b] == trace + [a, b]
  {}

  lemma InitTold(s0: State, s: State, i: InitPc, ok: bool)
    requires Locking(s) && Pointer(s) && MidPass(s0, s) && Told(s0, s) && s.render == Init(i) && (i.Create? ==> ok)
    ensures Told(s0, StepInit(s, i, ok))
  {
    TwoEvents(s0.past.trace, Locked(Created(s0.past.made)), Locked(Used(s0.past.made)));
  }

  lemma WorkTold(s0: State, s: State, w: WorkPc)
    requires Locking(s) && MidPass(s0, s) && Told(s0, s) && s.render == Work(w)
    ensures Told(s0, StepWork(s, w))
  {
    if w.Swap? {
      TwoEvents(s0.past.trace + Made(s0), Event(Tested, Render, None), Locked(Used(Wanted(s0).value)));
    }
  }

  /** The engine that the pass makes is not made yet. */
  predicate EarlyInit(pc: RenderPc) {
    pc.Init? && (pc.i.TestInit? || pc.i.TestNull? || pc.i.InitLock? || pc.i.Recheck? || pc.i.Create?)
  }

  lemma MidInitGoesOn(s0: State, s: State, i: InitPc, ok: bool)
    requires Locking(s) && Pointer(s) && MidPass(s0, s) && s.render == Init(i)
    ensures var t := StepInit(s, i, ok);
            if i.Create? && !ok then t.status == Thrown && RenderOnly(s0, t) && t.flags == s0.flags && Makes(s0)
            else MidPass(s0, t) && ToTest(t.render) < ToTest(s.render)
  {}

  lemma MidWorkGoesOn(s0: State, s: State, w: WorkPc)
    requires Locking(s) && Pointer(s) && MidPass(s0, s) && s.render == Work(w)
    ensures var t := StepWork(s, w); MidPass(s0, t) && ToTest(t.render) < ToTest(s.render)
  {}

  lemma MidPassGoesOn(s0: State, s: State, ok: bool)
    requires Inv(s) && MidPass(s0, s) && !s.render.TestWorked?
    ensures var t := StepRender(s, ok);
            if s.render == Init(Create) && !ok then
              t.status == Thrown && RenderOnly(s0, t) && t.flags == s0.flags && Makes(s0)
            else MidPass(s0, t) && ToTest(t.render) < ToTest(s.render)
  {
    match s.render
    case Init(i) => MidInitGoesOn(s0, s, i, ok);
    case Work(w) => MidWorkGoesOn(s0, s, w);
  }

  /** The pass begun in s0 is under way, over, or ended by a failing construction. */
  ghost predicate Passing(s0: State, s: State, ok: bool) {
    if s.status == Running then MidPass(s0, s) && Told(s0, s) && (Makes(s0) && !ok ==> EarlyInit(s.render))
    else s.status == Thrown && RenderOnly(s0, s) && s.flags == s0.flags && Makes(s0) && !ok
  }

  lemma PassBegins(s: State, ok: bool)
    requires s.status == Running && s.render.TestWorked? && s.flags.worked && !MainHolds(s.main)
    ensures Passing(s, StepTest(s), ok) && ToTest(StepTest(s).render) <= 14
  {}

  function TurnLeft(s: State): nat {
    if s.status == Running then ToTest(s.render) + 1 else 0
  }

  lemma EarlyGoesOn(s0: State, s: State, i: InitPc)
    requires Locking(s) && MidPass(s0, s) && s.render == Init(i) && EarlyInit(s.render) && Makes(s0) && !i.Create?
    ensures EarlyInit(StepInit(s, i, false).render)
  {}

  lemma PassingGoesOn(s0: State, s: State, ok: bool)
    requires Inv(s) && s.status == Running && Passing(s0, s, ok) && !s.render.TestWorked?
    ensures Passing(s0, StepRender(s, ok), ok) && TurnLeft(StepRender(s, ok)) < TurnLeft(s)
  {
    MidPassGoesOn(s0, s, ok);
    if Makes(s0) && !ok && !s.render.i.Create? { EarlyGoesOn(s0, s, s.render.i); }
    match s.render
    case Init(i) => if !i.Create? || ok { InitTold(s0, s, i, ok); }
    case Work(w) => WorkTold(s0, s, w);
  }

  // ---------------------------------------------------------------------------------------------------------
  // The end of the render thread

  ghost predicate MidStop(s0: State, s: State) {
    && s.status == Running && RenderOnly(s0, s) && !s0.flags.worked && !MainHolds(s0.main)
    && (s.render.TestWorked? || s.render.Final? || Left(s.render)) && s.past.made == s0.past.made
  }

  lemma MidStopGoesOn(s0: State, s: State, ok: bool)
    requires Locking(s) && Pointer(s) && MidStop(s0, s) && !s.render.Done?
    ensures var t := StepRender(s, ok); MidStop(s0, t) && ToEnd(t.render) < ToEnd(s.render)
  {}

  // ---------------------------------------------------------------------------------------------------------
  // One turn of the loop of update()

  ghost predicate MidUpdate(s0: State, s: State) {
    && s == s0.(update := s.update, rotate := s.rotate, past := s0.past.(increments := s.past.increments))
    && match s.update
       case TestData | TestUpdated => s.past.increments == s0.past.increments
       case Add => s.past.increments == s0.past.increments && s0.flags.dataUpdated
       case Nap => s.past.increments == s0.past.increments + (if s0.flags.dataUpdated then 1 else 0)
       case _ => false
  }

  function ToData(pc: UpdatePc): nat {
    match pc
    case TestUpdated => 3
    case Add => 2
    case Nap => 1
    case _ => 0
  }

  lemma UpdateBegins(s: State)
    requires s.update.TestData? && s.flags.dataWorked
    ensures MidUpdate(s, StepUpdate(s)) && StepUpdate(s).update.TestUpdated?
  {}

  /** t ends the turn that s0 began. */
  predicate Turned(s0: State, t: State) {
    t.update.TestData? && t.past.increments == s0.past.increments + (if s0.flags.dataUpdated then 1 else 0)
    && t == s0.(rotate := t.rotate, update := TestData, past := s0.past.(increments := t.past.increments))
  }

  lemma MidUpdateGoesOn(s0: State, s: State)
    requires MidUpdate(s0, s) && !s.update.TestData?
    ensures var t := StepUpdate(s);
            ToData(t.update) < ToData(s.update) && if s.update.Nap? then Turned(s0, t) else MidUpdate(s0, t)
  {}

  // ---------------------------------------------------------------------------------------------------------
  // The destructor

  ghost predicate MidDestruct(s0: State, s: State) {
    && s.status == Running && s.main.Destruct?
    && s.render == s0.render && s.update == s0.update && s.engine == s0.engine && s.lock == s0.lock
    && s.rotate == s0.rotate && s.past == s0.past
    && (Beyond(s.main, StopDataUpdated) ==> !s.flags.dataUpdated)
  }

  lemma MidDestructGoesOn(s0: State, s: State, pc: DestructPc)
    requires MidDestruct(s0, s) && s.main == Destruct(pc) && !pc.Over?
    ensures var t := StepDestruct(s, pc); MidDestruct(s0, t) && Rank(t.main.d) == Rank(pc) + 1
  {
    DestructRanks(s, pc);
  }

  lemma DestructOver(s0: State, s: State)
    requires Inv(s) && MidDestruct(s0, s) && s.main == Destruct(Over)
    ensures s.flags == Flags(false, false, false, false, false) && s.freed == Freed(true, true, true)
    ensures Dangling(s) <==> !(s0.render.Done? && s0.update.Ended?)
  {}
}
