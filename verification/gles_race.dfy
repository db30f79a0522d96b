/** Runs that show the guarantees of the protocol to be as strong as they can be. */
module GlesRace {
  import opened Common
  import opened GlesProtocol
  import opened GlesSafety
  import opened GlesTheorems
  import opened GlesShutdown

  // ---------------------------------------------------------------------------------------------------------
  // Untimed runs

  lemma Go(s: State, a: Action) returns (t: State)
    requires Reachable(s)
    ensures Reachable(t) && t == Step(s, a)
  {
    t := Step(s, a);
    assert [a][1..] == [];
    assert Exec(s, [a]) == Exec(t, []);
    ReachableExec(s, [a]);
  }

  /** The constructor is over and the threads have not moved. */
  function Started(): State {
    InitialState().(main := Idle, render := Start, update := Begin, flags := Flags(true, false, false, true, true))
  }

  lemma ReachStarted()
    ensures Reachable(Started())
  {
    assert Exec(InitialState(), []) == InitialState();
    var s := Go(InitialState(), MainStep);
    s := Go(s, MainStep);
    s := Go(s, MainStep);
    s := Go(s, MainStep);
    s := Go(s, MainStep);
  }

  /** INIT_WINDOW is handled and the render thread has read render_thread_initialized as true. */
  function ReadTrue(): State {
    Started().(render := Init(TestNull), flags := Flags(true, true, true, true, true),
               past := Past(0, [], [InitWindow], 0, 1, 0, 0))
  }

  lemma ReachReadTrue()
    ensures Reachable(ReadTrue())
  {
    ReachStarted();
    var s := Go(Started(), Deliver(InitWindow));
    s := Go(s, MainStep);
    s := Go(s, MainStep);
    s := Go(s, RenderStep(true));
    s := Go(s, RenderStep(true));
    s := Go(s, RenderStep(true));
  }

  lemma TermToUnlock(s: State) returns (t: State)
    requires Reachable(s) && s.status == Running && s.main.Idle? && s.lock.None?
    ensures Reachable(t) && t.status == Running && t.main == Busy(TermUnlock) && t.render == s.render && t.engine.None?
  {
    t := Go(s, Deliver(TermWindow));
    t := Go(t, MainStep);
    t := Go(t, MainStep);
    t := Go(t, MainStep);
    t := Go(t, MainStep);
    t := Go(t, MainStep);
  }

  /** A completed destroy_display with an engine still to come does happen. */
  lemma DestroyedYetOwed() returns (s: State)
    ensures Reachable(s) && JustDestroyed(s) && Owes(Step(s, MainStep).render)
  {
    ReachReadTrue();
    s := TermToUnlock(ReadTrue());
  }

  /** The render thread has made its engine. */
  function Made(): State {
    ReadTrue().(render := Init(Setup), engine := Some(0), lock := Some(Render),
                past := Past(1, [Event(Created(0), Render, Some(Render))], [InitWindow], 0, 1, 0, 0))
  }

  lemma ReachMade()
    ensures Reachable(Made())
  {
    ReachReadTrue();
    var s := Go(ReadTrue(), RenderStep(true));
    s := Go(s, RenderStep(true));
    s := Go(s, RenderStep(true));
    s := Go(s, RenderStep(true));
    s := Go(s, RenderStep(true));
  }

  lemma ToDrawLock() returns (s: State)
    ensures Reachable(s) && s.status == Running && s.main.Idle? && s.lock.None? && s.render == Work(DrawLock)
  {
    ReachMade();
    s := Go(Made(), RenderStep(true));
    s := Go(s, RenderStep(true));
    s := Go(s, RenderStep(true));
    s := Go(s, RenderStep(true));
  }

  /** swap_buffers through a null pointer does happen. */
  lemma NullSwapHappens() returns (s: State)
    ensures Reachable(s) && s.status == Faulted
  {
    s := ToDrawLock();
    s := TermToUnlock(s);
    s := Go(s, MainStep);
    s := Go(s, RenderStep(true));
    s := Go(s, RenderStep(true));
    s := Go(s, RenderStep(true));
  }

  // ---------------------------------------------------------------------------------------------------------
  // Timed runs

  ghost predicate TimedReachable(b: Bounds, t: Timed) {
    exists schedule: seq<TimedAction> :: t == TimedExec(b, TimedInit(), schedule)
  }

  lemma {:induction false} TimedExecAppend(b: Bounds, t: Timed, x: seq<TimedAction>, ta: TimedAction)
    ensures TimedExec(b, t, x + [ta]) == TimedStep(b, TimedExec(b, t, x), ta)
    decreases |x|
  {
    if x == [] {
      assert (x + [ta])[1..] == [];
    } else {
      assert (x + [ta])[1..] == x[1..] + [ta];
      TimedExecAppend(b, TimedStep(b, t, x[0]), x[1..], ta);
    }
  }

  lemma TimedGo(b: Bounds, t: Timed, ta: TimedAction) returns (u: Timed)
    requires TimedReachable(b, t)
    ensures TimedReachable(b, u) && u == TimedStep(b, t, ta)
  {
    var x: seq<TimedAction> :| t == TimedExec(b, TimedInit(), x);
    TimedExecAppend(b, TimedInit(), x, ta);
    u := TimedStep(b, t, ta);
  }

  lemma TimedStart(b: Bounds) returns (t: Timed)
    ensures TimedReachable(b, t) && t == Timed(Started(), 0, b.work, b.update, 0, 0, 0)
  {
    t := TimedInit();
    assert TimedExec(b, t, []) == t;
    t := TimedGo(b, t, Act(MainStep));
    t := TimedGo(b, t, Act(MainStep));
    t := TimedGo(b, t, Act(MainStep));
    t := TimedGo(b, t, Act(MainStep));
    t := TimedGo(b, t, Act(MainStep));
  }

  /** No display was ever initialized, and the destructor has stored its flags. */
  predicate Dark(s: State) {
    s.status == Running && s.engine.None? && s.lock.None?
    && !s.flags.worked && !s.flags.animated && !s.flags.initialized
  }

  lemma RequestAndStop(b: Bounds, t: Timed) returns (u: Timed)
    requires TimedReachable(b, t) && t.s.status == Running && t.s.main.Idle? && t.s.engine.None? && t.s.lock.None?
    ensures TimedReachable(b, u) && u == t.(s := u.s, wake := t.now + 250, stopAt := t.now)
    ensures u.s == t.s.(main := Destruct(SleepRender),
                         flags := Flags(false, false, false, t.s.flags.dataWorked, t.s.flags.dataUpdated))
  {
    u := TimedGo(b, t, Act(RequestDestroy));
    u := TimedGo(b, u, Act(MainStep));
    u := StoreRender(b, u);
  }

  lemma StoreRender(b: Bounds, t: Timed) returns (u: Timed)
    requires TimedReachable(b, t) && t.s.status == Running && t.s.main == Destruct(StopAnimated)
    ensures TimedReachable(b, u) && u == t.(s := u.s, wake := t.now + 250)
    ensures u.s == t.s.(main := Destruct(SleepRender), flags := t.s.flags.(animated := false, initialized := false))
  {
    u := TimedGo(b, t, Act(MainStep));
    u := TimedGo(b, u, Act(MainStep));
  }

  /** The update thread begins a pass. */
  lemma UpdateBegins(b: Bounds, t: Timed) returns (u: Timed)
    requires TimedReachable(b, t) && t.s.status == Running && t.s.update.Begin? && t.s.flags.dataWorked
    ensures TimedReachable(b, u) && u == t.(s := t.s.(update := TestUpdated), updateDue := t.now + b.update)
  {
    u := TimedGo(b, t, Act(UpdateStep));
    u := TimedGo(b, u, Act(UpdateStep));
  }

  /** Everything but the update thread's own fields stands still. */
  predicate OnlyUpdate(t: Timed, u: Timed) {
    u == t.(s := t.s.(update := u.s.update, rotate := u.s.rotate, past := u.s.past), updateDue := u.updateDue)
  }

  /** The update thread ends its pass and begins another at once. */
  lemma UpdateAgain(b: Bounds, t: Timed) returns (u: Timed)
    requires TimedReachable(b, t) && t.s.status == Running && t.s.update.TestUpdated?
    requires t.s.flags.dataWorked && t.s.flags.dataUpdated
    ensures TimedReachable(b, u) && OnlyUpdate(t, u) && u.s.update.TestUpdated? && u.updateDue == t.now + b.update
  {
    u := TimedGo(b, t, Act(UpdateStep));
    u := TimedGo(b, u, Act(UpdateStep));
    u := UpdateRepeats(b, u);
  }

  lemma UpdateRepeats(b: Bounds, t: Timed) returns (u: Timed)
    requires TimedReachable(b, t) && t.s.status == Running && t.s.update.Nap? && t.s.flags.dataWorked
    ensures TimedReachable(b, u) && OnlyUpdate(t, u) && u.s.update.TestUpdated? && u.updateDue == t.now + b.update
  {
    u := TimedGo(b, t, Act(UpdateStep));
    u := TimedGo(b, u, Act(UpdateStep));
  }

  lemma UpdateEnds(b: Bounds, t: Timed) returns (u: Timed)
    requires TimedReachable(b, t) && t.s.status == Running && t.s.update.TestUpdated?
    requires !t.s.flags.dataWorked && !t.s.flags.dataUpdated
    ensures TimedReachable(b, u) && OnlyUpdate(t, u) && u.s.update.Ended?
  {
    u := TimedGo(b, t, Act(UpdateStep));
    u := TimedGo(b, u, Act(UpdateStep));
    u := TimedGo(b, u, Act(UpdateStep));
    u := TimedGo(b, u, Act(UpdateStep));
  }

  /** The first sleep is over; the destructor goes on to its second. */
  lemma StopData(b: Bounds, t: Timed) returns (u: Timed)
    requires TimedReachable(b, t) && t.s.status == Running && t.s.main == Destruct(SleepRender) && t.now >= t.wake
    ensures TimedReachable(b, u) && u == t.(s := u.s, wake := t.now + 250, dataStopAt := t.now)
    ensures u.s == t.s.(main := Destruct(SleepUpdate), flags := t.s.flags.(dataWorked := false, dataUpdated := false))
  {
    u := TimedGo(b, t, Act(MainStep));
    u := TimedGo(b, u, Act(MainStep));
    u := StoreData(b, u);
  }

  lemma StoreData(b: Bounds, t: Timed) returns (u: Timed)
    requires TimedReachable(b, t) && t.s.status == Running && t.s.main == Destruct(StopDataWorked)
    ensures TimedReachable(b, u) && u == t.(s := u.s, wake := t.now + 250, dataStopAt := t.now)
    ensures u.s == t.s.(main := Destruct(SleepUpdate), flags := t.s.flags.(dataWorked := false, dataUpdated := false))
  {
    u := TimedGo(b, t, Act(MainStep));
    u := TimedGo(b, u, Act(MainStep));
  }

  /** The second sleep is over; the destructor frees the calculator. */
  lemma FreeAll(b: Bounds, t: Timed) returns (u: Timed)
    requires TimedReachable(b, t) && t.s.status == Running && t.s.main == Destruct(SleepUpdate) && t.now >= t.wake
    ensures TimedReachable(b, u) && u.s.status == Running && u.s.main == Destruct(FreeData) && u.s.freed.calculator
    ensures u.s.render == t.s.render && u.s.update == t.s.update
  {
    u := TimedGo(b, t, Act(MainStep));
    u := DropAndFree(b, u);
  }

  lemma DropAndFree(b: Bounds, t: Timed) returns (u: Timed)
    requires TimedReachable(b, t) && t.s.status == Running && t.s.main == Destruct(DropUpdate)
    ensures TimedReachable(b, u) && u.s.status == Running && u.s.main == Destruct(FreeData) && u.s.freed.calculator
    ensures u.s.render == t.s.render && u.s.update == t.s.update
  {
    u := TimedGo(b, t, Act(MainStep));
    u := TimedGo(b, u, Act(MainStep));
  }

  // ---------------------------------------------------------------------------------------------------------
  // A render thread that takes as long as it may

  /** The render thread waits in one of its three last pieces of work; the update thread keeps passing or is over. */
  predicate Waiting(t: Timed) {
    && Dark(t.s)
    && (t.s.render == Init(TestInit) || t.s.render == Work(TestAnimated) || t.s.render == Final(FinalStore))
    && t.now <= t.renderDue
    && (t.s.update.Ended? ||
        (t.s.update.TestUpdated? && t.s.flags.dataWorked && t.s.flags.dataUpdated && t.now <= t.updateDue))
  }

  /** What is left to the render thread. */
  function Rest(b: Bounds, t: Timed): int {
    t.renderDue - t.now +
    match t.s.render
    case Init(_) => b.work + b.destroy
    case Work(_) => b.destroy
    case _ => 0
  }

  /** Main's side of the state. */
  predicate SameMain(t: Timed, u: Timed) {
    && u.s.main == t.s.main && u.s.flags == t.s.flags && u.s.freed == t.s.freed
        && u.s.update.Ended? == t.s.update.Ended?
    && u.wake == t.wake
  }

  lemma NextPiece(b: Bounds, t: Timed) returns (u: Timed)
    requires TimedReachable(b, t) && Waiting(t) && t.now == t.renderDue && !t.s.render.Final?
    ensures TimedReachable(b, u) && Waiting(u) && SameMain(t, u)
    ensures u.now == t.now && Rest(b, u) == Rest(b, t) && u.updateDue == t.updateDue
    ensures t.s.render.Init? ==> u.s.render.Work?
    ensures t.s.render.Work? ==> u.s.render.Final?
  {
    if t.s.render.Work? {
      u := ToFinal(b, t);
    } else {
      u := TimedGo(b, t, Act(RenderStep(true)));
    }
  }

  lemma ToFinal(b: Bounds, t: Timed) returns (u: Timed)
    requires TimedReachable(b, t) && Dark(t.s) && t.s.render == Work(TestAnimated)
    ensures TimedReachable(b, u) && u.s.status == Running && u.s.render == Final(FinalStore)
    ensures u == t.(s := t.s.(render := u.s.render, past := u.s.past), renderDue := t.now + b.destroy)
  {
    u := TimedGo(b, t, Act(RenderStep(true)));
    u := TimedGo(b, u, Act(RenderStep(true)));
    u := TimedGo(b, u, Act(RenderStep(true)));
  }

  /** On to a piece with time left. */
  lemma PieceWithTime(b: Bounds, t: Timed) returns (u: Timed)
    requires TimedReachable(b, t) && Waiting(t) && Rest(b, t) >= 1
    ensures TimedReachable(b, u) && Waiting(u) && SameMain(t, u)
    ensures u.now == t.now && Rest(b, u) == Rest(b, t) && u.now < u.renderDue
  {
    u := t;
    if u.now == u.renderDue && u.s.render.Init? { u := NextPiece(b, u); }
    if u.now == u.renderDue && u.s.render.Work? { u := NextPiece(b, u); }
  }

  lemma OneMs(b: Bounds, t: Timed) returns (u: Timed)
    requires TimedReachable(b, t) && Waiting(t) && Rest(b, t) >= 1 && b.update >= 1
    ensures TimedReachable(b, u) && Waiting(u) && SameMain(t, u)
    ensures u.now == t.now + 1 && Rest(b, u) == Rest(b, t) - 1
  {
    u := PieceWithTime(b, t);
    if u.s.update.TestUpdated? && u.now == u.updateDue { u := UpdateAgain(b, u); }
    u := TimedGo(b, u, Tick);
  }

  lemma {:induction false} Elapse(b: Bounds, t: Timed, n: nat) returns (u: Timed)
    requires TimedReachable(b, t) && Waiting(t) && Rest(b, t) >= n && b.update >= 1
    ensures TimedReachable(b, u) && Waiting(u) && SameMain(t, u)
    ensures u.now == t.now + n && Rest(b, u) == Rest(b, t) - n
    decreases n
  {
    u := t;
    if n > 0 {
      u := OneMs(b, t);
      u := Elapse(b, u, n - 1);
    }
  }

  /** A render thread that needs 500 ms meets freed memory. */
  lemma RenderRace(b: Bounds) returns (t: Timed)
    requires b.init + b.work + b.destroy >= 500 && b.update >= 1
    ensures TimedReachable(b, t) && Dangling(t.s)
  {
    t := TimedStart(b);
    t := TimedGo(b, t, Act(RenderStep(true)));
    t := TimedGo(b, t, Act(RenderStep(true)));
    t := UpdateBegins(b, t);
    t := RequestAndStop(b, t);
    t := Elapse(b, t, 250);
    t := StopData(b, t);
    t := UpdateEnds(b, t);
    t := Elapse(b, t, 250);
    t := FreeAll(b, t);
  }

  // ---------------------------------------------------------------------------------------------------------
  // An update thread that takes as long as it may

  lemma RenderEnds(b: Bounds, t: Timed) returns (u: Timed)
    requires TimedReachable(b, t) && Dark(t.s) && t.s.render.Start?
    ensures TimedReachable(b, u) && u.s.status == Running && u.s.render.Done?
    ensures u.s.main == t.s.main && u.s.update == t.s.update && u.s.flags == t.s.flags
    ensures u.now == t.now && u.wake == t.wake && u.updateDue == t.updateDue
  {
    u := TimedGo(b, t, Act(RenderStep(true)));
    u := TimedGo(b, u, Act(RenderStep(true)));
    u := TimedGo(b, u, Act(RenderStep(true)));
    u := TimedGo(b, u, Act(RenderStep(true)));
    u := FinalEnds(b, u);
  }

  lemma FinalEnds(b: Bounds, t: Timed) returns (u: Timed)
    requires TimedReachable(b, t) && t.s.status == Running && t.s.render == Final(FinalDelete)
    ensures TimedReachable(b, u) && u.s.status == Running && u.s.render.Done?
    ensures u.s.main == t.s.main && u.s.update == t.s.update && u.s.flags == t.s.flags
    ensures u.now == t.now && u.wake == t.wake && u.updateDue == t.updateDue
  {
    u := TimedGo(b, t, Act(RenderStep(true)));
    u := TimedGo(b, u, Act(RenderStep(true)));
    u := UnlockEnds(b, u);
  }

  lemma UnlockEnds(b: Bounds, t: Timed) returns (u: Timed)
    requires TimedReachable(b, t) && t.s.status == Running && t.s.render == Final(FinalUnlock)
    ensures TimedReachable(b, u) && u.s.status == Running && u.s.render.Done?
    ensures u.s.main == t.s.main && u.s.update == t.s.update && u.s.flags == t.s.flags
    ensures u.now == t.now && u.wake == t.wake && u.updateDue == t.updateDue
  {
    u := TimedGo(b, t, Act(RenderStep(true)));
    u := TimedGo(b, u, Act(RenderStep(true)));
  }

  lemma {:induction false} Ticks(b: Bounds, t: Timed, n: nat) returns (u: Timed)
    requires TimedReachable(b, t) && t.s.status == Running && t.s.render.Done?
    requires t.s.update.Ended? || t.now + n <= t.updateDue
    ensures TimedReachable(b, u) && u == t.(now := t.now + n)
    decreases n
  {
    u := t;
    if n > 0 {
      u := TimedGo(b, t, Tick);
      u := Ticks(b, u, n - 1);
    }
  }

  /** An update pass of 250 ms meets freed memory. */
  lemma UpdateRace(b: Bounds) returns (t: Timed)
    requires b.update >= 250
    ensures TimedReachable(b, t) && Dangling(t.s)
  {
    t := TimedStart(b);
    t := UpdateBegins(b, t);
    t := RequestAndStop(b, t);
    t := RenderEnds(b, t);
    t := Ticks(b, t, 250);
    t := UpdateAgain(b, t);
    t := StopData(b, t);
    t := Ticks(b, t, 250);
    t := FreeAll(b, t);
  }

  // ---------------------------------------------------------------------------------------------------------
  // Threads that keep to the bounds

  /** The update thread passes as long as it takes. */
  lemma {:induction false} PassBy(b: Bounds, t: Timed, n: nat) returns (u: Timed)
    requires TimedReachable(b, t) && t.s.status == Running && t.s.render.Done? && t.s.update.TestUpdated?
    requires t.s.flags.dataWorked && t.s.flags.dataUpdated && t.now <= t.updateDue && b.update >= 1
    ensures TimedReachable(b, u) && u.s.status == Running && u.s.render.Done? && u.s.update.TestUpdated?
    ensures u.s.main == t.s.main && u.s.flags == t.s.flags && u.wake == t.wake && u.now == t.now + n
    decreases n
  {
    u := t;
    if n > 0 {
      if u.now == u.updateDue { u := UpdateAgain(b, u); }
      u := TimedGo(b, u, Tick);
      u := PassBy(b, u, n - 1);
    }
  }

  lemma ToOver(b: Bounds, t: Timed) returns (u: Timed)
    requires TimedReachable(b, t) && t.s.status == Running && t.s.main == Destruct(FreeData) && t.s.freed.calculator
    ensures TimedReachable(b, u) && u.s.main == Destruct(Over) && u.s.freed == Freed(true, true, true)
    ensures u.s.render == t.s.render && u.s.update == t.s.update
  {
    u := TimedGo(b, t, Act(MainStep));
    u := TimedGo(b, u, Act(MainStep));
  }

  /** The render thread stops at once, the update thread passes through the first sleep. */
  lemma FirstSleep(b: Bounds) returns (t: Timed)
    requires b.update >= 1
    ensures TimedReachable(b, t) && t.s.status == Running && t.s.render.Done? && t.s.update.TestUpdated?
    ensures t.s.main == Destruct(SleepRender) && t.now >= t.wake
  {
    t := TimedStart(b);
    t := UpdateBegins(b, t);
    t := RequestAndStop(b, t);
    t := RenderEnds(b, t);
    t := PassBy(b, t, 250);
  }

  /** Under any bounds, those that keep the shutdown safe among them, some run does free everything, with both threads
      over. */
  lemma ShutdownHappens(b: Bounds) returns (t: Timed)
    requires b.update >= 1
    ensures TimedReachable(b, t) && t.s.main == Destruct(Over) && t.s.freed == Freed(true, true, true)
    ensures t.s.render.Done? && t.s.update.Ended?
  {
    t := FirstSleep(b);
    t := StopData(b, t);
    t := UpdateEnds(b, t);
    t := Ticks(b, t, 250);
    t := FreeAll(b, t);
    t := ToOver(b, t);
  }

  /** The sleeps of the destructor are long enough exactly when the render thread needs less than 500 ms and an update
      pass less than 250 ms. (With a bound of 0 for an update pass no time could pass while that thread lives.) */
  lemma ShutdownExactly(b: Bounds)
    requires b.update > 0
    ensures SafeShutdown(b) <==> InTime(b)
  {
    if InTime(b) {
      forall schedule ensures !Dangling(TimedExec(b, TimedInit(), schedule).s) {
        ShutdownInTime(b, schedule);
      }
    } else if b.update >= 250 {
      var t := UpdateRace(b);
    } else {
      var t := RenderRace(b);
    }
  }
}
