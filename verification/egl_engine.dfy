/**
 The handles behind one engine object (egl_engine.cpp), and what becomes of them. Contexts and surfaces are current to
 a thread, and as the EGL specification, version 1.4, has it in sections 3.2, 3.5.5, 3.7.2 and 3.7.3: eglMakeCurrent
 acts on the thread that calls it, and what is destroyed or terminated while it is current to some thread is only
 marked, and is released when it is current to none.
*/
module EglEngine {
  import opened Common
  import opened GlesProtocol

  /** A surface or a context. */
  type Handle = nat

  /** The default display: the handles whose resources are held, those of them that are marked for release, and what is
      current to each thread. */
  datatype Egl = Egl(initialized: bool, held: set<Handle>, marked: set<Handle>,
                     main: set<Handle>, render: set<Handle>, update: set<Handle>)

  function Nothing(): Egl {
    Egl(false, {}, {}, {}, {}, {})
  }

  function Current(e: Egl, who: Thread): set<Handle> {
    match who
    case Main => e.main
    case Render => e.render
    case Update => e.update
  }

  function Bind(e: Egl, who: Thread, handles: set<Handle>): Egl {
    match who
    case Main => e.(main := handles)
    case Render => e.(render := handles)
    case Update => e.(update := handles)
  }

  /** Marked handles that are current to no thread are released. */
  function Swept(e: Egl): Egl {
    var kept := e.marked * (e.main + e.render + e.update);
    e.(held := e.held - (e.marked - kept), marked := kept)
  }

  function MakeCurrent(e: Egl, who: Thread, handles: set<Handle>): Egl {
    Swept(Bind(e, who, handles))
  }

  function Destroy(e: Egl, handles: set<Handle>): Egl {
    Swept(e.(marked := e.marked + e.held * handles))
  }

  /** eglTerminate marks everything there is. */
  function Terminate(e: Egl): Egl {
    Swept(e.(initialized := false, marked := e.held))
  }

  /** What the EGL calls of the constructor answer: is there a display, which handles do they create (None for
      EGL_NO_SURFACE and EGL_NO_CONTEXT), does eglMakeCurrent succeed, and the size of the surface. */
  datatype Answers = Answers(display: bool, surface: Option<Handle>, context: Option<Handle>, current: bool,
                             width: int, height: int)

  function AsSet(h: Option<Handle>): set<Handle> {
    if h.Some? then {h.value} else {}
  }

  function Handles(a: Answers): set<Handle> {
    AsSet(a.surface) + AsSet(a.context)
  }

  /** Created handles are new, and without a display nothing succeeds. */
  predicate Plausible(e: Egl, a: Answers) {
    && Handles(a) !! e.held && Handles(a) !! e.main + e.render + e.update && e.marked <= e.held
    && (!a.display ==> Handles(a) == {} && !a.current)
  }

  /** What a successful constructor leaves: new handles that are current to the calling thread. */
  function Opened(e: Egl, handles: set<Handle>, who: Thread): Egl {
    MakeCurrent(e.(initialized := true, held := e.held + handles), who, handles)
  }

  /** What a destructor leaves that runs on thread `who`: nothing is current to that thread, and of all that there was
      on the display only what is current to another thread is still held. */
  function Closed(e: Egl, who: Thread): Egl {
    var rest := Bind(e, who, {});
    var elsewhere := e.held * (rest.main + rest.render + rest.update);
    rest.(initialized := false, held := elsewhere, marked := elsewhere)
  }

  class Engine {
    var display: bool
    var surface: Option<Handle>
    var context: Option<Handle>
    var width: int
    var height: int

    /** m_d after the constructor of d, line 35. */
    constructor ()
      ensures !display && surface.None? && context.None?
    {
      display, surface, context, width, height := false, None, None, 0, 0;
    }

    /** Lines 89 to 114, on thread `who`. When eglMakeCurrent fails the constructor throws before it stores a handle:
        the object keeps none, and the surface and the context created so far stay behind. */
    method Open(e: Egl, a: Answers, who: Thread) returns (ok: bool, f: Egl)
      requires !display && surface.None? && context.None? && Plausible(e, a)
      modifies this
      ensures ok == a.current
      ensures if ok then f == Opened(e, Handles(a), who) && display && surface == a.surface && context == a.context
                         && width == a.width && height == a.height
              else f == e.(initialized := e.initialized || a.display, held := e.held + Handles(a))
                   && !display && surface.None? && context.None?
    {
      f := e;
      if a.display { f := f.(initialized := true); }
      if a.surface.Some? { f := f.(held := f.held + {a.surface.value}); }
      if a.context.Some? { f := f.(held := f.held + {a.context.value}); }
      assert f.held == e.held + Handles(a);
      if !a.current { return false, f; }
      f := MakeCurrent(f, who, Handles(a));
      display, surface, context := a.display, a.surface, a.context;
      width, height := a.width, a.height;
      ok := true;
    }

    /** The destructor, lines 117 to 137, on thread `who`. */
    method Close(e: Egl, who: Thread) returns (f: Egl)
      requires e.marked <= e.held
      modifies this
      ensures !display && surface.None? && context.None?
      ensures f == if old(display) then Closed(e, who) else e
    {
      f := e;
      if display {
        f := MakeCurrent(f, who, {});
        if context.Some? { f := Destroy(f, {context.value}); }
        if surface.Some? { f := Destroy(f, {surface.value}); }
        f := Terminate(f);
      }
      display, context, surface := false, None, None;
    }
  }

  /** One life of an engine on a display where nothing else is held, made on one thread and deleted on another or the
      same. Deleted by the thread that made it, it leaves nothing. Deleted by another, it leaves the display terminated
      and exactly its own surface and context, marked and still current to the thread that made it. If the constructor
      throws, exactly the handles created before the throw are left, with the display initialized. */
  method Life(a: Answers, maker: Thread, deleter: Thread) returns (ok: bool, f: Egl)
    requires Plausible(Nothing(), a)
    ensures ok == a.current
    ensures ok && maker == deleter ==> f == Nothing()
    ensures ok && maker != deleter ==>
              !f.initialized && f.held == f.marked == Current(f, maker) == Handles(a) && Current(f, deleter) == {}
    ensures !ok ==> f == Nothing().(initialized := a.display, held := Handles(a))
  {
    var engine := new Engine();
    ok, f := engine.Open(Nothing(), a, maker);
    if ok { f := engine.Close(f, deleter); }
  }
}
