# A model of the Android experiments' three cores, and what it proves

The repository is a set of small Android experiments. This project models the three parts of it that hold real logic, in
Dafny 4.11, and proves properties of every run, every input or every interleaving. `dafny verify dfyconfig.toml` checks it.

**The gles-engine threads** (`gles-engine/jni/gles_engine.cpp`, `main.cpp`, `egl_engine.cpp`). A main thread handles window
and focus commands, a render thread makes, draws with and destroys the display engine, an update thread turns the picture.
They share plain flags, one pointer and one mutex; some tests are made outside the lock, and the destructor sleeps where it
could join. `gles_protocol.dfy` is an interleaved transition system with one step for every shared read or write;
`gles_safety.dfy` is its inductive invariant, `gles_theorems.dfy`, `gles_progress.dfy`, `gles_shutdown.dfy` and
`gles_race.dfy` what follows from it. `gles_calls.dfy` says what each thread guarantees to the others at every step and what
the source's calls do as a whole, and `gles_engine.dfy` is the object that takes the steps in place and makes those calls. A
history of events (`Replay`) says what a correct life of engines is without mentioning program counters. `egl_engine.dfy` is
the ownership of handles behind one engine, `egl_threads.dfy` follows the handles through every interleaving, `binary32.dfy`
is the float arithmetic of the angle, with rounding as section 4.3.1 of IEEE 754-2008 words it, and `fps_calculator.dfy` the
frame counter.

**The Modbus self-test** (`libmodbus-tcp/jni/modbus_tcp_client.h`, `modbus_tcp_server.h`, `modbus_logger.h`). A server is
any function from the history of requests to a reply; the table server is one that follows sections 6.1, 6.3, 6.5, 6.6,
6.11, 6.12 and 6.17 of the MODBUS Application Protocol Specification V1.1b3, in two variants of accepting quantity 0 and two
of carrying out the write half of Read/Write Multiple Registers. `modbus_client.dfy` says what the client does,
`modbus_run.dfy` is the client in the form of the source and proved to do just that, `modbus_verdicts.dfy` tells from the
requests and replies alone what a run sends and is charged with, for every server, `modbus_any_server.dfy` gives bounds for
every server, `modbus_numbers.dfy` follows the random numbers, `modbus_table_run.dfy` gives failure counts and final tables
in closed form, and `modbus_self_test.dfy` puts the client and the server of the repository together.

**Search and selection in the toolchain file** (`cmake/android.toolchain.cmake`). `toolchain_lists.dfy` has CMake's truth
values and `__LIST_FILTER`, `toolchain_versions.dfy` what a toolchain's name says and how versions compare,
`toolchain_choice.dfy` the four parallel lists and the choice among them, `toolchain_search.dfy` `__INIT_VARIABLE`, and
`toolchain_order.dfy` the nested search for an NDK or a standalone toolchain.

## What turned out differently from what the code intends

- `swap_buffers` can go through a null pointer: exactly when main nulls the pointer between the unlocked test of
  `gles_engine.cpp:226` and the lock of line 228 (`SwapThroughNull`, `NullingStep`; `NullSwapHappens` is such a run).
- A completed `destroy_display` can be followed by a new engine without any `init_display`: exactly when the render thread
  had read the flag as true before it was cleared (`EngineComesBack`; `DestroyedYetOwed` is such a run).
- As long as constructions succeed, the render loop goes on, and after the destructor's first store comes to its end, if and
  only if no draw is under way on a nulled pointer (`PassEnds`, `RenderStops`).
- When main deletes the engine on TERM_WINDOW, its surface and context stay current to the render thread: they are released
  when that thread makes another engine, and are still there at its end if it makes none (`HandlesOfRun`, `HandlesAtTheEnd`).
- The sleeps of the destructor are long enough if and only if the render thread needs less than 500 ms to stop and an update
  pass less than 250 ms (`ShutdownExactly`, with runs that meet freed memory on the other side).
- The angle stops growing at 2^23 after 2^24 increments.
- The register reads of `modbus_tcp_client.h:125` and `147` are never looked at: the loops below them compare the bit
  buffers (`ReadValuesAreIgnored`).
- Whatever the server, the return value is 0 if and only if every reply code is the quantity asked for and no compared cell
  differs (`ReturnsZeroExactly`); but what is compared after two of the three register tests are the bits.
- From the second pass on, address 0 resends old numbers (`SentIsStale`).
- A server that strictly follows the specification is charged 3 failures a pass, because nb is 0 at address 99.
- The reported rate is right if and only if the window holds at most 2147483 frames (`RateExactly`).
- Before the first window closes, `calc_fps` returns whatever was in memory: the constructor leaves fps unset.
- `__LIST_FILTER` leaves a list alone when the list counts as false, which also happens when only its last element ends in
  -NOTFOUND (`FilterLeavesMatch`; `HiddenNotFoundStays` is such a list).
- The four toolchain lists stay aligned if and only if every toolchain that stays has an architecture and a version in its
  name; that the names are distinct is not needed. Otherwise versions shift to other toolchains (`OneMissingShiftsTheRest`),
  and the choice fails or takes one toolchain with the version of another: a directory arm-linux-androideabi-4.7 is enough
  (`TwoPartsCannotBeRead`, `TwoPartsGetAnothersVersion`).
- The version taken from a name is the three-part version it ends in if and only if it ends in one that no digit precedes
  (`VersionExactly`); for x86-4.7 it is 86-4.7 (`TwoPartsBehindX86`).
- The order of the search that the file documents (lines 83 to 89) is kept if and only if no normal variable with a missing
  path is in the way and the path that ought to be found does not itself count as false (`SearchFollowsTheOrder`; `StaleVariableWins` and
  `NotFoundPathIsMissed` are scopes in which it is not).

## Model

| member | source | states |
|---|---|---|
| GlesProtocol.ReplayCounts | gles-engine/jni/gles_engine.cpp:179-211 | A history that replays as a correct life of engines makes each engine exactly once and deletes every one but possibly the last exactly once |
| GlesProtocol.ReachableExec | gles-engine/jni/gles_engine.cpp:116-284 | Reachable states are closed under further actions of any thread |
| GlesSafety.StepKeeps | gles-engine/jni/gles_engine.cpp:116-284 | Every single step of every thread keeps the invariant: who holds the mutex, what the pointer tells, that the history replays, how far the destructor is, what the commands decided, and the angle |
| GlesSafety.ReachableInv | gles-engine/jni/gles_engine.cpp:116-284 | The invariant holds in every state of every interleaving |
| GlesTheorems.EngineLifeCycle | gles-engine/jni/gles_engine.cpp:179-263 | In every interleaving each engine is created once and deleted at most once, created minus deleted is 0 or 1, and outside the two windows around the stores it is 1 exactly when the pointer is non-null |
| GlesTheorems.ReplayTotals | gles-engine/jni/gles_engine.cpp:179-211 | Over a history that replays, creations minus deletions is 1 exactly when an engine is alive |
| GlesTheorems.EventsAreGuarded | gles-engine/jni/gles_engine.cpp:207-255 | Every create, delete, null store and use of the engine happens under render_mutex, held by the thread that does it |
| GlesTheorems.UsesAreCounted | gles-engine/jni/gles_engine.cpp:179-262 | In every interleaving each draw and each engine made has used the engine exactly once, but for one that is made and not yet set up; each draw has tested the pointer once; and between passes the passes begun are the draws and the sleeps |
| GlesTheorems.NoDeadlock | gles-engine/jni/gles_engine.cpp:207-256 | No thread requests the mutex while it holds it, and its holder can always go on |
| GlesTheorems.DrawSectionFixed | gles-engine/jni/gles_engine.cpp:226-256 | Through the whole draw critical section the pointer stays the same and no engine is made, whatever the other threads do |
| GlesTheorems.SwapThroughNull | gles-engine/jni/gles_engine.cpp:226-255 | swap_buffers goes through null if and only if the pointer was nulled after the unlocked test; otherwise the engine it uses is alive |
| GlesTheorems.NullingStep | gles-engine/jni/gles_engine.cpp:207-228 | The step that nulls it is main's store in destroy_display_impl, while the render thread waits for the lock of line 228 |
| GlesTheorems.CreationsAfterStore | gles-engine/jni/gles_engine.cpp:158-162 | After the store of false, and until the next init_display, at most one engine is made, and only if the render thread had read true and not made it yet |
| GlesTheorems.NullStays | gles-engine/jni/gles_engine.cpp:158-224 | With nothing owed, the pointer stays null until the next init_display, over every schedule |
| GlesTheorems.EngineComesBack | gles-engine/jni/gles_engine.cpp:158-224 | After a completed destroy_display some run without init_display brings an engine back if and only if the render thread owed one |
| GlesTheorems.NothingAfterStop | gles-engine/jni/gles_engine.cpp:217-263 | Once the render thread is past its own destroy_display no engine is alive, the display is not asked for, none is ever made again, and as many were deleted as created |
| GlesTheorems.TermDeletes | gles-engine/jni/gles_engine.cpp:207-211 | An undisturbed destroy_display_impl leaves a null pointer, a free mutex and no live engine |
| GlesTheorems.EnabledByLastCommand | gles-engine/jni/main.cpp:67-90 | After any commands is_enabled is what the last INIT, TERM, GAINED or LOST said |
| GlesTheorems.AngleClosedForm | gles-engine/jni/gles_engine.cpp:268-284 | In every state of every run the angle is half the executed increments, up to 2^24 of them, and 2^23 from then on |
| GlesProgress.EveryPassScores | gles-engine/jni/gles_engine.cpp:217-262 | With main idle and constructions succeeding, every pass begun ends in a draw when animated with an engine there or to come (the display initialized, or an engine being made), and in a sleep in all other cases, within 15 steps of the render thread |
| GlesProgress.UnsafeFaults | gles-engine/jni/gles_engine.cpp:226-255 | A draw under way on a nulled pointer, with main running no command, faults within three steps of the render thread and never ends before |
| GlesProgress.PassEnds | gles-engine/jni/gles_engine.cpp:217-262 | From any settled state with main idle and constructions succeeding, the current pass is over within 14 steps of the render thread if and only if no draw is under way on a nulled pointer; otherwise the thread faults |
| GlesProgress.SteadyDraws | gles-engine/jni/gles_engine.cpp:217-262 | With worked and animated standing, an engine there or to come, main idle and constructions succeeding: the thread goes on if and only if no draw is under way on a nulled pointer, and then, once the current pass is over, every pass draws and none sleeps, and n render steps bring at least (n - 13) / 15 draws |
| GlesProgress.SteadySleeps | gles-engine/jni/gles_engine.cpp:226-260 | In all other cases, animated false or no engine there and none to come, the thread goes on under the same condition, and then every later pass sleeps and none draws |
| GlesProgress.RenderStops | gles-engine/jni/gles_engine.cpp:213-266 | Once worked is false the render thread has at most 21 steps before it, whatever the other threads do: after them it has faulted if and only if a draw was under way on a nulled pointer, it has thrown only if a construction failed, and otherwise it is at its end |
| GlesShutdown.TimedStepKeeps | gles-engine/jni/gles_engine.cpp:133-151 | Every step and every millisecond keeps the deadlines of both threads |
| GlesShutdown.TimedExecKeeps | gles-engine/jni/gles_engine.cpp:133-151 | So does every timed run |
| GlesShutdown.ShutdownInTime | gles-engine/jni/gles_engine.cpp:133-151 | If one init, the longer of a draw or a sleep, and the final destroy take under 500 ms and an update pass under 250 ms, both threads are over before the destructor frees anything, in every timed run |
| GlesShutdown.OverInTime | gles-engine/jni/gles_engine.cpp:145-150 | The same from any state of a timed run: past the second sleep both threads are over, and nothing freed is in use |
| GlesRace.DestroyedYetOwed | gles-engine/jni/gles_engine.cpp:158-224 | A run that completes destroy_display with an engine still to come |
| GlesRace.NullSwapHappens | gles-engine/jni/gles_engine.cpp:226-255 | A run that swaps through the null pointer |
| GlesRace.RenderRace | gles-engine/jni/gles_engine.cpp:133-151 | Whenever the render thread's bounds add up to 500 ms or more, some timed run meets freed memory |
| GlesRace.UpdateRace | gles-engine/jni/gles_engine.cpp:142-150 | Whenever an update pass may take 250 ms or more, some timed run meets freed memory |
| GlesRace.ShutdownExactly | gles-engine/jni/gles_engine.cpp:133-151 | The shutdown is safe in all timed runs if and only if the bounds are met |
| GlesRace.ShutdownHappens | gles-engine/jni/gles_engine.cpp:133-151 | Under every bounds, safe ones included, some timed run does free everything, with both threads over |
| GlesCalls.MainGuarantees | gles-engine/jni/gles_engine.cpp:116-172 | What every step of main leaves to the other threads: the mutex is taken only when free and given back only by its holder, the pointer is only nulled and only under the mutex, no engine is made, the passes and the angle are untouched |
| GlesCalls.RenderGuarantees | gles-engine/jni/gles_engine.cpp:213-266 | What every step of the render thread leaves to the others: the same discipline, at most one engine made and only under the mutex, of the flags only initialized is cleared; it faults exactly when it swaps through a pointer nulled since its test and throws exactly when a construction fails |
| GlesCalls.UpdateGuarantees | gles-engine/jni/gles_engine.cpp:268-284 | Every step of the update thread touches the angle alone, and the angle is the binary32 sum of the increments |
| GlesEngine.Engine.constructor | gles-engine/jni/gles_engine.cpp:51-66 | The object starts in the initial state, where the invariant holds |
| GlesEngine.Engine.Run | gles-engine/jni/gles_engine.cpp:116-284 | Any interleaving of the threads' steps leaves the object where the transition system says, with the invariant |
| GlesEngine.Engine.IsEnabled | gles-engine/jni/gles_engine.cpp:174-177 | is_enabled between commands: the last INIT, TERM, GAINED or LOST |
| GlesEngine.Engine.DestroyDisplay | gles-engine/jni/gles_engine.cpp:158-162 | destroy_display without interference: flag cleared, pointer null, mutex free, as many deletions as creations |
| GlesEngine.Engine.HandleCommand | gles-engine/jni/main.cpp:63-91 | engine_handle_cmd without interference: is_enabled is what the last INIT, TERM, GAINED or LOST said, INIT_WINDOW has asked for a display, TERM_WINDOW has left none alive, and no other command touches the display |
| GlesEngine.Engine.RenderPass | gles-engine/jni/gles_engine.cpp:217-262 | One turn of the render loop without interference: an engine is made and set up if the display is initialized and there is none, then the pass draws if animated with an engine and sleeps otherwise; it throws exactly when an engine is to be made and cannot be. The history grows by exactly that: creation and set-up, then the test and the swap of this engine, by the render thread, all but the test with the mutex held |
| GlesEngine.Engine.StopRender | gles-engine/jni/gles_engine.cpp:263-265 | The end of render() without interference: the flag is cleared, the engine is deleted, as many were deleted as made, and the thread is over |
| GlesEngine.Engine.UpdatePass | gles-engine/jni/gles_engine.cpp:272-281 | One turn of the update loop: one increment if data_thread_updated, and nothing else changes |
| GlesEngine.Engine.Destroy | gles-engine/jni/main.cpp:118-127 | The destructor and the end of android_main without interference: every flag false and everything freed, the threads where they were, so that freed memory is in use exactly when one of them was not over |
| EglEngine.Engine.Open | gles-engine/jni/egl_engine.cpp:70-115 | What the constructor creates and stores, and that it stores nothing and leaves what it created when eglMakeCurrent fails |
| EglEngine.Engine.Close | gles-engine/jni/egl_engine.cpp:117-137 | The destructor on a given thread, if there is a display: nothing is current to that thread any more, the display is terminated, and of all that was held only what is current to another thread stays, marked; the object forgets its handles |
| EglEngine.Life | gles-engine/jni/egl_engine.cpp:70-137 | An engine deleted by the thread that made it leaves nothing; deleted by another thread it leaves exactly its surface and context, marked and current to the thread that made it; a throw leaves exactly the handles created before it |
| EglThreads.HandlesOfRun | gles-engine/jni/gles_engine.cpp:179-263 | In every interleaving the handles of at most one engine are held, those of the last one made: while it is alive, and after its deletion if and only if main deleted it, until the render thread makes another; the display is initialized exactly while an engine is alive |
| EglThreads.HandlesAtTheEnd | gles-engine/jni/gles_engine.cpp:158-162 | Once the render thread is over, a surface and a context are left if and only if main deleted the last engine |
| EglThreads.UsesAreCurrent | gles-engine/jni/gles_engine.cpp:189-255 | Every set-up and swap is made by the thread to which the engine's context is current, with its handles held and unmarked |
| EglThreads.ReachableByWhom | gles-engine/jni/gles_engine.cpp:179-263 | In every interleaving only the render thread makes and uses engines, and only it and main delete them |
| Binary32.RoundIsTiesToEven | gles-engine/jni/gles_engine.cpp:47 | Up to the largest finite number the rounding function gives the nearest binary32 number, the even one of two, judged by a definition that does not mention how it rounds |
| Binary32.RoundExact | gles-engine/jni/gles_engine.cpp:111 | A binary32 number is left alone |
| Binary32.RoundScaled | gles-engine/jni/gles_engine.cpp:278 | Rounding a reached angle plus a half does not depend on the grid on which halves are counted |
| Binary32.AddDeltaAt | gles-engine/jni/gles_engine.cpp:278 | One more half is exact below 2^24 halves, and lost in a tie at 2^24 |
| Binary32.RotationClosedForm | gles-engine/jni/gles_engine.cpp:272-279 | After k increments the angle is k halves up to k = 2^24 and stays at 2^23 for every later k |
| Binary32.RotationStepIsRounded | gles-engine/jni/gles_engine.cpp:278 | Every increment is the roundTiesToEven of the exact sum, on every grid, that of binary32 among them |
| FpsCalculator.NoOverflow | gles-engine/jni/fps_calculator.cpp:68-82 | Within 2147483 frames and 2^31 ms a window, 32-bit arithmetic gives what the integers give |
| FpsCalculator.RateExactly | gles-engine/jni/fps_calculator.cpp:75-77 | For every frame count and window length of 32 bits, the rate reported is the integer rate if and only if the window holds at most 2147483 frames |
| FpsCalculator.OverflowExactly | gles-engine/jni/fps_calculator.cpp:68-82 | A call does what the integers do if and only if it is in range, for every frame count and clock reading |
| FpsCalculator.RateBelowFrames | gles-engine/jni/fps_calculator.cpp:75-77 | The reported rate times the window is at most 1000 times the frames, the next rate more, and the rate is below the frame count |
| FpsCalculator.CalcAccounts | gles-engine/jni/fps_calculator.cpp:68-82 | Over the integers every call keeps the account of frames, rates and window lengths |
| FpsCalculator.IdealRatesAccount | gles-engine/jni/fps_calculator.cpp:31-82 | Over the integers, for every clock sequence, backwards ones included: sum of rate times length is at most 1000 times the frames of closed windows, and with rate + 1 more; each window is over 1000 ms with a rate below its frames; the lengths add up to the time passed, to less than 1 ms a window |
| FpsCalculator.RunIsIdeal | gles-engine/jni/fps_calculator.cpp:68-82 | A run of which no call overflows is the run over the integers |
| FpsCalculator.RatesAccountForFrames | gles-engine/jni/fps_calculator.cpp:31-82 | In 32 bits the same holds for every clock sequence of which no call overflows: windows of at most 2147483 frames, less than 2^31 ms long |
| FpsCalculator.FirstWindowIsGarbage | gles-engine/jni/fps_calculator.cpp:37-41 | Until a window closes the answer is what was in memory |
| FpsCalculator.Counter.CalcFps | gles-engine/jni/fps_calculator.cpp:68-82 | calc_fps in place: a call in range keeps the account of everything reported so far; if it comes at least 1.001 s after the last window closed it closes one, reports its frames a second, rounded down, and begins the next, and otherwise it counts a frame and reports what was reported before |
| FpsCalculator.Counter.GetFps | gles-engine/jni/fps_calculator.cpp:84-87 | get_fps answers the rate of the window that closed last, which is below its frame count |
| FpsCalculator.Counter.Count | gles-engine/jni/fps_calculator.cpp:68-82 | Any number of calls in place is the run, and keeps the account |
| ModbusServer.ServeAt | libmodbus-tcp/jni/modbus_tcp_server.h:42 | The whole effect of each of the seven functions, entry by entry, and its return code; a refused request has no effect |
| ModbusServer.AcceptedExactly | libmodbus-tcp/jni/modbus_tcp_server.h:42 | A request is carried out if and only if its quantities are 1 to the limit of its function (0 too by a lenient server) and every place it touches exists |
| ModbusServer.ReadBack | libmodbus-tcp/jni/modbus_tcp_server.h:42 | Whatever the tables hold, a value written at any of the 500 places is read back from it, alone or among its neighbours; at place 500 both are refused |
| ModbusServer.SeveralReadBack | libmodbus-tcp/jni/modbus_tcp_server.h:42 | Several values written are read back as written, by a read as well as by the read/write function |
| ModbusServer.TablesAreLastWrites | libmodbus-tcp/jni/modbus_tcp_server.h:52-65 | After any history every entry holds what the last accepted request that wrote it put there, or what was there at the start |
| ModbusServer.AnswersAreLastWrites | libmodbus-tcp/jni/modbus_tcp_server.h:56-60 | After any history a refused request answers -1, an accepted one its quantity, and a read brings at every place what was written there last, by the read/write request itself included |
| ModbusServer.AnswerAt | libmodbus-tcp/jni/modbus_tcp_server.h:52-65 | The i-th answer depends only on the requests up to the i-th |
| ModbusServer.Mapping.constructor | libmodbus-tcp/jni/modbus_tcp_server.h:42 | 500 coils, 500 discrete inputs, 500 holding registers and 500 input registers, all zero |
| ModbusServer.Mapping.Answer | libmodbus-tcp/jni/modbus_tcp_server.h:57-60 | The tables change in place exactly as the specification's function says, and the reply is its reply |
| ModbusServer.Mapping.Loop | libmodbus-tcp/jni/modbus_tcp_server.h:52-65 | Every query up to the first -1 is answered, in order, from the tables that the earlier queries left; other negative codes and 0 are skipped |
| ModbusServer.OneMoreReceived | libmodbus-tcp/jni/modbus_tcp_server.h:56-62 | What is served, receive by receive: a query is served last if no -1 came before it, and nothing else adds anything |
| ModbusServer.IgnoredIsNothing | libmodbus-tcp/jni/modbus_tcp_server.h:57-63 | A receive of 0, or of a negative code other than -1, changes nothing wherever it comes |
| ModbusServer.ClosedIsTheEnd | libmodbus-tcp/jni/modbus_tcp_server.h:61-62 | What comes after a -1 is not served |
| ModbusServer.ServedAppends | libmodbus-tcp/jni/modbus_tcp_server.h:56-63 | What is served of two sequences of receives is what is served of each, or of the first alone if it has a -1 |
| ModbusClient.PassInduction | libmodbus-tcp/jni/modbus_tcp_client.h:72-192 | What every iteration keeps holds at the end of a pass |
| ModbusClient.PassesInduction | libmodbus-tcp/jni/modbus_tcp_client.h:71-193 | What every pass keeps holds at the end of the run |
| ModbusClient.OddExactly | libmodbus-tcp/jni/modbus_tcp_client.h:77 | The bit filled in is set if and only if the number is one more than twice another |
| ModbusVerdicts.RunIsJudged | libmodbus-tcp/jni/modbus_tcp_client.h:71-192 | For every server, every sequence of random numbers and every LOOP: the requests are five writes an iteration, each followed by its read if its reply is in order; the count and the log are, exchange by exchange, one failure for a reply code that is not the quantity, and otherwise one for each compared cell that differs, each with its own line |
| ModbusVerdicts.ReturnsZeroExactly | libmodbus-tcp/jni/modbus_tcp_client.h:71-204 | The return value is 0 if and only if every reply was in order and no compared cell differed |
| ModbusAnyServer.FailuresAreLogged | libmodbus-tcp/jni/modbus_tcp_client.h:66-204 | For every server, every sequence of random numbers and every LOOP the return value is the number of lines appended to the log, at most 24854 * LOOP |
| ModbusAnyServer.IterationAccounted | libmodbus-tcp/jni/modbus_tcp_client.h:82-191 | One iteration logs as many lines as it counts, at most 1 + 5 * nb, or 5 when nb is 0 |
| ModbusAnyServer.WorstIteration | libmodbus-tcp/jni/modbus_tcp_client.h:82-191 | One server attains that in every iteration |
| ModbusAnyServer.BoundAttained | libmodbus-tcp/jni/modbus_tcp_client.h:66-204 | The bound 24854 * LOOP is attained, for every sequence of random numbers and every LOOP |
| ModbusAnyServer.IterationAgrees | libmodbus-tcp/jni/modbus_tcp_client.h:118-190 | Two servers that differ only in the register values of the reads at lines 125 and 147 lead to the same state after an iteration, but for the buffer read into |
| ModbusAnyServer.ReadValuesAreIgnored | libmodbus-tcp/jni/modbus_tcp_client.h:118-190 | Over whole runs they lead to the same return value, the same log and the same requests |
| ModbusNumbers.InputsOfRun | libmodbus-tcp/jni/modbus_tcp_client.h:71-80 | What an iteration sends does not depend on the server: it is a function of the random numbers, the pass and the address |
| ModbusNumbers.Counts | libmodbus-tcp/jni/modbus_tcp_client.h:74-80 | nb before each iteration, and how many numbers were drawn, in closed form |
| ModbusNumbers.HeldNumber | libmodbus-tcp/jni/modbus_tcp_client.h:75-77 | What a filled cell holds, told from its draw: the whole part of 65535 times the draw over 2^31, what that leaves to 65535, and whether it is odd |
| ModbusNumbers.SentIsFresh | libmodbus-tcp/jni/modbus_tcp_client.h:74-80 | In the first pass, and after address 0 in later ones, every cell sent was filled in the same iteration, cell 0 at address 99 included |
| ModbusNumbers.LastFill | libmodbus-tcp/jni/modbus_tcp_client.h:74-80 | Which number each cell beyond the current nb still holds |
| ModbusNumbers.SentIsStale | libmodbus-tcp/jni/modbus_tcp_client.h:74-80 | From the second pass on address 0 draws nothing and sends numbers of earlier iterations, and which |
| ModbusNumbers.Head | libmodbus-tcp/jni/modbus_tcp_client.h:74-83 | Which number cell 0 holds in every iteration of every pass |
| ModbusTableRun.TableServerIsTable | libmodbus-tcp/jni/modbus_tcp_server.h:52-65 | The table server satisfies what the results below ask of a server |
| ModbusTableRun.TableIteration | libmodbus-tcp/jni/modbus_tcp_client.h:82-191 | Against a table server one iteration is charged exactly 3 if nb is 0 and refused, and 2 * nb if the write half is dropped, and writes exactly these table entries |
| ModbusTableRun.FailureCount | libmodbus-tcp/jni/modbus_tcp_client.h:71-204 | For every sequence of random numbers, every LOOP and any tables: 0 if quantity 0 is accepted, 3 * LOOP if it is rejected, and 9900 * LOOP more if the write half of Read/Write is ignored |
| ModbusTableRun.SettledStep | libmodbus-tcp/jni/modbus_tcp_client.h:82-191 | An iteration settles the entry of its address, leaves the settled ones below it, and touches nothing above 99 |
| ModbusTableRun.FinalTables | libmodbus-tcp/jni/modbus_tcp_client.h:71-191 | After a run with LOOP at least 1: with v the whole part of 65535 times the draw of cell 0 in iteration k of the last pass over 2^31, coil k is set exactly when v is odd, register k below 99 is 65535 - v, register 99 is v, and entries 100 to 499 are unchanged |
| ModbusRun.TestClient.constructor | libmodbus-tcp/jni/modbus_tcp_client.h:49-69 | Five zeroed buffers of 99 cells, nb 99, no failures |
| ModbusRun.TestClient.FillBuffers | libmodbus-tcp/jni/modbus_tcp_client.h:74-78 | The first nb cells of three buffers get a number, its complement and its parity, in place |
| ModbusRun.TestClient.TestBit | libmodbus-tcp/jni/modbus_tcp_client.h:82-94 | Buffers, requests, log and count after the bit test, for any server |
| ModbusRun.TestClient.TestMultipleBits | libmodbus-tcp/jni/modbus_tcp_client.h:96-116 | The same for the multiple bits test |
| ModbusRun.TestClient.TestSingleRegister | libmodbus-tcp/jni/modbus_tcp_client.h:118-138 | The same for the single register test, which compares the bit buffers |
| ModbusRun.TestClient.TestMultipleRegisters | libmodbus-tcp/jni/modbus_tcp_client.h:140-160 | The same for the multiple registers test, which compares the bit buffers |
| ModbusRun.TestClient.TestReadWrite | libmodbus-tcp/jni/modbus_tcp_client.h:162-191 | The same for the read/write test |
| ModbusRun.TestClient.Iterate | libmodbus-tcp/jni/modbus_tcp_client.h:74-191 | One iteration in place, with nb changed after the fill loop |
| ModbusRun.TestClient.OnePass | libmodbus-tcp/jni/modbus_tcp_client.h:72-192 | The address loop in place is a pass |
| ModbusRun.TestClient.Loops | libmodbus-tcp/jni/modbus_tcp_client.h:71-193 | The outer loop in place is the passes |
| ModbusRun.ModbusTcpClientFun | libmodbus-tcp/jni/modbus_tcp_client.h:39-205 | A failed connect returns -1 and logs the reason in one line; a connected run, for every server, sends the tests of the run, returns what its exchanges are charged with and logs a line for each failure, and nothing else |
| ModbusSelfTest.SelfTest | libmodbus-tcp/jni/modbus_tcp_client.h:39-205 | The client in place against the table server returns exactly LOOP times the charge of a pass, and logs as many lines |
| ModbusSelfTest.ServeRun | libmodbus-tcp/jni/modbus_tcp_server.h:52-65 | The receive loop in place, on the requests of a whole run, gives every reply that the client reckoned with and leaves the final tables in its arrays |
| ToolchainLists.ListIsOff | cmake/android.toolchain.cmake:226 | When a list counts as false: it is empty, its only element is a false constant, or its last element ends in -NOTFOUND |
| ToolchainLists.OffExactly | cmake/android.toolchain.cmake:226 | Which values are false, letter by letter: empty, 0, OFF, NO, FALSE, N, IGNORE and NOTFOUND in any mixture of cases, and what ends in -NOTFOUND in any mixture of cases |
| ToolchainLists.WithoutParts | cmake/android.toolchain.cmake:229 | Items go or stay one by one, in order |
| ToolchainLists.WithoutTwice | cmake/android.toolchain.cmake:229 | Removing two sets of items one after the other is removing both |
| ToolchainLists.List.RemoveItem | cmake/android.toolchain.cmake:229 | list( REMOVE_ITEM ) drops every equal element and keeps the order of the others |
| ToolchainLists.ListFilter | cmake/android.toolchain.cmake:225-233 | Removing from the list that the loop runs over removes every match and nothing else, unless the list counts as false |
| ToolchainLists.FilterLeavesMatch | cmake/android.toolchain.cmake:225-233 | A match is left if and only if the list had one and counts as false |
| ToolchainChoice.HiddenNotFoundStays | cmake/android.toolchain.cmake:469 | A witness: a hidden directory alone whose name ends in -NOTFOUND stays in the list |
| ToolchainVersions.ArchIs | cmake/android.toolchain.cmake:477 | The architecture is the prefix up to the first dash, empty exactly when the name starts with one |
| ToolchainVersions.VersionIs | cmake/android.toolchain.cmake:476 | The version is the longest suffix that the expression matches, or empty |
| ToolchainVersions.VersionParts | cmake/android.toolchain.cmake:476 | The expression, part by part: digits, any character, digits, any character, digits |
| ToolchainVersions.VersionExactly | cmake/android.toolchain.cmake:476 | For every name: what the expression catches is a three-part version if and only if the name ends in one that no digit precedes, and then it is that one |
| ToolchainVersions.ThreeNumbers | cmake/android.toolchain.cmake:612 | A three-part version counts as its three numbers |
| ToolchainVersions.ValueOfDecimal | cmake/android.toolchain.cmake:612 | A number written in decimal, with leading zeros or without, counts as that number |
| ToolchainVersions.NumbersEnd | cmake/android.toolchain.cmake:612 | The numbers end with the text, or at any character but a dot |
| ToolchainVersions.ThreePartOrder | cmake/android.toolchain.cmake:612 | VERSION_GREATER compares three-part versions by their first, then their second, then their third number |
| ToolchainVersions.TwoPartsBehindX86 | cmake/android.toolchain.cmake:476-477 | A witness outside that condition: in x86-4.7 the expression catches 86-4.7, which beats every version with a major number below 86 |
| ToolchainVersions.BeatsAll | cmake/android.toolchain.cmake:612 | What beats the best beats everything that does not beat the best |
| ToolchainChoice.CollectAligned | cmake/android.toolchain.cmake:478-480 | An appended list is as long as the list of names exactly when every name gives something, and then it is aligned with it |
| ToolchainChoice.Toolchains.Visit | cmake/android.toolchain.cmake:474-483 | One pass of the loop, appending to three lists or removing from the one that is run over |
| ToolchainChoice.Toolchains.Build | cmake/android.toolchain.cmake:468-484 | After the loop the names are those with a machine, in order, and the other lists what was appended for them |
| ToolchainChoice.WorkingExactly | cmake/android.toolchain.cmake:468-484 | A toolchain stays if and only if its machine is known and it is not hidden; of a list that counts as false the hidden ones stay too |
| ToolchainChoice.ListsStayAligned | cmake/android.toolchain.cmake:466-484 | The machines always stay aligned with the names, and all four lists do if and only if every name that stays has an architecture and a version |
| ToolchainChoice.OneMissingShiftsTheRest | cmake/android.toolchain.cmake:479-480 | One name without a version (or without an architecture) shifts what is listed for all later toolchains by one |
| ToolchainVersions.NoVersion | cmake/android.toolchain.cmake:476 | A name with three characters among its last five that are no digits has no version |
| ToolchainChoice.TwoPartsCannotBeRead | cmake/android.toolchain.cmake:609-611 | A witness: with arm-linux-androideabi-4.7 alone, its version cannot be read |
| ToolchainChoice.TwoPartsGetAnothersVersion | cmake/android.toolchain.cmake:603-617 | A witness: with mipsel-linux-android-4.4.3 beside it, arm-linux-androideabi-4.7 is the choice for arm, with the version 4.4.3 |
| ToolchainChoice.BestIsUnique | cmake/android.toolchain.cmake:603-617 | At most one index is the first of the greatest versions |
| ToolchainChoice.NewBest | cmake/android.toolchain.cmake:612-615 | A version that beats the best so far is the first of the greatest among all so far |
| ToolchainChoice.Choose | cmake/android.toolchain.cmake:603-617 | The loop gives the first index of the greatest version for the wanted architecture, or -1 if none is above 0.0.0, and fails exactly when an index it reads is out of range |
| ToolchainChoice.BestIsNewest | cmake/android.toolchain.cmake:603-617 | When every name has an architecture and ends in a three-part version of its own, the toolchain chosen ends in a version that no version of that architecture surpasses |
| ToolchainChoice.Select | cmake/android.toolchain.cmake:468-628 | From the directories to the selection, for all names: it fails exactly when an entry it reads is missing, and otherwise selects the first of the greatest versions listed, with its machine; when the names that stay have an architecture and a version, those are the toolchain's own; when they all end in three-part versions, it is the newest by those |
| ToolchainSearch.FirstIs | cmake/android.toolchain.cmake:269-285 | The first candidate that is not empty and, if paths are tested, exists: all earlier ones are empty or missing; empty if there is none |
| ToolchainSearch.RemoveNone | cmake/android.toolchain.cmake:254-260 | string( REPLACE ) with nothing to replace changes nothing |
| ToolchainSearch.RemoveFirst | cmake/android.toolchain.cmake:254-260 | string( REPLACE ): the first occurrence goes, and what follows it is treated alike |
| ToolchainOrder.CandidateForms | cmake/android.toolchain.cmake:253-268 | What each form of argument stands for: ENV_x, OBSOLETE_ENV_x and OBSOLETE_x, a defined variable, and any other text, which counts only after VALUES |
| ToolchainSearch.CandidatesInOrder | cmake/android.toolchain.cmake:248-268 | Candidates come in the order of the arguments, and VALUES holds for all that follow it |
| ToolchainSearch.InitWithPath | cmake/android.toolchain.cmake:235-293 | With PATH an existing value is kept, a stale normal variable survives, and otherwise the variable gets the first candidate that exists; a value that does not exist is left if and only if it was such a variable; nothing else changes |
| ToolchainSearch.InitWithoutPath | cmake/android.toolchain.cmake:246-291 | Without PATH a value is kept, and an empty variable gets the first candidate that is not empty; nothing else changes |
| ToolchainSearch.Variables.SetFirst | cmake/android.toolchain.cmake:247-287 | The loop with its break sets the variable to the first acceptable candidate, or leaves it |
| ToolchainSearch.Variables.InitVariable | cmake/android.toolchain.cmake:235-293 | The whole macro in place, stale check included |
| ToolchainOrder.FindSearchPaths | cmake/android.toolchain.cmake:373-378 | The two loops give every directory with every suffix, in order |
| ToolchainOrder.SearchPathAt | cmake/android.toolchain.cmake:373-378 | Directory i with suffix j, of those that are not empty, stands at place i times the number of suffixes plus j, and there are no other places |
| ToolchainOrder.SearchedExactly | cmake/android.toolchain.cmake:202 | A path is searched if and only if it is a directory with a suffix that is not empty: the empty suffix at the end of the list adds nothing |
| ToolchainOrder.FindToolchain | cmake/android.toolchain.cmake:366-436 | The nested search in place, and what it finds |
| ToolchainOrder.DocumentedIsGrouped | cmake/android.toolchain.cmake:83-89 | The documented order, place by place, is the four groups that the search looks at |
| ToolchainOrder.SearchPicks | cmake/android.toolchain.cmake:366-395 | What the nested conditions pick from the values the two variables have after each step |
| ToolchainOrder.SearchFollowsTheOrder | cmake/android.toolchain.cmake:366-395 | For all variables, environments and file systems: the search finds the first documented place that exists (NDK parameter, NDK environment, standalone parameter, standalone environment, obsolete names, NDK defaults, standalone default) if and only if no stale normal variable is in the way and that place's path does not count as false |
| ToolchainOrder.FalseNdkIsSkipped | cmake/android.toolchain.cmake:366-436 | An NDK parameter that is set to a false value and no path is passed over: a standalone toolchain that the environment names and that exists is found, whatever the other places are |
| ToolchainOrder.FalseByName | cmake/android.toolchain.cmake:366-436 | With ANDROID_NDK set to FALSE and ANDROID_STANDALONE_TOOLCHAIN naming /tc in the environment, /tc is found |
| ToolchainOrder.StaleVariableWins | cmake/android.toolchain.cmake:243-246 | A concrete scope in which the order is not followed: a stale normal variable wins |
| ToolchainOrder.NotFoundPathIsMissed | cmake/android.toolchain.cmake:367-371 | Another one: an existing path that ends in -NOTFOUND is passed over |

## Assumptions

- The plain flags and the pointer behave sequentially consistently; weak-memory effects of C++ are not modelled.
- A throw out of the egl_engine constructor, and a use of a null engine, end the process.
- Deleting a boost::thread object detaches the thread.
- In timed runs the threads meet upper bounds only: a sleep of 50 ms may be shorter, main may be arbitrarily slow outside
  its own two sleeps, and time that the render thread waits for the lock is not counted against it.
- `long` and `unsigned int` have 32 bits, as on 32-bit Android, and signed overflow wraps around. C++ leaves it undefined, so
  the "only if" halves of `RateExactly` and `OverflowExactly` are about compilers that wrap. Clock readings are any integers,
  in microseconds.
- EGL is as its specification, version 1.4, says in sections 3.2, 3.5.5, 3.7.2 and 3.7.3: what is destroyed or terminated
  while it is current to a thread is released only when it is current to none. Every engine that is created has handles of
  its own.
- `rand` is any sequence of numbers from 0 to 2^31 - 1.
- A successful libmodbus read stores exactly as many cells as were asked for. Bits are 0 or 1.
- An unquoted CMake list loses its empty elements before foreach sees them.
- CMake lists have no element with a semicolon in it; no variable is named PATH or VALUES or like a macro's own variables,
  and a quoted value is never taken for a variable's name; VERSION_GREATER compares up to four numbers. False constants are
  recognized in any mixture of cases.

## Left out

- EGL, OpenGL ES, the looper, logging and threads as libraries: an engine is created, used and deleted, creation may fail,
  and commands arrive in any order.
- libmodbus itself, sockets and the wire format: only what a call returns, given the requests so far, is modelled. A failed
  allocation of the mapping (`modbus_tcp_server.h:43`) is not.
- Deallocation of the five buffers (`modbus_tcp_client.h:195-199`), and of the context.
- `__DETECT_TOOLCHAIN_MACHINE_NAME` (`android.toolchain.cmake:306`): the machine of a directory is an input.
- A toolchain chosen by an earlier run (`android.toolchain.cmake:593-601`), and the check that a path has not changed since
  (`android.toolchain.cmake:401-409`).
- `get_filename_component` on the path found: paths are taken as they are.
- ToolchainOrder.SearchFollowsTheOrder: assumes that search paths are just paths, that is neither names of variables nor
  PATH or VALUES nor prefixed with ENV_ or OBSOLETE_, because the macro would take them for something else.
- The compiler and linker flags, file copying and process execution of the toolchain file: configuration text.
- The other experiments (boost-socket, boost-thread, boost-date-time, boost-uuid, std-streams, cpplib, flashlight,
  vibrator): thin uses of libraries with no hard property of their own.
