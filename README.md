# SDL stage adapter of NME: event loop, poll methods, window creation

This project models the live logic of NME's SDL 1.2 adapter
(`version2/project/sdl/SDLStage.cpp`) and proves properties of it:

- the **poll-method machine**: `SetGlobalPollMethod` with the globals
  `sgPollMethod` and `sgTimerID`. Selecting `pollTimer` installs an SDL timer
  whose callback (`DoPoll`) pushes `SDL_USEREVENT`s. Leaving `pollTimer`
  removes that timer.
- the **main loop**: `ProcessEvent` translates native SDL events into
  application events for the frame. `MainLoop` repeats three steps until
  `sgDead` is set: drain SDL's queue, deliver `etPoll` unless the method is pollNever, and possibly block in
  `SDL_WaitEvent`. It then delivers one `etDestroyHandler` and calls
  `SDL_Quit`. `TerminateMainLoop` sets `sgDead`.
- the **decisions of `CreateMainFrame`**: the `SDL_Init` flags, the flags and
  size passed to `SDL_SetVideoMode`, the OpenGL attempt and its software
  fallback, and when the function returns null.
- two **`SDLSurf` helpers**: `Format`, and the arguments `Clear` passes to
  `SDL_FillRect` and `SDL_MapRGBA`.

Layout:

- `events.dfy` (`Events`): the native and application events, and the
  translation between them.
- `loop_spec.dfy` (`LoopSpec`): the loop's state and the effect of every
  operation as a pure function of that state.
- `loop_properties.dfy` (`LoopProperties`): the lemmas about those functions.
- `stage.dfy` (`Stage`): class `EventLoop`. Its fields are the globals of the
  source. Its methods update them step by step, with the source's loops, and
  each method is proved to leave exactly the state the matching `LoopSpec`
  function describes.
- `main_frame.dfy` (`MainFrame`): `CreateMainFrame` as a function of the
  requested flags and size and of SDL's answers.
- `surf.dfy` (`Surf`): `Format` and `Clear`.

Modelling choices:

- SDL's answers are inputs of the model:
  - whether `SDL_Init` succeeds;
  - whether each `SDL_SetVideoMode` call succeeds;
  - the id `SDL_AddTimer` returns;
  - the events that reach SDL's queue.
- The frame (`sgSDLFrame`) is a `Sink`: a function from the events delivered
  so far to its reaction to the newest one. A reaction is the sequence of
  `Stage::SetPollMethod` calls (lines 129-132) its handler makes, applied
  in order, and whether it calls `TerminateMainLoop`. The two touch
  different globals, so their relative order does not matter.
- The loop model assumes that `CreateMainFrame` succeeded, so that
  `sgSDLFrame` is a frame. When it failed, `sgSDLFrame` stays null (lines
  191, 218, 282), and `MainLoop` would dereference null at its first
  delivery (lines 358, 364 or 397).
- The environment of each loop pass is a `Tick`. It gives the events queued
  before the drain, and the event `SDL_WaitEvent` returns when it blocks on
  an empty queue.
- Timer calls are recorded in a log, and the set of running timers is
  computed from that log.
- The timer invariant `LoopSpec.Inv` says two things:
  - a timer id is held only in `pollTimer`;
  - SDL runs exactly the timer whose id is held, and none when no id is held.

The code is followed where it differs from an intuitive reading. Line 394
does not test `sgDead`, so a Poll is still delivered in the pass in which
draining set `sgDead`, unless the method is `pollNever`.
`LoopProperties.IterateFacts` and `LoopProperties.OnePerPassRun` state this.

## Model

| member | source | states |
|---|---|---|
| LoopSpec.Initial | version2/project/sdl/SDLStage.cpp:302-313 | the program starts in pollAlways, not dead, with no timer id, no timer call made, nothing queued or delivered, SDL_Quit not called, and the timer invariant holds |
| LoopSpec.SetPollMethod | version2/project/sdl/SDLStage.cpp:334-349 | the method afterwards is the one requested; requesting the current method changes nothing; entering pollTimer logs one SDL_AddTimer and holds its id; leaving pollTimer removes the held timer, zeroes the id and leaves no timer running; switching between the other two methods makes no timer call; the timer invariant is preserved; nothing else changes |
| LoopSpec.Terminate | version2/project/sdl/SDLStage.cpp:304-310 | sgDead is set and nothing else changes |
| LoopSpec.ApplyPollRequests | version2/project/sdl/SDLStage.cpp:129-132 | the handler's SetPollMethod calls, in order: none changes nothing; otherwise the method afterwards is the last one requested; the timer invariant is preserved; timer calls are only appended; only the method, the timer id and the timer log change |
| LoopSpec.React | version2/project/sdl/SDLStage.cpp:129-132 | the frame's reaction sets sgDead exactly when it was set or the handler terminates; after poll-method calls the method is the last one requested; without any the method, id and timers are kept; the invariant is preserved; queue and record are untouched |
| LoopSpec.Deliver | version2/project/sdl/SDLStage.cpp:109-112 | handing an event to the frame (and on to the stage's handler) appends it to the record; sgDead becomes set exactly when it was set before or the handler terminates; the invariant is preserved; a handler that makes no poll-method call keeps the method |
| Events.Translate | version2/project/sdl/SDLStage.cpp:351-372 | SDL_QUIT gives exactly one Quit; a mouse motion gives exactly one MouseMove with the same x and y, and a MouseMove only comes from one; every other type (resize, the timer's user event, anything unlisted) gives nothing; never a Poll or DestroyHandler |
| Events.TranslateAll | version2/project/sdl/SDLStage.cpp:351-372 | a sequence of native events yields at most one event each, and never a Poll or DestroyHandler |
| Events.TranslateAllAppend | version2/project/sdl/SDLStage.cpp:388-392 | translation distributes over concatenated event sequences |
| LoopSpec.ProcessEvent | version2/project/sdl/SDLStage.cpp:351-372 | the record grows by exactly the translation of the event; a dropped event leaves the state unchanged; processing a quit sets sgDead exactly when the frame terminates on Quit; sgDead is never cleared; the invariant is preserved; a frame that keeps the method keeps it |
| LoopSpec.DrainCount | version2/project/sdl/SDLStage.cpp:388-392 | the drain takes at least one event from a non-empty queue, and never more than are queued |
| LoopSpec.Passes | version2/project/sdl/SDLStage.cpp:386 | the loop makes at most one pass per tick of the environment |
| LoopSpec.ProcessAll | version2/project/sdl/SDLStage.cpp:388-391 | processing native events one after another, never stopping, leaves SDL's queue, the wait count and SDL_Quit as they were |
| LoopSpec.Drain | version2/project/sdl/SDLStage.cpp:388-392 | the drain only appends to the record and only shortens the queue; it leaves the queue empty unless sgDead is set; it never clears sgDead, never waits, and keeps the timer invariant |
| LoopSpec.Arrive | version2/project/sdl/SDLStage.cpp:388 | events that reach SDL's queue before a pass are queued after those already waiting, and nothing else changes |
| LoopSpec.PollStep | version2/project/sdl/SDLStage.cpp:394-398 | the Poll step appends at most one event, touches neither the queue nor the wait count, never clears sgDead and keeps the invariant |
| LoopSpec.WaitStep | version2/project/sdl/SDLStage.cpp:400-404 | the wait step counts one wait exactly when sgDead is not set and the method is not pollAlways, and then appends the translation of the waited-for event (the first queued one, else the environment's arrival); otherwise it delivers nothing |
| LoopSpec.Iterate | version2/project/sdl/SDLStage.cpp:386-405 | a pass only appends to the record, does not call SDL_Quit, and never clears sgDead |
| LoopSpec.Shutdown | version2/project/sdl/SDLStage.cpp:407-409 | after the loop, exactly DestroyHandler is appended and SDL_Quit is called |
| LoopSpec.Run | version2/project/sdl/SDLStage.cpp:383-410 | the loop only appends to the record; once sgDead is set SDL_Quit has been called; while it is not set SDL_Quit is as before |
| LoopSpec.TimerFired | version2/project/sdl/SDLStage.cpp:315-331 | DoPoll pushes one SDL_USEREVENT exactly when a timer is running, and changes nothing else |
| LoopProperties.InvTimers | version2/project/sdl/SDLStage.cpp:312-349 | under the timer invariant `LoopSpec.Inv` SDL runs at most one timer, and none outside pollTimer |
| LoopProperties.ProcessAllFacts | version2/project/sdl/SDLStage.cpp:388-391 | processing events one after another delivers their translations in order and nothing else, never clears sgDead, and keeps the invariant |
| LoopProperties.ProcessAllDelivers | version2/project/sdl/SDLStage.cpp:388-391 | processing events one after another delivers exactly their translations, in order |
| LoopProperties.ProcessAllKeeps | version2/project/sdl/SDLStage.cpp:388-391 | processing events one after another never clears sgDead, keeps the invariant, and keeps the method under a frame that never changes it |
| LoopProperties.ApplyPollRequestsQueue | version2/project/sdl/SDLStage.cpp:129-132 | the handler's poll-method calls never read or change SDL's queue |
| LoopProperties.HandlerTimerThenNever | version2/project/sdl/SDLStage.cpp:334-349 | a handler in pollAlways that selects pollTimer and then pollNever makes one SDL_AddTimer, then removes the timer it got, leaving no timer id and no timer running |
| LoopProperties.ProcessAllQueue | version2/project/sdl/SDLStage.cpp:351-372 | processing events never reads or changes SDL's queue |
| LoopProperties.ProcessEventQueue | version2/project/sdl/SDLStage.cpp:351-372 | processing one event never reads or changes SDL's queue |
| LoopProperties.DrainPrefix | version2/project/sdl/SDLStage.cpp:388-392 | the drain processes exactly the first k queued events in order and leaves the rest queued; it leaves events queued only when sgDead is set |
| LoopProperties.DrainFirstDead | version2/project/sdl/SDLStage.cpp:388-392 | no shorter prefix of the k events the drain takes sets sgDead, so it stops right after the first event that set it |
| LoopProperties.DrainSpec | version2/project/sdl/SDLStage.cpp:388-392 | the drain processes the first k queued events in order and leaves the rest queued; it stops before the queue is empty only when sgDead is set; no shorter prefix of those k events had set sgDead, so it stops right after the event that set it |
| LoopProperties.DrainFacts | version2/project/sdl/SDLStage.cpp:388-392 | the drain delivers the translations of the events it took, in queue order; it leaves the queue empty unless sgDead was set; an event is left queued only when sgDead is set; the invariant is preserved |
| LoopProperties.PollStepFacts | version2/project/sdl/SDLStage.cpp:394-398 | exactly one Poll is delivered unless the method is pollNever, and none then, whatever sgDead is |
| LoopProperties.WaitStepFacts | version2/project/sdl/SDLStage.cpp:400-404 | one blocking wait happens exactly when sgDead is not set and the method is not pollAlways, and the record then grows by exactly the translation of the waited-for event; it delivers no Poll and no DestroyHandler |
| LoopProperties.IterateFacts | version2/project/sdl/SDLStage.cpp:386-405 | one pass delivers the drained events in queue order, then exactly one Poll unless the method after draining is pollNever (even when draining set sgDead), and no DestroyHandler |
| LoopProperties.IterateRecord | version2/project/sdl/SDLStage.cpp:386-405 | the whole record of one pass: the drained events' translations in queue order, then the Poll unless the method after draining is pollNever, then the translation of the environment's arrival when the pass blocks |
| LoopProperties.DrainArrived | version2/project/sdl/SDLStage.cpp:388-392 | when the drain does not set sgDead, every event queued before the pass is delivered before every event that arrived for it |
| LoopProperties.IterateWaits | version2/project/sdl/SDLStage.cpp:386-405 | one pass waits exactly when it is neither dead nor in pollAlways after the Poll, and SDL's queue is then empty so the wait blocks for the environment; sgDead is never cleared and the invariant is kept |
| LoopProperties.IterateKeeps | version2/project/sdl/SDLStage.cpp:386-405 | a pass only appends to the record, adds no DestroyHandler, does not call SDL_Quit, and keeps the invariant |
| LoopProperties.ShutdownFacts | version2/project/sdl/SDLStage.cpp:407-409 | after the loop, DestroyHandler is appended exactly once and SDL_Quit is called |
| LoopProperties.RunShutdown | version2/project/sdl/SDLStage.cpp:383-410 | the loop finishes (SDL_Quit called) exactly when sgDead is set; it then has delivered exactly one DestroyHandler, as the last event |
| LoopProperties.RunEnd | version2/project/sdl/SDLStage.cpp:383-410 | SDL_Quit is called exactly when sgDead is set, and then DestroyHandler is the last event delivered |
| LoopProperties.RunDestroyOnce | version2/project/sdl/SDLStage.cpp:383-410 | the loop delivers one DestroyHandler once sgDead is set and none before |
| LoopProperties.RunTicks | version2/project/sdl/SDLStage.cpp:386 | until the loop ends it makes one pass for every tick of the environment |
| LoopProperties.RunKeeps | version2/project/sdl/SDLStage.cpp:383-410 | the loop never alters what it has delivered, and the timer invariant holds throughout |
| LoopProperties.RunPolls | version2/project/sdl/SDLStage.cpp:394-404 | with a frame that keeps the poll method: in pollNever no Poll is ever delivered; in pollAlways every pass delivers exactly one Poll and the loop never blocks |
| LoopProperties.SelectTimerTwice | version2/project/sdl/SDLStage.cpp:334-349 | selecting pollTimer twice is the same as once: one SDL_AddTimer, and at most one timer running |
| LoopProperties.TimerThenLeaveNoWake | version2/project/sdl/SDLStage.cpp:315-349 | entering and then leaving pollTimer leaves no timer id and no running timer, so DoPoll can push nothing |
| LoopProperties.TimerFiresOnlyInTimerMode | version2/project/sdl/SDLStage.cpp:315-331 | under the invariant, the timer pushes an SDL_USEREVENT exactly when a timer id is held, and only in pollTimer |
| LoopProperties.NoPollOrDestroyIn | version2/project/sdl/SDLStage.cpp:351-372 | translated events add no Poll and no DestroyHandler to the record |
| LoopProperties.MovePass | version2/project/sdl/SDLStage.cpp:383-405 | in pollAlways, a pass with one queued mouse motion delivers the MouseMove and then a Poll |
| LoopProperties.QuitPass | version2/project/sdl/SDLStage.cpp:383-405 | in pollAlways, a pass with a queued quit delivers Quit, whose handler terminates, and still a Poll after it |
| LoopProperties.MoveRun | version2/project/sdl/SDLStage.cpp:383-405 | in pollAlways, a run whose first pass finds one mouse motion goes on from the state with MouseMove and Poll appended |
| LoopProperties.QuitRun | version2/project/sdl/SDLStage.cpp:383-410 | in pollAlways, a run whose only pass finds a quit delivers Quit, Poll and DestroyHandler |
| LoopProperties.RunPass | version2/project/sdl/SDLStage.cpp:386 | while sgDead is not set, the loop makes another pass |
| LoopProperties.OnePerPassRun | version2/project/sdl/SDLStage.cpp:383-410 | two mouse moves and a quit, one per pass in pollAlways, deliver MouseMove, Poll, MouseMove, Poll, Quit, Poll, DestroyHandler |
| Stage.EventLoop.constructor | version2/project/sdl/SDLStage.cpp:302-313 | the globals start as in LoopSpec.Initial |
| Stage.EventLoop.SetGlobalPollMethod | version2/project/sdl/SDLStage.cpp:334-349 | the fields are updated exactly as LoopSpec.SetPollMethod describes, the method afterwards is the one requested, and the invariant is preserved |
| Stage.EventLoop.TerminateMainLoop | version2/project/sdl/SDLStage.cpp:304-310 | sets sgDead and nothing else |
| Stage.EventLoop.TimerCallback | version2/project/sdl/SDLStage.cpp:315-331 | DoPoll pushes one SDL_USEREVENT while a timer is running |
| Stage.EventLoop.ApplyPollRequests | version2/project/sdl/SDLStage.cpp:129-132 | the handler's SetPollMethod calls, made in order by a loop, leave the state LoopSpec.ApplyPollRequests describes |
| Stage.EventLoop.Deliver | version2/project/sdl/SDLStage.cpp:163-166 | the frame hands the event to its stage's handler, which reacts, as LoopSpec.Deliver describes |
| Stage.EventLoop.ProcessEvent | version2/project/sdl/SDLStage.cpp:351-372 | the switch on the event type, as LoopSpec.ProcessEvent describes |
| Stage.EventLoop.PollEvent | version2/project/sdl/SDLStage.cpp:388 | SDL_PollEvent returns the first queued event and removes it, and reports an empty queue |
| Stage.EventLoop.WaitEvent | version2/project/sdl/SDLStage.cpp:402 | SDL_WaitEvent returns the first queued event, or the next arrival when the queue is empty |
| Stage.EventLoop.DrainQueue | version2/project/sdl/SDLStage.cpp:388-392 | the inner loop leaves exactly the state LoopSpec.Drain describes |
| Stage.EventLoop.DeliverPoll | version2/project/sdl/SDLStage.cpp:394-398 | leaves the state LoopSpec.PollStep describes |
| Stage.EventLoop.WaitAndProcess | version2/project/sdl/SDLStage.cpp:400-404 | leaves the state LoopSpec.WaitStep describes |
| Stage.EventLoop.Iterate | version2/project/sdl/SDLStage.cpp:386-405 | one pass of the outer loop leaves the state LoopSpec.Iterate describes |
| Stage.EventLoop.MainLoop | version2/project/sdl/SDLStage.cpp:383-410 | the loop leaves the state LoopSpec.Run describes, so RunShutdown, RunKeeps and RunPolls hold of it |
| MainFrame.GlAttributes | version2/project/sdl/SDLStage.cpp:247-256 | double buffering and a 32-bit depth are always asked for, and swap control exactly when vsync was requested |
| MainFrame.CreateMainFrame | version2/project/sdl/SDLStage.cpp:193-300 | SDL_Init gets exactly the video, audio, timer and joystick subsystems, plus SDL_OPENGL exactly when hardware was requested; a failed SDL_Init returns null before any other call; otherwise one or two video modes are asked for |
| MainFrame.RequestedModes | version2/project/sdl/SDLStage.cpp:224-277 | every video mode asked for is 0x0 when full screen and the requested size otherwise, 32 bits deep, a hardware surface, and resizable and full screen exactly as requested |
| MainFrame.HardwareFallback | version2/project/sdl/SDLStage.cpp:244-284 | the OpenGL mode is tried first exactly when hardware was requested; a second mode is asked for exactly when that attempt fails, with SDL_OPENGL cleared and SDL_DOUBLEBUF added |
| MainFrame.FrameOutcome | version2/project/sdl/SDLStage.cpp:215-299 | a frame is made and stored exactly when SDL_Init and one of the modes succeed; it is OpenGL exactly when hardware was requested and the OpenGL mode was granted; it carries the granted mode's flags and the requested size |
| Surf.Format | version2/project/sdl/SDLStage.cpp:27-32 | pfARGB exactly when SDL_SRCALPHA is set, pfXRGB otherwise |
| Surf.ToSint16 | version2/project/sdl/SDLStage.cpp:43-44 | a value in range is kept, and any value is reduced modulo 2^16 |
| Surf.ToUint16 | version2/project/sdl/SDLStage.cpp:45-46 | a value in range is kept, and any value is reduced modulo 2^16 |
| Surf.ToSdlRect | version2/project/sdl/SDLStage.cpp:40-47 | each field in the range of its SDL_Rect type is copied unchanged |
| Surf.ToUint8 | version2/project/sdl/SDLStage.cpp:49-50 | a value below 256 is kept, and any value is reduced modulo 256 (its low byte) |
| Surf.Clear | version2/project/sdl/SDLStage.cpp:36-51 | a null rect selects the whole surface and a rect is converted field by field; the channels are r = (c>>16) mod 256, g = (c>>8) mod 256, b = c mod 256, a = c>>24 |
| Surf.ClearChannelsRoundTrip | version2/project/sdl/SDLStage.cpp:49-50 | the four channels Clear passes make up the colour again, so no bit of it is lost |

## Left out

- The SDL and OpenGL calls themselves are foreign library code. Their
  results are inputs: `SDL_Init` and `SDL_SetVideoMode` succeed or fail,
  `SDL_AddTimer` returns an id, `SDL_PollEvent` and `SDL_WaitEvent` read
  the modelled queue. The GL attribute calls and video-mode calls are
  recorded. `SDL_FillRect` and `SDL_MapRGBA` are represented by the
  arguments they receive.
- `DoPoll` runs on SDL's timer thread. Only its effect is modelled: while a
  timer runs, an `SDL_USEREVENT` may join the queue (`TimerCallback`). Its
  timing against the main loop and the interval it returns are not modelled.
- Stage.EventLoop.MainLoop: the source's loop may never end (in pollAlways
  with a frame that never terminates it spins). The model runs it against a
  finite sequence of ticks. When the ticks run out before `sgDead` is set,
  the loop is still running, and nothing after the loop has happened.
- Object lifecycle and reference counting are memory management over
  classes not shown here. That covers the constructors and destructors of
  `SDLSurf`, `SDLStage` and `SDLFrame`, `IncRef`/`DecRef`, and the hardware
  context and surface.
- The empty stubs do nothing: `BlitTo`, `GetMouse`, `SetTitle`, `SetIcon`.
  `CreateTopLevelWindow` has no body.
- Platform and audio bootstrapping are platform, audio and output side
  effects. That covers `MacBoot`, `Mix_OpenAudio`/`Mix_CloseAudio`, the
  window caption, key repeat, unicode, and the `printf`/`fprintf`
  diagnostics.
- `HintColourOrder` (line 287) is a decision that is left out. Its argument
  is true when OpenGL was requested (the requested flag, not whether the
  OpenGL mode was granted) or when the screen's red mask is 0xff. The
  screen's pixel format is not modelled, and `HintColourOrder` is defined
  outside this file.
- The relative order of the `SDL_GL_SetAttribute` calls and the
  `SDL_SetVideoMode` calls is not recorded: `Creation` keeps each kind in its
  own ordered sequence, so no contract says the attributes come first.
- `SDL_WaitEvent`'s error return (0) is not tested by the source, which then
  processes whatever the event variable holds. The model does not separate
  that case: the free `Tick.arrival` stands for whatever event is then
  processed, a stale one included.
- `SDL_Quit` also tears down SDL's timers. The model does not record that:
  after the shutdown, `ActiveTimers` still lists a timer that a handler
  installed while reacting to `etDestroyHandler`.
- The `IPHONE` branch that adds `SDL_NOFRAME` is a platform build variant.
  The model is the desktop build.
- The `NME_MIXER` fragment at namespace scope (lines 374-379) is not
  reachable code.
- The code under `#if 0` is compiled out.
- `Flip`, `BeginRender`, `EndRender` and the surface locking are thin
  wrappers around SDL calls.
- The `wf*` window flags are defined in Display.h, which is not part of this
  model. They stand as distinct single bits; the decisions depend on nothing
  more. The `SDL_*` flag values are those of SDL 1.2.
- Surf.ToSdlRect: `SDL_Rect` has `Sint16` position and `Uint16` size, so a
  field outside that range is not copied unchanged. The model states the C
  conversion (reduction modulo 2^16) as such.
