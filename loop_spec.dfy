/** The state of the SDL main loop and poll-method machine (the globals
    sgPollMethod, sgTimerID and sgDead, SDL's event queue, the timer calls
    made and the events delivered to the frame), and the effect of each of
    its operations as a function of that state. */
module LoopSpec {
  import opened Events

  datatype PollMethod = PollAlways | PollTimer | PollNever

  /** A call into SDL's timer service: SDL_AddTimer with the id it returned
      (0 when it failed) or SDL_RemoveTimer with the id removed. */
  datatype TimerCall = AddTimer(id: nat) | RemoveTimer(id: nat)

  /** One call the frame's handler makes to Stage::SetPollMethod;
      newTimerId is what SDL_AddTimer returns should that call install a
      timer. */
  datatype PollRequest = PollRequest(mode: PollMethod, newTimerId: nat)

  /** What the frame's handler does in reaction to one delivered event: the
      poll-method calls it makes, in order, and whether it terminates the
      loop.  The two touch different globals, so their relative order does
      not matter. */
  datatype Reaction = Reaction(terminate: bool, pollChanges: seq<PollRequest>)

  /** The application's frame: its reaction to the newest event, given every
      event delivered so far (the newest last). */
  type Sink = seq<Event> -> Reaction

  /** What the environment does during one pass of the main loop: the native
      events that reach SDL's queue before the pass drains it, and the event
      SDL_WaitEvent returns if the pass blocks on an empty queue. */
  datatype Tick = Tick(incoming: seq<NativeEvent>, arrival: NativeEvent)

  datatype LoopState = LoopState(
    poll: PollMethod,              // sgPollMethod
    timerId: nat,                  // sgTimerID
    dead: bool,                    // sgDead
    queue: seq<NativeEvent>,       // SDL's pending native events
    delivered: seq<Event>,         // every event handed to the frame
    timerLog: seq<TimerCall>,      // every timer call made
    waits: nat,                    // number of blocking SDL_WaitEvent calls
    sdlQuit: bool)                 // SDL_Quit has been called

  /** The timers SDL holds after one more call, given those it held before. */
  function ApplyTimerCall(active: set<nat>, c: TimerCall): set<nat>
  {
    match c
    case AddTimer(id) => if id == 0 then active else active + {id}
    case RemoveTimer(id) => active - {id}
  }

  /** The timers SDL holds after the calls in log. */
  function ActiveTimers(log: seq<TimerCall>): set<nat>
  {
    if log == [] then {} else ApplyTimerCall(ActiveTimers(log[..|log| - 1]), log[|log| - 1])
  }

  lemma ActiveTimersSnoc(log: seq<TimerCall>, c: TimerCall)
    ensures ActiveTimers(log + [c]) == ApplyTimerCall(ActiveTimers(log), c)
  {
    assert (log + [c])[..|log|] == log;
  }

  /** The timer invariant: a timer id is held only in pollTimer mode, and the
      timers SDL runs are exactly the one whose id is held. */
  predicate Inv(s: LoopState)
  {
    && (s.timerId != 0 ==> s.poll == PollTimer)
    && ActiveTimers(s.timerLog) == (if s.timerId == 0 then {} else {s.timerId})
  }

  /** The program's state before any call: pollAlways, no timer, not dead. */
  function Initial(): (s: LoopState)
    ensures Inv(s) && !s.dead && s.delivered == [] && s.queue == []
    ensures s.poll == PollAlways && s.timerId == 0 && s.timerLog == [] && !s.sdlQuit
  {
    LoopState(PollAlways, 0, false, [], [], [], 0, false)
  }

  /** SetGlobalPollMethod: a new method installs a timer when it is pollTimer
      and otherwise removes the timer held; the current method changes
      nothing. */
  function SetPollMethod(s: LoopState, m: PollMethod, newTimerId: nat): (r: LoopState)
    ensures r.poll == m
    ensures s.poll == m ==> r == s
    ensures Inv(s) ==> Inv(r)
    ensures s.poll != PollTimer && m == PollTimer ==>
      r.timerId == newTimerId && r.timerLog == s.timerLog + [AddTimer(newTimerId)]
    ensures Inv(s) && s.poll == PollTimer && m != PollTimer ==>
      r.timerId == 0 && ActiveTimers(r.timerLog) == {} &&
      r.timerLog == s.timerLog + (if s.timerId != 0 then [RemoveTimer(s.timerId)] else [])
    ensures Inv(s) && s.poll != PollTimer && m != PollTimer ==> r.timerLog == s.timerLog
    ensures r.(poll := s.poll, timerId := s.timerId, timerLog := s.timerLog) == s
  {
    if m == s.poll then s
    else if m == PollTimer then
      ActiveTimersSnoc(s.timerLog, AddTimer(newTimerId));
      s.(poll := m, timerId := newTimerId, timerLog := s.timerLog + [AddTimer(newTimerId)])
    else if s.timerId != 0 then
      ActiveTimersSnoc(s.timerLog, RemoveTimer(s.timerId));
      s.(poll := m, timerId := 0, timerLog := s.timerLog + [RemoveTimer(s.timerId)])
    else
      s.(poll := m)
  }

  /** TerminateMainLoop. */
  function Terminate(s: LoopState): (r: LoopState)
    ensures r.dead
    ensures r.(dead := s.dead) == s
  {
    s.(dead := true)
  }

  /** The handler's Stage::SetPollMethod calls, applied in order. */
  function ApplyPollRequests(s: LoopState, reqs: seq<PollRequest>): (r: LoopState)
    ensures reqs == [] ==> r == s
    ensures reqs != [] ==> r.poll == reqs[|reqs| - 1].mode
    ensures Inv(s) ==> Inv(r)
    ensures r.(poll := s.poll, timerId := s.timerId, timerLog := s.timerLog) == s
    ensures s.timerLog <= r.timerLog
    decreases |reqs|
  {
    if reqs == [] then s
    else ApplyPollRequests(SetPollMethod(s, reqs[0].mode, reqs[0].newTimerId), reqs[1..])
  }

  /** The frame's reaction applied to the state. */
  function React(s: LoopState, reaction: Reaction): (r: LoopState)
    ensures r.dead == (s.dead || reaction.terminate)
    ensures Inv(s) ==> Inv(r)
    ensures reaction.pollChanges != [] ==>
      r.poll == reaction.pollChanges[|reaction.pollChanges| - 1].mode
    ensures reaction.pollChanges == [] ==>
      r.poll == s.poll && r.timerId == s.timerId && r.timerLog == s.timerLog
    ensures r.queue == s.queue && r.delivered == s.delivered
    ensures r.waits == s.waits && r.sdlQuit == s.sdlQuit
  {
    var afterPoll := ApplyPollRequests(s, reaction.pollChanges);
    if reaction.terminate then Terminate(afterPoll) else afterPoll
  }

  /** sgSDLFrame->ProcessEvent(e): the event is recorded as delivered and
      the frame reacts to it. */
  function Deliver(s: LoopState, sink: Sink, e: Event): (r: LoopState)
    ensures r.delivered == s.delivered + [e]
    ensures r.dead == (s.dead || sink(s.delivered + [e]).terminate)
    ensures Inv(s) ==> Inv(r)
    ensures sink(s.delivered + [e]).pollChanges == [] ==> r.poll == s.poll
    ensures r.queue == s.queue && r.waits == s.waits && r.sdlQuit == s.sdlQuit
  {
    var s1 := s.(delivered := s.delivered + [e]);
    React(s1, sink(s1.delivered))
  }

  /** ProcessEvent(SDL_Event&): deliver the translation of one native event;
      a dropped event leaves the state exactly as it was. */
  function ProcessEvent(s: LoopState, sink: Sink, ne: NativeEvent): (r: LoopState)
    ensures r.delivered == s.delivered + Translate(ne)
    ensures Translate(ne) == [] ==> r == s
    ensures ne.SdlQuit? ==> r.dead == (s.dead || sink(s.delivered + [Quit]).terminate)
    ensures s.dead ==> r.dead
    ensures Inv(s) ==> Inv(r)
    ensures KeepsPollMethod(sink) ==> r.poll == s.poll
    ensures r.queue == s.queue && r.waits == s.waits && r.sdlQuit == s.sdlQuit
  {
    var es := Translate(ne);
    if es == [] then s else Deliver(s, sink, es[0])
  }

  /** ProcessEvent applied to each event of es in turn, never stopping. */
  function ProcessAll(s: LoopState, sink: Sink, es: seq<NativeEvent>): (r: LoopState)
    ensures r.queue == s.queue && r.waits == s.waits && r.sdlQuit == s.sdlQuit
    decreases |es|
  {
    if es == [] then s else ProcessAll(ProcessEvent(s, sink, es[0]), sink, es[1..])
  }

  /** The inner loop of MainLoop: take queued events one at a time, process
      each, and stop once the queue is empty or right after the event whose
      handling set sgDead. */
  function Drain(s: LoopState, sink: Sink): (r: LoopState)
    ensures s.delivered <= r.delivered
    ensures |r.queue| <= |s.queue|
    ensures !r.dead ==> r.queue == []
    ensures s.dead ==> r.dead
    ensures r.waits == s.waits && r.sdlQuit == s.sdlQuit
    ensures Inv(s) ==> Inv(r)
    decreases |s.queue|
  {
    if s.queue == [] then s
    else
      var t := ProcessEvent(s.(queue := s.queue[1..]), sink, s.queue[0]);
      if t.dead then t else Drain(t, sink)
  }

  /** How many queued events Drain takes. */
  function DrainCount(s: LoopState, sink: Sink): (k: nat)
    ensures k <= |s.queue|
    ensures s.queue != [] ==> 1 <= k
    decreases |s.queue|
  {
    if s.queue == [] then 0
    else
      var t := ProcessEvent(s.(queue := s.queue[1..]), sink, s.queue[0]);
      if t.dead then 1 else 1 + DrainCount(t, sink)
  }

  /** Events reaching SDL's queue before a pass. */
  function Arrive(s: LoopState, incoming: seq<NativeEvent>): (r: LoopState)
    ensures |r.queue| == |s.queue| + |incoming|
    ensures r.queue[..|s.queue|] == s.queue && r.queue[|s.queue|..] == incoming
    ensures r.(queue := s.queue) == s
  {
    s.(queue := s.queue + incoming)
  }

  /** MainLoop's Poll step: one Poll unless the method is pollNever (sgDead is not
      consulted). */
  function PollStep(d: LoopState, sink: Sink): (p: LoopState)
    ensures d.delivered <= p.delivered && |p.delivered| <= |d.delivered| + 1
    ensures p.queue == d.queue && p.waits == d.waits && p.sdlQuit == d.sdlQuit
    ensures d.dead ==> p.dead
    ensures Inv(d) ==> Inv(p)
  {
    if d.poll != PollNever then Deliver(d, sink, Poll) else d
  }

  /** MainLoop's wait step: unless dead or in pollAlways, block for one native event
      (the first queued one, else the environment's next arrival) and process
      it. */
  function WaitStep(p: LoopState, sink: Sink, arrival: NativeEvent): (r: LoopState)
    ensures r.waits == p.waits + (if !p.dead && p.poll != PollAlways then 1 else 0)
    ensures r.delivered == p.delivered +
      (if !p.dead && p.poll != PollAlways then Translate(if p.queue != [] then p.queue[0] else arrival) else [])
    ensures r.sdlQuit == p.sdlQuit
    ensures p.dead ==> r.dead
  {
    if !p.dead && p.poll != PollAlways then
      var ev := if p.queue != [] then p.queue[0] else arrival;
      var rest := if p.queue != [] then p.queue[1..] else [];
      ProcessEvent(p.(queue := rest, waits := p.waits + 1), sink, ev)
    else p
  }

  /** One pass of the outer loop of MainLoop. */
  function Iterate(s: LoopState, sink: Sink, tick: Tick): (r: LoopState)
    ensures s.delivered <= r.delivered
    ensures r.sdlQuit == s.sdlQuit
    ensures s.dead ==> r.dead
  {
    WaitStep(PollStep(Drain(Arrive(s, tick.incoming), sink), sink), sink, tick.arrival)
  }

  /** After the loop: one DestroyHandler, then SDL_Quit. */
  function Shutdown(s: LoopState, sink: Sink): (r: LoopState)
    ensures r.delivered == s.delivered + [DestroyHandler]
    ensures r.sdlQuit && r.queue == s.queue && r.waits == s.waits
    ensures s.dead ==> r.dead
  {
    Deliver(s, sink, DestroyHandler).(sdlQuit := true)
  }

  /** MainLoop run against the environment's ticks, one per pass; when the
      ticks run out before sgDead is set the loop is still running. */
  function Run(s: LoopState, sink: Sink, ticks: seq<Tick>): (r: LoopState)
    ensures s.delivered <= r.delivered
    ensures s.dead ==> r.dead
    ensures r.dead ==> r.sdlQuit
    ensures !r.dead ==> r.sdlQuit == s.sdlQuit
    decreases |ticks|
  {
    if s.dead then Shutdown(s, sink)
    else if ticks == [] then s
    else Run(Iterate(s, sink, ticks[0]), sink, ticks[1..])
  }

  /** How many passes Run makes. */
  function Passes(s: LoopState, sink: Sink, ticks: seq<Tick>): (n: nat)
    ensures n <= |ticks|
    decreases |ticks|
  {
    if s.dead || ticks == [] then 0
    else 1 + Passes(Iterate(s, sink, ticks[0]), sink, ticks[1..])
  }

  /** The DoPoll callback's effect: while a timer runs, it may push one
      SDL_USEREVENT onto SDL's queue. */
  function TimerFired(s: LoopState): (r: LoopState)
    ensures r.queue == s.queue + (if ActiveTimers(s.timerLog) != {} then [SdlUserEvent] else [])
    ensures r.(queue := s.queue) == s
  {
    if ActiveTimers(s.timerLog) != {} then s.(queue := s.queue + [SdlUserEvent]) else s
  }

  /** A frame whose handler never changes the poll method. */
  ghost predicate KeepsPollMethod(sink: Sink)
  {
    forall h :: sink(h).pollChanges == []
  }
}
