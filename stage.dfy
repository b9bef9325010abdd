/** The imperative side of SDLStage.cpp: the globals sgPollMethod, sgTimerID
    and sgDead, SDL's event queue and the frame sgSDLFrame, held as fields of
    one object, and the functions that update them step by step.  Each method
    is proved to leave the state that the matching function of LoopSpec
    describes, so that the properties proved in LoopProperties hold of it. */
module Stage {
  import opened Events
  import opened LoopSpec

  class EventLoop {
    var pollMethod: PollMethod
    var timerId: nat
    var dead: bool
    var queue: seq<NativeEvent>
    var delivered: seq<Event>
    var timerLog: seq<TimerCall>
    var waits: nat
    var sdlQuit: bool
    /** The frame sgSDLFrame, seen through its reaction to each event. */
    const sink: Sink

    /** The abstract state these fields stand for. */
    function State(): LoopState
      reads this
    {
      LoopState(pollMethod, timerId, dead, queue, delivered, timerLog, waits, sdlQuit)
    }

    /** The program's start: pollAlways, no timer, sgDead false. */
    constructor (frame: Sink)
      ensures State() == Initial() && sink == frame
      ensures Inv(State())
    {
      pollMethod, timerId, dead := PollAlways, 0, false;
      queue, delivered, timerLog, waits, sdlQuit := [], [], [], 0, false;
      sink := frame;
    }

    /** SetGlobalPollMethod; addTimerResult is what SDL_AddTimer returns if
        this call installs a timer. */
    method SetGlobalPollMethod(inMethod: PollMethod, addTimerResult: nat)
      modifies this
      ensures State() == SetPollMethod(old(State()), inMethod, addTimerResult)
      ensures Inv(old(State())) ==> Inv(State())
      ensures pollMethod == inMethod
    {
      if inMethod != pollMethod {
        pollMethod := inMethod;
        if pollMethod == PollTimer {
          timerId := addTimerResult;
          timerLog := timerLog + [AddTimer(addTimerResult)];
        } else if timerId != 0 {
          timerLog := timerLog + [RemoveTimer(timerId)];
          timerId := 0;
        }
      }
    }

    /** TerminateMainLoop. */
    method TerminateMainLoop()
      modifies this
      ensures State() == Terminate(old(State()))
      ensures dead
    {
      dead := true;
    }

    /** DoPoll, run by SDL's timer: push one SDL_USEREVENT while a timer is
        installed. */
    method TimerCallback()
      modifies this
      ensures State() == TimerFired(old(State()))
    {
      if ActiveTimers(timerLog) != {} {
        queue := queue + [SdlUserEvent];
      }
    }

    /** The handler's Stage::SetPollMethod calls, made in order. */
    method ApplyPollRequests(reqs: seq<PollRequest>)
      modifies this
      ensures State() == LoopSpec.ApplyPollRequests(old(State()), reqs)
    {
      var i := 0;
      while i < |reqs|
        invariant 0 <= i <= |reqs|
        invariant LoopSpec.ApplyPollRequests(State(), reqs[i..]) == LoopSpec.ApplyPollRequests(old(State()), reqs)
      {
        SetGlobalPollMethod(reqs[i].mode, reqs[i].newTimerId);
        i := i + 1;
      }
    }

    /** sgSDLFrame->ProcessEvent(e): the frame receives the event and may, in
        its handler, change the poll method and terminate the loop. */
    method Deliver(e: Event)
      modifies this
      ensures State() == LoopSpec.Deliver(old(State()), sink, e)
    {
      delivered := delivered + [e];
      var reaction := sink(delivered);
      ApplyPollRequests(reaction.pollChanges);
      if reaction.terminate {
        TerminateMainLoop();
      }
    }

    /** ProcessEvent(SDL_Event&): the switch on the native event type. */
    method ProcessEvent(ne: NativeEvent)
      modifies this
      ensures State() == LoopSpec.ProcessEvent(old(State()), sink, ne)
    {
      match ne {
        case SdlQuit =>
          Deliver(Quit);
        case SdlMouseMotion(x, y) =>
          Deliver(MouseMove(x, y));
        case SdlVideoResize(_, _) =>
        case _ =>
      }
    }

    /** SDL_PollEvent: take the first queued event, if any. */
    method PollEvent() returns (ne: NativeEvent, got: bool)
      modifies this
      ensures got == (old(queue) != [])
      ensures got ==> ne == old(queue)[0] && State() == old(State()).(queue := old(queue)[1..])
      ensures !got ==> State() == old(State())
    {
      got := queue != [];
      if got {
        ne := queue[0];
        queue := queue[1..];
      } else {
        ne := SdlOther(0);
      }
    }

    /** SDL_WaitEvent: take the first queued event, or block until the
        environment supplies arrival. */
    method WaitEvent(arrival: NativeEvent) returns (ne: NativeEvent)
      modifies this
      ensures ne == (if old(queue) != [] then old(queue)[0] else arrival)
      ensures State() == old(State()).(queue := if old(queue) != [] then old(queue)[1..] else [],
                                       waits := old(waits) + 1)
    {
      if queue != [] {
        ne := queue[0];
        queue := queue[1..];
      } else {
        ne := arrival;
      }
      waits := waits + 1;
    }

    /** The inner loop of MainLoop: process queued events
        in order until the queue is empty or sgDead has been set. */
    method DrainQueue()
      modifies this
      ensures State() == Drain(old(State()), sink)
    {
      ghost var drained := Drain(State(), sink);
      var stop := false;
      while !stop
        invariant stop ==> State() == drained
        invariant !stop ==> Drain(State(), sink) == drained
        decreases |queue|, !stop
      {
        var ne, got := PollEvent();
        if !got {
          stop := true;
        } else {
          ProcessEvent(ne);
          if dead {
            stop := true;
          }
        }
      }
    }

    /** MainLoop's Poll step: the Poll, unless the method is pollNever. */
    method DeliverPoll()
      modifies this
      ensures State() == PollStep(old(State()), sink)
    {
      if pollMethod != PollNever {
        Deliver(Poll);
      }
    }

    /** MainLoop's wait step: unless dead or in pollAlways, block for one native event
        and process it. */
    method WaitAndProcess(arrival: NativeEvent)
      modifies this
      ensures State() == WaitStep(old(State()), sink, arrival)
    {
      if !dead && pollMethod != PollAlways {
        var ne := WaitEvent(arrival);
        ProcessEvent(ne);
      }
    }

    /** One pass of the outer loop of MainLoop: the events that arrived are
        queued and drained, then come the Poll and the blocking wait. */
    method Iterate(tick: Tick)
      modifies this
      ensures State() == LoopSpec.Iterate(old(State()), sink, tick)
    {
      queue := queue + tick.incoming;
      DrainQueue();
      DeliverPoll();
      WaitAndProcess(tick.arrival);
    }

    /** MainLoop, run against the environment's ticks, one per pass.  The
        source's loop only exits once sgDead is set; when the ticks run out
        first, the loop is still running and nothing more happens here. */
    method MainLoop(ticks: seq<Tick>)
      modifies this
      ensures State() == Run(old(State()), sink, ticks)
    {
      ghost var target := Run(State(), sink, ticks);
      var i := 0;
      while !dead && i < |ticks|
        invariant 0 <= i <= |ticks|
        invariant Run(State(), sink, ticks[i..]) == target
        decreases |ticks| - i
      {
        Iterate(ticks[i]);
        i := i + 1;
      }
      if dead {
        Deliver(DestroyHandler);
        sdlQuit := true;
      }
    }
  }
}
