/** Properties of the main loop and the poll-method machine, proved about the
    functions of LoopSpec. */
module LoopProperties {
  import opened Events
  import opened LoopSpec

  // ---------------------------------------------------------------------
  // Poll-method machine

  /** Under the invariant SDL runs at most one timer, and none outside
      pollTimer, so no stale timer can wake the loop. */
  lemma InvTimers(s: LoopState)
    requires Inv(s)
    ensures |ActiveTimers(s.timerLog)| <= 1
    ensures s.poll != PollTimer ==> ActiveTimers(s.timerLog) == {}
  {
  }

  /** Selecting pollTimer twice installs one timer: the second call is a no-op
      and the log gains at most the one SDL_AddTimer of the first. */
  lemma SelectTimerTwice(s: LoopState, id1: nat, id2: nat)
    requires Inv(s)
    ensures SetPollMethod(SetPollMethod(s, PollTimer, id1), PollTimer, id2) == SetPollMethod(s, PollTimer, id1)
    ensures SetPollMethod(s, PollTimer, id1).timerLog ==
      s.timerLog + (if s.poll == PollTimer then [] else [AddTimer(id1)])
    ensures |ActiveTimers(SetPollMethod(s, PollTimer, id1).timerLog)| <= 1
  {
    var r := SetPollMethod(s, PollTimer, id1);
    assert Inv(r);
  }

  /** Switching to pollTimer and then to another method before the timer
      fires leaves no timer running, so the timer can push no wake event. */
  lemma TimerThenLeaveNoWake(s: LoopState, id1: nat, m: PollMethod, id2: nat)
    requires Inv(s) && m != PollTimer
    ensures var t := SetPollMethod(SetPollMethod(s, PollTimer, id1), m, id2);
      t.timerId == 0 && ActiveTimers(t.timerLog) == {} && TimerFired(t) == t
  {
    var r := SetPollMethod(s, PollTimer, id1);
    assert Inv(r);
  }

  /** While the invariant holds, the timer callback pushes a wake event exactly
      when a timer id is held, and so only in pollTimer mode. */
  lemma TimerFiresOnlyInTimerMode(s: LoopState)
    requires Inv(s)
    ensures TimerFired(s) != s <==> s.timerId != 0
    ensures TimerFired(s) != s ==> s.poll == PollTimer && TimerFired(s).queue == s.queue + [SdlUserEvent]
  {
    if s.timerId != 0 {
      assert s.timerId in ActiveTimers(s.timerLog);
      assert |TimerFired(s).queue| == |s.queue| + 1;
    }
  }

  /** A handler that, in pollAlways, selects pollTimer and then pollNever
      makes one SDL_AddTimer and then removes the timer it got, so that no
      timer is left running. */
  lemma HandlerTimerThenNever(s: LoopState, id: nat)
    requires Inv(s) && s.poll == PollAlways
    ensures var r := ApplyPollRequests(s, [PollRequest(PollTimer, id), PollRequest(PollNever, 0)]);
      && r.poll == PollNever && r.timerId == 0
      && r.timerLog == s.timerLog + [AddTimer(id)] + (if id != 0 then [RemoveTimer(id)] else [])
      && ActiveTimers(r.timerLog) == {}
  {
    var reqs := [PollRequest(PollTimer, id), PollRequest(PollNever, 0)];
    var t := SetPollMethod(s, PollTimer, id);
    assert reqs[1..] == [PollRequest(PollNever, 0)];
    assert reqs[1..][1..] == [];
    assert ApplyPollRequests(s, reqs) == SetPollMethod(t, PollNever, 0);
  }

  // ---------------------------------------------------------------------
  // Event processing

  /** The handler's poll-method calls do not look at SDL's queue. */
  lemma {:induction false} ApplyPollRequestsQueue(s: LoopState, reqs: seq<PollRequest>, q: seq<NativeEvent>)
    ensures ApplyPollRequests(s.(queue := q), reqs) == ApplyPollRequests(s, reqs).(queue := q)
    decreases |reqs|
  {
    if reqs != [] {
      var t := SetPollMethod(s, reqs[0].mode, reqs[0].newTimerId);
      assert SetPollMethod(s.(queue := q), reqs[0].mode, reqs[0].newTimerId) == t.(queue := q);
      ApplyPollRequestsQueue(t, reqs[1..], q);
    }
  }

  /** Processing does not look at SDL's queue. */
  lemma ProcessEventQueue(s: LoopState, sink: Sink, ne: NativeEvent, q: seq<NativeEvent>)
    ensures ProcessEvent(s.(queue := q), sink, ne) == ProcessEvent(s, sink, ne).(queue := q)
  {
    var es := Translate(ne);
    if es != [] {
      var s1 := s.(delivered := s.delivered + [es[0]]);
      ApplyPollRequestsQueue(s1, sink(s1.delivered).pollChanges, q);
    }
  }

  lemma {:induction false} ProcessAllQueue(s: LoopState, sink: Sink, es: seq<NativeEvent>, q: seq<NativeEvent>)
    ensures ProcessAll(s.(queue := q), sink, es) == ProcessAll(s, sink, es).(queue := q)
    decreases |es|
  {
    if es != [] {
      ProcessEventQueue(s, sink, es[0], q);
      ProcessAllQueue(ProcessEvent(s, sink, es[0]), sink, es[1..], q);
    }
  }

  /** Processing a sequence of native events delivers their translations in
      order and nothing else, and keeps the timer invariant. */
  lemma ProcessAllFacts(s: LoopState, sink: Sink, es: seq<NativeEvent>)
    ensures ProcessAll(s, sink, es).delivered == s.delivered + TranslateAll(es)
    ensures ProcessAll(s, sink, es).queue == s.queue
    ensures ProcessAll(s, sink, es).waits == s.waits
    ensures ProcessAll(s, sink, es).sdlQuit == s.sdlQuit
    ensures s.dead ==> ProcessAll(s, sink, es).dead
    ensures Inv(s) ==> Inv(ProcessAll(s, sink, es))
    ensures KeepsPollMethod(sink) ==> ProcessAll(s, sink, es).poll == s.poll
  {
    ProcessAllDelivers(s, sink, es);
    ProcessAllKeeps(s, sink, es);
  }

  lemma {:induction false} ProcessAllDelivers(s: LoopState, sink: Sink, es: seq<NativeEvent>)
    ensures ProcessAll(s, sink, es).delivered == s.delivered + TranslateAll(es)
    ensures ProcessAll(s, sink, es).waits == s.waits
    ensures ProcessAll(s, sink, es).sdlQuit == s.sdlQuit
    decreases |es|
  {
    if es != [] {
      var t := ProcessEvent(s, sink, es[0]);
      ProcessAllDelivers(t, sink, es[1..]);
      assert ProcessAll(s, sink, es) == ProcessAll(t, sink, es[1..]);
      assert TranslateAll(es) == Translate(es[0]) + TranslateAll(es[1..]);
    }
  }

  lemma {:induction false} ProcessAllKeeps(s: LoopState, sink: Sink, es: seq<NativeEvent>)
    ensures s.dead ==> ProcessAll(s, sink, es).dead
    ensures Inv(s) ==> Inv(ProcessAll(s, sink, es))
    ensures KeepsPollMethod(sink) ==> ProcessAll(s, sink, es).poll == s.poll
    decreases |es|
  {
    if es != [] {
      ProcessAllKeeps(ProcessEvent(s, sink, es[0]), sink, es[1..]);
    }
  }

  // ---------------------------------------------------------------------
  // Draining SDL's queue

  /** The drain takes the first k queued events, k = DrainCount, and
      processes them in order; it leaves the queue non-empty only when
      sgDead is set. */
  lemma {:induction false} DrainPrefix(s: LoopState, sink: Sink)
    ensures var q, k := s.queue, DrainCount(s, sink);
      && Drain(s, sink) == ProcessAll(s.(queue := q[k..]), sink, q[..k])
      && (k == |q| || Drain(s, sink).dead)
    decreases |s.queue|
  {
    var q := s.queue;
    if q != [] {
      var u := s.(queue := q[1..]);
      var t := ProcessEvent(u, sink, q[0]);
      ProcessEventQueue(u, sink, q[0], q[1..]);
      if t.dead {
        assert q[..1] == [q[0]];
        assert s.(queue := q[1..]) == u;
      } else {
        DrainPrefix(t, sink);
        DrainPrefixStep(s, sink);
      }
    }
  }

  /** The step of DrainPrefix for a first event that does not set sgDead. */
  lemma DrainPrefixStep(s: LoopState, sink: Sink)
    requires s.queue != []
    requires !ProcessEvent(s.(queue := s.queue[1..]), sink, s.queue[0]).dead
    requires var t := ProcessEvent(s.(queue := s.queue[1..]), sink, s.queue[0]);
      var k' := DrainCount(t, sink);
      Drain(t, sink) == ProcessAll(t.(queue := t.queue[k'..]), sink, t.queue[..k'])
    ensures var q, k := s.queue, DrainCount(s, sink);
      Drain(s, sink) == ProcessAll(s.(queue := q[k..]), sink, q[..k])
  {
    DrainUnfold(s, sink);
    DrainStepEvent(s, sink, DrainCount(s, sink));
    DrainCons(s, sink);
  }

  /** One step of the drain, when the first event does not set sgDead. */
  lemma DrainUnfold(s: LoopState, sink: Sink)
    requires s.queue != []
    requires !ProcessEvent(s.(queue := s.queue[1..]), sink, s.queue[0]).dead
    ensures var t := ProcessEvent(s.(queue := s.queue[1..]), sink, s.queue[0]);
      Drain(s, sink) == Drain(t, sink) && DrainCount(s, sink) == DrainCount(t, sink) + 1
  {
  }

  /** Slicing facts for a queue whose head has been taken. */
  lemma SliceAfterHead<T>(q: seq<T>, k: nat)
    requires 1 <= k <= |q|
    ensures q[1..][k - 1..] == q[k..]
    ensures q[1..][..k - 1] == q[..k][1..]
  {
  }

  /** One unfolding of ProcessAll over the events the drain takes. */
  lemma DrainCons(s: LoopState, sink: Sink)
    requires s.queue != []
    ensures var q, k := s.queue, DrainCount(s, sink);
      ProcessAll(s.(queue := q[k..]), sink, q[..k])
        == ProcessAll(ProcessEvent(s.(queue := q[k..]), sink, q[..k][0]), sink, q[..k][1..])
  {
  }

  /** Processing the first queued event commutes with cutting the queue
      down to its part after the first k events. */
  lemma DrainStepEvent(s: LoopState, sink: Sink, k: nat)
    requires 1 <= k <= |s.queue|
    ensures var q := s.queue;
      var t := ProcessEvent(s.(queue := q[1..]), sink, q[0]);
      && t.(queue := t.queue[k - 1..]) == ProcessEvent(s.(queue := q[k..]), sink, q[..k][0])
      && t.queue[..k - 1] == q[..k][1..]
  {
    var q := s.queue;
    var t := ProcessEvent(s.(queue := q[1..]), sink, q[0]);
    assert t.queue == q[1..];
    SliceAfterHead(q, k);
    ProcessEventQueue(s.(queue := q[1..]), sink, q[0], q[k..]);
    assert s.(queue := q[1..]).(queue := q[k..]) == s.(queue := q[k..]);
  }

  /** No shorter prefix of the events the drain takes sets sgDead, so the
      drain stops right after the first event whose handling set it. */
  lemma {:induction false} DrainFirstDead(s: LoopState, sink: Sink)
    ensures var q, k := s.queue, DrainCount(s, sink);
      forall j :: 0 < j < k ==> !ProcessAll(s, sink, q[..j]).dead
    decreases |s.queue|
  {
    var q := s.queue;
    if q != [] {
      var u := s.(queue := q[1..]);
      var t := ProcessEvent(u, sink, q[0]);
      if !t.dead {
        var k := DrainCount(t, sink) + 1;
        DrainFirstDead(t, sink);
        assert t.queue == q[1..];
        forall j | 0 < j < k
          ensures !ProcessAll(s, sink, q[..j]).dead
        {
          ProcessEventQueue(u, sink, q[0], q);
          assert s == u.(queue := q);
          assert q[..j][0] == q[0];
          assert q[..j][1..] == q[1..][..j - 1];
          ProcessAllQueue(t, sink, q[1..][..j - 1], q);
          if j == 1 {
            assert q[..j][1..] == [];
          }
        }
      }
    }
  }

  /** The drain processes exactly the queued events up to the first whose
      handling set sgDead (all of them when none does) and leaves the rest
      queued. */
  lemma DrainSpec(s: LoopState, sink: Sink)
    ensures var q, k := s.queue, DrainCount(s, sink);
      && Drain(s, sink) == ProcessAll(s.(queue := q[k..]), sink, q[..k])
      && (k == |q| || Drain(s, sink).dead)
      && (forall j :: 0 < j < k ==> !ProcessAll(s, sink, q[..j]).dead)
  {
    DrainPrefix(s, sink);
    DrainFirstDead(s, sink);
  }

  /** What the drain delivers, in queue order, and what it leaves queued. */
  lemma DrainFacts(s: LoopState, sink: Sink)
    ensures var d, q, k := Drain(s, sink), s.queue, DrainCount(s, sink);
      && d.delivered == s.delivered + TranslateAll(q[..k])
      && d.queue == q[k..]
      && (!d.dead ==> d.queue == [])
      && (k < |q| ==> d.dead)
      && (s.dead ==> d.dead)
      && d.waits == s.waits && d.sdlQuit == s.sdlQuit
      && (Inv(s) ==> Inv(d))
      && (KeepsPollMethod(sink) ==> d.poll == s.poll)
  {
    var q, k := s.queue, DrainCount(s, sink);
    DrainSpec(s, sink);
    ProcessAllFacts(s.(queue := q[k..]), sink, q[..k]);
  }

  // ---------------------------------------------------------------------
  // One pass of the loop

  lemma NoPollOrDestroyIn(prefix: seq<Event>, es: seq<Event>)
    requires Poll !in es && DestroyHandler !in es
    ensures Count(Poll, prefix + es) == Count(Poll, prefix)
    ensures Count(DestroyHandler, prefix + es) == Count(DestroyHandler, prefix)
  {
    assert multiset(prefix + es) == multiset(prefix) + multiset(es);
    assert Poll !in multiset(es) && DestroyHandler !in multiset(es);
  }

  /** MainLoop's Poll step: one Poll unless the method is pollNever. */
  lemma PollStepFacts(d: LoopState, sink: Sink)
    ensures var p := PollStep(d, sink);
      && p.delivered == d.delivered + (if d.poll != PollNever then [Poll] else [])
      && Count(Poll, p.delivered) == Count(Poll, d.delivered) + (if d.poll != PollNever then 1 else 0)
      && Count(DestroyHandler, p.delivered) == Count(DestroyHandler, d.delivered)
      && p.queue == d.queue && p.waits == d.waits && p.sdlQuit == d.sdlQuit
      && (d.dead ==> p.dead)
      && (Inv(d) ==> Inv(p))
      && (KeepsPollMethod(sink) ==> p.poll == d.poll)
  {
    var polls := if d.poll != PollNever then [Poll] else [];
    assert multiset(d.delivered + polls) == multiset(d.delivered) + multiset(polls);
  }

  /** MainLoop's wait step: at most one blocking wait, taken exactly when not dead and
      not in pollAlways; it delivers no Poll and no DestroyHandler. */
  lemma WaitStepFacts(p: LoopState, sink: Sink, arrival: NativeEvent)
    ensures var r := WaitStep(p, sink, arrival);
      && r.delivered == p.delivered + (if !p.dead && p.poll != PollAlways
           then Translate(if p.queue != [] then p.queue[0] else arrival) else [])
      && Count(Poll, r.delivered) == Count(Poll, p.delivered)
      && Count(DestroyHandler, r.delivered) == Count(DestroyHandler, p.delivered)
      && r.waits == p.waits + (if !p.dead && p.poll != PollAlways then 1 else 0)
      && r.sdlQuit == p.sdlQuit
      && (p.dead ==> r.dead)
      && (Inv(p) ==> Inv(r))
      && (KeepsPollMethod(sink) ==> r.poll == p.poll)
  {
    if !p.dead && p.poll != PollAlways {
      var ev := if p.queue != [] then p.queue[0] else arrival;
      var rest := if p.queue != [] then p.queue[1..] else [];
      var w := p.(queue := rest, waits := p.waits + 1);
      assert Inv(p) ==> Inv(w);
      assert WaitStep(p, sink, arrival) == ProcessEvent(w, sink, ev);
      NoPollOrDestroyIn(p.delivered, Translate(ev));
    }
  }

  /** One pass delivers the drained events in queue order, then exactly one
      Poll unless the method after draining is pollNever (even when draining
      set sgDead), and no DestroyHandler. */
  lemma IterateFacts(s: LoopState, sink: Sink, tick: Tick)
    ensures var a := Arrive(s, tick.incoming);
      var d := Drain(a, sink);
      var r := Iterate(s, sink, tick);
      && d.delivered == s.delivered + TranslateAll(a.queue[..DrainCount(a, sink)])
      && d.delivered <= r.delivered
      && Count(Poll, r.delivered) == Count(Poll, s.delivered) + (if d.poll != PollNever then 1 else 0)
      && Count(DestroyHandler, r.delivered) == Count(DestroyHandler, s.delivered)
  {
    var a := Arrive(s, tick.incoming);
    var d := Drain(a, sink);
    var p := PollStep(d, sink);
    DrainFacts(a, sink);
    NoPollOrDestroyIn(s.delivered, TranslateAll(a.queue[..DrainCount(a, sink)]));
    PollStepFacts(d, sink);
    WaitStepFacts(p, sink, tick.arrival);
  }

  /** The whole record of one pass: the translations of the drained events
      in queue order, then the Poll unless the method after draining is
      pollNever, then the translation of the event the blocking wait
      returns, which is the environment's arrival because SDL's queue is
      empty by then. */
  lemma IterateRecord(s: LoopState, sink: Sink, tick: Tick)
    ensures var a := Arrive(s, tick.incoming);
      var d := Drain(a, sink);
      var p := PollStep(d, sink);
      Iterate(s, sink, tick).delivered ==
        s.delivered + TranslateAll(a.queue[..DrainCount(a, sink)])
        + (if d.poll != PollNever then [Poll] else [])
        + (if !p.dead && p.poll != PollAlways then Translate(tick.arrival) else [])
  {
    var a := Arrive(s, tick.incoming);
    var d := Drain(a, sink);
    var p := PollStep(d, sink);
    DrainFacts(a, sink);
    PollStepFacts(d, sink);
  }

  /** When the drain of a pass does not set sgDead, it delivers every event
      that was already queued before every event that arrived for the pass. */
  lemma DrainArrived(s: LoopState, sink: Sink, tick: Tick)
    ensures var a := Arrive(s, tick.incoming);
      var d := Drain(a, sink);
      !d.dead ==> d.delivered == s.delivered + TranslateAll(s.queue) + TranslateAll(tick.incoming)
  {
    var a := Arrive(s, tick.incoming);
    DrainFacts(a, sink);
    if !Drain(a, sink).dead {
      assert a.queue[..DrainCount(a, sink)] == s.queue + tick.incoming;
      TranslateAllAppend(s.queue, tick.incoming);
    }
  }

  /** One pass waits at most once, exactly when it is neither dead nor in
      pollAlways after the Poll, and SDL's queue is then empty, so the wait
      blocks for the environment; it never clears sgDead and keeps the timer
      invariant. */
  lemma IterateWaits(s: LoopState, sink: Sink, tick: Tick)
    ensures var d := Drain(Arrive(s, tick.incoming), sink);
      var p := PollStep(d, sink);
      var r := Iterate(s, sink, tick);
      && (!p.dead ==> p.queue == [])
      && r.waits == s.waits + (if !p.dead && p.poll != PollAlways then 1 else 0)
      && (s.dead ==> r.dead)
      && r.sdlQuit == s.sdlQuit
      && (Inv(s) ==> Inv(r))
      && (KeepsPollMethod(sink) ==> r.poll == s.poll && d.poll == s.poll)
  {
    var a := Arrive(s, tick.incoming);
    var d := Drain(a, sink);
    var p := PollStep(d, sink);
    DrainFacts(a, sink);
    PollStepFacts(d, sink);
    WaitStepFacts(p, sink, tick.arrival);
  }

  /** What a pass keeps, stated on its start and end states alone. */
  lemma IterateKeeps(s: LoopState, sink: Sink, tick: Tick)
    ensures var r := Iterate(s, sink, tick);
      && s.delivered <= r.delivered
      && Count(DestroyHandler, r.delivered) == Count(DestroyHandler, s.delivered)
      && r.sdlQuit == s.sdlQuit
      && (Inv(s) ==> Inv(r))
  {
    IterateFacts(s, sink, tick);
    IterateWaits(s, sink, tick);
  }

  // ---------------------------------------------------------------------
  // The whole loop

  /** After the loop: DestroyHandler is appended as the last event, SDL_Quit
      is called, and the timer invariant still holds. */
  lemma ShutdownFacts(s: LoopState, sink: Sink)
    ensures var r := Shutdown(s, sink);
      && r.delivered == s.delivered + [DestroyHandler]
      && Count(DestroyHandler, r.delivered) == Count(DestroyHandler, s.delivered) + 1
      && Count(Poll, r.delivered) == Count(Poll, s.delivered)
      && r.sdlQuit && (s.dead ==> r.dead) && r.waits == s.waits
      && (Inv(s) ==> Inv(r))
      && (KeepsPollMethod(sink) ==> r.poll == s.poll)
  {
    assert multiset(s.delivered + [DestroyHandler]) == multiset(s.delivered) + multiset{DestroyHandler};
  }

  /** The loop ends only once sgDead is set; it then delivers exactly one
      DestroyHandler, the last event, and calls SDL_Quit. */
  lemma RunShutdown(s: LoopState, sink: Sink, ticks: seq<Tick>)
    requires !s.sdlQuit
    ensures var r := Run(s, sink, ticks);
      && (r.sdlQuit <==> r.dead)
      && (r.sdlQuit ==> |r.delivered| > 0 && r.delivered[|r.delivered| - 1] == DestroyHandler)
      && Count(DestroyHandler, r.delivered) ==
         Count(DestroyHandler, s.delivered) + (if r.sdlQuit then 1 else 0)
  {
    RunEnd(s, sink, ticks);
    RunDestroyOnce(s, sink, ticks);
  }

  lemma {:induction false} RunEnd(s: LoopState, sink: Sink, ticks: seq<Tick>)
    requires !s.sdlQuit
    ensures var r := Run(s, sink, ticks);
      && (r.sdlQuit <==> r.dead)
      && (r.sdlQuit ==> |r.delivered| > 0 && r.delivered[|r.delivered| - 1] == DestroyHandler)
    decreases |ticks|
  {
    if !s.dead && ticks != [] {
      var t := Iterate(s, sink, ticks[0]);
      RunEnd(t, sink, ticks[1..]);
      assert Run(s, sink, ticks) == Run(t, sink, ticks[1..]);
    }
  }

  lemma {:induction false} RunDestroyOnce(s: LoopState, sink: Sink, ticks: seq<Tick>)
    requires !s.sdlQuit
    ensures var r := Run(s, sink, ticks);
      Count(DestroyHandler, r.delivered) == Count(DestroyHandler, s.delivered) + (if r.dead then 1 else 0)
    decreases |ticks|
  {
    if s.dead {
      ShutdownFacts(s, sink);
    } else if ticks != [] {
      var t := Iterate(s, sink, ticks[0]);
      IterateKeeps(s, sink, ticks[0]);
      RunDestroyOnce(t, sink, ticks[1..]);
      assert Run(s, sink, ticks) == Run(t, sink, ticks[1..]);
    }
  }

  /** Until the loop ends it makes a pass for every tick of the environment. */
  lemma {:induction false} RunTicks(s: LoopState, sink: Sink, ticks: seq<Tick>)
    requires !s.sdlQuit
    ensures !Run(s, sink, ticks).sdlQuit ==> Passes(s, sink, ticks) == |ticks|
    decreases |ticks|
  {
    if !s.dead && ticks != [] {
      var t := Iterate(s, sink, ticks[0]);
      RunTicks(t, sink, ticks[1..]);
      assert Run(s, sink, ticks) == Run(t, sink, ticks[1..]);
      assert Passes(s, sink, ticks) == 1 + Passes(t, sink, ticks[1..]);
    }
  }

  /** The loop never changes what it has already delivered, and the timer
      invariant holds throughout. */
  lemma {:induction false} RunKeeps(s: LoopState, sink: Sink, ticks: seq<Tick>)
    ensures var r := Run(s, sink, ticks);
      && s.delivered <= r.delivered
      && (Inv(s) ==> Inv(r))
    decreases |ticks|
  {
    if s.dead {
      ShutdownFacts(s, sink);
    } else if ticks != [] {
      IterateKeeps(s, sink, ticks[0]);
      RunKeeps(Iterate(s, sink, ticks[0]), sink, ticks[1..]);
    }
  }

  /** With a frame that never changes the poll method: in pollNever no Poll is
      ever delivered; in pollAlways each pass delivers exactly one Poll and
      the loop never blocks. */
  lemma {:induction false} RunPolls(s: LoopState, sink: Sink, ticks: seq<Tick>)
    requires KeepsPollMethod(sink)
    ensures var r := Run(s, sink, ticks);
      && r.poll == s.poll
      && (s.poll == PollNever ==> Count(Poll, r.delivered) == Count(Poll, s.delivered))
      && (s.poll == PollAlways ==>
            Count(Poll, r.delivered) == Count(Poll, s.delivered) + Passes(s, sink, ticks)
            && r.waits == s.waits)
    decreases |ticks|
  {
    if s.dead {
      ShutdownFacts(s, sink);
    } else if ticks != [] {
      var t := Iterate(s, sink, ticks[0]);
      IterateFacts(s, sink, ticks[0]);
      IterateWaits(s, sink, ticks[0]);
      RunPolls(t, sink, ticks[1..]);
    }
  }

  // ---------------------------------------------------------------------
  // A worked run

  /** A frame that terminates the loop when it receives Quit. */
  function QuitOnQuit(history: seq<Event>): Reaction
  {
    Reaction(history != [] && history[|history| - 1] == Quit, [])
  }

  /** In pollAlways, a pass that finds one mouse motion queued delivers the
      MouseMove and then one Poll. */
  lemma MovePass(s: LoopState, x: int, y: int, arrival: NativeEvent)
    requires s.poll == PollAlways && !s.dead && s.queue == []
    ensures Iterate(s, QuitOnQuit, Tick([SdlMouseMotion(x, y)], arrival)) ==
      s.(delivered := s.delivered + [MouseMove(x, y), Poll])
  {
    var a := Arrive(s, [SdlMouseMotion(x, y)]);
    var t := ProcessEvent(a.(queue := []), QuitOnQuit, SdlMouseMotion(x, y));
    assert t == s.(delivered := s.delivered + [MouseMove(x, y)]);
    assert Drain(a, QuitOnQuit) == Drain(t, QuitOnQuit) == t;
    assert t.delivered + [Poll] == s.delivered + [MouseMove(x, y), Poll];
  }

  /** In pollAlways, a pass that finds a quit queued delivers Quit, which the
      frame answers by terminating, and still delivers a Poll after it. */
  lemma QuitPass(s: LoopState, arrival: NativeEvent)
    requires s.poll == PollAlways && !s.dead && s.queue == []
    ensures Iterate(s, QuitOnQuit, Tick([SdlQuit], arrival)) ==
      s.(delivered := s.delivered + [Quit, Poll], dead := true)
  {
    var a := Arrive(s, [SdlQuit]);
    var t := ProcessEvent(a.(queue := []), QuitOnQuit, SdlQuit);
    assert t == s.(delivered := s.delivered + [Quit], dead := true);
    assert Drain(a, QuitOnQuit) == t;
    assert t.delivered + [Poll] == s.delivered + [Quit, Poll];
  }

  /** In pollAlways, a run whose first pass finds one mouse motion goes on
      from the state with MouseMove and Poll appended. */
  lemma MoveRun(s: LoopState, x: int, y: int, arrival: NativeEvent, ticks: seq<Tick>)
    requires s.poll == PollAlways && !s.dead && s.queue == []
    requires ticks != [] && ticks[0] == Tick([SdlMouseMotion(x, y)], arrival)
    ensures Run(s, QuitOnQuit, ticks) ==
      Run(s.(delivered := s.delivered + [MouseMove(x, y), Poll]), QuitOnQuit, ticks[1..])
  {
    MovePass(s, x, y, arrival);
  }

  /** In pollAlways, a last pass with a quit ends the run with Quit, Poll and
      DestroyHandler. */
  lemma QuitRun(s: LoopState, arrival: NativeEvent)
    requires s.poll == PollAlways && !s.dead && s.queue == []
    ensures Run(s, QuitOnQuit, [Tick([SdlQuit], arrival)]).delivered ==
      s.delivered + [Quit, Poll, DestroyHandler]
  {
    var ticks := [Tick([SdlQuit], arrival)];
    QuitPass(s, arrival);
    var s3 := s.(delivered := s.delivered + [Quit, Poll], dead := true);
    assert ticks[1..] == [];
    assert Run(s, QuitOnQuit, ticks) == Run(s3, QuitOnQuit, []);
    assert Run(s3, QuitOnQuit, []) == Shutdown(s3, QuitOnQuit);
  }

  /** While sgDead is not set, the loop makes another pass. */
  lemma RunPass(s: LoopState, sink: Sink, ticks: seq<Tick>)
    requires !s.dead && ticks != []
    ensures Run(s, sink, ticks) == Run(Iterate(s, sink, ticks[0]), sink, ticks[1..])
  {
  }

  /** Two mouse moves and a quit arriving one per pass in pollAlways (the
      initial method): each is followed by a Poll, including the Quit (the
      Poll step does not test sgDead), and DestroyHandler comes last.  The record
      grows pass by pass. */
  lemma OnePerPassRun(s: LoopState, x1: int, y1: int, x2: int, y2: int, arrival: NativeEvent)
    requires s.poll == PollAlways && !s.dead && s.queue == []
    ensures var ticks := [Tick([SdlMouseMotion(x1, y1)], arrival),
                          Tick([SdlMouseMotion(x2, y2)], arrival),
                          Tick([SdlQuit], arrival)];
      Run(s, QuitOnQuit, ticks).delivered ==
        s.delivered + [MouseMove(x1, y1), Poll] + [MouseMove(x2, y2), Poll] + [Quit, Poll, DestroyHandler]
  {
    var t1, t2, t3 := Tick([SdlMouseMotion(x1, y1)], arrival),
                      Tick([SdlMouseMotion(x2, y2)], arrival),
                      Tick([SdlQuit], arrival);
    var s1 := s.(delivered := s.delivered + [MouseMove(x1, y1), Poll]);
    var s2 := s1.(delivered := s1.delivered + [MouseMove(x2, y2), Poll]);
    MoveRun(s, x1, y1, arrival, [t1, t2, t3]);
    assert [t1, t2, t3][1..] == [t2, t3];
    MoveRun(s1, x2, y2, arrival, [t2, t3]);
    assert [t2, t3][1..] == [t3];
    QuitRun(s2, arrival);
  }
}
