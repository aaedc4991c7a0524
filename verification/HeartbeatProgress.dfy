/** What an undisturbed heartbeat writes and when it ends, and what an error answer writes. */
module HeartbeatProgress {
  import opened Heartbeat
  import opened Wrappers

  function Wakes(succeeds: bool): seq<Step> {
    [RoutineStep(false), RoutineStep(false), RoutineStep(false), RoutineStep(false), RoutineStep(succeeds),
     RoutineStep(false)]
  }

  function Beats(n: nat): seq<Output> {
    if n == 0 then [] else Beats(n - 1) + [Beat]
  }

  /** The goroutine waits for the next tick and nobody has told it anything. */
  predicate Beating(c: Control) {
    c.routine == Waiting && c.started && c.headerSet && !c.handed && !c.stopped && c.mutex == Nobody
  }

  lemma RunTwo(s: State, a: Step, b: Step)
    ensures Run(s, [a, b]) == Next(Next(s, a), b)
  {
    assert [a, b] == [a] + [b];
    RunConcat(s, [a], [b]);
    RunOne(s, a);
    RunOne(Next(s, a), b);
  }

  lemma RunThree(s: State, a: Step, b: Step, c: Step)
    ensures Run(s, [a, b, c]) == Next(Next(Next(s, a), b), c)
  {
    assert [a, b, c] == [a, b] + [c];
    RunConcat(s, [a, b], [c]);
    RunTwo(s, a, b);
    RunOne(Next(Next(s, a), b), c);
  }

  lemma RunSix(s: State, a: Step, b: Step, c: Step, d: Step, e: Step, f: Step)
    ensures Run(s, [a, b, c, d, e, f]) == Next(Next(Next(Next(Next(Next(s, a), b), c), d), e), f)
  {
    assert [a, b, c, d, e, f] == [a, b, c] + [d, e, f];
    RunConcat(s, [a, b, c], [d, e, f]);
    RunThree(s, a, b, c);
    RunThree(Next(Next(Next(s, a), b), c), d, e, f);
  }

  lemma TowardsWrite(s: State)
    requires Beating(s.at)
    ensures var r := RoutineStep(false);
            Next(Next(Next(Next(s, r), r), r), r) == State(s.at.(routine := WriteBeat, mutex := ByRoutine), s.output)
  {
    var r := RoutineStep(false);
    assert Next(s, r) == State(s.at.(routine := Check), s.output);
    assert Next(Next(s, r), r) == State(s.at.(routine := Lock), s.output);
    assert Next(Next(Next(s, r), r), r) == State(s.at.(routine := Recheck, mutex := ByRoutine), s.output);
  }

  /** A tick writes one heartbeat and leaves everything as it was, ready for the next tick. */
  lemma TickBeats(s: State)
    requires Beating(s.at)
    ensures Run(s, Wakes(true)) == State(s.at, s.output + [Beat])
  {
    var r := RoutineStep(false);
    RunSix(s, r, r, r, r, RoutineStep(true), r);
    TowardsWrite(s);
    var writing := State(s.at.(routine := WriteBeat, mutex := ByRoutine), s.output);
    assert Next(writing, RoutineStep(true))
        == State(s.at.(routine := Unlock(false), mutex := ByRoutine), s.output + [Beat]);
    assert Next(Next(writing, RoutineStep(true)), r) == State(s.at, s.output + [Beat]);
  }

  /** A write that fails gives the mutex back and ends the goroutine: two steps later it is finished. */
  lemma FailedWriteEnds(s: State)
    requires Beating(s.at)
    ensures Run(s, Wakes(false)) == State(s.at.(routine := Closing), s.output)
    ensures Next(Run(s, Wakes(false)), RoutineStep(false)) == State(s.at.(routine := Finished), s.output)
  {
    var r := RoutineStep(false);
    RunSix(s, r, r, r, r, r, r);
    TowardsWrite(s);
    var writing := State(s.at.(routine := WriteBeat, mutex := ByRoutine), s.output);
    assert Next(writing, r) == State(s.at.(routine := Unlock(true), mutex := ByRoutine), s.output);
    assert Next(Next(writing, r), r) == State(s.at.(routine := Closing), s.output);
  }

  function Ticks(n: nat): seq<Step> {
    if n == 0 then [] else Ticks(n - 1) + Wakes(true)
  }

  lemma OneMoreTick(s: State, steps: seq<Step>, output: seq<Output>)
    requires Beating(s.at) && Run(s, steps) == State(s.at, output)
    ensures Run(s, steps + Wakes(true)) == State(s.at, output + [Beat])
  {
    RunConcat(s, steps, Wakes(true));
    TickBeats(State(s.at, output));
  }

  lemma {:induction false} EveryTickBeats(s: State, n: nat)
    requires Beating(s.at)
    ensures Run(s, Ticks(n)) == State(s.at, s.output + Beats(n))
  {
    if n == 0 {
      assert s.output + [] == s.output;
    } else {
      EveryTickBeats(s, n - 1);
      OneMoreTick(s, Ticks(n - 1), s.output + Beats(n - 1));
      assert s.output + Beats(n - 1) + [Beat] == s.output + Beats(n);
    }
  }

  lemma FirstSteps()
    ensures var r, c := RoutineStep(false), Start(true).at;
            Next(Next(Next(Next(Start(true), r), r), r), r) == State(c.(routine := WriteHeader, mutex := ByRoutine), [])
  {
    var r, c := RoutineStep(false), Start(true).at;
    assert Next(Start(true), r) == State(c.(routine := Check), []);
    assert Next(State(c.(routine := Check), []), r) == State(c.(routine := Lock), []);
    assert Next(State(c.(routine := Lock), []), r) == State(c.(routine := Recheck, mutex := ByRoutine), []);
  }

  lemma HeaderThenBeat(c: Control)
    requires c.routine == WriteHeader && !c.headerSet && c.mutex == ByRoutine
    ensures var out := c.(routine := WriteBeat, headerSet := true);
            && Next(State(c, []), RoutineStep(false)) == State(out, [Header])
            && Next(State(out, [Header]), RoutineStep(true))
               == State(out.(routine := Unlock(false), started := true), [Header, Beat])
            && Next(State(out.(routine := Unlock(false), started := true), [Header, Beat]), RoutineStep(false))
               == State(out.(routine := Waiting, started := true, mutex := Nobody), [Header, Beat])
  {
  }

  /** The first wake-up writes the header before its heartbeat. */
  lemma FirstBeat() returns (steps: seq<Step>)
    ensures var s := Run(Start(true), steps); Beating(s.at) && s.output == [Header, Beat]
  {
    var r := RoutineStep(false);
    var six := [r, r, r, r, r, RoutineStep(true)];
    RunSix(Start(true), r, r, r, r, r, RoutineStep(true));
    FirstSteps();
    HeaderThenBeat(Start(true).at.(routine := WriteHeader, mutex := ByRoutine));
    RunConcat(Start(true), six, [r]);
    RunOne(Run(Start(true), six), r);
    steps := six + [r];
  }

  /** Left alone, the goroutine writes the header once and then a heartbeat for every tick. */
  lemma LeftAloneItBeats(n: nat) returns (steps: seq<Step>)
    ensures Run(Start(true), steps).output == [Header] + Beats(n + 1)
  {
    var first := FirstBeat();
    EveryTickBeats(Run(Start(true), first), n);
    RunConcat(Start(true), first, Ticks(n));
    steps := first + Ticks(n);
    OneMoreInFront(n);
    assert [Header, Beat] + Beats(n) == [Header] + ([Beat] + Beats(n));
  }

  lemma {:induction false} OneMoreInFront(n: nat)
    ensures [Beat] + Beats(n) == Beats(n + 1)
  {
    if n > 0 {
      OneMoreInFront(n - 1);
      assert [Beat] + (Beats(n - 1) + [Beat]) == ([Beat] + Beats(n - 1)) + [Beat];
    }
  }

  /** A goroutine that waits when its request is cancelled may leave, and is then finished. */
  lemma CancelledEnds(s: State)
    requires s.at.routine == Waiting && s.at.cancelled
    ensures Next(Next(s, RoutineStep(true)), RoutineStep(false)) == State(s.at.(routine := Finished), s.output)
  {
  }

  /** A goroutine told to hand over or stop writes nothing more, whether it is told before its first look or
      while it waits for the mutex. */
  lemma ToldGoroutineWritesNothing(c: Control, choice: bool)
    requires c.handed || c.stopped
    ensures c.routine == Check ==> RoutineNext(c, choice).routine == Closing
    ensures c.routine == Recheck ==> RoutineNext(c, choice).routine == Unlock(true)
    ensures c.routine == Check || c.routine == Recheck ==> Emit(c, RoutineStep(choice)) == None
  {
  }

  /** With heartbeats disabled nothing is written and Hand returns at once, as Stop does after its wait; an error is
      answered as JSON. */
  lemma DisabledStaysSilent(choice: bool)
    ensures var s := Start(false);
            && s.output == [] && !s.at.headerSet && s.at.mutex == Nobody
            && Next(s, RoutineStep(choice)) == s
            && Next(Next(s, Call(HandSwap)), HandlerStep) == State(s.at.(returned := true), [])
  {
  }

  lemma DisabledStops()
    ensures var h, s := HandlerStep, Start(false);
            Next(Next(Next(Next(s, Call(StopStore)), h), h), h) == State(s.at.(returned := true), [])
  {
    var h, s := HandlerStep, Start(false);
    assert Next(s, Call(StopStore)) == State(s.at.(handler := StopStore), []);
    assert Next(State(s.at.(handler := StopStore), []), h) == State(s.at.(handler := StopSwap), []);
    assert Next(State(s.at.(handler := StopSwap), []), h) == State(s.at.(handler := StopWait), []);
  }

  lemma DisabledAnswers()
    ensures Next(Next(Next(Start(false), Call(ErrorCheck)), HandlerStep), HandlerStep).output == [Json]
  {
    var s := Start(false);
    assert Next(s, Call(ErrorCheck)) == State(s.at.(handler := ErrorCheck), []);
    assert Next(State(s.at.(handler := ErrorCheck), []), HandlerStep) == State(s.at.(handler := JsonWrite), []);
  }

  /** An error is answered once: as an event under the mutex when the header is out, else as JSON. */
  lemma ErrorIsAnswered(s: State)
    requires s.at.handler == ErrorCheck && s.at.mutex == Nobody
    ensures var h := HandlerStep;
            if s.at.headerSet then
              Next(Next(Next(Next(s, h), h), h), h) == State(s.at.(handler := Idle), s.output + [ErrorEvent])
            else Next(Next(s, h), h) == State(s.at.(handler := Idle), s.output + [Json])
  {
    var h := HandlerStep;
    if s.at.headerSet {
      assert Next(s, h) == State(s.at.(handler := ErrorLock), s.output);
      assert Next(Next(s, h), h) == State(s.at.(handler := ErrorWrite, mutex := ByHandler), s.output);
      assert Next(Next(Next(s, h), h), h)
             == State(s.at.(handler := ErrorUnlock, mutex := ByHandler), s.output + [ErrorEvent]);
    } else {
      assert Next(s, h) == State(s.at.(handler := JsonWrite), s.output);
    }
  }

  /** The handler writes its own answer once a Hand or Stop has returned, and not inside a call. */
  lemma AnswerAfterReturn(s: State)
    ensures s.at.handler == Idle && s.at.returned ==> Next(s, Respond) == State(s.at, s.output + [Response])
    ensures s.at.handler != Idle || !s.at.returned ==> Next(s, Respond) == s
  {
  }

  /** Hand and Stop tell the goroutine, cancel its context and wait; a second call of Hand returns at once, one of
      Stop waits too. */
  lemma CallsTell(s: State)
    ensures var h := HandlerStep;
            && (s.at.handler == HandSwap && !s.at.handed ==>
                  Next(Next(s, h), h) == State(s.at.(handler := HandWait, handed := true, cancelled := true), s.output))
            && (s.at.handler == HandSwap && s.at.handed ==> Next(s, h).at.handler == Idle && Next(s, h).at.returned)
            && (s.at.handler == StopStore && !s.at.handed ==>
                  Next(Next(Next(s, h), h), h)
                  == State(s.at.(handler := StopWait, handed := true, stopped := true, cancelled := true), s.output))
            && (s.at.handler == StopStore && s.at.handed ==>
                  Next(Next(s, h), h) == State(s.at.(handler := StopWait, stopped := true), s.output))
  {
  }
}
