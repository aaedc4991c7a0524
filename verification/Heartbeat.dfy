/** The early heartbeat: a goroutine writes SSE headers and comments while the handler prepares its
    answer; Hand and Stop make it quit and wait for it, FlushOrError writes an error without waiting.
    One goroutine, one handler thread. */
module Heartbeat {
  import opened Wrappers

  /** Where the goroutine stands. It holds the mutex from Recheck to Unlock. */
  datatype Routine =
    Waiting | Check | Lock | Recheck | WriteHeader | WriteBeat | Unlock(quit: bool) | Closing | Finished

  /** Where the handler stands inside a call, one atomic action per step. */
  datatype Handler =
    | Idle
    | HandSwap | HandCancel | HandWait
    | StopStore | StopSwap | StopCancel | StopWait
    | ErrorCheck                            // FlushOrError reads whether the SSE header is out
    | ErrorLock | ErrorWrite | ErrorUnlock  // it is: the error becomes an SSE event, under the mutex
    | JsonWrite                             // it is not: a JSON answer, without mutex or hand-over

  datatype Output = Header | Beat | ErrorEvent | Json | Response

  datatype Owner = Nobody | ByRoutine | ByHandler

  /** `returned` records that some Hand or Stop has returned. */
  datatype Control = Control(
    routine: Routine, handler: Handler, started: bool,
    handed: bool, stopped: bool, cancelled: bool, headerSet: bool, mutex: Owner, returned: bool)

  /** `output` is what has been written to the response so far. */
  datatype State = State(at: Control, output: seq<Output>)

  /** With heartbeats disabled everything is born handed, stopped and done. */
  function Start(enabled: bool): State {
    State(Control(if enabled then Waiting else Finished, Idle, false, !enabled, !enabled, false, false, Nobody, false),
          [])
  }

  datatype Step =
    | RoutineStep(choice: bool)  // at a select: take ctx.Done; at a write: the write succeeds
    | Call(handler: Handler)     // the idle handler enters Hand, Stop or FlushOrError
    | HandlerStep
    | Respond                    // the idle handler writes its own answer after a hand-over
    | ClientGone

  predicate Quit(c: Control) {
    c.handed || c.stopped
  }

  /** Where the goroutine goes next. */
  function RoutineAfter(c: Control, choice: bool): Routine {
    match c.routine
    case Waiting => if !choice then Check else if c.cancelled then Closing else Waiting
    case Check => if Quit(c) then Closing else Lock
    case Lock => if c.mutex.Nobody? then Recheck else Lock
    case Recheck => if Quit(c) then Unlock(true) else if c.started then WriteBeat else WriteHeader
    case WriteHeader => WriteBeat
    case WriteBeat => Unlock(!choice)
    case Unlock(quit) => if quit then Closing else Waiting
    case Closing => Finished
    case Finished => Finished
  }

  function RoutineNext(c: Control, choice: bool): Control {
    c.(routine := RoutineAfter(c, choice),
       headerSet := c.headerSet || c.routine.WriteHeader?,
       started := c.started || (c.routine.WriteBeat? && choice),
       mutex := if c.routine.Lock? && c.mutex.Nobody? then ByRoutine
                else if c.routine.Unlock? then Nobody
                else c.mutex)
  }

  /** Where the handler goes next. */
  function HandlerAfter(c: Control): Handler {
    match c.handler
    case Idle => Idle
    case HandSwap => if c.handed then Idle else HandCancel
    case HandCancel => HandWait
    case HandWait => if c.routine.Finished? then Idle else HandWait
    case StopStore => StopSwap
    case StopSwap => if c.handed then StopWait else StopCancel
    case StopCancel => StopWait
    case StopWait => if c.routine.Finished? then Idle else StopWait
    case ErrorCheck => if c.headerSet then ErrorLock else JsonWrite
    case ErrorLock => if c.mutex.Nobody? then ErrorWrite else ErrorLock
    case ErrorWrite => ErrorUnlock
    case ErrorUnlock => Idle
    case JsonWrite => Idle
  }

  function HandlerNext(c: Control): Control {
    c.(handler := HandlerAfter(c),
       handed := c.handed || c.handler.HandSwap? || c.handler.StopSwap?,
       stopped := c.stopped || c.handler.StopStore?,
       cancelled := c.cancelled || Cancelling(c),
       mutex := if c.handler.ErrorLock? && c.mutex.Nobody? then ByHandler
                else if c.handler.ErrorUnlock? then Nobody
                else c.mutex,
       returned := c.returned || (c.handler.HandSwap? && c.handed) || (Awaiting(c) && c.routine.Finished?))
  }

  function ControlNext(c: Control, step: Step): Control {
    match step
    case RoutineStep(choice) => RoutineNext(c, choice)
    case Call(h) => if c.handler.Idle? && (h.HandSwap? || h.StopStore? || h.ErrorCheck?) then c.(handler := h) else c
    case HandlerStep => HandlerNext(c)
    case Respond => c
    case ClientGone => c.(cancelled := true)
  }

  /** What a step writes. */
  function Emit(c: Control, step: Step): Option<Output> {
    match step
    case RoutineStep(choice) =>
      if c.routine.WriteHeader? && !c.headerSet then Some(Header)
      else if c.routine.WriteBeat? && choice then Some(Beat)
      else None
    case HandlerStep =>
      if c.handler.ErrorWrite? then Some(ErrorEvent) else if c.handler.JsonWrite? then Some(Json) else None
    case Respond => if c.handler.Idle? && c.returned then Some(Response) else None
    case Call(_) => None
    case ClientGone => None
  }

  function Appended(output: seq<Output>, e: Option<Output>): seq<Output> {
    if e.None? then output else output + [e.value]
  }

  function Next(s: State, step: Step): State {
    State(ControlNext(s.at, step), Appended(s.output, Emit(s.at, step)))
  }

  function Run(s: State, steps: seq<Step>): State {
    if steps == [] then s else Next(Run(s, steps[..|steps| - 1]), steps[|steps| - 1])
  }

  lemma {:induction false} RunConcat(s: State, a: seq<Step>, b: seq<Step>)
    ensures Run(s, a + b) == Run(Run(s, a), b)
  {
    if b == [] {
      assert a + b == a;
    } else {
      assert (a + b)[..|a + b| - 1] == a + b[..|b| - 1];
      RunConcat(s, a, b[..|b| - 1]);
    }
  }

  lemma RunOne(s: State, step: Step)
    ensures Run(s, [step]) == Next(s, step)
  {
    assert [step][..0] == [];
  }

  // ----- the invariant -----

  predicate RoutineHolds(r: Routine) {
    r.Recheck? || r.WriteHeader? || r.WriteBeat? || r.Unlock?
  }

  predicate HandlerHolds(h: Handler) {
    h.ErrorWrite? || h.ErrorUnlock?
  }

  predicate Awaiting(c: Control) {
    c.handler.HandWait? || c.handler.StopWait?
  }

  predicate Cancelling(c: Control) {
    c.handler.HandCancel? || c.handler.StopCancel?
  }

  predicate Locking(c: Control) {
    && (c.mutex.ByRoutine? <==> RoutineHolds(c.routine))
    && (c.mutex.ByHandler? <==> HandlerHolds(c.handler))
  }

  /** How far a hand-over has got. */
  predicate HandingOver(c: Control) {
    && (Cancelling(c) || Awaiting(c) || c.returned ==> c.handed)
    && (c.stopped && !c.handler.StopSwap? ==> c.handed)
    && (Awaiting(c) ==> c.cancelled || c.routine.Finished?)
    && (c.handed && !Cancelling(c) && !Awaiting(c) ==> c.routine.Finished?)
    && (c.returned ==> c.routine.Finished?)
  }

  /** What the header flag promises. */
  predicate HeaderKnown(c: Control) {
    && (c.started || c.routine.WriteBeat? || c.handler.ErrorLock? || HandlerHolds(c.handler) ==> c.headerSet)
    && (c.routine.WriteHeader? ==> !c.headerSet)
    && (c.headerSet && !c.started ==> c.routine.WriteBeat? || c.routine == Unlock(true) || Gone(c))
    && (c.routine.Unlock? && !c.headerSet ==> Quit(c))
  }

  predicate Protocol(c: Control) {
    Locking(c) && HandingOver(c) && HeaderKnown(c)
  }

  /** The goroutine has left its loop. */
  predicate Gone(c: Control) {
    c.routine.Closing? || c.routine.Finished?
  }

  function Headers(output: seq<Output>): nat {
    if output == [] then 0 else Headers(output[..|output| - 1]) + (if output[|output| - 1] == Header then 1 else 0)
  }

  /** A header stands somewhere before every heartbeat and every error event. */
  predicate HeaderFirst(output: seq<Output>) {
    if output == [] then true
    else
      HeaderFirst(output[..|output| - 1])
      && (output[|output| - 1] == Beat || output[|output| - 1] == ErrorEvent ==> Headers(output[..|output| - 1]) > 0)
  }

  predicate Written(output: seq<Output>, headerSet: bool) {
    Headers(output) == (if headerSet then 1 else 0) && HeaderFirst(output)
  }

  ghost predicate Invariant(s: State) {
    Protocol(s.at) && Written(s.output, s.at.headerSet)
  }

  lemma RoutineKeepsLocking(c: Control, choice: bool)
    requires Locking(c)
    ensures Locking(RoutineNext(c, choice))
  {
    var r, d := RoutineAfter(c, choice), RoutineNext(c, choice);
    assert RoutineHolds(r)
        <==> (RoutineHolds(c.routine) && !c.routine.Unlock?) || (c.routine.Lock? && c.mutex.Nobody?) by {
      HoldingMoves(c, choice);
    }
  }

  lemma HoldingMoves(c: Control, choice: bool)
    ensures RoutineHolds(RoutineAfter(c, choice)) <==>
            (RoutineHolds(c.routine) && !c.routine.Unlock?) || (c.routine.Lock? && c.mutex.Nobody?)
  {
  }

  lemma RoutineKeepsHandingOver(c: Control, choice: bool)
    requires HandingOver(c)
    ensures HandingOver(RoutineNext(c, choice))
  {
    match c.routine
    case Waiting =>
    case Check =>
    case Lock =>
    case Recheck =>
    case WriteHeader =>
    case WriteBeat =>
    case Unlock(_) =>
    case Closing =>
    case Finished =>
  }

  lemma RoutineKeepsHeaderKnown(c: Control, choice: bool)
    requires HeaderKnown(c)
    ensures HeaderKnown(RoutineNext(c, choice))
  {
    match c.routine
    case Waiting =>
    case Check =>
    case Lock =>
    case Recheck =>
    case WriteHeader =>
    case WriteBeat =>
    case Unlock(_) =>
    case Closing =>
    case Finished =>
  }

  lemma RoutineKeepsProtocol(c: Control, choice: bool)
    requires Protocol(c)
    ensures Protocol(RoutineNext(c, choice))
  {
    RoutineKeepsLocking(c, choice);
    RoutineKeepsHandingOver(c, choice);
    RoutineKeepsHeaderKnown(c, choice);
  }

  lemma HandlerKeepsLocking(c: Control)
    requires Locking(c)
    ensures Locking(HandlerNext(c))
  {
    match c.handler
    case Idle =>
    case HandSwap =>
    case HandCancel =>
    case HandWait =>
    case StopStore =>
    case StopSwap =>
    case StopCancel =>
    case StopWait =>
    case ErrorCheck =>
    case ErrorLock =>
    case ErrorWrite =>
    case ErrorUnlock =>
    case JsonWrite =>
  }

  lemma HandlerKeepsHandingOver(c: Control)
    requires HandingOver(c)
    ensures HandingOver(HandlerNext(c))
  {
    match c.handler
    case Idle =>
    case HandSwap =>
    case HandCancel =>
    case HandWait =>
    case StopStore =>
    case StopSwap =>
    case StopCancel =>
    case StopWait =>
    case ErrorCheck =>
    case ErrorLock =>
    case ErrorWrite =>
    case ErrorUnlock =>
    case JsonWrite =>
  }

  lemma HandlerKeepsHeaderKnown(c: Control)
    requires HeaderKnown(c)
    ensures HeaderKnown(HandlerNext(c))
  {
    match c.handler
    case Idle =>
    case HandSwap =>
    case HandCancel =>
    case HandWait =>
    case StopStore =>
    case StopSwap =>
    case StopCancel =>
    case StopWait =>
    case ErrorCheck =>
    case ErrorLock =>
    case ErrorWrite =>
    case ErrorUnlock =>
    case JsonWrite =>
  }

  lemma HandlerKeepsProtocol(c: Control)
    requires Protocol(c)
    ensures Protocol(HandlerNext(c))
  {
    HandlerKeepsLocking(c);
    HandlerKeepsHandingOver(c);
    HandlerKeepsHeaderKnown(c);
  }

  lemma StepKeepsProtocol(c: Control, step: Step)
    requires Protocol(c)
    ensures Protocol(ControlNext(c, step))
  {
    match step
    case RoutineStep(choice) => RoutineKeepsProtocol(c, choice);
    case HandlerStep => HandlerKeepsProtocol(c);
    case Call(_) =>
    case Respond =>
    case ClientGone =>
  }

  lemma Append(output: seq<Output>, o: Output)
    ensures Headers(output + [o]) == Headers(output) + (if o == Header then 1 else 0)
    ensures HeaderFirst(output + [o]) == (HeaderFirst(output) && (o == Beat || o == ErrorEvent ==> Headers(output) > 0))
  {
    assert (output + [o])[..|output|] == output;
  }

  /** Who writes what, and what a step does to the header flag. */
  lemma EmitMeans(c: Control, step: Step)
    requires HeaderKnown(c)
    ensures var e, set' := Emit(c, step), ControlNext(c, step).headerSet;
            && (e == Some(Header) <==> set' && !c.headerSet)
            && (c.headerSet ==> set')
            && (e == Some(Beat) || e == Some(ErrorEvent) ==> c.headerSet)
            && (e == Some(Header) || e == Some(Beat) ==> !Gone(c))
            && (e == Some(Json) <==> step.HandlerStep? && c.handler.JsonWrite?)
  {
    match step
    case RoutineStep(_) =>
    case HandlerStep =>
    case Call(_) =>
    case Respond =>
    case ClientGone =>
  }

  lemma EmitKeepsWritten(output: seq<Output>, e: Option<Output>, before: bool, after: bool)
    requires Written(output, before) && (e == Some(Header) <==> after && !before) && (before ==> after)
    requires e == Some(Beat) || e == Some(ErrorEvent) ==> before
    ensures Written(Appended(output, e), after)
  {
    if e.Some? {
      Append(output, e.value);
    }
  }

  lemma StepKeepsInvariant(s: State, step: Step)
    requires Invariant(s)
    ensures Invariant(Next(s, step))
  {
    StepKeepsProtocol(s.at, step);
    EmitMeans(s.at, step);
    EmitKeepsWritten(s.output, Emit(s.at, step), s.at.headerSet, ControlNext(s.at, step).headerSet);
  }

  lemma {:induction false} RunKeepsInvariant(s: State, steps: seq<Step>)
    requires Invariant(s)
    ensures Invariant(Run(s, steps))
  {
    if steps != [] {
      RunKeepsInvariant(s, steps[..|steps| - 1]);
      StepKeepsInvariant(Run(s, steps[..|steps| - 1]), steps[|steps| - 1]);
    }
  }

  lemma Reachable(enabled: bool, steps: seq<Step>)
    ensures Invariant(Run(Start(enabled), steps))
  {
    RunKeepsInvariant(Start(enabled), steps);
  }

  /** In every interleaving the goroutine writes the SSE header at most once, and heartbeats and error
      events only after it. Whether a JSON answer got in first is the next question. */
  lemma HeadersOnceAndFirst(enabled: bool, steps: seq<Step>)
    ensures var output := Run(Start(enabled), steps).output; Headers(output) <= 1 && HeaderFirst(output)
  {
    Reachable(enabled, steps);
  }

  // ----- JSON answers -----

  /** A JSON answer is not mixed with what the goroutine writes. */
  predicate Alone(output: seq<Output>) {
    Json in output ==> Header !in output && Beat !in output
  }

  lemma {:induction false} NothingBeforeHeader(output: seq<Output>)
    requires Written(output, false)
    ensures Header !in output && Beat !in output
  {
    if output != [] {
      NothingBeforeHeader(output[..|output| - 1]);
      assert output == output[..|output| - 1] + [output[|output| - 1]];
    }
  }

  lemma AppendedElements(output: seq<Output>, e: Option<Output>)
    ensures forall o :: o in Appended(output, e) <==> o in output || e == Some(o)
  {
  }

  /** A goroutine that left its loop stays out of it, and a JSON answer starts only where no header is out. */
  lemma ControlMoves(c: Control, step: Step)
    ensures var d := ControlNext(c, step);
            && (Gone(c) ==> Gone(d) && d.headerSet == c.headerSet)
            && (d.handler.JsonWrite? && (c.headerSet || c.handler.JsonWrite?) ==>
                c.handler.JsonWrite? && !step.HandlerStep?)
            && (d.handler.JsonWrite? && !c.handler.JsonWrite? ==>
                step.HandlerStep? && c.handler.ErrorCheck? && !c.headerSet)
  {
    match step
    case RoutineStep(_) =>
    case HandlerStep =>
    case Call(_) =>
    case Respond =>
    case ClientGone =>
  }

  /** Either no JSON answer can follow, because the header is out, or no goroutine output can. */
  predicate Settled(s: State) {
    if s.at.headerSet then Json !in s.output && !s.at.handler.JsonWrite?
    else Gone(s.at) && Header !in s.output && Beat !in s.output
  }

  lemma StepKeepsSettled(s: State, step: Step)
    requires Protocol(s.at) && Settled(s)
    ensures Settled(Next(s, step))
  {
    EmitMeans(s.at, step);
    ControlMoves(s.at, step);
    AppendedElements(s.output, Emit(s.at, step));
  }

  lemma {:induction false} RunKeepsSettled(s: State, steps: seq<Step>)
    requires Invariant(s) && Settled(s)
    ensures Settled(Run(s, steps))
  {
    if steps != [] {
      RunKeepsSettled(s, steps[..|steps| - 1]);
      RunKeepsInvariant(s, steps[..|steps| - 1]);
      StepKeepsSettled(Run(s, steps[..|steps| - 1]), steps[|steps| - 1]);
    }
  }

  function StepsToHeader(r: Routine): nat {
    match r
    case Waiting => 5
    case Check => 4
    case Lock => 3
    case Recheck => 2
    case WriteHeader => 1
    case _ => 0
  }

  lemma HeaderNearer(c: Control)
    requires Protocol(c) && !Quit(c) && !c.headerSet && !Gone(c) && !c.routine.WriteHeader?
    ensures var d := RoutineNext(c, false);
            && Protocol(d) && !Quit(d) && !d.headerSet && !Gone(d)
            && StepsToHeader(d.routine) < StepsToHeader(c.routine)
    ensures Emit(c, RoutineStep(false)) == None
  {
    RoutineKeepsProtocol(c, false);
  }

  /** A goroutine still in its loop and told nothing may go on to write the header. */
  lemma {:induction false} HeaderMayFollow(s: State) returns (steps: seq<Step>)
    requires Protocol(s.at) && !Quit(s.at) && !s.at.headerSet && !Gone(s.at)
    ensures Run(s, steps).output == s.output + [Header]
    decreases StepsToHeader(s.at.routine)
  {
    var t := Next(s, RoutineStep(false));
    RunOne(s, RoutineStep(false));
    if s.at.routine.WriteHeader? {
      steps := [RoutineStep(false)];
    } else {
      HeaderNearer(s.at);
      var rest := HeaderMayFollow(t);
      steps := [RoutineStep(false)] + rest;
      RunConcat(s, [RoutineStep(false)], rest);
    }
  }

  lemma AnswerThenHeader(s: State) returns (steps: seq<Step>)
    requires Invariant(s) && s.at.handler.ErrorCheck? && !s.at.headerSet && !Gone(s.at)
    ensures Run(s, steps).output == s.output + [Json, Header]
  {
    var checked := Next(s, HandlerStep);
    var answered := Next(checked, HandlerStep);
    RunOne(s, HandlerStep);
    RunOne(checked, HandlerStep);
    RunConcat(s, [HandlerStep], [HandlerStep]);
    StepKeepsProtocol(s.at, HandlerStep);
    StepKeepsProtocol(checked.at, HandlerStep);
    assert answered.output == s.output + [Json];
    var rest := HeaderMayFollow(answered);
    steps := [HandlerStep] + [HandlerStep] + rest;
    RunConcat(s, [HandlerStep] + [HandlerStep], rest);
    assert s.output + [Json] + [Header] == s.output + [Json, Header];
  }

  /** An error answer is safe from the goroutine in every continuation if and only if the SSE header is
      already out, so that it becomes an event, or the goroutine has left its loop. */
  lemma JsonAloneExactlyWhen(s: State)
    requires Invariant(s) && s.at.handler.ErrorCheck? && Json !in s.output
    ensures (forall steps :: Alone(Run(s, steps).output)) <==> s.at.headerSet || Gone(s.at)
  {
    if s.at.headerSet || Gone(s.at) {
      if !s.at.headerSet {
        NothingBeforeHeader(s.output);
      }
      forall steps ensures Alone(Run(s, steps).output) {
        RunKeepsSettled(s, steps);
      }
    } else {
      var steps := AnswerThenHeader(s);
      assert [Json, Header][0] == Json && [Json, Header][1] == Header;
      assert !Alone(Run(s, steps).output);
    }
  }

  /** From the start: the handler answers an early failure, then the delay is over before its deferred Stop. */
  lemma HeaderJoinsEarlyAnswer() returns (steps: seq<Step>)
    ensures Run(Start(true), steps).output == [Json, Header]
  {
    var s := Next(Start(true), Call(ErrorCheck));
    RunOne(Start(true), Call(ErrorCheck));
    Reachable(true, [Call(ErrorCheck)]);
    var rest := AnswerThenHeader(s);
    steps := [Call(ErrorCheck)] + rest;
    RunConcat(Start(true), [Call(ErrorCheck)], rest);
  }

  /** Every FlushOrError of the run looked at an SSE header already out, or came after a Hand or Stop
      (or heartbeats were disabled): what its caller could check. */
  predicate HandsOverFirst(s: State, steps: seq<Step>) {
    steps == [] ||
    (HandsOverFirst(s, steps[..|steps| - 1])
     && var c := Run(s, steps[..|steps| - 1]).at;
        steps[|steps| - 1] == HandlerStep && c.handler.ErrorCheck? ==> c.headerSet || c.handed)
  }

  lemma StepKeepsAlone(s: State, step: Step)
    requires Invariant(s) && Alone(s.output)
    requires Json in s.output || s.at.handler.JsonWrite? ==> !s.at.headerSet && Gone(s.at)
    requires step.HandlerStep? && s.at.handler.ErrorCheck? ==> s.at.headerSet || s.at.handed
    ensures var t := Next(s, step);
            Alone(t.output) && (Json in t.output || t.at.handler.JsonWrite? ==> !t.at.headerSet && Gone(t.at))
  {
    if !s.at.headerSet {
      NothingBeforeHeader(s.output);
    }
    EmitMeans(s.at, step);
    ControlMoves(s.at, step);
    AppendedElements(s.output, Emit(s.at, step));
  }

  /** With a hand-over before every error answer no goroutine output ever joins a JSON answer. */
  lemma {:induction false} HandOverKeepsJsonAlone(enabled: bool, steps: seq<Step>)
    requires HandsOverFirst(Start(enabled), steps)
    ensures var s := Run(Start(enabled), steps);
            Alone(s.output) && (Json in s.output || s.at.handler.JsonWrite? ==> !s.at.headerSet && Gone(s.at))
  {
    if steps != [] {
      HandOverKeepsJsonAlone(enabled, steps[..|steps| - 1]);
      Reachable(enabled, steps[..|steps| - 1]);
      StepKeepsAlone(Run(Start(enabled), steps[..|steps| - 1]), steps[|steps| - 1]);
    }
  }

  // ----- silence after a return -----

  predicate HandlersOwn(output: seq<Output>) {
    Header !in output && Beat !in output
  }

  /** The output goes on from `base` with items of the handler's own. */
  predicate Continues(base: seq<Output>, output: seq<Output>) {
    |base| <= |output| && output[..|base|] == base && HandlersOwn(output[|base|..])
  }

  lemma OwnItemContinues(base: seq<Output>, output: seq<Output>, e: Option<Output>)
    requires Continues(base, output) && e != Some(Header) && e != Some(Beat)
    ensures Continues(base, Appended(output, e))
  {
    if e.Some? {
      assert (output + [e.value])[|base|..] == output[|base|..] + [e.value];
    }
  }

  lemma StaysReturned(c: Control, step: Step)
    requires c.returned
    ensures ControlNext(c, step).returned
  {
  }

  lemma {:induction false} SilentFrom(s: State, after: seq<Step>)
    requires Invariant(s) && s.at.returned
    ensures var t := Run(s, after); t.at.returned && Continues(s.output, t.output)
  {
    if after != [] {
      var t, step := Run(s, after[..|after| - 1]), after[|after| - 1];
      SilentFrom(s, after[..|after| - 1]);
      RunKeepsInvariant(s, after[..|after| - 1]);
      StaysReturned(t.at, step);
      EmitMeans(t.at, step);
      OwnItemContinues(s.output, t.output, Emit(t.at, step));
    }
  }

  /** Once a Hand or Stop has returned the goroutine writes nothing more: whatever happens next, only the
      handler adds output. */
  lemma SilentAfterReturn(enabled: bool, before: seq<Step>, after: seq<Step>)
    requires Run(Start(enabled), before).at.returned
    ensures var s := Run(Start(enabled), before);
            Continues(s.output, Run(s, after).output)
  {
    Reachable(enabled, before);
    SilentFrom(Run(Start(enabled), before), after);
  }

  // ----- every call returns -----

  function RoutineSteps(steps: seq<Step>): nat {
    if steps == [] then 0 else RoutineSteps(steps[..|steps| - 1]) + (if steps[|steps| - 1].RoutineStep? then 1 else 0)
  }

  function HandlerSteps(steps: seq<Step>): nat {
    if steps == [] then 0 else HandlerSteps(steps[..|steps| - 1]) + (if steps[|steps| - 1].HandlerStep? then 1 else 0)
  }

  /** The handler is idle at some point of the run. */
  predicate Returns(s: State, steps: seq<Step>) {
    Run(s, steps).at.handler.Idle? || (steps != [] && Returns(s, steps[..|steps| - 1]))
  }

  lemma {:induction false} ReturnsIn(s: State, a: seq<Step>, b: seq<Step>)
    requires Returns(s, a)
    ensures Returns(s, a + b)
  {
    if b == [] {
      assert a + b == a;
    } else {
      assert (a + b)[..|a + b| - 1] == a + b[..|b| - 1];
      ReturnsIn(s, a, b[..|b| - 1]);
    }
  }

  lemma {:induction false} ReturnsLater(s: State, a: seq<Step>, b: seq<Step>)
    requires Returns(Run(s, a), b)
    ensures Returns(s, a + b)
  {
    RunConcat(s, a, b);
    if b == [] {
      assert a + b == a;
    } else if !Run(s, a + b).at.handler.Idle? {
      assert (a + b)[..|a + b| - 1] == a + b[..|b| - 1];
      ReturnsLater(s, a, b[..|b| - 1]);
    }
  }

  predicate InCall(h: Handler) {
    HandlerLeft(h) > 0
  }

  /** How many steps a Hand or Stop still takes, its wait being one. */
  function HandlerLeft(h: Handler): nat {
    match h
    case StopStore => 4
    case HandSwap => 3
    case StopSwap => 3
    case HandCancel => 2
    case StopCancel => 2
    case HandWait => 1
    case StopWait => 1
    case _ => 0
  }

  /** How many steps the goroutine can still take once the hand-over flag is set. */
  function StepsLeft(r: Routine): nat {
    match r
    case WriteHeader => 8
    case WriteBeat => 7
    case Unlock(quit) => if quit then 2 else 6
    case Waiting => 5
    case Check => 4
    case Lock => 4
    case Recheck => 3
    case Closing => 1
    case Finished => 0
  }

  lemma StepTowardsWait(c: Control, step: Step)
    requires InCall(c.handler) && !Awaiting(c)
    ensures var d := ControlNext(c, step);
            || d.handler.Idle?
            || (InCall(d.handler)
                && HandlerLeft(d.handler) + (if step.HandlerStep? then 1 else 0) <= HandlerLeft(c.handler))
  {
    match step
    case RoutineStep(_) =>
    case HandlerStep =>
    case Call(_) =>
    case Respond =>
    case ClientGone =>
  }

  lemma StepWhileWaiting(c: Control, step: Step)
    requires Awaiting(c)
    ensures var d := ControlNext(c, step); d.handler.Idle? || d.handler == c.handler
    ensures c.routine.Finished? ==>
              ControlNext(c, step).routine.Finished? && (step.HandlerStep? ==> ControlNext(c, step).handler.Idle?)
  {
  }

  /** While a call waits, the goroutine is never blocked and every step brings it closer to its end. */
  lemma StepsDrop(c: Control, choice: bool)
    requires Protocol(c) && Awaiting(c) && !c.routine.Finished?
    ensures StepsLeft(RoutineNext(c, choice).routine) < StepsLeft(c.routine)
    ensures RoutineNext(c, choice).handler == c.handler
  {
  }

  lemma {:induction false} TowardsWait(s: State, steps: seq<Step>)
    requires InCall(s.at.handler)
    ensures var t := Run(s, steps);
            || Returns(s, steps)
            || Awaiting(t.at)
            || (InCall(t.at.handler) && HandlerLeft(t.at.handler) + HandlerSteps(steps) <= HandlerLeft(s.at.handler))
  {
    if steps != [] {
      var prefix, last := steps[..|steps| - 1], steps[|steps| - 1];
      TowardsWait(s, prefix);
      if !Returns(s, prefix) {
        var t := Run(s, prefix);
        if Awaiting(t.at) {
          StepWhileWaiting(t.at, last);
        } else {
          StepTowardsWait(t.at, last);
        }
      }
    }
  }

  ghost predicate Nearer(s: State, steps: seq<Step>) {
    var c := Run(s, steps).at;
    Awaiting(c) && (c.routine.Finished? || StepsLeft(c.routine) + RoutineSteps(steps) <= StepsLeft(s.at.routine))
  }

  lemma StepNearer(s: State, steps: seq<Step>, last: Step)
    requires Invariant(s) && Nearer(s, steps)
    ensures Run(s, steps + [last]).at.handler.Idle? || Nearer(s, steps + [last])
  {
    var c := Run(s, steps).at;
    RunKeepsInvariant(s, steps);
    assert (steps + [last])[..|steps|] == steps;
    StepWhileWaiting(c, last);
    if !c.routine.Finished? && last.RoutineStep? {
      StepsDrop(c, last.choice);
    }
  }

  lemma {:induction false} TowardsFinish(s: State, steps: seq<Step>)
    requires Invariant(s) && Awaiting(s.at)
    ensures Returns(s, steps) || Nearer(s, steps)
  {
    if steps != [] {
      var prefix := steps[..|steps| - 1];
      TowardsFinish(s, prefix);
      assert steps == prefix + [steps[|steps| - 1]];
      if !Returns(s, prefix) {
        StepNearer(s, prefix, steps[|steps| - 1]);
      }
    }
  }

  lemma {:induction false} Wakes(s: State, steps: seq<Step>)
    requires Awaiting(s.at) && s.at.routine.Finished?
    ensures Returns(s, steps)
            || (Awaiting(Run(s, steps).at) && Run(s, steps).at.routine.Finished? && HandlerSteps(steps) == 0)
  {
    if steps != [] {
      var prefix, last := steps[..|steps| - 1], steps[|steps| - 1];
      Wakes(s, prefix);
      if !Returns(s, prefix) {
        StepWhileWaiting(Run(s, prefix).at, last);
      }
    }
  }

  lemma WaitEnds(s: State, b: seq<Step>, c: seq<Step>)
    requires Invariant(s) && Awaiting(s.at) && RoutineSteps(b) >= 8 && HandlerSteps(c) >= 1
    ensures Returns(s, b + c)
  {
    TowardsFinish(s, b);
    if Returns(s, b) {
      ReturnsIn(s, b, c);
    } else {
      Wakes(Run(s, b), c);
      ReturnsLater(s, b, c);
    }
  }

  lemma WaitReached(s: State, a: seq<Step>)
    requires (s.at.handler.HandSwap? || s.at.handler.StopStore?) && HandlerSteps(a) >= 3
    ensures Returns(s, a) || Awaiting(Run(s, a).at)
  {
    TowardsWait(s, a);
    LastStepIsWait(Run(s, a).at);
  }

  lemma LastStepIsWait(c: Control)
    ensures HandlerLeft(c.handler) == 1 <==> Awaiting(c)
  {
  }

  /** From the call to its return: in every interleaving that gives the handler three steps, then the
      goroutine eight, then the handler one more, a Hand or Stop has returned, whatever the selects pick
      and the writes do. */
  lemma CallReturns(s: State, a: seq<Step>, b: seq<Step>, c: seq<Step>)
    requires Invariant(s) && (s.at.handler.HandSwap? || s.at.handler.StopStore?)
    requires HandlerSteps(a) >= 3 && RoutineSteps(b) >= 8 && HandlerSteps(c) >= 1
    ensures Returns(s, a + (b + c))
  {
    WaitReached(s, a);
    if Returns(s, a) {
      ReturnsIn(s, a, b + c);
    } else {
      RunKeepsInvariant(s, a);
      WaitEnds(Run(s, a), b, c);
      ReturnsLater(s, a, b + c);
    }
  }

  function HoldLeft(r: Routine): nat {
    match r
    case Recheck => 4
    case WriteHeader => 3
    case WriteBeat => 2
    case Unlock(_) => 1
    case _ => 0
  }

  lemma HoldShrinks(c: Control, step: Step)
    requires Protocol(c) && RoutineHolds(c.routine)
    ensures var d := ControlNext(c, step);
            || d.mutex.Nobody?
            || (RoutineHolds(d.routine)
                && HoldLeft(d.routine) + (if step.RoutineStep? then 1 else 0) <= HoldLeft(c.routine))
  {
  }

  /** The mutex is free at some point of the run. */
  predicate Freed(s: State, steps: seq<Step>) {
    Run(s, steps).at.mutex.Nobody? || (steps != [] && Freed(s, steps[..|steps| - 1]))
  }

  lemma {:induction false} HoldEnds(s: State, steps: seq<Step>)
    requires Invariant(s) && RoutineHolds(s.at.routine)
    ensures var c := Run(s, steps).at;
            Freed(s, steps)
                || (RoutineHolds(c.routine) && HoldLeft(c.routine) + RoutineSteps(steps) <= HoldLeft(s.at.routine))
  {
    if steps != [] {
      var prefix, last := steps[..|steps| - 1], steps[|steps| - 1];
      HoldEnds(s, prefix);
      if !Freed(s, prefix) {
        RunKeepsInvariant(s, prefix);
        HoldShrinks(Run(s, prefix).at, last);
      }
    }
  }

  /** An error event waits for the mutex only while the goroutine writes: four of its steps free it. */
  lemma MutexIsGivenBack(s: State, steps: seq<Step>)
    requires Invariant(s) && s.at.mutex.ByRoutine? && RoutineSteps(steps) >= 4
    ensures Freed(s, steps)
  {
    HoldEnds(s, steps);
  }
}
