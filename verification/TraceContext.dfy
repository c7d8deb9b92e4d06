/** trace_context and isolate_stream_trace: every step of a wrapped generator runs under its own
    trace, and the ambient context variables are back afterwards.

    A step of a wrapper is one atomic event for the context it runs in.  What the inner generator
    does when it is called, including how it leaves the context variables, is an input. */
module TraceContext {
  import opened Prelude

  datatype Trace = Trace(traceId: string, requestId: string, serial: nat)

  /** The values of _current_trace_ctx, trace_id_ctx_var and request_id_ctx_var. */
  datatype Context = Context(trace: Option<Trace>, traceId: Option<string>, requestId: Option<string>)

  function Own(t: Trace): Context {
    Context(Some(t), Some(t.traceId), Some(t.requestId))
  }

  type Item = string

  datatype Exc = GeneratorExit | Other(name: string)

  /** How the inner generator reacts to a call, and the context variables it leaves behind. */
  datatype Reply =
    | Yields(item: Item, left: Context)
    | Stops(left: Context)
    | Raises(exc: Exc, left: Context)

  datatype Command = Next | Throw(exc: Exc) | Close

  /** A call of the inner generator, with the context it saw when it started. */
  datatype InnerCall = InnerCall(command: Command, seen: Context, reply: Reply)

  /** What the wrapper's consumer gets. */
  datatype Result = Delivers(item: Item) | Ends | Propagates(exc: Exc)

  datatype Phase =
    | NotStarted
    | AtYield          // suspended at the first yield
    | AtHandlerYield   // suspended at the yield inside the exception handler
    | Finished

  datatype Wrapper = Wrapper(
    trace: Option<Trace>,
    phase: Phase,
    calls: seq<InnerCall>,
    results: seq<Result>)

  /** Calls the inner generator inside trace_context, or without one if there is no trace. */
  function CallInner(ctx: Context, w: Wrapper, command: Command, reply: Reply): (Context, Wrapper) {
    match w.trace
    case None => (reply.left, w.(calls := w.calls + [InnerCall(command, ctx, reply)]))
    case Some(t) =>
      var entered := ctx.(trace := Some(t)).(traceId := Some(t.traceId)).(requestId := Some(t.requestId));
      var restored := reply.left.(trace := ctx.trace).(traceId := ctx.traceId).(requestId := ctx.requestId);
      (restored, w.(calls := w.calls + [InnerCall(command, entered, reply)]))
  }

  /** Suspends the wrapper at a yield. */
  function Deliver(w: Wrapper, phase: Phase, item: Item): Wrapper {
    w.(phase := phase, results := w.results + [Delivers(item)])
  }

  /** Leaves the wrapper through its finally block, which closes the inner generator.  An exception
      from closing replaces the result. */
  function Leave(ctx: Context, w: Wrapper, result: Result, closing: Reply): (Context, Wrapper) {
    if w.trace == None then (ctx, w.(phase := Finished, results := w.results + [result]))
    else
      var (ctx', w') := CallInner(ctx, w, Close, closing);
      (ctx', w'.(phase := Finished, results := w'.results + [ResultAfterClosing(result, closing)]))
  }

  /** gen.aclose() swallows GeneratorExit, and objects to a generator that yields once more. */
  function ResultAfterClosing(result: Result, closing: Reply): Result {
    match closing
    case Raises(Other(name), _) => Propagates(closing.exc)
    case Yields(_, _) => Propagates(Other("RuntimeError"))
    case _ => result
  }

  /** One turn of the while loop: the next item, or out. */
  function Advance(ctx: Context, w: Wrapper, reply: Reply, closing: Reply): (Context, Wrapper) {
    var (ctx', w') := CallInner(ctx, w, Next, reply);
    match reply
    case Yields(item, _) => (ctx', Deliver(w', AtYield, item))
    case Stops(_) => Leave(ctx', w', Ends, closing)
    case Raises(exc, _) => Leave(ctx', w', Propagates(exc), closing)
  }

  /** The result of a command whose exception nothing catches; aclose() swallows its own. */
  function Uncaught(command: Command): Result {
    if command.Throw? then Propagates(command.exc) else Ends
  }

  predicate AsksToExit(command: Command) {
    command == Close || command == Throw(GeneratorExit)
  }

  /** The consumer drives the wrapper once: anext(), athrow(exc) or aclose(). */
  function Drive(ctx: Context, w: Wrapper, command: Command, reply: Reply, closing: Reply): (Context, Wrapper) {
    match w.phase
    case Finished => (ctx, w.(results := w.results + [Ends]))
    case NotStarted =>
      if command.Next? then Advance(ctx, w, reply, closing)
      else (ctx, w.(phase := Finished, results := w.results + [Uncaught(command)]))
    case AtYield =>
      if command.Next? then Advance(ctx, w, reply, closing)
      else if w.trace == None then Leave(ctx, w, Uncaught(command), closing)
      else if AsksToExit(command) then Leave(ctx, w, Ends, closing)
      else
        var (ctx', w') := CallInner(ctx, w, command, reply);
        (match reply
         case Yields(item, _) => (ctx', Deliver(w', AtHandlerYield, item))
         case Stops(_) => Leave(ctx', w', Ends, closing)
         case Raises(exc, _) => Leave(ctx', w', Propagates(exc), closing))
    case AtHandlerYield =>
      if command.Next? then Advance(ctx, w, reply, closing)
      else Leave(ctx, w, Uncaught(command), closing)
  }

  // ---------------------------------------------------------------------------- on the heap

  /** The three context variables of one task. */
  class ContextVars {
    var trace: Option<Trace>
    var traceId: Option<string>
    var requestId: Option<string>

    ghost function Value(): Context
      reads this
    {
      Context(trace, traceId, requestId)
    }

    /** Runs body(trace) of the context manager: tokens are taken, the inner call overwrites the
        variables as it likes, and each variable is reset from its token. */
    method RunInTraceContext(t: Trace, reply: Reply) returns (seen: Context)
      modifies this
      ensures seen == Own(t) && Value() == old(Value())
    {
      var token := trace;
      trace := Some(t);
      var traceIdToken := traceId;
      traceId := Some(t.traceId);
      var requestIdToken := requestId;
      requestId := Some(t.requestId);
      seen := Context(trace, traceId, requestId);
      trace, traceId, requestId := reply.left.trace, reply.left.traceId, reply.left.requestId;
      trace := token;
      traceId := traceIdToken;
      requestId := requestIdToken;
    }
  }

  /** A wrapped generator as its consumer holds it. */
  class IsolatedStream {
    const vars: ContextVars
    var state: Wrapper

    constructor (vars: ContextVars, trace: Option<Trace>)
      ensures this.vars == vars && state == Wrapper(trace, NotStarted, [], [])
    {
      this.vars := vars;
      state := Wrapper(trace, NotStarted, [], []);
    }

    method Inner(command: Command, reply: Reply)
      modifies this, vars
      ensures (vars.Value(), state) == CallInner(old(vars.Value()), old(state), command, reply)
    {
      var seen := Context(vars.trace, vars.traceId, vars.requestId);
      match state.trace {
        case None =>
          vars.trace, vars.traceId, vars.requestId := reply.left.trace, reply.left.traceId, reply.left.requestId;
        case Some(t) =>
          seen := vars.RunInTraceContext(t, reply);
      }
      state := state.(calls := state.calls + [InnerCall(command, seen, reply)]);
    }

    method Finish(result: Result, closing: Reply)
      modifies this, vars
      ensures (vars.Value(), state) == Leave(old(vars.Value()), old(state), result, closing)
    {
      var outcome := result;
      if state.trace.Some? {
        Inner(Close, closing);
        outcome := ResultAfterClosing(result, closing);
      }
      state := state.(phase := Finished, results := state.results + [outcome]);
    }

    /** anext(), athrow() and aclose(): the body of isolate_stream_trace from one suspension to the
        next. */
    method Resume(command: Command, reply: Reply, closing: Reply)
      modifies this, vars
      ensures (vars.Value(), state) == Drive(old(vars.Value()), old(state), command, reply, closing)
    {
      if state.phase.Finished? {
        state := state.(results := state.results + [Ends]);
        return;
      }
      if !command.Next? {
        if state.phase.NotStarted? {
          state := state.(phase := Finished, results := state.results + [Uncaught(command)]);
          return;
        }
        if state.phase.AtHandlerYield? || state.trace == None {
          Finish(Uncaught(command), closing);
          return;
        }
        if AsksToExit(command) {
          Finish(Ends, closing);
          return;
        }
      }
      Inner(command, reply);
      match reply
      case Yields(item, _) =>
        state := Deliver(state, if command.Next? then AtYield else AtHandlerYield, item);
      case Stops(_) =>
        Finish(Ends, closing);
      case Raises(exc, _) =>
        Finish(Propagates(exc), closing);
    }
  }

  // ------------------------------------------------------------ interleaved wrapped generators

  datatype World = World(ctx: Context, wrappers: map<nat, Wrapper>)

  datatype Event =
    | Wrap(id: nat, trace: Option<Trace>)
    | Step(id: nat, command: Command, reply: Reply, closing: Reply)
    | SetAmbient(ctx: Context)

  function Happen(world: World, e: Event): World {
    match e
    case Wrap(id, trace) =>
      if id in world.wrappers then world
      else world.(wrappers := world.wrappers[id := Wrapper(trace, NotStarted, [], [])])
    case Step(id, command, reply, closing) =>
      if id !in world.wrappers then world
      else
        var (ctx', w') := Drive(world.ctx, world.wrappers[id], command, reply, closing);
        World(ctx', world.wrappers[id := w'])
    case SetAmbient(ctx) => world.(ctx := ctx)
  }

  function After(ctx: Context, run: seq<Event>): World {
    if run == [] then World(ctx, map[])
    else Happen(After(ctx, run[..|run| - 1]), run[|run| - 1])
  }

  /** The context that the consumer itself set last. */
  function Ambient(ctx: Context, run: seq<Event>): Context {
    if run == [] then ctx
    else if run[|run| - 1].SetAmbient? then run[|run| - 1].ctx
    else Ambient(ctx, run[..|run| - 1])
  }

  ghost predicate AllTraced(run: seq<Event>) {
    forall i | 0 <= i < |run| && run[i].Wrap? :: run[i].trace.Some?
  }

  /** The items that an inner generator yielded, in order. */
  function Produced(calls: seq<InnerCall>): seq<Item> {
    if calls == [] then []
    else
      var last := calls[|calls| - 1];
      Produced(calls[..|calls| - 1]) + if !last.command.Close? && last.reply.Yields? then [last.reply.item] else []
  }

  /** The items that a consumer received, in order. */
  function Received(results: seq<Result>): seq<Item> {
    if results == [] then []
    else
      var last := results[|results| - 1];
      Received(results[..|results| - 1]) + if last.Delivers? then [last.item] else []
  }

  lemma OneMoreCall(calls: seq<InnerCall>, call: InnerCall)
    ensures Produced(calls + [call])
         == Produced(calls) + if !call.command.Close? && call.reply.Yields? then [call.reply.item] else []
  {
    assert (calls + [call])[..|calls|] == calls;
  }

  lemma OneMoreResult(results: seq<Result>, result: Result)
    ensures Received(results + [result]) == Received(results) + if result.Delivers? then [result.item] else []
  {
    assert (results + [result])[..|results|] == results;
  }

  /** Each call of a traced wrapper's inner generator starts under the wrapper's own trace. */
  ghost predicate SeesItsTrace(w: Wrapper) {
    w.trace.Some? ==> forall i | 0 <= i < |w.calls| :: w.calls[i].seen == Own(w.trace.value)
  }

  /** The inner generator is closed only as the last call of a finished wrapper, and a traced wrapper
      that was started does close it. */
  ghost predicate ClosesOnce(w: Wrapper) {
    && (forall i | 0 <= i < |w.calls| && w.calls[i].command.Close? :: i == |w.calls| - 1 && w.phase.Finished?)
    && (w.trace.Some? && w.phase.Finished? && w.calls != [] ==> w.calls[|w.calls| - 1].command.Close?)
    && (w.phase.NotStarted? <==> w.calls == [] && !w.phase.Finished?)
  }

  ghost predicate PassesItems(w: Wrapper) {
    Received(w.results) == Produced(w.calls)
  }

  ghost predicate WrapperInv(w: Wrapper) {
    SeesItsTrace(w) && ClosesOnce(w) && PassesItems(w)
  }

  lemma LeaveKeepsWrapperInv(ctx: Context, w: Wrapper, result: Result, closing: Reply)
    requires SeesItsTrace(w) && PassesItems(w) && w.calls != [] && !result.Delivers?
    requires forall i | 0 <= i < |w.calls| :: !w.calls[i].command.Close?
    ensures WrapperInv(Leave(ctx, w, result, closing).1)
  {
    if w.trace.Some? {
      ClosingKeepsWrapperInv(ctx, w, result, closing);
    } else {
      OneMoreResult(w.results, result);
    }
  }

  lemma ClosingKeepsWrapperInv(ctx: Context, w: Wrapper, result: Result, closing: Reply)
    requires w.trace.Some? && SeesItsTrace(w) && PassesItems(w) && !result.Delivers?
    requires forall i | 0 <= i < |w.calls| :: !w.calls[i].command.Close?
    ensures WrapperInv(Leave(ctx, w, result, closing).1)
  {
    var w' := Leave(ctx, w, result, closing).1;
    var call := InnerCall(Close, Own(w.trace.value), closing);
    assert w'.calls == w.calls + [call] && w'.results == w.results + [ResultAfterClosing(result, closing)];
    OneMoreResult(w.results, ResultAfterClosing(result, closing));
    OneMoreCall(w.calls, call);
  }

  lemma CallAndDeliver(ctx: Context, w: Wrapper, command: Command, reply: Reply, phase: Phase)
    requires WrapperInv(w) && !w.phase.Finished? && !command.Close? && reply.Yields?
    requires phase.AtYield? || phase.AtHandlerYield?
    ensures WrapperInv(Deliver(CallInner(ctx, w, command, reply).1, phase, reply.item))
  {
    var w' := CallInner(ctx, w, command, reply).1;
    OneMoreCall(w.calls, w'.calls[|w.calls|]);
    OneMoreResult(w.results, Delivers(reply.item));
  }

  lemma CallAndLeave(ctx: Context, w: Wrapper, command: Command, reply: Reply, result: Result, closing: Reply)
    requires WrapperInv(w) && !w.phase.Finished? && !command.Close? && !reply.Yields? && !result.Delivers?
    ensures
      var (ctx', w') := CallInner(ctx, w, command, reply);
      WrapperInv(Leave(ctx', w', result, closing).1)
  {
    var (ctx', w') := CallInner(ctx, w, command, reply);
    OneMoreCall(w.calls, w'.calls[|w.calls|]);
    LeaveKeepsWrapperInv(ctx', w', result, closing);
  }

  lemma AdvanceKeepsWrapperInv(ctx: Context, w: Wrapper, reply: Reply, closing: Reply)
    requires WrapperInv(w) && !w.phase.Finished?
    ensures WrapperInv(Advance(ctx, w, reply, closing).1)
  {
    match reply
    case Yields(item, _) => CallAndDeliver(ctx, w, Next, reply, AtYield);
    case Stops(_) => CallAndLeave(ctx, w, Next, reply, Ends, closing);
    case Raises(exc, _) => CallAndLeave(ctx, w, Next, reply, Propagates(exc), closing);
  }

  lemma DriveKeepsWrapperInv(ctx: Context, w: Wrapper, command: Command, reply: Reply, closing: Reply)
    requires WrapperInv(w)
    ensures WrapperInv(Drive(ctx, w, command, reply, closing).1)
  {
    if w.phase.Finished? {
      OneMoreResult(w.results, Ends);
    } else if command.Next? {
      AdvanceKeepsWrapperInv(ctx, w, reply, closing);
    } else if w.phase.NotStarted? {
      OneMoreResult(w.results, Uncaught(command));
    } else if w.phase.AtHandlerYield? || w.trace == None {
      LeaveKeepsWrapperInv(ctx, w, Uncaught(command), closing);
    } else if AsksToExit(command) {
      LeaveKeepsWrapperInv(ctx, w, Ends, closing);
    } else {
      match reply
      case Yields(item, _) => CallAndDeliver(ctx, w, command, reply, AtHandlerYield);
      case Stops(_) => CallAndLeave(ctx, w, command, reply, Ends, closing);
      case Raises(exc, _) => CallAndLeave(ctx, w, command, reply, Propagates(exc), closing);
    }
  }

  /** However the inner generator leaves the variables, and whether it returns or raises, a step of a
      traced wrapper puts all three back. */
  lemma DriveRestoresContext(ctx: Context, w: Wrapper, command: Command, reply: Reply, closing: Reply)
    requires w.trace.Some?
    ensures Drive(ctx, w, command, reply, closing).0 == ctx
    ensures Drive(ctx, w, command, reply, closing).1.trace == w.trace
  {
  }

  /** Trace isolation: for any number of wrapped generators driven in any order in one context, every
      call of an inner generator starts with exactly its own trace, trace id and request id; items
      reach the consumer unchanged and in order; and a generator that was started is closed once. */
  lemma {:induction false} EveryStepRunsUnderItsTrace(ctx: Context, run: seq<Event>, id: nat)
    requires id in After(ctx, run).wrappers
    ensures WrapperInv(After(ctx, run).wrappers[id])
  {
    if run != [] {
      var before, e := After(ctx, run[..|run| - 1]), run[|run| - 1];
      if id in before.wrappers {
        EveryStepRunsUnderItsTrace(ctx, run[..|run| - 1], id);
        if e.Step? && e.id == id {
          DriveKeepsWrapperInv(before.ctx, before.wrappers[id], e.command, e.reply, e.closing);
        }
      }
    }
  }

  /** Between steps the context is the ambient one: what the consumer set last. */
  lemma {:induction false} ContextIsAmbient(ctx: Context, run: seq<Event>)
    requires AllTraced(run)
    ensures After(ctx, run).ctx == Ambient(ctx, run)
    ensures forall id | id in After(ctx, run).wrappers :: After(ctx, run).wrappers[id].trace.Some?
  {
    if run != [] {
      var before, e := After(ctx, run[..|run| - 1]), run[|run| - 1];
      ContextIsAmbient(ctx, run[..|run| - 1]);
      if e.Step? && e.id in before.wrappers {
        DriveRestoresContext(before.ctx, before.wrappers[e.id], e.command, e.reply, e.closing);
      }
    }
  }

  /** Where a traced wrapper stands follows from the last call of its inner generator: at its first
      yield after an item of anext, at the yield of its handler after an item of athrow. */
  ghost predicate StandsWhereItWasLeft(w: Wrapper) {
    && (w.phase.AtYield? <==> LastAnsweredWithItem(w) && w.calls[|w.calls| - 1].command.Next?)
    && (w.phase.AtHandlerYield? <==> LastAnsweredWithItem(w) && w.calls[|w.calls| - 1].command.Throw?)
  }

  ghost predicate LastAnsweredWithItem(w: Wrapper) {
    w.calls != [] && w.calls[|w.calls| - 1].reply.Yields? && !w.calls[|w.calls| - 1].command.Close?
  }

  lemma LeftStands(ctx: Context, w: Wrapper, result: Result, closing: Reply)
    requires w.trace.Some?
    ensures StandsWhereItWasLeft(Leave(ctx, w, result, closing).1)
  {
  }

  lemma CalledStands(ctx: Context, w: Wrapper, command: Command, reply: Reply)
    requires !command.Close? && reply.Yields?
    ensures StandsWhereItWasLeft(
      Deliver(CallInner(ctx, w, command, reply).1, if command.Next? then AtYield else AtHandlerYield, reply.item))
  {
  }

  lemma DriveKeepsStanding(ctx: Context, w: Wrapper, command: Command, reply: Reply, closing: Reply)
    requires w.trace.Some? && WrapperInv(w) && StandsWhereItWasLeft(w)
    ensures StandsWhereItWasLeft(Drive(ctx, w, command, reply, closing).1)
  {
    if w.phase.Finished? || (w.phase.NotStarted? && !command.Next?) {
    } else if !command.Next? && (w.phase.AtHandlerYield? || AsksToExit(command)) {
      LeftStands(ctx, w, if w.phase.AtHandlerYield? then Uncaught(command) else Ends, closing);
    } else {
      var (ctx', w') := CallInner(ctx, w, command, reply);
      match reply
      case Yields(_, _) => CalledStands(ctx, w, command, reply);
      case Stops(_) => LeftStands(ctx', w', Ends, closing);
      case Raises(exc, _) => LeftStands(ctx', w', Propagates(exc), closing);
    }
  }

  lemma {:induction false} WrappersStandWhereTheyWereLeft(ctx: Context, run: seq<Event>, id: nat)
    requires id in After(ctx, run).wrappers && After(ctx, run).wrappers[id].trace.Some?
    ensures StandsWhereItWasLeft(After(ctx, run).wrappers[id])
  {
    var before, e := After(ctx, run[..|run| - 1]), run[|run| - 1];
    if id in before.wrappers {
      TraceStays(before, e, id);
      WrappersStandWhereTheyWereLeft(ctx, run[..|run| - 1], id);
      if e.Step? && e.id == id {
        EveryStepRunsUnderItsTrace(ctx, run[..|run| - 1], id);
        DriveKeepsStanding(before.ctx, before.wrappers[id], e.command, e.reply, e.closing);
      }
    }
  }

  lemma TraceStays(world: World, e: Event, id: nat)
    requires id in world.wrappers
    ensures id in Happen(world, e).wrappers && Happen(world, e).wrappers[id].trace == world.wrappers[id].trace
  {
  }

  lemma OneMoreEvent(ctx: Context, run: seq<Event>, e: Event)
    ensures After(ctx, run + [e]) == Happen(After(ctx, run), e)
  {
    assert (run + [e])[..|run + [e]| - 1] == run;
  }

  /** After any run, an exception thrown into a traced wrapper reaches its inner generator if and only
      if the generator's last call was an anext answered with an item and the exception is not
      GeneratorExit.  If it was an athrow answered with an item, the next exception ends the wrapper. */
  lemma {:induction false} ThrownExceptionsReachTheGenerator(
    ctx: Context, run: seq<Event>, id: nat, exc: Exc, reply: Reply, closing: Reply)
    requires id in After(ctx, run).wrappers && After(ctx, run).wrappers[id].trace.Some?
    ensures id in After(ctx, run + [Step(id, Throw(exc), reply, closing)]).wrappers
    ensures
      var w := After(ctx, run).wrappers[id];
      var w' := After(ctx, run + [Step(id, Throw(exc), reply, closing)]).wrappers[id];
      (w.calls < w'.calls && w'.calls[|w.calls|].command == Throw(exc))
      <==> LastAnsweredWithItem(w) && w.calls[|w.calls| - 1].command.Next? && exc != GeneratorExit
    ensures
      var w := After(ctx, run).wrappers[id];
      var w' := After(ctx, run + [Step(id, Throw(exc), reply, closing)]).wrappers[id];
      LastAnsweredWithItem(w) && w.calls[|w.calls| - 1].command.Throw? ==>
        && w'.phase.Finished? && |w'.calls| == |w.calls| + 1 && w'.calls[|w.calls|].command == Close
  {
    OneMoreEvent(ctx, run, Step(id, Throw(exc), reply, closing));
    WrappersStandWhereTheyWereLeft(ctx, run, id);
    EveryStepRunsUnderItsTrace(ctx, run, id);
  }

  ghost predicate At(world: World, ctx: Context, w: Wrapper) {
    world.ctx == ctx && 0 in world.wrappers && world.wrappers[0] == w
  }

  lemma {:induction false} AfterAnAnswer(ctx: Context, t: Trace, one: Item, two: Item, e: Exc)
    requires e != GeneratorExit
    ensures
      var run := [Wrap(0, Some(t)), Step(0, Next, Yields(one, ctx), Stops(ctx)),
                  Step(0, Throw(e), Yields(two, ctx), Stops(ctx))];
      At(After(ctx, run), ctx, Wrapper(
        Some(t), AtHandlerYield,
        [InnerCall(Next, Own(t), Yields(one, ctx)), InnerCall(Throw(e), Own(t), Yields(two, ctx))],
        [Delivers(one), Delivers(two)]))
  {
    var wrap, next := Wrap(0, Some(t)), Step(0, Next, Yields(one, ctx), Stops(ctx));
    var throw := Step(0, Throw(e), Yields(two, ctx), Stops(ctx));
    OneMoreEvent(ctx, [], wrap);
    assert [] + [wrap] == [wrap];
    assert At(After(ctx, [wrap]), ctx, Wrapper(Some(t), NotStarted, [], []));
    OneMoreEvent(ctx, [wrap], next);
    assert [wrap] + [next] == [wrap, next];
    assert At(After(ctx, [wrap, next]), ctx,
              Wrapper(Some(t), AtYield, [InnerCall(Next, Own(t), next.reply)], [Delivers(one)]));
    OneMoreEvent(ctx, [wrap, next], throw);
    assert [wrap, next] + [throw] == [wrap, next, throw];
  }

  /** It happens: an item, an exception answered with an item, and a second exception, which the inner
      generator never sees: it is closed, and the consumer gets its own exception back. */
  lemma {:induction false} SecondExceptionIsNotPassedOn(ctx: Context, t: Trace, one: Item, two: Item, e: Exc, e': Exc)
    requires e != GeneratorExit
    ensures
      var run := [
        Wrap(0, Some(t)),
        Step(0, Next, Yields(one, ctx), Stops(ctx)),
        Step(0, Throw(e), Yields(two, ctx), Stops(ctx)),
        Step(0, Throw(e'), Yields(two, ctx), Stops(ctx))];
      && 0 in After(ctx, run).wrappers
      && After(ctx, run).wrappers[0].calls == [
           InnerCall(Next, Own(t), Yields(one, ctx)),
           InnerCall(Throw(e), Own(t), Yields(two, ctx)),
           InnerCall(Close, Own(t), Stops(ctx))]
      && After(ctx, run).wrappers[0].results == [Delivers(one), Delivers(two), Propagates(e')]
  {
    var wrap, next := Wrap(0, Some(t)), Step(0, Next, Yields(one, ctx), Stops(ctx));
    var throw := Step(0, Throw(e), Yields(two, ctx), Stops(ctx));
    var again := Step(0, Throw(e'), Yields(two, ctx), Stops(ctx));
    AfterAnAnswer(ctx, t, one, two, e);
    OneMoreEvent(ctx, [wrap, next, throw], again);
    assert [wrap, next, throw] + [again] == [wrap, next, throw, again];
  }
}
