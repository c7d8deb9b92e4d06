/** What the consumer of a wrapped generator gets for each step, from the inner generator's replies
    alone: which steps deliver, which end and which raise. */
module TraceResults {
  import opened Prelude
  import opened TraceContext

  /** gen.aclose() raises nothing: the generator ends, or lets GeneratorExit through. */
  predicate IsQuiet(closing: Reply) {
    closing.Stops? || (closing.Raises? && closing.exc == GeneratorExit)
  }

  /** What gen.aclose() raises: the generator's own exception, or a complaint that it yielded. */
  function Objection(closing: Reply): Exc {
    if closing.Raises? then closing.exc else Other("RuntimeError")
  }

  /** The result is this one, unless the generator was closed and closing raised, which replaces it. */
  ghost predicate IsResult(w: Wrapper, result: Result, meant: Result, closing: Reply) {
    result == if w.trace.Some? && !IsQuiet(closing) then Propagates(Objection(closing)) else meant
  }

  /** Leaving a wrapper ends it with one result. */
  lemma LeavingEnds(ctx: Context, w: Wrapper, result: Result, closing: Reply)
    ensures
      var w' := Leave(ctx, w, result, closing).1;
      && w'.phase.Finished? && |w'.results| == |w.results| + 1 && w.results <= w'.results && w.calls <= w'.calls
      && IsResult(w, w'.results[|w.results|], result, closing)
      && (|w'.calls| > |w.calls| ==> w'.calls[|w.calls|].command.Close?)
  {
  }

  lemma CallingIsLogged(ctx: Context, w: Wrapper, command: Command, reply: Reply)
    ensures
      var w' := CallInner(ctx, w, command, reply).1;
      && w' == w.(calls := w'.calls) && |w'.calls| == |w.calls| + 1 && w.calls <= w'.calls
      && w'.calls[|w.calls|].command == command && w'.calls[|w.calls|].reply == reply
  {
  }

  /** Calling the generator and going on as it answers. */
  ghost predicate AnswersAs(w: Wrapper, w': Wrapper, command: Command, reply: Reply, closing: Reply) {
    && |w'.results| == |w.results| + 1 && w.results <= w'.results
    && |w'.calls| > |w.calls| && w.calls <= w'.calls
    && w'.calls[|w.calls|].command == command && w'.calls[|w.calls|].reply == reply
    && match reply
       case Yields(item, _) =>
         && w'.results[|w.results|] == Delivers(item) && |w'.calls| == |w.calls| + 1
         && w'.phase == if command.Next? then AtYield else AtHandlerYield
       case Stops(_) => w'.phase.Finished? && IsResult(w, w'.results[|w.results|], Ends, closing)
       case Raises(exc, _) => w'.phase.Finished? && IsResult(w, w'.results[|w.results|], Propagates(exc), closing)
  }

  lemma AnswerOfCall(ctx: Context, w: Wrapper, command: Command, reply: Reply, closing: Reply)
    requires (command.Next? && !w.phase.Finished?)
          || (command.Throw? && w.phase.AtYield? && w.trace.Some? && !AsksToExit(command))
    ensures AnswersAs(w, Drive(ctx, w, command, reply, closing).1, command, reply, closing)
  {
    var (ctx', w') := CallInner(ctx, w, command, reply);
    CallingIsLogged(ctx, w, command, reply);
    match reply
    case Yields(_, _) =>
    case Stops(_) => LeavingEnds(ctx', w', Ends, closing);
    case Raises(exc, _) => LeavingEnds(ctx', w', Propagates(exc), closing);
  }

  /** Every other step calls nothing but aclose, and ends the wrapper. */
  lemma OtherSteps(ctx: Context, w: Wrapper, command: Command, reply: Reply, closing: Reply)
    requires !(command.Next? && !w.phase.Finished?)
    requires !(command.Throw? && w.phase.AtYield? && w.trace.Some? && !AsksToExit(command))
    ensures
      var w' := Drive(ctx, w, command, reply, closing).1;
      && w'.phase.Finished? && |w'.results| == |w.results| + 1 && w.results <= w'.results && w.calls <= w'.calls
      && !w'.results[|w.results|].Delivers?
      && (|w'.calls| > |w.calls| ==> w'.calls[|w.calls|].command.Close?)
  {
    LeavingEnds(ctx, w, Uncaught(command), closing);
    LeavingEnds(ctx, w, Ends, closing);
  }

  // -------------------------------------------------------------------------- phases in results

  /** What a wrapper has given its consumer says where it stands: it is finished from the first result
      that is no item, it has not been started before the first result, and in between it is at its
      first yield after an anext and at its handler's yield after an athrow. */
  ghost predicate ResultsTellThePhase(w: Wrapper) {
    && (w.phase.NotStarted? <==> w.results == [])
    && (w.phase.Finished? <==> w.results != [] && !w.results[|w.results| - 1].Delivers?)
    && (w.phase.AtHandlerYield? ==> w.calls != [] && w.calls[|w.calls| - 1].command.Throw?)
    && (w.phase.AtYield? ==> w.calls != [] && w.calls[|w.calls| - 1].command.Next?)
  }

  lemma DriveKeepsTelling(ctx: Context, w: Wrapper, command: Command, reply: Reply, closing: Reply)
    requires ResultsTellThePhase(w)
    ensures ResultsTellThePhase(Drive(ctx, w, command, reply, closing).1)
  {
    if (command.Next? && !w.phase.Finished?)
       || (command.Throw? && w.phase.AtYield? && w.trace.Some? && !AsksToExit(command)) {
      AnswerOfCall(ctx, w, command, reply, closing);
    } else {
      OtherSteps(ctx, w, command, reply, closing);
    }
  }

  lemma {:induction false} WrappersTellTheirPhase(ctx: Context, run: seq<Event>, id: nat)
    requires id in After(ctx, run).wrappers
    ensures ResultsTellThePhase(After(ctx, run).wrappers[id])
  {
    var before, e := After(ctx, run[..|run| - 1]), run[|run| - 1];
    if id in before.wrappers {
      WrappersTellTheirPhase(ctx, run[..|run| - 1], id);
      if e.Step? && e.id == id {
        DriveKeepsTelling(before.ctx, before.wrappers[id], e.command, e.reply, e.closing);
      }
    }
  }

  // ------------------------------------------------------------------------- the result of a step

  /** A step of a wrapper has one result.  If it calls the inner generator, with anext or athrow, the
      result is the item that the generator yields, the end if it stops, and its exception if it raises
      one; in the last two cases a traced wrapper closes the generator, and an exception from closing
      replaces the result. */
  lemma {:induction false} CallsDecideResults(
    ctx: Context, run: seq<Event>, id: nat, command: Command, reply: Reply, closing: Reply)
    requires id in After(ctx, run).wrappers
    ensures id in After(ctx, run + [Step(id, command, reply, closing)]).wrappers
    ensures
      var w := After(ctx, run).wrappers[id];
      var w' := After(ctx, run + [Step(id, command, reply, closing)]).wrappers[id];
      && |w'.results| == |w.results| + 1 && w.results <= w'.results && w.calls <= w'.calls
      && (|w'.calls| > |w.calls| && !w'.calls[|w.calls|].command.Close? ==>
            var result := w'.results[|w.results|];
            && w'.calls[|w.calls|].command == command && w'.calls[|w.calls|].reply == reply
            && (reply.Yields? ==> result == Delivers(reply.item))
            && (reply.Stops? ==> IsResult(w, result, Ends, closing))
            && (reply.Raises? ==> IsResult(w, result, Propagates(reply.exc), closing)))
  {
    OneMoreEvent(ctx, run, Step(id, command, reply, closing));
    WrappersTellTheirPhase(ctx, run, id);
    CallDecidesResult(After(ctx, run).ctx, After(ctx, run).wrappers[id], command, reply, closing);
  }

  lemma CallDecidesResult(ctx: Context, w: Wrapper, command: Command, reply: Reply, closing: Reply)
    ensures
      var w' := Drive(ctx, w, command, reply, closing).1;
      && |w'.results| == |w.results| + 1 && w.results <= w'.results && w.calls <= w'.calls
      && (|w'.calls| > |w.calls| && !w'.calls[|w.calls|].command.Close? ==>
            var result := w'.results[|w.results|];
            && w'.calls[|w.calls|].command == command && w'.calls[|w.calls|].reply == reply
            && (reply.Yields? ==> result == Delivers(reply.item))
            && (reply.Stops? ==> IsResult(w, result, Ends, closing))
            && (reply.Raises? ==> IsResult(w, result, Propagates(reply.exc), closing)))
  {
    if (command.Next? && !w.phase.Finished?)
       || (command.Throw? && w.phase.AtYield? && w.trace.Some? && !AsksToExit(command)) {
      AnswerOfCall(ctx, w, command, reply, closing);
    } else {
      OtherSteps(ctx, w, command, reply, closing);
    }
  }

  /** The last result is an item: the wrapper is under way. */
  predicate IsUnderWay(w: Wrapper) {
    w.results != [] && w.results[|w.results| - 1].Delivers?
  }

  /** When a step calls the inner generator: an anext does exactly until the wrapper has ended; an
      athrow of a traced wrapper does exactly after an anext answered with an item, unless it throws
      GeneratorExit; and an aclose never does, apart from closing it. */
  lemma {:induction false} WhichStepsCall(
    ctx: Context, run: seq<Event>, id: nat, command: Command, reply: Reply, closing: Reply)
    requires id in After(ctx, run).wrappers
    ensures id in After(ctx, run + [Step(id, command, reply, closing)]).wrappers
    ensures
      var w := After(ctx, run).wrappers[id];
      var w' := After(ctx, run + [Step(id, command, reply, closing)]).wrappers[id];
      var calls := |w'.calls| > |w.calls| && !w'.calls[|w.calls|].command.Close?;
      && (command.Next? ==> (calls <==> w.results == [] || IsUnderWay(w)))
      && (command.Throw? && w.trace.Some? ==>
            (calls <==> IsUnderWay(w) && w.calls != [] && w.calls[|w.calls| - 1].command.Next?
                        && command.exc != GeneratorExit))
      && (command.Throw? && w.trace.None? ==> !calls)
      && (command.Close? ==> !calls)
  {
    OneMoreEvent(ctx, run, Step(id, command, reply, closing));
    WrappersTellTheirPhase(ctx, run, id);
    EveryStepRunsUnderItsTrace(ctx, run, id);
  }

  /** A step that does not call the generator: a finished wrapper only ends again; one that is not
      started gives a thrown exception back; one under way is closed, and ends if it was asked to exit
      at its first yield, or gives the thrown exception back. */
  lemma {:induction false} OtherResults(
    ctx: Context, run: seq<Event>, id: nat, command: Command, reply: Reply, closing: Reply)
    requires id in After(ctx, run).wrappers
    ensures id in After(ctx, run + [Step(id, command, reply, closing)]).wrappers
    ensures
      var w := After(ctx, run).wrappers[id];
      var w' := After(ctx, run + [Step(id, command, reply, closing)]).wrappers[id];
      |w'.results| == |w.results| + 1 &&
      var result := w'.results[|w.results|];
      && (w.results != [] && !IsUnderWay(w) ==> result == Ends && w'.calls == w.calls)
      && (w.results == [] && command.Throw? ==> result == Propagates(command.exc) && w'.calls == w.calls)
      && (w.results == [] && command.Close? ==> result == Ends && w'.calls == w.calls)
      && (IsUnderWay(w) && command.Close? ==> IsResult(w, result, Ends, closing))
      && (IsUnderWay(w) && w.trace.Some? && command == Throw(GeneratorExit)
            && w.calls != [] && w.calls[|w.calls| - 1].command.Next? ==>
            IsResult(w, result, Ends, closing))
      && (IsUnderWay(w) && command.Throw?
            && (w.trace.None? || (w.calls != [] && w.calls[|w.calls| - 1].command.Throw?)) ==>
            IsResult(w, result, Propagates(command.exc), closing))
  {
    OneMoreEvent(ctx, run, Step(id, command, reply, closing));
    WrappersTellTheirPhase(ctx, run, id);
  }

  // ------------------------------------------------------------------------------- plain iteration

  /** The replies to the steps that drive wrapper id in a run. */
  ghost function RepliesTo(ctx: Context, run: seq<Event>, id: nat): seq<Reply> {
    if run == [] then []
    else
      var earlier, e := run[..|run| - 1], run[|run| - 1];
      if e.Step? && e.id == id && id in After(ctx, earlier).wrappers
      then RepliesTo(ctx, earlier, id) + [e.reply] else RepliesTo(ctx, earlier, id)
  }

  /** What driving the generator itself with anext gives: its items, then its end or its exception, and
      its end from then on. */
  ghost function Direct(replies: seq<Reply>): seq<Result> {
    if replies == [] then []
    else
      var earlier, reply := replies[..|replies| - 1], replies[|replies| - 1];
      Direct(earlier) +
        if exists i :: 0 <= i < |earlier| && !earlier[i].Yields? then [Ends]
        else
          match reply
          case Yields(item, _) => [Delivers(item)]
          case Stops(_) => [Ends]
          case Raises(exc, _) => [Propagates(exc)]
  }

  lemma NextIsDirect(ctx: Context, w: Wrapper, replies: seq<Reply>, reply: Reply, closing: Reply)
    requires ResultsTellThePhase(w) && w.results == Direct(replies) && IsQuiet(closing)
    ensures Drive(ctx, w, Next, reply, closing).1.results == Direct(replies + [reply])
  {
    var w' := Drive(ctx, w, Next, reply, closing).1;
    DirectEnds(replies);
    assert (replies + [reply])[..|replies + [reply]| - 1] == replies;
    if w.phase.Finished? {
      assert w'.results == w.results + [Ends];
    } else {
      AnswerOfCall(ctx, w, Next, reply, closing);
      assert w'.results == w.results + [w'.results[|w.results|]];
    }
  }

  /** Wrapper id is only driven by anext, and closing its generator is quiet. */
  ghost predicate OnlyIterates(run: seq<Event>, id: nat) {
    forall i | 0 <= i < |run| && run[i].Step? && run[i].id == id :: run[i].command.Next? && IsQuiet(run[i].closing)
  }

  lemma {:induction false} DirectEnds(replies: seq<Reply>)
    ensures |Direct(replies)| == |replies|
    ensures (exists i :: 0 <= i < |replies| && !replies[i].Yields?)
       <==> replies != [] && !Direct(replies)[|replies| - 1].Delivers?
  {
    if replies != [] {
      var earlier := replies[..|replies| - 1];
      DirectEnds(earlier);
      if i :| 0 <= i < |earlier| && !earlier[i].Yields? {
        assert !replies[i].Yields?;
      }
      if i :| 0 <= i < |replies| && !replies[i].Yields? {
        assert i == |earlier| || !earlier[i].Yields?;
      }
    }
  }

  /** The wrapper is transparent: iterating it, among any other wrappers, gives exactly what iterating
      the generator itself gives. */
  lemma {:induction false} IterationIsDirect(ctx: Context, run: seq<Event>, id: nat)
    requires OnlyIterates(run, id) && id in After(ctx, run).wrappers
    ensures After(ctx, run).wrappers[id].results == Direct(RepliesTo(ctx, run, id))
  {
    var earlier, e := run[..|run| - 1], run[|run| - 1];
    if id in After(ctx, earlier).wrappers {
      IterationIsDirect(ctx, earlier, id);
      if e.Step? && e.id == id {
        WrappersTellTheirPhase(ctx, earlier, id);
        NextIsDirect(After(ctx, earlier).ctx, After(ctx, earlier).wrappers[id], RepliesTo(ctx, earlier, id),
                     e.reply, e.closing);
      }
    } else {
      NotDrivenBefore(ctx, earlier, id);
    }
  }

  lemma {:induction false} NotDrivenBefore(ctx: Context, run: seq<Event>, id: nat)
    requires id !in After(ctx, run).wrappers
    ensures RepliesTo(ctx, run, id) == []
  {
    if run != [] {
      NotDrivenBefore(ctx, run[..|run| - 1], id);
    }
  }
}
