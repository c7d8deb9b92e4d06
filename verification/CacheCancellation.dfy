/** Who leaves get_or_compute by somebody else's cancellation.  An await of a shared future is not
    shielded, so one caller's cancellation reaches others; nothing else does, except clear() and
    exceptions that are not an Exception. */
module CacheCancellation {
  import opened Prelude
  import opened Lru
  import opened CacheRegions
  import opened CacheProtocol

  predicate IsAborted(s: State, c: CallerId) {
    c in s.callers && s.callers[c].Aborted?
  }

  /** c waits, its future is done, and waking up raises what get_or_compute does not catch: c was
      cancelled itself, or the future was cancelled or carries an exception that is no Exception. */
  predicate IsDoomed(s: State, c: CallerId) {
    && c in s.callers && s.callers[c].Waiting? && s.callers[c].future < |s.futures|
    && match s.futures[s.callers[c].future].state
       case Pending => false
       case Cancelled => true
       case Failed(catchable) => s.callers[c].doomed || !catchable
       case Resolved(_) => s.callers[c].doomed
  }

  /** A step aborts a caller exactly when it wakes that caller up and the caller is doomed. */
  lemma AbortedExactlyWhenDoomed(dim: Key -> nat, s: State, e: Event, c: CallerId)
    requires Inv(s)
    ensures IsAborted(Step(dim, s, e), c) <==> IsAborted(s, c) || (e == Wake(c) && IsDoomed(s, c))
  {
    if e.Wake? {
      WakingAbortsTheDoomed(s, e.caller, c);
    } else {
      OnlyWakingAborts(dim, s, e, c);
    }
  }

  lemma WakingAbortsTheDoomed(s: State, woken: CallerId, c: CallerId)
    requires Inv(s)
    ensures IsAborted(StepWake(s, woken), c) <==> IsAborted(s, c) || (woken == c && IsDoomed(s, c))
  {
  }

  lemma OnlyWakingAborts(dim: Key -> nat, s: State, e: Event, c: CallerId)
    requires !e.Wake?
    ensures IsAborted(Step(dim, s, e), c) == IsAborted(s, c)
  {
  }

  // ------------------------------------------------------------------ the events that abort

  predicate IsWaiting(s: State, c: CallerId) {
    c in s.callers && s.callers[c].Waiting?
  }

  /** Event i of the run cancels c while it waits. */
  ghost predicate CancelledAt(dim: Key -> nat, maxSize: int, run: seq<Event>, i: int, c: CallerId) {
    0 <= i < |run| && run[i] == CancelWaiter(c) && IsWaiting(After(dim, maxSize, run[..i]), c)
  }

  predicate IsSpoiled(s: State, f: FutureId) {
    f < |s.futures| && (s.futures[f].state == Cancelled || s.futures[f].state == Failed(false))
  }

  /** The event cancels the pending future f or completes it uncatchably: it cancels somebody who waits
      on f, clears the table with f in it, or ends a computation of the key under which f is. */
  ghost predicate Spoils(s: State, e: Event, f: FutureId) {
    && f < |s.futures| && s.futures[f].state.Pending?
    && match e
       case CancelWaiter(w) => IsWaiting(s, w) && s.callers[w].future == f
       case Clear => f in s.inFlight.Values
       case Finish(c, outcome) =>
         && c in s.callers && s.callers[c].Executing?
         && s.callers[c].key in s.inFlight && s.inFlight[s.callers[c].key] == f
         && (outcome == CancelledInside || outcome == Raises(false))
       case _ => false
  }

  ghost predicate SpoiledAt(dim: Key -> nat, maxSize: int, run: seq<Event>, i: int, f: FutureId) {
    0 <= i < |run| && Spoils(After(dim, maxSize, run[..i]), run[i], f)
  }

  lemma StepSpoils(dim: Key -> nat, s: State, e: Event, f: FutureId)
    ensures IsSpoiled(Step(dim, s, e), f) <==> IsSpoiled(s, f) || Spoils(s, e, f)
  {
    match e
    case Call(_, _) =>
    case Wake(_) =>
    case CancelWaiter(_) =>
    case Finish(c, outcome) => FinishSpoils(dim, s, c, outcome, f);
    case Get(_, _) =>
    case Clear =>
    case Mutate(_, _) =>
  }

  lemma FinishSpoils(dim: Key -> nat, s: State, c: CallerId, outcome: Outcome, f: FutureId)
    ensures IsSpoiled(StepFinish(dim, s, c, outcome), f) <==> IsSpoiled(s, f) || Spoils(s, Finish(c, outcome), f)
  {
  }

  lemma StepDooms(dim: Key -> nat, s: State, e: Event, c: CallerId)
    requires Inv(s) && IsWaiting(Step(dim, s, e), c)
    ensures c in s.callers ==> IsWaiting(s, c)
    ensures Step(dim, s, e).callers[c].doomed <==> c in s.callers && (s.callers[c].doomed || e == CancelWaiter(c))
  {
    if e.CancelWaiter? {
      CancelDooms(s, e.caller, c);
    } else if c in s.callers {
      OthersLeaveWaitersAlone(dim, s, e, c);
    } else {
      NewWaitersAreNotDoomed(dim, s, e, c);
    }
  }

  lemma OthersLeaveWaitersAlone(dim: Key -> nat, s: State, e: Event, c: CallerId)
    requires !e.CancelWaiter? && c in s.callers && IsWaiting(Step(dim, s, e), c)
    ensures Step(dim, s, e).callers[c] == s.callers[c]
  {
  }

  lemma NewWaitersAreNotDoomed(dim: Key -> nat, s: State, e: Event, c: CallerId)
    requires c !in s.callers && IsWaiting(Step(dim, s, e), c)
    ensures !Step(dim, s, e).callers[c].doomed
  {
  }

  lemma CancelDooms(s: State, cancelled: CallerId, c: CallerId)
    requires NobodyIsForgotten(s) && IsWaiting(StepCancelWaiter(s, cancelled), c)
    ensures IsWaiting(s, c)
    ensures StepCancelWaiter(s, cancelled).callers[c].doomed == (s.callers[c].doomed || cancelled == c)
  {
  }

  lemma CallersStay(dim: Key -> nat, s: State, e: Event, c: CallerId)
    requires c in s.callers
    ensures c in Step(dim, s, e).callers
  {
  }

  /** Some event before number n spoils f, or cancels c while it waits. */
  ghost predicate SpoiledBefore(dim: Key -> nat, maxSize: int, run: seq<Event>, n: nat, f: FutureId) {
    HappensBefore(n, i => SpoiledAt(dim, maxSize, run, i, f))
  }

  ghost predicate CancelledBefore(dim: Key -> nat, maxSize: int, run: seq<Event>, n: nat, c: CallerId) {
    HappensBefore(n, i => CancelledAt(dim, maxSize, run, i, c))
  }

  lemma {:induction false} SpoiledByTheRun(dim: Key -> nat, maxSize: int, run: seq<Event>, n: nat, f: FutureId)
    requires n <= |run|
    ensures IsSpoiled(After(dim, maxSize, run[..n]), f) <==> SpoiledBefore(dim, maxSize, run, n, f)
    decreases n
  {
    if n > 0 {
      SpoiledByTheRun(dim, maxSize, run, n - 1, f);
      HappensOneMore(n - 1, i => SpoiledAt(dim, maxSize, run, i, f));
      EventSpoils(dim, maxSize, run, n - 1, f);
    }
  }

  lemma {:induction false} EventSpoils(dim: Key -> nat, maxSize: int, run: seq<Event>, i: nat, f: FutureId)
    requires i < |run|
    ensures IsSpoiled(After(dim, maxSize, run[..i + 1]), f)
       <==> IsSpoiled(After(dim, maxSize, run[..i]), f) || SpoiledAt(dim, maxSize, run, i, f)
  {
    assert run[..i + 1] == run[..i] + [run[i]];
    AfterOneMore(dim, maxSize, run[..i], run[i]);
    StepSpoils(dim, After(dim, maxSize, run[..i]), run[i], f);
  }

  /** Where c stands says whether it was cancelled. */
  ghost predicate Tells(s: State, c: CallerId, cancelled: bool) {
    && (c !in s.callers ==> !cancelled)
    && (IsWaiting(s, c) ==> s.callers[c].doomed == cancelled)
  }

  lemma {:induction false} DoomedByTheRun(dim: Key -> nat, maxSize: int, run: seq<Event>, n: nat, c: CallerId)
    requires n <= |run|
    ensures Tells(After(dim, maxSize, run[..n]), c, CancelledBefore(dim, maxSize, run, n, c))
    decreases n
  {
    if n > 0 {
      DoomedByTheRun(dim, maxSize, run, n - 1, c);
      HappensOneMore(n - 1, i => CancelledAt(dim, maxSize, run, i, c));
      EventTells(dim, maxSize, run, n - 1, c, CancelledBefore(dim, maxSize, run, n - 1, c));
    }
  }

  lemma {:induction false} EventTells(
    dim: Key -> nat, maxSize: int, run: seq<Event>, i: nat, c: CallerId, cancelled: bool)
    requires i < |run| && Tells(After(dim, maxSize, run[..i]), c, cancelled)
    ensures Tells(After(dim, maxSize, run[..i + 1]), c, cancelled || CancelledAt(dim, maxSize, run, i, c))
  {
    var s, e := After(dim, maxSize, run[..i]), run[i];
    assert run[..i + 1] == run[..i] + [e];
    AfterOneMore(dim, maxSize, run[..i], e);
    ReachableStatesAreSound(dim, maxSize, run[..i]);
    if IsWaiting(Step(dim, s, e), c) {
      StepDooms(dim, s, e, c);
    }
    if c in s.callers {
      CallersStay(dim, s, e, c);
    }
  }

  /** Who is aborted: a caller whose future is done is aborted when it runs again if and only if some
      event of the run cancelled the caller while it waited, or cancelled the future or completed it
      uncatchably: the cancellation of any caller that waits on it, a clear(), or the end of a
      computation of its key by cancellation or by an exception that is no Exception. */
  lemma {:induction false} AbortedByTheRun(dim: Key -> nat, maxSize: int, run: seq<Event>, c: CallerId)
    requires
      var s := After(dim, maxSize, run);
      IsWaiting(s, c) && s.callers[c].future < |s.futures| && s.futures[s.callers[c].future].state.Done()
    ensures
      var f := After(dim, maxSize, run).callers[c].future;
      IsAborted(After(dim, maxSize, run + [Wake(c)]), c)
      <==> CancelledBefore(dim, maxSize, run, |run|, c) || SpoiledBefore(dim, maxSize, run, |run|, f)
  {
    var s := After(dim, maxSize, run);
    assert run[..|run|] == run;
    AfterOneMore(dim, maxSize, run, Wake(c));
    ReachableStatesAreSound(dim, maxSize, run);
    AbortedExactlyWhenDoomed(dim, s, Wake(c), c);
    SpoiledByTheRun(dim, maxSize, run, |run|, s.callers[c].future);
    DoomedByTheRun(dim, maxSize, run, |run|, c);
  }

  /** The event cancels nobody: no waiter, no executor and no table, and raises nothing uncatchable. */
  predicate IsGentle(e: Event) {
    && !e.CancelWaiter? && !e.Clear?
    && !(e.Finish? && (e.outcome == CancelledInside || e.outcome == Raises(false)))
  }

  ghost predicate NothingCancelled(s: State) {
    && (forall f | 0 <= f < |s.futures| :: s.futures[f].state != Cancelled && s.futures[f].state != Failed(false))
    && (forall c | c in s.callers && s.callers[c].Waiting? :: !s.callers[c].doomed)
  }

  lemma GentleStepsCancelNothing(dim: Key -> nat, s: State, e: Event)
    requires NothingCancelled(s) && IsGentle(e)
    ensures NothingCancelled(Step(dim, s, e))
  {
    match e
    case Call(_, _) =>
    case Wake(_) =>
    case Finish(_, _) =>
    case Get(_, _) =>
    case Mutate(_, _) =>
  }

  lemma {:induction false} GentleRunsCancelNothing(dim: Key -> nat, maxSize: int, run: seq<Event>)
    requires forall i | 0 <= i < |run| :: IsGentle(run[i])
    ensures NothingCancelled(After(dim, maxSize, run))
  {
    if run != [] {
      GentleRunsCancelNothing(dim, maxSize, run[..|run| - 1]);
      GentleStepsCancelNothing(dim, After(dim, maxSize, run[..|run| - 1]), run[|run| - 1]);
    }
  }

  /** Without cancellations, clear() and uncatchable exceptions nobody is aborted, whatever
      computations fail. */
  lemma {:induction false} GentleRunsAbortNobody(dim: Key -> nat, maxSize: int, run: seq<Event>, c: CallerId)
    requires forall i | 0 <= i < |run| :: IsGentle(run[i])
    ensures !IsAborted(After(dim, maxSize, run), c)
  {
    if run != [] {
      var before := run[..|run| - 1];
      GentleRunsAbortNobody(dim, maxSize, before, c);
      GentleRunsCancelNothing(dim, maxSize, before);
      ReachableStatesAreSound(dim, maxSize, before);
      AbortedExactlyWhenDoomed(dim, After(dim, maxSize, before), run[|run| - 1], c);
    }
  }

  /** A caller that nobody cancels is aborted all the same when it comes after a cancelled waiter: in
      whatever reachable state, the cancelled future stays registered, the newcomer joins it and is
      aborted when it runs again. */
  lemma NewcomerIsAborted(dim: Key -> nat, maxSize: int, run: seq<Event>, waiter: CallerId, newcomer: CallerId)
    requires
      var s := After(dim, maxSize, run);
      && waiter in s.callers && s.callers[waiter].Waiting? && newcomer !in s.callers
      && s.callers[waiter].key !in s.lru.store
      && s.callers[waiter].future < |s.futures| && s.futures[s.callers[waiter].future].state == Pending
    ensures
      var key := After(dim, maxSize, run).callers[waiter].key;
      IsAborted(After(dim, maxSize, run + [CancelWaiter(waiter)] + [Call(newcomer, key)] + [Wake(newcomer)]), newcomer)
  {
    var s := After(dim, maxSize, run);
    var Waiting(key, f, _) := s.callers[waiter];
    ReachableStatesAreSound(dim, maxSize, run);
    ThreeMoreEvents(dim, maxSize, run, CancelWaiter(waiter), Call(newcomer, key), Wake(newcomer));
    var s1 := StepCancelWaiter(s, waiter);
    assert key in s1.inFlight && s1.inFlight[key] == f && s1.futures[f].state == Cancelled;
    var s2 := StepCall(s1, newcomer, key);
    assert s2.callers[newcomer] == Waiting(key, f, false);
  }
}
