/** Stampede protection: exactly which runs of the shared cache keep to one computation per key. */
module CacheStampede {
  import opened Prelude
  import opened Lru
  import opened CacheRegions
  import opened CacheProtocol

  ghost function ExecutorsOf(s: State, key: Key): set<CallerId> {
    set c | c in s.callers && s.callers[c] == Executing(key)
  }

  /** A key has exactly one executor while it is in the table of computations in flight, and none
      otherwise. */
  ghost predicate OnePerKey(s: State) {
    forall key :: |ExecutorsOf(s, key)| == if key in s.inFlight then 1 else 0
  }

  /** An executor is the creator of the future registered under its key. */
  ghost predicate ExecutorsAreRegistered(s: State) {
    forall c | c in s.callers && s.callers[c].Executing? ::
      && s.callers[c].key in s.inFlight
      && s.inFlight[s.callers[c].key] < |s.futures|
      && s.futures[s.inFlight[s.callers[c].key]].creator == c
  }

  lemma RegisteredMeansOnePerKey(s: State)
    requires Inv(s)
    ensures OnePerKey(s) <==> ExecutorsAreRegistered(s)
  {
    forall key | ExecutorsAreRegistered(s)
      ensures |ExecutorsOf(s, key)| == if key in s.inFlight then 1 else 0
    {
      if key in s.inFlight {
        assert ExecutorsOf(s, key) == {s.futures[s.inFlight[key]].creator};
      } else {
        assert ExecutorsOf(s, key) == {};
      }
    }
    if OnePerKey(s) {
      forall c | c in s.callers && s.callers[c].Executing?
        ensures s.callers[c].key in s.inFlight && s.futures[s.inFlight[s.callers[c].key]].creator == c
      {
        OnlyExecutor(s, s.callers[c].key, c);
      }
    }
  }

  lemma OnlyExecutor(s: State, key: Key, c: CallerId)
    requires Inv(s) && OnePerKey(s) && s.IsExecuting(c, key)
    ensures key in s.inFlight && s.futures[s.inFlight[key]].creator == c
  {
    assert c in ExecutorsOf(s, key);
    assert key in s.inFlight;
    var creator := s.futures[s.inFlight[key]].creator;
    assert creator in ExecutorsOf(s, key);
    if creator != c {
      assert {c, creator} <= ExecutorsOf(s, key);
      SubsetSize({c, creator}, ExecutorsOf(s, key));
    }
  }

  /** The event puts an executor beside the table: it wakes a waiter, not cancelled itself, whose
      future carries an exception, or it clears a table in which something is registered. */
  ghost predicate Scatters(s: State, e: Event) {
    || (e.Clear? && s.inFlight != map[])
    || (e.Wake? && e.caller in s.callers && s.callers[e.caller].Waiting? && !s.callers[e.caller].doomed
        && s.callers[e.caller].future < |s.futures| && s.futures[s.callers[e.caller].future].state == Failed(true))
  }

  lemma CallKeepsRegistered(s: State, c: CallerId, key: Key)
    requires Inv(s) && ExecutorsAreRegistered(s)
    ensures ExecutorsAreRegistered(StepCall(s, c, key))
  {
  }

  lemma WakeKeepsRegistered(s: State, c: CallerId)
    requires Inv(s) && ExecutorsAreRegistered(s)
    ensures ExecutorsAreRegistered(StepWake(s, c)) <==> !Scatters(s, Wake(c))
  {
    var s' := StepWake(s, c);
    if Scatters(s, Wake(c)) {
      var key := s.callers[c].key;
      assert s'.callers[c] == Executing(key);
      assert key in s.inFlight ==> s.IsExecuting(s.futures[s.inFlight[key]].creator, key);
    }
  }

  lemma CancelKeepsRegistered(s: State, c: CallerId)
    requires Inv(s) && ExecutorsAreRegistered(s)
    ensures ExecutorsAreRegistered(StepCancelWaiter(s, c))
  {
  }

  lemma SettleKeepsRegistered(s: State, c: CallerId, key: Key, outcome: FutureState, phase: Phase)
    requires Inv(s) && ExecutorsAreRegistered(s) && s.IsExecuting(c, key) && !phase.Executing?
    ensures ExecutorsAreRegistered(s.Settle(key, outcome).With(c, phase))
  {
  }

  lemma FinishKeepsRegistered(dim: Key -> nat, s: State, c: CallerId, outcome: Outcome)
    requires Inv(s) && ExecutorsAreRegistered(s)
    ensures ExecutorsAreRegistered(StepFinish(dim, s, c, outcome))
  {
    if c in s.callers && s.callers[c].Executing? {
      var key := s.callers[c].key;
      match outcome
      case Returns(v) =>
        if |v| == dim(key) {
          SettleKeepsRegistered(s, c, key, Resolved(|s.heap|), Computed(key, |s.heap| + 2));
        } else {
          SettleKeepsRegistered(s, c, key, Failed(true), Raised(key));
        }
      case Raises(catchable) => SettleKeepsRegistered(s, c, key, Failed(catchable), Raised(key));
      case CancelledInside => SettleKeepsRegistered(s, c, key, Cancelled, Raised(key));
    }
  }

  lemma ClearKeepsRegistered(s: State)
    requires Inv(s) && ExecutorsAreRegistered(s)
    ensures ExecutorsAreRegistered(StepClear(s)) <==> s.inFlight == map[]
  {
    if key :| key in s.inFlight {
      var creator := s.futures[s.inFlight[key]].creator;
      assert StepClear(s).callers[creator].Executing?;
    }
  }

  lemma StepKeepsRegistered(dim: Key -> nat, s: State, e: Event)
    requires Inv(s) && ExecutorsAreRegistered(s)
    ensures ExecutorsAreRegistered(Step(dim, s, e)) <==> !Scatters(s, e)
  {
    match e
    case Call(c, key) => CallKeepsRegistered(s, c, key);
    case Wake(c) => WakeKeepsRegistered(s, c);
    case CancelWaiter(c) => CancelKeepsRegistered(s, c);
    case Finish(c, outcome) => FinishKeepsRegistered(dim, s, c, outcome);
    case Get(c, key) =>
    case Clear => ClearKeepsRegistered(s);
    case Mutate(c, v) =>
  }

  ghost predicate OnePerKeyAt(dim: Key -> nat, maxSize: int, run: seq<Event>, i: int) {
    0 <= i <= |run| && OnePerKey(After(dim, maxSize, run[..i]))
  }

  ghost predicate ScattersAt(dim: Key -> nat, maxSize: int, run: seq<Event>, i: int) {
    0 <= i < |run| && Scatters(After(dim, maxSize, run[..i]), run[i])
  }

  ghost predicate OnePerKeyThroughout(dim: Key -> nat, maxSize: int, run: seq<Event>) {
    forall i | 0 <= i <= |run| :: OnePerKeyAt(dim, maxSize, run, i)
  }

  ghost predicate NeverScatters(dim: Key -> nat, maxSize: int, run: seq<Event>) {
    forall i | 0 <= i < |run| :: !ScattersAt(dim, maxSize, run, i)
  }

  lemma {:induction false} StartHasNoExecutors(dim: Key -> nat, maxSize: int, run: seq<Event>)
    ensures OnePerKeyAt(dim, maxSize, run, 0)
  {
    assert run[..0] == [];
    assert forall key :: ExecutorsOf(Start(maxSize), key) == {};
  }

  lemma {:induction false} OneMoreStep(dim: Key -> nat, maxSize: int, run: seq<Event>, i: nat)
    requires i < |run| && OnePerKeyAt(dim, maxSize, run, i)
    ensures OnePerKeyAt(dim, maxSize, run, i + 1) <==> !ScattersAt(dim, maxSize, run, i)
  {
    var s, s' := After(dim, maxSize, run[..i]), After(dim, maxSize, run[..i + 1]);
    assert run[..i + 1] == run[..i] + [run[i]];
    AfterOneMore(dim, maxSize, run[..i], run[i]);
    ReachableStatesAreSound(dim, maxSize, run[..i]);
    ReachableStatesAreSound(dim, maxSize, run[..i + 1]);
    RegisteredMeansOnePerKey(s);
    RegisteredMeansOnePerKey(s');
    StepKeepsRegistered(dim, s, run[i]);
  }

  /** What holds at the start and is lost by the steps q and by no others holds throughout exactly when
      q never holds. */
  lemma {:induction false} HoldsUntilLost(n: nat, p: int -> bool, q: int -> bool)
    requires p(0)
    requires forall i | 0 <= i < n && p(i) :: p(i + 1) == !q(i)
    ensures (forall i | 0 <= i <= n :: p(i)) <==> (forall i | 0 <= i < n :: !q(i))
  {
    if n > 0 {
      HoldsUntilLost(n - 1, p, q);
      if forall i | 0 <= i < n :: p(i) {
        assert p(n - 1) && p(n) == !q(n - 1);
      }
    }
  }

  /** Stampede protection, exactly: throughout a run every key has one executor while it is in flight
      and none otherwise, if and only if no step of the run wakes a waiter whose future failed, or
      clears a table that is not empty.  Cancellations do no harm, nor do failures that nobody waits
      for. */
  lemma {:induction false} OneExecutorPerKey(dim: Key -> nat, maxSize: int, run: seq<Event>)
    ensures OnePerKeyThroughout(dim, maxSize, run) <==> NeverScatters(dim, maxSize, run)
  {
    StartHasNoExecutors(dim, maxSize, run);
    forall i | 0 <= i < |run| && OnePerKeyAt(dim, maxSize, run, i)
      ensures OnePerKeyAt(dim, maxSize, run, i + 1) == !ScattersAt(dim, maxSize, run, i)
    {
      OneMoreStep(dim, maxSize, run, i);
    }
    var p, q := i => OnePerKeyAt(dim, maxSize, run, i), i => ScattersAt(dim, maxSize, run, i);
    HoldsUntilLost(|run|, p, q);
    assert forall i :: p(i) == OnePerKeyAt(dim, maxSize, run, i);
    assert forall i :: q(i) == ScattersAt(dim, maxSize, run, i);
  }

  // ---------------------------------------------------------------------------------- calm runs

  /** The event is neither clear() nor a computation that raises.  A vector of the wrong dimension
      counts as raising; cancellations of waiters and executors do not. */
  ghost predicate IsCalm(dim: Key -> nat, s: State, e: Event) {
    && !e.Clear?
    && !(e.Finish? && e.outcome.Raises?)
    && (e.Finish? && e.outcome.Returns? && e.caller in s.callers && s.callers[e.caller].Executing? ==>
          |e.outcome.vector| == dim(s.callers[e.caller].key))
  }

  ghost predicate CalmAt(dim: Key -> nat, maxSize: int, run: seq<Event>, i: int) {
    0 <= i < |run| && IsCalm(dim, After(dim, maxSize, run[..i]), run[i])
  }

  ghost predicate CalmRun(dim: Key -> nat, maxSize: int, run: seq<Event>) {
    forall i | 0 <= i < |run| :: CalmAt(dim, maxSize, run, i)
  }

  ghost predicate NothingFailed(s: State) {
    forall f | 0 <= f < |s.futures| :: !s.futures[f].state.Failed?
  }

  lemma CalmStep(dim: Key -> nat, s: State, e: Event)
    requires NothingFailed(s) && IsCalm(dim, s, e)
    ensures NothingFailed(Step(dim, s, e))
  {
    match e
    case Call(c, key) =>
    case Wake(c) =>
    case CancelWaiter(c) =>
    case Finish(c, outcome) =>
    case Get(c, key) =>
    case Mutate(c, v) =>
  }

  lemma {:induction false} CalmRunsFailNothing(dim: Key -> nat, maxSize: int, run: seq<Event>, n: nat)
    requires CalmRun(dim, maxSize, run) && n <= |run|
    ensures NothingFailed(After(dim, maxSize, run[..n]))
    ensures n < |run| ==> !ScattersAt(dim, maxSize, run, n)
    decreases n
  {
    if n > 0 {
      var i := n - 1;
      CalmRunsFailNothing(dim, maxSize, run, i);
      assert run[..n] == run[..i] + [run[i]] && CalmAt(dim, maxSize, run, i);
      AfterOneMore(dim, maxSize, run[..i], run[i]);
      CalmStep(dim, After(dim, maxSize, run[..i]), run[i]);
    }
    if n < |run| {
      assert CalmAt(dim, maxSize, run, n);
    }
  }

  /** In particular, in runs without clear() and without raising computations. */
  lemma {:induction false} CalmRunsHaveOneExecutor(dim: Key -> nat, maxSize: int, run: seq<Event>)
    requires CalmRun(dim, maxSize, run)
    ensures OnePerKeyThroughout(dim, maxSize, run)
  {
    forall n | 0 <= n < |run|
      ensures !ScattersAt(dim, maxSize, run, n)
    {
      CalmRunsFailNothing(dim, maxSize, run, n);
    }
    OneExecutorPerKey(dim, maxSize, run);
  }

  // ---------------------------------------------------------------------------------- stampedes

  /** After a failure there are two: in whatever reachable state, when the executor that somebody waits
      for fails, a newcomer registers, and then the waiter wakes up and computes beside it. */
  lemma {:induction false} FailureLetsTwoCompute(
    dim: Key -> nat, maxSize: int, run: seq<Event>, waiter: CallerId, newcomer: CallerId)
    requires
      var s := After(dim, maxSize, run);
      && waiter in s.callers && s.callers[waiter].Waiting? && newcomer !in s.callers
      && s.callers[waiter].key !in s.lru.store
      && s.callers[waiter].future < |s.futures| && s.futures[s.callers[waiter].future].state == Pending
    ensures
      var s := After(dim, maxSize, run);
      var key, creator := s.callers[waiter].key, s.futures[s.callers[waiter].future].creator;
      var s' := After(dim, maxSize, run + [Finish(creator, Raises(true))] + [Call(newcomer, key)] + [Wake(waiter)]);
      && key in s'.inFlight && {newcomer, waiter} <= ExecutorsOf(s', key) && newcomer != waiter
      && !OnePerKey(s')
  {
    var s := After(dim, maxSize, run);
    var Waiting(key, f, _) := s.callers[waiter];
    var creator := s.futures[f].creator;
    ReachableStatesAreSound(dim, maxSize, run);
    ThreeMoreEvents(dim, maxSize, run, Finish(creator, Raises(true)), Call(newcomer, key), Wake(waiter));
    var s1 := StepFinish(dim, s, creator, Raises(true));
    assert s1.futures[f].state == Failed(true) && key !in s1.inFlight && s1.callers[waiter] == s.callers[waiter];
    var s2 := StepCall(s1, newcomer, key);
    assert s2.callers[newcomer] == Executing(key) && s2.futures[f].state == Failed(true);
    var s3 := StepWake(s2, waiter);
    assert {newcomer, waiter} <= ExecutorsOf(s3, key);
    SubsetSize({newcomer, waiter}, ExecutorsOf(s3, key));
  }

  lemma {:induction false} TwoCalls(dim: Key -> nat, maxSize: int, key: Key)
    ensures
      var s := After(dim, maxSize, [Call(0, key)] + [Call(1, key)]);
      && s.callers == map[0 := Executing(key), 1 := Waiting(key, 0, false)]
      && s.futures == [Future(key, 0, Pending)] && s.inFlight == map[key := 0] && s.lru.store == map[]
  {
    AfterOneMore(dim, maxSize, [], Call(0, key));
    assert [] + [Call(0, key)] == [Call(0, key)];
    AfterOneMore(dim, maxSize, [Call(0, key)], Call(1, key));
  }

  /** It happens, after two calls. */
  lemma {:induction false} StampedeHappens(dim: Key -> nat, maxSize: int, key: Key)
    ensures
      var s := After(dim, maxSize, [Call(0, key), Call(1, key), Finish(0, Raises(true)), Call(2, key), Wake(1)]);
      key in s.inFlight && ExecutorsOf(s, key) == {1, 2}
  {
    var calls := [Call(0, key)] + [Call(1, key)];
    assert calls + [Finish(0, Raises(true))] + [Call(2, key)] + [Wake(1)]
        == [Call(0, key), Call(1, key), Finish(0, Raises(true)), Call(2, key), Wake(1)];
    TwoCalls(dim, maxSize, key);
    ThreeMoreEvents(dim, maxSize, calls, Finish(0, Raises(true)), Call(2, key), Wake(1));
    AfterTwoCalls(dim, After(dim, maxSize, calls), key);
  }

  lemma AfterTwoCalls(dim: Key -> nat, s: State, key: Key)
    requires s.callers == map[0 := Executing(key), 1 := Waiting(key, 0, false)]
    requires s.futures == [Future(key, 0, Pending)] && s.inFlight == map[key := 0] && s.lru.store == map[]
    ensures
      var s' := Step(dim, Step(dim, Step(dim, s, Finish(0, Raises(true))), Call(2, key)), Wake(1));
      key in s'.inFlight && ExecutorsOf(s', key) == {1, 2}
  {
    var s1 := StepFinish(dim, s, 0, Raises(true));
    assert s1.callers == map[0 := Raised(key), 1 := Waiting(key, 0, false)];
    assert s1.futures == [Future(key, 0, Failed(true))] && s1.inFlight == map[];
    var s2 := StepCall(s1, 2, key);
    assert s2.callers == map[0 := Raised(key), 1 := Waiting(key, 0, false), 2 := Executing(key)];
    var s3 := StepWake(s2, 1);
    assert s3.callers == s2.callers[1 := Executing(key)];
  }
}
