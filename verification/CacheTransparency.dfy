/** The cache agrees with the function it speeds up, whatever callers do to the vectors they get. */
module CacheTransparency {
  import opened Lru
  import opened CacheRegions
  import opened CacheProtocol

  /** Property good holds of every vector that a computation successfully returned in the run. */
  ghost predicate ComputesOnly(dim: Key -> nat, maxSize: int, run: seq<Event>, good: (Key, Vector) -> bool) {
    forall i | 0 <= i < |run| ::
      StepComputesOnly(dim, After(dim, maxSize, run[..i]), run[i], good)
  }

  ghost predicate StepComputesOnly(dim: Key -> nat, s: State, e: Event, good: (Key, Vector) -> bool) {
    e.Finish? && e.outcome.Returns? && e.caller in s.callers && s.callers[e.caller].Executing?
      && |e.outcome.vector| == dim(s.callers[e.caller].key)
    ==> good(s.callers[e.caller].key, e.outcome.vector)
  }

  /** c is handed a vector by the step from s to s'. */
  ghost predicate Obtains(s: State, s': State, c: CallerId) {
    && c in s'.callers && RefOf(s'.callers[c]).Some? && RefOf(s'.callers[c]).value < |s'.heap|
    && (c in s.callers ==> RefOf(s.callers[c]).None?)
  }

  ghost function VectorOf(s: State, c: CallerId): Vector
    requires c in s.callers && RefOf(s.callers[c]).Some? && RefOf(s.callers[c]).value < |s.heap|
  {
    s.heap[RefOf(s.callers[c]).value]
  }

  /** Everything the cache and its futures hold was computed for the key it is held under. */
  ghost predicate HoldsOnly(dim: Key -> nat, s: State, good: (Key, Vector) -> bool) {
    && (forall k | k in s.lru.store ::
          s.lru.store[k] < |s.heap| && Fits(dim, good, k, s.heap[s.lru.store[k]]))
    && (forall f | 0 <= f < |s.futures| && s.futures[f].state.Resolved? ::
          s.futures[f].state.value < |s.heap| && Fits(dim, good, s.futures[f].key, s.heap[s.futures[f].state.value]))
  }

  ghost predicate Fits(dim: Key -> nat, good: (Key, Vector) -> bool, key: Key, v: Vector) {
    |v| == dim(key) && good(key, v)
  }

  lemma FinishHoldsOnly(dim: Key -> nat, s: State, c: CallerId, outcome: Outcome, good: (Key, Vector) -> bool)
    requires Inv(s) && HoldsOnly(dim, s, good)
    requires StepComputesOnly(dim, s, Finish(c, outcome), good)
    ensures HoldsOnly(dim, StepFinish(dim, s, c, outcome), good)
  {
    if c in s.callers && s.callers[c].Executing? {
      var key := s.callers[c].key;
      match outcome
      case Returns(v) =>
        if |v| == dim(key) {
          StoringHoldsOnly(dim, s, key, v, good);
          var s1 := s.(heap := s.heap + [v, v, v], lru := s.lru.Put(key, |s.heap| + 1));
          SettlingHoldsOnly(dim, s1, key, Resolved(|s.heap|), good);
        } else {
          SettlingHoldsOnly(dim, s, key, Failed(true), good);
        }
      case Raises(catchable) => SettlingHoldsOnly(dim, s, key, Failed(catchable), good);
      case CancelledInside => SettlingHoldsOnly(dim, s, key, Cancelled, good);
    }
  }

  lemma StoringHoldsOnly(dim: Key -> nat, s: State, key: Key, v: Vector, good: (Key, Vector) -> bool)
    requires HoldsOnly(dim, s, good) && Fits(dim, good, key, v)
    ensures HoldsOnly(dim, s.(heap := s.heap + [v, v, v], lru := s.lru.Put(key, |s.heap| + 1)), good)
  {
    PutChangesOneEntry(s.lru, key, |s.heap| + 1);
  }

  lemma SettlingHoldsOnly(dim: Key -> nat, s: State, key: Key, outcome: FutureState, good: (Key, Vector) -> bool)
    requires HoldsOnly(dim, s, good) && FuturesInv(s)
    requires outcome.Resolved? ==> outcome.value < |s.heap| && Fits(dim, good, key, s.heap[outcome.value])
    ensures HoldsOnly(dim, s.Settle(key, outcome), good)
  {
  }

  lemma MutationHoldsOnly(dim: Key -> nat, s: State, c: CallerId, v: Vector, good: (Key, Vector) -> bool)
    requires Inv(s) && HoldsOnly(dim, s, good)
    ensures HoldsOnly(dim, StepMutate(s, c, v), good)
  {
  }

  /** Lists are added to the heap and futures without a result to the others; nothing else that holds
      vectors changes. */
  ghost predicate Grows(s: State, s': State) {
    && s.heap <= s'.heap && s'.lru.store == s.lru.store && s.futures <= s'.futures
    && forall f | |s.futures| <= f < |s'.futures| :: !s'.futures[f].state.Resolved?
  }

  lemma AnsweringGrows(dim: Key -> nat, s: State, e: Event)
    requires e.Call? || e.Wake? || e.Get?
    ensures Grows(s, Step(dim, s, e))
  {
  }

  lemma GrowingHoldsOnly(dim: Key -> nat, s: State, s': State, good: (Key, Vector) -> bool)
    requires HoldsOnly(dim, s, good) && Grows(s, s')
    ensures HoldsOnly(dim, s', good)
  {
  }

  lemma AnsweringHoldsOnly(dim: Key -> nat, s: State, e: Event, good: (Key, Vector) -> bool)
    requires HoldsOnly(dim, s, good) && (e.Call? || e.Wake? || e.Get?)
    ensures HoldsOnly(dim, Step(dim, s, e), good)
  {
    AnsweringGrows(dim, s, e);
    GrowingHoldsOnly(dim, s, Step(dim, s, e), good);
  }

  lemma StepHoldsOnly(dim: Key -> nat, s: State, e: Event, good: (Key, Vector) -> bool)
    requires Inv(s) && HoldsOnly(dim, s, good) && StepComputesOnly(dim, s, e, good)
    ensures HoldsOnly(dim, Step(dim, s, e), good)
  {
    match e
    case Call(c, key) => AnsweringHoldsOnly(dim, s, e, good);
    case Wake(c) => AnsweringHoldsOnly(dim, s, e, good);
    case CancelWaiter(c) =>
    case Finish(c, outcome) => FinishHoldsOnly(dim, s, c, outcome, good);
    case Get(c, key) => AnsweringHoldsOnly(dim, s, e, good);
    case Clear =>
    case Mutate(c, v) => MutationHoldsOnly(dim, s, c, v, good);
  }

  lemma {:induction false} RunHoldsOnly(dim: Key -> nat, maxSize: int, run: seq<Event>, good: (Key, Vector) -> bool)
    requires ComputesOnly(dim, maxSize, run, good)
    ensures HoldsOnly(dim, After(dim, maxSize, run), good)
  {
    if run != [] {
      var before := run[..|run| - 1];
      forall i | 0 <= i < |before|
        ensures StepComputesOnly(dim, After(dim, maxSize, before[..i]), before[i], good)
      {
        assert before[..i] == run[..i];
      }
      RunHoldsOnly(dim, maxSize, before, good);
      ReachableStatesAreSound(dim, maxSize, before);
      StepHoldsOnly(dim, After(dim, maxSize, before), run[|run| - 1], good);
    }
  }

  lemma CopyAnswers(dim: Key -> nat, s: State, e: Event, good: (Key, Vector) -> bool, c: CallerId)
    requires Inv(s) && HoldsOnly(dim, s, good) && (e.Call? || e.Wake? || e.Get?)
    requires Obtains(s, Step(dim, s, e), c)
    ensures Fits(dim, good, Step(dim, s, e).callers[c].key, VectorOf(Step(dim, s, e), c))
  {
    if e.Wake? {
      JoinedCopyFits(dim, s, c, good);
    }
  }

  lemma JoinedCopyFits(dim: Key -> nat, s: State, c: CallerId, good: (Key, Vector) -> bool)
    requires Inv(s) && HoldsOnly(dim, s, good)
    requires Obtains(s, StepWake(s, c), c)
    ensures Fits(dim, good, StepWake(s, c).callers[c].key, VectorOf(StepWake(s, c), c))
  {
    assert s.callers[c].Waiting? && s.futures[s.callers[c].future].state.Resolved?;
  }

  lemma ComputationAnswers(dim: Key -> nat, s: State, e: Event, good: (Key, Vector) -> bool, c: CallerId)
    requires StepComputesOnly(dim, s, e, good) && e.Finish?
    requires Obtains(s, Step(dim, s, e), c)
    ensures Fits(dim, good, Step(dim, s, e).callers[c].key, VectorOf(Step(dim, s, e), c))
  {
  }

  lemma StepAnswers(dim: Key -> nat, s: State, e: Event, good: (Key, Vector) -> bool, c: CallerId)
    requires Inv(s) && HoldsOnly(dim, s, good) && StepComputesOnly(dim, s, e, good)
    requires Obtains(s, Step(dim, s, e), c)
    ensures Fits(dim, good, Step(dim, s, e).callers[c].key, VectorOf(Step(dim, s, e), c))
  {
    if e.Call? || e.Wake? || e.Get? {
      CopyAnswers(dim, s, e, good, c);
    } else if e.Finish? {
      ComputationAnswers(dim, s, e, good, c);
    }
  }

  /** In every interleaving, with failures, cancellations, clears and callers overwriting what they
      were given: a vector handed out, by a fast hit, a joined future or an own computation, has the
      provider's dimension and every property that successful computations for its key have. */
  lemma AnswersComeFromComputations(
    dim: Key -> nat, maxSize: int, run: seq<Event>, e: Event, good: (Key, Vector) -> bool, c: CallerId)
    requires ComputesOnly(dim, maxSize, run + [e], good)
    requires Obtains(After(dim, maxSize, run), After(dim, maxSize, run + [e]), c)
    ensures
      var s' := After(dim, maxSize, run + [e]);
      |VectorOf(s', c)| == dim(s'.callers[c].key) && good(s'.callers[c].key, VectorOf(s', c))
  {
    var run' := run + [e];
    assert run'[..|run'| - 1] == run;
    assert StepComputesOnly(dim, After(dim, maxSize, run'[..|run|]), run'[|run|], good);
    forall i | 0 <= i < |run|
      ensures StepComputesOnly(dim, After(dim, maxSize, run[..i]), run[i], good)
    {
      assert run'[..i] == run[..i];
    }
    RunHoldsOnly(dim, maxSize, run, good);
    ReachableStatesAreSound(dim, maxSize, run);
    StepAnswers(dim, After(dim, maxSize, run), e, good, c);
  }

  /** Transparency: if compute_fn is a function of the cache key, so is get_or_compute, and it is
      the same function. */
  lemma CacheIsTransparent(
    dim: Key -> nat, maxSize: int, run: seq<Event>, e: Event, embed: Key -> Vector, c: CallerId)
    requires ComputesOnly(dim, maxSize, run + [e], (key, v) => v == embed(key))
    requires Obtains(After(dim, maxSize, run), After(dim, maxSize, run + [e]), c)
    ensures
      var s' := After(dim, maxSize, run + [e]);
      VectorOf(s', c) == embed(s'.callers[c].key)
  {
    AnswersComeFromComputations(dim, maxSize, run, e, (key, v) => v == embed(key), c);
  }

  lemma MutationIsPrivate(s: State, c: CallerId, v: Vector)
    requires Inv(s)
    ensures
      var s' := StepMutate(s, c, v);
      && s' == s.(heap := s'.heap) && |s'.heap| == |s.heap|
      && (forall k | k in s.lru.store :: s'.heap[s.lru.store[k]] == s.heap[s.lru.store[k]])
      && (forall f | 0 <= f < |s.futures| && s.futures[f].state.Resolved? ::
            s'.heap[s.futures[f].state.value] == s.heap[s.futures[f].state.value])
      && (forall c' | c' in s.callers && c' != c && RefOf(s.callers[c']).Some? :: VectorOf(s', c') == VectorOf(s, c'))
  {
  }

  /** Mutation isolation, outwards: overwriting a returned vector in place changes nothing that the
      cache, a future or another caller holds. */
  lemma MutationStaysWithItsCaller(dim: Key -> nat, maxSize: int, run: seq<Event>, c: CallerId, v: Vector)
    ensures
      var s := After(dim, maxSize, run);
      var s' := After(dim, maxSize, run + [Mutate(c, v)]);
      && s' == s.(heap := s'.heap) && |s'.heap| == |s.heap|
      && (forall k | k in s.lru.store :: s.lru.store[k] < |s.heap| && s'.heap[s.lru.store[k]] == s.heap[s.lru.store[k]])
      && (forall f | 0 <= f < |s.futures| && s.futures[f].state.Resolved? ::
            && s.futures[f].state.value < |s.heap|
            && s'.heap[s.futures[f].state.value] == s.heap[s.futures[f].state.value])
      && (forall c' | c' in s.callers && c' != c && RefOf(s.callers[c']).Some? ::
            RefOf(s.callers[c']).value < |s.heap| && VectorOf(s', c') == VectorOf(s, c'))
  {
    AfterOneMore(dim, maxSize, run, Mutate(c, v));
    ReachableStatesAreSound(dim, maxSize, run);
    MutationIsPrivate(After(dim, maxSize, run), c, v);
  }

  lemma HeapGrows(dim: Key -> nat, s: State, e: Event)
    requires !e.Mutate?
    ensures s.heap <= Step(dim, s, e).heap
  {
  }

  lemma WhoLeftStays(dim: Key -> nat, s: State, e: Event, c: CallerId)
    requires c in s.callers && RefOf(s.callers[c]).Some?
    ensures c in Step(dim, s, e).callers && Step(dim, s, e).callers[c] == s.callers[c]
  {
  }

  lemma StepLeavesVectorsAlone(dim: Key -> nat, s: State, e: Event, c: CallerId)
    requires Inv(s) && c in s.callers && RefOf(s.callers[c]).Some?
    requires !(e.Mutate? && e.caller == c)
    ensures
      var s' := Step(dim, s, e);
      && c in s'.callers && s'.callers[c] == s.callers[c]
      && RefOf(s.callers[c]).value < |s.heap| <= |s'.heap|
      && VectorOf(s', c) == VectorOf(s, c)
  {
    WhoLeftStays(dim, s, e, c);
    if e.Mutate? {
      MutationIsPrivate(s, e.caller, e.vector);
    } else {
      HeapGrows(dim, s, e);
    }
  }

  /** Mutation isolation, inwards: once a caller has a vector, nothing but its own overwriting
      changes it. */
  lemma VectorsOnlyChangeByTheirOwner(dim: Key -> nat, maxSize: int, run: seq<Event>, e: Event, c: CallerId)
    requires c in After(dim, maxSize, run).callers && RefOf(After(dim, maxSize, run).callers[c]).Some?
    requires !(e.Mutate? && e.caller == c)
    ensures
      var s := After(dim, maxSize, run);
      var s' := After(dim, maxSize, run + [e]);
      && c in s'.callers && s'.callers[c] == s.callers[c]
      && RefOf(s.callers[c]).value < |s.heap| <= |s'.heap|
      && VectorOf(s', c) == VectorOf(s, c)
  {
    AfterOneMore(dim, maxSize, run, e);
    ReachableStatesAreSound(dim, maxSize, run);
    StepLeavesVectorsAlone(dim, After(dim, maxSize, run), e, c);
  }
}
