/** QueryEmbeddingCache shared by concurrent async callers, as a step system.

    The lock is never held across a suspension point, so each locked region, together with the
    counter update next to it, is one step.  Callers interleave between steps in any order.

    Vectors live on a heap of lists and are passed around by reference, because callers may change
    the lists they were given in place.

    Step is total: an event that its state does not enable leaves the state as it is, so every
    event sequence is a run and the theorems range over all of them. */
module CacheProtocol {
  import opened Prelude
  import opened Lru
  import opened CacheRegions

  type Ref = nat
  type FutureId = nat
  type CallerId = nat

  type FutureState = Completion<Ref>

  datatype Future = Future(key: Key, creator: CallerId, state: FutureState)

  /** Where a caller stands inside, or how it left, its one call. */
  datatype Phase =
    | Waiting(key: Key, future: FutureId, doomed: bool)  // doomed: its task was cancelled
    | Executing(key: Key)
    | Served(key: Key, ref: Ref)      // left with a cache hit: fast, joined or by get
    | Computed(key: Key, ref: Ref)    // left with its own computation
    | Missed(key: Key)                // get found nothing
    | Raised(key: Key)                // own computation failed or was cancelled
    | Aborted(key: Key)               // left by an uncaught exception out of the awaited future

  datatype Event =
    | Call(caller: CallerId, key: Key)
    | Wake(caller: CallerId)
    | CancelWaiter(caller: CallerId)
    | Finish(caller: CallerId, outcome: Outcome)
    | Get(caller: CallerId, key: Key)
    | Clear
    | Mutate(caller: CallerId, vector: Vector)

  datatype State = State(
    lru: Lru<Ref>,
    inFlight: map<Key, FutureId>,
    futures: seq<Future>,
    callers: map<CallerId, Phase>,
    heap: seq<Vector>)
  {
    ghost predicate IsExecuting(c: CallerId, key: Key) {
      c in callers && callers[c] == Executing(key)
    }

    function With(c: CallerId, phase: Phase): State {
      this.(callers := callers[c := phase])
    }

    /** Hands c its own copy of the list at ref. */
    function ServeCopy(c: CallerId, key: Key, ref: Ref): State
      requires ref < |heap|
    {
      this.(heap := heap + [heap[ref]]).With(c, Served(key, |heap|))
    }

    /** Takes whatever future is registered under key out of the table and completes it, unless it
        is done already. */
    function Settle(key: Key, outcome: FutureState): State {
      if key !in inFlight then this
      else
        var f := inFlight[key];
        this.(inFlight := inFlight - {key},
              futures := if f < |futures| && futures[f].state == Pending
                         then futures[f := futures[f].(state := outcome)] else futures)
    }
  }

  function Start(maxSize: int): State {
    State(Init(maxSize), map[], [], map[], [])
  }

  // ------------------------------------------------------------------------------------- steps

  function StepCall(s: State, c: CallerId, key: Key): State {
    if c in s.callers then s
    else if key in s.lru.store then
      if s.lru.store[key] < |s.heap| then
        s.ServeCopy(c, key, s.lru.store[key]).(lru := s.lru.Hit(key))
      else s
    else if key in s.inFlight then
      s.With(c, Waiting(key, s.inFlight[key], false))
    else
      s.(lru := s.lru.Miss(),
         inFlight := s.inFlight[key := |s.futures|],
         futures := s.futures + [Future(key, c, Pending)]).With(c, Executing(key))
  }

  /** The awaited future is done and its waiter runs again. */
  function StepWake(s: State, c: CallerId): State {
    if c !in s.callers || !s.callers[c].Waiting? then s
    else
      var Waiting(key, f, doomed) := s.callers[c];
      if f >= |s.futures| then s
      else
        match s.futures[f].state
        case Pending => s
        case Cancelled => s.With(c, Aborted(key))
        case Failed(catchable) =>
          if doomed || !catchable then s.With(c, Aborted(key))
          else s.(lru := s.lru.Miss()).With(c, Executing(key))
        case Resolved(ref) =>
          if doomed then s.With(c, Aborted(key))
          else if ref < |s.heap| then s.ServeCopy(c, key, ref).(lru := s.lru.JoinedHit())
          else s
  }

  /** A waiter's task is cancelled.  The await is not shielded, so a pending future is cancelled
      itself, for everybody, and stays registered. */
  function StepCancelWaiter(s: State, c: CallerId): State {
    if c !in s.callers || !s.callers[c].Waiting? then s
    else
      var Waiting(key, f, _) := s.callers[c];
      if f >= |s.futures| then s
      else
        var s' := s.With(c, Waiting(key, f, true));
        if s.futures[f].state == Pending
        then s'.(futures := s.futures[f := s.futures[f].(state := Cancelled)])
        else s'
  }

  /** An executor's compute_fn is over.  dim gives the dimension of the provider behind a key. */
  function StepFinish(dim: Key -> nat, s: State, c: CallerId, outcome: Outcome): State {
    if c !in s.callers || !s.callers[c].Executing? then s
    else
      var key := s.callers[c].key;
      match outcome
      case Returns(v) =>
        if |v| == dim(key) then
          var computed, cached, returned := |s.heap|, |s.heap| + 1, |s.heap| + 2;
          s.(heap := s.heap + [v, v, v], lru := s.lru.Put(key, cached))
           .Settle(key, Resolved(computed))
           .With(c, Computed(key, returned))
        else
          s.Settle(key, Failed(true)).With(c, Raised(key))
      case Raises(catchable) => s.Settle(key, Failed(catchable)).With(c, Raised(key))
      case CancelledInside => s.Settle(key, Cancelled).With(c, Raised(key))
  }

  function StepGet(s: State, c: CallerId, key: Key): State {
    if c in s.callers then s
    else if key in s.lru.store then
      if s.lru.store[key] < |s.heap| then
        s.ServeCopy(c, key, s.lru.store[key]).(lru := s.lru.Hit(key))
      else s
    else s.(lru := s.lru.Miss()).With(c, Missed(key))
  }

  function StepClear(s: State): State {
    s.(lru := s.lru.Cleared(),
       inFlight := map[],
       futures := seq(|s.futures|, i requires 0 <= i < |s.futures| =>
         if i in s.inFlight.Values && s.futures[i].state == Pending
         then s.futures[i].(state := Cancelled) else s.futures[i]))
  }

  /** A caller that was given a vector overwrites it in place. */
  function StepMutate(s: State, c: CallerId, v: Vector): State {
    if c in s.callers && (s.callers[c].Served? || s.callers[c].Computed?) && s.callers[c].ref < |s.heap|
    then s.(heap := s.heap[s.callers[c].ref := v])
    else s
  }

  function Step(dim: Key -> nat, s: State, e: Event): State {
    match e
    case Call(c, key) => StepCall(s, c, key)
    case Wake(c) => StepWake(s, c)
    case CancelWaiter(c) => StepCancelWaiter(s, c)
    case Finish(c, outcome) => StepFinish(dim, s, c, outcome)
    case Get(c, key) => StepGet(s, c, key)
    case Clear => StepClear(s)
    case Mutate(c, v) => StepMutate(s, c, v)
  }

  /** The state a fresh cache is in after a run. */
  function After(dim: Key -> nat, maxSize: int, run: seq<Event>): State {
    if run == [] then Start(maxSize)
    else Step(dim, After(dim, maxSize, run[..|run| - 1]), run[|run| - 1])
  }

  lemma AfterOneMore(dim: Key -> nat, maxSize: int, run: seq<Event>, e: Event)
    ensures After(dim, maxSize, run + [e]) == Step(dim, After(dim, maxSize, run), e)
  {
    assert (run + [e])[..|run + [e]| - 1] == run;
  }

  lemma TwoMoreEvents(dim: Key -> nat, maxSize: int, run: seq<Event>, d: Event, e: Event)
    ensures After(dim, maxSize, run + [d] + [e]) == Step(dim, Step(dim, After(dim, maxSize, run), d), e)
  {
    AfterOneMore(dim, maxSize, run, d);
    AfterOneMore(dim, maxSize, run + [d], e);
  }

  lemma ThreeMoreEvents(dim: Key -> nat, maxSize: int, run: seq<Event>, d: Event, e: Event, f: Event)
    ensures After(dim, maxSize, run + [d] + [e] + [f])
         == Step(dim, Step(dim, Step(dim, After(dim, maxSize, run), d), e), f)
  {
    TwoMoreEvents(dim, maxSize, run, d, e);
    AfterOneMore(dim, maxSize, run + [d] + [e], f);
  }

  // --------------------------------------------------------------------------- the invariant

  function RefOf(p: Phase): Option<Ref> {
    match p
    case Served(_, ref) => Some(ref)
    case Computed(_, ref) => Some(ref)
    case _ => None
  }

  /** Every registered future is under its own key, not completed except possibly by a cancelled
      waiter, and its creating executor is still running. */
  ghost predicate RegisteredFuturesAreLive(s: State) {
    forall key | key in s.inFlight ::
      && s.inFlight[key] < |s.futures|
      && s.futures[s.inFlight[key]].key == key
      && (s.futures[s.inFlight[key]].state.Pending? || s.futures[s.inFlight[key]].state.Cancelled?)
      && s.IsExecuting(s.futures[s.inFlight[key]].creator, key)
  }

  /** A waiter's future is done, or registered under the waiter's own key. */
  ghost predicate NobodyIsForgotten(s: State) {
    forall c | c in s.callers && s.callers[c].Waiting? ::
      && s.callers[c].future < |s.futures|
      && s.futures[s.callers[c].future].key == s.callers[c].key
      && (s.futures[s.callers[c].future].state.Pending? ==>
          && s.callers[c].key in s.inFlight
          && s.inFlight[s.callers[c].key] == s.callers[c].future
          && !s.callers[c].doomed)
  }

  /** References held by the cache, by futures and by callers point into the heap. */
  ghost predicate RefsAllocated(s: State) {
    && (forall key | key in s.lru.store :: s.lru.store[key] < |s.heap|)
    && (forall f | 0 <= f < |s.futures| && s.futures[f].state.Resolved? :: s.futures[f].state.value < |s.heap|)
    && (forall c | c in s.callers && RefOf(s.callers[c]).Some? :: RefOf(s.callers[c]).value < |s.heap|)
  }

  /** A list handed to a caller is shared with nobody. */
  ghost predicate CallersOwnTheirVectors(s: State) {
    && (forall c, key | c in s.callers && key in s.lru.store ::
          RefOf(s.callers[c]) != Some(s.lru.store[key]))
    && (forall c, f | c in s.callers && 0 <= f < |s.futures| && s.futures[f].state.Resolved? ::
          RefOf(s.callers[c]) != Some(s.futures[f].state.value))
    && (forall c, c' | c in s.callers && c' in s.callers && c != c' ::
          RefOf(s.callers[c]).Some? ==> RefOf(s.callers[c]) != RefOf(s.callers[c']))
  }

  ghost predicate FuturesInv(s: State) {
    RegisteredFuturesAreLive(s) && NobodyIsForgotten(s)
  }

  ghost predicate MemoryInv(s: State) {
    RefsAllocated(s) && CallersOwnTheirVectors(s)
  }

  ghost predicate Inv(s: State) {
    s.lru.Valid() && FuturesInv(s) && MemoryInv(s)
  }

  lemma ServeCopyKeepsFutures(s: State, c: CallerId, key: Key, ref: Ref)
    requires FuturesInv(s) && ref < |s.heap|
    requires c !in s.callers || s.callers[c].Waiting?
    ensures FuturesInv(s.ServeCopy(c, key, ref))
  {
  }

  lemma ServeCopyKeepsMemory(s: State, c: CallerId, key: Key, ref: Ref)
    requires MemoryInv(s) && ref < |s.heap|
    ensures MemoryInv(s.ServeCopy(c, key, ref))
  {
  }

  lemma CallKeepsInv(s: State, c: CallerId, key: Key)
    requires Inv(s)
    ensures Inv(StepCall(s, c, key))
  {
    if c in s.callers {
    } else if key in s.lru.store {
      HitKeepsValid(s.lru, key);
      ServeCopyKeepsFutures(s, c, key, s.lru.store[key]);
      ServeCopyKeepsMemory(s, c, key, s.lru.store[key]);
    } else if key !in s.inFlight {
      RegisterKeepsFutures(s, c, key);
      RegisterKeepsMemory(s, c, key);
    }
  }

  lemma RegisterKeepsFutures(s: State, c: CallerId, key: Key)
    requires FuturesInv(s) && c !in s.callers && key !in s.lru.store && key !in s.inFlight
    ensures FuturesInv(StepCall(s, c, key))
  {
    var s' := StepCall(s, c, key);
    assert RegisteredFuturesAreLive(s');
    assert NobodyIsForgotten(s');
  }

  lemma RegisterKeepsMemory(s: State, c: CallerId, key: Key)
    requires MemoryInv(s) && c !in s.callers && key !in s.lru.store && key !in s.inFlight
    ensures MemoryInv(StepCall(s, c, key))
  {
    var s' := StepCall(s, c, key);
    assert RefsAllocated(s');
    assert CallersOwnTheirVectors(s');
  }

  lemma WakeKeepsInv(s: State, c: CallerId)
    requires Inv(s)
    ensures Inv(StepWake(s, c))
  {
    if c in s.callers && s.callers[c].Waiting? {
      var Waiting(key, f, doomed) := s.callers[c];
      if s.futures[f].state.Resolved? && !doomed {
        ServeCopyKeepsFutures(s, c, key, s.futures[f].state.value);
        ServeCopyKeepsMemory(s, c, key, s.futures[f].state.value);
      } else {
        var p := StepWake(s, c).callers[c];
        if !s.futures[f].state.Pending? {
          LeavingAWaitKeepsFutures(s, c, p);
          LeavingAWaitKeepsMemory(s, c, p);
        }
      }
    }
  }

  /** A waiter stops waiting without being given anything. */
  lemma LeavingAWaitKeepsFutures(s: State, c: CallerId, p: Phase)
    requires FuturesInv(s) && c in s.callers && s.callers[c].Waiting?
    requires p.Aborted? || p.Executing?
    ensures FuturesInv(s.With(c, p))
  {
  }

  lemma LeavingAWaitKeepsMemory(s: State, c: CallerId, p: Phase)
    requires MemoryInv(s) && RefOf(p).None?
    ensures MemoryInv(s.With(c, p))
  {
  }

  lemma CancelWaiterKeepsInv(s: State, c: CallerId)
    requires Inv(s)
    ensures Inv(StepCancelWaiter(s, c))
  {
    CancelWaiterKeepsFutures(s, c);
    CancelWaiterKeepsMemory(s, c);
  }

  lemma CancelWaiterKeepsFutures(s: State, c: CallerId)
    requires FuturesInv(s)
    ensures FuturesInv(StepCancelWaiter(s, c))
  {
  }

  lemma CancelWaiterKeepsMemory(s: State, c: CallerId)
    requires MemoryInv(s)
    ensures MemoryInv(StepCancelWaiter(s, c))
  {
  }

  /** When an executor of key is over and the table entry of key is settled, nothing registered
      depends on that executor any more and nobody waits on a forgotten future. */
  lemma SettleKeepsFutures(s: State, c: CallerId, key: Key, outcome: FutureState, phase: Phase)
    requires FuturesInv(s) && s.IsExecuting(c, key)
    requires outcome.Done() && !phase.Waiting?
    ensures FuturesInv(s.Settle(key, outcome).With(c, phase))
  {
  }

  lemma SettleKeepsMemory(s: State, c: CallerId, key: Key, outcome: FutureState)
    requires MemoryInv(s) && s.IsExecuting(c, key) && !outcome.Resolved?
    ensures MemoryInv(s.Settle(key, outcome).With(c, Raised(key)))
  {
  }

  lemma PutChangesOneEntry<V>(l: Lru<V>, key: Key, value: V)
    ensures forall k | k in l.Put(key, value).store ::
      l.Put(key, value).store[k] == if k == key then value else if k in l.store then l.store[k] else value
    ensures forall k | k in l.Put(key, value).store :: k == key || k in l.store
  {
  }

  lemma StoringKeepsMemory(s: State, key: Key, v: Vector)
    requires MemoryInv(s)
    ensures MemoryInv(s.(heap := s.heap + [v, v, v], lru := s.lru.Put(key, |s.heap| + 1)))
  {
    PutChangesOneEntry(s.lru, key, |s.heap| + 1);
  }

  lemma ResolvingKeepsMemory(s: State, key: Key, ref: Ref)
    requires MemoryInv(s) && ref < |s.heap|
    requires forall c | c in s.callers :: RefOf(s.callers[c]) != Some(ref)
    ensures MemoryInv(s.Settle(key, Resolved(ref)))
  {
  }

  lemma HandingOverKeepsMemory(s: State, c: CallerId, key: Key, ref: Ref)
    requires MemoryInv(s) && ref < |s.heap|
    requires forall c' | c' in s.callers :: RefOf(s.callers[c']) != Some(ref)
    requires forall k | k in s.lru.store :: s.lru.store[k] != ref
    requires forall f | 0 <= f < |s.futures| :: s.futures[f].state != Resolved(ref)
    ensures MemoryInv(s.With(c, Computed(key, ref)))
  {
  }

  lemma FinishKeepsMemory(dim: Key -> nat, s: State, c: CallerId, v: Vector)
    requires MemoryInv(s) && c in s.callers && s.callers[c].Executing? && |v| == dim(s.callers[c].key)
    ensures MemoryInv(StepFinish(dim, s, c, Returns(v)))
  {
    var key := s.callers[c].key;
    var s1 := s.(heap := s.heap + [v, v, v], lru := s.lru.Put(key, |s.heap| + 1));
    StoringKeepsMemory(s, key, v);
    ResolvingKeepsMemory(s1, key, |s.heap|);
    PutChangesOneEntry(s.lru, key, |s.heap| + 1);
    NewestIsUnused(s, s1, key);
    var s2 := s1.Settle(key, Resolved(|s.heap|));
    HandingOverKeepsMemory(s2, c, key, |s.heap| + 2);
    assert StepFinish(dim, s, c, Returns(v)) == s2.With(c, Computed(key, |s.heap| + 2));
  }

  /** The last of the three new lists is nobody's yet. */
  lemma NewestIsUnused(s: State, s1: State, key: Key)
    requires RefsAllocated(s) && s1.callers == s.callers && s1.futures == s.futures
    ensures forall c | c in s1.callers :: RefOf(s1.callers[c]) != Some(|s.heap| + 2)
    ensures forall f | 0 <= f < |s1.Settle(key, Resolved(|s.heap|)).futures| ::
      s1.Settle(key, Resolved(|s.heap|)).futures[f].state != Resolved(|s.heap| + 2)
  {
  }

  lemma FinishKeepsInv(dim: Key -> nat, s: State, c: CallerId, outcome: Outcome)
    requires Inv(s)
    ensures Inv(StepFinish(dim, s, c, outcome))
  {
    if c in s.callers && s.callers[c].Executing? {
      var key := s.callers[c].key;
      match outcome
      case Returns(v) =>
        if |v| == dim(key) {
          PutKeepsValid(s.lru, key, |s.heap| + 1);
          var s1 := s.(heap := s.heap + [v, v, v], lru := s.lru.Put(key, |s.heap| + 1));
          SettleKeepsFutures(s1, c, key, Resolved(|s.heap|), Computed(key, |s.heap| + 2));
          FinishKeepsMemory(dim, s, c, v);
        } else {
          SettleKeepsFutures(s, c, key, Failed(true), Raised(key));
          SettleKeepsMemory(s, c, key, Failed(true));
        }
      case Raises(catchable) =>
        SettleKeepsFutures(s, c, key, Failed(catchable), Raised(key));
        SettleKeepsMemory(s, c, key, Failed(catchable));
      case CancelledInside =>
        SettleKeepsFutures(s, c, key, Cancelled, Raised(key));
        SettleKeepsMemory(s, c, key, Cancelled);
    }
  }

  lemma GetKeepsInv(s: State, c: CallerId, key: Key)
    requires Inv(s)
    ensures Inv(StepGet(s, c, key))
  {
    if key in s.lru.store && c !in s.callers {
      HitKeepsValid(s.lru, key);
      ServeCopyKeepsFutures(s, c, key, s.lru.store[key]);
      ServeCopyKeepsMemory(s, c, key, s.lru.store[key]);
    }
  }

  lemma ClearKeepsInv(s: State)
    requires Inv(s)
    ensures Inv(StepClear(s))
  {
  }

  lemma MutateKeepsInv(s: State, c: CallerId, v: Vector)
    requires Inv(s)
    ensures Inv(StepMutate(s, c, v))
  {
  }

  lemma StepKeepsInv(dim: Key -> nat, s: State, e: Event)
    requires Inv(s)
    ensures Inv(Step(dim, s, e))
  {
    match e
    case Call(c, key) => CallKeepsInv(s, c, key);
    case Wake(c) => WakeKeepsInv(s, c);
    case CancelWaiter(c) => CancelWaiterKeepsInv(s, c);
    case Finish(c, outcome) => FinishKeepsInv(dim, s, c, outcome);
    case Get(c, key) => GetKeepsInv(s, c, key);
    case Clear => ClearKeepsInv(s);
    case Mutate(c, v) => MutateKeepsInv(s, c, v);
  }

  lemma StepKeepsSize(dim: Key -> nat, s: State, e: Event)
    ensures Step(dim, s, e).lru.maxSize == s.lru.maxSize
  {
  }

  lemma {:induction false} ReachableStatesAreSound(dim: Key -> nat, maxSize: int, run: seq<Event>)
    ensures Inv(After(dim, maxSize, run))
    ensures After(dim, maxSize, run).lru.maxSize == Max(1, maxSize)
  {
    if run != [] {
      var s, e := After(dim, maxSize, run[..|run| - 1]), run[|run| - 1];
      ReachableStatesAreSound(dim, maxSize, run[..|run| - 1]);
      StepKeepsInv(dim, s, e);
      StepKeepsSize(dim, s, e);
    }
  }

  // ------------------------------------------------------------------- undisturbed callers

  /** From s to s', caller c has its call served with nobody else in flight. */
  ghost predicate ServesUndisturbed(s: State, s': State, c: CallerId, key: Key) {
    && s'.lru == s.lru.Request(key, |s.heap| + 1)
    && s'.inFlight == map[]
    && s'.callers.Keys == s.callers.Keys + {c}
  }

  /** A call that nobody interferes with does to the dictionary what Lru.Request says. */
  lemma UndisturbedCallIsRequest(dim: Key -> nat, s: State, c: CallerId, key: Key, v: Vector)
    requires Inv(s) && c !in s.callers && s.inFlight == map[] && |v| == dim(key)
    ensures ServesUndisturbed(s, Step(dim, Step(dim, s, Call(c, key)), Finish(c, Returns(v))), c, key)
  {
  }

  /** The calls of a sequential client, one after the other; call i is made by caller i. */
  function OneByOne(reqs: seq<(Key, Vector)>): seq<Event> {
    if reqs == [] then []
    else
      OneByOne(reqs[..|reqs| - 1])
      + [Call(|reqs| - 1, reqs[|reqs| - 1].0)] + [Finish(|reqs| - 1, Returns(reqs[|reqs| - 1].1))]
  }

  lemma OneMoreCall(dim: Key -> nat, maxSize: int, run: seq<Event>, c: CallerId, key: Key, v: Vector)
    requires c !in After(dim, maxSize, run).callers && After(dim, maxSize, run).inFlight == map[] && |v| == dim(key)
    ensures ServesUndisturbed(
      After(dim, maxSize, run), After(dim, maxSize, run + [Call(c, key)] + [Finish(c, Returns(v))]), c, key)
  {
    ReachableStatesAreSound(dim, maxSize, run);
    TwoMoreEvents(dim, maxSize, run, Call(c, key), Finish(c, Returns(v)));
    UndisturbedCallIsRequest(dim, After(dim, maxSize, run), c, key, v);
  }

  lemma ServeOneMore<V>(l: Lru<V>, reqs: seq<(Key, V)>, key: Key, value: V)
    ensures Serve(l, reqs + [(key, value)]) == Serve(l, reqs).Request(key, value)
    ensures Keys(reqs + [(key, value)]) == Keys(reqs) + [key]
  {
    assert (reqs + [(key, value)])[..|reqs|] == reqs;
  }

  lemma {:induction false} SequentialRun(dim: Key -> nat, maxSize: int, reqs: seq<(Key, Vector)>)
    returns (refs: seq<(Key, Ref)>)
    requires forall i | 0 <= i < |reqs| :: |reqs[i].1| == dim(reqs[i].0)
    ensures Keys(refs) == Keys(reqs)
    ensures
      var s := After(dim, maxSize, OneByOne(reqs));
      && s.lru == Serve(Init(maxSize), refs)
      && s.inFlight == map[]
      && (forall c | c in s.callers :: c < |reqs|)
  {
    if reqs == [] {
      refs := [];
    } else {
      var n, rest, key, v := |reqs| - 1, reqs[..|reqs| - 1], reqs[|reqs| - 1].0, reqs[|reqs| - 1].1;
      assert reqs == rest + [(key, v)];
      var rs := SequentialRun(dim, maxSize, rest);
      var run := OneByOne(rest);
      assert OneByOne(reqs) == run + [Call(n, key)] + [Finish(n, Returns(v))];
      OneMoreCall(dim, maxSize, run, n, key, v);
      var ref := |After(dim, maxSize, run).heap| + 1;
      refs := rs + [(key, ref)];
      ServeOneMore(Init(maxSize), rs, key, ref);
      ServeOneMore(Init(maxSize), rest, key, v);
    }
  }

  /** The closed form in the shared cache: a client that makes its calls one after the other leaves
      the last max(1, max_size) distinct keys it asked for, by most recent request. */
  lemma SequentialClosedForm(dim: Key -> nat, maxSize: int, reqs: seq<(Key, Vector)>)
    requires forall i | 0 <= i < |reqs| :: |reqs[i].1| == dim(reqs[i].0)
    ensures After(dim, maxSize, OneByOne(reqs)).lru.order == LastN(RecencyOrder(Keys(reqs)), Max(1, maxSize))
  {
    var refs := SequentialRun(dim, maxSize, reqs);
    LruClosedForm(maxSize, refs);
  }
}
