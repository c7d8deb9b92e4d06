/** The step system refines the regions: seen without callers and with vectors in place of references,
    each step is the operation that the caller performs, with the same answer, and so every
    interleaving is a sequence of operations. */
module CacheViews {
  import opened Prelude
  import opened Lru
  import opened CacheRegions
  import opened CacheProtocol
  import opened CacheTransparency

  function At(heap: seq<Vector>, ref: Ref): Vector {
    if ref < |heap| then heap[ref] else []
  }

  /** The bookkeeping with the stored vectors themselves. */
  ghost function View(l: Lru<Ref>, heap: seq<Vector>): Lru<Vector> {
    Lru(l.maxSize, l.order, map k | k in l.store :: At(heap, l.store[k]), l.hits, l.misses, l.evictions, l.callsAvoided)
  }

  function SlotOf(state: FutureState, heap: seq<Vector>): Completion<Vector> {
    match state
    case Pending => Pending
    case Resolved(ref) => Resolved(At(heap, ref))
    case Failed(catchable) => Failed(catchable)
    case Cancelled => Cancelled
  }

  function Slots(futures: seq<Future>, heap: seq<Vector>): seq<Completion<Vector>> {
    seq(|futures|, i requires 0 <= i < |futures| => SlotOf(futures[i].state, heap))
  }

  ghost function SharedOf(s: State): Shared {
    Shared(View(s.lru, s.heap), s.inFlight, Slots(s.futures, s.heap))
  }

  /** What a caller that stands or left there has been told. */
  function AnswerIn(s: State, c: CallerId): Answer
    requires c in s.callers
  {
    match s.callers[c]
    case Waiting(_, f, _) => Joins(f)
    case Executing(_) => Computes
    case Served(_, ref) => Hands(At(s.heap, ref), true)
    case Computed(_, ref) => Hands(At(s.heap, ref), false)
    case Missed(_) => Absent
    case Raised(_) => Fails
    case Aborted(_) => Fails
  }

  /** The operation that an event is for the shared state; events that are not enabled, and callers
      that overwrite their own vectors, perform none. */
  function OperationOf(dim: Key -> nat, s: State, e: Event): Option<Operation> {
    match e
    case Call(c, key) => if c in s.callers then None else Some(LookUp(key))
    case Wake(c) =>
      if IsWaiter(s, c) && s.futures[s.callers[c].future].state.Done()
      then Some(Awaken(s.callers[c].future, s.callers[c].doomed)) else None
    case CancelWaiter(c) => if IsWaiter(s, c) then Some(Withdraw(s.callers[c].future)) else None
    case Finish(c, outcome) =>
      if c in s.callers && s.callers[c].Executing?
      then Some(Complete(s.callers[c].key, dim(s.callers[c].key), outcome)) else None
    case Get(c, key) => if c in s.callers then None else Some(Read(key))
    case Clear => Some(Reset)
    case Mutate(_, _) => None
  }

  predicate IsWaiter(s: State, c: CallerId) {
    c in s.callers && s.callers[c].Waiting? && s.callers[c].future < |s.futures|
  }

  /** The event makes its caller call, wake up or finish, so that there is an answer. */
  predicate IsAnswered(e: Event) {
    e.Call? || e.Wake? || e.Finish? || e.Get?
  }

  // ----------------------------------------------------------------------------- parts of a step

  lemma LongerHeap(s: State, more: seq<Vector>)
    requires RefsAllocated(s)
    ensures SharedOf(s.(heap := s.heap + more)) == SharedOf(s)
  {
    assert View(s.lru, s.heap + more).store == View(s.lru, s.heap).store;
    assert Slots(s.futures, s.heap + more) == Slots(s.futures, s.heap);
  }

  lemma PutInView(l: Lru<Ref>, heap: seq<Vector>, key: Key, ref: Ref)
    ensures View(l.Put(key, ref), heap) == View(l, heap).Put(key, At(heap, ref))
  {
    assert View(l.Put(key, ref), heap).store == View(l, heap).Put(key, At(heap, ref)).store;
  }

  lemma CompletedSlots(futures: seq<Future>, heap: seq<Vector>, f: FutureId, state: FutureState)
    requires f < |futures|
    ensures Slots(if futures[f].state == Pending then futures[f := futures[f].(state := state)] else futures, heap)
         == CompletedAt(Slots(futures, heap), f, SlotOf(state, heap))
  {
  }

  lemma ServeInView(s: State, c: CallerId, key: Key, ref: Ref)
    requires RefsAllocated(s) && ref < |s.heap|
    ensures SharedOf(s.ServeCopy(c, key, ref)) == SharedOf(s)
    ensures AnswerIn(s.ServeCopy(c, key, ref), c) == Hands(s.heap[ref], true)
  {
    LongerHeap(s, [s.heap[ref]]);
  }

  lemma SettleInView(s: State, key: Key, state: FutureState)
    requires RegisteredFuturesAreLive(s)
    ensures SharedOf(s.Settle(key, state)) == SharedOf(s).Settled(key, SlotOf(state, s.heap))
  {
    if key in s.inFlight {
      CompletedSlots(s.futures, s.heap, s.inFlight[key], state);
    }
  }

  // -------------------------------------------------------------------------------------- steps

  lemma CallIsLookUp(s: State, c: CallerId, key: Key)
    requires RefsAllocated(s) && c !in s.callers
    ensures c in StepCall(s, c, key).callers
    ensures (SharedOf(StepCall(s, c, key)), AnswerIn(StepCall(s, c, key), c)) == OnLookUp(SharedOf(s), key)
  {
    if key in s.lru.store {
      ServeInView(s, c, key, s.lru.store[key]);
    } else if key !in s.inFlight {
      assert Slots(s.futures + [Future(key, c, Pending)], s.heap) == Slots(s.futures, s.heap) + [Pending];
    }
  }

  lemma WakeIsAwaken(s: State, c: CallerId)
    requires RefsAllocated(s) && IsWaiter(s, c) && s.futures[s.callers[c].future].state.Done()
    ensures c in StepWake(s, c).callers
    ensures (SharedOf(StepWake(s, c)), AnswerIn(StepWake(s, c), c))
         == OnAwaken(SharedOf(s), s.callers[c].future, s.callers[c].doomed)
  {
    var Waiting(key, f, doomed) := s.callers[c];
    if s.futures[f].state.Resolved? && !doomed {
      ServeInView(s, c, key, s.futures[f].state.value);
    }
  }

  lemma CancelIsWithdraw(s: State, c: CallerId)
    requires IsWaiter(s, c)
    ensures SharedOf(StepCancelWaiter(s, c))
         == SharedOf(s).(futures := CompletedAt(SharedOf(s).futures, s.callers[c].future, Cancelled))
  {
    CompletedSlots(s.futures, s.heap, s.callers[c].future, Cancelled);
  }

  lemma FinishIsComplete(dim: Key -> nat, s: State, c: CallerId, outcome: Outcome)
    requires RefsAllocated(s) && RegisteredFuturesAreLive(s) && c in s.callers && s.callers[c].Executing?
    ensures c in StepFinish(dim, s, c, outcome).callers
    ensures (SharedOf(StepFinish(dim, s, c, outcome)), AnswerIn(StepFinish(dim, s, c, outcome), c))
         == OnComplete(SharedOf(s), s.callers[c].key, dim(s.callers[c].key), outcome)
  {
    var key := s.callers[c].key;
    if outcome.Fits(dim(key)) {
      PublishInView(dim, s, c, outcome.vector);
    } else if outcome.Raises? {
      SettleInView(s, key, Failed(outcome.catchable));
    } else {
      SettleInView(s, key, if outcome.Returns? then Failed(true) else Cancelled);
    }
  }

  lemma PublishInView(dim: Key -> nat, s: State, c: CallerId, v: Vector)
    requires RefsAllocated(s) && RegisteredFuturesAreLive(s)
    requires c in s.callers && s.callers[c].Executing? && |v| == dim(s.callers[c].key)
    ensures
      var s', key := StepFinish(dim, s, c, Returns(v)), s.callers[c].key;
      && SharedOf(s') == SharedOf(s).Settled(key, Resolved(v)).(view := SharedOf(s).view.Put(key, v))
      && c in s'.callers && AnswerIn(s', c) == Hands(v, false)
  {
    var key, longer := s.callers[c].key, s.(heap := s.heap + [v, v, v]);
    LongerHeap(s, [v, v, v]);
    PutInView(s.lru, longer.heap, key, |s.heap| + 1);
    SettleInView(longer, key, Resolved(|s.heap|));
  }

  lemma GetIsRead(s: State, c: CallerId, key: Key)
    requires RefsAllocated(s) && c !in s.callers
    ensures c in StepGet(s, c, key).callers
    ensures (SharedOf(StepGet(s, c, key)), AnswerIn(StepGet(s, c, key), c)) == OnRead(SharedOf(s), key)
  {
    if key in s.lru.store {
      ServeInView(s, c, key, s.lru.store[key]);
    }
  }

  lemma ClearIsReset(s: State)
    ensures SharedOf(StepClear(s)) == OnReset(SharedOf(s))
  {
    assert Slots(StepClear(s).futures, s.heap) == OnReset(SharedOf(s)).futures;
  }

  lemma MutationIsInvisible(s: State, c: CallerId, v: Vector)
    requires Inv(s)
    ensures SharedOf(StepMutate(s, c, v)) == SharedOf(s)
  {
    MutationIsPrivate(s, c, v);
    var s' := StepMutate(s, c, v);
    assert View(s'.lru, s'.heap).store == View(s.lru, s.heap).store;
    assert Slots(s'.futures, s'.heap) == Slots(s.futures, s.heap);
  }

  /** Every step performs its operation on the shared state and gives its caller the operation's
      answer: the copy of the vector, the future to await, the computation to run, or the exception. */
  lemma StepIsPerform(dim: Key -> nat, s: State, e: Event)
    requires Inv(s)
    ensures
      match OperationOf(dim, s, e)
      case None => SharedOf(Step(dim, s, e)) == SharedOf(s)
      case Some(op) =>
        && SharedOf(Step(dim, s, e)) == Perform(SharedOf(s), op).0
        && (IsAnswered(e) ==>
              e.caller in Step(dim, s, e).callers && AnswerIn(Step(dim, s, e), e.caller) == Perform(SharedOf(s), op).1)
  {
    match e
    case Call(c, key) => if c !in s.callers { CallIsLookUp(s, c, key); }
    case Wake(c) => if OperationOf(dim, s, e).Some? { WakeIsAwaken(s, c); }
    case CancelWaiter(c) => if IsWaiter(s, c) { CancelIsWithdraw(s, c); }
    case Finish(c, outcome) => if c in s.callers && s.callers[c].Executing? { FinishIsComplete(dim, s, c, outcome); }
    case Get(c, key) => if c !in s.callers { GetIsRead(s, c, key); }
    case Clear => ClearIsReset(s);
    case Mutate(c, v) => MutationIsInvisible(s, c, v);
  }

  // --------------------------------------------------------------------------------------- runs

  /** The operations that the callers of a run perform, in order. */
  function OperationsOf(dim: Key -> nat, maxSize: int, run: seq<Event>): seq<Operation> {
    if run == [] then []
    else
      var before := run[..|run| - 1];
      var ops := OperationsOf(dim, maxSize, before);
      match OperationOf(dim, After(dim, maxSize, before), run[|run| - 1])
      case None => ops
      case Some(op) => ops + [op]
  }

  /** Every interleaving of callers leaves the shared state as the sequence of their operations does. */
  lemma {:induction false} RunsAreReplays(dim: Key -> nat, maxSize: int, run: seq<Event>)
    ensures SharedOf(After(dim, maxSize, run)) == Replay(maxSize, OperationsOf(dim, maxSize, run))
  {
    if run == [] {
      assert View(Init(maxSize), []).store == map[];
    } else {
      var before, e := run[..|run| - 1], run[|run| - 1];
      var s, ops := After(dim, maxSize, before), OperationsOf(dim, maxSize, before);
      RunsAreReplays(dim, maxSize, before);
      ReachableStatesAreSound(dim, maxSize, before);
      StepIsPerform(dim, s, e);
      match OperationOf(dim, s, e)
      case None =>
      case Some(op) => assert (ops + [op])[..|ops + [op]| - 1] == ops;
    }
  }
}
