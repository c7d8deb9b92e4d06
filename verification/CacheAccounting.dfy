/** Whole-run accounts of the shared cache: capacity and recency, and the ledger of the counters. */
module CacheAccounting {
  import opened Prelude
  import opened Lru
  import opened CacheRegions
  import opened CacheProtocol
  import opened CacheLiveness

  // ----------------------------------------------------------------------- capacity and recency

  /** The key that an event touches: by a hit of get_or_compute or get, or by its first insertion.
      Joined hits and storing a key again do not count. */
  function Touches(dim: Key -> nat, s: State, e: Event): Option<Key> {
    match e
    case Call(c, key) => if c !in s.callers && key in s.lru.store then Some(key) else None
    case Get(c, key) => if c !in s.callers && key in s.lru.store then Some(key) else None
    case Finish(c, Returns(v)) =>
      if c in s.callers && s.callers[c].Executing? && |v| == dim(s.callers[c].key)
        && s.callers[c].key !in s.lru.store
      then Some(s.callers[c].key) else None
    case _ => None
  }

  /** When key was last touched in the run, or -1. */
  function LastTouch(dim: Key -> nat, maxSize: int, run: seq<Event>, key: Key): (i: int)
    ensures -1 <= i < |run|
  {
    if run == [] then -1
    else if Touches(dim, After(dim, maxSize, run[..|run| - 1]), run[|run| - 1]) == Some(key) then |run| - 1
    else LastTouch(dim, maxSize, run[..|run| - 1], key)
  }

  ghost predicate InTouchOrder(dim: Key -> nat, maxSize: int, run: seq<Event>, order: seq<Key>) {
    && (forall i | 0 <= i < |order| :: 0 <= LastTouch(dim, maxSize, run, order[i]))
    && (forall i, j | 0 <= i < j < |order| ::
          LastTouch(dim, maxSize, run, order[i]) < LastTouch(dim, maxSize, run, order[j]))
  }

  lemma StepOrder(dim: Key -> nat, s: State, e: Event)
    requires Inv(s)
    ensures
      var order, order' := s.lru.order, Step(dim, s, e).lru.order;
      match Touches(dim, s, e)
      case None => order' == order || order' == []
      case Some(key) =>
        || (key in order && order' == Without(order, key) + [key])
        || (key !in order && order' == order + [key])
        || (key !in order && order != [] && order' == order[1..] + [key])
  {
    match e
    case Call(c, key) =>
    case Wake(c) =>
    case CancelWaiter(c) =>
    case Finish(c, outcome) =>
    case Get(c, key) =>
    case Clear =>
    case Mutate(c, v) =>
  }

  /** Touching a key moves it behind all others. */
  lemma TouchedLast(dim: Key -> nat, maxSize: int, run: seq<Event>, e: Event, rest: seq<Key>, key: Key)
    requires InTouchOrder(dim, maxSize, run, rest) && key !in rest
    requires Touches(dim, After(dim, maxSize, run), e) == Some(key)
    ensures InTouchOrder(dim, maxSize, run + [e], rest + [key])
  {
    assert (run + [e])[..|run + [e]| - 1] == run;
    forall k | k in rest
      ensures LastTouch(dim, maxSize, run + [e], k) == LastTouch(dim, maxSize, run, k)
    {
    }
  }

  lemma UntouchedStays(dim: Key -> nat, maxSize: int, run: seq<Event>, e: Event, order: seq<Key>)
    requires InTouchOrder(dim, maxSize, run, order)
    requires Touches(dim, After(dim, maxSize, run), e) == None
    ensures InTouchOrder(dim, maxSize, run + [e], order)
  {
    assert (run + [e])[..|run + [e]| - 1] == run;
    forall k
      ensures LastTouch(dim, maxSize, run + [e], k) == LastTouch(dim, maxSize, run, k)
    {
    }
  }

  lemma SomeOf(dim: Key -> nat, maxSize: int, run: seq<Event>, order: seq<Key>, cut: nat)
    requires InTouchOrder(dim, maxSize, run, order) && cut < |order|
    ensures InTouchOrder(dim, maxSize, run, order[cut + 1..])
    ensures InTouchOrder(dim, maxSize, run, order[..cut] + order[cut + 1..])
  {
  }

  lemma TouchOrderStep(dim: Key -> nat, maxSize: int, run: seq<Event>, e: Event, order: seq<Key>, order': seq<Key>)
    requires InTouchOrder(dim, maxSize, run, order) && Distinct(order)
    requires
      match Touches(dim, After(dim, maxSize, run), e)
      case None => order' == order || order' == []
      case Some(key) =>
        || (key in order && order' == Without(order, key) + [key])
        || (key !in order && order' == order + [key])
        || (key !in order && order != [] && order' == order[1..] + [key])
    ensures InTouchOrder(dim, maxSize, run + [e], order')
  {
    match Touches(dim, After(dim, maxSize, run), e)
    case None => UntouchedStays(dim, maxSize, run, e, order);
    case Some(key) =>
      if key in order {
        var i :| 0 <= i < |order| && order[i] == key;
        WithoutAt(order, i);
        SomeOf(dim, maxSize, run, order, i);
        TouchedLast(dim, maxSize, run, e, Without(order, key), key);
      } else if order' == order + [key] {
        TouchedLast(dim, maxSize, run, e, order, key);
      } else {
        SomeOf(dim, maxSize, run, order, 0);
        TouchedLast(dim, maxSize, run, e, order[1..], key);
      }
  }

  lemma {:induction false} OrderIsTouchOrder(dim: Key -> nat, maxSize: int, run: seq<Event>)
    ensures InTouchOrder(dim, maxSize, run, After(dim, maxSize, run).lru.order)
  {
    if run != [] {
      var before, e := run[..|run| - 1], run[|run| - 1];
      OrderIsTouchOrder(dim, maxSize, before);
      OrderAfterOneMore(dim, maxSize, before, e, After(dim, maxSize, before));
      assert run == before + [e];
    }
  }

  lemma OrderAfterOneMore(dim: Key -> nat, maxSize: int, before: seq<Event>, e: Event, s: State)
    requires s == After(dim, maxSize, before) && InTouchOrder(dim, maxSize, before, s.lru.order)
    ensures InTouchOrder(dim, maxSize, before + [e], Step(dim, s, e).lru.order)
  {
    ReachableStatesAreSound(dim, maxSize, before);
    StepOrder(dim, s, e);
    TouchOrderStep(dim, maxSize, before, e, s.lru.order, Step(dim, s, e).lru.order);
  }

  /** Every reachable cache holds at most max(1, max_size) entries, once each, in strictly increasing
      order of their last touch. */
  lemma CapacityAndRecency(dim: Key -> nat, maxSize: int, run: seq<Event>)
    ensures
      var l := After(dim, maxSize, run).lru;
      && |l.store| == |l.order| <= Max(1, maxSize)
      && (forall k :: k in l.store <==> k in l.order)
      && InTouchOrder(dim, maxSize, run, l.order)
  {
    ReachableStatesAreSound(dim, maxSize, run);
    OrderIsTouchOrder(dim, maxSize, run);
    DistinctCount(After(dim, maxSize, run).lru.order, After(dim, maxSize, run).lru.store.Keys);
  }

  lemma {:induction false} DistinctCount(order: seq<Key>, keys: set<Key>)
    requires Distinct(order) && forall k :: k in order <==> k in keys
    ensures |order| == |keys|
  {
    if order != [] {
      var last := order[|order| - 1];
      assert order == order[..|order| - 1] + [last];
      DistinctCount(order[..|order| - 1], keys - {last});
    } else {
      assert keys == {};
    }
  }

  lemma StepEvicts(dim: Key -> nat, s: State, e: Event, victim: Key)
    requires Inv(s) && !e.Clear?
    requires victim in s.lru.store && victim !in Step(dim, s, e).lru.store
    ensures |s.lru.order| == s.lru.maxSize && victim == s.lru.order[0]
  {
  }

  /** Only a full cache evicts, and what it evicts was touched before everything it keeps. */
  lemma EvictsLeastRecentlyTouched(dim: Key -> nat, maxSize: int, run: seq<Event>, e: Event, victim: Key)
    requires !e.Clear?
    requires victim in After(dim, maxSize, run).lru.store
    requires victim !in After(dim, maxSize, run + [e]).lru.store
    ensures
      var l := After(dim, maxSize, run).lru;
      && |l.order| == Max(1, maxSize)
      && forall k | k in l.store && k != victim ::
           LastTouch(dim, maxSize, run, victim) < LastTouch(dim, maxSize, run, k)
  {
    AfterOneMore(dim, maxSize, run, e);
    ReachableStatesAreSound(dim, maxSize, run);
    OrderIsTouchOrder(dim, maxSize, run);
    StepEvicts(dim, After(dim, maxSize, run), e, victim);
    var l := After(dim, maxSize, run).lru;
    forall k | k in l.store && k != victim
      ensures LastTouch(dim, maxSize, run, victim) < LastTouch(dim, maxSize, run, k)
    {
      assert k in l.order;
      var i :| 0 <= i < |l.order| && l.order[i] == k;
    }
  }

  // ------------------------------------------------------------------------------ counter ledger

  ghost predicate ClearFree(run: seq<Event>) {
    forall i | 0 <= i < |run| :: !run[i].Clear?
  }

  predicate LeftWithHit(p: Phase) { p.Served? }

  predicate CountedAsMiss(p: Phase) { p.Executing? || p.Computed? || p.Missed? || p.Raised? }

  predicate GaveUpWaiting(p: Phase) { p.Aborted? }

  ghost predicate LedgerInv(s: State) {
    && s.lru.hits == |CallersThat(s.callers, LeftWithHit)|
    && s.lru.callsAvoided == s.lru.hits
    && s.lru.misses == |CallersThat(s.callers, CountedAsMiss)|
    && |s.lru.order| + s.lru.evictions + |CallersThat(s.callers, IsExecuting)| <= s.lru.misses
  }

  lemma Recount(s: State, c: CallerId, p: Phase)
    ensures |CallersThat(s.callers[c := p], LeftWithHit)|
         == |CallersThat(s.callers, LeftWithHit)|
            - (if c in s.callers && LeftWithHit(s.callers[c]) then 1 else 0) + (if LeftWithHit(p) then 1 else 0)
    ensures |CallersThat(s.callers[c := p], CountedAsMiss)|
         == |CallersThat(s.callers, CountedAsMiss)|
            - (if c in s.callers && CountedAsMiss(s.callers[c]) then 1 else 0) + (if CountedAsMiss(p) then 1 else 0)
    ensures |CallersThat(s.callers[c := p], IsExecuting)|
         == |CallersThat(s.callers, IsExecuting)|
            - (if c in s.callers && IsExecuting(s.callers[c]) then 1 else 0) + (if IsExecuting(p) then 1 else 0)
  {
    CountUpdate(s.callers, c, p, LeftWithHit);
    CountUpdate(s.callers, c, p, CountedAsMiss);
    CountUpdate(s.callers, c, p, IsExecuting);
  }

  /** Caller c moves on to phase p, and the counters of l' follow suit. */
  ghost predicate Booked(s: State, s': State, c: CallerId, p: Phase) {
    var starts := c !in s.callers;
    && s'.callers == s.callers[c := p]
    && (starts || s.callers[c].Waiting? || s.callers[c].Executing?)
    && s'.lru.hits == s.lru.hits + (if LeftWithHit(p) then 1 else 0)
    && s'.lru.callsAvoided == s.lru.callsAvoided + (if LeftWithHit(p) then 1 else 0)
    && s'.lru.misses == s.lru.misses + (if CountedAsMiss(p) && (starts || s.callers[c].Waiting?) then 1 else 0)
    && (!starts && s.callers[c].Executing? ==> CountedAsMiss(p) && !p.Executing?)
    && |s'.lru.order| + s'.lru.evictions
         <= |s.lru.order| + s.lru.evictions + (if !starts && s.callers[c].Executing? then 1 else 0)
  }

  lemma BookHit(s: State, c: CallerId, key: Key)
    requires Inv(s) && c !in s.callers && key in s.lru.store
    ensures Booked(s, s.ServeCopy(c, key, s.lru.store[key]).(lru := s.lru.Hit(key)), c, Served(key, |s.heap|))
  {
    MoveToEndFacts(s.lru.order, key);
  }

  lemma BookFinish(dim: Key -> nat, s: State, c: CallerId, outcome: Outcome)
    requires Inv(s) && c in s.callers && s.callers[c].Executing?
    ensures c in StepFinish(dim, s, c, outcome).callers
    ensures Booked(s, StepFinish(dim, s, c, outcome), c, StepFinish(dim, s, c, outcome).callers[c])
  {
  }

  lemma BookWake(s: State, c: CallerId)
    requires Inv(s) && c in s.callers && s.callers[c].Waiting?
    ensures StepWake(s, c) == s || Booked(s, StepWake(s, c), c, StepWake(s, c).callers[c])
  {
  }

  /** A step moves at most one caller, and the counters move with it. */
  lemma StepIsBooked(dim: Key -> nat, s: State, e: Event) returns (c: CallerId, p: Phase)
    requires Inv(s) && !e.Clear?
    ensures
      var s' := Step(dim, s, e);
      (s'.callers == s.callers && s'.lru == s.lru) || Booked(s, s', c, p)
  {
    c, p := 0, Missed("");
    if !e.Mutate? && e.caller in Step(dim, s, e).callers {
      c, p := e.caller, Step(dim, s, e).callers[e.caller];
    }
    match e
    case Call(c, key) => if key in s.lru.store && c !in s.callers { BookHit(s, c, key); }
    case Wake(c) => if c in s.callers && s.callers[c].Waiting? { BookWake(s, c); }
    case CancelWaiter(c) =>
    case Finish(c, outcome) => if c in s.callers && s.callers[c].Executing? { BookFinish(dim, s, c, outcome); }
    case Get(c, key) => if key in s.lru.store && c !in s.callers { BookHit(s, c, key); }
    case Mutate(c, v) =>
  }

  lemma BookingKeepsLedger(s: State, s': State, c: CallerId, p: Phase)
    requires LedgerInv(s) && Booked(s, s', c, p)
    ensures LedgerInv(s')
  {
    Recount(s, c, p);
  }

  lemma {:induction false} LedgerHolds(dim: Key -> nat, maxSize: int, run: seq<Event>)
    requires ClearFree(run)
    ensures LedgerInv(After(dim, maxSize, run))
  {
    if run != [] {
      var before, e := run[..|run| - 1], run[|run| - 1];
      LedgerHolds(dim, maxSize, before);
      ReachableStatesAreSound(dim, maxSize, before);
      var s := After(dim, maxSize, before);
      var c, p := StepIsBooked(dim, s, e);
      if Booked(s, Step(dim, s, e), c, p) { BookingKeepsLedger(s, Step(dim, s, e), c, p); }
    }
  }

  lemma {:induction false} EveryCallerIsOnce(callers: map<CallerId, Phase>)
    ensures |callers| == |CallersThat(callers, LeftWithHit)| + |CallersThat(callers, CountedAsMiss)|
                       + |CallersThat(callers, IsWaiting)| + |CallersThat(callers, GaveUpWaiting)|
    decreases |callers|
  {
    if callers == map[] {
      assert forall f: Phase -> bool :: CallersThat(callers, f) == {};
    } else {
      var c :| c in callers;
      var rest := callers - {c};
      assert callers == rest[c := callers[c]];
      EveryCallerIsOnce(rest);
      CountUpdate(rest, c, callers[c], LeftWithHit);
      CountUpdate(rest, c, callers[c], CountedAsMiss);
      CountUpdate(rest, c, callers[c], IsWaiting);
      CountUpdate(rest, c, callers[c], GaveUpWaiting);
    }
  }

  /** The ledger of a run without clear(): every call is accounted for exactly once, as a hit, as a
      miss, as still waiting or as having left a cancelled wait; every hit avoided a computation; and
      entries, evictions and running executors are each covered by a miss of their own. */
  lemma CounterLedger(dim: Key -> nat, maxSize: int, run: seq<Event>)
    requires ClearFree(run)
    ensures
      var s := After(dim, maxSize, run);
      && |s.callers| == s.lru.hits + s.lru.misses + |Waiters(s)| + |CallersThat(s.callers, GaveUpWaiting)|
      && s.lru.hits == s.lru.callsAvoided
      && |s.lru.store| + s.lru.evictions + |Executors(s)| <= s.lru.misses
  {
    LedgerHolds(dim, maxSize, run);
    CapacityAndRecency(dim, maxSize, run);
    var s := After(dim, maxSize, run);
    EveryCallerIsOnce(s.callers);
  }

  // ---------------------------------------------------------------------------------- evictions

  /** The event stores a vector under a key that has none. */
  predicate Inserts(dim: Key -> nat, s: State, e: Event) {
    && e.Finish? && e.outcome.Returns? && e.caller in s.callers && s.callers[e.caller].Executing?
    && |e.outcome.vector| == dim(s.callers[e.caller].key) && s.callers[e.caller].key !in s.lru.store
  }

  function Insertions(dim: Key -> nat, maxSize: int, run: seq<Event>): nat {
    if run == [] then 0
    else
      var before := run[..|run| - 1];
      Insertions(dim, maxSize, before) + if Inserts(dim, After(dim, maxSize, before), run[|run| - 1]) then 1 else 0
  }

  lemma StepBalances(dim: Key -> nat, s: State, e: Event)
    requires Inv(s) && !e.Clear?
    ensures
      var l, l' := s.lru, Step(dim, s, e).lru;
      |l'.order| + l'.evictions == |l.order| + l.evictions + if Inserts(dim, s, e) then 1 else 0
  {
    match e
    case Call(c, key) => if key in s.lru.store { MoveToEndFacts(s.lru.order, key); }
    case Get(c, key) => if key in s.lru.store { MoveToEndFacts(s.lru.order, key); }
    case Wake(_) =>
    case CancelWaiter(_) =>
    case Finish(_, _) =>
    case Mutate(_, _) =>
  }

  lemma {:induction false} OrderAndEvictions(dim: Key -> nat, maxSize: int, run: seq<Event>)
    requires ClearFree(run)
    ensures
      var l := After(dim, maxSize, run).lru;
      |l.order| + l.evictions == Insertions(dim, maxSize, run)
  {
    if run != [] {
      var before := run[..|run| - 1];
      OrderAndEvictions(dim, maxSize, before);
      ReachableStatesAreSound(dim, maxSize, before);
      StepBalances(dim, After(dim, maxSize, before), run[|run| - 1]);
    }
  }

  /** Every insertion is still there or was evicted: in runs without clear(), entries and evictions add
      up to the insertions exactly. */
  lemma {:induction false} EvictionsAreExact(dim: Key -> nat, maxSize: int, run: seq<Event>)
    requires ClearFree(run)
    ensures
      var l := After(dim, maxSize, run).lru;
      |l.store| + l.evictions == Insertions(dim, maxSize, run)
  {
    OrderAndEvictions(dim, maxSize, run);
    CapacityAndRecency(dim, maxSize, run);
  }

  /** clear() takes dictionary, counters and table back to those of a fresh cache, and leaves callers and
      what they hold alone. */
  lemma {:induction false} ClearStartsOver(dim: Key -> nat, maxSize: int, run: seq<Event>)
    ensures
      var s, s' := After(dim, maxSize, run), After(dim, maxSize, run + [Clear]);
      && s'.lru == Start(maxSize).lru && s'.inFlight == Start(maxSize).inFlight
      && s'.callers == s.callers && s'.heap == s.heap && |s'.futures| == |s.futures|
  {
    AfterOneMore(dim, maxSize, run, Clear);
    ReachableStatesAreSound(dim, maxSize, run);
  }
}
