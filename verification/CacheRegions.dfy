/** What callers do to the shared state of QueryEmbeddingCache between two suspensions: each locked
    region, with the counter update next to it, as a function from the state before to the state after
    and the answer.  The class in QueryEmbeddingCache carries the regions out on the heap, the step
    system in CacheProtocol interleaves them. */
module CacheRegions {
  import opened Lru

  type Vector = seq<real>

  /** How far an asyncio future is; V is what it holds, a vector or something that stands for one. */
  datatype Completion<+V> =
    | Pending
    | Resolved(value: V)
    | Failed(catchable: bool)   // set_exception; catchable: the exception is an Exception
    | Cancelled
  {
    predicate Done() { !Pending? }
  }

  /** What compute_fn does. */
  datatype Outcome =
    | Returns(vector: Vector)
    | Raises(catchable: bool)
    | CancelledInside
  {
    predicate Fits(dimension: nat) {
      Returns? && |vector| == dimension
    }

    /** How the future of an executor is completed; a wrong dimension raises ValueError. */
    function Completes(dimension: nat): Completion<Vector> {
      match this
      case Returns(v) => if |v| == dimension then Resolved(v) else Failed(true)
      case Raises(catchable) => Failed(catchable)
      case CancelledInside => Cancelled
    }
  }

  /** The dictionary and counters, the futures registered by key, and all futures ever created. */
  datatype Shared = Shared(view: Lru<Vector>, inFlight: map<Key, nat>, futures: seq<Completion<Vector>>)
  {
    /** Takes the future of key out of the table and completes it unless it is done. */
    function Settled(key: Key, completion: Completion<Vector>): Shared {
      if key !in inFlight then this
      else this.(inFlight := inFlight - {key}, futures := CompletedAt(futures, inFlight[key], completion))
    }
  }

  function CompletedAt<V>(futures: seq<Completion<V>>, f: nat, completion: Completion<V>): seq<Completion<V>> {
    if f < |futures| && futures[f].Pending? then futures[f := completion] else futures
  }

  /** What a region has for its caller. */
  datatype Answer =
    | Hands(vector: Vector, isHit: bool)
    | Joins(future: nat)   // go and await that future
    | Computes             // go and run compute_fn
    | Fails                // an exception
    | Absent               // get() found nothing
    | Quiet

  datatype Operation =
    | LookUp(key: Key)                                           // get_or_compute up to its first await
    | Awaken(future: nat, doomed: bool)                          // a waiter runs again; doomed: it was cancelled
    | Withdraw(future: nat)                                      // a waiter is cancelled
    | Complete(key: Key, dimension: nat, outcome: Outcome)       // compute_fn is over
    | Read(key: Key)                                             // get()
    | Reset                                                      // clear()

  function OnLookUp(s: Shared, key: Key): (Shared, Answer) {
    if key in s.view.store then (s.(view := s.view.Hit(key)), Hands(s.view.store[key], true))
    else if key in s.inFlight then (s, Joins(s.inFlight[key]))
    else
      (s.(view := s.view.Miss(), inFlight := s.inFlight[key := |s.futures|], futures := s.futures + [Pending]),
       Computes)
  }

  function OnAwaken(s: Shared, f: nat, doomed: bool): (Shared, Answer) {
    if f >= |s.futures| || s.futures[f].Pending? then (s, Quiet)
    else if doomed then (s, Fails)
    else
      match s.futures[f]
      case Resolved(v) => (s.(view := s.view.JoinedHit()), Hands(v, true))
      case Failed(catchable) => if catchable then (s.(view := s.view.Miss()), Computes) else (s, Fails)
      case _ => (s, Fails)
  }

  function OnComplete(s: Shared, key: Key, dimension: nat, outcome: Outcome): (Shared, Answer) {
    var settled := s.Settled(key, outcome.Completes(dimension));
    if outcome.Fits(dimension)
    then (settled.(view := s.view.Put(key, outcome.vector)), Hands(outcome.vector, false))
    else (settled, Fails)
  }

  function OnRead(s: Shared, key: Key): (Shared, Answer) {
    if key in s.view.store then (s.(view := s.view.Hit(key)), Hands(s.view.store[key], true))
    else (s.(view := s.view.Miss()), Absent)
  }

  function OnReset(s: Shared): Shared {
    Shared(s.view.Cleared(), map[],
           seq(|s.futures|, i requires 0 <= i < |s.futures| =>
             if i in s.inFlight.Values && s.futures[i].Pending? then Cancelled else s.futures[i]))
  }

  function Perform(s: Shared, op: Operation): (Shared, Answer) {
    match op
    case LookUp(key) => OnLookUp(s, key)
    case Awaken(f, doomed) => OnAwaken(s, f, doomed)
    case Withdraw(f) => (s.(futures := CompletedAt(s.futures, f, Cancelled)), Quiet)
    case Complete(key, dimension, outcome) => OnComplete(s, key, dimension, outcome)
    case Read(key) => OnRead(s, key)
    case Reset => (OnReset(s), Quiet)
  }

  /** A region and, if it sends its caller to compute, the computation right after it. */
  function AndCompute(region: (Shared, Answer), key: Key, dimension: nat, outcome: Outcome): (Shared, Answer) {
    if region.1.Computes? then OnComplete(region.0, key, dimension, outcome) else region
  }

  /** A call that nobody comes in between does to the dictionary what Lru.Request says, and leaves the
      table as it was. */
  lemma UndisturbedCallIsRequest(s: Shared, key: Key, vector: Vector)
    requires key !in s.inFlight
    ensures
      var (s', answer) := AndCompute(OnLookUp(s, key), key, |vector|, Returns(vector));
      && s'.view == s.view.Request(key, vector) && s'.inFlight == s.inFlight
      && answer == Hands(if key in s.view.store then s.view.store[key] else vector, key in s.view.store)
  {
  }

  function Fresh(maxSize: int): Shared {
    Shared(Init(maxSize), map[], [])
  }

  /** A fresh cache after a sequence of operations. */
  function Replay(maxSize: int, ops: seq<Operation>): Shared {
    if ops == [] then Fresh(maxSize)
    else Perform(Replay(maxSize, ops[..|ops| - 1]), ops[|ops| - 1]).0
  }
}
