/** QueryEmbeddingCache itself, on the heap: each locked region is a method that does to the shared
    state, and answers, what CacheRegions says, and get_or_compute is made of them. */
module QueryEmbeddingCache {
  import opened Prelude
  import opened Lru
  import opened CacheRegions
  import CacheProtocol
  import CacheViews

  /** The asyncio future that waiters share; id tells futures apart in specifications. */
  class SharedFuture {
    ghost const id: nat
    var completion: Completion<array<real>>

    constructor (ghost id: nat)
      ensures this.id == id && completion == Pending
    {
      this.id := id;
      completion := Pending;
    }
  }

  /** What a caller gets, or what it has to go and do. */
  datatype Reply =
    | Vector(vector: array<real>, isHit: bool)
    | Suspended(future: SharedFuture)
    | Execute
    | Failure
    | NotFound

  /** A completion with the vector in place of its list. */
  ghost function ListIn(c: Completion<array<real>>): Completion<Vector>
    reads if c.Resolved? then {c.value} else {}
  {
    match c
    case Pending => Pending
    case Resolved(list) => Resolved(list[..])
    case Failed(catchable) => Failed(catchable)
    case Cancelled => Cancelled
  }

  ghost function AnswerIn(reply: Reply): Answer
    reads if reply.Vector? then {reply.vector} else {}
  {
    match reply
    case Vector(list, isHit) => Hands(list[..], isHit)
    case Suspended(future) => Joins(future.id)
    case Execute => Computes
    case Failure => Fails
    case NotFound => Absent
  }

  ghost function Lists(futures: seq<SharedFuture>): set<array<real>>
    reads futures
  {
    set i | 0 <= i < |futures| && futures[i].completion.Resolved? :: futures[i].completion.value
  }

  ghost function Slots(futures: seq<SharedFuture>): seq<Completion<Vector>>
    reads futures, Lists(futures)
  {
    seq(|futures|, i requires 0 <= i < |futures| reads futures, Lists(futures) => ListIn(futures[i].completion))
  }

  lemma OneMoreSlot(futures: seq<SharedFuture>, future: SharedFuture)
    ensures Slots(futures + [future]) == Slots(futures) + [ListIn(future.completion)]
  {
  }

  method CopyOf(v: array<real>) returns (copy: array<real>)
    ensures fresh(copy) && copy[..] == v[..]
  {
    copy := new real[v.Length](i requires 0 <= i < v.Length reads v => v[i]);
  }

  class Cache {
    const maxSize: nat
    var order: seq<Key>
    var store: map<Key, array<real>>
    var inFlight: map<Key, SharedFuture>
    var hits: nat
    var misses: nat
    var evictions: nat
    var callsAvoided: nat
    ghost var created: seq<SharedFuture>   // every future so far, registered or not

    /** The bookkeeping with the stored vectors themselves in place of their lists. */
    ghost function View(): Lru<Vector>
      reads this, store.Values
    {
      Lru(maxSize, order, map k | k in store :: store[k][..], hits, misses, evictions, callsAvoided)
    }

    ghost function Value(): Shared
      reads this, store.Values, created, Lists(created)
    {
      Shared(View(), Table(), Slots(created))
    }

    ghost function Table(): map<Key, nat>
      reads this
    {
      map k | k in inFlight :: inFlight[k].id
    }

    /** What only copies and counts leaves the futures alone. */
    twostate lemma SlotsStay()
      requires created == old(created)
      requires forall f | f in created :: f.completion == old(f.completion)
      requires forall f | f in created && f.completion.Resolved? ::
        f.completion.value[..] == old(f.completion.value[..])
      ensures Slots(created) == old(Slots(created))
    {
    }

    ghost predicate Knows(future: SharedFuture)
      reads this
    {
      future.id < |created| && created[future.id] == future
    }

    ghost predicate Valid()
      reads this, store.Values
    {
      && View().Valid()
      && (forall i | 0 <= i < |created| :: created[i].id == i)
      && (forall k | k in inFlight :: Knows(inFlight[k]))
    }

    constructor (maxEntries: int)
      ensures Valid() && Value() == Fresh(maxEntries) && created == []
    {
      maxSize := if maxEntries < 1 then 1 else maxEntries;
      order, store, inFlight := [], map[], map[];
      hits, misses, evictions, callsAvoided := 0, 0, 0, 0;
      created := [];
    }

    /** A cached key is served: counted, moved to the end, and its vector copied. */
    method ServeHit(key: Key) returns (copy: array<real>)
      requires Valid() && key in store
      modifies this`hits, this`callsAvoided, this`order
      ensures Valid() && Value() == old(Value()).(view := old(View()).Hit(key))
      ensures fresh(copy) && copy[..] == old(View()).store[key]
    {
      HitKeepsValid(View(), key);
      hits := hits + 1;
      callsAvoided := callsAvoided + 1;
      order := Without(order, key) + [key];
      copy := CopyOf(store[key]);
      SlotsStay();
      assert View() == old(View()).Hit(key);
    }

    method NewFuture() returns (future: SharedFuture)
      requires Valid()
      modifies this`created
      ensures fresh(future) && future.id == |old(created)| && created == old(created) + [future]
      ensures Valid() && View() == old(View()) && Slots(created) == old(Slots(created)) + [Pending]
    {
      future := new SharedFuture(|created|);
      SlotsStay();
      OneMoreSlot(created, future);
      created := created + [future];
    }

    /** A future is registered for the caller, who is to compute; the miss is counted. */
    method Register(key: Key)
      requires Valid() && key !in inFlight
      modifies this`inFlight, this`created, this`misses
      ensures Valid() && View() == old(View()).Miss()
      ensures key in inFlight && fresh(inFlight[key]) && created == old(created) + [inFlight[key]]
      ensures inFlight == old(inFlight)[key := inFlight[key]]
      ensures Table() == old(Table())[key := |old(created)|] && Slots(created) == old(Slots(created)) + [Pending]
    {
      var future := NewFuture();
      Enter(key, future);
    }

    method Enter(key: Key, future: SharedFuture)
      requires Valid() && Knows(future)
      modifies this`inFlight, this`misses
      ensures Valid() && View() == old(View()).Miss()
      ensures inFlight == old(inFlight)[key := future]
      ensures Table() == old(Table())[key := future.id] && Slots(created) == old(Slots(created))
    {
      inFlight := inFlight[key := future];
      misses := misses + 1;
      SlotsStay();
    }

    /** First locked region of get_or_compute, with the miss that an executor counts on its way out. */
    method Lookup(key: Key) returns (reply: Reply)
      requires Valid()
      modifies this
      ensures Valid() && store == old(store)
      ensures (Value(), AnswerIn(reply)) == OnLookUp(old(Value()), key)
      ensures reply.Vector? ==> fresh(reply.vector)
      ensures reply.Suspended? ==> key in inFlight && reply.future == inFlight[key]
      ensures if reply.Execute? then
                && key !in old(inFlight) && key in inFlight && fresh(inFlight[key])
                && inFlight == old(inFlight)[key := inFlight[key]] && created == old(created) + [inFlight[key]]
              else inFlight == old(inFlight) && created == old(created)
    {
      if key in store {
        var vector := ServeHit(key);
        reply := Vector(vector, true);
      } else if key in inFlight {
        reply := Suspended(inFlight[key]);
      } else {
        Register(key);
        reply := Execute;
      }
    }

    /** A waiter wakes up with the result of the future it joined. */
    method TakeJoined(future: SharedFuture) returns (vector: array<real>)
      requires Valid() && future.completion.Resolved?
      modifies this`hits, this`callsAvoided
      ensures Valid() && View() == old(View()).JoinedHit()
      ensures fresh(vector) && vector[..] == old(future.completion.value[..])
    {
      hits := hits + 1;
      callsAvoided := callsAvoided + 1;
      vector := CopyOf(future.completion.value);
    }

    /** A waiter wakes up with an exception and goes on as an executor that is not registered. */
    method FallBack(future: SharedFuture)
      requires Valid() && future.completion == Failed(true)
      modifies this`misses
      ensures Valid() && View() == old(View()).Miss()
    {
      misses := misses + 1;
    }

    /** get_or_compute from the await of a shared future to its end, or to compute_fn.  doomed: the
        waiter was cancelled. */
    method Awaken(future: SharedFuture, doomed: bool) returns (reply: Reply)
      requires Valid() && Knows(future) && future.completion.Done()
      modifies this`hits, this`misses, this`callsAvoided
      ensures Valid()
      ensures (Value(), AnswerIn(reply)) == OnAwaken(old(Value()), future.id, doomed)
      ensures reply.Vector? ==> fresh(reply.vector)
    {
      if doomed {
        return Failure;
      }
      match future.completion
      case Resolved(_) =>
        var vector := TakeJoined(future);
        SlotsStay();
        reply := Vector(vector, true);
      case Failed(catchable) =>
        if catchable {
          FallBack(future);
          SlotsStay();
          reply := Execute;
        } else {
          reply := Failure;
        }
      case Cancelled =>
        reply := Failure;
    }

    /** set_result, set_exception or cancel, on a future that may be done. */
    method Finish(future: SharedFuture, completion: Completion<array<real>>)
      requires Valid() && Knows(future)
      modifies future
      ensures Valid() && View() == old(View())
      ensures Slots(created) == CompletedAt(old(Slots(created)), future.id, ListIn(completion))
      ensures future.completion == if old(future.completion) == Pending then completion else old(future.completion)
    {
      if future.completion == Pending {
        future.completion := completion;
      }
    }

    /** Cancelling a waiter cancels the future it awaits, unless that is done. */
    method Withdraw(future: SharedFuture)
      requires Valid() && Knows(future)
      modifies future
      ensures Valid() && Value() == Perform(old(Value()), CacheRegions.Withdraw(future.id)).0
    {
      Finish(future, Cancelled);
    }

    ghost function FutureOf(key: Key): set<SharedFuture>
      reads this
    {
      if key in inFlight then {inFlight[key]} else {}
    }

    /** Takes the future of key out of the table and completes it unless it is done. */
    method Settle(key: Key, completion: Completion<array<real>>)
      requires Valid()
      modifies this`inFlight, FutureOf(key)
      ensures Valid() && View() == old(View()) && inFlight == old(inFlight) - {key}
      ensures Value() == old(Value()).Settled(key, ListIn(completion))
      ensures key in old(inFlight) ==>
        old(inFlight[key]).completion == if old(inFlight[key].completion) == Pending then completion
                                         else old(inFlight[key].completion)
    {
      if key in inFlight {
        var pending := inFlight[key];
        Finish(pending, completion);
        Unregister(key);
      }
    }

    method Unregister(key: Key)
      requires Valid()
      modifies this`inFlight
      ensures Valid() && inFlight == old(inFlight) - {key}
      ensures Value() == old(Value()).(inFlight := old(Table()) - {key})
    {
      inFlight := inFlight - {key};
      SlotsStay();
      assert Table() == old(Table()) - {key};
    }

    /** Drops the least recently used entry. */
    method PopOldest()
      requires order != []
      modifies this`order, this`store, this`evictions
      ensures View() == old(View()).Dropped() && store == old(store) - {old(order)[0]}
    {
      store := store - {order[0]};
      order := order[1..];
      evictions := evictions + 1;
    }

    /** Assignment of a copy to the ordered dictionary. */
    method AssignCopy(key: Key, computed: array<real>)
      requires key in order <==> key in store
      modifies this`order, this`store
      ensures View() == old(View()).Assigned(key, computed[..])
      ensures key in store && fresh(store[key]) && store == old(store)[key := store[key]]
    {
      var cached := CopyOf(computed);
      if key !in store {
        order := order + [key];
      }
      store := store[key := cached];
    }

    /** Evicts if the cache is full, then stores a copy of the computed vector. */
    method StoreCopy(key: Key, computed: array<real>)
      requires Valid()
      modifies this`order, this`store, this`evictions
      ensures Valid() && View() == old(View()).Put(key, computed[..])
      ensures Value() == old(Value()).(view := old(View()).Put(key, computed[..]))
      ensures key in store && fresh(store[key])
      ensures forall k | k in store && k != key :: k in old(store) && store[k] == old(store)[k]
    {
      PutKeepsValid(View(), key, computed[..]);
      if |order| >= maxSize && key !in store {
        PopOldest();
      }
      AssignCopy(key, computed);
      SlotsStay();
    }

    /** Second locked region of get_or_compute: evict if full, store a copy, release the waiters. */
    method Publish(key: Key, computed: array<real>) returns (vector: array<real>)
      requires Valid()
      modifies this`order, this`store, this`evictions, this`inFlight, FutureOf(key)
      ensures Valid() && inFlight == old(inFlight) - {key}
      ensures Value() == old(Value()).Settled(key, Resolved(computed[..])).(view := old(View()).Put(key, computed[..]))
      ensures fresh(vector) && vector[..] == computed[..] && vector !in store.Values
    {
      StoreCopy(key, computed);
      Settle(key, Resolved(computed));
      vector := SharedCopyOf(computed);
    }

    /** A copy for a caller, which the cache does not hold. */
    method SharedCopyOf(v: array<real>) returns (copy: array<real>)
      requires Valid()
      ensures fresh(copy) && copy[..] == v[..] && copy !in store.Values
      ensures Valid() && Value() == old(Value())
    {
      copy := CopyOf(v);
      SlotsStay();
    }

    /** get(): a hit like any other, or a counted miss without a computation. */
    method Get(key: Key) returns (reply: Reply)
      requires Valid()
      modifies this`hits, this`misses, this`callsAvoided, this`order
      ensures Valid()
      ensures (Value(), AnswerIn(reply)) == OnRead(old(Value()), key)
      ensures reply.Vector? ==> fresh(reply.vector)
    {
      if key in store {
        var copy := ServeHit(key);
        reply := Vector(copy, true);
      } else {
        misses := misses + 1;
        SlotsStay();
        assert View() == old(View()).Miss();
        reply := NotFound;
      }
    }

    /** clear(): forgets everything and cancels every registered future that is not done. */
    method Clear()
      requires Valid()
      modifies this`order, this`store, this`inFlight, this`hits, this`misses, this`evictions, this`callsAvoided
      modifies inFlight.Values
      ensures Valid() && Value() == OnReset(old(Value()))
    {
      CancelAll();
      Forget();
    }

    method Forget()
      requires Valid()
      modifies this`order, this`store, this`inFlight, this`hits, this`misses, this`evictions, this`callsAvoided
      ensures Valid() && Value() == Shared(old(View()).Cleared(), map[], old(Slots(created)))
    {
      order, store, inFlight := [], map[], map[];
      hits, misses, evictions, callsAvoided := 0, 0, 0, 0;
      SlotsStay();
      assert View() == old(View()).Cleared();
    }

    /** The loop of clear() over the registered futures. */
    method CancelAll()
      requires Valid()
      modifies inFlight.Values
      ensures Valid() && View() == old(View())
      ensures Slots(created) == OnReset(old(Value())).futures
    {
      var futures := inFlight.Values;
      while futures != {}
        invariant futures <= inFlight.Values
        invariant forall f | f in inFlight.Values ::
          f.completion == if f !in futures && old(f.completion) == Pending then Cancelled else old(f.completion)
        decreases |futures|
      {
        var future :| future in futures;
        if future.completion == Pending {
          future.completion := Cancelled;
        }
        futures := futures - {future};
      }
      forall i | 0 <= i < |created|
        ensures created[i] in inFlight.Values <==> i in Table().Values
      {
        if i in Table().Values {
          var k :| k in inFlight && inFlight[k].id == i;
          assert inFlight[k] == created[i];
        }
        if created[i] in inFlight.Values {
          var k :| k in inFlight && inFlight[k] == created[i];
          assert Table()[k] == i;
        }
      }
    }

    /** The executor's own part of get_or_compute: outcome is what compute_fn does.  Whatever future is
        under the key is popped and, unless it was done, completed with that outcome. */
    method RunExecutor(key: Key, dimension: nat, outcome: Outcome) returns (reply: Reply)
      requires Valid()
      modifies this`order, this`store, this`evictions, this`inFlight, FutureOf(key)
      ensures Valid() && inFlight == old(inFlight) - {key}
      ensures (Value(), AnswerIn(reply)) == OnComplete(old(Value()), key, dimension, outcome)
      ensures reply.Vector? ==> fresh(reply.vector) && reply.vector !in store.Values
      ensures reply == Failure || reply.Vector?
    {
      if outcome.Fits(dimension) {
        var computed := outcome.vector;
        var list := new real[|computed|](i requires 0 <= i < |computed| => computed[i]);
        assert list[..] == computed;
        SlotsStay();
        assert Value() == old(Value());
        var vector := Publish(key, list);
        assert Value() == OnComplete(old(Value()), key, dimension, outcome).0;
        reply := Vector(vector, false);
      } else {
        var completion: Completion<array<real>> :=
          match outcome
          case Returns(_) => Failed(true)
          case Raises(catchable) => Failed(catchable)
          case CancelledInside => Cancelled;
        Settle(key, completion);
        assert ListIn(completion) == outcome.Completes(dimension);
        assert Value().view == old(Value()).view;
        assert Value() == old(Value()).Settled(key, outcome.Completes(dimension));
        reply := Failure;
      }
    }

    /** get_or_compute up to its end, or up to the await of a future that somebody else registered; a
        caller that computes is not disturbed. */
    method GetOrCompute(key: Key, dimension: nat, outcome: Outcome) returns (reply: Reply)
      requires Valid()
      modifies this
      ensures Valid()
      ensures (Value(), AnswerIn(reply)) == AndCompute(OnLookUp(old(Value()), key), key, dimension, outcome)
      ensures inFlight == old(inFlight) && old(created) <= created
      ensures reply.Suspended? ==> key in inFlight && reply.future == inFlight[key]
      ensures reply.Vector? ==> fresh(reply.vector)
    {
      reply := Lookup(key);
      if reply.Execute? {
        assert (Value(), Computes) == OnLookUp(old(Value()), key);
        reply := RunExecutor(key, dimension, outcome);
        assert inFlight == old(inFlight);
      }
    }

    /** get_or_compute from the moment the awaited future is done; doomed: the waiter was cancelled. */
    method Resume(key: Key, future: SharedFuture, doomed: bool, dimension: nat, outcome: Outcome)
      returns (reply: Reply)
      requires Valid() && Knows(future) && future.completion.Done()
      modifies this, FutureOf(key)
      ensures Valid()
      ensures (Value(), AnswerIn(reply))
           == AndCompute(OnAwaken(old(Value()), future.id, doomed), key, dimension, outcome)
      ensures reply.Vector? ==> fresh(reply.vector)
    {
      reply := Awaken(future, doomed);
      if reply.Execute? {
        reply := RunExecutor(key, dimension, outcome);
      }
    }

    /** One operation, by whichever caller; held are the futures that callers know of, before and after. */
    method Carry(op: Operation, held: seq<SharedFuture>) returns (reply: Option<Reply>, held': seq<SharedFuture>)
      requires Valid() && held == created
      modifies this, created
      ensures Valid() && held' == created && fresh(set f | f in held' && f !in held)
      ensures Value() == Perform(old(Value()), op).0
      ensures if reply.Some? then AnswerIn(reply.value) == Perform(old(Value()), op).1
              else Perform(old(Value()), op).1.Quiet?
    {
      assert forall k | k in inFlight :: inFlight[k] in created;
      reply, held' := None, held;
      match op
      case LookUp(key) =>
        var r := Lookup(key);
        reply := Some(r);
        if r.Execute? {
          held' := held + [inFlight[key]];
        }
      case Awaken(f, doomed) =>
        if f < |held| && held[f].completion != Pending {
          var r := Awaken(held[f], doomed);
          reply := Some(r);
        }
      case Withdraw(f) =>
        if f < |held| {
          Withdraw(held[f]);
        }
      case Complete(key, dimension, outcome) =>
        var r := RunExecutor(key, dimension, outcome);
        reply := Some(r);
      case Read(key) =>
        var r := Get(key);
        reply := Some(r);
      case Reset =>
        Clear();
    }
  }

  /** Any sequence of operations, carried out on a fresh cache. */
  method CarryOut(maxEntries: int, ops: seq<Operation>) returns (cache: Cache)
    ensures cache.Valid() && cache.Value() == Replay(maxEntries, ops)
  {
    cache := new Cache(maxEntries);
    var held: seq<SharedFuture> := [];
    for i := 0 to |ops|
      invariant fresh(cache) && fresh(set f | f in held)
      invariant cache.Valid() && held == cache.created && cache.Value() == Replay(maxEntries, ops[..i])
    {
      assert ops[..i + 1][..i] == ops[..i];
      var reply;
      reply, held := cache.Carry(ops[i], held);
    }
    assert ops[..|ops|] == ops;
  }

  /** Every interleaving of concurrent callers is a run of this class: the operations that its callers
      perform, one after the other, leave the cache with the same dictionary, counters, table and
      futures. */
  method RunInterleaving(dim: Key -> nat, maxEntries: int, run: seq<CacheProtocol.Event>) returns (cache: Cache)
    ensures cache.Valid()
    ensures cache.Value() == CacheViews.SharedOf(CacheProtocol.After(dim, maxEntries, run))
  {
    cache := CarryOut(maxEntries, CacheViews.OperationsOf(dim, maxEntries, run));
    CacheViews.RunsAreReplays(dim, maxEntries, run);
  }

  /** A sequential run of successful calls on a fresh cache ends in the closed form: the last
      max(1, maxEntries) distinct keys, by most recent request. */
  method ServeInSequence(maxEntries: int, reqs: seq<(Key, Vector)>) returns (cache: Cache)
    ensures fresh(cache) && cache.Valid() && cache.View() == Serve(Init(maxEntries), reqs)
    ensures cache.order == LastN(RecencyOrder(Keys(reqs)), Max(1, maxEntries))
  {
    cache := new Cache(maxEntries);
    var i := 0;
    while i < |reqs|
      invariant 0 <= i <= |reqs|
      invariant fresh(cache) && cache.Valid() && cache.inFlight == map[]
      invariant cache.View() == Serve(Init(maxEntries), reqs[..i])
    {
      var (key, vector) := reqs[i];
      UndisturbedCallIsRequest(cache.Value(), key, vector);
      ghost var before := cache.View();
      var _ := cache.GetOrCompute(key, |vector|, Returns(vector));
      assert cache.View() == before.Request(key, vector);
      assert reqs[..i + 1][..i] == reqs[..i];
      i := i + 1;
    }
    assert reqs[..i] == reqs;
    LruClosedForm(maxEntries, reqs);
  }
}
