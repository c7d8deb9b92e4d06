/** The bookkeeping of QueryEmbeddingCache that is independent of futures and callers: the ordered
    dictionary with its least-recently-used eviction, and the four counters.  V is what the
    dictionary stores under a key: a vector, or a reference to one. */
module Lru {
  import opened Prelude

  type Key = string

  datatype Lru<V> = Lru(
    maxSize: nat,
    order: seq<Key>,
    store: map<Key, V>,
    hits: nat,
    misses: nat,
    evictions: nat,
    callsAvoided: nat)
  {
    ghost predicate Valid() {
      && 1 <= maxSize
      && |order| <= maxSize
      && Distinct(order)
      && (forall k :: k in order <==> k in store)
    }

    /** A cached key is served: counted as a hit and moved to the most recently used end. */
    function Hit(key: Key): Lru<V> {
      this.(order := Without(order, key) + [key], hits := hits + 1, callsAvoided := callsAvoided + 1)
    }

    /** A joined computation is served: counted as a hit without touching the dictionary. */
    function JoinedHit(): Lru<V> {
      this.(hits := hits + 1, callsAvoided := callsAvoided + 1)
    }

    function Miss(): Lru<V> {
      this.(misses := misses + 1)
    }

    predicate EvictsFor(key: Key) {
      |order| >= maxSize && key !in store && order != []
    }

    /** The least recently used entry goes. */
    function Dropped(): Lru<V>
      requires order != []
    {
      this.(order := order[1..], store := store - {order[0]}, evictions := evictions + 1)
    }

    /** A new key goes to the end of the order; a key already present keeps its place. */
    function Assigned(key: Key, value: V): Lru<V> {
      this.(order := if key in store then order else order + [key], store := store[key := value])
    }

    /** A computed value is stored. */
    function Put(key: Key, value: V): Lru<V> {
      if EvictsFor(key) then Dropped().Assigned(key, value) else Assigned(key, value)
    }

    function Cleared(): Lru<V> {
      Lru(maxSize, [], map[], 0, 0, 0, 0)
    }

    /** A whole undisturbed get_or_compute call whose computation, if needed, returns value. */
    function Request(key: Key, value: V): Lru<V> {
      if key in store then Hit(key) else Miss().Put(key, value)
    }
  }

  function Init<V>(maxSize: int): Lru<V> {
    Lru(Max(1, maxSize), [], map[], 0, 0, 0, 0)
  }

  lemma HitKeepsValid<V>(l: Lru<V>, key: Key)
    requires l.Valid() && key in l.store
    ensures l.Hit(key).Valid()
  {
    MoveToEndFacts(l.order, key);
  }

  lemma PutKeepsValid<V>(l: Lru<V>, key: Key, value: V)
    requires l.Valid()
    ensures l.Put(key, value).Valid()
    ensures key in l.Put(key, value).store
  {
    if l.EvictsFor(key) {
      var l' := l.Put(key, value);
      assert l.order == [l.order[0]] + l.order[1..];
      forall k
        ensures k in l'.order <==> k in l'.store
      {
        if k in l.order[1..] {
          assert k != l.order[0];
        }
      }
    }
  }

  // ---------------------------------------------------------------------------------------------
  // Sequential runs of successful calls
  // ---------------------------------------------------------------------------------------------

  /** The cache after serving the requests one after the other; each carries the vector that its
      computation would return. */
  function Serve<V>(l: Lru<V>, reqs: seq<(Key, V)>): Lru<V> {
    if reqs == [] then l
    else Serve(l, reqs[..|reqs| - 1]).Request(reqs[|reqs| - 1].0, reqs[|reqs| - 1].1)
  }

  function Keys<V>(reqs: seq<(Key, V)>): (ks: seq<Key>)
    ensures |ks| == |reqs|
    ensures forall i | 0 <= i < |reqs| :: ks[i] == reqs[i].0
  {
    seq(|reqs|, i requires 0 <= i < |reqs| => reqs[i].0)
  }

  /** Position of the last request for key, or -1. */
  function LastRequest(keys: seq<Key>, key: Key): (i: int)
    ensures -1 <= i < |keys|
    ensures i >= 0 <==> key in keys
    ensures i >= 0 ==> keys[i] == key
  {
    if keys == [] then -1
    else if keys[|keys| - 1] == key then |keys| - 1
    else
      assert keys == keys[..|keys| - 1] + [keys[|keys| - 1]];
      LastRequest(keys[..|keys| - 1], key)
  }

  ghost predicate SortedByLastRequest(s: seq<Key>, keys: seq<Key>) {
    forall i, j | 0 <= i < j < |s| :: LastRequest(keys, s[i]) < LastRequest(keys, s[j])
  }

  /** s lists each requested key once, ordered by its last request. */
  ghost predicate IsRecencyOrder(s: seq<Key>, keys: seq<Key>) {
    && (forall k :: k in s <==> k in keys)
    && SortedByLastRequest(s, keys)
  }

  lemma RecencyOrderIsDistinct(s: seq<Key>, keys: seq<Key>)
    requires SortedByLastRequest(s, keys)
    ensures Distinct(s)
  {
    forall i, j | 0 <= i < j < |s|
      ensures s[i] != s[j]
    {
      assert LastRequest(keys, s[i]) < LastRequest(keys, s[j]);
    }
  }

  ghost predicate Within(s: seq<Key>, t: seq<Key>) {
    forall k | k in s :: k in t
  }

  /** The definition by last positions pins the order down: it is met by one sequence only. */
  lemma {:induction false} RecencyOrderIsUnique(s: seq<Key>, t: seq<Key>, keys: seq<Key>)
    requires Within(s, t) && Within(t, s)
    requires SortedByLastRequest(s, keys) && SortedByLastRequest(t, keys)
    ensures s == t
    decreases |s|
  {
    if t != [] {
      assert t[0] in s;
    }
    if s != [] {
      assert s[|s| - 1] in t;
      EndsWithLatest(s, t, keys);
      EndsWithLatest(t, s, keys);
      assert s[|s| - 1] == t[|t| - 1];
      var s', t' := s[..|s| - 1], t[..|t| - 1];
      ButLast(s, t, s', t', keys);
      ButLast(t, s, t', s', keys);
      RecencyOrderIsUnique(s', t', keys);
      assert s == s' + [s[|s| - 1]] && t == t' + [t[|t| - 1]];
    }
  }

  lemma EndsWithLatest(s: seq<Key>, t: seq<Key>, keys: seq<Key>)
    requires s != [] && t != []
    requires s[|s| - 1] in t && SortedByLastRequest(t, keys)
    ensures LastRequest(keys, s[|s| - 1]) <= LastRequest(keys, t[|t| - 1])
    ensures s[|s| - 1] != t[|t| - 1] ==> LastRequest(keys, s[|s| - 1]) < LastRequest(keys, t[|t| - 1])
  {
    var i :| 0 <= i < |t| && t[i] == s[|s| - 1];
  }

  lemma ButLast(s: seq<Key>, t: seq<Key>, s': seq<Key>, t': seq<Key>, keys: seq<Key>)
    requires s != [] && t != [] && s[|s| - 1] == t[|t| - 1]
    requires s' == s[..|s| - 1] && t' == t[..|t| - 1]
    requires Within(s, t) && SortedByLastRequest(s, keys)
    ensures Within(s', t') && SortedByLastRequest(s', keys)
  {
    RecencyOrderIsDistinct(s, keys);
    forall k | k in s'
      ensures k in t'
    {
      var i :| 0 <= i < |s'| && s'[i] == k;
      assert s[i] == k && k in t;
      var j :| 0 <= j < |t| && t[j] == k;
      assert t'[j] == k;
    }
  }

  /** The recency order of a request sequence. */
  function RecencyOrder(keys: seq<Key>): seq<Key> {
    if keys == [] then []
    else Without(RecencyOrder(keys[..|keys| - 1]), keys[|keys| - 1]) + [keys[|keys| - 1]]
  }

  lemma {:induction false} RecencyOrderMeetsItsDefinition(keys: seq<Key>)
    ensures IsRecencyOrder(RecencyOrder(keys), keys)
  {
    if keys != [] {
      RecencyOrderMeetsItsDefinition(keys[..|keys| - 1]);
      RequestedAgain(RecencyOrder(keys[..|keys| - 1]), keys[..|keys| - 1], keys[|keys| - 1]);
      assert keys == keys[..|keys| - 1] + [keys[|keys| - 1]];
    }
  }

  lemma WithoutStaysSorted(r: seq<Key>, before: seq<Key>, k: Key)
    requires SortedByLastRequest(r, before) && Distinct(r)
    ensures SortedByLastRequest(Without(r, k), before)
  {
    if k in r {
      var i :| 0 <= i < |r| && r[i] == k;
      WithoutAt(r, i);
    } else {
      WithoutAbsent(r, k);
    }
  }

  /** One more request moves its key behind all others and leaves those in their order. */
  lemma RequestedAgain(r: seq<Key>, before: seq<Key>, k: Key)
    requires IsRecencyOrder(r, before)
    ensures IsRecencyOrder(Without(r, k) + [k], before + [k])
  {
    RecencyOrderIsDistinct(r, before);
    var rest, keys := Without(r, k), before + [k];
    assert keys[..|keys| - 1] == before;
    WithoutStaysSorted(r, before, k);
    forall x | x in rest
      ensures LastRequest(keys, x) == LastRequest(before, x)
    {
    }
  }

  /** After any run of successful calls the dictionary holds exactly the last max(1, maxSize)
      distinct keys requested, ordered by most recent request. */
  lemma {:induction false} LruClosedForm<V>(maxSize: int, reqs: seq<(Key, V)>)
    ensures Serve(Init(maxSize), reqs).Valid()
    ensures Serve(Init(maxSize), reqs).maxSize == Max(1, maxSize)
    ensures Serve(Init(maxSize), reqs).order == LastN(RecencyOrder(Keys(reqs)), Max(1, maxSize))
  {
    if reqs != [] {
      var before, req := reqs[..|reqs| - 1], reqs[|reqs| - 1];
      LruClosedForm(maxSize, before);
      assert Keys(reqs)[..|reqs| - 1] == Keys(before);
      assert Keys(reqs) == Keys(before) + [req.0];
      var l := Serve(Init(maxSize), before);
      if req.0 in l.store { HitKeepsValid(l, req.0); } else { PutKeepsValid(l.Miss(), req.0, req.1); }
      RecencyOrderMeetsItsDefinition(Keys(before));
      RecencyOrderIsDistinct(RecencyOrder(Keys(before)), Keys(before));
      OneRequest(RecencyOrder(Keys(before)), Max(1, maxSize), req.0, l, req.1);
    }
  }

  /** One request keeps the dictionary the tail of the unbounded recency order. */
  lemma OneRequest<V>(r: seq<Key>, size: nat, key: Key, l: Lru<V>, value: V)
    requires Distinct(r) && l.Valid() && l.maxSize == size && l.order == LastN(r, size)
    ensures l.Request(key, value).order == LastN(Without(r, key) + [key], size)
  {
    var head := r[..|r| - |l.order|];
    assert r == head + l.order;
    assert head == [] || |l.order| == size;
    WithoutConcat(head, l.order, key);
    if key in l.order {
      RequestHits(head, l, key);
    } else {
      RequestMisses(head, l, key, value);
    }
  }

  lemma RequestHits<V>(head: seq<Key>, l: Lru<V>, key: Key)
    requires Distinct(head + l.order) && l.Valid() && key in l.order
    requires head == [] || |l.order| == l.maxSize
    ensures l.Hit(key).order == LastN(Without(head, key) + Without(l.order, key) + [key], l.maxSize)
  {
    var i :| 0 <= i < |l.order| && l.order[i] == key;
    forall j | 0 <= j < |head|
      ensures head[j] != key
    {
      assert (head + l.order)[j] == head[j] && (head + l.order)[|head| + i] == key;
    }
    WithoutAbsent(head, key);
    MoveToEndFacts(l.order, key);
    TailOf(head, Without(l.order, key) + [key], l.maxSize);
    assert head + Without(l.order, key) + [key] == head + (Without(l.order, key) + [key]);
  }

  lemma RequestMisses<V>(head: seq<Key>, l: Lru<V>, key: Key, value: V)
    requires l.Valid() && key !in l.order
    requires head == [] || |l.order| == l.maxSize
    ensures l.Miss().Put(key, value).order
         == LastN(Without(head, key) + Without(l.order, key) + [key], l.maxSize)
  {
    WithoutAbsent(l.order, key);
    AppendToTail(Without(head, key), l.order, key, l.maxSize);
  }

  lemma AppendToTail(rest: seq<Key>, order: seq<Key>, key: Key, size: nat)
    requires 1 <= size && (|order| == size || (rest == [] && |order| < size))
    ensures LastN(rest + order + [key], size)
         == if |order| == size then order[1..] + [key] else order + [key]
  {
    if |order| < size {
      TailOf([], order + [key], size);
      assert rest + order + [key] == [] + (order + [key]);
    } else {
      TailOf(rest + [order[0]], order[1..] + [key], size);
      assert order == [order[0]] + order[1..];
      assert rest + order + [key] == (rest + [order[0]]) + (order[1..] + [key]);
    }
  }

  lemma TailOf<T>(head: seq<T>, tail: seq<T>, n: nat)
    requires |tail| == n || (head == [] && |tail| <= n)
    ensures LastN(head + tail, n) == tail
  {
  }

  /** What fits in a smaller cache is held by a larger one after the same requests, so no request
      that hits the smaller misses the larger, and the hit count never falls as the size grows. */
  lemma {:induction false} LruInclusion<V>(small: int, large: int, reqs: seq<(Key, V)>)
    requires small <= large
    ensures Serve(Init(small), reqs).store.Keys <= Serve(Init(large), reqs).store.Keys
    ensures Serve(Init(small), reqs).hits <= Serve(Init(large), reqs).hits
  {
    LruClosedForm(small, reqs);
    LruClosedForm(large, reqs);
    var r := RecencyOrder(Keys(reqs));
    var a, b := Serve(Init(small), reqs), Serve(Init(large), reqs);
    forall k | k in a.store
      ensures k in b.store
    {
      assert k in a.order;
      assert k in b.order;
    }
    if reqs != [] {
      LruInclusion(small, large, reqs[..|reqs| - 1]);
    }
  }
}
