/** Small vocabulary shared by the models: optional values and sequence facts. */
module Prelude {

  datatype Option<+T> = None | Some(value: T)

  function Max(a: int, b: int): (r: int) {
    if a < b then b else a
  }

  function Min(a: int, b: int): (r: int) {
    if a < b then a else b
  }

  function Sum(s: seq<real>): real {
    if s == [] then 0.0 else Sum(s[..|s| - 1]) + s[|s| - 1]
  }

  lemma SubsetSize<T>(s: set<T>, t: set<T>)
    requires s <= t
    ensures |s| <= |t|
  {
    assert t == s + (t - s);
  }

  /** q at some place before n. */
  ghost predicate HappensBefore(n: nat, q: int -> bool) {
    exists i :: 0 <= i < n && q(i)
  }

  lemma HappensOneMore(n: nat, q: int -> bool)
    ensures HappensBefore(n + 1, q) <==> HappensBefore(n, q) || q(n)
  {
    if i :| 0 <= i < n && q(i) {
      assert 0 <= i < n + 1;
    } else if q(n) {
      assert 0 <= n < n + 1;
    }
  }

  ghost predicate Distinct<T>(s: seq<T>) {
    forall i, j | 0 <= i < j < |s| :: s[i] != s[j]
  }

  /** The sequence with every occurrence of x taken out. */
  function Without<T(==,!new)>(s: seq<T>, x: T): (r: seq<T>)
    ensures x !in r
    ensures forall y :: y in r <==> y in s && y != x
    ensures |r| <= |s|
  {
    if s == [] then []
    else
      var rest := Without(s[..|s| - 1], x);
      assert s == s[..|s| - 1] + [s[|s| - 1]];
      if s[|s| - 1] == x then rest else rest + [s[|s| - 1]]
  }

  /** The last n elements, or all of them when there are fewer. */
  function LastN<T>(s: seq<T>, n: nat): (r: seq<T>) {
    if |s| <= n then s else s[|s| - n..]
  }

  lemma WithoutAbsent<T(!new)>(s: seq<T>, x: T)
    requires x !in s
    ensures Without(s, x) == s
  {
    if s != [] {
      assert s == s[..|s| - 1] + [s[|s| - 1]];
      WithoutAbsent(s[..|s| - 1], x);
    }
  }

  lemma WithoutConcat<T(!new)>(s: seq<T>, t: seq<T>, x: T)
    ensures Without(s + t, x) == Without(s, x) + Without(t, x)
  {
    if t == [] {
      assert s + t == s;
    } else {
      WithoutConcat(s, t[..|t| - 1], x);
      assert (s + t)[..|s + t| - 1] == s + t[..|t| - 1];
    }
  }

  /** Taking one element out of a duplicate-free sequence closes the gap it leaves. */
  lemma {:induction false} WithoutAt<T(!new)>(s: seq<T>, i: nat)
    requires Distinct(s) && i < |s|
    ensures Without(s, s[i]) == s[..i] + s[i + 1..]
  {
    var head, x, tail := s[..i], s[i], s[i + 1..];
    assert s == head + [x] + tail;
    WithoutConcat(head + [x], tail, x);
    WithoutLast(head, x);
    WithoutAbsent(head, x);
    WithoutAbsent(tail, x);
  }

  lemma {:induction false} WithoutLast<T(!new)>(s: seq<T>, x: T)
    ensures Without(s + [x], x) == Without(s, x)
  {
    assert (s + [x])[..|s + [x]| - 1] == s;
  }

  /** Moving an element of a duplicate-free sequence to the end permutes it. */
  lemma MoveToEndFacts<T(!new)>(s: seq<T>, x: T)
    requires Distinct(s) && x in s
    ensures Distinct(Without(s, x) + [x])
    ensures |Without(s, x) + [x]| == |s|
  {
    var i :| 0 <= i < |s| && s[i] == x;
    WithoutAt(s, i);
  }
}
