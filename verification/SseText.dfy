/** The JavaScript string operations that the event-stream reader uses: split and trim. */
module SseText {
  import opened Prelude

  predicate OccursAt(s: string, sep: string, i: nat) {
    i + |sep| <= |s| && s[i..i + |sep|] == sep
  }

  /** Position of the first occurrence of sep. */
  function Find(s: string, sep: string): (i: Option<nat>)
    requires sep != ""
    ensures i.Some? ==> i.value + |sep| <= |s|
  {
    if sep <= s then Some(0)
    else if s == "" then None
    else
      match Find(s[1..], sep)
      case None => None
      case Some(k) => Some(k + 1)
  }

  /** i is the first position at which sep occurs, and None means that it occurs nowhere. */
  ghost predicate IsFirst(s: string, sep: string, i: Option<nat>) {
    && (i.Some? ==> OccursAt(s, sep, i.value))
    && forall j: nat | OccursAt(s, sep, j) :: i.Some? && i.value <= j
  }

  lemma {:induction false} FindIsFirst(s: string, sep: string, i: Option<nat>)
    requires sep != ""
    ensures Find(s, sep) == i <==> IsFirst(s, sep, i)
  {
    FindIsAFirst(s, sep);
  }

  lemma {:induction false} FindIsAFirst(s: string, sep: string)
    requires sep != ""
    ensures IsFirst(s, sep, Find(s, sep))
  {
    if sep <= s {
      assert OccursAt(s, sep, 0);
    } else if s != "" {
      FindIsAFirst(s[1..], sep);
      forall j: nat | j < |s|
        ensures OccursAt(s[1..], sep, j) == OccursAt(s, sep, j + 1)
      {
        OccursInTail(s, sep, j);
      }
      assert !OccursAt(s, sep, 0);
      assert forall j: nat | OccursAt(s, sep, j) :: j > 0 && OccursAt(s[1..], sep, j - 1);
    }
  }

  lemma OccursInTail(s: string, sep: string, j: nat)
    requires s != "" && sep != ""
    ensures OccursAt(s[1..], sep, j) == OccursAt(s, sep, j + 1)
  {
    if j + 1 + |sep| <= |s| {
      assert s[1..][j..j + |sep|] == s[j + 1..j + 1 + |sep|];
    }
  }

  /** s.split(sep): cut at the leftmost separator, then go on behind it. */
  function Split(s: string, sep: string): (parts: seq<string>)
    requires sep != ""
    ensures parts != []
    decreases |s|
  {
    match Find(s, sep)
    case None => [s]
    case Some(i) => [s[..i]] + Split(s[i + |sep|..], sep)
  }

  function Init<T>(s: seq<T>): seq<T>
    requires s != []
  {
    s[..|s| - 1]
  }

  function Last<T>(s: seq<T>): T
    requires s != []
  {
    s[|s| - 1]
  }

  function Join(parts: seq<string>, sep: string): string {
    if parts == [] then ""
    else if |parts| == 1 then parts[0]
    else parts[0] + sep + Join(parts[1..], sep)
  }

  function Concat(parts: seq<string>): string {
    if parts == [] then "" else Concat(parts[..|parts| - 1]) + parts[|parts| - 1]
  }

  /** Nothing is lost or moved by splitting. */
  lemma {:induction false} JoinSplit(s: string, sep: string)
    requires sep != ""
    ensures Join(Split(s, sep), sep) == s
    decreases |s|
  {
    match Find(s, sep)
    case None =>
    case Some(i) =>
      JoinSplit(s[i + |sep|..], sep);
      FindIsFirst(s, sep, Some(i));
      assert s == s[..i] + sep + s[i + |sep|..];
      assert Split(s, sep)[1..] == Split(s[i + |sep|..], sep);
  }

  lemma {:induction false} LastPartHasNoSeparator(s: string, sep: string)
    requires sep != ""
    ensures Find(Last(Split(s, sep)), sep) == None
    decreases |s|
  {
    match Find(s, sep)
    case None =>
    case Some(i) =>
      LastPartHasNoSeparator(s[i + |sep|..], sep);
  }

  /** Text that arrives later does not change where the first separator is. */
  lemma {:induction false} FindInExtension(a: string, b: string, sep: string)
    requires sep != "" && Find(a, sep).Some?
    ensures Find(a + b, sep) == Find(a, sep)
  {
    var i := Find(a, sep).value;
    FindIsFirst(a, sep, Some(i));
    OccursInExtension(a, b, sep, i);
    forall j: nat | OccursAt(a + b, sep, j) && j < i
      ensures OccursAt(a, sep, j)
    {
      OccursInExtension(a, b, sep, j);
    }
    FindIsFirst(a + b, sep, Some(i));
  }

  lemma OccursInExtension(a: string, b: string, sep: string, i: nat)
    requires i + |sep| <= |a|
    ensures OccursAt(a + b, sep, i) == OccursAt(a, sep, i)
  {
    assert (a + b)[i..i + |sep|] == a[i..i + |sep|];
  }

  /** Splitting text in two instalments, carrying the unfinished last part over, gives the parts of
      the whole text. */
  lemma {:induction false} SplitInInstalments(a: string, b: string, sep: string)
    requires sep != ""
    ensures Split(a + b, sep) == Init(Split(a, sep)) + Split(Last(Split(a, sep)) + b, sep)
    decreases |a|
  {
    match Find(a, sep)
    case None =>
    case Some(i) =>
      var x, rest := a[..i], a[i + |sep|..];
      FindInExtension(a, b, sep);
      SliceExtension(a, b, i, i + |sep|);
      CutOff(a, sep, i, x, rest);
      CutOff(a + b, sep, i, x, rest + b);
      SplitInInstalments(rest, b, sep);
      PutInFront(x, Split(rest, sep), Split(Last(Split(rest, sep)) + b, sep));
  }

  lemma {:induction false} CutOff(s: string, sep: string, i: nat, x: string, rest: string)
    requires sep != "" && Find(s, sep) == Some(i)
    requires x == s[..i] && rest == s[i + |sep|..]
    ensures Split(s, sep) == [x] + Split(rest, sep)
  {
  }

  lemma SliceExtension(a: string, b: string, i: nat, j: nat)
    requires i <= j <= |a|
    ensures (a + b)[..i] == a[..i] && (a + b)[j..] == a[j..] + b
  {
  }

  lemma PutInFront<T>(x: T, s: seq<T>, t: seq<T>)
    requires s != []
    ensures Last([x] + s) == Last(s)
    ensures Init([x] + s) + t == [x] + (Init(s) + t)
  {
  }

  // ------------------------------------------------------------------------------- white space

  /** WhiteSpace and LineTerminator of ECMAScript, which String.prototype.trim removes. */
  predicate IsSpace(c: char) {
    var n := c as int;
    || 9 <= n <= 13 || n == 32 || n == 0xA0 || n == 0x1680 || 0x2000 <= n <= 0x200A
    || n == 0x2028 || n == 0x2029 || n == 0x202F || n == 0x205F || n == 0x3000 || n == 0xFEFF
  }

  function TrimStart(s: string): string {
    if s != "" && IsSpace(s[0]) then TrimStart(s[1..]) else s
  }

  function TrimEnd(s: string): (r: string)
    ensures r <= s
  {
    if s != "" && IsSpace(s[|s| - 1]) then TrimEnd(s[..|s| - 1]) else s
  }

  function Trim(s: string): string {
    TrimEnd(TrimStart(s))
  }

  predicate IsTrimmed(s: string) {
    s == "" || (!IsSpace(s[0]) && !IsSpace(s[|s| - 1]))
  }

  lemma {:induction false} TrimEndKeepsHead(head: string, tail: string)
    requires head != "" && !IsSpace(head[|head| - 1])
    ensures TrimEnd(head + tail) == head + TrimEnd(tail)
    decreases |tail|
  {
    if tail == "" {
      assert head + tail == head;
    } else if IsSpace(tail[|tail| - 1]) {
      assert (head + tail)[..|head + tail| - 1] == head + tail[..|tail| - 1];
      TrimEndKeepsHead(head, tail[..|tail| - 1]);
    }
  }

  lemma {:induction false} TrimEndOfSpaces(s: string)
    requires forall c | c in s :: IsSpace(c)
    ensures TrimEnd(s) == "" && TrimStart(s) == ""
    decreases |s|
  {
    if s != "" {
      TrimEndOfSpaces(s[..|s| - 1]);
      TrimEndOfSpaces(s[1..]);
    }
  }

  lemma {:induction false} TrimEndTwice(s: string)
    ensures TrimEnd(TrimEnd(s)) == TrimEnd(s)
    decreases |s|
  {
    if s != "" && IsSpace(s[|s| - 1]) {
      TrimEndTwice(s[..|s| - 1]);
    }
  }

  lemma {:induction false} TrimsCommute(s: string)
    ensures TrimStart(TrimEnd(s)) == TrimEnd(TrimStart(s))
    decreases |s|
  {
    if s == "" {
    } else if !IsSpace(s[0]) {
      assert s == s[..1] + s[1..];
      TrimEndKeepsHead(s[..1], s[1..]);
    } else if i :| 0 <= i < |s| && !IsSpace(s[i]) {
      var head, tail := s[..i + 1], s[i + 1..];
      assert s == head + tail && s[1..] == head[1..] + tail;
      TrimEndKeepsHead(head, tail);
      TrimEndKeepsHead(head[1..], tail);
      assert (head + TrimEnd(tail))[1..] == head[1..] + TrimEnd(tail);
      TrimsCommute(s[1..]);
    } else {
      TrimEndOfSpaces(s);
    }
  }

  lemma TrimAfterTrimEnd(s: string)
    ensures Trim(TrimEnd(s)) == Trim(s)
  {
    TrimsCommute(s);
    TrimEndTwice(TrimStart(s));
  }

  lemma TrimOfTrimmed(s: string)
    requires IsTrimmed(s)
    ensures Trim(s) == s && Trim(" " + s) == s
  {
    assert (" " + s)[1..] == s;
  }

  lemma {:induction false} TrimStartShortens(s: string)
    ensures |TrimStart(s)| <= |s|
    ensures |TrimStart(s)| == |s| <==> s == "" || !IsSpace(s[0])
  {
    if s != "" && IsSpace(s[0]) {
      TrimStartShortens(s[1..]);
    }
  }

  lemma {:induction false} TrimEndShortens(s: string)
    ensures |TrimEnd(s)| == |s| <==> s == "" || !IsSpace(s[|s| - 1])
  {
    if s != "" && IsSpace(s[|s| - 1]) {
      assert TrimEnd(s) <= s[..|s| - 1];
    }
  }

  /** Trimming keeps a string, and its length, exactly when it is trimmed. */
  lemma TrimShortens(s: string)
    ensures |Trim(s)| <= |s|
    ensures |Trim(s)| == |s| <==> IsTrimmed(s)
    ensures IsTrimmed(s) ==> Trim(s) == s
  {
    TrimStartShortens(s);
    TrimEndShortens(TrimStart(s));
  }

  lemma TrimAfterSpace(s: string)
    ensures Trim(" " + s) == Trim(s)
  {
    assert (" " + s)[1..] == s;
  }
}
