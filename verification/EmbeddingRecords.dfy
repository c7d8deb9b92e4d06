/** What an embedding job records about how it ended, from the provider's replies alone. */
module EmbeddingRecords {
  import opened Prelude
  import opened EmbeddingJob

  // ----------------------------------------------------------------------- how an attempt ends

  /** The chunks to embed, cut into batches. */
  function Cut(todo: seq<nat>, size: BatchSize): seq<seq<nat>> {
    if todo == [] then []
    else if |todo| <= size then [todo]
    else [todo[..size]] + Cut(todo[size..], size)
  }

  /** The batches of an attempt on that database. */
  function BatchesOf(db: Db, a: Attempt): seq<seq<nat>> {
    Cut(Todo(db.chunks, a.model), a.batchSize)
  }

  /** Batch k of b, which gets reply number n + k, is answered with one vector for each text. */
  predicate IsInFull(b: seq<seq<nat>>, n: nat, a: Attempt, k: int) {
    0 <= k < |b| && a.reply(n + k).Vectors? && |a.reply(n + k).vectors| == |b[k]|
  }

  /** Batch k is the first that is not answered in full. */
  ghost predicate IsFirstBad(b: seq<seq<nat>>, n: nat, a: Attempt, k: int) {
    0 <= k < |b| && !IsInFull(b, n, a, k) && forall m | 0 <= m < k :: IsInFull(b, n, a, m)
  }

  ghost predicate AllInFull(b: seq<seq<nat>>, n: nat, a: Attempt) {
    forall k | 0 <= k < |b| :: IsInFull(b, n, a, k)
  }

  /** The first batch that is not answered in full raises code, or has the wrong number of vectors. */
  ghost predicate FailsWith(b: seq<seq<nat>>, n: nat, a: Attempt, code: string) {
    exists k :: IsFirstBad(b, n, a, k) && FailsAt(a, n + k, code)
  }

  predicate FailsAt(a: Attempt, n: int, code: string) {
    n >= 0 &&
    match a.reply(n)
    case EmbedRaises(c) => code == c
    case Vectors(_) => code == INTERNAL_ERROR
    case Killed => false
  }

  /** The process is killed in the first batch that is not answered in full, or after the last one. */
  ghost predicate IsKilled(b: seq<seq<nat>>, n: nat, a: Attempt) {
    || (exists k :: IsFirstBad(b, n, a, k) && a.reply(n + k).Killed?)
    || (AllInFull(b, n, a) && a.reply(n + |b|).Killed?)
  }

  ghost predicate IsFinished(b: seq<seq<nat>>, n: nat, a: Attempt) {
    AllInFull(b, n, a) && !a.reply(n + |b|).Killed?
  }

  /** Nothing is lost or changed by cutting, and every batch but the last is full. */
  lemma {:induction false} CutIsExact(todo: seq<nat>, size: BatchSize)
    ensures Flatten(Cut(todo, size)) == todo
    ensures forall k | 0 <= k < |Cut(todo, size)| :: 0 < |Cut(todo, size)[k]| <= size
    ensures forall k | 0 <= k < |Cut(todo, size)| - 1 :: |Cut(todo, size)[k]| == size
    decreases |todo|
  {
    if todo != [] {
      if |todo| <= size {
        assert Flatten([]) == [] && [todo][1..] == [];
      } else {
        CutIsExact(todo[size..], size);
        assert Cut(todo, size)[1..] == Cut(todo[size..], size);
        assert todo == todo[..size] + todo[size..];
      }
    }
  }

  lemma FirstBadIsUnique(b: seq<seq<nat>>, n: nat, a: Attempt, k: int, m: int)
    requires IsFirstBad(b, n, a, k) && IsFirstBad(b, n, a, m)
    ensures k == m
  {
  }

  /** Skipping a batch that is answered in full. */
  lemma NextBatch(b: seq<seq<nat>>, n: nat, a: Attempt, k: int)
    requires b != [] && IsInFull(b, n, a, 0)
    ensures IsFirstBad(b, n, a, k) <==> IsFirstBad(b[1..], n + 1, a, k - 1)
  {
    var rest, n' := b[1..], n + 1;
    forall m | 0 < m < |b|
      ensures IsInFull(b, n, a, m) == IsInFull(rest, n', a, m - 1)
    {
      assert rest[m - 1] == b[m];
    }
    if IsFirstBad(b, n, a, k) {
      forall m | 0 <= m < k - 1
        ensures IsInFull(rest, n', a, m)
      {
        assert IsInFull(b, n, a, m + 1);
      }
    }
  }

  lemma RestInFull(b: seq<seq<nat>>, n: nat, a: Attempt)
    requires b != [] && IsInFull(b, n, a, 0)
    ensures AllInFull(b, n, a) <==> AllInFull(b[1..], n + 1, a)
  {
    var rest, n' := b[1..], n + 1;
    if AllInFull(b, n, a) {
      forall k | 0 <= k < |rest|
        ensures IsInFull(rest, n', a, k)
      {
        assert IsInFull(b, n, a, k + 1) && rest[k] == b[k + 1];
      }
    }
    if AllInFull(rest, n', a) {
      forall k | 0 < k < |b|
        ensures IsInFull(b, n, a, k)
      {
        assert IsInFull(rest, n', a, k - 1) && rest[k - 1] == b[k];
      }
    }
  }

  lemma EndsLater(b: seq<seq<nat>>, n: nat, a: Attempt)
    requires b != [] && IsInFull(b, n, a, 0)
    ensures forall code :: FailsWith(b, n, a, code) <==> FailsWith(b[1..], n + 1, a, code)
    ensures IsKilled(b, n, a) <==> IsKilled(b[1..], n + 1, a)
    ensures IsFinished(b, n, a) <==> IsFinished(b[1..], n + 1, a)
  {
    var rest, n' := b[1..], n + 1;
    RestInFull(b, n, a);
    forall k
      ensures IsFirstBad(b, n, a, k) <==> IsFirstBad(rest, n', a, k - 1)
    {
      NextBatch(b, n, a, k);
    }
    forall k | IsFirstBad(rest, n', a, k)
      ensures exists m :: m == k + 1 && IsFirstBad(b, n, a, m)
    {
      NextBatch(b, n, a, k + 1);
    }
  }

  lemma EndsHere(b: seq<seq<nat>>, n: nat, a: Attempt)
    requires b != [] && !IsInFull(b, n, a, 0)
    ensures forall code :: FailsWith(b, n, a, code) <==> FailsAt(a, n, code)
    ensures IsKilled(b, n, a) <==> a.reply(n).Killed?
    ensures !IsFinished(b, n, a)
  {
    assert IsFirstBad(b, n, a, 0);
    forall k | IsFirstBad(b, n, a, k)
      ensures k == 0
    {
      FirstBadIsUnique(b, n, a, k, 0);
    }
  }

  // ---------------------------------------------------------------------------- what is recorded

  /** Job and document have that status, and the job that error code. */
  ghost predicate Records(db: Db, status: Status, code: Option<string>) {
    && db.job.Some? && db.job.value.status == status && db.job.value.errorCode == code
    && db.documentStatus == Some(status)
  }

  ghost predicate EndsAs(b: seq<seq<nat>>, n: nat, a: Attempt, after: Db, result: Result) {
    && (forall code | FailsWith(b, n, a, code) :: result == Fails(code) && Records(after, Failed, Some(code)))
    && (IsKilled(b, n, a) ==> result == Dies && Records(after, Processing, None))
    && (IsFinished(b, n, a) ==> result == Succeeds && Records(after, Completed, None))
  }

  lemma {:induction false} BatchesEndAs(committed: Db, current: Db, todo: seq<nat>, n: nat, a: Attempt)
    requires forall i | 0 <= i < |todo| :: todo[i] < |current.chunks|
    requires Records(committed, Processing, None) && Records(current, Processing, None)
    ensures
      var (after, result) := Batches(committed, current, todo, n, a);
      EndsAs(Cut(todo, a.batchSize), n, a, after, result)
    decreases |todo|
  {
    var b := Cut(todo, a.batchSize);
    if todo != [] {
      if IsInFull(b, n, a, 0) {
        EndsLater(b, n, a);
        var next := AfterBatch(current, Head(todo, a.batchSize), a.reply(n).vectors, a);
        assert b[1..] == Cut(Tail(todo, a.batchSize), a.batchSize);
        BatchesEndAs(next, next, Tail(todo, a.batchSize), n + 1, a);
      } else {
        EndsHere(b, n, a);
      }
    }
  }

  /** Exactly one of the three. */
  lemma OneEnd(b: seq<seq<nat>>, n: nat, a: Attempt)
    ensures (exists code :: FailsWith(b, n, a, code)) || IsKilled(b, n, a) || IsFinished(b, n, a)
  {
    if !AllInFull(b, n, a) {
      var k := FirstBad(b, n, a);
      match a.reply(n + k)
      case EmbedRaises(code) => assert FailsWith(b, n, a, code);
      case Vectors(_) => assert FailsWith(b, n, a, INTERNAL_ERROR);
      case Killed =>
    }
  }

  lemma {:induction false} FirstBad(b: seq<seq<nat>>, n: nat, a: Attempt) returns (k: nat)
    requires !AllInFull(b, n, a)
    ensures IsFirstBad(b, n, a, k)
  {
    k := 0;
    while IsInFull(b, n, a, k)
      invariant 0 <= k < |b| && forall m | 0 <= m < k :: IsInFull(b, n, a, m)
      decreases |b| - k
    {
      assert exists m :: 0 <= m < |b| && !IsInFull(b, n, a, m);
      k := k + 1;
    }
  }

  /** How an accepted attempt ends, and what it records: it fails with code if and only if the first
      batch that is not answered in full raises that code, or has the wrong number of vectors and the
      code is INTERNAL_ERROR; it dies if and only if it is killed there or after the last batch; and it
      succeeds otherwise.  Job and document get the same status, and the job the code. */
  lemma AttemptRecords(before: Db, a: Attempt)
    requires Accepts(before, a)
    ensures
      var (after, result) := Process(before, a);
      var b := BatchesOf(before, a);
      && (forall code :: result == Fails(code) <==> FailsWith(b, 0, a, code))
      && (result == Dies <==> IsKilled(b, 0, a))
      && (result == Succeeds <==> IsFinished(b, 0, a))
      && EndsAs(b, 0, a, after, result)
      && after.job.Some?
      && after.job.value.attempts == 1 + (if before.job.Some? then before.job.value.attempts else 0)
      && after.job.value.totalChunks == |before.chunks| && after.job.value.model == a.model
  {
    var begun, todo := Begin(before, a), Todo(before.chunks, a.model);
    BatchesEndAs(begun, Progress(begun, |before.chunks| - |todo|), todo, 0, a);
    OneEnd(BatchesOf(before, a), 0, a);
    RestOfJobStays(begun, Progress(begun, |before.chunks| - |todo|), todo, 0, a);
  }

  /** The parts of a job that batches leave alone. */
  predicate SameJob(db: Db, db': Db) {
    && db.job.Some? && db'.job.Some?
    && db'.job.value.attempts == db.job.value.attempts
    && db'.job.value.totalChunks == db.job.value.totalChunks
    && db'.job.value.model == db.job.value.model
  }

  lemma {:induction false} RestOfJobStays(committed: Db, current: Db, todo: seq<nat>, n: nat, a: Attempt)
    requires forall i | 0 <= i < |todo| :: todo[i] < |current.chunks|
    requires SameJob(current, committed)
    ensures SameJob(current, Batches(committed, current, todo, n, a).0)
    decreases |todo|
  {
    if todo != [] && a.reply(n).Vectors? && |a.reply(n).vectors| == |Head(todo, a.batchSize)| {
      var next := AfterBatch(current, Head(todo, a.batchSize), a.reply(n).vectors, a);
      RestOfJobStays(next, next, Tail(todo, a.batchSize), n + 1, a);
    }
  }

  /** Which attempts are refused, with which code; a refused attempt changes nothing. */
  lemma RefusalsChangeNothing(before: Db, a: Attempt)
    ensures
      var (after, result) := Process(before, a);
      && (result.Refuses? <==> !a.ready || before.chunks == [] || |before.chunks| > a.maxChunks)
      && (result.Refuses? ==> after == before)
      && (!a.ready ==> result == Refuses("DOCUMENT_NOT_READY"))
      && (a.ready && before.chunks == [] ==> result == Refuses("NO_CHUNKS_FOUND"))
      && (a.ready && before.chunks != [] && |before.chunks| > a.maxChunks ==> result == Refuses("TOO_MANY_CHUNKS"))
  {
    if Accepts(before, a) {
      AttemptRecords(before, a);
      OneEnd(BatchesOf(before, a), 0, a);
    }
  }

  // ------------------------------------------------------------------------------ whole histories

  /** Attempt i is the last before number n that is accepted. */
  ghost predicate IsLastAccepted(db: Db, attempts: seq<Attempt>, i: int, n: int) {
    i < n && AcceptedAt(db, attempts, i) && forall j | i < j < n :: !AcceptedAt(db, attempts, j)
  }

  /** Job and document stand as attempt i left them. */
  ghost predicate StandsAs(db: Db, attempts: seq<Attempt>, i: int, now: Db)
    requires AcceptedAt(db, attempts, i)
  {
    var a, b := attempts[i], BatchesOf(History(db, attempts[..i]), attempts[i]);
    && now.job.Some? && now.documentStatus == Some(now.job.value.status)
    && (now.job.value.status == Failed <==> exists code :: FailsWith(b, 0, a, code))
    && (now.job.value.status == Processing <==> IsKilled(b, 0, a))
    && (now.job.value.status == Completed <==> IsFinished(b, 0, a))
    && (forall code :: now.job.value.errorCode == Some(code) <==> FailsWith(b, 0, a, code))
  }

  lemma AttemptStands(before: Db, a: Attempt)
    requires Accepts(before, a)
    ensures
      var now, b := Process(before, a).0, BatchesOf(before, a);
      && now.job.Some? && now.documentStatus == Some(now.job.value.status)
      && (now.job.value.status == Failed <==> exists code :: FailsWith(b, 0, a, code))
      && (now.job.value.status == Processing <==> IsKilled(b, 0, a))
      && (now.job.value.status == Completed <==> IsFinished(b, 0, a))
      && (forall code :: now.job.value.errorCode == Some(code) <==> FailsWith(b, 0, a, code))
  {
    AttemptRecords(before, a);
    OneEnd(BatchesOf(before, a), 0, a);
  }

  lemma {:induction false} HistoryStands(db: Db, attempts: seq<Attempt>, n: nat)
    requires db.job == None && n <= |attempts|
    ensures
      var now := History(db, attempts[..n]);
      && (now.job == None <==> forall i | 0 <= i < n :: !AcceptedAt(db, attempts, i))
      && (forall i | IsLastAccepted(db, attempts, i, n) :: StandsAs(db, attempts, i, now))
    decreases n
  {
    if n == 0 {
      assert attempts[..0] == [];
    } else {
      HistoryStands(db, attempts, n - 1);
      OneMoreStands(db, attempts, n - 1);
    }
  }

  lemma OneMoreStands(db: Db, attempts: seq<Attempt>, m: nat)
    requires m < |attempts|
    requires
      var now := History(db, attempts[..m]);
      && (now.job == None <==> forall i | 0 <= i < m :: !AcceptedAt(db, attempts, i))
      && (forall i | IsLastAccepted(db, attempts, i, m) :: StandsAs(db, attempts, i, now))
    ensures
      var now := History(db, attempts[..m + 1]);
      && (now.job == None <==> forall i | 0 <= i < m + 1 :: !AcceptedAt(db, attempts, i))
      && (forall i | IsLastAccepted(db, attempts, i, m + 1) :: StandsAs(db, attempts, i, now))
  {
    var before, a, n := History(db, attempts[..m]), attempts[m], m + 1;
    assert attempts[..m + 1][..m] == attempts[..m];
    assert History(db, attempts[..m + 1]) == Process(before, a).0;
    assert AcceptedAt(db, attempts, m) == Accepts(before, a);
    if Accepts(before, a) {
      AttemptStands(before, a);
      assert forall i | IsLastAccepted(db, attempts, i, n) :: i == m;
    } else {
      RefusalsChangeNothing(before, a);
      assert forall i | IsLastAccepted(db, attempts, i, n) :: IsLastAccepted(db, attempts, i, m);
    }
  }

  /** What a history leaves on record, with any models and batch sizes: a job exactly if some attempt
      was accepted; and its status, the document's and the error code are those of the last accepted
      attempt: Failed with code if and only if that attempt's first batch that was not answered in full
      raised code or had the wrong number of vectors, Processing if and only if it was killed, and
      Completed otherwise. */
  lemma {:induction false} HistoryRecords(db: Db, attempts: seq<Attempt>)
    requires db.job == None
    ensures History(db, attempts).job == None <==> forall i | 0 <= i < |attempts| :: !AcceptedAt(db, attempts, i)
    ensures forall i | IsLastAccepted(db, attempts, i, |attempts|) ::
      StandsAs(db, attempts, i, History(db, attempts))
  {
    HistoryStands(db, attempts, |attempts|);
    assert attempts[..|attempts|] == attempts;
  }
}
