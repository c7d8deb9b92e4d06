/** EmbeddingService.process_document_embeddings: a batched job that commits after every batch, can
    fail or be killed at any point, and is resumed by running it again.

    The document version and its chunks are given.  A commit itself succeeds; a killed process leaves
    what was committed last. */
module EmbeddingJob {
  import opened Prelude

  type Vector = seq<real>
  type Model = string

  /** Settings validation refuses batch sizes below one. */
  type BatchSize = n: nat | 1 <= n witness 1

  datatype Chunk = Chunk(content: string, embedding: Option<Vector>, model: Option<Model>)

  datatype Status = Processing | Completed | Failed

  datatype Job = Job(
    status: Status,
    attempts: nat,
    totalChunks: nat,
    processedChunks: nat,
    model: Model,
    errorCode: Option<string>)

  /** What the session sees: the chunks in order, the job row and the document's embedding status. */
  datatype Db = Db(chunks: seq<Chunk>, job: Option<Job>, documentStatus: Option<Status>)

  /** What happens when a batch is embedded. */
  datatype Reply =
    | Vectors(vectors: seq<Vector>)
    | EmbedRaises(code: string)
    | Killed

  datatype Result =
    | Succeeds
    | Fails(code: string)
    | Dies
    | Refuses(code: string)

  /** An attempt: the provider's model, the configured batch size and chunk limit, whether the
      document is READY, and the reply to each batch.  The reply after the last batch only matters if
      the process is killed before the job is finalized. */
  datatype Attempt = Attempt(
    model: Model,
    batchSize: BatchSize,
    maxChunks: nat,
    ready: bool,
    reply: nat -> Reply)

  const INTERNAL_ERROR := "INTERNAL_ERROR"

  predicate IsEmbedded(c: Chunk, model: Model) {
    c.embedding.Some? && c.model == Some(model)
  }

  /** The chunks still to embed, in order. */
  function Todo(chunks: seq<Chunk>, model: Model): (todo: seq<nat>)
    ensures forall i | 0 <= i < |todo| :: todo[i] < |chunks| && !IsEmbedded(chunks[todo[i]], model)
    ensures forall i, j | 0 <= i < j < |todo| :: todo[i] < todo[j]
    ensures |todo| <= |chunks|
    ensures forall k: nat | k < |chunks| && !IsEmbedded(chunks[k], model) :: k in todo
  {
    if chunks == [] then []
    else
      var n := |chunks| - 1;
      var rest := Todo(chunks[..n], model);
      if IsEmbedded(chunks[n], model) then rest else rest + [n]
  }

  /** zip(batch, vectors): pairs are stored until one side runs out. */
  function Assign(chunks: seq<Chunk>, batch: seq<nat>, vectors: seq<Vector>, model: Model): (chunks': seq<Chunk>)
    requires forall i | 0 <= i < |batch| :: batch[i] < |chunks|
    ensures |chunks'| == |chunks|
    decreases |batch|
  {
    if batch == [] || vectors == [] then chunks
    else
      Assign(chunks[batch[0] := chunks[batch[0]].(embedding := Some(vectors[0]), model := Some(model))],
             batch[1..], vectors[1..], model)
  }

  function Begin(db: Db, a: Attempt): Db {
    var job := match db.job
      case None => Job(Processing, 1, |db.chunks|, 0, a.model, None)
      case Some(j) => Job(Processing, j.attempts + 1, |db.chunks|, j.processedChunks, a.model, None);
    db.(job := Some(job), documentStatus := Some(Processing))
  }

  function Progress(db: Db, processed: nat): Db {
    match db.job
    case None => db
    case Some(j) => db.(job := Some(j.(processedChunks := processed)))
  }

  function Processed(db: Db): nat {
    if db.job.Some? then db.job.value.processedChunks else 0
  }

  function Finalize(db: Db): Db {
    match db.job
    case None => db
    case Some(j) => db.(job := Some(j.(status := Completed)), documentStatus := Some(Completed))
  }

  function Fail(db: Db, code: string): Db {
    match db.job
    case None => db
    case Some(j) => db.(job := Some(j.(status := Failed, errorCode := Some(code))), documentStatus := Some(Failed))
  }

  function Head(todo: seq<nat>, size: BatchSize): seq<nat> {
    if |todo| <= size then todo else todo[..size]
  }

  function Tail(todo: seq<nat>, size: BatchSize): seq<nat> {
    if |todo| <= size then [] else todo[size..]
  }

  function AfterBatch(current: Db, batch: seq<nat>, vectors: seq<Vector>, a: Attempt): Db
    requires forall i | 0 <= i < |batch| :: batch[i] < |current.chunks|
  {
    Progress(current.(chunks := Assign(current.chunks, batch, vectors, a.model)), Processed(current) + |batch|)
  }

  /** The batches from number n on.  committed is what a killed process leaves behind. */
  function Batches(committed: Db, current: Db, todo: seq<nat>, n: nat, a: Attempt): (r: (Db, Result))
    requires forall i | 0 <= i < |todo| :: todo[i] < |current.chunks|
    decreases |todo|
  {
    if todo == [] then
      if a.reply(n).Killed? then (committed, Dies) else (Finalize(current), Succeeds)
    else
      var batch := Head(todo, a.batchSize);
      match a.reply(n)
      case Killed => (committed, Dies)
      case EmbedRaises(code) => (Fail(current, code), Fails(code))
      case Vectors(vectors) =>
        var stored := current.(chunks := Assign(current.chunks, batch, vectors, a.model));
        if |vectors| != |batch| then (Fail(stored, INTERNAL_ERROR), Fails(INTERNAL_ERROR))
        else
          var next := AfterBatch(current, batch, vectors, a);
          Batches(next, next, Tail(todo, a.batchSize), n + 1, a)
  }

  /** The numbers of the chunks sent to the provider, batch by batch. */
  function Sent(todo: seq<nat>, n: nat, a: Attempt): seq<seq<nat>>
    decreases |todo|
  {
    if todo == [] || a.reply(n).Killed? then []
    else
      var batch := Head(todo, a.batchSize);
      if a.reply(n).Vectors? && |a.reply(n).vectors| == |batch|
      then [batch] + Sent(Tail(todo, a.batchSize), n + 1, a)
      else [batch]
  }

  predicate Accepts(db: Db, a: Attempt) {
    a.ready && db.chunks != [] && |db.chunks| <= a.maxChunks
  }

  /** One call, and what the database holds afterwards. */
  function Process(db: Db, a: Attempt): (Db, Result) {
    if !a.ready then (db, Refuses("DOCUMENT_NOT_READY"))
    else if db.chunks == [] then (db, Refuses("NO_CHUNKS_FOUND"))
    else if |db.chunks| > a.maxChunks then (db, Refuses("TOO_MANY_CHUNKS"))
    else
      var begun := Begin(db, a);
      var todo := Todo(db.chunks, a.model);
      Batches(begun, Progress(begun, |db.chunks| - |todo|), todo, 0, a)
  }

  function SentBy(db: Db, a: Attempt): seq<seq<nat>> {
    if Accepts(db, a) then Sent(Todo(db.chunks, a.model), 0, a) else []
  }

  // -------------------------------------------------------------------------------- the service

  /** An ORM session over the database: attributes are assigned on current and become durable with
      Commit. */
  class Session {
    var current: Db
    var committed: Db

    constructor (db: Db)
      ensures current == db && committed == db
    {
      current, committed := db, db;
    }

    method Commit()
      modifies this`committed
      ensures committed == current
    {
      committed := current;
    }

    method HandleFailure(code: string)
      modifies this
      ensures committed == Fail(old(current), code)
    {
      current := Fail(current, code);
      Commit();
    }

    /** Persist vectors to chunks; ok is false when the strict zip finds different lengths. */
    method StoreVectors(batch: seq<nat>, vectors: seq<Vector>, model: Model) returns (ok: bool)
      requires forall i | 0 <= i < |batch| :: batch[i] < |current.chunks|
      modifies this`current
      ensures current == old(current).(chunks := Assign(old(current.chunks), batch, vectors, model))
      ensures ok <==> |batch| == |vectors|
    {
      var i := 0;
      while i < |batch| && i < |vectors|
        invariant 0 <= i <= |batch| && i <= |vectors|
        invariant |current.chunks| == old(|current.chunks|)
        invariant current == old(current).(chunks := current.chunks)
        invariant Assign(current.chunks, batch[i..], vectors[i..], model)
               == Assign(old(current.chunks), batch, vectors, model)
      {
        assert batch[i..][1..] == batch[i + 1..] && vectors[i..][1..] == vectors[i + 1..];
        var chunk := current.chunks[batch[i]];
        current := current.(chunks := current.chunks[batch[i] :=
          chunk.(embedding := Some(vectors[i]), model := Some(model))]);
        i := i + 1;
      }
      return i == |batch| && i == |vectors|;
    }

    /** The batch loop and the finalization. */
    method RunBatches(todo: seq<nat>, a: Attempt) returns (result: Result)
      requires forall i | 0 <= i < |todo| :: todo[i] < |current.chunks|
      modifies this
      ensures (committed, result) == Batches(old(committed), old(current), todo, 0, a)
    {
      var i, n := 0, 0;
      while i < |todo|
        invariant 0 <= i <= |todo|
        invariant forall k | 0 <= k < |todo| :: todo[k] < |current.chunks|
        invariant Batches(committed, current, todo[i..], n, a) == Batches(old(committed), old(current), todo, 0, a)
      {
        var batch := Head(todo[i..], a.batchSize);
        assert Tail(todo[i..], a.batchSize) == todo[i + |batch|..];
        match a.reply(n)
        case Killed =>
          return Dies;
        case EmbedRaises(code) =>
          HandleFailure(code);
          return Fails(code);
        case Vectors(vectors) =>
          var ok := StoreVectors(batch, vectors, a.model);
          if !ok {
            HandleFailure(INTERNAL_ERROR);
            return Fails(INTERNAL_ERROR);
          }
          current := Progress(current, Processed(current) + |batch|);
          Commit();
        i, n := i + |batch|, n + 1;
      }
      if a.reply(n).Killed? {
        return Dies;
      }
      current := Finalize(current);
      Commit();
      return Succeeds;
    }

    /** process_document_embeddings, with committed as the durable result. */
    method ProcessDocumentEmbeddings(a: Attempt) returns (result: Result)
      requires current == committed
      modifies this
      ensures (committed, result) == Process(old(committed), a)
    {
      if !a.ready {
        return Refuses("DOCUMENT_NOT_READY");
      }
      if current.chunks == [] {
        return Refuses("NO_CHUNKS_FOUND");
      }
      if |current.chunks| > a.maxChunks {
        return Refuses("TOO_MANY_CHUNKS");
      }
      ghost var before := current;
      current := Begin(current, a);
      Commit();
      var todo := Todo(current.chunks, a.model);
      current := Progress(current, |current.chunks| - |todo|);
      assert Process(before, a) == Batches(committed, current, todo, 0, a);
      result := RunBatches(todo, a);
    }
  }

  // ------------------------------------------------------------------- what one attempt leaves

  ghost function Done(chunks: seq<Chunk>, model: Model): set<nat> {
    set k: nat | k < |chunks| && IsEmbedded(chunks[k], model)
  }

  ghost function Members(s: seq<nat>): set<nat> {
    set k | k in s
  }

  ghost predicate Ascending(s: seq<nat>) {
    forall i, j | 0 <= i < j < |s| :: s[i] < s[j]
  }

  /** chunks' has the embeddings of chunks with this model unchanged, and possibly more. */
  ghost predicate Keeps(chunks: seq<Chunk>, chunks': seq<Chunk>, model: Model) {
    && |chunks'| == |chunks|
    && forall k | 0 <= k < |chunks| && IsEmbedded(chunks[k], model) :: chunks'[k] == chunks[k]
  }

  lemma {:induction false} AssignEmbeds(chunks: seq<Chunk>, batch: seq<nat>, vectors: seq<Vector>, model: Model)
    requires forall i | 0 <= i < |batch| :: batch[i] < |chunks|
    ensures
      var n := Min(|batch|, |vectors|);
      Done(Assign(chunks, batch, vectors, model), model) == Done(chunks, model) + Members(batch[..n])
    decreases |batch|
  {
    if batch != [] && vectors != [] {
      var n := Min(|batch|, |vectors|);
      var chunks1 := chunks[batch[0] := chunks[batch[0]].(embedding := Some(vectors[0]), model := Some(model))];
      AssignEmbeds(chunks1, batch[1..], vectors[1..], model);
      assert Done(chunks1, model) == Done(chunks, model) + {batch[0]};
      assert batch[..n] == [batch[0]] + batch[1..][..n - 1];
    }
  }

  lemma {:induction false} AssignKeeps(chunks: seq<Chunk>, batch: seq<nat>, vectors: seq<Vector>, model: Model)
    requires forall i | 0 <= i < |batch| :: batch[i] < |chunks| && !IsEmbedded(chunks[batch[i]], model)
    requires Ascending(batch)
    ensures Keeps(chunks, Assign(chunks, batch, vectors, model), model)
    decreases |batch|
  {
    if batch != [] && vectors != [] {
      var chunks1 := chunks[batch[0] := chunks[batch[0]].(embedding := Some(vectors[0]), model := Some(model))];
      AssignKeeps(chunks1, batch[1..], vectors[1..], model);
    }
  }

  lemma {:induction false} AscendingSize(s: seq<nat>)
    requires Ascending(s)
    ensures |Members(s)| == |s|
  {
    if s != [] {
      var last := s[|s| - 1];
      AscendingSize(s[..|s| - 1]);
      assert Members(s) == Members(s[..|s| - 1]) + {last};
    }
  }

  lemma {:induction false} TodoIsTheRest(chunks: seq<Chunk>, model: Model)
    ensures |Todo(chunks, model)| + |Done(chunks, model)| == |chunks|
  {
    if chunks != [] {
      var n := |chunks| - 1;
      TodoIsTheRest(chunks[..n], model);
      var before := Done(chunks[..n], model);
      assert Done(chunks, model) == if IsEmbedded(chunks[n], model) then before + {n} else before;
    }
  }

  /** Between batches: todo lists what is still to embed, and the job's progress is what is embedded.
      What is committed differs at most in that progress. */
  ghost predicate AtBatch(committed: Db, current: Db, todo: seq<nat>, a: Attempt) {
    && committed.job.Some? && current.job.Some?
    && committed.chunks == current.chunks
    && committed.job.value.status == current.job.value.status == Processing
    && current.job.value.totalChunks == |current.chunks| && current.job.value.model == a.model
    && Ascending(todo)
    && (forall i | 0 <= i < |todo| :: todo[i] < |current.chunks| && !IsEmbedded(current.chunks[todo[i]], a.model))
    && |todo| + |Done(current.chunks, a.model)| == |current.chunks|
    && Processed(current) == |Done(current.chunks, a.model)|
  }

  lemma BeginsAtBatch(db: Db, a: Attempt)
    ensures
      var begun, todo := Begin(db, a), Todo(db.chunks, a.model);
      AtBatch(begun, Progress(begun, |db.chunks| - |todo|), todo, a)
  {
    TodoIsTheRest(db.chunks, a.model);
  }

  /** The first k chunks of the batch get their vectors. */
  lemma StoreBatch(chunks: seq<Chunk>, todo: seq<nat>, vectors: seq<Vector>, a: Attempt)
    requires Ascending(todo)
    requires forall i | 0 <= i < |todo| :: todo[i] < |chunks| && !IsEmbedded(chunks[todo[i]], a.model)
    ensures
      var batch := Head(todo, a.batchSize);
      var stored := Assign(chunks, batch, vectors, a.model);
      && Keeps(chunks, stored, a.model)
      && |Done(stored, a.model)| == |Done(chunks, a.model)| + Min(|batch|, |vectors|)
      && Done(stored, a.model) == Done(chunks, a.model) + Members(batch[..Min(|batch|, |vectors|)])
  {
    var batch := Head(todo, a.batchSize);
    var n := Min(|batch|, |vectors|);
    AssignKeeps(chunks, batch, vectors, a.model);
    AssignEmbeds(chunks, batch, vectors, a.model);
    AscendingSize(batch[..n]);
    assert Done(chunks, a.model) !! Members(batch[..n]);
  }

  lemma RestIsStillTodo(chunks: seq<Chunk>, todo: seq<nat>, vectors: seq<Vector>, a: Attempt)
    requires Ascending(todo) && |vectors| == |Head(todo, a.batchSize)|
    requires forall i | 0 <= i < |todo| :: todo[i] < |chunks| && !IsEmbedded(chunks[todo[i]], a.model)
    ensures
      var stored := Assign(chunks, Head(todo, a.batchSize), vectors, a.model);
      var rest := Tail(todo, a.batchSize);
      Ascending(rest) && forall i | 0 <= i < |rest| :: rest[i] < |stored| && !IsEmbedded(stored[rest[i]], a.model)
  {
    var batch, rest := Head(todo, a.batchSize), Tail(todo, a.batchSize);
    HeadAndTail(todo, a.batchSize);
    StoreBatch(chunks, todo, vectors, a);
    var stored := Assign(chunks, batch, vectors, a.model);
    assert batch[..|batch|] == batch;
    forall i | 0 <= i < |rest|
      ensures rest[i] < |stored| && !IsEmbedded(stored[rest[i]], a.model)
    {
      assert rest[i] in rest && rest[i] in todo && rest[i] !in Members(batch);
      assert rest[i] !in Done(chunks, a.model);
      assert rest[i] !in Done(stored, a.model);
    }
  }

  lemma HeadAndTail(todo: seq<nat>, size: BatchSize)
    requires Ascending(todo)
    ensures Ascending(Tail(todo, size))
    ensures forall k | k in Tail(todo, size) :: k in todo && k !in Members(Head(todo, size))
  {
    var head, tail := Head(todo, size), Tail(todo, size);
    forall k | k in tail
      ensures k in todo && k !in Members(head)
    {
      var i :| 0 <= i < |tail| && tail[i] == k;
      assert todo[|head| + i] == k;
      assert forall j | 0 <= j < |head| :: head[j] == todo[j];
    }
  }

  /** A full batch leads to the next batch boundary. */
  lemma FullBatch(committed: Db, current: Db, todo: seq<nat>, vectors: seq<Vector>, a: Attempt)
    requires AtBatch(committed, current, todo, a) && todo != [] && |vectors| == |Head(todo, a.batchSize)|
    ensures
      var next := AfterBatch(current, Head(todo, a.batchSize), vectors, a);
      && Keeps(current.chunks, next.chunks, a.model)
      && AtBatch(next, next, Tail(todo, a.batchSize), a)
      && |Done(next.chunks, a.model)| == |Done(current.chunks, a.model)| + |vectors|
  {
    StoreBatch(current.chunks, todo, vectors, a);
    RestIsStillTodo(current.chunks, todo, vectors, a);
    var batch, rest := Head(todo, a.batchSize), Tail(todo, a.batchSize);
    BatchIsCommitted(current, batch, vectors, a);
    assert |batch| + |rest| == |todo|;
    var next := AfterBatch(current, batch, vectors, a);
    assert |Done(next.chunks, a.model)| == |Done(current.chunks, a.model)| + |batch|;
  }

  /** A batch changes the chunks and the progress and nothing else. */
  lemma BatchIsCommitted(current: Db, batch: seq<nat>, vectors: seq<Vector>, a: Attempt)
    requires current.job.Some? && forall i | 0 <= i < |batch| :: batch[i] < |current.chunks|
    ensures
      var next := AfterBatch(current, batch, vectors, a);
      && next.chunks == Assign(current.chunks, batch, vectors, a.model)
      && next.job == Some(current.job.value.(processedChunks := Processed(current) + |batch|))
  {
  }

  /** A batch that fails after storing some of its vectors. */
  lemma FailedBatch(committed: Db, current: Db, todo: seq<nat>, vectors: seq<Vector>, code: string, a: Attempt)
    requires AtBatch(committed, current, todo, a)
    ensures
      var stored := current.(chunks := Assign(current.chunks, Head(todo, a.batchSize), vectors, a.model));
      Outcome(committed, Fail(stored, code), Fails(code), a)
  {
    StoreBatch(current.chunks, todo, vectors, a);
  }

  /** What an attempt leaves behind, whatever happens to it. */
  ghost predicate Outcome(before: Db, after: Db, result: Result, a: Attempt) {
    && after.job.Some?
    && Keeps(before.chunks, after.chunks, a.model)
    && (result.Succeeds? <==> after.job.value.status.Completed?)
    && (result.Succeeds? ==>
          && |Done(after.chunks, a.model)| == |after.chunks|
          && after.job.value.processedChunks == after.job.value.totalChunks == |after.chunks|
          && after.job.value.model == a.model)
    && Processed(after) <=
         if result.Dies? then Max(Processed(before), |Done(after.chunks, a.model)|) else |Done(after.chunks, a.model)|
  }

  lemma OutcomeFromLater(before: Db, next: Db, after: Db, result: Result, a: Attempt)
    requires Keeps(before.chunks, next.chunks, a.model) && Processed(next) == |Done(next.chunks, a.model)|
    requires Outcome(next, after, result, a)
    ensures Outcome(before, after, result, a)
  {
    EmbeddedStays(next.chunks, after.chunks, a.model);
  }

  lemma EmbeddedStays(chunks: seq<Chunk>, chunks': seq<Chunk>, model: Model)
    requires Keeps(chunks, chunks', model)
    ensures Done(chunks, model) <= Done(chunks', model) && |Done(chunks, model)| <= |Done(chunks', model)|
  {
    SubsetSize(Done(chunks, model), Done(chunks', model));
  }

  lemma {:induction false} BatchesOutcome(committed: Db, current: Db, todo: seq<nat>, n: nat, a: Attempt)
    requires AtBatch(committed, current, todo, a)
    ensures Outcome(committed, Batches(committed, current, todo, n, a).0, Batches(committed, current, todo, n, a).1, a)
    decreases |todo|
  {
    if todo != [] {
      match a.reply(n)
      case Killed =>
      case EmbedRaises(code) =>
        FailedBatch(committed, current, todo, [], code, a);
      case Vectors(vectors) =>
        if |vectors| == |Head(todo, a.batchSize)| {
          FullBatch(committed, current, todo, vectors, a);
          var next := AfterBatch(current, Head(todo, a.batchSize), vectors, a);
          BatchesOutcome(next, next, Tail(todo, a.batchSize), n + 1, a);
          var (after, result) := Batches(next, next, Tail(todo, a.batchSize), n + 1, a);
          OutcomeFromLater(committed, next, after, result, a);
        } else {
          FailedBatch(committed, current, todo, vectors, INTERNAL_ERROR, a);
        }
    }
  }

  lemma ProcessOutcome(db: Db, a: Attempt)
    requires Accepts(db, a)
    ensures Outcome(Begin(db, a), Process(db, a).0, Process(db, a).1, a)
  {
    BeginsAtBatch(db, a);
    var begun, todo := Begin(db, a), Todo(db.chunks, a.model);
    BatchesOutcome(begun, Progress(begun, |db.chunks| - |todo|), todo, 0, a);
  }

  // ------------------------------------------------------------------------------ whole histories

  /** The database after a history of attempts: first calls, retries, refusals and killed processes. */
  function History(db: Db, attempts: seq<Attempt>): Db {
    if attempts == [] then db
    else Process(History(db, attempts[..|attempts| - 1]), attempts[|attempts| - 1]).0
  }

  ghost predicate CompletedMeansEmbedded(db: Db) {
    db.job.Some? && db.job.value.status.Completed? ==>
      && (forall k | 0 <= k < |db.chunks| :: IsEmbedded(db.chunks[k], db.job.value.model))
      && db.job.value.processedChunks == db.job.value.totalChunks == |db.chunks|
  }

  lemma {:induction false} AllDone(chunks: seq<Chunk>, model: Model, k: nat)
    requires |Done(chunks, model)| == |chunks| && k < |chunks|
    ensures IsEmbedded(chunks[k], model)
  {
    TodoIsTheRest(chunks, model);
    assert Todo(chunks, model) == [];
  }

  /** Every chunk is as it was before, or holds the vector that embed gives for its own text under
      the model it names. */
  ghost predicate Traceable(chunks: seq<Chunk>, chunks': seq<Chunk>, embed: (Model, string) -> Vector) {
    && |chunks'| == |chunks|
    && forall k | 0 <= k < |chunks| ::
         && chunks'[k].content == chunks[k].content
         && (chunks'[k] == chunks[k] || HoldsItsVector(chunks'[k], embed))
  }

  ghost predicate HoldsItsVector(c: Chunk, embed: (Model, string) -> Vector) {
    c.model.Some? && c.embedding == Some(embed(c.model.value, c.content))
  }

  /** The pairs that zip forms are right: vector i is that of the text of chunk batch[i].  There may
      be too few vectors, or too many. */
  ghost predicate PairsAreRight(
    chunks: seq<Chunk>, batch: seq<nat>, vectors: seq<Vector>, model: Model, embed: (Model, string) -> Vector)
  {
    forall i | 0 <= i < |batch| && i < |vectors| ::
      batch[i] < |chunks| && vectors[i] == embed(model, chunks[batch[i]].content)
  }

  /** The provider answers each batch it gets to with the vectors of the batch's texts. */
  ghost predicate AnswersRightly(
    chunks: seq<Chunk>, todo: seq<nat>, n: nat, a: Attempt, embed: (Model, string) -> Vector)
    decreases |todo|
  {
    todo != [] && a.reply(n).Vectors? ==>
      && PairsAreRight(chunks, Head(todo, a.batchSize), a.reply(n).vectors, a.model, embed)
      && (|a.reply(n).vectors| == |Head(todo, a.batchSize)| ==>
            AnswersRightly(chunks, Tail(todo, a.batchSize), n + 1, a, embed))
  }

  ghost predicate AllAnswerRightly(db: Db, attempts: seq<Attempt>, embed: (Model, string) -> Vector) {
    forall i | 0 <= i < |attempts| ::
      AnswersRightly(db.chunks, Todo(History(db, attempts[..i]).chunks, attempts[i].model), 0, attempts[i], embed)
  }

  lemma {:induction false} AssignIsTraceable(
    chunks: seq<Chunk>, batch: seq<nat>, vectors: seq<Vector>, model: Model, embed: (Model, string) -> Vector)
    requires forall i | 0 <= i < |batch| :: batch[i] < |chunks|
    requires PairsAreRight(chunks, batch, vectors, model, embed)
    ensures Traceable(chunks, Assign(chunks, batch, vectors, model), embed)
    decreases |batch|
  {
    if batch != [] && vectors != [] {
      var chunks1 := chunks[batch[0] := chunks[batch[0]].(embedding := Some(vectors[0]), model := Some(model))];
      assert forall i | 0 <= i < |batch[1..]| && i < |vectors[1..]| ::
        batch[1..][i] == batch[i + 1] && vectors[1..][i] == vectors[i + 1];
      AssignIsTraceable(chunks1, batch[1..], vectors[1..], model, embed);
    }
  }

  lemma {:induction false} BatchesAreTraceable(
    start: seq<Chunk>, committed: Db, current: Db, todo: seq<nat>, n: nat, a: Attempt,
    embed: (Model, string) -> Vector)
    requires forall i | 0 <= i < |todo| :: todo[i] < |current.chunks|
    requires Traceable(start, committed.chunks, embed) && Traceable(start, current.chunks, embed)
    requires AnswersRightly(start, todo, n, a, embed)
    ensures Traceable(start, Batches(committed, current, todo, n, a).0.chunks, embed)
    decreases |todo|
  {
    if todo != [] && a.reply(n).Vectors? {
      var batch, vectors := Head(todo, a.batchSize), a.reply(n).vectors;
      AssignIsTraceable(current.chunks, batch, vectors, a.model, embed);
      var stored := current.(chunks := Assign(current.chunks, batch, vectors, a.model));
      assert Traceable(start, stored.chunks, embed);
      if |vectors| == |batch| {
        var next := AfterBatch(current, batch, vectors, a);
        BatchesAreTraceable(start, next, next, Tail(todo, a.batchSize), n + 1, a, embed);
      }
    }
  }

  lemma AttemptIsTraceable(start: seq<Chunk>, before: Db, a: Attempt, embed: (Model, string) -> Vector)
    requires Traceable(start, before.chunks, embed)
    requires AnswersRightly(start, Todo(before.chunks, a.model), 0, a, embed)
    ensures Traceable(start, Process(before, a).0.chunks, embed)
  {
    if Accepts(before, a) {
      var begun, todo := Begin(before, a), Todo(before.chunks, a.model);
      BatchesAreTraceable(start, begun, Progress(begun, |before.chunks| - |todo|), todo, 0, a, embed);
    }
  }

  /** Every chunk gets its own vector: through any attempts with any models, failures, kills and
      strict zips that stop midway, if the provider answers each text of a batch with embed of that
      text, every chunk is left alone or holds embed of its own text. */
  lemma {:induction false} ChunksHoldTheirVectors(
    db: Db, attempts: seq<Attempt>, embed: (Model, string) -> Vector)
    requires AllAnswerRightly(db, attempts, embed)
    ensures Traceable(db.chunks, History(db, attempts).chunks, embed)
  {
    if attempts != [] {
      var earlier, a := attempts[..|attempts| - 1], attempts[|attempts| - 1];
      EarlierAnswerRightly(db, attempts, embed);
      ChunksHoldTheirVectors(db, earlier, embed);
      AttemptIsTraceable(db.chunks, History(db, earlier), a, embed);
    }
  }

  lemma EarlierAnswerRightly(db: Db, attempts: seq<Attempt>, embed: (Model, string) -> Vector)
    requires AllAnswerRightly(db, attempts, embed) && attempts != []
    ensures AllAnswerRightly(db, attempts[..|attempts| - 1], embed)
  {
    var earlier := attempts[..|attempts| - 1];
    assert forall i | 0 <= i < |earlier| :: earlier[..i] == attempts[..i] && earlier[i] == attempts[i];
  }

  /** A COMPLETED job: every chunk holds the vector that the job's model gives for its text. */
  ghost predicate CompletedMeansComputed(db: Db, embed: (Model, string) -> Vector) {
    db.job.Some? && db.job.value.status.Completed? ==>
      forall k | 0 <= k < |db.chunks| ::
        && db.chunks[k].model == Some(db.job.value.model)
        && db.chunks[k].embedding == Some(embed(db.job.value.model, db.chunks[k].content))
  }

  /** Vectors that were there before the first attempt are right, too; for instance, there are none. */
  ghost predicate StartsRight(chunks: seq<Chunk>, embed: (Model, string) -> Vector) {
    forall k | 0 <= k < |chunks| && chunks[k].embedding.Some? && chunks[k].model.Some? ::
      HoldsItsVector(chunks[k], embed)
  }

  /** A job reads COMPLETED only when every chunk carries a vector of the job's model and progress is
      full: after any attempts, with any models, failures, mismatched batches and kills.  The vector
      is the one that the model gives for the chunk's own text, if the provider pairs texts and
      vectors rightly. */
  lemma {:induction false} CompletedJobsAreComplete(
    db: Db, attempts: seq<Attempt>, embed: (Model, string) -> Vector)
    requires db.job == None
    ensures CompletedMeansEmbedded(History(db, attempts))
    ensures StartsRight(db.chunks, embed) && AllAnswerRightly(db, attempts, embed)
        ==> CompletedMeansComputed(History(db, attempts), embed)
  {
    JobsCompleteWhenEmbedded(db, attempts);
    if StartsRight(db.chunks, embed) && AllAnswerRightly(db, attempts, embed) {
      ChunksHoldTheirVectors(db, attempts, embed);
    }
  }

  lemma {:induction false} JobsCompleteWhenEmbedded(db: Db, attempts: seq<Attempt>)
    requires db.job == None
    ensures CompletedMeansEmbedded(History(db, attempts))
  {
    if attempts != [] {
      var before, a := History(db, attempts[..|attempts| - 1]), attempts[|attempts| - 1];
      JobsCompleteWhenEmbedded(db, attempts[..|attempts| - 1]);
      if Accepts(before, a) {
        ProcessOutcome(before, a);
        var after := Process(before, a).0;
        if Process(before, a).1.Succeeds? {
          forall k | 0 <= k < |after.chunks|
            ensures IsEmbedded(after.chunks[k], a.model)
          {
            AllDone(after.chunks, a.model, k);
          }
        }
      }
    }
  }

  ghost predicate OneModel(attempts: seq<Attempt>, model: Model) {
    forall i | 0 <= i < |attempts| :: attempts[i].model == model
  }

  lemma ProcessKeeps(db: Db, a: Attempt)
    ensures Keeps(db.chunks, Process(db, a).0.chunks, a.model)
  {
    if Accepts(db, a) { ProcessOutcome(db, a); }
  }

  /** With one model, a persisted vector stays as it is through all later attempts. */
  lemma {:induction false} VectorsArePersistent(db: Db, attempts: seq<Attempt>, model: Model, i: nat)
    requires OneModel(attempts, model) && i <= |attempts|
    ensures Keeps(History(db, attempts[..i]).chunks, History(db, attempts).chunks, model)
  {
    if i == |attempts| {
      assert attempts[..i] == attempts;
    } else {
      var before := attempts[..|attempts| - 1];
      assert before[..i] == attempts[..i];
      VectorsArePersistent(db, before, model, i);
      ProcessKeeps(History(db, before), attempts[|attempts| - 1]);
    }
  }

  function Flatten(batches: seq<seq<nat>>): seq<nat> {
    if batches == [] then [] else batches[0] + Flatten(batches[1..])
  }

  lemma {:induction false} SentIsAPrefix(todo: seq<nat>, n: nat, a: Attempt)
    ensures Flatten(Sent(todo, n, a)) <= todo
    decreases |todo|
  {
    if todo != [] && !a.reply(n).Killed? {
      var batch := Head(todo, a.batchSize);
      assert batch + [] == batch;
      assert todo == batch + Tail(todo, a.batchSize);
      SentIsAPrefix(Tail(todo, a.batchSize), n + 1, a);
    }
  }

  /** No attempt of a one-model history sends a chunk to the provider whose vector is already
      persisted, and none sends a chunk twice. */
  lemma NothingIsRecomputed(db: Db, attempts: seq<Attempt>, model: Model, i: nat, j: nat, k: nat)
    requires OneModel(attempts, model) && i <= j < |attempts|
    requires k < |History(db, attempts[..i]).chunks| && IsEmbedded(History(db, attempts[..i]).chunks[k], model)
    ensures k !in Flatten(SentBy(History(db, attempts[..j]), attempts[j]))
    ensures Ascending(Flatten(SentBy(History(db, attempts[..j]), attempts[j])))
  {
    assert attempts[..j][..i] == attempts[..i];
    VectorsArePersistent(db, attempts[..j], model, i);
    var before := History(db, attempts[..j]);
    var todo := Todo(before.chunks, model);
    assert k !in todo;
    SentIsAPrefix(todo, 0, attempts[j]);
    var sent := Flatten(Sent(todo, 0, attempts[j]));
    assert forall x | 0 <= x < |sent| :: sent[x] == todo[x];
  }

  /** With one model, progress never claims more than is embedded, whatever fails. */
  lemma {:induction false} ProgressIsHonest(db: Db, attempts: seq<Attempt>, model: Model)
    requires OneModel(attempts, model) && db.job == None
    ensures Processed(History(db, attempts)) <= |Done(History(db, attempts).chunks, model)|
  {
    if attempts != [] {
      var before, a := History(db, attempts[..|attempts| - 1]), attempts[|attempts| - 1];
      ProgressIsHonest(db, attempts[..|attempts| - 1], model);
      if Accepts(before, a) {
        ProcessOutcome(before, a);
        EmbeddedStays(before.chunks, Process(before, a).0.chunks, model);
      }
    }
  }

  /** Every batch that the provider answers gets one vector per text. */
  ghost predicate AnswersInFull(todo: seq<nat>, n: nat, a: Attempt)
    decreases |todo|
  {
    todo != [] && a.reply(n).Vectors? ==>
      && |a.reply(n).vectors| == |Head(todo, a.batchSize)|
      && AnswersInFull(Tail(todo, a.batchSize), n + 1, a)
  }

  lemma {:induction false} BatchesAreExact(committed: Db, current: Db, todo: seq<nat>, n: nat, a: Attempt)
    requires AtBatch(committed, current, todo, a) && AnswersInFull(todo, n, a)
    requires Processed(committed) == |Done(committed.chunks, a.model)|
    ensures Processed(Batches(committed, current, todo, n, a).0)
         == |Done(Batches(committed, current, todo, n, a).0.chunks, a.model)|
    decreases |todo|
  {
    if todo != [] && a.reply(n).Vectors? {
      var vectors := a.reply(n).vectors;
      FullBatch(committed, current, todo, vectors, a);
      var next := AfterBatch(current, Head(todo, a.batchSize), vectors, a);
      BatchesAreExact(next, next, Tail(todo, a.batchSize), n + 1, a);
    }
  }

  ghost predicate IsExact(db: Db, model: Model) {
    Processed(db) == |Done(db.chunks, model)|
  }

  /** An accepted attempt that is not killed in its first batch leaves progress exact, whatever it was
      before; one that is killed there leaves progress and chunks as they were. */
  lemma AttemptIsExact(before: Db, a: Attempt)
    requires Accepts(before, a) && AnswersInFull(Todo(before.chunks, a.model), 0, a)
    ensures !a.reply(0).Killed? ==> IsExact(Process(before, a).0, a.model)
    ensures a.reply(0).Killed? ==>
      Process(before, a).0.chunks == before.chunks && Processed(Process(before, a).0) == Processed(before)
  {
    if Todo(before.chunks, a.model) != [] && a.reply(0).Vectors? {
      FirstBatchMakesExact(before, a);
    } else {
      BeginsAtBatch(before, a);
    }
  }

  lemma FirstBatchMakesExact(before: Db, a: Attempt)
    requires Accepts(before, a) && AnswersInFull(Todo(before.chunks, a.model), 0, a)
    requires Todo(before.chunks, a.model) != [] && a.reply(0).Vectors?
    ensures IsExact(Process(before, a).0, a.model)
  {
    AfterFirstBatch(before, a);
    var todo := Todo(before.chunks, a.model);
    var next := FirstBatch(before, a);
    BatchesAreExact(next, next, Tail(todo, a.batchSize), 1, a);
  }

  /** The database when an accepted attempt has committed its first batch. */
  function FirstBatch(db: Db, a: Attempt): Db
    requires a.reply(0).Vectors?
  {
    var begun, todo := Begin(db, a), Todo(db.chunks, a.model);
    AfterBatch(Progress(begun, |db.chunks| - |todo|), Head(todo, a.batchSize), a.reply(0).vectors, a)
  }

  lemma AfterFirstBatch(db: Db, a: Attempt)
    requires Accepts(db, a) && Todo(db.chunks, a.model) != []
    requires a.reply(0).Vectors? && |a.reply(0).vectors| == |Head(Todo(db.chunks, a.model), a.batchSize)|
    ensures
      var rest, next := Tail(Todo(db.chunks, a.model), a.batchSize), FirstBatch(db, a);
      && AtBatch(next, next, rest, a)
      && |Done(next.chunks, a.model)| == |Done(db.chunks, a.model)| + |a.reply(0).vectors|
      && Process(db, a) == Batches(next, next, rest, 1, a)
  {
    BeginsAtBatch(db, a);
    var begun, todo := Begin(db, a), Todo(db.chunks, a.model);
    FullBatch(begun, Progress(begun, |db.chunks| - |todo|), todo, a.reply(0).vectors, a);
  }

  ghost predicate AnswersInFullAt(db: Db, attempts: seq<Attempt>, i: int) {
    0 <= i < |attempts| && AnswersInFull(Todo(History(db, attempts[..i]).chunks, attempts[i].model), 0, attempts[i])
  }

  /** Attempt i is accepted and not killed in its first batch. */
  ghost predicate CommitsProgressAt(db: Db, attempts: seq<Attempt>, i: int) {
    && 0 <= i < |attempts|
    && Accepts(History(db, attempts[..i]), attempts[i]) && !attempts[i].reply(0).Killed?
  }

  /** When all answers are full: progress is exactly what is embedded with the model, even after kills,
      if and only if nothing was embedded with it at the start or some accepted attempt was not killed
      in its first batch. */
  lemma {:induction false} ProgressIsExact(db: Db, attempts: seq<Attempt>, model: Model)
    requires OneModel(attempts, model) && db.job == None
    requires forall i | 0 <= i < |attempts| :: AnswersInFullAt(db, attempts, i)
    ensures IsExact(History(db, attempts), model)
       <==> Done(db.chunks, model) == {} || exists i :: CommitsProgressAt(db, attempts, i)
  {
    ExactUpTo(db, attempts, model, |attempts|);
    assert attempts[..|attempts|] == attempts;
    var commits := i => CommitsProgressAt(db, attempts, i);
    assert forall i :: commits(i) == CommitsProgressAt(db, attempts, i);
    if i :| CommitsProgressAt(db, attempts, i) {
      assert HappensBefore(|attempts|, commits);
    }
  }

  /** What keeps progress from being exact: vectors that were there before the job, and a first attempt
      that is killed in its first batch, so that the job counts none of them. */
  lemma ProgressFallsShort(db: Db, a: Attempt)
    requires db.job == None && Accepts(db, a) && Done(db.chunks, a.model) != {} && a.reply(0).Killed?
    ensures Processed(History(db, [a])) == 0 < |Done(History(db, [a]).chunks, a.model)|
  {
    assert [a][..0] == [];
    assert History(db, [a]) == Process(db, a).0;
    assert Process(db, a).0 == Begin(db, a);
  }

  /** Before any attempt commits progress, the database has its first chunks and no progress. */
  ghost predicate Untouched(db: Db, now: Db) {
    now.chunks == db.chunks && Processed(now) == 0
  }

  ghost predicate ExactOrUntouched(db: Db, now: Db, model: Model, committed: bool) {
    if committed then IsExact(now, model) else Untouched(db, now)
  }

  lemma {:induction false} ExactUpTo(db: Db, attempts: seq<Attempt>, model: Model, n: nat)
    requires OneModel(attempts, model) && db.job == None && n <= |attempts|
    requires forall i | 0 <= i < |attempts| :: AnswersInFullAt(db, attempts, i)
    ensures ExactOrUntouched(db, History(db, attempts[..n]), model,
                             HappensBefore(n, i => CommitsProgressAt(db, attempts, i)))
    decreases n
  {
    if n == 0 {
      assert attempts[..0] == [];
    } else {
      ExactUpTo(db, attempts, model, n - 1);
      HappensOneMore(n - 1, i => CommitsProgressAt(db, attempts, i));
      ExactAfterOneMore(db, attempts, model, n - 1, HappensBefore(n - 1, i => CommitsProgressAt(db, attempts, i)));
    }
  }

  lemma {:induction false} ExactAfterOneMore(db: Db, attempts: seq<Attempt>, model: Model, i: nat, committed: bool)
    requires OneModel(attempts, model) && i < |attempts| && AnswersInFullAt(db, attempts, i)
    requires ExactOrUntouched(db, History(db, attempts[..i]), model, committed)
    ensures ExactOrUntouched(db, History(db, attempts[..i + 1]), model, committed || CommitsProgressAt(db, attempts, i))
  {
    var before, a := History(db, attempts[..i]), attempts[i];
    assert attempts[..i + 1][..i] == attempts[..i];
    assert History(db, attempts[..i + 1]) == Process(before, a).0;
    if Accepts(before, a) {
      AttemptIsExact(before, a);
    }
  }

  // ------------------------------------------------------------------------------- resumability

  /** The attempt is accepted and, if anything is left to embed, its first batch is answered in full. */
  ghost predicate FirstBatchLands(db: Db, a: Attempt) {
    var todo := Todo(db.chunks, a.model);
    && Accepts(db, a)
    && (todo != [] ==> a.reply(0).Vectors? && |a.reply(0).vectors| == |Head(todo, a.batchSize)|)
  }

  lemma LandingMakesProgress(db: Db, a: Attempt)
    requires FirstBatchLands(db, a)
    ensures
      var (after, result) := Process(db, a);
      && |after.chunks| == |db.chunks|
      && |Done(after.chunks, a.model)| >= Min(|db.chunks|, |Done(db.chunks, a.model)| + a.batchSize)
      && (|db.chunks| <= |Done(db.chunks, a.model)| + a.batchSize && !result.Dies? ==> result.Succeeds?)
  {
    BeginsAtBatch(db, a);
    ProcessOutcome(db, a);
    var todo := Todo(db.chunks, a.model);
    if todo == [] {
      EmbeddedStays(db.chunks, Process(db, a).0.chunks, a.model);
    } else {
      FirstBatchCounts(db, a);
    }
  }

  lemma FirstBatchCounts(db: Db, a: Attempt)
    requires FirstBatchLands(db, a) && Todo(db.chunks, a.model) != []
    ensures
      var (after, result) := Process(db, a);
      var batch := Head(Todo(db.chunks, a.model), a.batchSize);
      && |Done(after.chunks, a.model)| >= |Done(db.chunks, a.model)| + |batch|
      && (Tail(Todo(db.chunks, a.model), a.batchSize) == [] && !result.Dies? ==> result.Succeeds?)
  {
    AfterFirstBatch(db, a);
    var rest, next := Tail(Todo(db.chunks, a.model), a.batchSize), FirstBatch(db, a);
    BatchesOutcome(next, next, rest, 1, a);
    EmbeddedStays(next.chunks, Process(db, a).0.chunks, a.model);
  }

  ghost predicate AllLand(db: Db, attempts: seq<Attempt>, model: Model, size: BatchSize) {
    forall i | 0 <= i < |attempts| :: Lands(History(db, attempts[..i]), attempts[i], model, size)
  }

  ghost predicate Lands(before: Db, a: Attempt, model: Model, size: BatchSize) {
    a.model == model && a.batchSize == size && FirstBatchLands(before, a)
  }

  lemma EarlierLand(db: Db, attempts: seq<Attempt>, model: Model, size: BatchSize)
    requires AllLand(db, attempts, model, size) && attempts != []
    ensures AllLand(db, attempts[..|attempts| - 1], model, size)
  {
    var earlier := attempts[..|attempts| - 1];
    forall i | 0 <= i < |earlier|
      ensures Lands(History(db, earlier[..i]), earlier[i], model, size)
    {
      assert earlier[..i] == attempts[..i];
      assert Lands(History(db, attempts[..i]), attempts[i], model, size);
    }
  }

  /** The number of chunks and of embedded chunks after a history. */
  ghost function Tally(db: Db, attempts: seq<Attempt>, model: Model): (nat, nat) {
    var after := History(db, attempts);
    (|after.chunks|, |Done(after.chunks, model)|)
  }

  ghost predicate Advances(before: (nat, nat), after: (nat, nat), size: nat) {
    after.0 == before.0 && after.1 >= Min(before.0, before.1 + size)
  }

  lemma {:induction false} LandingsAddUp(db: Db, attempts: seq<Attempt>, model: Model, size: BatchSize)
    requires AllLand(db, attempts, model, size)
    ensures Tally(db, attempts, model).0 == |db.chunks|
    ensures Tally(db, attempts, model).1 >= Min(|db.chunks|, |attempts| * size)
  {
    if attempts != [] {
      var earlier := attempts[..|attempts| - 1];
      EarlierLand(db, attempts, model, size);
      LandingsAddUp(db, earlier, model, size);
      TallyGrows(db, attempts, model, size);
      MinAddsUp(|db.chunks|, |attempts|, size, Tally(db, earlier, model).1);
    }
  }

  lemma TallyGrows(db: Db, attempts: seq<Attempt>, model: Model, size: BatchSize)
    requires AllLand(db, attempts, model, size) && attempts != []
    ensures Advances(Tally(db, attempts[..|attempts| - 1], model), Tally(db, attempts, model), size)
  {
    var before, last := History(db, attempts[..|attempts| - 1]), attempts[|attempts| - 1];
    assert Lands(before, last, model, size);
    LandingMakesProgress(before, last);
  }

  lemma MinAddsUp(total: nat, n: nat, size: nat, done: nat)
    requires n > 0 && done >= Min(total, (n - 1) * size)
    ensures Min(total, done + size) >= Min(total, n * size)
  {
    OneMoreOf(n, size);
  }

  lemma OneMoreOf(n: nat, size: nat)
    requires n > 0
    ensures n * size == (n - 1) * size + size
  {
  }

  lemma LastLandingCompletes(before: Db, a: Attempt)
    requires FirstBatchLands(before, a) && |before.chunks| <= |Done(before.chunks, a.model)| + a.batchSize
    ensures
      var (after, result) := Process(before, a);
      !result.Dies? ==> result.Succeeds? && after.job.Some? && after.job.value.status == Completed
  {
    LandingMakesProgress(before, a);
    ProcessOutcome(before, a);
  }

  /** Resumability: ceil(n / batch_size) attempts whose first batch succeeds embed everything, however
      each of them ends after that; and if the last one is not killed, the job is completed. */
  lemma FewAttemptsSuffice(db: Db, attempts: seq<Attempt>, model: Model, size: BatchSize)
    requires db.chunks != [] && |attempts| * size >= |db.chunks|
    requires AllLand(db, attempts, model, size)
    ensures attempts != []
    ensures |Done(History(db, attempts).chunks, model)| == |History(db, attempts).chunks|
    ensures
      var last := |attempts| - 1;
      var (after, result) := Process(History(db, attempts[..last]), attempts[last]);
      && History(db, attempts) == after
      && (!result.Dies? ==> result.Succeeds? && after.job.Some? && after.job.value.status == Completed)
  {
    LandingsAddUp(db, attempts, model, size);
    TodoIsTheRest(History(db, attempts).chunks, model);
    assert |attempts| != 0;
    EarlierLand(db, attempts, model, size);
    var earlier, last := attempts[..|attempts| - 1], attempts[|attempts| - 1];
    LandingsAddUp(db, earlier, model, size);
    OneMoreOf(|attempts|, size);
    assert Lands(History(db, earlier), last, model, size);
    LastLandingCompletes(History(db, earlier), last);
  }

  // ------------------------------------------------------------------------- change of model

  /** Progress claims no more than is embedded with the job's own model. */
  ghost predicate Honest(db: Db) {
    db.job.Some? ==> Processed(db) <= |Done(db.chunks, db.job.value.model)|
  }

  /** The attempt takes the job over and dies before its first commit of progress, while the progress
      on record is more than what is embedded with the attempt's model. */
  ghost predicate Strays(db: Db, a: Attempt) {
    Accepts(db, a) && a.reply(0).Killed? && Processed(db) > |Done(db.chunks, a.model)|
  }

  lemma {:induction false} ModelStays(committed: Db, current: Db, todo: seq<nat>, n: nat, a: Attempt)
    requires forall i | 0 <= i < |todo| :: todo[i] < |current.chunks|
    requires committed.job.Some? && committed.job.value.model == a.model
    requires current.job.Some? && current.job.value.model == a.model
    ensures
      var after := Batches(committed, current, todo, n, a).0;
      after.job.Some? && after.job.value.model == a.model
    decreases |todo|
  {
    if todo != [] && a.reply(n).Vectors? && |a.reply(n).vectors| == |Head(todo, a.batchSize)| {
      var next := AfterBatch(current, Head(todo, a.batchSize), a.reply(n).vectors, a);
      ModelStays(next, next, Tail(todo, a.batchSize), n + 1, a);
    }
  }

  lemma AttemptNamesItsModel(db: Db, a: Attempt)
    requires Accepts(db, a)
    ensures Process(db, a).0.job.Some? && Process(db, a).0.job.value.model == a.model
  {
    var begun, todo := Begin(db, a), Todo(db.chunks, a.model);
    ModelStays(begun, Progress(begun, |db.chunks| - |todo|), todo, 0, a);
  }

  /** An accepted attempt, from whatever state, leaves honest progress exactly when it does not stray;
      and where progress was honest, only an attempt with another model can stray. */
  lemma HonestUnlessStraying(db: Db, a: Attempt)
    requires Accepts(db, a)
    ensures Honest(Process(db, a).0) <==> !Strays(db, a)
    ensures Strays(db, a) && Honest(db) ==> db.job.Some? && db.job.value.model != a.model
  {
    AttemptNamesItsModel(db, a);
    BeginsAtBatch(db, a);
    var begun, todo := Begin(db, a), Todo(db.chunks, a.model);
    var current := Progress(begun, |db.chunks| - |todo|);
    if a.reply(0).Killed? {
      assert Process(db, a).0 == begun;
    } else if todo != [] && a.reply(0).Vectors? && |a.reply(0).vectors| == |Head(todo, a.batchSize)| {
      var vectors := a.reply(0).vectors;
      FullBatch(begun, current, todo, vectors, a);
      var next := AfterBatch(current, Head(todo, a.batchSize), vectors, a);
      BatchesOutcome(next, next, Tail(todo, a.batchSize), 1, a);
      EmbeddedStays(next.chunks, Process(db, a).0.chunks, a.model);
    } else if todo != [] && a.reply(0).Vectors? {
      FailedBatch(begun, current, todo, a.reply(0).vectors, INTERNAL_ERROR, a);
    } else if todo != [] {
      FailedBatch(begun, current, todo, [], a.reply(0).code, a);
    }
  }

  ghost predicate StraysAt(db: Db, attempts: seq<Attempt>, i: int) {
    0 <= i < |attempts| && Strays(History(db, attempts[..i]), attempts[i])
  }

  ghost predicate AcceptedAt(db: Db, attempts: seq<Attempt>, i: int) {
    0 <= i < |attempts| && Accepts(History(db, attempts[..i]), attempts[i])
  }

  /** Some attempt strayed and none has been accepted since. */
  ghost predicate HasStrayed(db: Db, attempts: seq<Attempt>) {
    Since(|attempts|, i => StraysAt(db, attempts, i), i => AcceptedAt(db, attempts, i))
  }

  /** Below n there is a place with p, and none with q after it. */
  ghost predicate Since(n: nat, p: int -> bool, q: int -> bool) {
    exists i :: 0 <= i < n && p(i) && forall j | i < j < n :: !q(j)
  }

  lemma SinceOneMore(n: nat, p: int -> bool, q: int -> bool, p': int -> bool, q': int -> bool)
    requires forall i | 0 <= i < n :: p'(i) == p(i) && q'(i) == q(i)
    requires p(n) ==> q(n)
    ensures Since(n + 1, p, q) <==> if q(n) then p(n) else Since(n, p', q')
  {
    if q(n) {
      if p(n) {
        assert Since(n + 1, p, q);
      }
    } else if Since(n, p', q') {
      var i :| 0 <= i < n && p'(i) && forall j | i < j < n :: !q'(j);
      assert p(i);
    }
  }

  lemma OneMoreAttempt(db: Db, attempts: seq<Attempt>)
    requires attempts != []
    ensures
      var n := |attempts| - 1;
      HasStrayed(db, attempts) <==>
        if AcceptedAt(db, attempts, n) then StraysAt(db, attempts, n) else HasStrayed(db, attempts[..n])
  {
    var n := |attempts| - 1;
    var earlier := attempts[..n];
    SameAttempts(db, attempts);
    SinceOneMore(n, i => StraysAt(db, attempts, i), i => AcceptedAt(db, attempts, i),
                    i => StraysAt(db, earlier, i), i => AcceptedAt(db, earlier, i));
  }

  lemma SameAttempts(db: Db, attempts: seq<Attempt>)
    requires attempts != []
    ensures
      var n := |attempts| - 1;
      forall i | 0 <= i < n ::
        && StraysAt(db, attempts[..n], i) == StraysAt(db, attempts, i)
        && AcceptedAt(db, attempts[..n], i) == AcceptedAt(db, attempts, i)
    ensures
      var n := |attempts| - 1;
      && StraysAt(db, attempts, n) == Strays(History(db, attempts[..n]), attempts[n])
      && AcceptedAt(db, attempts, n) == Accepts(History(db, attempts[..n]), attempts[n])
  {
    var earlier := attempts[..|attempts| - 1];
    assert forall i | 0 <= i < |earlier| :: earlier[..i] == attempts[..i] && earlier[i] == attempts[i];
  }

  /** Progress, with any models: after any history it claims more than is embedded with the job's
      model exactly when some attempt strayed and none has been accepted since. */
  lemma {:induction false} ProgressIsHonestUnlessStrayed(db: Db, attempts: seq<Attempt>)
    requires db.job == None
    ensures Honest(History(db, attempts)) <==> !HasStrayed(db, attempts)
  {
    if attempts != [] {
      var earlier, a := attempts[..|attempts| - 1], attempts[|attempts| - 1];
      ProgressIsHonestUnlessStrayed(db, earlier);
      OneMoreAttempt(db, attempts);
      SameAttempts(db, attempts);
      if Accepts(History(db, earlier), a) {
        HonestUnlessStraying(History(db, earlier), a);
      }
    }
  }

  /** Why one-model claims need one model: whenever a first attempt succeeds and a second one with
      another model is killed in its first batch, progress claims every chunk although none is
      embedded with the model that the job names. */
  lemma ProgressIsStaleAfterModelChange(db: Db, first: Attempt, second: Attempt)
    requires db.job == None && Process(db, first).1.Succeeds?
    requires Accepts(db, second) && second.model != first.model && second.reply(0).Killed?
    ensures
      var after := History(db, [first, second]);
      && !Honest(after)
      && after.job.Some? && after.job.value.model == second.model
      && Processed(after) == |after.chunks| > 0 && Done(after.chunks, second.model) == {}
  {
    var one := Process(db, first).0;
    assert [first, second][..1] == [first] && [first][..0] == [];
    assert History(db, [first]) == one;
    ProcessOutcome(db, first);
    forall k: nat | k < |one.chunks|
      ensures !IsEmbedded(one.chunks[k], second.model)
    {
      AllDone(one.chunks, first.model, k);
    }
    assert Done(one.chunks, second.model) == {};
    HonestUnlessStraying(one, second);
  }

  /** Such a history: one chunk, embedded with one model, then taken over by another. */
  lemma ProgressDoesGoStale()
    ensures
      var db := Db([Chunk("text", None, None)], None, None);
      var first := Attempt("small", 1, 1, true, n => Vectors([[1.0]]));
      var second := Attempt("large", 1, 1, true, n => Killed);
      !Honest(History(db, [first, second]))
  {
    var db := Db([Chunk("text", None, None)], None, None);
    var first := Attempt("small", 1, 1, true, n => Vectors([[1.0]]));
    var second := Attempt("large", 1, 1, true, n => Killed);
    BeginsAtBatch(db, first);
    var begun, todo := Begin(db, first), Todo(db.chunks, "small");
    FullBatch(begun, Progress(begun, 1 - |todo|), todo, [[1.0]], first);
    ProgressIsStaleAfterModelChange(db, first, second);
  }
}
