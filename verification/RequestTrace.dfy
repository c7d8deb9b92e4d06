/** RequestTrace: the dictionaries it collects, the database query counters, and the critical path. */
module RequestTrace {
  import opened Prelude
  import opened Rounding
  import opened ParallelMetrics

  datatype Query = Query(category: string, durationMs: real)

  datatype Mark = Mark(name: string, timestampMs: real)

  /** The time of the last mark of that name. */
  function LastMark(timeline: seq<Mark>, name: string): Option<real> {
    if timeline == [] then None
    else if timeline[|timeline| - 1].name == name then Some(timeline[|timeline| - 1].timestampMs)
    else LastMark(timeline[..|timeline| - 1], name)
  }

  function Total(queries: seq<Query>): real {
    if queries == [] then 0.0 else Total(queries[..|queries| - 1]) + queries[|queries| - 1].durationMs
  }

  lemma {:induction false} TotalIsCents(queries: seq<Query>)
    requires forall i | 0 <= i < |queries| :: IsCents(queries[i].durationMs)
    ensures IsCents(Total(queries))
  {
    if queries != [] {
      TotalIsCents(queries[..|queries| - 1]);
      CentsAddUp(Total(queries[..|queries| - 1]), queries[|queries| - 1].durationMs);
    }
  }

  /** The slowest query above zero: its duration, and the category of the first that took so long. */
  ghost predicate IsSlowest(queries: seq<Query>, slowest: real, category: Option<string>) {
    && 0.0 <= slowest
    && (forall i | 0 <= i < |queries| :: queries[i].durationMs <= slowest)
    && (slowest == 0.0 ==> category == None)
    && (slowest > 0.0 ==> exists i ::
          && 0 <= i < |queries| && queries[i].durationMs == slowest && category == Some(queries[i].category)
          && forall j | 0 <= j < i :: queries[j].durationMs < slowest)
  }

  class RequestTrace {
    var stages: map<string, real>
    var timestamps: map<string, real>
    var timeline: seq<Mark>
    var dbQueries: seq<Query>
    var dbQueryCount: nat
    var dbTotalMs: real
    var slowestQueryMs: real
    var slowestQueryCategory: Option<string>

    /** Everything recorded is whole hundredths, a timestamp is that of the last mark of its name, and
        the counters are what the query log says. */
    ghost predicate Valid()
      reads this
    {
      && (forall stage | stage in stages :: IsCents(stages[stage]))
      && (forall name :: LastMark(timeline, name)
                      == if name in timestamps then Some(Round2(timestamps[name])) else None)
      && (forall i | 0 <= i < |dbQueries| :: IsCents(dbQueries[i].durationMs))
      && dbQueryCount == |dbQueries|
      && dbTotalMs == Total(dbQueries)
      && IsSlowest(dbQueries, slowestQueryMs, slowestQueryCategory)
    }

    constructor ()
      ensures Valid() && stages == map[] && timestamps == map[] && timeline == [] && dbQueries == []
    {
      stages, timestamps, timeline, dbQueries := map[], map[], [], [];
      dbQueryCount, dbTotalMs, slowestQueryMs, slowestQueryCategory := 0, 0.0, 0.0, None;
    }

    /** mark(): the exact time is kept under the name, the rounded one goes to the timeline. */
    method RecordEvent(name: string, ms: real)
      requires Valid()
      modifies this`timestamps, this`timeline
      ensures Valid() && timestamps == old(timestamps)[name := ms]
      ensures timeline == old(timeline) + [Mark(name, Round2(ms))]
    {
      timestamps := timestamps[name := ms];
      timeline := timeline + [Mark(name, Round2(ms))];
      assert timeline[..|timeline| - 1] == old(timeline);
    }

    method Record(stage: string, durationMs: real)
      requires Valid()
      modifies this`stages
      ensures Valid() && stages == old(stages)[stage := Round2(durationMs)]
    {
      RoundingMovesLittle(durationMs);
      stages := stages[stage := Round2(durationMs)];
    }

    /** The repeated rounding of the running total loses nothing: it stays the exact sum of the
        logged durations. */
    method RecordDbQuery(category: string, durationMs: real)
      requires Valid()
      modifies this
      ensures Valid() && timestamps == old(timestamps) && timeline == old(timeline)
      ensures dbQueries == old(dbQueries) + [Query(category, Round2(durationMs))]
      ensures stages == old(stages)["sql_statement_execution_ms" := Total(dbQueries)]
    {
      var rounded := Round2(durationMs);
      RoundingMovesLittle(durationMs);
      ghost var queries := dbQueries + [Query(category, rounded)];
      assert queries[..|queries| - 1] == dbQueries;
      TotalIsCents(queries);
      RoundingKeepsCents(Total(queries));
      SlowestSoFar(dbQueries, slowestQueryMs, slowestQueryCategory, Query(category, rounded));

      dbQueries := dbQueries + [Query(category, rounded)];
      dbQueryCount := dbQueryCount + 1;
      dbTotalMs := Round2(dbTotalMs + rounded);
      stages := stages["sql_statement_execution_ms" := dbTotalMs];
      if rounded > slowestQueryMs {
        slowestQueryMs := rounded;
        slowestQueryCategory := Some(category);
      }
    }
  }

  lemma SlowestSoFar(queries: seq<Query>, slowest: real, category: Option<string>, q: Query)
    requires IsSlowest(queries, slowest, category)
    ensures q.durationMs > slowest ==> IsSlowest(queries + [q], q.durationMs, Some(q.category))
    ensures q.durationMs <= slowest ==> IsSlowest(queries + [q], slowest, category)
  {
    var all := queries + [q];
    if q.durationMs > slowest {
      assert all[|queries|] == q;
    } else if slowest > 0.0 {
      var i :| 0 <= i < |queries| && queries[i].durationMs == slowest && category == Some(queries[i].category)
        && forall j | 0 <= j < i :: queries[j].durationMs < slowest;
      assert all[i] == queries[i];
    }
  }

  // ------------------------------------------------------------------------------ critical path

  type Stages = map<string, real>

  function StageOr(stages: Stages, name: string, otherwise: real): real {
    if name in stages then stages[name] else otherwise
  }

  function StageOf(stages: Stages, name: string, fallback: string): real {
    StageOr(stages, name, StageOr(stages, fallback, 0.0))
  }

  function OffsetOf(timestamps: Stages, name: string, fallback: string): Option<real> {
    if name in timestamps then Some(timestamps[name])
    else if fallback in timestamps then Some(timestamps[fallback])
    else None
  }

  function TasksOf(stages: Stages, timestamps: Stages): Tasks {
    Tasks(
      StageOf(stages, "vector_search_ms", "vector_total_ms"),
      StageOf(stages, "keyword_search_ms", "keyword_total_ms"),
      OffsetOf(timestamps, "vector_search_started", "vector_start_offset_ms"),
      OffsetOf(timestamps, "vector_search_completed", "vector_end_offset_ms"),
      OffsetOf(timestamps, "keyword_search_started", "keyword_start_offset_ms"),
      OffsetOf(timestamps, "keyword_search_completed", "keyword_end_offset_ms"))
  }

  function TokenGeneration(stages: Stages): real {
    var recorded := StageOf(stages, "token_streaming_ms", "token_generation_ms");
    if recorded == 0.0 then
      MaxReal(0.0, StageOr(stages, "generation_completion_ms", 0.0) - StageOr(stages, "time_to_first_token_ms", 0.0))
    else recorded
  }

  /** The steps that run one after the other, in order, around the parallel retrieval. */
  function StepsBefore(stages: Stages): seq<real> {
    [StageOf(stages, "authentication_total_ms", "authentication_ms"),
     StageOf(stages, "authorization_total_ms", "authorization_ms"),
     StageOf(stages, "query_intelligence_total_ms", "query_intelligence_ms"),
     StageOf(stages, "embedding_total_ms", "retrieval_embedding_ms")]
  }

  function StepsAfter(stages: Stages): seq<real> {
    [StageOf(stages, "fusion_total_ms", "fusion_ms"),
     StageOf(stages, "reranking_total_ms", "reranker_total_ms"),
     StageOr(stages, "context_selection_ms", 0.0),
     StageOr(stages, "prompt_construction_ms", 0.0),
     StageOr(stages, "time_to_first_token_ms", 0.0),
     TokenGeneration(stages),
     StageOr(stages, "persistence_total_ms", 0.0)]
  }

  function CriticalPath(stages: Stages, timestamps: Stages): real {
    var wall := CalculateParallelMetrics(TasksOf(stages, timestamps)).wall;
    Round2(Sum(StepsBefore(stages) + [wall] + StepsAfter(stages)))
  }

  lemma {:induction false} SumConcat(a: seq<real>, b: seq<real>)
    ensures Sum(a + b) == Sum(a) + Sum(b)
    decreases |b|
  {
    if b == [] {
      assert a + b == a;
    } else {
      assert (a + b)[..|a + b| - 1] == a + b[..|b| - 1];
      SumConcat(a, b[..|b| - 1]);
    }
  }

  ghost predicate AllCents(steps: seq<real>) {
    forall i | 0 <= i < |steps| :: IsCents(steps[i])
  }

  lemma {:induction false} SumOfCents(steps: seq<real>)
    requires AllCents(steps)
    ensures IsCents(Sum(steps))
  {
    if steps != [] {
      SumOfCents(steps[..|steps| - 1]);
      CentsAddUp(Sum(steps[..|steps| - 1]), steps[|steps| - 1]);
    }
  }

  ghost predicate Recorded(stages: Stages) {
    forall stage | stage in stages :: IsCents(stages[stage])
  }

  lemma StepsAreCents(stages: Stages)
    requires Recorded(stages)
    ensures AllCents(StepsBefore(stages)) && AllCents(StepsAfter(stages))
  {
    CentsDifference(StageOr(stages, "generation_completion_ms", 0.0), StageOr(stages, "time_to_first_token_ms", 0.0));
  }

  lemma CentsDifference(x: real, y: real)
    requires IsCents(x) && IsCents(y)
    ensures IsCents(x - y)
  {
    var n := (x * 100.0).Floor - (y * 100.0).Floor;
    assert (x - y) * 100.0 == n as real;
  }

  lemma WallIsCents(t: Tasks)
    ensures IsCents(CalculateParallelMetrics(t).wall)
  {
    RoundingMovesLittle(t.vTime + t.kTime);
    RoundingMovesLittle(MaxReal(t.vTime, t.kTime));
    if t.HasTimestamps() {
      RoundingMovesLittle(MaxReal(0.01,
        MaxReal(t.vEnd.value, t.kEnd.value) - MinReal(t.vStart.value, t.kStart.value)));
    }
  }

  /** The critical path adds up the steps exactly, with the two searches counted once, by their wall
      time. */
  lemma CriticalPathIsExact(stages: Stages, timestamps: Stages)
    requires Recorded(stages)
    ensures CriticalPath(stages, timestamps)
         == Sum(StepsBefore(stages)) + CalculateParallelMetrics(TasksOf(stages, timestamps)).wall
            + Sum(StepsAfter(stages))
  {
    var wall := CalculateParallelMetrics(TasksOf(stages, timestamps)).wall;
    var before, after := StepsBefore(stages), StepsAfter(stages);
    WallIsCents(TasksOf(stages, timestamps));
    StepsAreCents(stages);
    SumConcat(before, [wall]);
    SumConcat(before + [wall], after);
    assert [wall][..0] == [];
    assert Sum([wall]) == wall;
    SumOfCents(before + [wall] + after);
    RoundingKeepsCents(Sum(before + [wall] + after));
  }

  /** The duration recorded under the first of the names that has one. */
  function First(stages: Stages, names: seq<string>): real {
    if names == [] then 0.0
    else if names[0] in stages then stages[names[0]]
    else First(stages, names[1..])
  }

  lemma FirstOfTwo(stages: Stages, name: string, fallback: string)
    ensures StageOf(stages, name, fallback) == First(stages, [name, fallback])
  {
    FirstOfOne(stages, fallback);
    assert [name, fallback][1..] == [fallback];
  }

  lemma SumOfFour(a: real, b: real, c: real, d: real)
    ensures Sum([a, b, c, d]) == a + b + c + d
  {
    SumOfTwo(a, b);
    SumOfTwo(c, d);
    SumConcat([a, b], [c, d]);
    assert [a, b, c, d] == [a, b] + [c, d];
  }

  lemma SumOfTwo(a: real, b: real)
    ensures Sum([a, b]) == a + b
  {
    assert [a, b][..1] == [a] && [a][..0] == [];
    assert Sum([a]) == a;
  }

  lemma StepsBeforeByName(stages: Stages)
    ensures Sum(StepsBefore(stages))
         == First(stages, ["authentication_total_ms", "authentication_ms"])
          + First(stages, ["authorization_total_ms", "authorization_ms"])
          + First(stages, ["query_intelligence_total_ms", "query_intelligence_ms"])
          + First(stages, ["embedding_total_ms", "retrieval_embedding_ms"])
  {
    FirstOfTwo(stages, "authentication_total_ms", "authentication_ms");
    FirstOfTwo(stages, "authorization_total_ms", "authorization_ms");
    FirstOfTwo(stages, "query_intelligence_total_ms", "query_intelligence_ms");
    FirstOfTwo(stages, "embedding_total_ms", "retrieval_embedding_ms");
    var b := StepsBefore(stages);
    SumOfFour(b[0], b[1], b[2], b[3]);
    assert b == [b[0], b[1], b[2], b[3]];
  }

  /** The time of token generation: as recorded, or else what is left of the whole generation after the
      first token. */
  ghost predicate GeneratesFor(stages: Stages, ms: real) {
    var recorded := First(stages, ["token_streaming_ms", "token_generation_ms"]);
    var rest := First(stages, ["generation_completion_ms"]) - First(stages, ["time_to_first_token_ms"]);
    && (recorded != 0.0 ==> ms == recorded)
    && (recorded == 0.0 && rest >= 0.0 ==> ms == rest)
    && (recorded == 0.0 && rest < 0.0 ==> ms == 0.0)
  }

  lemma FirstOfOne(stages: Stages, name: string)
    ensures StageOr(stages, name, 0.0) == First(stages, [name])
  {
    assert [name][1..] == [];
  }

  lemma GenerationByName(stages: Stages)
    ensures GeneratesFor(stages, TokenGeneration(stages))
  {
    FirstOfTwo(stages, "token_streaming_ms", "token_generation_ms");
    FirstOfOne(stages, "generation_completion_ms");
    FirstOfOne(stages, "time_to_first_token_ms");
  }

  lemma StepsAfterByName(stages: Stages)
    ensures Sum(StepsAfter(stages))
         == First(stages, ["fusion_total_ms", "fusion_ms"]) + First(stages, ["reranking_total_ms", "reranker_total_ms"])
          + First(stages, ["context_selection_ms"]) + First(stages, ["prompt_construction_ms"])
          + First(stages, ["time_to_first_token_ms"]) + TokenGeneration(stages)
          + First(stages, ["persistence_total_ms"])
  {
    FirstOfTwo(stages, "fusion_total_ms", "fusion_ms");
    FirstOfTwo(stages, "reranking_total_ms", "reranker_total_ms");
    FirstOfOne(stages, "context_selection_ms");
    FirstOfOne(stages, "prompt_construction_ms");
    FirstOfOne(stages, "time_to_first_token_ms");
    FirstOfOne(stages, "persistence_total_ms");
    var a := StepsAfter(stages);
    SumConcat(a[..4], a[4..]);
    SumOfFour(a[0], a[1], a[2], a[3]);
    SumOfFour(0.0, a[4], a[5], a[6]);
    SumConcat([0.0], a[4..]);
    assert Sum([0.0]) == 0.0 by { assert [0.0][..0] == []; }
    assert a[..4] == [a[0], a[1], a[2], a[3]] && [0.0] + a[4..] == [0.0, a[4], a[5], a[6]];
    assert a == a[..4] + a[4..];
  }

  /** The steps of the critical path by name: each counts once, under its own name or the name it falls
      back to, next to the wall time of the two searches. */
  lemma CriticalPathByName(stages: Stages, timestamps: Stages) returns (generation: real)
    requires Recorded(stages)
    ensures GeneratesFor(stages, generation)
    ensures CriticalPath(stages, timestamps)
         == First(stages, ["authentication_total_ms", "authentication_ms"])
          + First(stages, ["authorization_total_ms", "authorization_ms"])
          + First(stages, ["query_intelligence_total_ms", "query_intelligence_ms"])
          + First(stages, ["embedding_total_ms", "retrieval_embedding_ms"])
          + CalculateParallelMetrics(TasksOf(stages, timestamps)).wall
          + First(stages, ["fusion_total_ms", "fusion_ms"]) + First(stages, ["reranking_total_ms", "reranker_total_ms"])
          + First(stages, ["context_selection_ms"]) + First(stages, ["prompt_construction_ms"])
          + First(stages, ["time_to_first_token_ms"]) + generation
          + First(stages, ["persistence_total_ms"])
  {
    CriticalPathIsExact(stages, timestamps);
    StepsBeforeByName(stages);
    StepsAfterByName(stages);
    GenerationByName(stages);
    generation := TokenGeneration(stages);
  }

  /** What is recorded under the first of two names that has something. */
  ghost predicate IsRecorded(m: Stages, name: string, fallback: string, value: Option<real>) {
    && (name in m ==> value == Some(m[name]))
    && (name !in m && fallback in m ==> value == Some(m[fallback]))
    && (name !in m && fallback !in m ==> value == None)
  }

  /** Durations and timestamps of the two searches by name. */
  lemma TasksByName(stages: Stages, timestamps: Stages)
    ensures
      var t := TasksOf(stages, timestamps);
      && t.vTime == First(stages, ["vector_search_ms", "vector_total_ms"])
      && t.kTime == First(stages, ["keyword_search_ms", "keyword_total_ms"])
      && IsRecorded(timestamps, "vector_search_started", "vector_start_offset_ms", t.vStart)
      && IsRecorded(timestamps, "vector_search_completed", "vector_end_offset_ms", t.vEnd)
      && IsRecorded(timestamps, "keyword_search_started", "keyword_start_offset_ms", t.kStart)
      && IsRecorded(timestamps, "keyword_search_completed", "keyword_end_offset_ms", t.kEnd)
  {
    FirstOfTwo(stages, "vector_search_ms", "vector_total_ms");
    FirstOfTwo(stages, "keyword_search_ms", "keyword_total_ms");
  }

  /** Without timestamps of both searches, the critical path and the overlap it saves make up the
      total of all recorded steps, the two searches included. */
  lemma CriticalPathPlusOverlapIsTotal(stages: Stages, timestamps: Stages)
    requires Recorded(stages)
    requires var t := TasksOf(stages, timestamps); !t.HasBoth() || !t.HasTimestamps()
    ensures
      var t := TasksOf(stages, timestamps);
      CriticalPath(stages, timestamps) + CalculateParallelMetrics(t).overlap
      == Sum(StepsBefore(stages)) + t.vTime + t.kTime + Sum(StepsAfter(stages))
  {
    CriticalPathIsExact(stages, timestamps);
    ExactWithoutTimestamps(TasksOf(stages, timestamps));
  }

  /** With measured timestamps, critical path and overlap make up the total of all recorded steps and the
      gap between disjoint searches, up to the roundings of the parallel metrics. */
  lemma CriticalPathPlusOverlapIsTotalPlusGap(stages: Stages, timestamps: Stages)
    requires Recorded(stages) && Measured(TasksOf(stages, timestamps))
    ensures
      var t := TasksOf(stages, timestamps);
      var total := Sum(StepsBefore(stages)) + t.vTime + t.kTime + Sum(StepsAfter(stages));
      -0.02 <= CriticalPath(stages, timestamps) + CalculateParallelMetrics(t).overlap - (total + Gap(t)) <= 0.02
  {
    var t := TasksOf(stages, timestamps);
    CriticalPathIsExact(stages, timestamps);
    WallPlusOverlapIsSumPlusGap(t);
    WallHoldsEachTask(t);
  }
}
