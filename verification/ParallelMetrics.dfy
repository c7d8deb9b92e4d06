/** calculate_parallel_metrics: the overlap arithmetic of the two parallel searches.  Times are exact
    numbers of milliseconds. */
module ParallelMetrics {
  import opened Prelude
  import opened Rounding

  /** The two search tasks: recorded durations and, where present, start and end offsets. */
  datatype Tasks = Tasks(
    vTime: real, kTime: real,
    vStart: Option<real>, vEnd: Option<real>,
    kStart: Option<real>, kEnd: Option<real>)
  {
    predicate HasBoth() { vTime > 0.0 && kTime > 0.0 }

    predicate HasTimestamps() { vStart.Some? && vEnd.Some? && kStart.Some? && kEnd.Some? }
  }

  datatype Metrics = Metrics(taskCount: nat, overlap: real, wall: real, sum: real, efficiency: real)

  function MaxReal(x: real, y: real): real { if x < y then y else x }

  function MinReal(x: real, y: real): real { if y < x then y else x }

  function CalculateParallelMetrics(t: Tasks): Metrics {
    var sum := Round2(t.vTime + t.kTime);
    var (wall, overlap) :=
      if t.HasBoth() && t.HasTimestamps() then
        var earliestStart := MinReal(t.vStart.value, t.kStart.value);
        var latestEnd := MaxReal(t.vEnd.value, t.kEnd.value);
        var overlapStart := MaxReal(t.vStart.value, t.kStart.value);
        var overlapEnd := MinReal(t.vEnd.value, t.kEnd.value);
        (Round2(MaxReal(0.01, latestEnd - earliestStart)), Round2(MaxReal(0.0, overlapEnd - overlapStart)))
      else if t.HasBoth() then (Round2(MaxReal(t.vTime, t.kTime)), Round2(MinReal(t.vTime, t.kTime)))
      else (sum, 0.0);
    Metrics(
      if t.HasBoth() then 2 else if t.vTime > 0.0 || t.kTime > 0.0 then 1 else 0,
      overlap, wall, sum,
      if wall > 0.0 then Round2(sum / MaxReal(wall, 0.01)) else 1.0)
  }

  /** Without timestamps, or with a single task, wall and overlap account for the recorded times
      exactly: recorded stages are whole hundredths. */
  lemma ExactWithoutTimestamps(t: Tasks)
    requires IsCents(t.vTime) && IsCents(t.kTime)
    requires !t.HasBoth() || !t.HasTimestamps()
    ensures
      var m := CalculateParallelMetrics(t);
      m.wall + m.overlap == m.sum == t.vTime + t.kTime
  {
    CentsAddUp(t.vTime, t.kTime);
    RoundingKeepsCents(t.vTime + t.kTime);
    RoundingKeepsCents(t.vTime);
    RoundingKeepsCents(t.kTime);
  }

  /** Without timestamps of both tasks: two tasks are taken to run side by side, so that the longer one is
      the wall time and the shorter one the overlap; a single task is its own wall time. */
  lemma UntimedMetrics(t: Tasks)
    requires IsCents(t.vTime) && IsCents(t.kTime)
    requires !t.HasBoth() || !t.HasTimestamps()
    ensures
      var m := CalculateParallelMetrics(t);
      && (t.vTime > 0.0 && t.kTime > 0.0 && t.vTime <= t.kTime ==> m.wall == t.kTime && m.overlap == t.vTime)
      && (t.vTime > 0.0 && t.kTime > 0.0 && t.kTime <= t.vTime ==> m.wall == t.vTime && m.overlap == t.kTime)
      && (!(t.vTime > 0.0 && t.kTime > 0.0) ==> m.wall == t.vTime + t.kTime && m.overlap == 0.0)
      && (!(t.vTime > 0.0 && t.kTime > 0.0) && m.wall > 0.0 ==> m.efficiency == 1.0)
      && (m.wall <= 0.0 ==> m.efficiency == 1.0)
  {
    RoundingKeepsCents(t.vTime);
    RoundingKeepsCents(t.kTime);
    CentsAddUp(t.vTime, t.kTime);
    RoundingKeepsCents(t.vTime + t.kTime);
    if !(t.vTime > 0.0 && t.kTime > 0.0) && t.vTime + t.kTime > 0.0 {
      RatioToItself(t.vTime + t.kTime);
    }
  }

  lemma RatioToItself(x: real)
    requires IsCents(x) && x > 0.0
    ensures Round2(x / MaxReal(x, 0.01)) == 1.0
  {
    AtLeastACent(x);
    var q := x / x;
    assert q == 1.0;
    RoundingKeepsCents(1.0);
  }

  /** The number of parallel tasks is the number of those that took time. */
  lemma TasksAreCounted(t: Tasks)
    ensures CalculateParallelMetrics(t).taskCount
         == (if t.vTime > 0.0 then 1 else 0) + (if t.kTime > 0.0 then 1 else 0)
  {
  }

  /** Both tasks have timestamps that their recorded durations were taken from. */
  predicate Measured(t: Tasks) {
    && t.HasBoth() && t.HasTimestamps()
    && t.vStart.value <= t.vEnd.value && t.kStart.value <= t.kEnd.value
    && t.vTime == Round2(t.vEnd.value - t.vStart.value)
    && t.kTime == Round2(t.kEnd.value - t.kStart.value)
  }

  /** The pause between two disjoint tasks; zero when they overlap. */
  function Gap(t: Tasks): real
    requires t.HasTimestamps()
  {
    MaxReal(0.0, MaxReal(t.vStart.value, t.kStart.value) - MinReal(t.vEnd.value, t.kEnd.value))
  }

  /** With timestamps, wall plus overlap is the sum of the task times plus the gap between disjoint
      tasks, up to the four roundings. */
  lemma WallPlusOverlapIsSumPlusGap(t: Tasks)
    requires Measured(t)
    ensures
      var m := CalculateParallelMetrics(t);
      -0.02 <= m.wall + m.overlap - (m.sum + Gap(t)) <= 0.02
  {
    var v, k := t.vEnd.value - t.vStart.value, t.kEnd.value - t.kStart.value;
    MeasuredMetrics(t);
    IntervalsAddUp(t);
    FourRoundings(v, k, Wall(t), Overlap(t), Gap(t));
    var m := CalculateParallelMetrics(t);
    assert m.sum == Round2(Round2(v) + Round2(k));
  }

  lemma MeasuredMetrics(t: Tasks)
    requires Measured(t)
    ensures
      var m := CalculateParallelMetrics(t);
      m.wall == Round2(Wall(t)) && m.overlap == Round2(Overlap(t)) && m.sum == Round2(t.vTime + t.kTime)
  {
    LeastWall(t);
  }

  /** Both durations are at least a hundredth after rounding, so the lower limit of the wall time makes
      no difference. */
  lemma LeastWall(t: Tasks)
    requires Measured(t)
    ensures Round2(MaxReal(0.01, Wall(t))) == Round2(Wall(t)) >= 0.01
  {
    var v := t.vEnd.value - t.vStart.value;
    RoundingMovesLittle(v);
    AtLeastACent(t.vTime);
    RoundingIsMonotone(v, Wall(t));
    if Wall(t) < 0.01 {
      RoundingIsMonotone(Wall(t), 0.01);
      RoundingKeepsCents(0.01);
    }
  }

  /** Timestamped tasks, the vector search starting first: the wall time runs to the later end, and the
      overlap is what the keyword search has in common with it: nothing, all of it, or its beginning. */
  lemma OverlapByOrder(t: Tasks)
    requires Measured(t) && t.vStart.value <= t.kStart.value
    ensures
      var m := CalculateParallelMetrics(t);
      && (t.kEnd.value >= t.vEnd.value ==> m.wall == Round2(t.kEnd.value - t.vStart.value))
      && (t.kEnd.value <= t.vEnd.value ==> m.wall == Round2(t.vEnd.value - t.vStart.value))
      && (t.kStart.value >= t.vEnd.value ==> m.overlap == 0.0)
      && (t.kStart.value <= t.vEnd.value && t.kEnd.value <= t.vEnd.value ==>
            m.overlap == Round2(t.kEnd.value - t.kStart.value))
      && (t.kStart.value <= t.vEnd.value <= t.kEnd.value ==> m.overlap == Round2(t.vEnd.value - t.kStart.value))
  {
    MeasuredMetrics(t);
    RoundingKeepsCents(0.0);
  }

  /** It makes no difference which search is which. */
  lemma TasksCommute(t: Tasks)
    ensures CalculateParallelMetrics(Tasks(t.kTime, t.vTime, t.kStart, t.kEnd, t.vStart, t.vEnd))
         == CalculateParallelMetrics(t)
  {
    assert t.vTime + t.kTime == t.kTime + t.vTime;
  }

  // The bound 0.02 cannot be improved: here all four roundings pull the same way.
  lemma TheBoundIsAttained()
    ensures
      var t := Tasks(1.00, 1.00, Some(0.0), Some(1.005), Some(0.01), Some(1.015));
      var m := CalculateParallelMetrics(t);
      Measured(t) && Gap(t) == 0.0 && m.wall + m.overlap == m.sum + 0.02
  {
    assert (100.5 as real).Floor == 100;
    assert (101.5 as real).Floor == 101;
    assert (99.5 as real).Floor == 99;
    assert Round2(1.005) == 1.00;
    assert Round2(1.015) == 1.02;
    assert Round2(0.995) == 1.00;
    assert Round2(2.00) == 2.00;
  }

  /** The unrounded wall time and overlap. */
  function Wall(t: Tasks): real
    requires t.HasTimestamps()
  {
    MaxReal(t.vEnd.value, t.kEnd.value) - MinReal(t.vStart.value, t.kStart.value)
  }

  function Overlap(t: Tasks): real
    requires t.HasTimestamps()
  {
    MaxReal(0.0, MinReal(t.vEnd.value, t.kEnd.value) - MaxReal(t.vStart.value, t.kStart.value))
  }

  lemma IntervalsAddUp(t: Tasks)
    requires Measured(t)
    ensures
      Wall(t) + Overlap(t) == (t.vEnd.value - t.vStart.value) + (t.kEnd.value - t.kStart.value) + Gap(t)
  {
  }

  lemma FourRoundings(v: real, k: real, wall: real, overlap: real, gap: real)
    requires wall + overlap == v + k + gap
    ensures -0.02 <= Round2(wall) + Round2(overlap) - (Round2(Round2(v) + Round2(k)) + gap) <= 0.02
  {
    RoundingMovesLittle(v);
    RoundingMovesLittle(k);
    RoundingMovesLittle(wall);
    RoundingMovesLittle(overlap);
    SumOfRounded(v, k);
  }

  lemma SumOfRounded(v: real, k: real)
    ensures Round2(Round2(v) + Round2(k)) == Round2(v) + Round2(k)
  {
    RoundingMovesLittle(v);
    RoundingMovesLittle(k);
    CentsAddUp(Round2(v), Round2(k));
    RoundingKeepsCents(Round2(v) + Round2(k));
  }

  /** Disjoint tasks do not overlap, and the wall time exceeds the sum by the gap. */
  lemma DisjointTasks(t: Tasks)
    requires Measured(t) && MinReal(t.vEnd.value, t.kEnd.value) <= MaxReal(t.vStart.value, t.kStart.value)
    ensures
      var m := CalculateParallelMetrics(t);
      m.overlap == 0.0 && -0.02 <= m.wall - (m.sum + Gap(t)) <= 0.02
  {
    WallPlusOverlapIsSumPlusGap(t);
    RoundingKeepsCents(0.0);
  }

  /** The credited speed-up of two tasks, timestamped or not, is never above two; it is at least one
      when the wall time is no more than the sum of the task times, and at most one otherwise.  Without
      timestamps the wall time is never more. */
  lemma EfficiencyIsAtMostTwo(t: Tasks)
    requires Measured(t) || (t.HasBoth() && !t.HasTimestamps() && IsCents(t.vTime) && IsCents(t.kTime))
    ensures
      var m := CalculateParallelMetrics(t);
      && 0.0 <= m.efficiency <= 2.0
      && (m.wall <= m.sum ==> 1.0 <= m.efficiency)
      && (m.wall >= m.sum ==> m.efficiency <= 1.0)
      && (!t.HasTimestamps() ==> m.wall <= m.sum)
  {
    var m := CalculateParallelMetrics(t);
    WallHoldsEachTask(t);
    RoundedRatio(m.sum, m.wall);
  }

  /** Rounding is monotone, so the rounded wall time is no less than either recorded duration. */
  lemma WallHoldsEachTask(t: Tasks)
    requires Measured(t) || (t.HasBoth() && !t.HasTimestamps() && IsCents(t.vTime) && IsCents(t.kTime))
    ensures
      var m := CalculateParallelMetrics(t);
      && m.wall >= 0.01 && m.sum == t.vTime + t.kTime && 0.0 < m.sum <= 2.0 * m.wall
      && m.efficiency == Round2(m.sum / m.wall)
      && (!t.HasTimestamps() ==> m.wall <= m.sum)
  {
    if t.HasTimestamps() {
      RecordedTimesAreCents(t);
    }
    CentsAddUp(t.vTime, t.kTime);
    RoundingKeepsCents(t.vTime + t.kTime);
    if t.HasTimestamps() {
      MeasuredWall(t);
    } else {
      RoundingKeepsCents(MaxReal(t.vTime, t.kTime));
      AtLeastACent(MaxReal(t.vTime, t.kTime));
    }
  }

  lemma MeasuredWall(t: Tasks)
    requires Measured(t)
    ensures
      var wall := Round2(Wall(t));
      CalculateParallelMetrics(t).wall == wall >= 0.01 && t.vTime <= wall && t.kTime <= wall
  {
    RoundingIsMonotone(t.vEnd.value - t.vStart.value, Wall(t));
    RoundingIsMonotone(t.kEnd.value - t.kStart.value, Wall(t));
    LeastWall(t);
  }

  lemma RecordedTimesAreCents(t: Tasks)
    requires Measured(t)
    ensures IsCents(t.vTime) && IsCents(t.kTime)
  {
    RoundingMovesLittle(t.vEnd.value - t.vStart.value);
    RoundingMovesLittle(t.kEnd.value - t.kStart.value);
  }

  lemma AtLeastACent(x: real)
    requires IsCents(x) && x > 0.0
    ensures x >= 0.01
  {
    assert (x * 100.0).Floor >= 1;
  }

  lemma RoundedRatio(sum: real, wall: real)
    requires wall > 0.0 && 0.0 <= sum <= 2.0 * wall
    ensures 0.0 <= Round2(sum / wall) <= 2.0
    ensures wall <= sum ==> 1.0 <= Round2(sum / wall)
    ensures sum <= wall ==> Round2(sum / wall) <= 1.0
  {
    var q := sum / wall;
    assert q * wall == sum;
    FactorBounds(q, wall, sum);
    RoundingIsMonotone(0.0, q);
    RoundingIsMonotone(q, 2.0);
    RoundingIsMonotone(if wall <= sum then 1.0 else q, q);
    RoundingIsMonotone(q, if sum <= wall then 1.0 else q);
    RoundingKeepsCents(0.0);
    RoundingKeepsCents(1.0);
    RoundingKeepsCents(2.0);
  }

  lemma FactorBounds(q: real, wall: real, sum: real)
    requires wall > 0.0 && q * wall == sum && 0.0 <= sum <= 2.0 * wall
    ensures 0.0 <= q <= 2.0
    ensures wall <= sum ==> 1.0 <= q
    ensures sum <= wall ==> q <= 1.0
  {
    if q < 0.0 { Scale(q, 0.0, wall); }
    if q < 1.0 { Scale(q, 1.0, wall); }
    if 1.0 < q { Scale(1.0, q, wall); }
    if 2.0 < q { Scale(2.0, q, wall); }
  }
}
