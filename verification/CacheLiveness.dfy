/** Nobody who waits on the cache is forgotten, and every run can come to rest. */
module CacheLiveness {
  import opened Lru
  import opened CacheRegions
  import opened CacheProtocol

  /** No lost wakeups.  In every reachable state a waiting caller's future is done already, so that
      the caller can run again, or it is registered under the caller's key while the executor that
      created it is still running and will complete it. */
  lemma {:induction false} NoLostWakeups(dim: Key -> nat, maxSize: int, run: seq<Event>, c: CallerId)
    requires c in After(dim, maxSize, run).callers && After(dim, maxSize, run).callers[c].Waiting?
    ensures
      var s := After(dim, maxSize, run);
      var Waiting(key, f, _) := s.callers[c];
      && f < |s.futures|
      && (s.futures[f].state.Done()
          || (key in s.inFlight && s.inFlight[key] == f && s.IsExecuting(s.futures[f].creator, key)))
  {
    ReachableStatesAreSound(dim, maxSize, run);
  }

  ghost function CallersThat(callers: map<CallerId, Phase>, f: Phase -> bool): set<CallerId> {
    set c | c in callers && f(callers[c])
  }

  predicate IsWaiting(p: Phase) { p.Waiting? }

  predicate IsExecuting(p: Phase) { p.Executing? }

  ghost function Waiters(s: State): set<CallerId> { CallersThat(s.callers, IsWaiting) }

  ghost function Executors(s: State): set<CallerId> { CallersThat(s.callers, IsExecuting) }

  lemma RegisteredFuturesHaveExecutors(s: State, key: Key)
    requires Inv(s) && key in s.inFlight
    ensures s.futures[s.inFlight[key]].creator in Executors(s)
  {
  }

  lemma NoExecutorMeansEmptyTable(s: State)
    requires Inv(s) && Executors(s) == {}
    ensures s.inFlight == map[]
  {
    if key :| key in s.inFlight {
      RegisteredFuturesHaveExecutors(s, key);
      assert false;
    }
  }

  /** When no executor is left, the table of computations in flight is empty and no caller waits on
      a future that is still pending. */
  lemma NoExecutorMeansNothingPending(dim: Key -> nat, maxSize: int, run: seq<Event>)
    requires Executors(After(dim, maxSize, run)) == {}
    ensures After(dim, maxSize, run).inFlight == map[]
    ensures
      var s := After(dim, maxSize, run);
      forall c | c in Waiters(s) ::
        s.callers[c].future < |s.futures| && s.futures[s.callers[c].future].state.Done()
  {
    ReachableStatesAreSound(dim, maxSize, run);
    NoExecutorMeansEmptyTable(After(dim, maxSize, run));
  }

  lemma CallersThatUpdate(callers: map<CallerId, Phase>, c: CallerId, p: Phase, f: Phase -> bool)
    ensures CallersThat(callers[c := p], f)
         == CallersThat(callers, f) - {c} + (if f(p) then {c} else {})
  {
  }

  lemma CountUpdate(callers: map<CallerId, Phase>, c: CallerId, p: Phase, f: Phase -> bool)
    ensures |CallersThat(callers[c := p], f)|
         == |CallersThat(callers, f)|
            - (if c in callers && f(callers[c]) then 1 else 0)
            + (if f(p) then 1 else 0)
  {
    CallersThatUpdate(callers, c, p, f);
    var before := CallersThat(callers, f);
    if c in before {
      assert |before - {c}| == |before| - 1;
    } else {
      assert before - {c} == before;
    }
  }

  /** What is left to do: a waiter may have to wait and then compute, an executor to compute. */
  ghost function Work(s: State): nat {
    2 * |Waiters(s)| + |Executors(s)|
  }

  /** Every wake-up or completion that changes anything brings the run closer to rest, so schedules
      of these alone cannot go on for more than Work steps. */
  lemma WakeAndFinishMakeProgress(dim: Key -> nat, s: State, e: Event)
    requires e.Wake? || e.Finish?
    ensures Step(dim, s, e) == s || Work(Step(dim, s, e)) < Work(s)
  {
    if Step(dim, s, e) != s {
      var p := MoverMovesOn(dim, s, e);
      CountUpdate(s.callers, e.caller, p, IsWaiting);
      CountUpdate(s.callers, e.caller, p, IsExecuting);
    }
  }

  lemma MoverMovesOn(dim: Key -> nat, s: State, e: Event) returns (p: Phase)
    requires e.Wake? || e.Finish?
    requires Step(dim, s, e) != s
    ensures e.caller in s.callers
    ensures Step(dim, s, e).callers == s.callers[e.caller := p]
    ensures !p.Waiting?
    ensures !s.callers[e.caller].Waiting? ==> s.callers[e.caller].Executing? && !p.Executing?
  {
    p := Step(dim, s, e).callers[e.caller];
  }

  /** A wake-up, or a computation that fails. */
  predicate IsWakeOrFailure(e: Event) {
    e.Wake? || (e.Finish? && e.outcome == Raises(true))
  }

  /** As long as somebody waits or computes, a wake-up or a completion is enabled. */
  lemma SomebodyCanMove(dim: Key -> nat, s: State) returns (e: Event)
    requires Inv(s) && Work(s) > 0
    ensures IsWakeOrFailure(e) && Step(dim, s, e) != s
  {
    if c :| c in Executors(s) {
      e := Finish(c, Raises(true));
      assert Step(dim, s, e).callers[c] == Raised(s.callers[c].key);
    } else {
      assert Executors(s) == {};
      var c :| c in Waiters(s);
      e := Wake(c);
      NoExecutorMeansEmptyTable(s);
      assert s.futures[s.callers[c].future].state.Done();
      assert !Step(dim, s, e).callers[c].Waiting?;
    }
  }

  /** The steps of a run, taken from a given state. */
  function Continue(dim: Key -> nat, s: State, run: seq<Event>): State
    decreases |run|
  {
    if run == [] then s else Continue(dim, Step(dim, s, run[0]), run[1..])
  }

  lemma {:induction false} ContinueIsAfter(dim: Key -> nat, maxSize: int, run: seq<Event>, cut: nat)
    requires cut <= |run|
    ensures After(dim, maxSize, run) == Continue(dim, After(dim, maxSize, run[..cut]), run[cut..])
    decreases |run| - cut
  {
    if cut == |run| {
      assert run[..cut] == run;
    } else {
      AfterOneMore(dim, maxSize, run[..cut], run[cut]);
      assert run[..cut + 1] == run[..cut] + [run[cut]];
      ContinueIsAfter(dim, maxSize, run, cut + 1);
      assert run[cut..][1..] == run[cut + 1..];
    }
  }

  lemma {:induction false} DriveToRest(dim: Key -> nat, s: State) returns (more: seq<Event>)
    requires Inv(s)
    ensures |more| <= Work(s)
    ensures forall i | 0 <= i < |more| :: IsWakeOrFailure(more[i])
    ensures Work(Continue(dim, s, more)) == 0
    decreases Work(s)
  {
    if Work(s) == 0 {
      more := [];
    } else {
      var e := SomebodyCanMove(dim, s);
      WakeAndFinishMakeProgress(dim, s, e);
      StepKeepsInv(dim, s, e);
      var rest := DriveToRest(dim, Step(dim, s, e));
      more := [e] + rest;
      assert more[1..] == rest;
    }
  }

  /** Deadlock freedom: from every reachable state at most Work wake-ups and completions, even if
      every computation still to come fails, lead to a state in which every call has returned and
      nothing is in flight. */
  lemma {:induction false} EveryRunCanComeToRest(dim: Key -> nat, maxSize: int, run: seq<Event>)
    returns (more: seq<Event>)
    ensures |more| <= Work(After(dim, maxSize, run))
    ensures forall i | 0 <= i < |more| :: IsWakeOrFailure(more[i])
    ensures
      var s := After(dim, maxSize, run + more);
      && s.inFlight == map[]
      && forall c | c in s.callers :: !s.callers[c].Waiting? && !s.callers[c].Executing?
  {
    ReachableStatesAreSound(dim, maxSize, run);
    more := DriveToRest(dim, After(dim, maxSize, run));
    ContinueIsAfter(dim, maxSize, run + more, |run|);
    assert (run + more)[..|run|] == run && (run + more)[|run|..] == more;
    var s := After(dim, maxSize, run + more);
    assert Waiters(s) == {} && Executors(s) == {};
    NoExecutorMeansNothingPending(dim, maxSize, run + more);
    forall c | c in s.callers
      ensures !s.callers[c].Waiting? && !s.callers[c].Executing?
    {
      assert c !in Waiters(s) && c !in Executors(s);
    }
  }

  // ------------------------------------------------------------------------------ every schedule

  predicate IsWakeOrFinish(e: Event) {
    e.Wake? || e.Finish?
  }

  /** A schedule of wake-ups and completions, whatever their outcomes, that each change something. */
  ghost predicate IsBusy(dim: Key -> nat, s: State, more: seq<Event>)
    decreases |more|
  {
    more != [] ==>
      && IsWakeOrFinish(more[0]) && Step(dim, s, more[0]) != s
      && IsBusy(dim, Step(dim, s, more[0]), more[1..])
  }

  ghost predicate NothingIsEnabled(dim: Key -> nat, s: State) {
    forall e | IsWakeOrFinish(e) :: Step(dim, s, e) == s
  }

  ghost predicate IsAtRest(s: State) {
    && s.inFlight == map[]
    && forall c | c in s.callers :: !s.callers[c].Waiting? && !s.callers[c].Executing?
  }

  lemma {:induction false} BusySchedulesUseUpWork(dim: Key -> nat, s: State, more: seq<Event>)
    requires IsBusy(dim, s, more)
    ensures |more| + Work(Continue(dim, s, more)) <= Work(s)
    decreases |more|
  {
    if more != [] {
      WakeAndFinishMakeProgress(dim, s, more[0]);
      BusySchedulesUseUpWork(dim, Step(dim, s, more[0]), more[1..]);
    }
  }

  lemma StuckIsAtRest(dim: Key -> nat, s: State)
    requires Inv(s)
    ensures NothingIsEnabled(dim, s) <==> IsAtRest(s)
  {
    if NothingIsEnabled(dim, s) {
      if Work(s) > 0 {
        var e := SomebodyCanMove(dim, s);
        assert IsWakeOrFinish(e);
      }
      assert Waiters(s) == {} && Executors(s) == {};
      NoExecutorMeansEmptyTable(s);
      forall c | c in s.callers
        ensures !s.callers[c].Waiting? && !s.callers[c].Executing?
      {
        assert c !in Waiters(s) && c !in Executors(s);
      }
    }
  }

  /** Every schedule comes to rest: from every reachable state, however wake-ups and completions are
      ordered and computations end, at most Work of them change anything, and when none is enabled
      any more, exactly then every call has returned and nothing is in flight. */
  lemma {:induction false} EveryScheduleComesToRest(dim: Key -> nat, maxSize: int, run: seq<Event>, more: seq<Event>)
    requires IsBusy(dim, After(dim, maxSize, run), more)
    ensures |more| <= Work(After(dim, maxSize, run))
    ensures NothingIsEnabled(dim, After(dim, maxSize, run + more)) <==> IsAtRest(After(dim, maxSize, run + more))
  {
    BusySchedulesUseUpWork(dim, After(dim, maxSize, run), more);
    ReachableStatesAreSound(dim, maxSize, run + more);
    StuckIsAtRest(dim, After(dim, maxSize, run + more));
  }
}
