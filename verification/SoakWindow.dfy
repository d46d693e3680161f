// The 24-hour openings window of the continuous Demo soak: a plan file and a state
// file rewritten by each command, and the worker loop that ticks.

module SoakWindow {
  import opened Util

  /** Twenty-four hours, in seconds. */
  const DURATION := 86400

  datatype PlanStatus = Prepared | Running | Draining | Stopped

  datatype Plan = Plan(
    status: PlanStatus, release: string, deployment: string, startsAt: Option<int>, openingsEnd: Option<int>)

  datatype StateStatus = StatePrepared | StateRunning | StateDraining | StateBlocked | StateStopped

  datatype TickStatus = TickOk | TickDrained | TickBlocked

  /** How one tick of the worker went: with a status, or raising. */
  datatype WorkerTick = Went(status: TickStatus) | Refused

  datatype Blocked =
    | PlanUnset
    | ExistingPlanDrift
    | FailedAgentLoaded
    | ReleaseDrift
    | RunningAgentUnloaded
    | PlanNotPrepared
    | RuntimeNotReady
    | LaunchdStart
    | PlanNotRunning
    | OperatorUnavailable
    | OperatorFailed
    | NotDrained
    | LaunchdStop

  datatype Done = Fresh | RepeatNoOp

  /** What a command did to the window, and when. */
  datatype Event =
    | Opened(at: int)
    | Ticked(at: int, openings: bool)
    | StopAsked(at: int)
    | OtherCommand(at: int)

  // ------------------------------------------------------------------- the claim

  predicate Closing(e: Event) {
    e.StopAsked? || (e.Ticked? && !e.openings)
  }

  /** Event i opened the window and nothing since has closed or reopened it. */
  ghost predicate OpenSince(log: seq<Event>, i: nat) {
    && i < |log| && log[i].Opened?
    && forall k :: i < k < |log| ==> !Closing(log[k]) && !log[k].Opened?
  }

  /**
   * Every tick with openings enabled lies within 24 hours after an opening confirm,
   * with no stop, no openings-disabled tick and no other opening in between.
   */
  ghost predicate WindowSafe(log: seq<Event>) {
    forall j :: 0 <= j < |log| && log[j].Ticked? && log[j].openings ==> TickJustified(log, j)
  }

  ghost predicate TickJustified(log: seq<Event>, j: nat)
    requires j < |log|
  {
    exists i: nat :: OpenSince(log[..j], i) && log[i].at <= log[j].at < log[i].at + 86400
  }

  ghost predicate TimesAscend(log: seq<Event>) {
    forall i, j :: 0 <= i < j < |log| ==> log[i].at <= log[j].at
  }

  /** The last opening, with no stop since; openings-disabled ticks are past its end. */
  ghost predicate LatestOpening(log: seq<Event>, i: nat, end: int) {
    && i < |log| && log[i].Opened? && end == log[i].at + DURATION
    && forall k :: i < k < |log| ==>
         !log[k].StopAsked? && !log[k].Opened? && (log[k].Ticked? && !log[k].openings ==> end <= log[k].at)
  }

  /** How the plan file relates to the history of commands. */
  ghost predicate PlanMatchesLog(plan: Option<Plan>, log: seq<Event>) {
    plan.Some? ==>
      && (plan.value.status == Running ==>
            plan.value.openingsEnd.Some? && exists i: nat :: LatestOpening(log, i, plan.value.openingsEnd.value))
      && (plan.value.status == Draining ==>
            plan.value.openingsEnd.Some? && log != [] && plan.value.openingsEnd.value <= log[|log| - 1].at)
  }

  ghost predicate NotBefore(log: seq<Event>, now: int) {
    log != [] ==> log[|log| - 1].at <= now
  }

  lemma PrefixesUnchanged(log: seq<Event>, e: Event)
    requires WindowSafe(log) && (e.Ticked? && e.openings ==> TickJustified(log + [e], |log|))
    ensures WindowSafe(log + [e])
  {
    var log' := log + [e];
    forall j | 0 <= j < |log'| && log'[j].Ticked? && log'[j].openings
      ensures TickJustified(log', j)
    {
      if j < |log| {
        assert TickJustified(log, j);
        assert log'[..j] == log[..j];
        var i: nat :| OpenSince(log[..j], i) && log[i].at <= log[j].at < log[i].at + DURATION;
        assert log'[i] == log[i];
      }
    }
  }

  /** An enabled tick of a running plan is justified by the opening that set its end. */
  lemma EnabledTickJustified(log: seq<Event>, i: nat, end: int, now: int)
    requires LatestOpening(log, i, end) && TimesAscend(log) && NotBefore(log, now) && now < end
    ensures TickJustified(log + [Ticked(now, true)], |log|)
  {
    var log' := log + [Ticked(now, true)];
    assert log'[..|log|] == log;
    forall k | i < k < |log|
      ensures !Closing(log[k])
    {
      assert log[k].at <= log[|log| - 1].at;
    }
    assert OpenSince(log, i);
    assert log'[i].at <= log'[|log|].at;
  }

  lemma OpeningStays(log: seq<Event>, i: nat, end: int, e: Event)
    requires LatestOpening(log, i, end) && !e.StopAsked? && !e.Opened?
    requires e.Ticked? && !e.openings ==> end <= e.at
    ensures LatestOpening(log + [e], i, end)
  {
  }

  // ------------------------------------------------------------------- commands

  class Soak {
    var plan: Option<Plan>
    var state: Option<StateStatus>

    /** Every command so far, in order. */
    ghost var log: seq<Event>

    ghost predicate Valid()
      reads this
    {
      WindowSafe(log) && TimesAscend(log) && PlanMatchesLog(plan, log)
    }

    constructor ()
      ensures Valid() && plan.None? && state.None? && log == []
    {
      plan, state, log := None, None, [];
    }

    /** Record an event that leaves the plan's window as it is. */
    ghost method Note(e: Event)
      requires Valid() && NotBefore(log, e.at) && !e.StopAsked? && !e.Opened?
      requires e.Ticked? && e.openings ==> TickJustified(log + [e], |log|)
      requires e.Ticked? && !e.openings && plan.Some? && plan.value.status == Running ==>
        plan.value.openingsEnd.Some? && plan.value.openingsEnd.value <= e.at
      modifies this`log
      ensures Valid() && log == old(log) + [e]
    {
      PrefixesUnchanged(log, e);
      if plan.Some? && plan.value.status == Running {
        var i: nat :| LatestOpening(log, i, plan.value.openingsEnd.value);
        OpeningStays(log, i, plan.value.openingsEnd.value, e);
      }
      log := log + [e];
    }

    /** Freeze a plan. An unfinished one is kept, unless its worker has failed. */
    method Prepare(now: int, release: string, deployment: string, agentGone: bool) returns (r: Result<Done, Blocked>)
      requires Valid() && NotBefore(log, now)
      modifies this
      ensures Valid() && log == old(log) + [OtherCommand(now)]
      ensures r == Ok(Fresh) ==> plan == Some(Plan(Prepared, release, deployment, None, None))
      ensures r == Ok(Fresh) ==> state == if old(plan).Some? then Some(StatePrepared) else old(state)
      ensures r != Ok(Fresh) ==> plan == old(plan) && state == old(state)
      ensures old(plan).Some? && old(plan).value.status != Stopped && old(state) != Some(StateBlocked) ==> r != Ok(Fresh)
      ensures r == Ok(RepeatNoOp) ==> old(plan).Some? && old(plan).value.release == release && old(plan).value.deployment == deployment
      ensures r == Ok(Fresh) <==>
        old(plan).None? || old(plan).value.status == Stopped || (old(state) == Some(StateBlocked) && agentGone)
      ensures r == Ok(RepeatNoOp) <==>
        && old(plan).Some? && old(plan).value.status != Stopped && old(state) != Some(StateBlocked)
        && old(plan).value.release == release && old(plan).value.deployment == deployment
    {
      Note(OtherCommand(now));
      if plan.Some? && plan.value.status != Stopped {
        if state != Some(StateBlocked) {
          if plan.value.release != release || plan.value.deployment != deployment {
            return Err(ExistingPlanDrift);
          }
          return Ok(RepeatNoOp);
        }
        if !agentGone {
          return Err(FailedAgentLoaded);
        }
      }
      if plan.Some? {
        state := Some(StatePrepared);
      }
      plan := Some(Plan(Prepared, release, deployment, None, None));
      r := Ok(Fresh);
    }

    /** Open the window for 24 hours. A failed launch takes the opening back. */
    method Confirm(now: int, release: string, agentLoaded: bool, runtimeReady: bool, bootstrapFails: bool)
      returns (r: Result<Done, Blocked>)
      requires Valid() && NotBefore(log, now)
      modifies this
      ensures Valid()
      ensures r == Ok(Fresh) ==>
        && log == old(log) + [Opened(now)] && old(plan).Some? && old(plan).value.status == Prepared && runtimeReady
        && plan == Some(old(plan).value.(status := Running, startsAt := Some(now), openingsEnd := Some(now + 86400)))
        && state == Some(StateRunning)
      ensures r == Ok(Fresh) <==>
        && old(plan).Some? && old(plan).value.release == release && old(plan).value.status == Prepared
        && runtimeReady && !bootstrapFails
      ensures r == Ok(RepeatNoOp) <==>
        && old(plan).Some? && old(plan).value.release == release && old(plan).value.status == Running && agentLoaded
      ensures r != Ok(Fresh) ==> plan == old(plan) && log == old(log) + [OtherCommand(now)]
      ensures r.Err? && r.error != LaunchdStart ==> state == old(state)
      ensures r == Err(LaunchdStart) ==> state == Some(StateBlocked)
    {
      if plan.None? {
        Note(OtherCommand(now));
        return Err(PlanUnset);
      }
      var prior := plan.value;
      if prior.release != release {
        Note(OtherCommand(now));
        return Err(ReleaseDrift);
      }
      if prior.status == Running {
        Note(OtherCommand(now));
        return if agentLoaded then Ok(RepeatNoOp) else Err(RunningAgentUnloaded);
      }
      if prior.status != Prepared {
        Note(OtherCommand(now));
        return Err(PlanNotPrepared);
      }
      if !runtimeReady {
        Note(OtherCommand(now));
        return Err(RuntimeNotReady);
      }
      plan := Some(prior.(status := Running, startsAt := Some(now), openingsEnd := Some(now + DURATION)));
      state := Some(StateRunning);
      if bootstrapFails {
        state := Some(StateBlocked);
        plan := Some(prior.(status := Prepared));
        Note(OtherCommand(now));
        return Err(LaunchdStart);
      }
      PrefixesUnchanged(log, Opened(now));
      assert LatestOpening(log + [Opened(now)], |log|, now + DURATION);
      log := log + [Opened(now)];
      r := Ok(Fresh);
    }

    /** The plan can tick: it is running or draining, and a tick with openings has a ready runtime. */
    predicate Tickable(now: int, runtimeReady: bool)
      reads this
      requires Valid()
    {
      && plan.Some? && (plan.value.status == Running || plan.value.status == Draining)
      && (now < plan.value.openingsEnd.value ==> runtimeReady)
    }

    /**
     * One tick: openings are enabled exactly before the plan's end. The operator that
     * was called with them may still raise, which makes the call a tick all the same.
     */
    method Tick(now: int, runtimeReady: bool, operatorBuilt: bool, operatorFails: bool, outcome: TickStatus)
      returns (r: Result<bool, Blocked>)
      requires Valid() && NotBefore(log, now)
      modifies this
      ensures Valid() && plan == old(plan)
      ensures r.Ok? <==> old(Tickable(now, runtimeReady)) && operatorBuilt && !operatorFails
      ensures r == Err(OperatorFailed) <==> old(Tickable(now, runtimeReady)) && operatorBuilt && operatorFails
      ensures r == Err(OperatorUnavailable) <==> old(Tickable(now, runtimeReady)) && !operatorBuilt
      ensures r.Ok? ==> r.value == (now < plan.value.openingsEnd.value) && log == old(log) + [Ticked(now, r.value)]
      ensures r.Ok? && plan.value.status == Draining ==> !r.value
      ensures r.Ok? ==> state == Some(
        if outcome == TickBlocked then StateBlocked else if outcome == TickDrained then StateStopped
        else if r.value then StateRunning else StateDraining)
      ensures r == Err(OperatorFailed) ==> log == old(log) + [Ticked(now, now < plan.value.openingsEnd.value)]
      ensures r.Err? && r.error != OperatorFailed ==> log == old(log) + [OtherCommand(now)]
      ensures r.Err? ==> state == old(state)
    {
      if plan.None? {
        Note(OtherCommand(now));
        return Err(PlanUnset);
      }
      if plan.value.status != Running && plan.value.status != Draining {
        Note(OtherCommand(now));
        return Err(PlanNotRunning);
      }
      var openings := now < plan.value.openingsEnd.value;
      if openings && !runtimeReady {
        Note(OtherCommand(now));
        return Err(RuntimeNotReady);
      }
      if !operatorBuilt {
        Note(OtherCommand(now));
        return Err(OperatorUnavailable);
      }
      if openings {
        ghost var i: nat :| LatestOpening(log, i, plan.value.openingsEnd.value);
        EnabledTickJustified(log, i, plan.value.openingsEnd.value, now);
      }
      Note(Ticked(now, openings));
      if operatorFails {
        return Err(OperatorFailed);
      }
      state := Some(
        if outcome == TickBlocked then StateBlocked
        else if outcome == TickDrained then StateStopped
        else if openings then StateRunning
        else StateDraining);
      r := Ok(openings);
    }

    /** End the openings now, whatever the plan's status. */
    method Stop(now: int) returns (r: Result<Done, Blocked>)
      requires Valid() && NotBefore(log, now)
      modifies this
      ensures Valid() && state == old(state)
      ensures r.Ok? <==> old(plan).Some?
      ensures r.Ok? ==> log == old(log) + [StopAsked(now)]
      ensures r.Ok? ==> plan == Some(old(plan).value.(status := Draining, openingsEnd := Some(now)))
      ensures r.Err? ==> plan == old(plan) && log == old(log) + [OtherCommand(now)]
    {
      if plan.None? {
        Note(OtherCommand(now));
        return Err(PlanUnset);
      }
      plan := Some(plan.value.(status := Draining, openingsEnd := Some(now)));
      PrefixesUnchanged(log, StopAsked(now));
      log := log + [StopAsked(now)];
      r := Ok(Fresh);
    }

    /** Retire a drained plan. */
    method Finalize(now: int, agentGone: bool) returns (r: Result<Done, Blocked>)
      requires Valid() && NotBefore(log, now)
      modifies this
      ensures Valid() && state == old(state) && log == old(log) + [OtherCommand(now)]
      ensures r.Ok? <==> old(state) == Some(StateStopped) && agentGone && old(plan).Some?
      ensures plan == if r.Ok? then Some(old(plan).value.(status := Stopped)) else old(plan)
    {
      Note(OtherCommand(now));
      if state != Some(StateStopped) {
        return Err(NotDrained);
      }
      if !agentGone {
        return Err(LaunchdStop);
      }
      if plan.None? {
        return Err(PlanUnset);
      }
      plan := Some(plan.value.(status := Stopped));
      r := Ok(Fresh);
    }

    /** Other commands that may run while the worker sleeps. */
    method OtherCommands(start: int) returns (now: int)
      requires Valid() && NotBefore(log, start)
      modifies this
      ensures Valid() && start <= now && NotBefore(log, now) && old(log) <= log
    {
      now := start;
      var budget: nat := *;
      while budget > 0
        invariant Valid() && start <= now && NotBefore(log, now) && old(log) <= log
      {
        var waited: int := *;
        now := if waited > 0 then now + waited else now;
        var release: string, deployment: string, flag: bool, ready: bool, fails: bool := *, *, *, *, *;
        var outcome: TickStatus := *;
        if {
          case true => var r := Prepare(now, release, deployment, flag);
          case true => var r := Confirm(now, release, flag, ready, fails);
          case true => var r := Stop(now);
          case true => var r := Finalize(now, flag);
          case true => var r := Tick(now, flag, ready, fails, outcome);
        }
        budget := budget - 1;
      }
    }

    /**
     * The worker loop, until it ends or has been killed after the given ticks. It goes on
     * exactly as long as its ticks are in order; a drained one ends it with 0, unless the
     * runtime cannot be stopped, and anything else with 1 after recording BLOCKED.
     */
    method Run(start: int, ticks: nat) returns (exit: Option<nat>, ghost results: seq<WorkerTick>)
      requires Valid() && NotBefore(log, start)
      modifies this
      ensures Valid() && old(log) <= log
      ensures forall i :: 0 <= i < |results| - 1 ==> results[i] == Went(TickOk)
      ensures exit.None? ==> |results| == ticks && (results != [] ==> results[|results| - 1] == Went(TickOk))
      ensures exit.Some? ==> results != [] && results[|results| - 1] != Went(TickOk)
      ensures exit == Some(0) ==> results[|results| - 1] == Went(TickDrained)
      ensures exit.Some? ==> state == Some(if exit.value == 0 then StateStopped else StateBlocked)
      ensures exit.Some? ==> exit.value <= 1
    {
      var now, operatorBuilt := start, false;
      results := [];
      for n := 0 to ticks
        invariant Valid() && NotBefore(log, now) && old(log) <= log
        invariant |results| == n && forall i :: 0 <= i < n ==> results[i] == Went(TickOk)
      {
        if !operatorBuilt {
          var unavailable: bool := *;
          if unavailable {
            state := Some(StateBlocked);
            return Some(1), results + [Refused];
          }
          operatorBuilt := true;
        }
        var ready: bool, fails: bool, outcome: TickStatus := *, *, *;
        var r := Tick(now, ready, operatorBuilt, fails, outcome);
        if r.Err? {
          state := Some(StateBlocked);
          return Some(1), results + [Refused];
        }
        results := results + [Went(outcome)];
        if outcome == TickBlocked {
          return Some(1), results;
        }
        if outcome == TickDrained {
          var runtimeStopFails: bool := *;
          if runtimeStopFails {
            state := Some(StateBlocked);
            return Some(1), results;
          }
          return Some(0), results;
        }
        now := OtherCommands(now);
      }
      exit := None;
    }
  }

  /**
   * After a stop or an openings-disabled tick no tick enables openings until a later
   * opening confirm.
   */
  lemma ClosedUntilReopened(log: seq<Event>, closed: nat, tick: nat)
    requires WindowSafe(log) && closed < tick < |log|
    requires Closing(log[closed]) && log[tick].Ticked? && log[tick].openings
    ensures exists i :: closed < i < tick && log[i].Opened? && log[i].at <= log[tick].at < log[i].at + 86400
  {
    assert TickJustified(log, tick);
    var i: nat :| OpenSince(log[..tick], i) && log[i].at <= log[tick].at < log[i].at + DURATION;
    assert log[..tick][closed] == log[closed];
    assert log[..tick][i] == log[i];
    assert closed < i;
  }
}
