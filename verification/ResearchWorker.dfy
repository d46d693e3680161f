// The bounded research worker: one child process, a heartbeat, a deadline, signals,
// and a final state that says whether the child was proven reaped.

module ResearchWorker {
  import opened Util

  datatype Process = NotStarted | Running | Exited(code: int)

  datatype CleanUp = NotRequired | TermConfirmed | KillConfirmed | Unconfirmed

  datatype Phase = PhaseRunning | PhaseTerminating | PhaseFinished

  datatype Reason =
    | MarketDataDigestChanged
    | WorkerChildStartFailed
    | ActiveResearch
    | WorkerTerminating
    | CleanUpUnconfirmed
    | WorkerInterrupted
    | WorkerDeadlineExceeded
    | Completed
    | ResearchProcessFailed
    | WorkerInternalError

  /** One version of the state file. */
  datatype State = State(phase: Phase, reason: Reason, cleanUp: CleanUp)

  /** How a signal to the process group, or a bounded wait, ends. */
  datatype KillResult = Sent | NoSuchProcess | Denied
  datatype WaitResult = Reaped | TimedOut | WaitError

  /** Times in milliseconds; each is positive. */
  datatype Limits = Limits(deadline: int, heartbeat: int, grace: int)

  predicate LimitsValid(l: Limits) {
    l.deadline > 0 && l.heartbeat > 0 && l.grace > 0
  }

  datatype Raised = ManifestMalformed | RecorderFailed

  /** One step of a termination: a signal to the group, or a bounded wait. */
  datatype Taken = Term(sent: KillResult) | Kill(sent: KillResult) | Waited(result: WaitResult)

  /** The steps of one termination of a child that was still running, and what they prove. */
  predicate Escalation(steps: seq<Taken>, cleanUp: CleanUp) {
    || (|steps| == 1 && steps[0] == Term(Denied) && cleanUp == Unconfirmed)
    || (|steps| == 2 && steps[0].Term? && steps[0].sent != Denied && steps[1] == Waited(Reaped) && cleanUp == TermConfirmed)
    || (|steps| == 2 && steps[0] == Term(NoSuchProcess) && steps[1].Waited? && cleanUp == Unconfirmed)
    || (|steps| == 2 && steps[0] == Term(Sent) && steps[1] == Waited(WaitError) && cleanUp == Unconfirmed)
    || (|steps| > 2 && steps[0] == Term(Sent) && steps[1] == Waited(TimedOut)
        && (|| (|steps| == 3 && steps[2] == Kill(Denied) && cleanUp == Unconfirmed)
            || (|steps| == 4 && steps[2].Kill? && steps[2].sent != Denied && steps[3].Waited?
                && cleanUp == if steps[3] == Waited(Reaped) then KillConfirmed else Unconfirmed)))
  }

  datatype Termination = Termination(begun: int, ended: int, cleanUp: CleanUp)

  class Worker {
    const limits: Limits

    var process: Process
    /** The parent holds the child's exit status. */
    var reaped: bool
    var interrupted: Option<nat>
    var clock: int
    /** Every state written, in order. */
    var states: seq<State>
    /** Every termination of the child's process group: when it began and ended, and its result. */
    ghost var terminations: seq<Termination>
    /** When the first stop signal arrived. */
    ghost var signalledAt: Option<int>
    /** Every signal to the group and every bounded wait, in order. */
    ghost var taken: seq<Taken>

    constructor (limits: Limits, clock: int)
      requires LimitsValid(limits)
      ensures this.limits == limits && this.clock == clock
      ensures process.NotStarted? && !reaped && interrupted.None? && signalledAt.None? && states == [] && terminations == []
    {
      this.limits, this.clock := limits, clock;
      process, reaped, interrupted, states, terminations, taken := NotStarted, false, None, [], [], [];
      signalledAt := None;
    }

    ghost predicate Valid()
      reads this
    {
      && LimitsValid(limits)
      && (signalledAt.Some? <==> interrupted.Some?) && (signalledAt.Some? ==> signalledAt.value <= clock)
      && (reaped ==> process.Exited?)
      && forall i :: 0 <= i < |terminations| ==> 0 <= terminations[i].ended - terminations[i].begun <= 2 * limits.grace
    }

    /** The child may end and signals may arrive; no time passes. */
    method Others()
      requires Valid()
      modifies this`process, this`interrupted, this`signalledAt
      ensures Valid()
      ensures process == old(process) || (old(process).Running? && process.Exited?)
      ensures old(interrupted).Some? ==> interrupted.Some? && signalledAt == old(signalledAt)
      ensures signalledAt == old(signalledAt) || (signalledAt.Some? && signalledAt.value >= old(clock))
    {
      var ends: bool, code: int, signalled: bool, signum: nat := *, *, *, *;
      if ends && process.Running? {
        process := Exited(code);
      }
      if signalled {
        signalledAt := if interrupted.None? then Some(clock) else signalledAt;
        interrupted := Some(signum);
      }
    }

    method Write(s: State)
      modifies this`states
      ensures states == old(states) + [s]
    {
      states := states + [s];
    }

    /** `child.poll()`: an ended child is reaped. */
    method Poll() returns (running: bool)
      requires Valid() && !process.NotStarted?
      modifies this`process, this`interrupted, this`reaped, this`signalledAt
      ensures Valid() && !process.NotStarted?
      ensures running <==> !reaped
      ensures old(reaped) ==> reaped
      ensures running ==> process.Running?
      ensures old(interrupted).Some? ==> interrupted.Some? && signalledAt == old(signalledAt)
      ensures signalledAt == old(signalledAt) || (signalledAt.Some? && signalledAt.value >= old(clock))
    {
      Others();
      reaped := process.Exited?;
      running := !reaped;
    }

    /** `child.wait(timeout)`: reaps within the grace period, or uses all of it. */
    method WaitBounded() returns (r: WaitResult)
      requires Valid() && !process.NotStarted?
      modifies this`process, this`interrupted, this`reaped, this`clock, this`taken, this`signalledAt
      ensures Valid() && !process.NotStarted? && old(clock) <= clock <= old(clock) + limits.grace
      ensures r == Reaped <==> reaped
      ensures r == WaitError ==> clock == old(clock)
      ensures r == TimedOut ==> clock == old(clock) + limits.grace
      ensures taken == old(taken) + [Waited(r)]
      ensures old(reaped) ==> reaped
      ensures old(interrupted).Some? ==> interrupted.Some? && signalledAt == old(signalledAt)
      ensures signalledAt == old(signalledAt) || (signalledAt.Some? && signalledAt.value >= old(clock))
    {
      if reaped {
        taken := taken + [Waited(Reaped)];
        return Reaped;
      }
      Others();
      var error: bool, ends: bool, spent: int, code: int := *, *, *, *;
      if error {
        taken := taken + [Waited(WaitError)];
        return WaitError;
      }
      if process.Running? && ends {
        process := Exited(code);
      }
      if process.Exited? {
        clock := if 0 <= spent <= limits.grace then clock + spent else clock;
        reaped := true;
        taken := taken + [Waited(Reaped)];
        return Reaped;
      }
      clock := clock + limits.grace;
      taken := taken + [Waited(TimedOut)];
      r := TimedOut;
    }

    /** The group may be signalled, be gone already, or be out of reach. */
    method KillGroup(kill: bool) returns (r: KillResult)
      modifies this`taken
      ensures taken == old(taken) + [if kill then Kill(r) else Term(r)]
    {
      r := *;
      taken := taken + [if kill then Kill(r) else Term(r)];
    }

    /** Terminate the process group and record it. */
    method Terminate() returns (cleanUp: CleanUp)
      requires Valid() && !process.NotStarted?
      modifies this`process, this`interrupted, this`reaped, this`clock, this`terminations, this`taken, this`signalledAt
      ensures Valid() && !process.NotStarted?
      ensures cleanUp == Unconfirmed <==> !reaped
      ensures cleanUp != NotRequired
      ensures old(reaped) ==> reaped
      ensures old(clock) <= clock <= old(clock) + 2 * limits.grace
      ensures terminations == old(terminations) + [Termination(old(clock), clock, cleanUp)]
      ensures old(interrupted).Some? ==> interrupted.Some? && signalledAt == old(signalledAt)
      ensures signalledAt == old(signalledAt) || (signalledAt.Some? && signalledAt.value >= old(clock))
    {
      ghost var begun := clock;
      cleanUp := TerminateProcessGroup();
      terminations := terminations + [Termination(begun, clock, cleanUp)];
    }

    /**
     * Terminate, then kill, the child's process group. The result is confirmed
     * exactly when the child has been reaped, within two grace periods.
     */
    method TerminateProcessGroup() returns (cleanUp: CleanUp)
      requires Valid() && !process.NotStarted?
      modifies this`process, this`interrupted, this`reaped, this`clock, this`taken, this`signalledAt
      ensures Valid() && !process.NotStarted?
      ensures cleanUp == Unconfirmed <==> !reaped
      ensures cleanUp != NotRequired
      ensures old(taken) <= taken
      ensures (taken == old(taken) && cleanUp == TermConfirmed) || Escalation(taken[|old(taken)|..], cleanUp)
      ensures old(reaped) ==> reaped
      ensures old(clock) <= clock <= old(clock) + 2 * limits.grace
      ensures old(interrupted).Some? ==> interrupted.Some? && signalledAt == old(signalledAt)
      ensures signalledAt == old(signalledAt) || (signalledAt.Some? && signalledAt.value >= old(clock))
    {
      ghost var before := taken;
      var running := Poll();
      if !running {
        return TermConfirmed;
      }
      var term := KillGroup(false);
      assert taken[|before|..] == [Term(term)];
      if term == Denied {
        return Unconfirmed;
      }
      var waited := WaitBounded();
      assert taken[|before|..] == [Term(term), Waited(waited)];
      if waited == Reaped {
        return TermConfirmed;
      }
      if waited == WaitError || term == NoSuchProcess {
        return Unconfirmed;
      }
      var kill := KillGroup(true);
      assert taken[|before|..] == [Term(term), Waited(waited), Kill(kill)];
      if kill == Denied {
        return Unconfirmed;
      }
      var last := WaitBounded();
      assert taken[|before|..] == [Term(term), Waited(waited), Kill(kill), Waited(last)];
      cleanUp := if last == Reaped then KillConfirmed else Unconfirmed;
    }

    /** The final state says "unconfirmed" exactly when a started child was not reaped. */
    ghost predicate Truthful()
      reads this
    {
      && states != []
      && var last := states[|states| - 1];
         && last.phase == PhaseFinished
         && (last.reason == CleanUpUnconfirmed <==> !process.NotStarted? && !reaped)
    }

    /** The state written last. */
    ghost function Final(): State
      reads this
      requires states != []
    {
      states[|states| - 1]
    }

    /** The child ended by itself: its exit status decides and is returned. */
    ghost predicate EndedByItself(code: int)
      reads this
    {
      && states != [] && process == Exited(code)
      && Final() == State(PhaseFinished, if code == 0 then Completed else ResearchProcessFailed, NotRequired)
    }

    /** The child was ended: by a signal, which the status names, or by the deadline, or without proof. */
    ghost predicate EndedByForce(code: int, cleanUp: CleanUp)
      reads this
    {
      && |states| > 1 && states[|states| - 2] == State(PhaseTerminating, WorkerTerminating, NotRequired)
      && Final().phase == PhaseFinished && Final().cleanUp == cleanUp
      && if cleanUp == Unconfirmed then Final().reason == CleanUpUnconfirmed && code == 2
         else
           && (Final().reason == WorkerInterrupted ==> interrupted.Some?)
           && (Final().reason == WorkerInterrupted || Final().reason == WorkerDeadlineExceeded)
           && code == if interrupted.Some? then 128 + interrupted.value else 124
    }

    /** Exactly one termination so far, and it could not prove the child reaped. */
    ghost predicate Unreaped(log: seq<Termination>) {
      |log| == 1 && log[0].cleanUp == Unconfirmed
    }

    /** Exit status 0 is kept for completed research. */
    ghost predicate ReportsCompletion(code: int)
      reads this
    {
      states != [] && (code == 0 <==> states[|states| - 1].reason == Completed)
    }

    /** The body of the try block after the child has started; None means it raised. */
    method Supervise(recorderRaises: bool) returns (code: Option<int>)
      requires Valid() && process.Running? && !reaped && terminations == [] && signalledAt.None?
      modifies this`process, this`reaped, this`interrupted, this`clock, this`states, this`terminations, this`taken, this`signalledAt
      ensures Valid() && !process.NotStarted?
      ensures code.Some? ==> Truthful() && ReportsCompletion(code.value)
      ensures code.None? <==> recorderRaises
      ensures code.None? && !reaped ==> Unreaped(terminations)
      ensures terminations != [] ==> (terminations[0].cleanUp == Unconfirmed <==> !reaped)
      ensures code.Some? && terminations == [] ==> EndedByItself(code.value)
      ensures code.Some? && terminations != [] ==> EndedByForce(code.value, terminations[0].cleanUp)
      ensures code.Some? && terminations != [] && Final().reason == WorkerDeadlineExceeded ==>
        terminations[0].begun >= old(clock) + limits.deadline
      ensures |terminations| <= 1
      ensures terminations == [] ==> clock < old(clock) + limits.deadline + limits.heartbeat
      ensures terminations != [] ==>
        && terminations[0].begun < old(clock) + limits.deadline + limits.heartbeat
        && clock == terminations[0].ended
      ensures old(clock) <= clock
      ensures terminations != [] && signalledAt.Some? ==> terminations[0].begun <= signalledAt.value + limits.heartbeat
    {
      var started := clock;
      Write(State(PhaseRunning, ActiveResearch, NotRequired));
      var running := Poll();
      while running
        invariant Valid() && !process.NotStarted? && terminations == []
        invariant running <==> !reaped
        invariant signalledAt.Some? ==> clock <= signalledAt.value + limits.heartbeat
        invariant started <= clock < started + limits.deadline + limits.heartbeat
        decreases running, started + limits.deadline + limits.heartbeat - clock
      {
        Others();
        var elapsed := clock - started;
        if interrupted.Some? || elapsed >= limits.deadline {
          code := EndResearch(recorderRaises);
          return;
        }
        Write(State(PhaseRunning, ActiveResearch, NotRequired));
        Others();
        clock := clock + limits.heartbeat;
        running := Poll();
      }
      var returncode := process.code;
      if recorderRaises {
        return None;
      }
      Write(State(PhaseFinished, if returncode == 0 then Completed else ResearchProcessFailed, NotRequired));
      code := Some(returncode);
    }

    /** Stop the child because of a signal or the deadline. */
    method EndResearch(recorderRaises: bool) returns (code: Option<int>)
      requires Valid() && !process.NotStarted? && terminations == []
      modifies this`process, this`reaped, this`interrupted, this`clock, this`states, this`terminations, this`taken, this`signalledAt
      ensures Valid() && !process.NotStarted?
      ensures code.Some? ==> Truthful() && ReportsCompletion(code.value)
      ensures code.None? <==> recorderRaises
      ensures code.None? && !reaped ==> Unreaped(terminations)
      ensures terminations != [] ==> (terminations[0].cleanUp == Unconfirmed <==> !reaped)
      ensures code.Some? && Final().reason == WorkerDeadlineExceeded ==> old(interrupted).None?
      ensures |terminations| == 1 && terminations[0].begun == old(clock) && terminations[0].ended == clock
      ensures code.Some? ==> EndedByForce(code.value, terminations[0].cleanUp)
      ensures old(clock) <= clock <= old(clock) + 2 * limits.grace
      ensures signalledAt == old(signalledAt) || (signalledAt.Some? && signalledAt.value >= old(clock))
    {
      Write(State(PhaseTerminating, WorkerTerminating, NotRequired));
      var cleanUp := Terminate();
      if cleanUp == Unconfirmed {
        if recorderRaises {
          return None;
        }
        Write(State(PhaseFinished, CleanUpUnconfirmed, cleanUp));
        return Some(2);
      }
      var reason := if interrupted.Some? then WorkerInterrupted else WorkerDeadlineExceeded;
      Write(State(PhaseFinished, reason, cleanUp));
      if recorderRaises {
        return None;
      }
      Others();
      code := Some(if interrupted.Some? then 128 + interrupted.value else 124);
    }

    /** The except block. Only an unconfirmed termination leaves a child to terminate again. */
    method HandleError() returns (code: int)
      requires Valid() && (!process.NotStarted? && !reaped ==> Unreaped(terminations))
      modifies this`process, this`reaped, this`interrupted, this`clock, this`states, this`terminations, this`taken, this`signalledAt
      ensures Valid() && Truthful() && ReportsCompletion(code)
      ensures code == if states[|states| - 1].reason == CleanUpUnconfirmed then 2 else 1
      ensures Final().reason == CleanUpUnconfirmed || Final().reason == WorkerInternalError
      ensures old(clock) <= clock <= old(clock) + 2 * limits.grace
      ensures (terminations == old(terminations) && clock == old(clock))
        || (Unreaped(old(terminations)) && |terminations| == 2 && terminations[0] == old(terminations)[0]
            && terminations[1].begun == old(clock) && terminations[1].ended == clock
            && (terminations[1].cleanUp == Unconfirmed <==> !reaped))
      ensures Unreaped(old(terminations)) && !old(process).NotStarted? ==> |terminations| == 2 || reaped
      ensures signalledAt == old(signalledAt) || (old(signalledAt).None? && signalledAt.Some? && signalledAt.value >= old(clock))
    {
      var cleanUp := NotRequired;
      if !process.NotStarted? {
        var running := Poll();
        if running {
          cleanUp := Terminate();
        }
      }
      var confirmed := cleanUp != Unconfirmed;
      Write(State(PhaseFinished, if confirmed then WorkerInternalError else CleanUpUnconfirmed, cleanUp));
      code := if confirmed then 1 else 2;
    }

    /**
     * The whole run. When it returns, the last state is FINISHED and truthful about
     * the child. A signal is acted on within one heartbeat. The first termination starts before the deadline plus one heartbeat,
     * and each takes at most two grace periods. A second one follows at once when the
     * first was unconfirmed and recording that has raised, unless the child has ended by
     * then, and in no other case.
     */
    method Execute(manifestValid: bool, dataChanged: bool, spawnFails: bool, recorderRaises: bool)
      returns (r: Result<int, Raised>)
      requires Valid() && process.NotStarted? && !reaped && states == [] && terminations == [] && interrupted.None?
      modifies this`process, this`reaped, this`interrupted, this`clock, this`states, this`terminations, this`taken, this`signalledAt
      ensures Valid()
      ensures r.Ok? ==> Truthful() && ReportsCompletion(r.value)
      ensures r.Err? <==> !manifestValid || (dataChanged && recorderRaises)
      ensures dataChanged || spawnFails ==> process.NotStarted?
      ensures r.Ok? && dataChanged ==> r.value == 2 && Final() == State(PhaseFinished, MarketDataDigestChanged, NotRequired)
      ensures r.Ok? && !dataChanged && spawnFails ==>
        r.value == 1 && Final() == State(PhaseFinished, WorkerChildStartFailed, NotRequired)
      ensures r.Ok? && !dataChanged && !spawnFails && recorderRaises ==>
        Final().reason == WorkerInternalError || Final().reason == CleanUpUnconfirmed
      ensures r.Ok? && !dataChanged && !spawnFails && !recorderRaises ==>
        if terminations == [] then EndedByItself(r.value) else EndedByForce(r.value, terminations[0].cleanUp)
      ensures r.Ok? && !recorderRaises && terminations != [] && Final().reason == WorkerDeadlineExceeded ==>
        terminations[0].begun >= old(clock) + limits.deadline
      ensures |terminations| <= 2
      ensures forall i :: 0 <= i < |terminations| ==> terminations[i].ended - terminations[i].begun <= 2 * limits.grace
      ensures terminations != [] ==> terminations[0].begun < old(clock) + limits.deadline + limits.heartbeat
      ensures |terminations| == 2 ==>
        recorderRaises && terminations[0].cleanUp == Unconfirmed && terminations[1].begun == terminations[0].ended
      ensures recorderRaises && terminations != [] && terminations[0].cleanUp == Unconfirmed ==>
        |terminations| == 2 || reaped
      ensures !recorderRaises && terminations != [] ==> (terminations[0].cleanUp == Unconfirmed <==> !reaped)
      ensures |terminations| == 2 ==> (terminations[1].cleanUp == Unconfirmed <==> !reaped)
      ensures clock - old(clock) < limits.deadline + limits.heartbeat + 2 * |terminations| * limits.grace
      ensures terminations != [] && signalledAt.Some? ==> terminations[0].begun <= signalledAt.value + limits.heartbeat
    {
      if !manifestValid {
        return Err(ManifestMalformed);
      }
      if dataChanged {
        if recorderRaises {
          return Err(RecorderFailed);
        }
        Write(State(PhaseFinished, MarketDataDigestChanged, NotRequired));
        return Ok(2);
      }
      if spawnFails {
        Write(State(PhaseFinished, WorkerChildStartFailed, NotRequired));
        return Ok(1);
      }
      process := Running;
      var code := Supervise(recorderRaises);
      if code.None? {
        var failure := HandleError();
        return Ok(failure);
      }
      r := Ok(code.value);
    }
  }
}
