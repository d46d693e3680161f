// The local supervisor's credential-driven restarts and their retry cool-down.

module CredentialBackoff {
  import opened Util

  /** Seconds between a recorded failure and the next attempt for the same generation. */
  const COOLDOWN := 300

  type Generation = string

  /** The runtime script's commands, and how one run of it ends. */
  datatype Command = Capability | Down | Up | Verify | Freeze | Thaw

  datatype Reply = TimedOut | Reply(ok: bool, serviceBlocked: bool)

  /** The answer to `supervisor-capability`: return code zero, status READY, and the payload's generation. */
  datatype Announcement = NoAnswer | Announcement(ok: bool, ready: bool, generation: Option<Generation>)

  /** The generation read from an answer, if it is a usable one. */
  function CredentialGeneration(a: Announcement): Option<Generation> {
    if a.Announcement? && a.ok && a.ready && a.generation.Some? && 1 <= |a.generation.value| <= 64
    then a.generation else None
  }

  /** Answers the n-th command of a call; nothing is assumed of it. */
  type Runtime = nat -> Reply

  datatype Verdict = Succeeded | Failed(recordedAt: int) | Aborted

  /** One controlled restart: its generation, when it started and how it ended. */
  datatype Attempt = Attempt(generation: Generation, startedAt: int, endedAt: int, verdict: Verdict)

  datatype Outcome =
    | OpeningsNotFrozen
    | BackedOff
    | Restarted(ok: bool)
    | Checked(healthy: bool)
    | Raised

  // ------------------------------------------------------- what a restart does

  /** Down leaves no blocked service, and up and verify both return zero. */
  predicate RestartWorks(runtime: Runtime, first: nat) {
    && !runtime(first).TimedOut? && !runtime(first).serviceBlocked
    && !runtime(first + 1).TimedOut? && runtime(first + 1).ok
    && !runtime(first + 2).TimedOut? && runtime(first + 2).ok
  }

  /** A command that the restart reaches exceeds its time-out. */
  predicate TimesOut(runtime: Runtime, first: nat) {
    || runtime(first).TimedOut?
    || (!runtime(first).serviceBlocked
        && (runtime(first + 1).TimedOut? || (runtime(first + 1).ok && runtime(first + 2).TimedOut?)))
  }

  function VerdictOf(runtime: Runtime, first: nat, at: int): Verdict {
    if RestartWorks(runtime, first) then Succeeded else if TimesOut(runtime, first) then Aborted else Failed(at)
  }

  function OutcomeOf(verdict: Verdict): Outcome {
    match verdict
    case Succeeded => Restarted(true)
    case Failed(_) => Restarted(false)
    case Aborted => Raised
  }

  /** The commands of a restart: none follows one that timed out or failed. */
  function RestartCommands(runtime: Runtime, first: nat): seq<Command> {
    if runtime(first).TimedOut? || runtime(first).serviceBlocked then [Down]
    else if runtime(first + 1).TimedOut? || !runtime(first + 1).ok then [Down, Up]
    else [Down, Up, Verify]
  }

  lemma WorkingRestartIssuesAll(runtime: Runtime, first: nat)
    ensures RestartWorks(runtime, first) ==> RestartCommands(runtime, first) == [Down, Up, Verify]
  {
  }

  /**
   * What follows a freeze or a thaw: a time-out raises; a freeze that fails ends the pass;
   * a healthy runtime is left alone; any other is healthy afterwards exactly when down, up
   * and verify all work.
   */
  ghost predicate Guarded(mode: Command, runtime: Runtime, outcome: Outcome, before: seq<Command>, after: seq<Command>) {
    if runtime(0).TimedOut? then outcome == Raised && after == before + [mode]
    else if mode == Freeze && !runtime(0).ok then outcome == OpeningsNotFrozen && after == before + [mode]
    else if Healthy(runtime, 1) then outcome == Checked(true) && after == before + [mode, Verify]
    else if runtime(1).TimedOut? then outcome == Raised && after == before + [mode, Verify]
    else
      && (outcome == Checked(true) <==> RestartWorks(runtime, 2))
      && (outcome == Raised <==> TimesOut(runtime, 2))
      && after == before + [mode, Verify] + RestartCommands(runtime, 2)
  }

  /** A runtime that answers its verification with success. */
  predicate Healthy(runtime: Runtime, first: nat) {
    !runtime(first).TimedOut? && runtime(first).ok
  }

  // ------------------------------------------------------------------ the claims

  /** No other generation is attempted strictly between attempts i and j. */
  ghost predicate Undisturbed(log: seq<Attempt>, i: int, j: int)
    requires 0 <= i < j <= |log|
  {
    forall k :: i < k < j ==> log[k].generation == log[i].generation
  }

  /** A recorded failure holds the same generation back for the cool-down. */
  ghost predicate HeldBack(log: seq<Attempt>) {
    forall i, j :: 0 <= i < j < |log| && Retries(log, i, j) ==>
      log[i].verdict.recordedAt + 300 <= log[j].startedAt
  }

  /** Attempt j repeats the generation of failed attempt i, with no other one in between. */
  ghost predicate Retries(log: seq<Attempt>, i: int, j: int)
    requires 0 <= i < j < |log|
  {
    log[i].verdict.Failed? && log[j].generation == log[i].generation && Undisturbed(log, i, j)
  }

  ghost predicate TimesAscend(log: seq<Attempt>) {
    && (forall i :: 0 <= i < |log| ==>
          && log[i].startedAt <= log[i].endedAt
          && (log[i].verdict.Failed? ==> log[i].verdict.recordedAt == log[i].endedAt))
    && (forall i, j :: 0 <= i < j < |log| ==> log[i].endedAt <= log[j].startedAt)
  }

  /** The last attempt that recorded anything; those after it were aborted. */
  ghost predicate LastRecorded(log: seq<Attempt>, i: int) {
    0 <= i < |log| && !log[i].verdict.Aborted? && forall k :: i < k < |log| ==> log[k].verdict.Aborted?
  }

  /** How the supervisor's variables follow from its attempts. */
  ghost predicate Remembers(log: seq<Attempt>, failed: Option<Generation>, retryAt: int) {
    forall i :: LastRecorded(log, i) && log[i].verdict.Failed? ==>
      failed == Some(log[i].generation) && retryAt == log[i].verdict.recordedAt + COOLDOWN
  }

  /** The committed generation is that of the last successful attempt. */
  ghost predicate CommittedBy(log: seq<Attempt>, committed: Option<Generation>) {
    committed.Some? ==> exists i ::
      0 <= i < |log| && log[i].verdict.Succeeded? && log[i].generation == committed.value
      && forall k :: i < k < |log| ==> !log[k].verdict.Succeeded?
  }

  lemma {:induction false} SomeLastRecorded(log: seq<Attempt>, from: nat) returns (m: nat)
    requires from < |log| && !log[from].verdict.Aborted?
    ensures from <= m && LastRecorded(log, m)
    decreases |log| - from
  {
    if later :| from < later < |log| && !log[later].verdict.Aborted? {
      m := SomeLastRecorded(log, later);
    } else {
      m := from;
    }
  }

  /** An attempt let through by the back-off check keeps the claim. */
  lemma AttemptKeepsHeldBack(log: seq<Attempt>, failed: Option<Generation>, retryAt: int, next: Attempt)
    requires HeldBack(log) && TimesAscend(log + [next]) && Remembers(log, failed, retryAt)
    requires !(failed == Some(next.generation) && next.startedAt < retryAt)
    ensures HeldBack(log + [next])
  {
    var log', n := log + [next], |log|;
    forall i, j | 0 <= i < j < |log'| && Retries(log', i, j)
      ensures log'[i].verdict.recordedAt + COOLDOWN <= log'[j].startedAt
    {
      assert log'[i] == log[i];
      if j < n {
        assert log'[j] == log[j];
        assert forall k :: i < k < j ==> log[k] == log'[k];
        assert Retries(log, i, j);
      } else {
        var m := SomeLastRecorded(log, i);
        assert i < m ==> log'[m].generation == log'[i].generation;
        assert log'[m] == log[m];
        if log[m].verdict.Succeeded? {
          assert forall k :: i < k < m ==> log[k] == log'[k];
          assert Retries(log, i, m);
          assert log'[m].endedAt <= log'[n].startedAt;
        } else {
          assert log'[i].endedAt <= log'[m].endedAt by {
            if i < m {
              assert log'[i].endedAt <= log'[m].startedAt;
            }
          }
        }
      }
    }
  }

  lemma TimesExtend(log: seq<Attempt>, next: Attempt, clock: int)
    requires TimesAscend(log) && (log != [] ==> log[|log| - 1].endedAt <= clock)
    requires clock <= next.startedAt <= next.endedAt
    requires next.verdict.Failed? ==> next.verdict.recordedAt == next.endedAt
    ensures TimesAscend(log + [next])
  {
    forall i | 0 <= i < |log|
      ensures log[i].endedAt <= clock
    {
      if i < |log| - 1 {
        assert log[i].endedAt <= log[|log| - 1].startedAt;
      }
    }
  }

  lemma RemembersNext(log: seq<Attempt>, failed: Option<Generation>, retryAt: int, next: Attempt,
                      failed': Option<Generation>, retryAt': int)
    requires Remembers(log, failed, retryAt)
    requires next.verdict.Aborted? ==> failed' == failed && retryAt' == retryAt
    requires next.verdict.Failed? ==> failed' == Some(next.generation) && retryAt' == next.verdict.recordedAt + COOLDOWN
    ensures Remembers(log + [next], failed', retryAt')
  {
    var log' := log + [next];
    forall i | LastRecorded(log', i) && log'[i].verdict.Failed?
      ensures failed' == Some(log'[i].generation) && retryAt' == log'[i].verdict.recordedAt + COOLDOWN
    {
      if i < |log| {
        assert log'[|log|].verdict.Aborted?;
        assert LastRecorded(log, i) by {
          assert forall k :: i < k < |log| ==> log[k] == log'[k];
        }
      }
    }
  }

  lemma CommittedNext(log: seq<Attempt>, committed: Option<Generation>, next: Attempt)
    requires CommittedBy(log, committed)
    ensures CommittedBy(log + [next], if next.verdict.Succeeded? then Some(next.generation) else committed)
  {
    var log' := log + [next];
    if next.verdict.Succeeded? {
      assert log'[|log|] == next;
    } else if committed.Some? {
      var i :| 0 <= i < |log| && log[i].verdict.Succeeded? && log[i].generation == committed.value
        && forall k :: i < k < |log| ==> !log[k].verdict.Succeeded?;
      assert log'[i] == log[i];
    }
  }

  // -------------------------------------------------------------- the supervisor

  class Supervisor {
    var committed: Option<Generation>
    var failed: Option<Generation>
    var retryAt: int

    /** Every controlled restart and every command so far, and the last clock reading. */
    ghost var log: seq<Attempt>
    ghost var issued: seq<Command>
    ghost var clock: int

    ghost predicate Valid()
      reads this
    {
      && HeldBack(log) && TimesAscend(log) && Remembers(log, failed, retryAt) && CommittedBy(log, committed)
      && (log != [] ==> log[|log| - 1].endedAt <= clock)
    }

    constructor (clock: int)
      ensures Valid() && committed.None? && failed.None? && log == [] && issued == [] && this.clock == clock
    {
      committed, failed, retryAt, log, issued, this.clock := None, None, 0, [], [], clock;
    }

    /** `run_runtime`: issue the n-th command of a call. */
    method RunRuntime(command: Command, runtime: Runtime, n: nat) returns (reply: Reply)
      modifies this`issued
      ensures issued == old(issued) + [command] && reply == runtime(n)
    {
      issued := issued + [command];
      reply := runtime(n);
    }

    /** A generation other than the committed one that is not held back. */
    predicate Attempts(generation: Option<Generation>, at: int)
      reads this
    {
      generation.Some? && committed != generation && !(failed == generation && at < retryAt)
    }

    /** Store what an attempt ended with; an aborted one stores nothing. */
    method Record(next: Attempt)
      requires Valid() && clock <= next.startedAt <= next.endedAt
      requires next.verdict.Failed? ==> next.verdict.recordedAt == next.endedAt
      requires !(failed == Some(next.generation) && next.startedAt < retryAt)
      modifies this`committed, this`failed, this`retryAt, this`log, this`clock
      ensures Valid() && clock == next.endedAt && log == old(log) + [next]
      ensures committed == if next.verdict.Succeeded? then Some(next.generation) else old(committed)
      ensures next.verdict.Failed? ==> failed == Some(next.generation) && retryAt == next.verdict.recordedAt + COOLDOWN
      ensures next.verdict.Aborted? ==> failed == old(failed) && retryAt == old(retryAt)
      ensures next.verdict.Succeeded? ==> failed.None?
    {
      hide HeldBack, TimesAscend, Remembers, CommittedBy;
      TimesExtend(log, next, clock);
      AttemptKeepsHeldBack(log, failed, retryAt, next);
      CommittedNext(log, committed, next);
      ghost var failed0, retryAt0 := failed, retryAt;
      match next.verdict {
        case Succeeded => committed, failed, retryAt := Some(next.generation), None, 0;
        case Failed(at) => failed, retryAt := Some(next.generation), at + COOLDOWN;
        case Aborted =>
      }
      RemembersNext(log, failed0, retryAt0, next, failed, retryAt);
      log, clock := log + [next], next.endedAt;
    }

    /** Down, up and verify; only a fully successful sequence commits the generation. */
    method ControlledRestart(generation: Generation, runtime: Runtime, first: nat, startedAt: int, endedAt: int)
      returns (outcome: Outcome)
      requires Valid() && clock <= startedAt <= endedAt && Attempts(Some(generation), startedAt)
      modifies this
      ensures Valid() && clock == endedAt
      ensures var verdict := VerdictOf(runtime, first, endedAt);
        outcome == OutcomeOf(verdict) && log == old(log) + [Attempt(generation, startedAt, endedAt, verdict)]
      ensures outcome == Raised <==> TimesOut(runtime, first)
      ensures outcome == Restarted(true) <==> RestartWorks(runtime, first)
      ensures issued == old(issued) + RestartCommands(runtime, first)
      ensures committed == if outcome == Restarted(true) then Some(generation) else old(committed)
      ensures outcome == Restarted(false) ==> failed == Some(generation) && retryAt == endedAt + COOLDOWN
      ensures outcome == Raised ==> failed == old(failed) && retryAt == old(retryAt)
      ensures outcome == Restarted(true) ==> failed.None?
    {
      hide HeldBack, TimesAscend, Remembers, CommittedBy;
      var verdict := Failed(endedAt);
      outcome := Restarted(false);
      var stopped := RunRuntime(Down, runtime, first);
      if stopped.TimedOut? {
        verdict, outcome := Aborted, Raised;
      } else if !stopped.serviceBlocked {
        var started := RunRuntime(Up, runtime, first + 1);
        if started.TimedOut? {
          verdict, outcome := Aborted, Raised;
        } else if started.ok {
          var verification := RunRuntime(Verify, runtime, first + 2);
          if verification.TimedOut? {
            verdict, outcome := Aborted, Raised;
          } else if verification.ok {
            verdict, outcome := Succeeded, Restarted(true);
          }
        }
      }
      Record(Attempt(generation, startedAt, endedAt, verdict));
    }

    /**
     * Verify, or stop, start and verify again. A healthy runtime gets no other
     * command; an unhealthy one recovers exactly when the restart works.
     */
    method VerifyOrRecover(runtime: Runtime, first: nat) returns (outcome: Outcome)
      modifies this`issued
      ensures outcome == Raised || outcome.Checked?
      ensures outcome == Checked(true) <==>
        Healthy(runtime, first) || (!runtime(first).TimedOut? && RestartWorks(runtime, first + 1))
      ensures outcome == Raised <==>
        runtime(first).TimedOut? || (!Healthy(runtime, first) && TimesOut(runtime, first + 1))
      ensures issued == old(issued) + [Verify]
        + if runtime(first).TimedOut? || Healthy(runtime, first) then [] else RestartCommands(runtime, first + 1)
    {
      var verification := RunRuntime(Verify, runtime, first);
      if verification.TimedOut? {
        return Raised;
      }
      if verification.ok {
        return Checked(true);
      }
      var stopped := RunRuntime(Down, runtime, first + 1);
      if stopped.TimedOut? {
        return Raised;
      }
      if stopped.serviceBlocked {
        return Checked(false);
      }
      var started := RunRuntime(Up, runtime, first + 2);
      if started.TimedOut? {
        return Raised;
      }
      if !started.ok {
        return Checked(false);
      }
      var final := RunRuntime(Verify, runtime, first + 3);
      outcome := if final.TimedOut? then Raised else Checked(final.ok);
    }

    /** No generation: the openings must be frozen before the runtime is verified or recovered. */
    method FreezeAndVerify(runtime: Runtime) returns (outcome: Outcome)
      modifies this`issued
      ensures outcome == OpeningsNotFrozen <==> !runtime(0).TimedOut? && !runtime(0).ok
      ensures outcome == Raised || outcome == OpeningsNotFrozen || outcome.Checked?
      ensures Guarded(Freeze, runtime, outcome, old(issued), issued)
    {
      hide RestartWorks, TimesOut, RestartCommands;
      var frozen := RunRuntime(Freeze, runtime, 0);
      if frozen.TimedOut? {
        return Raised;
      }
      if !frozen.ok {
        return OpeningsNotFrozen;
      }
      outcome := VerifyOrRecover(runtime, 1);
    }

    /** The committed generation: openings are thawed, whatever that returns, then the runtime is verified. */
    method ThawAndVerify(runtime: Runtime) returns (outcome: Outcome)
      modifies this`issued
      ensures outcome == Raised || outcome.Checked?
      ensures Guarded(Thaw, runtime, outcome, old(issued), issued)
    {
      hide RestartWorks, TimesOut, RestartCommands;
      var thawed := RunRuntime(Thaw, runtime, 0);
      if thawed.TimedOut? {
        return Raised;
      }
      outcome := VerifyOrRecover(runtime, 1);
    }

    /**
     * One pass. The generation is asked for first; if that times out, nothing else is
     * done. A generation other than the committed one is restarted, unless its own last
     * recorded failure is less than the cool-down ago; without a generation the openings
     * are frozen first, with the committed one they are thawed.
     */
    method SuperviseOnce(answer: Announcement, runtime: Runtime, startedAt: int, endedAt: int)
      returns (outcome: Outcome)
      requires Valid() && clock <= startedAt <= endedAt
      modifies this
      ensures Valid()
      ensures answer.NoAnswer? ==> outcome == Raised && issued == old(issued) + [Capability]
      ensures var g := CredentialGeneration(answer); var attempts := old(Attempts(g, startedAt));
        && clock == (if attempts then endedAt else old(clock))
        && (attempts ==>
              var verdict := VerdictOf(runtime, 0, endedAt);
              && outcome == OutcomeOf(verdict)
              && log == old(log) + [Attempt(g.value, startedAt, endedAt, verdict)]
              && issued == old(issued) + [Capability] + RestartCommands(runtime, 0))
        && (!attempts ==> log == old(log) && !outcome.Restarted?)
        && (outcome == BackedOff <==> g.Some? && old(committed) != g && !attempts)
        && committed == (if outcome == Restarted(true) then g else old(committed))
        && (outcome == Restarted(false) ==> failed == g && retryAt == endedAt + COOLDOWN)
      ensures outcome == Restarted(true) ==>
        && failed.None?
        && !runtime(0).TimedOut? && !runtime(0).serviceBlocked
        && !runtime(1).TimedOut? && runtime(1).ok
        && !runtime(2).TimedOut? && runtime(2).ok
        && issued == old(issued) + [Capability, Down, Up, Verify]
      ensures !outcome.Restarted? ==> failed == old(failed) && retryAt == old(retryAt)
      ensures outcome == BackedOff ==> issued == old(issued) + [Capability]
      ensures outcome == OpeningsNotFrozen <==>
        answer.Announcement? && CredentialGeneration(answer).None? && !runtime(0).TimedOut? && !runtime(0).ok
      ensures answer.Announcement? && (CredentialGeneration(answer).None? || old(committed) == CredentialGeneration(answer)) ==>
        var mode := if CredentialGeneration(answer).None? then Freeze else Thaw;
        Guarded(mode, runtime, outcome, old(issued) + [Capability], issued)
    {
      hide HeldBack, TimesAscend, Remembers, CommittedBy, Healthy, TimesOut, RestartCommands;
      issued := issued + [Capability];
      if answer.NoAnswer? {
        return Raised;
      }
      var generation := CredentialGeneration(answer);
      if generation.None? {
        outcome := FreezeAndVerify(runtime);
        return;
      }
      if committed.None? || generation.value != committed.value {
        if failed == generation && startedAt < retryAt {
          return BackedOff;
        }
        WorkingRestartIssuesAll(runtime, 0);
        outcome := ControlledRestart(generation.value, runtime, 0, startedAt, endedAt);
        return;
      }
      outcome := ThawAndVerify(runtime);
    }

    /**
     * Two passes with one new generation, the second at a time of its own. The second
     * one restarts again exactly when the first was aborted by a time-out, at whatever
     * time, or has failed and the cool-down is over.
     */
    method SuperviseTwice(answer: Announcement, first: Runtime, second: Runtime,
                          startedAt: int, endedAt: int, againAt: int, doneAt: int)
      returns (early: Outcome, late: Outcome)
      requires Valid() && clock <= startedAt <= endedAt <= againAt <= doneAt
      requires Attempts(CredentialGeneration(answer), startedAt)
      modifies this
      ensures Valid()
      ensures early == OutcomeOf(VerdictOf(first, 0, endedAt))
      ensures var g := CredentialGeneration(answer).value;
        var again := Attempt(g, againAt, doneAt, VerdictOf(second, 0, doneAt));
        var repeats := TimesOut(first, 0) || (!RestartWorks(first, 0) && endedAt + 300 <= againAt);
        log == old(log) + [Attempt(g, startedAt, endedAt, VerdictOf(first, 0, endedAt))]
               + if repeats then [again] else []
      ensures late == BackedOff <==> !TimesOut(first, 0) && !RestartWorks(first, 0) && againAt < endedAt + 300
    {
      early := SuperviseOnce(answer, first, startedAt, endedAt);
      late := SuperviseOnce(answer, second, againAt, doneAt);
    }
  }
}
