// The Phase 9 launch lifecycle of one service: a state file, an exclusive lease
// file, a launchd job with its supervisor process, and an append-only receipt log.

module LaunchLifecycle {
  import opened Util

  /** The frozen arguments a prepared plan is compared by. */
  datatype Request = Request(stage: string, releaseDigest: string, lineage: string, orderWriterEnabled: bool)

  datatype Plan = Plan(planId: nat, generation: nat, request: Request)

  /** A plan digest identifies the plan it was computed from. */
  datatype Digest = Digest(plan: Plan)

  datatype Status = Prepared | Confirmed | Running | Stopped

  datatype StateFile = StateFile(status: Status, plan: Plan)

  datatype Lease = Lease(
    generation: nat, digest: Digest, holder: nat, pid: nat, heartbeatAt: int, expiresAt: int)

  /** Where the supervisor process stands; the snapshot is the state it loaded. */
  datatype Supervisor =
    | Absent
    | Starting(snapshot: StateFile)
    | Claimed(snapshot: StateFile, lease: Lease)
    | Serving(snapshot: StateFile, lease: Lease)

  datatype Action =
    PrepareDone | ConfirmDone | ClaimLease | Heartbeat | ReleaseLease | OrphanRelease | StopDone | RecoverDone

  datatype Receipt = Receipt(action: Action, generation: nat)

  /** Everything the commands and the supervisor share; `plans` lists every prepared plan. */
  datatype World = World(
    state: Option<StateFile>, lease: Option<Lease>, plist: Option<Digest>, job: Option<Digest>,
    supervisor: Supervisor, receipts: seq<Receipt>, now: int, plans: seq<Plan>)

  datatype Blocked =
    | Preflight
    | PreparedPlanExists
    | ActivePlanExists
    | LeaseHeld
    | PlanUnset
    | ConfirmationDrift
    | AuthorityRefused
    | BootstrapFailed
    | LeaseFenced
    | StopLeaseHeld
    | ContainerHeld
    | BootoutFailed
    | RecoveryUnconfirmed
    | RecoveryFailed

  datatype Done = Fresh | RepeatNoOp

  predicate Active(s: StateFile) {
    s.status == Confirmed || s.status == Running
  }

  // ------------------------------------------------------------------ invariant

  /** A present lease belongs to the plan in the state file, and that plan is active. */
  ghost predicate LeaseMatchesPlan(w: World) {
    w.lease.Some? ==>
      && w.state.Some? && Active(w.state.value)
      && w.lease.value.generation == w.state.value.plan.generation
      && w.lease.value.digest == Digest(w.state.value.plan)
  }

  /** Prepared plans are numbered 1, 2, 3, ... and the state file holds the last one. */
  ghost predicate PlansNumbered(w: World) {
    && (forall i :: 0 <= i < |w.plans| ==> w.plans[i].generation == i + 1)
    && (w.state.Some? <==> w.plans != [])
    && (w.state.Some? ==> w.state.value.plan == w.plans[|w.plans| - 1])
  }

  ghost predicate OwnLease(lease: Lease, plan: Plan) {
    lease.generation == plan.generation && lease.digest == Digest(plan)
  }

  /**
   * A supervisor runs only under a loaded job and serves the active plan; once it has
   * claimed, the stored lease is its own.
   */
  ghost predicate SupervisorBound(w: World) {
    w.supervisor.Absent? ||
    (&& w.job.Some?
     && Active(w.supervisor.snapshot)
     && w.state.Some? && w.supervisor.snapshot.plan == w.state.value.plan
     && (!w.supervisor.Starting? ==>
           OwnLease(w.supervisor.lease, w.state.value.plan) && w.lease == Some(w.supervisor.lease)))
  }

  /** A job is loaded only while its plan is active. */
  ghost predicate JobBound(w: World) {
    && (w.job.Some? ==> w.state.Some? && Active(w.state.value) && w.job == Some(Digest(w.state.value.plan)))
    && (w.state.Some? && w.state.value.status != Stopped ==> w.plist == Some(Digest(w.state.value.plan)))
  }

  /** The receipt log never goes back to an earlier generation. */
  ghost predicate LogOrdered(w: World) {
    && (forall i :: 0 <= i < |w.receipts| ==> 1 <= w.receipts[i].generation <= |w.plans|)
    && (forall i, j :: 0 <= i < j < |w.receipts| ==> w.receipts[i].generation <= w.receipts[j].generation)
  }

  ghost predicate Inv(w: World) {
    LeaseMatchesPlan(w) && PlansNumbered(w) && SupervisorBound(w) && JobBound(w) && LogOrdered(w)
  }

  /** While no plan is active there is no job, no supervisor and no lease. */
  lemma InactiveIsQuiet(w: World)
    requires Inv(w) && (w.state.None? || !Active(w.state.value))
    ensures w.job.None? && w.supervisor.Absent? && w.lease.None?
  {
  }

  // ------------------------------------------------------------- supervisor steps

  function Append(w: World, action: Action, generation: nat): World {
    w.(receipts := w.receipts + [Receipt(action, generation)])
  }

  /** The receipt appended last. */
  function LastReceipt(w: World): Option<Receipt> {
    if w.receipts == [] then None else Some(w.receipts[|w.receipts| - 1])
  }

  /** launchd starts the process; it loads the state and refuses an unconfirmed plan. */
  function Start(w: World): World
    requires w.job.Some? && w.supervisor.Absent?
  {
    if w.state.Some? && Active(w.state.value) && Digest(w.state.value.plan) == w.job.value
    then w.(supervisor := Starting(w.state.value))
    else w
  }

  /** `claim_lease`: no time to live is refused, a live or fresh lease blocks, an expired dead one is replaced. */
  function Claim(w: World, holder: nat, pid: nat, ttl: nat, alive: bool): World
    requires w.supervisor.Starting?
  {
    if ttl == 0 || (w.lease.Some? && (w.lease.value.expiresAt > w.now || alive)) then
      w.(supervisor := Absent)
    else
      var plan := w.supervisor.snapshot.plan;
      var lease := Lease(plan.generation, Digest(plan), holder, pid, w.now, w.now + ttl);
      Append(w.(lease := Some(lease), supervisor := Claimed(w.supervisor.snapshot, lease)), ClaimLease, plan.generation)
  }

  /** The supervisor publishes RUNNING over the snapshot it loaded. */
  function PublishRunning(w: World): World
    requires w.supervisor.Claimed?
  {
    var s := w.supervisor.snapshot.(status := Running);
    w.(state := Some(s), supervisor := Serving(w.supervisor.snapshot, w.supervisor.lease))
  }

  /** The `finally` block: release the lease if it is still the own one, and end. */
  function Exit(w: World): World
    requires w.supervisor.Claimed? || w.supervisor.Serving?
  {
    var own := w.supervisor.lease;
    if w.lease == Some(own)
    then Append(w.(lease := None, supervisor := Absent), ReleaseLease, own.generation)
    else w.(supervisor := Absent)
  }

  /** `heartbeat_lease`: renew the own lease in time, or raise into `finally`. */
  function Beat(w: World, ttl: nat): World
    requires w.supervisor.Serving?
  {
    var own := w.supervisor.lease;
    if w.lease == Some(own) && own.heartbeatAt <= w.now < own.expiresAt && ttl > 0 then
      var renewed := own.(heartbeatAt := w.now, expiresAt := w.now + ttl);
      Append(w.(lease := Some(renewed), supervisor := Serving(w.supervisor.snapshot, renewed)), Heartbeat, own.generation)
    else
      Exit(w)
  }

  function Crash(w: World): World {
    w.(supervisor := Absent)
  }

  datatype Step =
    | DoStart
    | DoClaim(holder: nat, pid: nat, ttl: nat, alive: bool)
    | DoRefuse
    | DoPublish
    | DoBeat(ttl: nat)
    | DoExit
    | DoCrash
    | DoWait(seconds: nat)

  /** One step of the supervisor, of its launcher or of the clock; a disabled step does nothing. */
  function Move(w: World, step: Step): World {
    match step
    case DoStart => if w.job.Some? && w.supervisor.Absent? then Start(w) else w
    case DoClaim(holder, pid, ttl, alive) => if w.supervisor.Starting? then Claim(w, holder, pid, ttl, alive) else w
    case DoRefuse => if w.supervisor.Starting? then Crash(w) else w
    case DoPublish => if w.supervisor.Claimed? then PublishRunning(w) else w
    case DoBeat(ttl) => if w.supervisor.Serving? then Beat(w, ttl) else w
    case DoExit => if w.supervisor.Claimed? || w.supervisor.Serving? then Exit(w) else w
    case DoCrash => Crash(w)
    case DoWait(seconds) => w.(now := w.now + seconds)
  }

  lemma AppendKeepsOrder(w: World, action: Action)
    requires PlansNumbered(w) && LogOrdered(w) && w.state.Some?
    ensures LogOrdered(Append(w, action, w.state.value.plan.generation))
  {
  }

  /** What a supervisor step leaves alone. */
  ghost predicate OnlySupervisor(w: World, w': World) {
    && w'.plist == w.plist && w'.job == w.job && w'.plans == w.plans && w.now <= w'.now
    && w.receipts <= w'.receipts
    && (w'.state == w.state || (w.state.Some? && Active(w.state.value) && w'.state == Some(w.state.value.(status := Running))))
    && (w.job.None? ==> w'.state == w.state && w'.lease == w.lease && w'.supervisor.Absent?)
  }

  lemma StartKeepsInv(w: World)
    requires Inv(w) && w.job.Some? && w.supervisor.Absent?
    ensures Inv(Start(w)) && OnlySupervisor(w, Start(w))
  {
  }

  lemma ClaimKeepsInv(w: World, holder: nat, pid: nat, ttl: nat, alive: bool)
    requires Inv(w) && w.supervisor.Starting?
    ensures Inv(Claim(w, holder, pid, ttl, alive)) && OnlySupervisor(w, Claim(w, holder, pid, ttl, alive))
  {
    AppendKeepsOrder(w, ClaimLease);
    hide LogOrdered, PlansNumbered;
    assert w.supervisor.snapshot.plan == w.state.value.plan;
  }

  lemma PublishKeepsInv(w: World)
    requires Inv(w) && w.supervisor.Claimed?
    ensures Inv(PublishRunning(w)) && OnlySupervisor(w, PublishRunning(w))
    ensures PublishRunning(w).state == Some(StateFile(Running, w.state.value.plan))
  {
  }

  lemma ExitKeepsInv(w: World)
    requires Inv(w) && (w.supervisor.Claimed? || w.supervisor.Serving?)
    ensures Inv(Exit(w)) && OnlySupervisor(w, Exit(w)) && Exit(w).lease.None? && Exit(w).supervisor.Absent?
  {
    AppendKeepsOrder(w, ReleaseLease);
  }

  lemma BeatKeepsInv(w: World, ttl: nat)
    requires Inv(w) && w.supervisor.Serving?
    ensures Inv(Beat(w, ttl)) && OnlySupervisor(w, Beat(w, ttl))
  {
    ExitKeepsInv(w);
    AppendKeepsOrder(w, Heartbeat);
  }

  lemma CrashKeepsInv(w: World)
    requires Inv(w)
    ensures Inv(Crash(w)) && OnlySupervisor(w, Crash(w))
  {
  }

  /** No step of the supervisor breaks the invariant. */
  lemma MoveKeepsInv(w: World, step: Step)
    requires Inv(w)
    ensures Inv(Move(w, step)) && OnlySupervisor(w, Move(w, step))
  {
    hide Inv, OnlySupervisor, Start, Claim, PublishRunning, Exit, Beat, Crash;
    WaitKeepsInv(w, 0);
    CrashKeepsInv(w);
    match step
    case DoStart =>
      if w.job.Some? && w.supervisor.Absent? {
        StartKeepsInv(w);
      }
    case DoClaim(holder, pid, ttl, alive) =>
      if w.supervisor.Starting? {
        ClaimKeepsInv(w, holder, pid, ttl, alive);
      }
    case DoPublish =>
      if w.supervisor.Claimed? {
        PublishKeepsInv(w);
      }
    case DoBeat(ttl) =>
      if w.supervisor.Serving? {
        BeatKeepsInv(w, ttl);
      }
    case DoExit =>
      if w.supervisor.Claimed? || w.supervisor.Serving? {
        ExitKeepsInv(w);
      }
    case DoWait(seconds) =>
      WaitKeepsInv(w, seconds);
    case _ =>
  }

  lemma WaitKeepsInv(w: World, seconds: nat)
    requires Inv(w)
    ensures var w' := w.(now := w.now + seconds); Inv(w') && OnlySupervisor(w, w') && OnlySupervisor(w, w)
  {
  }

  /** Over every run of supervisor steps the invariant holds and numbering is untouched. */
  lemma {:induction false} RunKeepsInv(w: World, steps: seq<Step>)
    requires Inv(w)
    ensures Inv(Run(w, steps)) && OnlySupervisor(w, Run(w, steps))
    decreases |steps|
  {
    hide Inv, Move;
    if steps == [] {
      WaitKeepsInv(w, 0);
    } else {
      MoveKeepsInv(w, steps[0]);
      RunKeepsInv(Move(w, steps[0]), steps[1..]);
      OnlySupervisorTransitive(w, Move(w, steps[0]), Run(w, steps));
    }
  }

  function Run(w: World, steps: seq<Step>): World
    decreases |steps|
  {
    if steps == [] then w else Run(Move(w, steps[0]), steps[1..])
  }

  // ------------------------------------------------------------ the lease's rules

  /** The running supervisor has this lease. */
  predicate Holds(w: World, lease: Lease) {
    (w.supervisor.Claimed? || w.supervisor.Serving?) && w.supervisor.lease == lease
  }

  /** A stored lease stands in the way: it has not expired, or its process is alive. */
  ghost predicate Blocks(w: World, alive: bool) {
    w.lease.Some? && (w.lease.value.expiresAt > w.now || alive)
  }

  /** What a claim stores: a lease of the loaded plan that expires after its time to live. */
  ghost predicate Granted(w: World, holder: nat, pid: nat, ttl: nat, w': World)
    requires w.supervisor.Starting?
  {
    var plan := w.supervisor.snapshot.plan;
    && w'.lease == Some(Lease(plan.generation, Digest(plan), holder, pid, w.now, w.now + ttl))
    && w'.supervisor == Claimed(w.supervisor.snapshot, w'.lease.value)
    && w'.receipts == w.receipts + [Receipt(ClaimLease, plan.generation)]
  }

  /**
   * A claim is refused, ends the process and leaves everything else as it is while a
   * lease stands in the way; otherwise it stores the process's own lease.
   */
  lemma ClaimExactly(w: World, holder: nat, pid: nat, ttl: nat, alive: bool)
    requires w.supervisor.Starting?
    ensures var w' := Move(w, DoClaim(holder, pid, ttl, alive));
      if ttl == 0 || Blocks(w, alive) then w' == w.(supervisor := Absent) else Granted(w, holder, pid, ttl, w')
  {
  }

  /**
   * A heartbeat of the holder renews its lease in time; a late one, or one without a
   * time to live, releases it and ends the process.
   */
  lemma BeatExactly(w: World, ttl: nat)
    requires Inv(w) && w.supervisor.Serving?
    ensures var own, w' := w.supervisor.lease, Move(w, DoBeat(ttl));
      if own.heartbeatAt <= w.now < own.expiresAt && ttl > 0
      then w'.lease == Some(own.(heartbeatAt := w.now, expiresAt := w.now + ttl))
           && w'.supervisor == Serving(w.supervisor.snapshot, w'.lease.value)
      else w'.lease.None? && w'.supervisor.Absent?
  {
  }

  /** Only a claim that nothing blocks, a heartbeat or the end of the holder changes the lease. */
  lemma LeaseChangesOnly(w: World, step: Step)
    requires Inv(w) && Move(w, step).lease != w.lease
    ensures step.DoClaim? ==> w.supervisor.Starting? && step.ttl > 0 && !Blocks(w, step.alive)
    ensures !step.DoClaim? ==> w.lease.Some? && Holds(w, w.lease.value) && (step.DoBeat? || step.DoExit?)
  {
    hide PlansNumbered, LogOrdered, JobBound;
  }

  /** The steps of a run claim only with the old process seen alive. */
  ghost predicate SeenAlive(steps: seq<Step>) {
    forall i :: 0 <= i < |steps| && steps[i].DoClaim? ==> steps[i].alive
  }

  lemma {:induction false} ClockOnlyGrows(w: World, steps: seq<Step>)
    ensures w.now <= Run(w, steps).now
    decreases |steps|
  {
    if steps != [] {
      ClockOnlyGrows(Move(w, steps[0]), steps[1..]);
    }
  }

  /**
   * Over every run, the lease of a holder that is no longer the running supervisor stays
   * in place, and no other supervisor gets past its claim, until the lease has expired
   * and its process is found dead.
   */
  lemma {:induction false} HeldLeaseBlocks(w: World, steps: seq<Step>)
    requires Inv(w) && w.lease.Some? && (w.supervisor.Absent? || w.supervisor.Starting?)
    requires Run(w, steps).now < w.lease.value.expiresAt || SeenAlive(steps)
    ensures Run(w, steps).lease == w.lease
    ensures Run(w, steps).supervisor.Absent? || Run(w, steps).supervisor.Starting?
    decreases |steps|
  {
    hide Inv;
    if steps != [] {
      ClockOnlyGrows(w, steps);
      ClockOnlyGrows(Move(w, steps[0]), steps[1..]);
      MoveKeepsInv(w, steps[0]);
      if steps[0].DoClaim? && w.supervisor.Starting? {
        ClaimExactly(w, steps[0].holder, steps[0].pid, steps[0].ttl, steps[0].alive);
      }
      assert SeenAlive(steps) ==> SeenAlive(steps[1..]);
      HeldLeaseBlocks(Move(w, steps[0]), steps[1..]);
    }
  }

  /** An expired lease that the running supervisor does not have. */
  ghost predicate Gone(w: World, lease: Lease) {
    lease.expiresAt <= w.now && !Holds(w, lease)
  }

  lemma MoveKeepsGone(w: World, step: Step, lease: Lease)
    requires Gone(w, lease)
    ensures Gone(Move(w, step), lease)
  {
  }

  /** What the orphan release leaves alone while the supervisor goes on. */
  ghost predicate OnlyLeaseCleared(w: World, w': World) {
    && w'.plist == w.plist && w'.job == w.job && w'.plans == w.plans && w.now <= w'.now
    && w.receipts <= w'.receipts
    && (w'.state == w.state || (w.state.Some? && Active(w.state.value) && w'.state == Some(w.state.value.(status := Running))))
    && (w.job.None? ==>
          w'.state == w.state && w'.supervisor.Absent? && (w'.lease == w.lease || w'.lease.None?))
  }

  lemma OnlySupervisorTransitive(a: World, b: World, c: World)
    requires OnlySupervisor(a, b) && OnlySupervisor(b, c)
    ensures OnlySupervisor(a, c)
  {
  }

  // ------------------------------------------------------------------- commands

  datatype BootoutResult = BootedOut | NotLoaded | Refused

  /** One service; operator commands run one at a time, the supervisor at any moment. */
  class Service {
    var world: World

    /** The world after every single file, launchd or supervisor operation. */
    ghost var trace: seq<World>

    ghost predicate Valid()
      reads this
    {
      && trace != [] && trace[|trace| - 1] == world
      && forall i :: 0 <= i < |trace| ==> Inv(trace[i])
    }

    constructor (now: int)
      ensures Valid() && world == World(None, None, None, None, Absent, [], now, [])
    {
      world := World(None, None, None, None, Absent, [], now, []);
      trace := [world];
    }

    /** One atomic operation: the next world keeps the invariant and is recorded. */
    method Commit(next: World)
      requires Valid() && Inv(next)
      modifies this
      ensures Valid() && world == next && trace == old(trace) + [next]
    {
      world := next;
      trace := trace + [next];
    }

    /** Any number of supervisor steps, restarts and clock ticks. */
    method Others()
      requires Valid()
      modifies this
      ensures Valid() && OnlySupervisor(old(world), world) && old(trace) <= trace
      ensures forall lease :: Gone(old(world), lease) ==> Gone(world, lease)
    {
      hide Gone;
      var budget: nat := *;
      while budget > 0
        invariant Valid() && OnlySupervisor(old(world), world) && old(trace) <= trace
        invariant forall lease :: Gone(old(world), lease) ==> Gone(world, lease)
      {
        hide Inv, Move;
        var step: Step := *;
        forall lease | Gone(world, lease)
          ensures Gone(Move(world, step), lease)
        {
          MoveKeepsGone(world, step, lease);
        }
        MoveKeepsInv(world, step);
        OnlySupervisorTransitive(old(world), world, Move(world, step));
        Commit(Move(world, step));
        budget := budget - 1;
      }
    }

    /** `launchctl bootout`: ends the supervisor, with or without its `finally` block. */
    method Bootout(refused: bool, crashes: bool) returns (rc: BootoutResult)
      requires Valid()
      modifies this
      ensures Valid() && old(trace) <= trace
      ensures refused ==> rc == Refused && world == old(world)
      ensures !refused ==>
        && rc == (if old(world).job.None? then NotLoaded else BootedOut)
        && world.job.None? && world.supervisor.Absent?
        && world.state == old(world).state && world.plans == old(world).plans && world.plist == old(world).plist
        && (world.lease == old(world).lease || world.lease.None?)
        && (old(world).job.None? ==> world == old(world))
    {
      if refused {
        return Refused;
      }
      if world.job.None? {
        return NotLoaded;
      }
      var step := if crashes || world.supervisor.Starting? then DoCrash else DoExit;
      BootoutKeepsInv(world, step);
      hide Inv;
      Commit(Move(world, step).(job := None));
      rc := BootedOut;
    }

    /** `launchctl bootstrap`: a failed one starts nothing. */
    method Bootstrap(fails: bool) returns (ok: bool)
      requires Valid() && world.state.Some? && Active(world.state.value)
      modifies this
      ensures Valid() && old(trace) <= trace
      ensures ok <==> !fails && old(world).job.None?
      ensures world == if ok then old(world).(job := old(world).plist) else old(world)
    {
      ok := !fails && world.job.None?;
      if ok {
        Commit(world.(job := world.plist));
      }
    }

    /** Does the process that wrote the lease still run? Certain only for the live holder. */
    method IsAlive(lease: Lease) returns (alive: bool)
      ensures Holds(world, lease) ==> alive
    {
      var guess: bool := *;
      alive := guess || Holds(world, lease);
    }

    method WriteState(s: StateFile)
      requires Valid() && world.state.Some? && s.plan == world.state.value.plan
      requires Inv(world.(state := Some(s)))
      modifies this
      ensures Valid() && old(trace) <= trace && world == old(world).(state := Some(s))
    {
      Commit(world.(state := Some(s)));
    }

    method Log(action: Action)
      requires Valid() && world.state.Some?
      modifies this
      ensures Valid() && old(trace) <= trace
      ensures world == Append(old(world), action, old(world).state.value.plan.generation)
    {
      AppendKeepsOrder(world, action);
      Commit(Append(world, action, world.state.value.plan.generation));
    }

    /** `FileLeasePort.release`: only the expected lease is removed, safely when its holder is gone. */
    method Release(expected: Lease) returns (ok: bool)
      requires Valid()
      modifies this
      ensures !Holds(old(world), expected) ==> Valid()
      ensures ok <==> old(world).lease == Some(expected)
      ensures world == if ok then old(world).(lease := None) else old(world)
      ensures trace == if ok then old(trace) + [world] else old(trace)
    {
      ok := world.lease == Some(expected);
      if ok {
        world := world.(lease := None);
        trace := trace + [world];
      }
    }

    /**
     * Freeze the next plan. A repeated identical prepare changes nothing; an active
     * plan, or a different prepared one, blocks it. The new plan continues the
     * numbering, and no lease of an older generation exists at that moment.
     */
    method Prepare(planId: nat, request: Request, preflight: bool, buildable: bool)
      returns (r: Result<Done, Blocked>)
      requires Valid()
      modifies this
      ensures Valid() && old(trace) <= trace
      ensures r == Ok(Fresh) ==>
        && (old(world).state.Some? ==> old(world).state.value.status == Stopped)
        && world.state == Some(StateFile(Prepared, Plan(planId, |old(world).plans| + 1, request)))
        && world.plans == old(world).plans + [world.state.value.plan]
        && world.lease.None? && old(world).lease.None?
      ensures r != Ok(Fresh) ==> world.state == old(world).state && world.plans == old(world).plans && world.lease == old(world).lease
      ensures r == Ok(RepeatNoOp) <==>
        preflight && old(world).state.Some? && old(world).state.value.status == Prepared
        && old(world).state.value.plan.request == request
      ensures preflight && old(world).state.Some? && Active(old(world).state.value) ==> r == Err(ActivePlanExists)
      ensures r != Err(LeaseHeld)
      ensures r == Ok(Fresh) <==>
        preflight && buildable && (old(world).state.None? || old(world).state.value.status == Stopped)
      ensures r == Ok(Fresh) ==> LastReceipt(world) == Some(Receipt(PrepareDone, |world.plans|))
    {
      hide LeaseMatchesPlan, SupervisorBound, JobBound, LogOrdered;
      if !preflight {
        return Err(Preflight);
      }
      var generation := 1;
      if world.state.Some? {
        var prior := world.state.value;
        if prior.status == Prepared {
          if prior.plan.request != request {
            return Err(PreparedPlanExists);
          }
          return Ok(RepeatNoOp);
        }
        if Active(prior) {
          return Err(ActivePlanExists);
        }
        generation := prior.plan.generation + 1;
      }
      InactiveIsQuiet(world);
      NextGeneration(world);
      hide Inv;
      if !buildable {
        return Err(Preflight);
      }
      var plan := Plan(planId, generation, request);
      Others();
      if world.lease.Some? {
        return Err(LeaseHeld);
      }
      PlistKeepsInv(world, plan);
      Commit(world.(plist := Some(Digest(plan))));
      Others();
      PlanNumbered(world, plan);
      Commit(world.(state := Some(StateFile(Prepared, plan)), plans := world.plans + [plan]));
      Log(PrepareDone);
      r := Ok(Fresh);
    }

    /**
     * Publish the confirmation, then start the job. A failed bootstrap puts the
     * prepared state back and leaves no process behind.
     */
    method Confirm(digest: Digest, preflight: bool, authorised: bool, bootoutRefused: bool, bootstrapFails: bool)
      returns (r: Result<Done, Blocked>)
      requires Valid()
      modifies this
      ensures Valid() && old(trace) <= trace && world.plans == old(world).plans
      ensures r.Ok? ==> world.state.Some? && Active(world.state.value) && digest == Digest(world.state.value.plan)
      ensures r == Ok(Fresh) ==> world.job == Some(digest) && old(world).state == Some(StateFile(Prepared, digest.plan))
      ensures r == Ok(RepeatNoOp) ==> world == old(world) && Active(old(world).state.value)
      ensures r == Ok(Fresh) <==>
        preflight && authorised && !bootstrapFails && old(world).state == Some(StateFile(Prepared, digest.plan))
      ensures r == Ok(RepeatNoOp) <==>
        && preflight && authorised && old(world).state.Some? && Active(old(world).state.value)
        && digest == Digest(old(world).state.value.plan)
      ensures r == Ok(Fresh) ==> LastReceipt(world) == Some(Receipt(ConfirmDone, digest.plan.generation))
      ensures r.Err? ==> world.state == old(world).state && world.job == old(world).job && world.lease == old(world).lease
      ensures r == Err(BootstrapFailed) <==>
        preflight && authorised && bootstrapFails && old(world).state == Some(StateFile(Prepared, digest.plan))
    {
      if !preflight {
        return Err(Preflight);
      }
      if world.state.None? {
        return Err(PlanUnset);
      }
      var state := world.state.value;
      if Digest(state.plan) != digest {
        return Err(ConfirmationDrift);
      }
      if !authorised {
        return Err(AuthorityRefused);
      }
      if Active(state) {
        return Ok(RepeatNoOp);
      }
      if state.status != Prepared {
        return Err(ConfirmationDrift);
      }
      var ok := Activate(bootoutRefused, bootstrapFails);
      r := if ok then Ok(Fresh) else Err(BootstrapFailed);
    }

    /** CONFIRMED is published first, so that the starting supervisor never sees PREPARED. */
    method Activate(bootoutRefused: bool, bootstrapFails: bool) returns (ok: bool)
      requires Valid() && world.state.Some? && world.state.value.status == Prepared
      modifies this
      ensures Valid() && old(trace) <= trace && world.plans == old(world).plans
      ensures ok <==> !bootstrapFails
      ensures ok ==>
        && world.state.Some? && Active(world.state.value) && world.state.value.plan == old(world).state.value.plan
        && world.job == Some(Digest(old(world).state.value.plan))
        && LastReceipt(world) == Some(Receipt(ConfirmDone, old(world).state.value.plan.generation))
      ensures !ok ==> world.state == old(world).state && world.job == old(world).job && world.lease == old(world).lease
    {
      hide Inv, LeaseMatchesPlan, PlansNumbered, SupervisorBound, JobBound, LogOrdered;
      var state := world.state.value;
      InactiveIsQuiet(world);
      Others();
      StatusKeepsInv(world, Confirmed);
      PreparedPlist(world);
      WriteState(state.(status := Confirmed));
      Others();
      var rc := Bootout(bootoutRefused, false);
      Others();
      ok := Bootstrap(bootstrapFails);
      Others();
      if !ok {
        StatusKeepsInv(world, Prepared);
        WriteState(state);
        return;
      }
      Log(ConfirmDone);
    }

    /**
     * An expired lease whose process is gone is released, unless the supervisor has
     * replaced it in the meantime.
     */
    method ReleaseOrphan() returns (r: Result<Option<Lease>, Blocked>)
      requires Valid()
      modifies this
      ensures Valid() && old(trace) <= trace && OnlyLeaseCleared(old(world), world)
      ensures r.Ok? && r.value.Some? ==> world.lease.None? && r.value.value.expiresAt <= world.now
      ensures (r.Ok? && r.value.None?) || r == Err(LeaseFenced) ==> OnlySupervisor(old(world), world)
      ensures r.Err? ==> r == Err(LeaseFenced) && old(world).job.Some?
    {
      hide Inv;
      Others();
      if world.lease.None? {
        return Ok(None);
      }
      var lease := world.lease.value;
      if lease.expiresAt > world.now {
        return Ok(None);
      }
      Others();
      var alive := IsAlive(lease);
      if alive {
        return Ok(None);
      }
      assert Gone(world, lease);
      Others();
      var ok := Release(lease);
      r := if ok then Ok(Some(lease)) else Err(LeaseFenced);
    }

    /**
     * End the service. Success means the state is STOPPED and neither a job, nor a
     * supervisor, nor a lease is left; a repeated stop changes nothing.
     */
    method Stop(preflight: bool, bootoutRefused: bool, crashes: bool, containerGone: bool, databaseReleased: bool)
      returns (r: Result<Done, Blocked>)
      requires Valid()
      modifies this
      ensures Valid() && old(trace) <= trace && world.plans == old(world).plans
      ensures r.Ok? ==>
        && old(world).state.Some? && world.state == Some(old(world).state.value.(status := Stopped))
        && world.job.None? && world.supervisor.Absent? && world.lease.None?
      ensures r == Ok(RepeatNoOp) ==> world == old(world)
      ensures r == Ok(RepeatNoOp) <==>
        && preflight && containerGone && databaseReleased
        && old(world).state.Some? && old(world).state.value.status == Stopped
      ensures r == Ok(Fresh) ==> LastReceipt(world) == Some(Receipt(StopDone, old(world).state.value.plan.generation))
      ensures r.Err? ==>
        world.state == old(world).state
        || (old(world).state.Some? && Active(old(world).state.value) && world.state == Some(old(world).state.value.(status := Running)))
      ensures preflight && old(world).state.Some? && !bootoutRefused && containerGone && databaseReleased ==>
        r.Ok? || (r == Err(StopLeaseHeld) && world.lease.Some?)
    {
      if !preflight {
        return Err(Preflight);
      }
      if world.state.None? {
        return Err(PlanUnset);
      }
      var state := world.state.value;
      if state.status == Stopped {
        InactiveIsQuiet(world);
        if !containerGone || !databaseReleased {
          return Err(ContainerHeld);
        }
        return Ok(RepeatNoOp);
      }
      r := StopUnstopped(bootoutRefused, crashes, containerGone, databaseReleased);
    }

    /** The lease port's part of a stop: an orphan is released, any other lease blocks. */
    method ClearLease() returns (blocked: Option<Blocked>)
      requires Valid() && world.state.Some?
      modifies this
      ensures Valid() && old(trace) <= trace
      ensures OnlyLeaseCleared(old(world), world)
      ensures blocked.None? ==> world.lease.None?
      ensures blocked.Some? ==> (blocked.value == StopLeaseHeld && world.lease.Some?) || blocked.value == LeaseFenced
      ensures blocked == Some(LeaseFenced) ==> old(world).job.Some?
    {
      hide Inv;
      var orphan := ReleaseOrphan();
      if orphan.Err? {
        return Some(orphan.error);
      }
      if orphan.value.Some? {
        Log(OrphanRelease);
        return None;
      }
      blocked := if world.lease.Some? then Some(StopLeaseHeld) else None;
    }

    method StopUnstopped(bootoutRefused: bool, crashes: bool, containerGone: bool, databaseReleased: bool)
      returns (r: Result<Done, Blocked>)
      requires Valid() && world.state.Some? && world.state.value.status != Stopped
      modifies this
      ensures Valid() && old(trace) <= trace && world.plans == old(world).plans && r != Ok(RepeatNoOp)
      ensures r.Ok? ==>
        && world.state == Some(old(world).state.value.(status := Stopped))
        && world.job.None? && world.supervisor.Absent? && world.lease.None?
        && LastReceipt(world) == Some(Receipt(StopDone, old(world).state.value.plan.generation))
      ensures r.Err? ==>
        world.state == old(world).state
        || (Active(old(world).state.value) && world.state == Some(old(world).state.value.(status := Running)))
      ensures !bootoutRefused && containerGone && databaseReleased ==> r.Ok? || (r == Err(StopLeaseHeld) && world.lease.Some?)
    {
      hide Inv, Valid;
      var state := world.state.value;
      Others();
      var rc := Bootout(bootoutRefused, crashes);
      Others();
      var blocked := ClearLease();
      if blocked.Some? {
        return Err(blocked.value);
      }
      if !containerGone {
        return Err(ContainerHeld);
      }
      if rc == Refused {
        return Err(BootoutFailed);
      }
      if !databaseReleased {
        return Err(ContainerHeld);
      }
      FinishStop(state);
      r := Ok(Fresh);
    }

    method FinishStop(state: StateFile)
      requires Valid() && world.job.None? && world.supervisor.Absent? && world.lease.None?
      requires world.state.Some? && world.state.value.plan == state.plan && world.state.value.status != Stopped
      modifies this
      ensures Valid() && old(trace) <= trace && world.plans == old(world).plans
      ensures world.state == Some(state.(status := Stopped))
      ensures LastReceipt(world) == Some(Receipt(StopDone, state.plan.generation))
      ensures world.job.None? && world.supervisor.Absent? && world.lease.None?
    {
      hide Inv;
      Others();
      StatusKeepsInv(world, Stopped);
      WriteState(state.(status := Stopped));
      Log(StopDone);
    }

    /** Clear an orphaned lease and reload the job of an active plan. */
    method Recover(preflight: bool, authorised: bool, bootstrapFails: bool) returns (r: Result<Done, Blocked>)
      requires Valid()
      modifies this
      ensures Valid() && old(trace) <= trace && world.plans == old(world).plans
      ensures r.Ok? ==>
        && world.state.Some? && Active(world.state.value) && world.job == Some(Digest(world.state.value.plan))
        && world.plist == old(world).plist
        && LastReceipt(world) == Some(Receipt(RecoverDone, world.state.value.plan.generation))
      ensures old(world).state.Some? && !Active(old(world).state.value) ==>
        r.Err? && world.state == old(world).state && world.job.None? && world.lease.None?
      ensures r == Ok(RepeatNoOp) ==> old(world).job.Some?
      ensures preflight && authorised && old(world).state.Some? && Active(old(world).state.value) ==>
        r.Ok? || (r == Err(LeaseFenced) && old(world).job.Some?) || (r == Err(RecoveryFailed) && bootstrapFails && world.job.None?)
    {
      if !preflight {
        return Err(Preflight);
      }
      if world.state.None? {
        return Err(PlanUnset);
      }
      if !authorised {
        return Err(AuthorityRefused);
      }
      if !Active(world.state.value) {
        InactiveIsQuiet(world);
      }
      hide Inv;
      var orphan := ReleaseOrphan();
      if orphan.Err? {
        return Err(orphan.error);
      }
      if world.job.Some? {
        Others();
        LoadedIsActive(world);
        Log(RecoverDone);
        return Ok(if orphan.value.Some? then Fresh else RepeatNoOp);
      }
      if !Active(world.state.value) {
        return Err(RecoveryUnconfirmed);
      }
      Others();
      var ok := Bootstrap(bootstrapFails);
      if !ok {
        return Err(RecoveryFailed);
      }
      Others();
      LoadedIsActive(world);
      Log(RecoverDone);
      r := Ok(Fresh);
    }
  }

  /** A loaded job is the job of the active plan. */
  lemma LoadedIsActive(w: World)
    requires Inv(w) && w.job.Some?
    ensures w.state.Some? && Active(w.state.value) && w.job == Some(Digest(w.state.value.plan))
  {
  }

  lemma BootoutKeepsInv(w: World, step: Step)
    requires Inv(w) && (step == DoCrash || (step == DoExit && !w.supervisor.Starting?))
    ensures Inv(Move(w, step).(job := None))
  {
    MoveKeepsInv(w, step);
  }

  lemma PlistKeepsInv(w: World, plan: Plan)
    requires Inv(w) && w.job.None? && (w.state.Some? ==> w.state.value.status == Stopped)
    ensures Inv(w.(plist := Some(Digest(plan))))
  {
  }

  lemma PreparedPlist(w: World)
    requires Inv(w) && w.state.Some? && w.state.value.status != Stopped
    ensures w.plist == Some(Digest(w.state.value.plan))
  {
  }

  lemma NextGeneration(w: World)
    requires Inv(w)
    ensures if w.state.Some? then w.state.value.plan.generation == |w.plans| else w.plans == []
  {
  }

  /** With no job, supervisor or lease the status may be rewritten. */
  lemma StatusKeepsInv(w: World, status: Status)
    requires Inv(w) && w.state.Some? && w.job.None? && w.supervisor.Absent? && w.lease.None?
    requires w.state.value.status == Stopped ==> status == Stopped
    ensures Inv(w.(state := Some(w.state.value.(status := status))))
  {
  }

  /** Storing the next plan while nothing is active keeps the invariant. */
  lemma PlanNumbered(w: World, plan: Plan)
    requires Inv(w) && w.lease.None? && w.job.None? && w.supervisor.Absent?
    requires w.plist == Some(Digest(plan)) && plan.generation == |w.plans| + 1
    ensures Inv(w.(state := Some(StateFile(Prepared, plan)), plans := w.plans + [plan]))
  {
  }
}
