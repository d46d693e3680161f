// Signal handling, child supervision and clean-up of the isolated acceptance server.

module AcceptanceServer {
  import opened Util

  datatype Process = NotStarted | Running | Exited(code: int)

  /** Steps of the run that may raise. */
  datatype Faults = Faults(
    seed: bool, registry: bool, environment: bool, spawn: bool, tell: bool, wait: bool, reap: bool, cleanUp: bool)

  datatype Error = SeedFailed | RegistryFailed | EnvironmentFailed | SpawnFailed | WaitFailed | ReapFailed | CleanUpFailed

  predicate NoFaults(f: Faults) {
    !f.seed && !f.registry && !f.environment && !f.spawn && !f.tell && !f.wait && !f.reap && !f.cleanUp
  }

  /** What one moment looks like once the program waits for its child. */
  datatype Moment = Moment(signalled: bool, running: bool, told: bool)

  /** A delivered signal has reached a child that is still running. */
  predicate NotLost(m: Moment) {
    m.signalled && m.running ==> m.told
  }

  class Server {
    /** Variables of the run; `known` says that the handler can see the child. */
    var stopSignal: Option<int>
    var known: bool

    /** The world: the child process, whether it was told to end, and the files. */
    var process: Process
    var told: bool
    var root: bool
    var registry: bool

    /** Whether any signal was delivered, and every moment of the wait. */
    ghost var signalled: bool
    ghost var moments: seq<Moment>

    /** Whether a signal had been delivered by the last check before the child, and whether it was killed. */
    ghost var early: bool
    ghost var killed: bool

    constructor (registryExists: bool)
      ensures stopSignal.None? && !known && process.NotStarted? && !told && !root && registry == registryExists
      ensures !signalled && moments == [] && !early && !killed
    {
      stopSignal, known, process, told, root, registry := None, false, NotStarted, false, false, registryExists;
      signalled, moments, early, killed := false, [], false, false;
    }

    /** The handler remembers the first signal and tells a visible running child. */
    ghost predicate Valid()
      reads this
    {
      && (signalled <==> stopSignal.Some?)
      && (known ==> !process.NotStarted?)
      && (told ==> known) && (killed ==> told) && (early ==> signalled && process.NotStarted?)
      && forall i :: 0 <= i < |moments| ==> NotLost(moments[i]) && (moments[i].signalled ==> signalled)
    }

    /** `request_stop`, run between any two steps. */
    method RequestStop(signum: int)
      requires Valid()
      modifies this
      ensures Valid() && signalled
      ensures stopSignal == if old(stopSignal).Some? then old(stopSignal) else Some(signum)
      ensures told == (old(told) || (known && process.Running?))
      ensures process == old(process) && known == old(known) && root == old(root) && registry == old(registry)
      ensures moments == old(moments) && early == old(early) && killed == old(killed)
    {
      stopSignal := if stopSignal.Some? then stopSignal else Some(signum);
      signalled := true;
      if known && process.Running? {
        told := true;
      }
    }

    /** Any number of signals, and the child may end by itself. */
    method Interrupts()
      requires Valid()
      modifies this
      ensures Valid() && known == old(known) && root == old(root) && registry == old(registry)
      ensures old(signalled) ==> signalled && stopSignal == old(stopSignal)
      ensures process == old(process) || (old(process).Running? && process.Exited?)
      ensures known && signalled && process.Running? && (old(signalled) ==> old(told)) ==> told
      ensures old(told) ==> told
      ensures moments == old(moments) && early == old(early) && killed == old(killed)
    {
      var budget: nat := *;
      while budget > 0
        invariant Valid() && known == old(known) && root == old(root) && registry == old(registry)
        invariant old(signalled) ==> signalled && stopSignal == old(stopSignal)
        invariant process == old(process) || (old(process).Running? && process.Exited?)
        invariant known && signalled && process.Running? && (old(signalled) ==> old(told)) ==> told
        invariant old(told) ==> told
        invariant moments == old(moments) && early == old(early) && killed == old(killed)
      {
        var choice: bool, number: int := *, *;
        if choice {
          RequestStop(number);
        } else if process.Running? {
          process := Exited(number);
        }
        budget := budget - 1;
      }
    }

    /** `child.wait()`: moments pass until the child has ended, or until the wait raises. */
    method Wait(raises: bool) returns (code: Option<int>)
      requires Valid() && known && (signalled && process.Running? ==> told)
      modifies this
      ensures Valid() && known && !process.NotStarted? && root == old(root) && registry == old(registry)
      ensures old(signalled) ==> signalled && stopSignal == old(stopSignal)
      ensures old(moments) <= moments
      ensures code.None? <==> raises
      ensures code.Some? ==> process == Exited(code.value)
    {
      var budget: nat := *;
      while budget > 0
        invariant Valid() && known && !process.NotStarted? && root == old(root) && registry == old(registry)
        invariant signalled && process.Running? ==> told
        invariant old(signalled) ==> signalled && stopSignal == old(stopSignal)
        invariant old(moments) <= moments
      {
        moments := moments + [Moment(signalled, process.Running?, told)];
        Interrupts();
        budget := budget - 1;
      }
      if raises {
        return None;
      }
      if process.Running? {
        var status: int := *;
        process := Exited(status);
      }
      code := Some(process.code);
    }

    /** End a child that still runs: terminate, wait, kill, wait. Any of these may raise. */
    method Reap(f: Faults) returns (ok: bool)
      requires Valid() && (process.Running? ==> known)
      modifies this
      ensures Valid() && root == old(root) && registry == old(registry)
      ensures ok ==> !process.Running?
      ensures !ok ==> f.reap && old(process).Running?
      ensures process == old(process) || old(process).Running?
      ensures moments == old(moments)
      ensures old(signalled) ==> signalled && stopSignal == old(stopSignal)
    {
      Interrupts();
      if known && process.Running? {
        var atOnce: bool := *;
        if atOnce && f.reap {
          return false;
        }
        told := true;
        Interrupts();
        if process.Running? {
          if f.reap {
            return false;
          }
          killed := true;
          process := Exited(-9);
        }
      }
      ok := true;
    }

    /** The finally block: end the child, remove the root, remove the registry. */
    method CleanUp(owned: bool, withRegistry: bool, f: Faults) returns (error: Option<Error>)
      requires Valid() && (process.Running? ==> known)
      modifies this
      ensures Valid()
      ensures error.None? ==> !process.Running? && (owned ==> !root) && registry == (old(registry) && !withRegistry)
      ensures error.Some? ==> registry == old(registry)
      ensures error == Some(ReapFailed) ==> old(process).Running?
      ensures !old(root) ==> !root
      ensures process == old(process) || old(process).Running?
      ensures moments == old(moments)
      ensures old(signalled) ==> signalled && stopSignal == old(stopSignal)
      ensures error.Some? ==> (error == Some(ReapFailed) && f.reap) || (error == Some(CleanUpFailed) && f.cleanUp)
    {
      var reaped := Reap(f);
      if !reaped {
        return Some(ReapFailed);
      }
      Interrupts();
      if owned && f.cleanUp {
        return Some(CleanUpFailed);
      }
      RemoveFiles(owned, withRegistry);
      Interrupts();
      error := None;
    }

    /** Remove the owned root, then the registry; a missing registry is no error. */
    method RemoveFiles(owned: bool, withRegistry: bool)
      requires Valid()
      modifies this
      ensures Valid() && moments == old(moments)
      ensures process == old(process) || (old(process).Running? && process.Exited?)
      ensures root == (old(root) && !owned) && registry == (old(registry) && !withRegistry)
      ensures old(signalled) ==> signalled && stopSignal == old(stopSignal)
    {
      if owned {
        root := false;
      }
      Interrupts();
      if withRegistry {
        registry := false;
      }
    }

    /** The try block. */
    method Attempt(withRegistry: bool, f: Faults) returns (r: Result<int, Error>, owned: bool)
      requires Valid() && stopSignal.None? && !known && process.NotStarted? && !told && !root && moments == []
      modifies this
      ensures Valid() && (process.Running? ==> known) && (root ==> owned || r == Err(SeedFailed))
      ensures r.Ok? ==> process.NotStarted? || process.Exited?
      ensures r.Ok? && process.NotStarted? ==> signalled
      ensures r.Ok? && signalled ==> r.value == 128 + stopSignal.value
      ensures r.Ok? && !signalled ==> process == Exited(r.value)
      ensures r == Err(SeedFailed) ==> f.seed && !owned
      ensures withRegistry && old(registry) ==> process.NotStarted? && registry
      ensures !withRegistry ==> registry == old(registry)
      ensures process.Running? ==> r == Err(WaitFailed)
      ensures r == Err(WaitFailed) ==> (f.tell || f.wait) && known
      ensures known ==> r.Ok? || r == Err(WaitFailed)
      ensures f.wait && known ==> r == Err(WaitFailed)
      ensures r == Err(EnvironmentFailed) ==> f.environment
      ensures r == Err(SpawnFailed) ==> f.spawn
      ensures r == Err(RegistryFailed) ==> withRegistry && (f.registry || old(registry))
      ensures r.Ok? || r == Err(SeedFailed) || r == Err(RegistryFailed) || r == Err(EnvironmentFailed)
        || r == Err(SpawnFailed) || r == Err(WaitFailed)
    {
      owned := false;
      Interrupts();
      if stopSignal.Some? {
        return Ok(128 + stopSignal.value), owned;
      }
      root := true;
      if f.seed {
        return Err(SeedFailed), owned;
      }
      Interrupts();
      owned := true;
      Interrupts();
      if stopSignal.Some? {
        return Ok(128 + stopSignal.value), owned;
      }
      if withRegistry {
        if registry || f.registry {
          return Err(RegistryFailed), owned;
        }
        registry := true;
      }
      Interrupts();
      early := signalled;
      if stopSignal.Some? {
        return Ok(128 + stopSignal.value), owned;
      }
      Interrupts();
      if f.environment {
        return Err(EnvironmentFailed), owned;
      }
      if f.spawn {
        return Err(SpawnFailed), owned;
      }
      r := ServeChild(f);
    }

    /** Start the child, tell it about a signal that came before it was visible, and wait. */
    method ServeChild(f: Faults) returns (r: Result<int, Error>)
      requires Valid() && !early && !known && process.NotStarted? && moments == []
      modifies this
      ensures Valid() && known && !process.NotStarted? && root == old(root) && registry == old(registry)
      ensures r.Ok? ==> process.Exited?
      ensures r.Ok? && signalled ==> r.value == 128 + stopSignal.value
      ensures r.Ok? && !signalled ==> process == Exited(r.value)
      ensures r.Err? ==> r == Err(WaitFailed) && (f.tell || f.wait)
      ensures f.wait ==> r == Err(WaitFailed)
    {
      process := Running;
      Interrupts();
      known := true;
      Interrupts();
      if stopSignal.Some? {
        if f.tell {
          return Err(WaitFailed);
        }
        if process.Running? {
          told := true;
        }
      }
      var code := Wait(f.wait);
      if code.None? {
        return Err(WaitFailed);
      }
      Interrupts();
      r := Ok(if stopSignal.Some? then 128 + stopSignal.value else code.value);
    }

    /**
     * The whole run. Whatever moments the signals choose: after one that came before the
     * last check no child is started, a child that is waited for after a signal has been
     * told to end, no child is killed untold, and a run that returns leaves no child, no
     * root and no registry behind. A run that raises, also after the child was started,
     * leaves them only if seeding, reaping or the clean-up itself failed. A registry that
     * existed before the call is not this run's; it is removed all the same unless the
     * clean-up fails before it.
     */
    method RunServer(withRegistry: bool, f: Faults) returns (r: Result<int, Error>)
      requires Valid() && stopSignal.None? && !known && process.NotStarted? && !told && !root && moments == []
      modifies this
      ensures forall i :: 0 <= i < |moments| ==> NotLost(moments[i])
      ensures (early ==> process.NotStarted?) && (killed ==> told)
      ensures signalled <==> stopSignal.Some?
      ensures r.Ok? ==> !process.Running? && !root && (withRegistry ==> !registry)
      ensures r.Err? && r.error != SeedFailed && r.error != ReapFailed && r.error != CleanUpFailed ==>
        !process.Running? && !root && (withRegistry ==> !registry)
      ensures r.Ok? ==> (signalled && r.value == 128 + stopSignal.value) || process == Exited(r.value)
      ensures r.Ok? && (process.NotStarted? || exists i :: 0 <= i < |moments| && moments[i].signalled) ==>
        signalled && r.value == 128 + stopSignal.value
      ensures withRegistry && old(registry) ==> process.NotStarted? && (r.Err? || signalled)
      ensures withRegistry && old(registry) ==> (registry <==> r == Err(CleanUpFailed))
      ensures withRegistry && registry ==> r == Err(CleanUpFailed) || r == Err(ReapFailed)
      ensures !withRegistry ==> registry == old(registry)
      ensures r == Err(SeedFailed) ==> f.seed
      ensures r == Err(ReapFailed) ==> f.reap && (f.tell || f.wait)
      ensures r == Err(WaitFailed) ==> f.tell || f.wait
      ensures r == Err(CleanUpFailed) ==> f.cleanUp
      ensures r == Err(EnvironmentFailed) ==> f.environment
      ensures r == Err(SpawnFailed) ==> f.spawn
      ensures r == Err(RegistryFailed) ==> withRegistry && (f.registry || old(registry))
      ensures NoFaults(f) && !(withRegistry && old(registry)) ==> r.Ok?
      ensures NoFaults(f) && !(withRegistry && old(registry)) && !signalled ==> process == Exited(r.value)
    {
      var outcome, owned := Attempt(withRegistry, f);
      var error := CleanUp(owned, withRegistry, f);
      r := if error.Some? then Err(error.value) else outcome;
    }
  }
}
