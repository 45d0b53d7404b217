/** The sync scheduler as an object, one method per event, proved against SchedulerSpec. */
module SyncScheduler {
  import opened Json
  import Spec = SchedulerSpec

  /** Timers, the engine's pending calls and the detector's listeners. */
  class Surroundings {
    var timers: set<nat>
    var nextTimer: nat
    var cycles: nat
    var started: nat
    var listeners: nat

    constructor ()
      ensures timers == {} && nextTimer == 0 && cycles == 0 && started == 0 && listeners == 0
    {
      timers, nextTimer, cycles, started, listeners := {}, 0, 0, 0, 0;
    }

    method SetTimeout() returns (timer: nat)
      modifies this`timers, this`nextTimer
      ensures timer == old(nextTimer) && timers == old(timers) + {timer} && nextTimer == timer + 1
    {
      timer := nextTimer;
      timers, nextTimer := timers + {timer}, nextTimer + 1;
    }

    method ClearTimeout(timer: nat)
      modifies this`timers
      ensures timers == old(timers) - {timer}
    {
      timers := timers - {timer};
    }

    method CallEngine()
      modifies this`cycles, this`started
      ensures cycles == old(cycles) + 1 && started == old(started) + 1
    {
      cycles, started := cycles + 1, started + 1;
    }
  }

  class SyncScheduler {
    const config: Spec.Config
    const world: Surroundings
    var timerHandle: Option<nat>
    var syncInProgress: bool
    var consecutiveFailures: nat
    var currentIntervalMs: int
    var disposed: bool
    var pendingTrigger: bool
    var cleanupConnectivity: bool

    ghost function State(): Spec.Scheduler
      reads this, world
    {
      Spec.Scheduler(timerHandle, syncInProgress, consecutiveFailures, currentIntervalMs, disposed, pendingTrigger,
                     cleanupConnectivity, world.timers, world.nextTimer, world.cycles, world.started, world.listeners)
    }

    constructor (config: Spec.Config)
      ensures this.config == config && fresh(world)
      ensures State() == Spec.Initial(config) && Spec.Sound(config, State())
    {
      this.config := config;
      world := new Surroundings();
      timerHandle, syncInProgress, consecutiveFailures, currentIntervalMs := None, false, 0, config.base;
      disposed, pendingTrigger, cleanupConnectivity := false, false, false;
    }

    method Start() returns (threw: bool)
      modifies this, world
      ensures State() == Spec.Next(config, old(State()), Spec.Start) && threw == old(disposed)
    {
      if disposed {
        return true;
      }
      SetupConnectivityListener();
      ScheduleNext();
      return false;
    }

    method Stop()
      modifies this, world
      ensures State() == Spec.Next(config, old(State()), Spec.Stop)
    {
      CancelTimer();
      TeardownConnectivityListener();
    }

    method TriggerSync()
      modifies this, world
      ensures State() == Spec.Next(config, old(State()), Spec.Trigger)
    {
      if syncInProgress {
        pendingTrigger := true;
        return;
      }
      CancelTimer();
      RunSyncCycle();
    }

    method Dispose()
      modifies this, world
      ensures State() == Spec.Next(config, old(State()), Spec.Dispose)
    {
      Stop();
      disposed := true;
    }

    /** The detector calls every listener that is registered. */
    method ComeOnline()
      modifies this, world
      ensures State() == Spec.Next(config, old(State()), Spec.Online)
    {
      var calls := world.listeners;
      for i := 0 to calls
        invariant State() == Spec.TriggerTimes(old(State()), i)
      {
        TriggerSync();
      }
    }

    /** An armed timer goes off. */
    method Fire(timer: nat)
      requires timer in world.timers
      modifies this, world
      ensures State() == Spec.Next(config, old(State()), Spec.Fire(timer))
    {
      world.timers := world.timers - {timer};
      timerHandle := None;
      RunSyncCycle();
    }

    /** The engine's call returns or throws; the cycle ends. */
    method Finish(result: Spec.Result)
      requires world.cycles > 0
      modifies this, world
      ensures State() == Spec.Next(config, old(State()), Spec.Finish(result))
    {
      world.cycles := world.cycles - 1;
      OnCycleResult(result);
      syncInProgress := false;
      ContinueCycle();
    }

    method ContinueCycle()
      modifies this, world
      ensures State() == if old(pendingTrigger) then Spec.RunSyncCycle(old(State())) else Spec.ScheduleNext(old(State()))
    {
      if pendingTrigger {
        RunSyncCycle();
        return;
      }
      ScheduleNext();
    }

    method ScheduleNext()
      modifies this, world
      ensures State() == Spec.ScheduleNext(old(State()))
    {
      CancelTimer();
      if disposed {
        return;
      }
      var timer := world.SetTimeout();
      timerHandle := Some(timer);
    }

    method CancelTimer()
      modifies this`timerHandle, world`timers
      ensures State() == Spec.CancelTimer(old(State()))
    {
      if timerHandle.Some? {
        world.ClearTimeout(timerHandle.value);
        timerHandle := None;
      }
    }

    method RunSyncCycle()
      modifies this`syncInProgress, this`pendingTrigger, world`cycles, world`started
      ensures State() == Spec.RunSyncCycle(old(State()))
    {
      if syncInProgress || disposed {
        return;
      }
      syncInProgress := true;
      pendingTrigger := false;
      world.CallEngine();
    }

    method OnCycleResult(result: Spec.Result)
      modifies this`consecutiveFailures, this`currentIntervalMs
      ensures State() == Spec.AfterResult(config, old(State()), result)
    {
      match result {
        case Success => OnCycleSuccess();
        case Failure(retryable) => OnCycleError(retryable);
      }
    }

    method OnCycleSuccess()
      modifies this`consecutiveFailures, this`currentIntervalMs
      ensures State() == Spec.AfterResult(config, old(State()), Spec.Success)
    {
      consecutiveFailures := 0;
      currentIntervalMs := config.base;
    }

    method OnCycleError(retryable: bool)
      modifies this`consecutiveFailures, this`currentIntervalMs
      ensures State() == Spec.AfterResult(config, old(State()), Spec.Failure(retryable))
    {
      if retryable {
        consecutiveFailures := consecutiveFailures + 1;
        currentIntervalMs := Spec.Min(config.base * Spec.Power(config.multiplier, consecutiveFailures), config.max);
      }
    }

    method SetupConnectivityListener()
      modifies this`cleanupConnectivity, world`listeners
      ensures State() == Spec.Listen(config, old(State()))
    {
      if config.hasDetector {
        world.listeners := world.listeners + 1;
        cleanupConnectivity := true;
      }
    }

    method TeardownConnectivityListener()
      modifies this`cleanupConnectivity, world`listeners
      ensures State() == var s := old(State());
                         if s.listening && s.listeners > 0 then s.(listening := false, listeners := s.listeners - 1) else s
    {
      if cleanupConnectivity && world.listeners > 0 {
        world.listeners := world.listeners - 1;
        cleanupConnectivity := false;
      }
    }
  }
}
