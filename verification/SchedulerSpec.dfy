/** The sync scheduler as a function of its events, with the timers and the cycles
    that are really alive kept beside what the scheduler remembers of them. */
module SchedulerSpec {
  import opened Json

  datatype Config = Config(base: int, multiplier: int, max: int, hasDetector: bool)

  /** `timers`, `cycles` and `started` belong to the surroundings: the timers that
      are armed, the calls of the engine that have not returned, and how many there
      have been. `listeners` counts what is registered with the detector. */
  datatype Scheduler = Scheduler(
    handle: Option<nat>, syncInProgress: bool, consecutiveFailures: nat, interval: int, disposed: bool,
    pendingTrigger: bool, listening: bool, timers: set<nat>, nextTimer: nat, cycles: nat, started: nat, listeners: nat)

  datatype Result = Success | Failure(retryable: bool)

  datatype Event = Start | Stop | Trigger | Dispose | Online | Fire(timer: nat) | Finish(result: Result)

  function Initial(c: Config): Scheduler {
    Scheduler(None, false, 0, c.base, false, false, false, {}, 0, 0, 0, 0)
  }

  function Power(b: int, n: nat): int {
    if n == 0 then 1 else b * Power(b, n - 1)
  }

  function Min(a: int, b: int): int {
    if a <= b then a else b
  }

  function CancelTimer(s: Scheduler): Scheduler {
    if s.handle.Some? then s.(timers := s.timers - {s.handle.value}, handle := None) else s
  }

  function ScheduleNext(s: Scheduler): Scheduler {
    var idle := CancelTimer(s);
    if s.disposed then idle
    else idle.(handle := Some(s.nextTimer), timers := idle.timers + {s.nextTimer}, nextTimer := s.nextTimer + 1)
  }

  function RunSyncCycle(s: Scheduler): Scheduler {
    if s.syncInProgress || s.disposed then s
    else s.(syncInProgress := true, pendingTrigger := false, cycles := s.cycles + 1, started := s.started + 1)
  }

  function TriggerSync(s: Scheduler): Scheduler {
    if s.syncInProgress then s.(pendingTrigger := true) else RunSyncCycle(CancelTimer(s))
  }

  /** Registers once more; only the latest registration can be undone. */
  function Listen(c: Config, s: Scheduler): Scheduler {
    if c.hasDetector then s.(listening := true, listeners := s.listeners + 1) else s
  }

  function StopAll(s: Scheduler): Scheduler {
    var idle := CancelTimer(s);
    if s.listening && s.listeners > 0 then idle.(listening := false, listeners := s.listeners - 1) else idle
  }

  function AfterResult(c: Config, s: Scheduler, result: Result): Scheduler {
    match result
    case Success => s.(consecutiveFailures := 0, interval := c.base)
    case Failure(retryable) =>
      if !retryable then s
      else s.(consecutiveFailures := s.consecutiveFailures + 1,
              interval := Min(c.base * Power(c.multiplier, s.consecutiveFailures + 1), c.max))
  }

  function EndCycle(c: Config, s: Scheduler, result: Result): Scheduler
    requires s.cycles > 0
  {
    var done := AfterResult(c, s.(cycles := s.cycles - 1), result).(syncInProgress := false);
    if done.pendingTrigger then RunSyncCycle(done) else ScheduleNext(done)
  }

  function TriggerTimes(s: Scheduler, n: nat): Scheduler {
    if n == 0 then s else TriggerSync(TriggerTimes(s, n - 1))
  }

  function Next(c: Config, s: Scheduler, e: Event): Scheduler {
    match e
    case Start => if s.disposed then s else ScheduleNext(Listen(c, s))
    case Stop => StopAll(s)
    case Trigger => TriggerSync(s)
    case Dispose => StopAll(s).(disposed := true)
    case Online => TriggerTimes(s, s.listeners)
    case Fire(timer) =>
      if timer in s.timers then RunSyncCycle(s.(timers := s.timers - {timer}, handle := None)) else s
    case Finish(result) => if s.cycles > 0 then EndCycle(c, s, result) else s
  }

  function Run(c: Config, s: Scheduler, events: seq<Event>): Scheduler {
    if events == [] then s else Next(c, Run(c, s, events[..|events| - 1]), events[|events| - 1])
  }

  // ----- What every run keeps

  function Delay(c: Config, failures: nat): int {
    if failures == 0 then c.base else Min(c.base * Power(c.multiplier, failures), c.max)
  }

  /** At most one timer is armed, and the scheduler knows it; at most one cycle is in
      flight, and the scheduler knows it; the interval is the backoff of the failures. */
  predicate Sound(c: Config, s: Scheduler) {
    && s.timers == (if s.handle.Some? then {s.handle.value} else {})
    && s.cycles == (if s.syncInProgress then 1 else 0)
    && s.interval == Delay(c, s.consecutiveFailures)
    && (s.disposed ==> s.timers == {})
    && (s.listening ==> s.listeners > 0)
  }

  lemma {:induction false} TriggersSound(c: Config, s: Scheduler, n: nat)
    requires Sound(c, s)
    ensures Sound(c, TriggerTimes(s, n))
    ensures TriggerTimes(s, n).disposed == s.disposed
    ensures s.disposed ==> TriggerTimes(s, n).started == s.started
    ensures s.syncInProgress ==> TriggerTimes(s, n).started == s.started && TriggerTimes(s, n).syncInProgress
    ensures s.syncInProgress && s.pendingTrigger ==> TriggerTimes(s, n).pendingTrigger
    ensures !s.disposed && (s.timers != {} || s.cycles > 0) ==> TriggerTimes(s, n).timers != {} || TriggerTimes(s, n).cycles > 0
  {
    if n > 0 {
      TriggersSound(c, s, n - 1);
    }
  }

  lemma StepSound(c: Config, s: Scheduler, e: Event)
    requires Sound(c, s)
    ensures Sound(c, Next(c, s, e))
  {
    if e.Online? {
      TriggersSound(c, s, s.listeners);
    }
  }

  lemma {:induction false} RunSound(c: Config, s: Scheduler, events: seq<Event>)
    requires Sound(c, s)
    ensures Sound(c, Run(c, s, events))
  {
    if events != [] {
      RunSound(c, s, events[..|events| - 1]);
      StepSound(c, Run(c, s, events[..|events| - 1]), events[|events| - 1]);
    }
  }

  /** Over every order of events, from the start: at most one timer and one cycle,
      and the interval is the base or the capped power. */
  lemma {:induction false} SingleFlight(c: Config, events: seq<Event>)
    ensures Sound(c, Run(c, Initial(c), events))
    ensures var s := Run(c, Initial(c), events);
            |s.timers| <= 1 && s.cycles <= 1 &&
            s.interval == if s.consecutiveFailures == 0 then c.base
                          else Min(c.base * Power(c.multiplier, s.consecutiveFailures), c.max)
  {
    RunSound(c, Initial(c), events);
  }

  // ----- Live while started, dead when disposed

  predicate Live(s: Scheduler) {
    s.timers != {} || s.cycles > 0
  }

  predicate Ends(events: seq<Event>) {
    exists i :: 0 <= i < |events| && (events[i].Stop? || events[i].Dispose?)
  }

  /** From a start until a stop or a disposal there is always a timer or a cycle. */
  lemma {:induction false} LiveUntilStopped(c: Config, s: Scheduler, events: seq<Event>)
    requires Sound(c, s) && !s.disposed && !Ends(events)
    ensures var t := Run(c, Next(c, s, Start), events);
            Sound(c, t) && Live(t) && !t.disposed
  {
    var begun := Next(c, s, Start);
    StepSound(c, s, Start);
    RunSound(c, begun, events);
    if events != [] {
      var before, last := events[..|events| - 1], events[|events| - 1];
      assert forall i | 0 <= i < |before| :: before[i] == events[i];
      LiveUntilStopped(c, s, before);
      LiveStep(c, Run(c, begun, before), last);
    }
  }

  lemma LiveStep(c: Config, s: Scheduler, e: Event)
    requires Sound(c, s) && Live(s) && !s.disposed && !e.Stop? && !e.Dispose?
    ensures Live(Next(c, s, e)) && !Next(c, s, e).disposed
  {
    if e.Online? {
      TriggersSound(c, s, s.listeners);
    }
  }

  /** After a disposal no cycle and no timer is ever started. */
  lemma {:induction false} NothingAfterDispose(c: Config, s: Scheduler, events: seq<Event>)
    requires Sound(c, s)
    ensures var dead, t := Next(c, s, Dispose), Run(c, Next(c, s, Dispose), events);
            t.disposed && t.timers == {} && t.started == dead.started
  {
    var dead := Next(c, s, Dispose);
    StepSound(c, s, Dispose);
    if events != [] {
      var before := events[..|events| - 1];
      NothingAfterDispose(c, s, before);
      RunSound(c, dead, before);
      var t := Run(c, dead, before);
      StepSound(c, t, events[|events| - 1]);
      if events[|events| - 1].Online? {
        TriggersSound(c, t, t.listeners);
      }
    }
  }

  // ----- Coalescing

  predicate Finishes(events: seq<Event>) {
    exists i :: 0 <= i < |events| && (events[i].Finish? || events[i].Dispose?)
  }

  lemma {:induction false} TriggerWaits(c: Config, s: Scheduler, events: seq<Event>)
    requires Sound(c, s) && s.syncInProgress && !s.disposed && s.pendingTrigger && !Finishes(events)
    ensures var t := Run(c, s, events);
            t.syncInProgress && !t.disposed && t.pendingTrigger && t.started == s.started && Sound(c, t)
  {
    RunSound(c, s, events);
    if events != [] {
      var before, last := events[..|events| - 1], events[|events| - 1];
      assert forall i | 0 <= i < |before| :: before[i] == events[i];
      TriggerWaits(c, s, before);
      if last.Online? {
        TriggersSound(c, Run(c, s, before), Run(c, s, before).listeners);
      }
    }
  }

  /** However often it is triggered while a cycle runs, exactly one more starts, and
      it starts when the cycle finishes. */
  lemma TriggersCoalesce(c: Config, s: Scheduler, events: seq<Event>, result: Result)
    requires Sound(c, s) && s.syncInProgress && !s.disposed && !Finishes(events)
    ensures var t := Run(c, Next(c, s, Trigger), events);
            t.started == s.started && t.cycles == 1
    ensures var t := Next(c, Run(c, Next(c, s, Trigger), events), Finish(result));
            t.syncInProgress && t.started == s.started + 1 && !t.pendingTrigger
  {
    StepSound(c, s, Trigger);
    TriggerWaits(c, Next(c, s, Trigger), events);
  }

  // ----- What stop does not stop

  /** What may happen without the application: timers fire, cycles finish, the
      device comes online. */
  predicate OwnMoves(events: seq<Event>) {
    forall i | 0 <= i < |events| :: events[i].Fire? || events[i].Finish? || events[i].Online?
  }

  /** The listeners that no stop will ever remove. */
  function Leaked(s: Scheduler): int {
    s.listeners - if s.listening then 1 else 0
  }

  /** After a stop no cycle starts of itself exactly if none was in flight and no
      listener has leaked: a cycle that is still running arms the next timer when it
      finishes, and a leaked listener starts one when the device comes online. */
  lemma StopIsQuietIff(c: Config, s: Scheduler)
    requires Sound(c, s) && !s.disposed
    ensures (forall events | OwnMoves(events) :: Run(c, Next(c, s, Stop), events).started == s.started)
            <==> !s.syncInProgress && Leaked(s) <= 0
  {
    var stopped := Next(c, s, Stop);
    StepSound(c, s, Stop);
    if s.syncInProgress {
      FinishAndFire(c, s);
    } else if Leaked(s) > 0 {
      LeakedListenerStarts(c, s);
    } else {
      forall events | OwnMoves(events) ensures Run(c, stopped, events).started == s.started {
        StaysQuiet(c, stopped, events);
      }
    }
  }

  lemma {:induction false} FirstTriggerStarts(s: Scheduler, n: nat)
    requires n > 0 && !s.syncInProgress && !s.disposed
    ensures TriggerTimes(s, n).started == s.started + 1 && TriggerTimes(s, n).syncInProgress
  {
    if n == 1 {
      assert TriggerTimes(s, 1) == TriggerSync(TriggerTimes(s, 0));
    } else {
      FirstTriggerStarts(s, n - 1);
    }
  }

  lemma LeakedListenerStarts(c: Config, s: Scheduler)
    requires Sound(c, s) && !s.disposed && !s.syncInProgress && Leaked(s) > 0
    ensures exists events :: OwnMoves(events) && Run(c, Next(c, s, Stop), events).started > s.started
  {
    var stopped := Next(c, s, Stop);
    var one := [Online];
    assert one[..0] == [] && OwnMoves(one);
    assert Run(c, stopped, one) == Next(c, stopped, Online);
    FirstTriggerStarts(stopped, stopped.listeners);
  }

  lemma FinishAndFire(c: Config, s: Scheduler)
    requires Sound(c, s) && !s.disposed && s.syncInProgress
    ensures exists events :: OwnMoves(events) && Run(c, Next(c, s, Stop), events).started > s.started
  {
    var stopped := Next(c, s, Stop);
    StepSound(c, s, Stop);
    var one, two := [Finish(Success)], [Finish(Success), Fire(s.nextTimer)];
    assert one[..0] == [] && two[..1] == one;
    assert OwnMoves(one) && OwnMoves(two);
    assert Run(c, stopped, one) == Next(c, stopped, Finish(Success));
    if !s.pendingTrigger {
      StoppedCycleRearms(c, s, Success);
      assert Run(c, stopped, two) == Next(c, Run(c, stopped, one), Fire(s.nextTimer));
    }
  }

  lemma {:induction false} StaysQuiet(c: Config, s: Scheduler, events: seq<Event>)
    requires OwnMoves(events) && !Live(s) && s.listeners == 0
    ensures Run(c, s, events) == s
  {
    if events != [] {
      var before := events[..|events| - 1];
      assert forall i | 0 <= i < |before| :: before[i] == events[i];
      StaysQuiet(c, s, before);
      assert events[|events| - 1].Fire? || events[|events| - 1].Finish? || events[|events| - 1].Online?;
    }
  }

  /** And the rearmed timer starts the next cycle, and so on without end. */
  lemma StoppedCycleRearms(c: Config, s: Scheduler, result: Result)
    requires Sound(c, s) && !s.disposed && s.syncInProgress && !s.pendingTrigger
    ensures var t := Next(c, Next(c, s, Stop), Finish(result));
            && t.handle == Some(s.nextTimer) && t.timers == {s.nextTimer}
            && Next(c, t, Fire(s.nextTimer)).syncInProgress && Next(c, t, Fire(s.nextTimer)).started == s.started + 1
  {
    StepSound(c, s, Stop);
    StepSound(c, Next(c, s, Stop), Finish(result));
  }

  /** Starts that find the scheduler listening already. */
  function RepeatedStarts(c: Config, events: seq<Event>): nat {
    if events == [] then 0
    else
      var before, s := events[..|events| - 1], Run(c, Initial(c), events[..|events| - 1]);
      RepeatedStarts(c, before) + if events[|events| - 1].Start? && c.hasDetector && !s.disposed && s.listening then 1 else 0
  }

  lemma {:induction false} TriggersKeepListeners(s: Scheduler, n: nat)
    ensures TriggerTimes(s, n).listeners == s.listeners && TriggerTimes(s, n).listening == s.listening
  {
    if n > 0 {
      TriggersKeepListeners(s, n - 1);
    }
  }

  /** In every run each start that finds the scheduler listening leaks one listener,
      and nothing else does. */
  lemma {:induction false} RepeatedStartsLeak(c: Config, events: seq<Event>)
    ensures Leaked(Run(c, Initial(c), events)) == RepeatedStarts(c, events)
  {
    if events != [] {
      var before := events[..|events| - 1];
      var s := Run(c, Initial(c), before);
      RepeatedStartsLeak(c, before);
      RunSound(c, Initial(c), before);
      if events[|events| - 1].Online? {
        TriggersKeepListeners(s, s.listeners);
      }
    }
  }

  /** So after any run a stop is final, until the application itself does something,
      exactly if no cycle is in flight and the application never started it twice
      without a stop in between. */
  lemma StopIsFinalIff(c: Config, events: seq<Event>)
    requires !Run(c, Initial(c), events).disposed
    ensures var s := Run(c, Initial(c), events);
            (forall later | OwnMoves(later) :: Run(c, Next(c, s, Stop), later).started == s.started)
            <==> !s.syncInProgress && RepeatedStarts(c, events) == 0
  {
    RunSound(c, Initial(c), events);
    StopIsQuietIff(c, Run(c, Initial(c), events));
    RepeatedStartsLeak(c, events);
  }

  /** Start, start, stop: connectivity then still starts a cycle. */
  lemma SecondStartLeaks(c: Config)
    requires c.hasDetector
    ensures RepeatedStarts(c, [Start, Start]) == 1
    ensures exists later :: OwnMoves(later) && Run(c, Next(c, Run(c, Initial(c), [Start, Start]), Stop), later).started > 0
  {
    assert [Start, Start][..1] == [Start] && [Start][..0] == [];
    assert Run(c, Initial(c), [Start]) == Next(c, Initial(c), Start);
    var s := Run(c, Initial(c), [Start, Start]);
    assert s == Next(c, Next(c, Initial(c), Start), Start);
    assert RepeatedStarts(c, [Start]) == 0;
    StopIsFinalIff(c, [Start, Start]);
    assert s.started == 0;
  }

  // ----- Backoff

  lemma {:induction false} PowerGrows(b: int, n: nat)
    requires b >= 1
    ensures 1 <= Power(b, n) <= Power(b, n + 1)
  {
    if n > 0 {
      PowerGrows(b, n - 1);
      MultiplyKeepsOrder(b, 1, Power(b, n));
    } else {
      assert Power(b, 1) == b * Power(b, 0);
    }
    MultiplyKeepsOrder(Power(b, n), 1, b);
  }

  lemma MultiplyKeepsOrder(a: int, x: int, y: int)
    requires a >= 0 && x <= y
    ensures a * x <= a * y
  {
  }

  /** One more failure never shortens the interval, except that the first one does
      if the base exceeds the maximum. */
  lemma BackoffGrows(c: Config, failures: nat)
    requires c.base > 0 && c.multiplier >= 1
    ensures Delay(c, failures) <= Delay(c, failures + 1) <==> failures > 0 || c.base <= c.max
  {
    PowerGrows(c.multiplier, failures);
    MultiplyKeepsOrder(c.base, Power(c.multiplier, failures), Power(c.multiplier, failures + 1));
    if failures == 0 {
      assert Power(c.multiplier, 1) == c.multiplier * Power(c.multiplier, 0);
      assert c.base * Power(c.multiplier, 0) == c.base;
    }
  }

  /** Each failure multiplies the interval, up to the maximum. */
  lemma DelayMultiplies(c: Config, failures: nat)
    requires c.base > 0 && c.multiplier >= 1 && c.max >= 0
    ensures Delay(c, 0) == c.base
    ensures failures > 0 || c.base <= c.max ==>
              var longer := c.multiplier * Delay(c, failures);
              Delay(c, failures + 1) == if longer <= c.max then longer else c.max
    ensures failures > 0 ==> Delay(c, failures) <= c.max
  {
    PowerGrows(c.multiplier, failures);
    var plain := c.base * Power(c.multiplier, failures);
    assert c.base * Power(c.multiplier, failures + 1) == c.multiplier * plain by {
      Regroup(c.base, c.multiplier, Power(c.multiplier, failures));
    }
    MultiplyKeepsOrder(c.base, 0, Power(c.multiplier, failures));
    MultiplyKeepsOrder(plain, 1, c.multiplier);
    MultiplyKeepsOrder(c.max, 1, c.multiplier);
    assert failures == 0 ==> plain == c.base;
  }

  lemma Regroup(a: int, b: int, x: int)
    ensures a * (b * x) == b * (a * x)
  {
  }

  /** How many retryable failures have been reported since the last success; any other
      failure counts neither way. */
  function FailuresInARow(c: Config, events: seq<Event>): nat {
    if events == [] then 0
    else
      var before, last := events[..|events| - 1], events[|events| - 1];
      Counted(FailuresInARow(c, before), last, Run(c, Initial(c), before).cycles > 0)
  }

  function Counted(failures: nat, e: Event, inFlight: bool): nat {
    if !e.Finish? || !inFlight then failures
    else if e.result.Success? then 0
    else if e.result.retryable then failures + 1 else failures
  }

  lemma StepCounts(c: Config, s: Scheduler, e: Event)
    ensures Next(c, s, e).consecutiveFailures == Counted(s.consecutiveFailures, e, s.cycles > 0)
  {
    if e.Online? {
      TriggersKeepBackoff(s, s.listeners);
    }
  }

  lemma {:induction false} TriggersKeepBackoff(s: Scheduler, n: nat)
    ensures TriggerTimes(s, n).consecutiveFailures == s.consecutiveFailures && TriggerTimes(s, n).interval == s.interval
  {
    if n > 0 {
      TriggersKeepBackoff(s, n - 1);
    }
  }

  /** After every run the interval is the one for the failures in a row. */
  lemma {:induction false} IntervalFollowsFailures(c: Config, events: seq<Event>)
    ensures Run(c, Initial(c), events).consecutiveFailures == FailuresInARow(c, events)
    ensures Run(c, Initial(c), events).interval == Delay(c, FailuresInARow(c, events))
  {
    RunSound(c, Initial(c), events);
    FailuresCounted(c, events);
  }

  lemma {:induction false} FailuresCounted(c: Config, events: seq<Event>)
    ensures Run(c, Initial(c), events).consecutiveFailures == FailuresInARow(c, events)
  {
    if events != [] {
      var before := events[..|events| - 1];
      FailuresCounted(c, before);
      StepCounts(c, Run(c, Initial(c), before), events[|events| - 1]);
    }
  }

  /** What a scheduler that is not disposed has armed and in flight after an event, as
      far as the event decides it. */
  lemma EventDecides(c: Config, s: Scheduler, e: Event)
    requires Sound(c, s) && !s.disposed
    ensures var t := Next(c, s, e);
            && (e.Start? ==> t.timers == {s.nextTimer} && t.cycles == s.cycles)
            && (e.Stop? || e.Dispose? ==> t.timers == {} && t.cycles == s.cycles)
            && (e.Trigger? && s.cycles == 0 ==> t.timers == {} && t.cycles == 1 && t.started == s.started + 1)
            && (e.Trigger? && s.cycles > 0 ==> t == s.(pendingTrigger := true))
            && (e.Fire? && e.timer in s.timers ==> t.timers == {} && t.cycles == 1
                                                   && t.started == s.started + if s.cycles == 0 then 1 else 0)
            && (e.Finish? && s.cycles > 0 && !s.pendingTrigger ==> t.timers == {s.nextTimer} && t.cycles == 0)
            && (e.Finish? && s.cycles > 0 && s.pendingTrigger ==>
                  t.timers == s.timers && t.cycles == 1 && t.started == s.started + 1 && !t.pendingTrigger)
  {
  }
}
