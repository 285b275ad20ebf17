/**
 The main loop of scripts/provisioning-worker-entry.ts, run against any outcomes of its tasks and any
 clock readings. A run is judged by its log, one list of events for every cycle, held against what the
 world answered: which task went through and what the clock said.
 */
module ProvisioningWorker {
  import opened Common

  const SUBSCRIPTION_LIFECYCLE_INTERVAL_MS := 60000

  datatype Config = Config(maxIdleRounds: int, pollMs: int, billingIntervalMs: int)

  /**
   What the world answers in one round: which tasks go through, what the clock says where it is read,
   and whether a stop signal has arrived by the end. A task that does not go through throws.
   */
  datatype Round = Round(
    provisioned: Option<bool>,
    alertsProcessed: Option<nat>,
    lifecycleCheckAt: int,
    lifecycleOk: bool,
    lifecycleDoneAt: int,
    billingCheckAt: int,
    billingNow: int,
    hourlyOk: bool,
    dailyOk: bool,
    dunningOk: bool,
    billingDoneAt: int,
    purgeOk: bool,
    heartbeatOk: bool,
    staleHeartbeatOk: bool,
    stopRequested: bool)

  /** The clock does not go back while a round runs. */
  predicate ClockMoves(r: Round) {
    r.lifecycleCheckAt <= r.lifecycleDoneAt && r.billingCheckAt <= r.billingNow <= r.billingDoneAt
  }

  datatype Event =
    | Provisioned(busy: bool)
    | AlertsProcessed(count: nat)
    | LifecycleDone(at: int)
    | LifecycleSkipped(at: int)
    | HourlyStarted(now: int)
    | HourlySettled(now: int)
    | DailyStarted(now: int)
    | DailySettled(now: int)
    | DunningQueued(now: int)
    | BillingDone(at: int)
    | BillingSkipped(at: int)
    | NoncesPurged
    | HeartbeatOk
    | HeartbeatStale
    | IdleSlept(ms: int)
    | BackedOff(ms: int)
    | Paused(ms: int)

  type Cycle = seq<Event>

  /** The variables of the loop. */
  datatype Loop = Loop(idleRounds: int, nextSubscriptionLifecycleAt: int, nextBillingAt: int)

  const START := Loop(0, 0, 0)

  // ---- One round ----

  predicate LifecycleDue(r: Round, w: Loop) {
    r.lifecycleCheckAt >= w.nextSubscriptionLifecycleAt
  }

  predicate BillingDue(r: Round, w: Loop) {
    r.billingCheckAt >= w.nextBillingAt
  }

  /** Provisioning, alerts and the lifecycle pass go through. */
  predicate FirstTasksOk(r: Round, w: Loop) {
    r.provisioned.Some? && r.alertsProcessed.Some? && (LifecycleDue(r, w) ==> r.lifecycleOk)
  }

  predicate BillingOk(r: Round, w: Loop) {
    BillingDue(r, w) ==> r.hourlyOk && r.dailyOk && r.dunningOk
  }

  predicate GoesThrough(r: Round, w: Loop) {
    FirstTasksOk(r, w) && BillingOk(r, w) && r.purgeOk && r.heartbeatOk
  }

  /** The stale heartbeat is outside the `try`: when it throws too, the worker ends. */
  predicate Crashes(r: Round, w: Loop) {
    !GoesThrough(r, w) && !r.staleHeartbeatOk
  }

  function FirstEvents(r: Round, w: Loop): Cycle {
    if r.provisioned.None? then []
    else if r.alertsProcessed.None? then [Provisioned(r.provisioned.value)]
    else
      [Provisioned(r.provisioned.value), AlertsProcessed(r.alertsProcessed.value)]
      + if !LifecycleDue(r, w) then [LifecycleSkipped(r.lifecycleCheckAt)]
        else if r.lifecycleOk then [LifecycleDone(r.lifecycleDoneAt)]
        else []
  }

  function BillingEvents(r: Round, w: Loop): Cycle {
    var now := r.billingNow;
    if !BillingDue(r, w) then [BillingSkipped(r.billingCheckAt)]
    else if !r.hourlyOk then [HourlyStarted(now)]
    else if !r.dailyOk then [HourlyStarted(now), HourlySettled(now), DailyStarted(now)]
    else
      [HourlyStarted(now), HourlySettled(now), DailyStarted(now), DailySettled(now)]
      + if r.dunningOk then [DunningQueued(now), BillingDone(r.billingDoneAt)] else []
  }

  predicate IsBusy(r: Round) {
    r.provisioned == Some(true) || (r.alertsProcessed.Some? && r.alertsProcessed.value > 0)
  }

  predicate TooIdle(c: Config, r: Round, w: Loop) {
    !IsBusy(r) && w.idleRounds + 1 >= c.maxIdleRounds
  }

  /** The purge, the heartbeats and the sleeps. */
  function ClosingEvents(c: Config, r: Round, w: Loop): Cycle {
    (if FirstTasksOk(r, w) && BillingOk(r, w) && r.purgeOk then [NoncesPurged] else [])
    + if GoesThrough(r, w) then [HeartbeatOk] + (if TooIdle(c, r, w) then [IdleSlept(c.pollMs)] else []) + [Paused(200)]
      else if Crashes(r, w) then []
      else [HeartbeatStale, BackedOff(c.pollMs), Paused(200)]
  }

  /** What the round puts in the log. */
  function Events(c: Config, r: Round, w: Loop): Cycle {
    FirstEvents(r, w) + (if FirstTasksOk(r, w) then BillingEvents(r, w) else []) + ClosingEvents(c, r, w)
  }

  /** The loop's variables after the round. */
  function After(c: Config, r: Round, w: Loop): Loop {
    Loop(
      if !GoesThrough(r, w) then w.idleRounds
      else if IsBusy(r) || TooIdle(c, r, w) then 0
      else w.idleRounds + 1,
      if r.provisioned.Some? && r.alertsProcessed.Some? && LifecycleDue(r, w) && r.lifecycleOk
      then r.lifecycleDoneAt + SUBSCRIPTION_LIFECYCLE_INTERVAL_MS
      else w.nextSubscriptionLifecycleAt,
      if FirstTasksOk(r, w) && BillingDue(r, w) && BillingOk(r, w)
      then r.billingDoneAt + c.billingIntervalMs
      else w.nextBillingAt)
  }

  /** Provisioning, alerts and the lifecycle pass. */
  method FirstTasks(r: Round, w: Loop) returns (events: Cycle, nextSubscriptionLifecycleAt: int, ok: bool)
    ensures events == FirstEvents(r, w) && ok == FirstTasksOk(r, w)
    ensures nextSubscriptionLifecycleAt
         == if ok && LifecycleDue(r, w) then r.lifecycleDoneAt + SUBSCRIPTION_LIFECYCLE_INTERVAL_MS
            else w.nextSubscriptionLifecycleAt
  {
    events, nextSubscriptionLifecycleAt, ok := [], w.nextSubscriptionLifecycleAt, false;
    if r.provisioned.None? { return; }
    events := events + [Provisioned(r.provisioned.value)];
    if r.alertsProcessed.None? { return; }
    events := events + [AlertsProcessed(r.alertsProcessed.value)];
    if r.lifecycleCheckAt >= nextSubscriptionLifecycleAt {
      if !r.lifecycleOk { return; }
      events := events + [LifecycleDone(r.lifecycleDoneAt)];
      nextSubscriptionLifecycleAt := r.lifecycleDoneAt + SUBSCRIPTION_LIFECYCLE_INTERVAL_MS;
    } else {
      events := events + [LifecycleSkipped(r.lifecycleCheckAt)];
    }
    ok := true;
  }

  /** The billing pass, or nothing when it is not due. */
  method BillingTask(c: Config, r: Round, w: Loop) returns (events: Cycle, nextBillingAt: int, ok: bool)
    ensures events == BillingEvents(r, w) && ok == BillingOk(r, w)
    ensures nextBillingAt == if ok && BillingDue(r, w) then r.billingDoneAt + c.billingIntervalMs else w.nextBillingAt
  {
    events, nextBillingAt, ok := [], w.nextBillingAt, false;
    if r.billingCheckAt >= nextBillingAt {
      var now := r.billingNow;
      events := events + [HourlyStarted(now)];
      if !r.hourlyOk { return; }
      events := events + [HourlySettled(now), DailyStarted(now)];
      if !r.dailyOk { return; }
      events := events + [DailySettled(now)];
      if !r.dunningOk { return; }
      events := events + [DunningQueued(now), BillingDone(r.billingDoneAt)];
      nextBillingAt := r.billingDoneAt + c.billingIntervalMs;
    } else {
      events := events + [BillingSkipped(r.billingCheckAt)];
    }
    ok := true;
  }

  /** One round of the loop: the tasks in order, and the failure path when one of them throws. */
  method RunCycle(c: Config, r: Round, w: Loop) returns (events: Cycle, w': Loop, crashed: bool)
    ensures events == Events(c, r, w) && crashed == Crashes(r, w)
    ensures w' == After(c, r, w)
  {
    var idleRounds, nextBillingAt := w.idleRounds, w.nextBillingAt;
    var nextSubscriptionLifecycleAt, ok, billing;
    events, nextSubscriptionLifecycleAt, ok := FirstTasks(r, w);
    if ok {
      billing, nextBillingAt, ok := BillingTask(c, r, w);
      events := events + billing;
    }
    if ok && r.purgeOk {
      events := events + [NoncesPurged];
    }
    crashed := false;
    if ok && r.purgeOk && r.heartbeatOk {
      events := events + [HeartbeatOk];
      if r.provisioned.value || r.alertsProcessed.value > 0 {
        idleRounds := 0;
      } else {
        idleRounds := idleRounds + 1;
        if idleRounds >= c.maxIdleRounds {
          events := events + [IdleSlept(c.pollMs)];
          idleRounds := 0;
        }
      }
    } else if r.staleHeartbeatOk {
      events := events + [HeartbeatStale, BackedOff(c.pollMs)];
    } else {
      crashed := true;
    }
    if !crashed {
      events := events + [Paused(200)];
    }
    w' := Loop(idleRounds, nextSubscriptionLifecycleAt, nextBillingAt);
  }

  // ---- A run ----

  /** The loop's variables when round i starts. */
  function LoopAt(c: Config, rounds: seq<Round>, i: nat): Loop
    requires i <= |rounds|
  {
    if i == 0 then START else After(c, rounds[i - 1], LoopAt(c, rounds, i - 1))
  }

  /** The log of a run holds, cycle by cycle, what each round puts in it. */
  ghost predicate IsRun(c: Config, rounds: seq<Round>, log: seq<Cycle>) {
    && |log| <= |rounds|
    && forall i :: 0 <= i < |log| ==> log[i] == Events(c, rounds[i], LoopAt(c, rounds, i))
  }

  /** The round after which the loop ends: stopped, or crashed. */
  predicate Ends(c: Config, rounds: seq<Round>, i: nat)
    requires i < |rounds|
  {
    rounds[i].stopRequested || Crashes(rounds[i], LoopAt(c, rounds, i))
  }

  /** The loop over any finite part of a run: it goes on up to the first round that ends it and no further. */
  method RunWorker(c: Config, rounds: seq<Round>) returns (log: seq<Cycle>, crashed: bool)
    ensures IsRun(c, rounds, log)
    ensures forall i :: 0 <= i < |log| - 1 ==> !Ends(c, rounds, i)
    ensures |log| < |rounds| ==> log != [] && Ends(c, rounds, |log| - 1)
    ensures crashed <==> log != [] && Crashes(rounds[|log| - 1], LoopAt(c, rounds, |log| - 1))
  {
    hide Events, After, Crashes;
    log, crashed := [], false;
    var w := START;
    var stopping := false;
    var i := 0;
    while !stopping && !crashed && i < |rounds|
      invariant i <= |rounds| && |log| == i && IsRun(c, rounds, log)
      invariant w == LoopAt(c, rounds, i)
      invariant forall j :: 0 <= j < i - 1 ==> !Ends(c, rounds, j)
      invariant stopping <==> i > 0 && rounds[i - 1].stopRequested
      invariant crashed <==> i > 0 && Crashes(rounds[i - 1], LoopAt(c, rounds, i - 1))
    {
      var events;
      events, w, crashed := RunCycle(c, rounds[i], w);
      log := log + [events];
      stopping := rounds[i].stopRequested;
      i := i + 1;
    }
  }

  // ---- What the log says about the outcomes ----

  /** Which outcomes of a round put an event in the log, and with which time. */
  predicate Happens(c: Config, r: Round, w: Loop, e: Event) {
    var billed := FirstTasksOk(r, w) && BillingDue(r, w);
    match e
    case Provisioned(busy) => r.provisioned == Some(busy)
    case AlertsProcessed(count) => r.provisioned.Some? && r.alertsProcessed.Some? && r.alertsProcessed.value == count
    case LifecycleDone(at) => FirstTasksOk(r, w) && LifecycleDue(r, w) && at == r.lifecycleDoneAt
    case LifecycleSkipped(at) => FirstTasksOk(r, w) && !LifecycleDue(r, w) && at == r.lifecycleCheckAt
    case HourlyStarted(now) => billed && now == r.billingNow
    case HourlySettled(now) => billed && r.hourlyOk && now == r.billingNow
    case DailyStarted(now) => billed && r.hourlyOk && now == r.billingNow
    case DailySettled(now) => billed && r.hourlyOk && r.dailyOk && now == r.billingNow
    case DunningQueued(now) => billed && r.hourlyOk && r.dailyOk && r.dunningOk && now == r.billingNow
    case BillingDone(at) => billed && r.hourlyOk && r.dailyOk && r.dunningOk && at == r.billingDoneAt
    case BillingSkipped(at) => FirstTasksOk(r, w) && !BillingDue(r, w) && at == r.billingCheckAt
    case NoncesPurged => FirstTasksOk(r, w) && BillingOk(r, w) && r.purgeOk
    case HeartbeatOk => GoesThrough(r, w)
    case HeartbeatStale => !GoesThrough(r, w) && r.staleHeartbeatOk
    case IdleSlept(ms) => GoesThrough(r, w) && TooIdle(c, r, w) && ms == c.pollMs
    case BackedOff(ms) => !GoesThrough(r, w) && r.staleHeartbeatOk && ms == c.pollMs
    case Paused(ms) => !Crashes(r, w) && ms == 200
  }

  predicate IsFirst(e: Event) {
    e.Provisioned? || e.AlertsProcessed? || e.LifecycleDone? || e.LifecycleSkipped?
  }

  predicate IsClosing(e: Event) {
    e.NoncesPurged? || e.HeartbeatOk? || e.HeartbeatStale? || e.IdleSlept? || e.BackedOff? || e.Paused?
  }

  lemma FirstHappen(c: Config, r: Round, w: Loop, e: Event)
    ensures e in FirstEvents(r, w) <==> IsFirst(e) && Happens(c, r, w, e)
  {
  }

  lemma BillingHappens(c: Config, r: Round, w: Loop, e: Event)
    requires FirstTasksOk(r, w)
    ensures e in BillingEvents(r, w) <==> !IsFirst(e) && !IsClosing(e) && Happens(c, r, w, e)
  {
  }

  lemma ClosingHappens(c: Config, r: Round, w: Loop, e: Event)
    ensures e in ClosingEvents(c, r, w) <==> IsClosing(e) && Happens(c, r, w, e)
  {
  }

  /** The log of a round records exactly what happened in it: no success without the outcome, none left out. */
  lemma LogTells(c: Config, r: Round, w: Loop, e: Event)
    ensures e in Events(c, r, w) <==> Happens(c, r, w, e)
  {
    hide FirstEvents, BillingEvents, ClosingEvents;
    FirstHappen(c, r, w, e);
    ClosingHappens(c, r, w, e);
    if FirstTasksOk(r, w) {
      BillingHappens(c, r, w, e);
    }
  }

  // ---- Due times, computed from the log alone ----

  function BillingTime(e: Event): Option<int> {
    if e.BillingDone? then Some(e.at) else None
  }

  function LifecycleTime(e: Event): Option<int> {
    if e.LifecycleDone? then Some(e.at) else None
  }

  /** The time of the first event of a cycle that has one. */
  function TimeIn(cycle: Cycle, time: Event -> Option<int>): (t: Option<int>)
    ensures t.Some? ==> exists e :: e in cycle && time(e) == t
    ensures t.None? ==> forall e :: e in cycle ==> time(e) == None
  {
    if cycle == [] then None
    else if time(cycle[0]).Some? then time(cycle[0])
    else
      assert cycle == [cycle[0]] + cycle[1..];
      TimeIn(cycle[1..], time)
  }

  /** An interval after the last completion in the log, or at once. */
  function DueAfter(log: seq<Cycle>, time: Event -> Option<int>, interval: int): int {
    if log == [] then 0
    else
      match TimeIn(log[|log| - 1], time)
      case Some(at) => at + interval
      case None => DueAfter(log[..|log| - 1], time, interval)
  }

  function BillingDueAt(c: Config, log: seq<Cycle>): int {
    DueAfter(log, BillingTime, c.billingIntervalMs)
  }

  function LifecycleDueAt(log: seq<Cycle>): int {
    DueAfter(log, LifecycleTime, SUBSCRIPTION_LIFECYCLE_INTERVAL_MS)
  }

  lemma TimesOfRound(c: Config, r: Round, w: Loop)
    ensures TimeIn(Events(c, r, w), BillingTime)
         == if Happens(c, r, w, BillingDone(r.billingDoneAt)) then Some(r.billingDoneAt) else None
    ensures TimeIn(Events(c, r, w), LifecycleTime)
         == if Happens(c, r, w, LifecycleDone(r.lifecycleDoneAt)) then Some(r.lifecycleDoneAt) else None
  {
    hide Events, Happens;
    forall e
      ensures e in Events(c, r, w) <==> Happens(c, r, w, e)
    {
      LogTells(c, r, w, e);
    }
    OnlyOneTime(c, r, w);
    assert BillingTime(BillingDone(r.billingDoneAt)).Some? && LifecycleTime(LifecycleDone(r.lifecycleDoneAt)).Some?;
  }

  lemma OnlyOneTime(c: Config, r: Round, w: Loop)
    ensures forall e :: Happens(c, r, w, e) && e.BillingDone? ==> e == BillingDone(r.billingDoneAt)
    ensures forall e :: Happens(c, r, w, e) && e.LifecycleDone? ==> e == LifecycleDone(r.lifecycleDoneAt)
  {
  }

  lemma DueGrows(log: seq<Cycle>, cycle: Cycle, time: Event -> Option<int>, interval: int)
    ensures DueAfter(log + [cycle], time, interval)
         == match TimeIn(cycle, time) case Some(at) => at + interval case None => DueAfter(log, time, interval)
  {
    assert (log + [cycle])[..|log|] == log;
  }

  lemma AfterIsDue(c: Config, r: Round, w: Loop)
    ensures After(c, r, w).nextBillingAt
         == match TimeIn(Events(c, r, w), BillingTime) case Some(at) => at + c.billingIntervalMs case None => w.nextBillingAt
    ensures After(c, r, w).nextSubscriptionLifecycleAt
         == match TimeIn(Events(c, r, w), LifecycleTime)
            case Some(at) => at + SUBSCRIPTION_LIFECYCLE_INTERVAL_MS
            case None => w.nextSubscriptionLifecycleAt
  {
    TimesOfRound(c, r, w);
    hide Events, TimeIn;
  }

  /** The loop's due times are those of its log: a pass that failed has moved nothing. */
  lemma {:induction false} DueTimesFollowLog(c: Config, rounds: seq<Round>, log: seq<Cycle>, i: nat)
    requires IsRun(c, rounds, log) && i <= |log|
    ensures LoopAt(c, rounds, i).nextBillingAt == BillingDueAt(c, log[..i])
    ensures LoopAt(c, rounds, i).nextSubscriptionLifecycleAt == LifecycleDueAt(log[..i])
  {
    hide Events, After, TimeIn;
    if i > 0 {
      var k := i - 1;
      DueTimesFollowLog(c, rounds, log, k);
      AfterIsDue(c, rounds[k], LoopAt(c, rounds, k));
      assert LoopAt(c, rounds, i) == After(c, rounds[k], LoopAt(c, rounds, k));
      hide LoopAt, DueAfter;
      assert log[..i] == log[..k] + [log[k]];
      DueGrows(log[..k], log[k], BillingTime, c.billingIntervalMs);
      DueGrows(log[..k], log[k], LifecycleTime, SUBSCRIPTION_LIFECYCLE_INTERVAL_MS);
    }
  }

  /** The cycle got as far as billing. */
  ghost predicate Reached(r: Round, log: seq<Cycle>) {
    r.provisioned.Some? && r.alertsProcessed.Some? && (r.lifecycleCheckAt >= LifecycleDueAt(log) ==> r.lifecycleOk)
  }

  ghost predicate PassStarts(c: Config, r: Round, log: seq<Cycle>) {
    Reached(r, log) && r.billingCheckAt >= BillingDueAt(c, log)
  }

  lemma RoundAt(c: Config, rounds: seq<Round>, log: seq<Cycle>, i: nat, e: Event)
    requires IsRun(c, rounds, log) && i < |log|
    ensures e in log[i] <==> Happens(c, rounds[i], LoopAt(c, rounds, i), e)
    ensures FirstTasksOk(rounds[i], LoopAt(c, rounds, i)) <==> Reached(rounds[i], log[..i])
    ensures BillingDue(rounds[i], LoopAt(c, rounds, i)) <==> rounds[i].billingCheckAt >= BillingDueAt(c, log[..i])
    ensures LifecycleDue(rounds[i], LoopAt(c, rounds, i)) <==> rounds[i].lifecycleCheckAt >= LifecycleDueAt(log[..i])
  {
    hide Events, Happens, LoopAt;
    LogTells(c, rounds[i], LoopAt(c, rounds, i), e);
    DueTimesFollowLog(c, rounds, log, i);
  }

  // ---- What every run promises ----

  /**
   In any run, cycle i starts a billing pass exactly if it got that far and the log so far makes billing
   due; it gets to each settlement exactly if the one before it succeeded, and completes the pass exactly
   if all of it succeeded.
   */
  lemma BillingFollowsOutcomes(c: Config, rounds: seq<Round>, log: seq<Cycle>, i: nat, now: int)
    requires IsRun(c, rounds, log) && i < |log|
    ensures var r, started := rounds[i], PassStarts(c, rounds[i], log[..i]) && now == rounds[i].billingNow;
      && (HourlyStarted(now) in log[i] <==> started)
      && (HourlySettled(now) in log[i] <==> started && r.hourlyOk)
      && (DailyStarted(now) in log[i] <==> started && r.hourlyOk)
      && (DailySettled(now) in log[i] <==> started && r.hourlyOk && r.dailyOk)
      && (DunningQueued(now) in log[i] <==> started && r.hourlyOk && r.dailyOk && r.dunningOk)
    ensures forall at :: BillingDone(at) in log[i] <==>
      && PassStarts(c, rounds[i], log[..i]) && rounds[i].hourlyOk && rounds[i].dailyOk && rounds[i].dunningOk
      && at == rounds[i].billingDoneAt
  {
    hide Events, LoopAt, Reached, FirstTasksOk;
    RoundAt(c, rounds, log, i, HourlyStarted(now));
    RoundAt(c, rounds, log, i, HourlySettled(now));
    RoundAt(c, rounds, log, i, DailyStarted(now));
    RoundAt(c, rounds, log, i, DailySettled(now));
    RoundAt(c, rounds, log, i, DunningQueued(now));
    forall at
      ensures BillingDone(at) in log[i] <==> Happens(c, rounds[i], LoopAt(c, rounds, i), BillingDone(at))
    {
      RoundAt(c, rounds, log, i, BillingDone(at));
    }
  }

  /** Likewise the lifecycle pass is done exactly if the log so far makes it due and it goes through. */
  lemma LifecycleFollowsOutcomes(c: Config, rounds: seq<Round>, log: seq<Cycle>, i: nat, at: int)
    requires IsRun(c, rounds, log) && i < |log|
    ensures var r := rounds[i];
      LifecycleDone(at) in log[i] <==>
        && r.provisioned.Some? && r.alertsProcessed.Some?
        && r.lifecycleCheckAt >= LifecycleDueAt(log[..i]) && r.lifecycleOk && at == r.lifecycleDoneAt
  {
    hide Events, LoopAt, LifecycleDueAt;
    RoundAt(c, rounds, log, i, LifecycleDone(at));
  }

  /** The place of an event in a cycle. */
  function Place(e: Event): int {
    match e
    case Provisioned(_) => 0
    case AlertsProcessed(_) => 1
    case LifecycleDone(_) => 2
    case LifecycleSkipped(_) => 2
    case HourlyStarted(_) => 3
    case HourlySettled(_) => 4
    case DailyStarted(_) => 5
    case DailySettled(_) => 6
    case DunningQueued(_) => 7
    case BillingDone(_) => 8
    case BillingSkipped(_) => 8
    case NoncesPurged => 9
    case HeartbeatOk => 10
    case HeartbeatStale => 10
    case IdleSlept(_) => 11
    case BackedOff(_) => 11
    case Paused(_) => 12
  }

  ghost predicate InPlace(events: Cycle) {
    forall p, q :: 0 <= p < q < |events| ==> Place(events[p]) < Place(events[q])
  }

  /** All places of the events lie in [lo, hi). */
  ghost predicate Within(events: Cycle, lo: int, hi: int) {
    forall p :: 0 <= p < |events| ==> lo <= Place(events[p]) < hi
  }

  lemma FirstInPlace(r: Round, w: Loop)
    ensures InPlace(FirstEvents(r, w)) && Within(FirstEvents(r, w), 0, 3)
  {
    hide LifecycleDue;
  }

  lemma BillingInPlace(r: Round, w: Loop)
    ensures InPlace(BillingEvents(r, w)) && Within(BillingEvents(r, w), 3, 9)
  {
    hide BillingDue;
  }

  lemma ClosingInPlace(c: Config, r: Round, w: Loop)
    ensures InPlace(ClosingEvents(c, r, w)) && Within(ClosingEvents(c, r, w), 9, 13)
  {
    hide GoesThrough, FirstTasksOk, BillingOk, TooIdle, Crashes;
  }

  lemma PlacesJoin(a: Cycle, b: Cycle, lo: int, mid: int, hi: int)
    requires lo <= mid <= hi && InPlace(a) && InPlace(b) && Within(a, lo, mid) && Within(b, mid, hi)
    ensures InPlace(a + b) && Within(a + b, lo, hi)
  {
    hide Place;
  }

  lemma EventsInPlace(c: Config, r: Round, w: Loop)
    ensures InPlace(Events(c, r, w))
  {
    FirstInPlace(r, w);
    BillingInPlace(r, w);
    ClosingInPlace(c, r, w);
    hide FirstEvents, BillingEvents, ClosingEvents, InPlace, Within;
    var billing := if FirstTasksOk(r, w) then BillingEvents(r, w) else [];
    assert InPlace([]) && Within([], 3, 9) by { NothingInPlace(); }
    PlacesJoin(FirstEvents(r, w), billing, 0, 3, 9);
    PlacesJoin(FirstEvents(r, w) + billing, ClosingEvents(c, r, w), 0, 9, 13);
  }

  lemma NothingInPlace()
    ensures InPlace([]) && Within([], 3, 9)
  {
  }

  /**
   In every cycle of any run provisioning, alerts, lifecycle, billing step by step, purge, heartbeat and sleeps
   stand in this order, each at most once.
   */
  lemma CycleInOrder(c: Config, rounds: seq<Round>, log: seq<Cycle>, i: nat)
    requires IsRun(c, rounds, log) && i < |log|
    ensures forall p, q :: 0 <= p < q < |log[i]| ==> Place(log[i][p]) < Place(log[i][q])
  {
    hide Events, LoopAt, Place;
    EventsInPlace(c, rounds[i], LoopAt(c, rounds, i));
  }

  lemma BillingPlaces(now: int, at: int)
    ensures Place(HourlyStarted(now)) == 3 && Place(HourlySettled(now)) == 4
    ensures Place(DailyStarted(now)) == 5 && Place(DailySettled(now)) == 6
    ensures Place(DunningQueued(now)) == 7 && Place(BillingDone(at)) == 8
  {
  }

  /** Where places are in order, events whose places are next to each other stand next to each other. */
  lemma NextToEachOther(events: Cycle, e: Event, p: nat)
    requires InPlace(events) && p < |events| && e in events
    ensures Place(e) + 1 == Place(events[p]) ==> p > 0 && events[p - 1] == e
    ensures Place(e) == Place(events[p]) + 1 ==> p + 1 < |events| && events[p + 1] == e
  {
    hide Place;
    var k :| 0 <= k < |events| && events[k] == e;
    if k < p - 1 {
      assert Place(events[k]) < Place(events[p - 1]) < Place(events[p]);
    } else if k > p + 1 {
      assert Place(events[p]) < Place(events[p + 1]) < Place(events[k]);
    }
  }

  /** A daily settlement directly follows an hourly one that went through in the same cycle with the same instant. */
  lemma DailyFollowsHourly(c: Config, rounds: seq<Round>, log: seq<Cycle>, i: nat, p: nat)
    requires IsRun(c, rounds, log) && i < |log| && p < |log[i]| && log[i][p].DailyStarted?
    ensures rounds[i].hourlyOk && log[i][p].now == rounds[i].billingNow
    ensures p >= 2 && log[i][p - 1] == HourlySettled(rounds[i].billingNow)
    ensures log[i][p - 2] == HourlyStarted(rounds[i].billingNow)
  {
    var now := log[i][p].now;
    BillingFollowsOutcomes(c, rounds, log, i, now);
    hide Events, LoopAt, PassStarts;
    assert log[i][p] == DailyStarted(now) && DailyStarted(now) in log[i];
    EventsInPlace(c, rounds[i], LoopAt(c, rounds, i));
    BillingPlaces(now, 0);
    hide *;
    NextToEachOther(log[i], HourlySettled(now), p);
    NextToEachOther(log[i], HourlyStarted(now), p - 1);
  }

  /**
   Suspension reviews are queued directly after the daily settlement of the same instant went through, and
   directly before the pass is marked as done.
   */
  lemma DunningFollowsDaily(c: Config, rounds: seq<Round>, log: seq<Cycle>, i: nat, p: nat)
    requires IsRun(c, rounds, log) && i < |log| && p < |log[i]| && log[i][p].DunningQueued?
    ensures rounds[i].dailyOk && log[i][p].now == rounds[i].billingNow
    ensures p >= 2 && log[i][p - 1] == DailySettled(rounds[i].billingNow)
    ensures log[i][p - 2] == DailyStarted(rounds[i].billingNow)
    ensures p + 1 < |log[i]| && log[i][p + 1] == BillingDone(rounds[i].billingDoneAt)
  {
    var now := log[i][p].now;
    BillingFollowsOutcomes(c, rounds, log, i, now);
    hide Events, LoopAt, PassStarts;
    assert log[i][p] == DunningQueued(now) && DunningQueued(now) in log[i];
    EventsInPlace(c, rounds[i], LoopAt(c, rounds, i));
    BillingPlaces(now, rounds[i].billingDoneAt);
    hide *;
    NextToEachOther(log[i], DailySettled(now), p);
    NextToEachOther(log[i], DailyStarted(now), p - 1);
    NextToEachOther(log[i], BillingDone(rounds[i].billingDoneAt), p);
  }

  /** No cycle between lo and hi completed a billing pass. */
  ghost predicate NoneDone(log: seq<Cycle>, lo: nat, hi: nat)
    requires hi <= |log|
  {
    forall k, e :: lo <= k < hi && e in log[k] ==> !e.BillingDone?
  }

  lemma {:induction false} DueUnmoved(c: Config, log: seq<Cycle>, lo: nat, hi: nat)
    requires lo <= hi <= |log| && NoneDone(log, lo, hi)
    ensures BillingDueAt(c, log[..hi]) == BillingDueAt(c, log[..lo])
    decreases hi
  {
    if lo < hi {
      assert log[..hi][..hi - 1] == log[..hi - 1] && log[..hi][hi - 1] == log[hi - 1];
      DueUnmoved(c, log, lo, hi - 1);
      assert forall e :: e in log[hi - 1] ==> BillingTime(e) == None;
    }
  }

  /**
   A pass that started and was not completed leaves billing due: the next cycle that gets as far, with a
   clock that has not gone back, starts a pass again instead of skipping it.
   */
  lemma FailedPassStaysDue(c: Config, rounds: seq<Round>, log: seq<Cycle>, i: nat, j: nat)
    requires IsRun(c, rounds, log) && i < j < |log|
    requires HourlyStarted(rounds[i].billingNow) in log[i] && NoneDone(log, i, j)
    requires rounds[i].billingCheckAt <= rounds[j].billingCheckAt
    ensures forall at :: BillingSkipped(at) !in log[j]
    ensures Reached(rounds[j], log[..j]) ==> HourlyStarted(rounds[j].billingNow) in log[j]
  {
    hide Events, LoopAt, Reached, BillingDueAt, NoneDone;
    BillingFollowsOutcomes(c, rounds, log, i, rounds[i].billingNow);
    BillingFollowsOutcomes(c, rounds, log, j, rounds[j].billingNow);
    DueUnmoved(c, log, i, j);
    forall at
      ensures BillingSkipped(at) !in log[j]
    {
      RoundAt(c, rounds, log, j, BillingSkipped(at));
    }
  }

  /** The time billing is next due only moves forward. */
  lemma {:induction false} DueMovesForward(c: Config, rounds: seq<Round>, log: seq<Cycle>, i: nat, j: nat, at: int)
    requires IsRun(c, rounds, log) && 0 < c.billingIntervalMs && i < j <= |log|
    requires forall k :: 0 <= k < |rounds| ==> ClockMoves(rounds[k])
    requires BillingDone(at) in log[i]
    ensures at + c.billingIntervalMs <= BillingDueAt(c, log[..j])
    decreases j
  {
    hide Events, LoopAt, Reached;
    assert log[..j][..j - 1] == log[..j - 1] && log[..j][j - 1] == log[j - 1];
    BillingFollowsOutcomes(c, rounds, log, j - 1, rounds[j - 1].billingNow);
    if i < j - 1 {
      DueMovesForward(c, rounds, log, i, j - 1, at);
    } else {
      assert BillingTime(BillingDone(at)).Some?;
    }
    assert forall e :: e in log[j - 1] && BillingTime(e).Some? ==> e == BillingDone(e.at);
  }

  /** Every billing pass, completed or not, starts at least an interval after every earlier completed one. */
  lemma PassesKeepTheInterval(c: Config, rounds: seq<Round>, log: seq<Cycle>, i: nat, j: nat, at: int, now: int)
    requires IsRun(c, rounds, log) && 0 < c.billingIntervalMs && i < j < |log|
    requires forall k :: 0 <= k < |rounds| ==> ClockMoves(rounds[k])
    requires BillingDone(at) in log[i] && HourlyStarted(now) in log[j]
    ensures at + c.billingIntervalMs <= now
  {
    hide Events, LoopAt, Reached, BillingDueAt;
    DueMovesForward(c, rounds, log, i, j, at);
    BillingFollowsOutcomes(c, rounds, log, j, now);
  }

  /** The time the lifecycle pass is next due only moves forward. */
  lemma {:induction false} LifecycleMovesForward(c: Config, rounds: seq<Round>, log: seq<Cycle>, i: nat, j: nat, at: int)
    requires IsRun(c, rounds, log) && i < j <= |log|
    requires forall k :: 0 <= k < |rounds| ==> ClockMoves(rounds[k])
    requires LifecycleDone(at) in log[i]
    ensures at + 60_000 <= LifecycleDueAt(log[..j])
    decreases j
  {
    hide Events, LoopAt;
    assert log[..j][..j - 1] == log[..j - 1] && log[..j][j - 1] == log[j - 1];
    LifecycleFollowsOutcomes(c, rounds, log, j - 1, rounds[j - 1].lifecycleDoneAt);
    if i < j - 1 {
      LifecycleMovesForward(c, rounds, log, i, j - 1, at);
    } else {
      assert LifecycleTime(LifecycleDone(at)).Some?;
    }
    forall e | e in log[j - 1] && LifecycleTime(e).Some?
      ensures e == LifecycleDone(rounds[j - 1].lifecycleDoneAt)
    {
      LifecycleFollowsOutcomes(c, rounds, log, j - 1, e.at);
    }
  }

  /** Lifecycle passes are completed at least a minute apart. */
  lemma LifecyclePassesKeepAMinute(c: Config, rounds: seq<Round>, log: seq<Cycle>, i: nat, j: nat, at: int, next: int)
    requires IsRun(c, rounds, log) && i < j < |log|
    requires forall k :: 0 <= k < |rounds| ==> ClockMoves(rounds[k])
    requires LifecycleDone(at) in log[i] && LifecycleDone(next) in log[j]
    ensures at + 60_000 <= next
  {
    hide Events, LoopAt, LifecycleDueAt;
    LifecycleMovesForward(c, rounds, log, i, j, at);
    LifecycleFollowsOutcomes(c, rounds, log, j, next);
  }

  /** How many passes were completed within [lo, hi]. */
  function PassesIn(log: seq<Cycle>, lo: int, hi: int): nat {
    if log == [] then 0
    else
      var done := TimeIn(log[|log| - 1], BillingTime);
      PassesIn(log[..|log| - 1], lo, hi) + if done.Some? && lo <= done.value <= hi then 1 else 0
  }

  lemma CompletedWhenDue(c: Config, rounds: seq<Round>, log: seq<Cycle>, k: nat)
    requires IsRun(c, rounds, log) && k < |log| && ClockMoves(rounds[k])
    ensures var done := TimeIn(log[k], BillingTime);
      done.Some? ==> BillingDueAt(c, log[..k]) <= done.value
  {
    hide Events, LoopAt, Reached, BillingDueAt;
    BillingFollowsOutcomes(c, rounds, log, k, rounds[k].billingNow);
    var done := TimeIn(log[k], BillingTime);
    if done.Some? {
      assert BillingDone(done.value) in log[k];
    }
  }

  lemma {:induction false} PassesSpaced(c: Config, rounds: seq<Round>, log: seq<Cycle>, lo: int, hi: int)
    requires IsRun(c, rounds, log) && 0 < c.billingIntervalMs
    requires forall k :: 0 <= k < |rounds| ==> ClockMoves(rounds[k])
    ensures
      var n := PassesIn(log, lo, hi);
      && Fit(n, lo, hi, c.billingIntervalMs)
      && (n > 0 ==> lo + n * c.billingIntervalMs <= BillingDueAt(c, log))
  {
    hide Events, LoopAt, ClockMoves, TimeIn, BillingTime;
    if log != [] {
      var front, k := log[..|log| - 1], |log| - 1;
      PassesSpaced(c, rounds, front, lo, hi);
      assert log[..k] == front;
      CompletedWhenDue(c, rounds, log, k);
      var n := PassesIn(front, lo, hi);
      assert (n + 1) * c.billingIntervalMs == n * c.billingIntervalMs + c.billingIntervalMs;
    }
  }

  /** n instants at least d apart fit between lo and hi. */
  predicate Fit(n: nat, lo: int, hi: int, d: int) {
    n > 0 ==> lo + (n - 1) * d <= hi
  }

  lemma QuotientBounds(n: nat, lo: int, hi: int, d: int)
    requires 0 < d && lo <= hi && Fit(n, lo, hi, d)
    ensures n <= (hi - lo) / d + 1
  {
    var q := (hi - lo) / d;
    assert hi - lo == q * d + (hi - lo) % d;
    assert (q + 1) * d == q * d + d;
    if n > q + 1 {
      Scaled(q + 1, n - 1, d);
    }
  }

  lemma Scaled(a: int, b: int, d: int)
    requires a <= b && 0 < d
    ensures a * d <= b * d
  {
  }

  lemma PassesFit(c: Config, rounds: seq<Round>, log: seq<Cycle>, lo: int, hi: int)
    requires IsRun(c, rounds, log) && 0 < c.billingIntervalMs
    requires forall k :: 0 <= k < |rounds| ==> ClockMoves(rounds[k])
    ensures Fit(PassesIn(log, lo, hi), lo, hi, c.billingIntervalMs)
  {
    hide *;
    PassesSpaced(c, rounds, log, lo, hi);
  }

  /** In any period billing completes at most once per interval and once more. */
  lemma BillingRate(c: Config, rounds: seq<Round>, log: seq<Cycle>, lo: int, hi: int)
    requires IsRun(c, rounds, log) && 0 < c.billingIntervalMs && lo <= hi
    requires forall k :: 0 <= k < |rounds| ==> ClockMoves(rounds[k])
    ensures PassesIn(log, lo, hi) <= (hi - lo) / c.billingIntervalMs + 1
  {
    PassesFit(c, rounds, log, lo, hi);
    hide *;
    QuotientBounds(PassesIn(log, lo, hi), lo, hi, c.billingIntervalMs);
  }

  /**
   A cycle is reported good exactly if every task that its log so far made due went through; then a task
   it skipped was not due, and one that was due was completed.
   */
  lemma GoodHeartbeatIsHonest(c: Config, rounds: seq<Round>, log: seq<Cycle>, i: nat)
    requires IsRun(c, rounds, log) && i < |log|
    ensures
      var r, lifecycleDue, billingDue := rounds[i], LifecycleDueAt(log[..i]), BillingDueAt(c, log[..i]);
      && (HeartbeatOk in log[i] <==>
            && r.provisioned.Some? && r.alertsProcessed.Some?
            && (r.lifecycleCheckAt >= lifecycleDue ==> r.lifecycleOk)
            && (r.billingCheckAt >= billingDue ==> r.hourlyOk && r.dailyOk && r.dunningOk)
            && r.purgeOk && r.heartbeatOk)
      && (HeartbeatOk in log[i] ==>
            && (if r.lifecycleCheckAt >= lifecycleDue then LifecycleDone(r.lifecycleDoneAt) in log[i]
                else LifecycleSkipped(r.lifecycleCheckAt) in log[i])
            && (if r.billingCheckAt >= billingDue then BillingDone(r.billingDoneAt) in log[i]
                else BillingSkipped(r.billingCheckAt) in log[i]))
      && (forall at :: LifecycleSkipped(at) in log[i] ==> at < lifecycleDue)
      && (forall at :: BillingSkipped(at) in log[i] ==> at < billingDue)
  {
    hide Events, LoopAt, BillingDueAt, LifecycleDueAt, LifecycleDue, BillingDue;
    forall e
      ensures e in log[i] <==> Happens(c, rounds[i], LoopAt(c, rounds, i), e)
    {
      RoundAt(c, rounds, log, i, e);
    }
    RoundAt(c, rounds, log, i, HeartbeatOk);
  }

  /** Every cycle is reported once, good or stale, unless it is the one that ends the worker. */
  lemma ReportedOnce(c: Config, rounds: seq<Round>, log: seq<Cycle>, i: nat)
    requires IsRun(c, rounds, log) && i < |log| && !Crashes(rounds[i], LoopAt(c, rounds, i))
    ensures HeartbeatStale in log[i] <==> HeartbeatOk !in log[i]
    ensures HeartbeatStale in log[i] ==> BackedOff(c.pollMs) in log[i]
    ensures log[i] != [] && log[i][|log[i]| - 1] == Paused(200)
  {
    hide Events, LoopAt, GoesThrough;
    var r, w := rounds[i], LoopAt(c, rounds, i);
    LogTells(c, r, w, HeartbeatOk);
    LogTells(c, r, w, HeartbeatStale);
    LogTells(c, r, w, BackedOff(c.pollMs));
    EndsPaused(c, r, w);
  }

  lemma EndsPaused(c: Config, r: Round, w: Loop)
    requires !Crashes(r, w)
    ensures Events(c, r, w) != [] && Events(c, r, w)[|Events(c, r, w)| - 1] == Paused(200)
  {
    hide FirstEvents, BillingEvents, GoesThrough;
    var closing := ClosingEvents(c, r, w);
    assert closing != [] && closing[|closing| - 1] == Paused(200);
  }

  // ---- Idle rounds, computed from the log alone ----

  predicate IsGood(cycle: Cycle) {
    HeartbeatOk in cycle
  }

  ghost predicate FoundWork(cycle: Cycle) {
    Provisioned(true) in cycle || exists n: nat :: n > 0 && AlertsProcessed(n) in cycle
  }

  ghost predicate SleptIdle(cycle: Cycle) {
    exists ms :: IdleSlept(ms) in cycle
  }

  /** Good cycles that found nothing to do. */
  ghost function IdleCycles(log: seq<Cycle>): nat {
    if log == [] then 0
    else IdleCycles(log[..|log| - 1]) + if IsGood(log[|log| - 1]) && !FoundWork(log[|log| - 1]) then 1 else 0
  }

  /** No good cycle of the stretch found work, and none slept for want of it. */
  ghost predicate Quiet(log: seq<Cycle>) {
    forall k :: 0 <= k < |log| ==> !(IsGood(log[k]) && FoundWork(log[k])) && !SleptIdle(log[k])
  }

  lemma WorkTells(c: Config, r: Round, w: Loop)
    requires GoesThrough(r, w)
    ensures FoundWork(Events(c, r, w)) <==> IsBusy(r)
  {
    hide Events, GoesThrough;
    LogTells(c, r, w, Provisioned(true));
    forall n: nat
      ensures AlertsProcessed(n) in Events(c, r, w) <==> r.provisioned.Some? && r.alertsProcessed == Some(n)
    {
      LogTells(c, r, w, AlertsProcessed(n));
    }
    assert r.provisioned.Some? && r.alertsProcessed.Some? by { WentThrough(r, w); }
    if r.alertsProcessed.value > 0 {
      assert AlertsProcessed(r.alertsProcessed.value) in Events(c, r, w);
    }
  }

  lemma WentThrough(r: Round, w: Loop)
    requires GoesThrough(r, w)
    ensures r.provisioned.Some? && r.alertsProcessed.Some?
  {
  }

  lemma SleepTells(c: Config, r: Round, w: Loop)
    ensures SleptIdle(Events(c, r, w)) <==> GoesThrough(r, w) && TooIdle(c, r, w)
  {
    hide Events, GoesThrough, TooIdle;
    forall ms
      ensures IdleSlept(ms) in Events(c, r, w) <==> GoesThrough(r, w) && TooIdle(c, r, w) && ms == c.pollMs
    {
      LogTells(c, r, w, IdleSlept(ms));
    }
    if GoesThrough(r, w) && TooIdle(c, r, w) {
      assert IdleSlept(c.pollMs) in Events(c, r, w);
    }
  }

  lemma GoodTells(c: Config, r: Round, w: Loop)
    ensures IsGood(Events(c, r, w)) <==> GoesThrough(r, w)
  {
    hide Events, GoesThrough;
    LogTells(c, r, w, HeartbeatOk);
  }

  lemma CycleTells(c: Config, rounds: seq<Round>, log: seq<Cycle>, i: nat)
    requires IsRun(c, rounds, log) && i < |log|
    ensures var r, w := rounds[i], LoopAt(c, rounds, i);
      && (IsGood(log[i]) <==> GoesThrough(r, w))
      && (IsGood(log[i]) ==> (FoundWork(log[i]) <==> IsBusy(r)))
      && (SleptIdle(log[i]) <==> GoesThrough(r, w) && TooIdle(c, r, w))
  {
    var r, w := rounds[i], LoopAt(c, rounds, i);
    hide *;
    assert log[i] == Events(c, r, w) by { CycleIs(c, rounds, log, i); }
    GoodTells(c, r, w);
    SleepTells(c, r, w);
    if GoesThrough(r, w) {
      WorkTells(c, r, w);
    }
  }

  lemma CycleIs(c: Config, rounds: seq<Round>, log: seq<Cycle>, i: nat)
    requires IsRun(c, rounds, log) && i < |log|
    ensures i < |rounds| && log[i] == Events(c, rounds[i], LoopAt(c, rounds, i))
  {
    hide Events, LoopAt;
  }

  lemma {:induction false} IdleInRange(c: Config, rounds: seq<Round>, i: nat)
    requires i <= |rounds| && 1 <= c.maxIdleRounds
    ensures 0 <= LoopAt(c, rounds, i).idleRounds < c.maxIdleRounds
  {
    if i > 0 {
      IdleInRange(c, rounds, i - 1);
    }
  }

  lemma IdleStep(c: Config, rounds: seq<Round>, log: seq<Cycle>, i: nat)
    requires IsRun(c, rounds, log) && i < |log|
    ensures
      var before, after := LoopAt(c, rounds, i).idleRounds, LoopAt(c, rounds, i + 1).idleRounds;
      && after == (if !IsGood(log[i]) then before
                   else if FoundWork(log[i]) || SleptIdle(log[i]) then 0
                   else before + 1)
      && (SleptIdle(log[i]) ==> IsGood(log[i]) && !FoundWork(log[i]) && before + 1 >= c.maxIdleRounds)
  {
    assert LoopAt(c, rounds, i + 1) == After(c, rounds[i], LoopAt(c, rounds, i));
    hide IsRun, LoopAt, GoesThrough, FirstTasksOk, IsBusy, FoundWork, SleptIdle, IsGood;
    CycleTells(c, rounds, log, i);
  }

  lemma SliceGrows(log: seq<Cycle>, lo: nat, hi: nat)
    requires lo <= hi < |log|
    ensures log[lo..hi + 1] == log[lo..hi] + [log[hi]]
  {
  }

  lemma StretchGrows(stretch: seq<Cycle>, cycle: Cycle)
    ensures Quiet(stretch + [cycle]) <==> Quiet(stretch) && !(IsGood(cycle) && FoundWork(cycle)) && !SleptIdle(cycle)
    ensures IdleCycles(stretch + [cycle]) == IdleCycles(stretch) + if IsGood(cycle) && !FoundWork(cycle) then 1 else 0
  {
    hide IsGood, FoundWork, SleptIdle;
    var grown := stretch + [cycle];
    assert grown[..|stretch|] == stretch;
    assert forall k :: 0 <= k < |stretch| ==> grown[k] == stretch[k];
    assert grown[|stretch|] == cycle;
  }

  lemma {:induction false} QuietStretchCounted(c: Config, rounds: seq<Round>, log: seq<Cycle>, lo: nat, hi: nat)
    requires IsRun(c, rounds, log) && lo <= hi <= |log| && 1 <= c.maxIdleRounds
    requires Quiet(log[lo..hi])
    ensures IdleCycles(log[lo..hi]) <= LoopAt(c, rounds, hi).idleRounds
    decreases hi
  {
    assert |log| <= |rounds|;
    hide *;
    if lo == hi {
      IdleInRange(c, rounds, hi);
      NothingIsQuiet();
      assert log[lo..hi] == [];
    } else {
      var k := hi - 1;
      SliceGrows(log, lo, k);
      StretchGrows(log[lo..k], log[k]);
      QuietStretchCounted(c, rounds, log, lo, k);
      IdleStep(c, rounds, log, k);
    }
  }

  /**
   However failing cycles fall in between, a stretch of the log in which no good cycle found work and none
   slept for want of it has fewer idle good cycles than the maximum: an idle worker does not spin.
   */
  lemma IdleRoundsBounded(c: Config, rounds: seq<Round>, log: seq<Cycle>, lo: nat, hi: nat)
    requires IsRun(c, rounds, log) && lo <= hi <= |log| && 1 <= c.maxIdleRounds
    requires Quiet(log[lo..hi])
    ensures IdleCycles(log[lo..hi]) < c.maxIdleRounds
  {
    QuietStretchCounted(c, rounds, log, lo, hi);
    IdleInRange(c, rounds, hi);
  }

  lemma NothingIsQuiet()
    ensures Quiet([]) && IdleCycles([]) == 0
  {
  }

  lemma {:induction false} QuietSince(c: Config, rounds: seq<Round>, log: seq<Cycle>, i: nat) returns (lo: nat)
    requires IsRun(c, rounds, log) && i <= |log|
    ensures lo <= i && Quiet(log[lo..i]) && IdleCycles(log[lo..i]) == LoopAt(c, rounds, i).idleRounds
  {
    if i == 0 {
      lo := 0;
    } else {
      hide *;
      var k := i - 1;
      lo := QuietSince(c, rounds, log, k);
      IdleStep(c, rounds, log, k);
      if IsGood(log[k]) && (FoundWork(log[k]) || SleptIdle(log[k])) {
        lo := i;
        NothingIsQuiet();
        assert log[i..i] == [];
      } else {
        SliceGrows(log, lo, k);
        StretchGrows(log[lo..k], log[k]);
      }
    }
  }

  /** The worker sleeps for want of work only when exactly that many idle good cycles have gone by. */
  lemma IdleSleepIsEarned(c: Config, rounds: seq<Round>, log: seq<Cycle>, i: nat) returns (lo: nat)
    requires IsRun(c, rounds, log) && i < |log| && 1 <= c.maxIdleRounds && SleptIdle(log[i])
    ensures lo <= i && Quiet(log[lo..i])
    ensures IdleCycles(log[lo..i + 1]) == c.maxIdleRounds
  {
    hide Events, LoopAt, IsGood, FoundWork, SleptIdle;
    lo := QuietSince(c, rounds, log, i);
    IdleStep(c, rounds, log, i);
    IdleInRange(c, rounds, i);
    var stretch := log[lo..i + 1];
    assert stretch[..|stretch| - 1] == log[lo..i] && stretch[|stretch| - 1] == log[i];
  }
}
