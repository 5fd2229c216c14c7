/** What every run gets done: the next action comes in bounded time, a due time sync is not lost, and the
    loop turns only for a reason. */
module Progress {
  import opened Base
  import opened SyncSpec
  import opened MainLoop
  import opened System
  import opened Runs
  import opened Deadline
  import opened Pacing

  // ---------------------------------------------------------------- the next action

  /** No timer lies further ahead of the clock than its interval. */
  predicate TimersNear(s: Sync, clock: nat) {
    && (s.deviceAt.Some? ==> s.deviceAt.value <= clock + s.cfg.reconnect)
    && (s.pulseAt.Some? ==> s.pulseAt.value <= clock + s.cfg.reconnect)
    && (s.statusAt.Some? ==> s.statusAt.value <= clock + s.cfg.statusPoll)
    && s.nextSendAt <= clock + Max(s.cfg.retryBase, s.cfg.retryMax)
    && s.nextTimeSync <= clock + s.cfg.timeSync
  }

  lemma TimersNearLater(s: Sync, clock: nat, later: nat)
    requires TimersNear(s, clock) && clock <= later
    ensures TimersNear(s, later)
  {
  }

  lemma TimersNearHandle(m: Main, event: Event, at: nat)
    requires TimersNear(m.sync, at)
    ensures TimersNear(m.Handle(event, at).sync, at)
  {
  }

  lemma TimersNearHandlers(s: Sync, at: nat, clock: nat)
    requires TimersNear(s, clock) && at <= clock
    ensures TimersNear(s.OnDeviceConnected(at), clock) && TimersNear(s.OnDeviceLost(at), clock)
    ensures TimersNear(s.OnLinkState(at, true), clock) && TimersNear(s.OnLinkState(at, false), clock)
    ensures TimersNear(s.OnSendOk(at), clock)
    ensures s.Valid() ==> TimersNear(s.OnSendNoAck(at), clock)
  {
  }

  lemma TimersNearSend(m: Main, now: nat, ans: Answer)
    requires m.sync.Valid() && TimersNear(m.sync, m.clock) && now <= m.clock
    ensures TimersNear(m.Send(now, ans).sync, m.clock)
  {
    TimersNearHandlers(m.sync, now, m.clock);
    hide TimersNear, Sync.Valid;
  }

  lemma TimersNearQuery(m: Main, now: nat, ans: Answer)
    requires TimersNear(m.sync, m.clock) && now <= m.clock
    ensures TimersNear(m.QueryLink(now, ans).sync, m.clock)
  {
    TimersNearHandlers(m.sync, now, m.clock);
    hide TimersNear, Sync.Valid;
  }

  lemma TimersNearConnect(m: Main, ans: Answer)
    requires TimersNear(m.sync, m.clock)
    ensures TimersNear(m.Connect(ans).sync, m.Connect(ans).clock)
  {
    hide TimersNear;
    var at := m.clock + ans.searchTime;
    TimersNearLater(m.sync, m.clock, at);
    TimersNearHandlers(m.sync, at, at);
    TimersNearHandlers(m.sync.OnDeviceConnected(at), at, at);
    if ans.found.Some? {
      TimersNearLater(m.Connect(ans).sync, at, at + ans.wireTime);
    }
  }

  lemma TimersNearTurn(m: Main, now: nat, ans: Answer)
    requires m.Good() && TimersNear(m.sync, m.clock) && now <= m.clock && m.sync.Due(now).Some?
    ensures TimersNear(m.Step(now, ans).sync, m.Step(now, ans).clock)
  {
    var f := m.(sync := m.sync.Fired(now));
    StepKeepsGood(m, now, ans);
    assert f.sync.Valid() && TimersNear(f.sync, f.clock);
    hide TimersNear, Main.Good;
    match m.sync.Due(now).value
    case SendSysparam(_) =>
      TimersNearSend(f, now, ans);
      TimersNearLater(f.Send(now, ans).sync, m.clock, f.Send(now, ans).clock);
    case ConnectDevice => TimersNearConnect(f, ans);
    case SpawnPulseMonitor => TimersNearSpawn(f);
    case PollLinkState =>
      TimersNearQuery(f, now, ans);
      TimersNearLater(f.QueryLink(now, ans).sync, m.clock, f.QueryLink(now, ans).clock);
  }

  lemma TimersNearSpawn(m: Main)
    requires TimersNear(m.sync, m.clock)
    ensures TimersNear(m.SpawnPulse().sync, m.clock)
  {
  }

  lemma {:induction false} TimersNearAlways(cfg: Config, t0: nat, ans: Answer, steps: seq<Step>)
    ensures
      var sys := Reached(cfg, t0, ans, steps);
      TimersNear(sys.main.sync, sys.main.clock)
  {
    if steps != [] {
      var most := steps[..|steps| - 1];
      TimersNearAlways(cfg, t0, ans, most);
      SoundAlways(cfg, t0, ans, most);
      TimersNearKept(Reached(cfg, t0, ans, most), steps[|steps| - 1], cfg);
    }
  }

  lemma TimersNearKept(sys: System, step: Step, cfg: Config)
    requires Sound(sys, cfg) && TimersNear(sys.main.sync, sys.main.clock)
    ensures TimersNear(Next(sys, step).main.sync, Next(sys, step).main.clock)
  {
    hide Next, Main.Step, Main.Handle, History.Turned, Sync.Due, MoveOf, TimersNear, Main.Good;
    SoundKept(sys, step, cfg);
    NextMoves(sys, step, cfg);
    var next := Next(sys, step);
    match MoveOf(sys, step)
    case Wait => TimersNearLater(sys.main.sync, sys.main.clock, next.main.clock);
    case Heard(event, at) =>
      TimersNearLater(sys.main.sync, sys.main.clock, at);
      TimersNearHandle(sys.main, event, at);
      TimersNearLater(next.main.sync, at, next.main.clock);
    case Acted(now, a) => TimersNearTurn(sys.main, now, a);
  }

  function Patience(cfg: Config): nat {
    Max(cfg.reconnect,
        Max(cfg.statusPoll, Max(cfg.timeSync, Max(cfg.retryBase, cfg.retryMax))))
  }

  /** Bounded progress: from every reachable state, if nothing else happens, some action is owed at the
      latest when the longest interval has passed, and stays owed. */
  lemma SomeActionIsNear(cfg: Config, t0: nat, ans: Answer, steps: seq<Step>, later: nat)
    requires Reached(cfg, t0, ans, steps).main.clock + Patience(cfg) <= later
    ensures Reached(cfg, t0, ans, steps).main.sync.Due(later).Some?
  {
    TimersNearAlways(cfg, t0, ans, steps);
    SoundAlways(cfg, t0, ans, steps);
    DueFromWakeTime(Reached(cfg, t0, ans, steps).main.sync, later);
  }

  // ---------------------------------------------------------------- the time sync

  lemma TimeSyncTurn(m: Main, h: History, now: nat, ans: Answer)
    requires m.Good() && now <= m.clock && m.sync.Due(now).Some?
    ensures
      var next := m.Step(now, ans);
      var g := h.Turned(m, now, ans);
      && h.acks <= g.acks && m.clock <= next.clock
      && (g.acks == h.acks ==> next.sync.nextTimeSync <= Max(m.sync.nextTimeSync, next.clock))
  {
    var f := m.(sync := m.sync.Fired(now));
    StepKeepsGood(m, now, ans);
    match m.sync.Due(now).value
    case SendSysparam(_) => hide Main.Step; TimeSyncSend(m, h, now, ans);
    case ConnectDevice => assert m.Step(now, ans) == f.Connect(ans); TimeSyncConnect(f, ans);
    case SpawnPulseMonitor => assert m.Step(now, ans) == f.SpawnPulse();
    case PollLinkState => assert m.Step(now, ans) == f.QueryLink(now, ans); TimeSyncQuery(f, now, ans);
  }

  lemma TimeSyncConnect(m: Main, ans: Answer)
    ensures m.Connect(ans).sync.nextTimeSync <= Max(m.sync.nextTimeSync, m.Connect(ans).clock)
  {
  }

  lemma TimeSyncQuery(m: Main, now: nat, ans: Answer)
    ensures m.QueryLink(now, ans).sync.nextTimeSync == m.sync.nextTimeSync
  {
  }

  lemma TimeSyncSend(m: Main, h: History, now: nat, ans: Answer)
    requires m.Good() && m.sync.Due(now).Some? && m.sync.Due(now).value.SendSysparam?
    ensures
      var next := m.Step(now, ans);
      var g := h.Turned(m, now, ans);
      && h.acks <= g.acks
      && (g.acks == h.acks ==> next.sync.nextTimeSync == m.sync.nextTimeSync)
  {
    assert m.Step(now, ans) == m.(sync := m.sync.Fired(now)).Send(now, ans) && m.device.Some?;
  }

  /** A due time sync is never lost: once the clock has reached it, it stays due through volume events,
      unanswered sends, link changes, losses and reconnects until a send is acknowledged. */
  lemma {:induction false} DueTimeSyncStaysDue(sys: System, steps: seq<Step>, cfg: Config)
    requires Sound(sys, cfg) && sys.main.sync.TimeDue(sys.main.clock)
    ensures
      var end := Run(sys, steps);
      && Sound(end, cfg) && sys.history.acks <= end.history.acks
      && (end.history.acks == sys.history.acks ==> end.main.sync.TimeDue(end.main.clock))
  {
    if steps != [] {
      var most := steps[..|steps| - 1];
      var mid := Run(sys, most);
      DueTimeSyncStaysDue(sys, most, cfg);
      hide Next, Main.Step, History.Turned, Sync.Due, MoveOf;
      SoundKept(mid, steps[|steps| - 1], cfg);
      NextMoves(mid, steps[|steps| - 1], cfg);
      match MoveOf(mid, steps[|steps| - 1])
      case Wait =>
      case Heard(event, at) =>
      case Acted(now, a) => TimeSyncTurn(mid.main, mid.history, now, a);
    }
  }

  // ---------------------------------------------------------------- the turns of the loop

  /** Turns of the outer loop that neither an event, an action nor a mask accounts for. */
  function Idle(h: History): int {
    h.iterations - h.events - |h.log| - h.masked
  }

  predicate Busy(sys: System) {
    sys.pc.Draining? && sys.main.sync.Due(sys.pc.now).Some?
  }

  /** Every unaccounted turn has slept for the full `max_poll_timeout`; during a drain the turn under way
      may still be accounted for by the action it owes. */
  predicate TurnsPaidFor(sys: System) {
    (Idle(sys.history) - (if Busy(sys) then 1 else 0)) * sys.main.sync.cfg.maxPoll <= sys.main.clock - sys.history.start
  }

  lemma CountersKept(sys: System, step: Step)
    ensures
      var next := Next(sys, step);
      next.history.start == sys.history.start
      && Idle(next.history) - Idle(sys.history) ==
        if step.TimeOut? && sys.pc.Head? && sys.queue == [] then
          (if sys.main.sync.Masked(sys.main.clock + step.lead) then 0 else 1)
        else if step.Turn? && Busy(sys) then -1
        else 0
  {
    hide Main.Step, Main.Handle, Sync.Due, Sync.Deadline, Sync.Masked;
  }

  lemma TurnsPaidForTimeOut(sys: System, step: Step, cfg: Config)
    requires Sound(sys, cfg) && TurnsPaidFor(sys)
    requires step.TimeOut? && sys.pc.Head? && sys.queue == []
    ensures TurnsPaidFor(Next(sys, step))
  {
    hide Sync.Due, Sync.Deadline, Sync.Masked, Main.Good;
    var s, head := sys.main.sync, sys.main.clock + step.lead;
    var next := Next(sys, step);
    CountersKept(sys, step);
    ValidIfSound(sys, cfg);
    TimeOutOwesOrSlept(s, head, next.pc.now);
    hide Sync.Valid;
    var n, k := Idle(sys.history), cfg.maxPoll;
    assert (n + 1) * k == n * k + k && (n - 1) * k == n * k - k;
  }

  lemma ValidIfSound(sys: System, cfg: Config)
    requires Sound(sys, cfg)
    ensures sys.main.sync.Valid()
  {
  }

  /** A timeout outside the mask slept in full or wakes to an action. */
  lemma TimeOutOwesOrSlept(s: Sync, head: nat, now: nat)
    requires s.Valid() && head + s.Deadline(head) <= now
    ensures s.Masked(head) || s.Deadline(head) == s.cfg.maxPoll || s.Due(now).Some?
  {
    DeadlineExactUnlessMasked(s, head);
    hide Sync.Due, Sync.Deadline, Sync.Masked, Sync.Valid;
    if !s.Masked(head) && s.Deadline(head) < s.cfg.maxPoll {
      OwedStaysOwed(s, head + s.Deadline(head), now);
    }
  }

  lemma TurnsPaidForKept(sys: System, step: Step, cfg: Config)
    requires Sound(sys, cfg) && TurnsPaidFor(sys)
    ensures TurnsPaidFor(Next(sys, step))
  {
    if step.TimeOut? && sys.pc.Head? && sys.queue == [] {
      TurnsPaidForTimeOut(sys, step, cfg);
    } else {
      var next := Next(sys, step);
      CountersKept(sys, step);
      SoundKept(sys, step, cfg);
      NextMoves(sys, step, cfg);
      if !step.Turn? && Busy(sys) { BusyOnlyInDrain(sys, step); }
      hide Next, Main.Step, Sync.Due, MoveOf;
      var n, k := Idle(sys.history), cfg.maxPoll;
      assert (n - 1) * k == n * k - k && (n - 2) * k == n * k - 2 * k;
    }
  }

  /** A step that is neither a timeout nor a turn of the drain leaves an owed action owed. */
  lemma BusyOnlyInDrain(sys: System, step: Step)
    requires !step.Turn? && Busy(sys)
    ensures Busy(Next(sys, step))
  {
  }

  /** The turns of the outer loop, over every run: each is due to an event, to an action, to a mask, or
      to a full sleep. */
  lemma {:induction false} TurnsPaidForAlways(cfg: Config, t0: nat, ans: Answer, steps: seq<Step>)
    ensures TurnsPaidFor(Reached(cfg, t0, ans, steps))
  {
    if steps != [] {
      var most := steps[..|steps| - 1];
      TurnsPaidForAlways(cfg, t0, ans, most);
      SoundAlways(cfg, t0, ans, most);
      TurnsPaidForKept(Reached(cfg, t0, ans, most), steps[|steps| - 1], cfg);
    }
  }

  lemma TurnsAreBounded(cfg: Config, t0: nat, ans: Answer, steps: seq<Step>)
    requires cfg.maxPoll > 0
    ensures
      var sys := Reached(cfg, t0, ans, steps);
      var h := sys.history;
      h.iterations <= h.events + |h.log| + h.masked + (sys.main.clock - t0) / cfg.maxPoll + 1
  {
    var sys := Reached(cfg, t0, ans, steps);
    SoundAlways(cfg, t0, ans, steps);
    TurnsPaidForAlways(cfg, t0, ans, steps);
    hide Reached, Main.Good, Busy;
    if Idle(sys.history) > 1 {
      var n: nat := Idle(sys.history) - (if Busy(sys) then 1 else 0);
      AtMostQuotient(n, cfg.maxPoll, sys.main.clock - t0);
    }
  }
}
