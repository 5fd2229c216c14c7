/** The busy wait of the event loop over runs: how it is reached and when it ends. */
module Spinning {
  import opened Base
  import opened SyncSpec
  import opened MainLoop
  import opened System
  import opened Runs
  import opened Deadline
  import opened Monitors
  import opened Scenarios

  /** The device is down, and the only thing left of the monitor is a respawn scheduled for `due`. */
  ghost predicate Starved(sys: System, due: nat) {
    && sys.main.sync.deviceAt.Some? && sys.main.sync.pulseAt == Some(due)
    && sys.live == [] && PulseDisconnected !in sys.queue
  }

  predicate FindsNothing(step: Step) {
    step.Turn? ==> step.answer.found.None?
  }

  lemma StarvedTurn(m: Main, now: nat, ans: Answer)
    requires m.sync.deviceAt.Some? && ans.found.None?
    ensures m.Step(now, ans).sync.deviceAt.Some? && m.Step(now, ans).sync.pulseAt == m.sync.pulseAt
    ensures m.sync.Due(now) != Some(SpawnPulseMonitor)
  {
  }

  lemma StarvedKept(sys: System, step: Step, due: nat)
    requires Starved(sys, due) && FindsNothing(step)
    ensures Starved(Next(sys, step), due)
  {
    hide Main.Step, History.Turned, History.Noted, Sync.Due, Sync.Deadline, Sync.Masked;
    match step
    case Turn(ans) => if sys.pc.Draining? { StarvedTurn(sys.main, sys.pc.now, ans); }
    case _ =>
  }

  /** While no search finds a device the lost monitor is never respawned, in any run, and once its respawn
      is due every sleep of the loop has length zero: each failed search only schedules the next one. */
  lemma {:induction false} StarvedUntilConnect(sys: System, steps: seq<Step>, due: nat)
    requires Starved(sys, due) && forall step :: step in steps ==> FindsNothing(step)
    ensures Starved(Run(sys, steps), due)
    ensures forall t: nat :: due <= t ==> Run(sys, steps).main.sync.Deadline(t) == 0
  {
    if steps != [] {
      var most := steps[..|steps| - 1];
      StarvedUntilConnect(sys, most, due);
      StarvedKept(Run(sys, most), steps[|steps| - 1], due);
    }
  }

  /** Every reachable state with both reconnects scheduled is one of these. */
  lemma BothTimersStarve(cfg: Config, t0: nat, ans: Answer, steps: seq<Step>)
    ensures
      var sys := Reached(cfg, t0, ans, steps);
      sys.main.sync.deviceAt.Some? && sys.main.sync.pulseAt.Some? ==> Starved(sys, sys.main.sync.pulseAt.value)
  {
    OneMonitorAtATime(cfg, t0, ans, steps);
    TokensConserved(cfg, t0, ans, steps);
  }

  /** Finding a device ends it: the overdue respawn is the next action of the same drain. */
  lemma FoundDeviceEndsStarvation(sys: System, due: nat, ans: Answer)
    requires Starved(sys, due) && sys.pc.Draining? && due <= sys.pc.now
    requires Elapsed(sys.main.sync.deviceAt, sys.pc.now) && ans.found.Some?
    ensures
      var next := Next(sys, Turn(ans));
      && next.pc == sys.pc && next.main.sync.deviceAt.None?
      && next.main.sync.Due(sys.pc.now) == Some(SpawnPulseMonitor)
  {
    var now := sys.pc.now;
    assert sys.main.Step(now, ans) == sys.main.(sync := sys.main.sync.Fired(now)).Connect(ans);
    hide Main.Step, History.Turned;
  }

  lemma BothLost(cfg: Config) returns (sys: System)
    requires cfg.reconnect > 0
    ensures Reachable(sys, cfg) && sys.pc == Head && sys.queue == [] && sys.main.clock == 0
    ensures Starved(sys, cfg.reconnect) && sys.main.sync.deviceAt == Some(cfg.reconnect) && sys.main.sync.cfg == cfg
  {
    var s0 := Begin(cfg, 0, SILENT);
    assert Reached(cfg, 0, SILENT, []) == s0;
    var s1 := Then(s0, MonitorFails(0), cfg);
    assert s1.live == [] && s1.queue == [PulseDisconnected];
    var s2 := Then(s1, Receive(0, 0, 0), cfg);
    sys := Then(s2, Turn(SILENT), cfg);
  }

  /** A search at the time of the reconnect timer that finds nothing. */
  lemma SearchFails(sys: System, cfg: Config, at: nat) returns (next: System)
    requires Reachable(sys, cfg) && sys.pc == Head && sys.queue == [] && sys.main.clock <= at
    requires sys.main.sync.deviceAt == Some(at) && cfg.reconnect > 0 && sys.main.sync.cfg == cfg
    ensures Reachable(next, cfg) && next.pc == Head && next.queue == [] && next.live == sys.live
    ensures next.main.clock == at && next.main.sync == sys.main.sync.OnDeviceLost(at)
  {
    hide Main.Step, Sync.Due, History.Turned;
    var s1 := WaitsForDevice(sys, cfg, at);
    NothingFound(s1.main, at);
    var s2 := Then(s1, Turn(SILENT), cfg);
    next := Then(s2, Turn(SILENT), cfg);
  }

  lemma WaitsForDevice(sys: System, cfg: Config, at: nat) returns (next: System)
    requires Reachable(sys, cfg) && sys.pc == Head && sys.queue == [] && sys.main.clock <= at
    requires sys.main.sync.deviceAt == Some(at)
    ensures Reachable(next, cfg) && next.pc == Draining(at) && next.queue == [] && next.live == sys.live
    ensures next.main == sys.main.(clock := at)
  {
    var slack := at - sys.main.clock - sys.main.sync.Deadline(sys.main.clock);
    hide Sync.Masked, Sync.Due;
    next := Then(sys, TimeOut(0, slack), cfg);
  }

  lemma NothingFound(m: Main, at: nat)
    requires m.sync.deviceAt == Some(at) && m.clock == at && m.sync.cfg.reconnect > 0
    ensures m.sync.Due(at) == Some(ConnectDevice)
    ensures m.Step(at, SILENT) == m.(sync := m.sync.OnDeviceLost(at))
    ensures m.Step(at, SILENT).sync.Due(at).None?
  {
    assert m.Step(at, SILENT) == m.(sync := m.sync.Fired(at)).Connect(SILENT);
  }

  /** A run into the spin, for every configuration: no keyboard at the start, the monitor fails at once, and
      the next search for a keyboard finds nothing.  From then on the drained loop owes nothing and sleeps
      not at all for a whole reconnect delay, and the starvation above begins. */
  lemma SpinIsReached(cfg: Config) returns (sys: System)
    requires cfg.reconnect > 0
    ensures Reachable(sys, cfg) && sys.pc == Head && sys.queue == [] && sys.main.clock == cfg.reconnect
    ensures Starved(sys, cfg.reconnect)
    ensures forall t: nat :: cfg.reconnect <= t < 2 * cfg.reconnect ==>
      sys.main.sync.Due(t).None? && sys.main.sync.Deadline(t) == 0
  {
    var before := BothLost(cfg);
    hide Next;
    sys := SearchFails(before, cfg, cfg.reconnect);
  }
}
