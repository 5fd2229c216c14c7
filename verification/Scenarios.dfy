/** Building blocks for runs that show something can happen. */
module Scenarios {
  import opened Base
  import opened SyncSpec
  import opened MainLoop
  import opened System
  import opened Runs
  import Hid

  lemma Then(sys: System, step: Step, cfg: Config) returns (next: System)
    requires Reachable(sys, cfg)
    ensures Reachable(next, cfg) && next == Next(sys, step)
  {
    next := Next(sys, step);
    StepReaches(sys, step, cfg);
  }

  /** A reachable state in a drain, with the time frozen at the clock and nothing to read. */
  ghost predicate InDrain(sys: System, cfg: Config) {
    && Reachable(sys, cfg) && sys.main.sync.cfg == cfg
    && sys.pc.Draining? && sys.pc.now == sys.main.clock && sys.queue == []
    && sys.main.sync.pulseAt.None?
  }

  // what the environment can answer, in no time
  const HEARD := Answer(Some(Hid.Dongle), 0, Hid.Reply(0, 1), 0)
  const SILENT := Answer(None, 0, Hid.Silence, 0)
  const BROKEN := Answer(None, 0, Hid.WriteError, 0)

  /** The first send of a daemon that finds its dongle at time 0. */
  lemma FirstSend(cfg: Config) returns (sys: System)
    ensures InDrain(sys, cfg) && sys.main.clock == 0 && sys.history.sends == [] && sys.history.acked == None
    ensures sys.live == [Monitor(false, None)]
    ensures sys.main == Start(cfg, 0, HEARD) && sys.main.sync.Due(0) == Some(SendSysparam(0))
  {
    var s0 := Begin(cfg, 0, HEARD);
    assert Reached(cfg, 0, HEARD, []) == s0;
    StepReaches(s0, TimeOut(0, 0), cfg);
    sys := Next(s0, TimeOut(0, 0));
  }

  /** One turn of a drain. */
  lemma Turned(sys: System, cfg: Config, ans: Answer) returns (next: System)
    requires InDrain(sys, cfg) && sys.main.sync.Due(sys.main.clock).Some?
    requires !sys.main.sync.Due(sys.main.clock).value.SpawnPulseMonitor?
    requires ans.searchTime == ans.wireTime == 0
    ensures InDrain(next, cfg) && next.main.clock == sys.main.clock
    ensures next.live == sys.live
    ensures next.main == sys.main.Step(sys.main.clock, ans)
    ensures next.history == sys.history.Turned(sys.main, sys.main.clock, ans)
  {
    next := Next(sys, Turn(ans));
    StepReaches(sys, Turn(ans), cfg);
    ClockStands(sys.main, sys.main.clock, ans);
    hide Main.Step, History.Turned;
  }

  lemma ClockStands(m: Main, now: nat, ans: Answer)
    requires ans.searchTime == ans.wireTime == 0
    ensures m.Step(now, ans).clock == m.clock && m.Step(now, ans).sync.cfg == m.sync.cfg
    ensures m.sync.pulseAt.None? ==> m.Step(now, ans).sync.pulseAt.None?
  {
  }

  /** Once the drain is over, the daemon can sleep to any time not before its deadline. */
  lemma SleepsUntil(sys: System, cfg: Config, until: nat) returns (next: System)
    requires InDrain(sys, cfg) && sys.main.sync.Due(sys.main.clock).None?
    requires sys.main.clock + sys.main.sync.Deadline(sys.main.clock) <= until
    ensures InDrain(next, cfg) && next.main == sys.main.(clock := until)
    ensures next.history.sends == sys.history.sends && next.history.acked == sys.history.acked
  {
    var rest := Next(sys, Turn(SILENT));
    StepReaches(sys, Turn(SILENT), cfg);
    var slack := until - sys.main.clock - sys.main.sync.Deadline(sys.main.clock);
    next := Next(rest, TimeOut(0, slack));
    StepReaches(rest, TimeOut(0, slack), cfg);
  }

  lemma AfterAck(cfg: Config) returns (sys: System)
    ensures InDrain(sys, cfg) && sys.main.clock == 0 && sys.live == [Monitor(false, None)]
    ensures sys.history.sends == [0] && sys.history.acked == Some(0)
    ensures sys.main.device == Some(Hid.Dongle)
    ensures sys.main.sync == Initial(cfg, 0).(initialPending := false).OnSendOk(0)
    ensures cfg.timeSync > 0 ==> sys.main.sync.Due(0).None?
  {
    sys := FirstSend(cfg);
    sys := Turned(sys, cfg, HEARD);
  }

  /** The monitor comes up and reports a volume, which the daemon hears at `at`. */
  lemma Hears(sys: System, cfg: Config, vol: Byte, at: nat) returns (next: System)
    requires InDrain(sys, cfg) && sys.main.sync.Due(sys.main.clock).None? && sys.live == [Monitor(false, None)]
    requires sys.main.clock <= at
    ensures InDrain(next, cfg) && next.main.clock == at && next.main.device == sys.main.device
    ensures next.main.sync == sys.main.sync.OnVolumeChanged(vol, at)
    ensures next.history.sends == sys.history.sends && next.history.acked == sys.history.acked
  {
    hide Sync.Due, Sync.Deadline, Sync.Masked, Main.Step, History.Turned, Reachable;
    var s1 := Next(sys, Turn(SILENT));
    var s2 := Next(s1, MonitorReady(0, Some(vol)));
    StepReaches(sys, Turn(SILENT), cfg);
    StepReaches(s1, MonitorReady(0, Some(vol)), cfg);
    StepReaches(s2, Receive(at - sys.main.clock, 0, 0), cfg);
    next := Next(s2, Receive(at - sys.main.clock, 0, 0));
  }

  /** An unanswered send, and the link reported up at the first query. */
  lemma Missed(before: System, cfg: Config) returns (sys: System)
    requires InDrain(before, cfg) && before.main.device == Some(Hid.Dongle)
    requires before.main.sync.SendDue(before.main.clock) && before.main.sync.deviceAt.None?
    ensures InDrain(sys, cfg) && sys.main.device == Some(Hid.Dongle)
    ensures
      var now := before.main.clock;
      var s := before.main.sync.Fired(now).OnSendNoAck(now).OnLinkState(now, true);
      && sys.main.clock == now + cfg.statusPoll && sys.main.sync == s
      && sys.history.sends == before.history.sends + [now] && sys.history.acked == before.history.acked
  {
    hide Next;
    var now := before.main.clock;
    sys := Turned(before, cfg, SILENT);
    assert sys.main.sync == before.main.sync.Fired(now).OnSendNoAck(now);
    if cfg.statusPoll > 0 {
      sys := SleepsUntil(sys, cfg, now + cfg.statusPoll);
    }
    sys := Turned(sys, cfg, HEARD);
  }
}
