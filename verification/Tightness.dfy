/** The rate limit of `Pacing` cannot be improved. */
module Tightness {
  import opened Base
  import opened SyncSpec
  import opened MainLoop
  import opened System
  import opened Runs
  import opened Pacing
  import opened Scenarios
  import Hid

  // ---------------------------------------------------------------- the four ways to be fastest

  lemma FastestTimeSync(cfg: Config) returns (sys: System)
    ensures Reachable(sys, cfg) && sys.history.sends == [0, cfg.timeSync]
  {
    sys := AfterAck(cfg);
    if cfg.timeSync > 0 {
      sys := SleepsUntil(sys, cfg, cfg.timeSync);
    }
    sys := Turned(sys, cfg, HEARD);
  }

  lemma FastestVolume(cfg: Config) returns (sys: System)
    requires 0 < cfg.timeSync
    ensures Reachable(sys, cfg) && sys.history.sends == [0, cfg.debounce]
  {
    hide Next;
    sys := AfterAck(cfg);
    sys := Hears(sys, cfg, 1, 0);
    if cfg.debounce > 0 {
      sys := SleepsUntil(sys, cfg, cfg.debounce);
    }
    sys := Turned(sys, cfg, HEARD);
  }

  /** The first send fails, and the device is gone. */
  lemma FirstSendFails(cfg: Config) returns (sys: System)
    ensures InDrain(sys, cfg) && sys.main.clock == 0 && sys.history.sends == [0]
    ensures sys.main.sync.deviceAt == Some(cfg.reconnect) && sys.main.device.None?
  {
    var before := FirstSend(cfg);
    hide Reachable;
    sys := Turned(before, cfg, BROKEN);
  }

  /** The dongle is found again at the time of the reconnect timer, and sent to at once. */
  lemma FoundAgain(before: System, cfg: Config) returns (sys: System)
    requires InDrain(before, cfg) && before.main.sync.deviceAt == Some(before.main.clock)
    ensures InDrain(sys, cfg) && sys.history.sends == before.history.sends && sys.main.clock == before.main.clock
    ensures sys.main.device.Some? && sys.main.sync.Due(sys.main.clock) == Some(SendSysparam(sys.main.sync.Shown()))
  {
    hide Reachable;
    var m, now := before.main, before.main.clock;
    assert m.Step(now, HEARD) == m.(sync := m.sync.Fired(now)).Connect(HEARD);
    sys := Turned(before, cfg, HEARD);
  }

  lemma FastestReconnect(cfg: Config) returns (sys: System)
    ensures Reachable(sys, cfg) && sys.history.sends == [0, cfg.reconnect]
  {
    hide Reachable, Main.Step;
    sys := FirstSendFails(cfg);
    if cfg.reconnect > 0 {
      sys := SleepsUntil(sys, cfg, cfg.reconnect);
    }
    sys := FoundAgain(sys, cfg);
    sys := Turned(sys, cfg, HEARD);
  }

  /** An unanswered send, the link reported up at the first query, and the next send due as soon as the
      delay allows. */
  lemma Retried(before: System, cfg: Config) returns (sys: System)
    requires InDrain(before, cfg) && before.main.device == Some(Hid.Dongle)
    requires before.main.sync.SendDue(before.main.clock) && before.main.sync.TimeDue(before.main.clock)
    requires before.main.sync.deviceAt.None?
    ensures InDrain(sys, cfg)
    ensures
      var now := before.main.clock;
      var at := now + Max(before.main.sync.sendBackoff, cfg.statusPoll);
      && sys.main.clock == at && sys.history.sends == before.history.sends + [now]
      && sys.main.device == Some(Hid.Dongle)
      && sys.main.sync.SendDue(at) && sys.main.sync.TimeDue(at) && sys.main.sync.deviceAt.None?
      && sys.main.sync.sendBackoff == Min(2 * before.main.sync.sendBackoff, cfg.retryMax)
  {
    hide Next;
    var now, delay := before.main.clock, before.main.sync.sendBackoff;
    sys := Missed(before, cfg);
    if cfg.statusPoll < delay {
      sys := SleepsUntil(sys, cfg, now + delay);
    }
  }

  lemma FastestRetry(cfg: Config) returns (sys: System, i: nat)
    ensures Reachable(sys, cfg) && i + 1 < |sys.history.sends|
    ensures sys.history.sends[i + 1] == sys.history.sends[i] + Max(Min(cfg.retryBase, cfg.retryMax), cfg.statusPoll)
  {
    sys := FirstSend(cfg);
    sys := Retried(sys, cfg);
    if cfg.retryMax < cfg.retryBase {
      sys := Retried(sys, cfg);
      i := 1;
    } else {
      i := 0;
    }
    var last := sys;
    assert last.main.sync.Due(last.main.clock).Some?;
    sys := Turned(last, cfg, HEARD);
    assert sys.history.sends == last.history.sends + [last.main.clock];
  }

  lemma GapIsReached(cfg: Config) returns (sys: System, i: nat)
    ensures Reachable(sys, cfg) && i + 1 < |sys.history.sends|
    ensures sys.history.sends[i + 1] == sys.history.sends[i] + Gap(cfg)
  {
    i := 0;
    if Gap(cfg) == cfg.timeSync {
      sys := FastestTimeSync(cfg);
    } else if Gap(cfg) == cfg.debounce {
      sys := FastestVolume(cfg);
    } else if Gap(cfg) == cfg.reconnect {
      sys := FastestReconnect(cfg);
    } else {
      sys, i := FastestRetry(cfg);
    }
  }

  /** The gap is the best there is: every run spaces its sends by `d` if and only if `d` is at most the gap. */
  lemma SpacedExactlyUpToGap(cfg: Config, d: nat)
    ensures (forall sys: System :: Reachable(sys, cfg) ==> Spaced(sys.history.sends, d)) <==> d <= Gap(cfg)
  {
    if d <= Gap(cfg) {
      forall sys: System | Reachable(sys, cfg) ensures Spaced(sys.history.sends, d) {
        var t0: nat, ans: Answer, steps: seq<Step> :| Reached(cfg, t0, ans, steps) == sys;
        SendsAreSpaced(cfg, t0, ans, steps);
      }
    } else {
      var sys, i := GapIsReached(cfg);
      assert !Spaced(sys.history.sends, d);
    }
  }
}
