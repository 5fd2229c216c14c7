/** The daemon with one line added to `on_send_no_ack`: the volume stays dirty.  Over every run of the
    repaired daemon the display is coherent whatever the backoff, the rate limit still holds, and an
    unanswered sync is sent again. */
module Repair {
  import opened Base
  import opened SyncSpec
  import opened MainLoop
  import opened System
  import opened Runs
  import opened Pacing
  import opened Progress
  import opened Monitors
  import opened Ticks
  import opened Settling
  import opened Delivery
  import opened Interleaving
  import Hid

  function RepairedNoAck(s: Sync, now: nat): Sync {
    s.OnSendNoAck(now).(volDirty := true)
  }

  /** `Main.Send` with the repaired handler. */
  function RepairedSend(m: Main, now: nat, ans: Answer): Main {
    if m.device.None? then m
    else
      var done := m.(clock := m.clock + ans.wireTime);
      match Hid.SendSysparam(m.device.value, ans.wire)
      case Acked => done.(sync := m.sync.OnSendOk(now), awake := true)
      case NotAcked => done.(sync := RepairedNoAck(m.sync, now), awake := false)
      case SendFailed => done.(sync := m.sync.OnDeviceLost(now), device := None)
  }

  predicate SendOwed(sys: System) {
    sys.pc.Draining? && sys.main.sync.Due(sys.pc.now) == Some(SendSysparam(sys.main.sync.Shown()))
  }

  /** One step of the repaired system: only the turn that sends differs. */
  function RepairedNext(sys: System, step: Step): System {
    if step.Turn? && SendOwed(sys) then
      var now := sys.pc.now;
      sys.(main := RepairedSend(sys.main.(sync := sys.main.sync.Fired(now)), now, step.answer),
           history := sys.history.Turned(sys.main, now, step.answer))
    else Next(sys, step)
  }

  function RepairedRun(sys: System, steps: seq<Step>): System {
    if steps == [] then sys
    else RepairedNext(RepairedRun(sys, steps[..|steps| - 1]), steps[|steps| - 1])
  }

  function RepairedReached(cfg: Config, now: nat, ans: Answer, steps: seq<Step>): System {
    RepairedRun(Begin(cfg, now, ans), steps)
  }

  // ---------------------------------------------------------------- what every repaired run keeps

  /** `Display.Coherent` without its last way out. */
  predicate StrictlyCoherent(s: Sync, acked: Option<Byte>) {
    acked == Some(s.Shown()) || s.volDirty || s.initialPending || s.deviceAt.Some?
  }

  /** What is left of an unanswered send in the repaired state: the time sync or a device found since is due
      by the end of the delay, or the volume is dirty, and settled by then unless another one was heard. */
  predicate Remembered(s: Sync, since: Since) {
    since.unanswered ==>
      if since.reconnected then s.nextTimeSync <= s.nextSendAt
      else
        && s.nextTimeSync == since.syncAt
        && (since.syncAt <= s.nextSendAt
            || (s.volDirty
                && if since.heard.Some? then s.volLastChange == since.heard.value
                   else s.volLastChange + s.cfg.debounce <= s.nextSendAt))
  }

  predicate Near(s: Sync, clock: nat) {
    TimersNear(s, clock) && Pending(s, clock)
  }

  ghost predicate Kept(sys: System, cfg: Config) {
    && Sound(sys, cfg) && Paced(sys.main.sync, sys.history, sys.Time()) && Near(sys.main.sync, sys.main.clock)
    && StrictlyCoherent(sys.main.sync, sys.history.acked) && Remembered(sys.main.sync, sys.history.since)
  }

  /** The repair changes a turn of the inner loop by one flag, and only when nobody acknowledged a send. */
  lemma RepairSetsOneFlag(m: Main, now: nat, ans: Answer)
    requires m.Good() && m.sync.Due(now) == Some(SendSysparam(m.sync.Shown()))
    ensures
      var code := m.Step(now, ans);
      var repaired := RepairedSend(m.(sync := m.sync.Fired(now)), now, ans);
      m.device.Some? &&
      if Hid.SendSysparam(m.device.value, ans.wire).NotAcked?
      then repaired == code.(sync := code.sync.(volDirty := true)) && !code.sync.linkUp
      else repaired == code
  {
    assert m.Step(now, ans) == m.(sync := m.sync.Fired(now)).Send(now, ans);
  }

  /** A dirty flag changes neither what is sound nor, with the link down, what holds a send back. */
  lemma FlagIsHarmless(m: Main, last: nat, time: nat)
    requires m.Good() && !m.sync.linkUp && HeldBack(m.sync, last, time)
    ensures m.(sync := m.sync.(volDirty := true)).Good()
    ensures HeldBack(m.sync.(volDirty := true), last, time)
  {
  }

  lemma SendKeepsSoundAndPaced(sys: System, ans: Answer, cfg: Config)
    requires SendOwed(sys) && Sound(sys, cfg) && Paced(sys.main.sync, sys.history, sys.Time())
    ensures
      var next := RepairedNext(sys, Turn(ans));
      Sound(next, cfg) && Paced(next.main.sync, next.history, next.Time())
  {
    var m, now := sys.main, sys.pc.now;
    StepKeepsGood(m, now, ans);
    PacedTurn(m, sys.history, now, ans);
    SentOnTurn(m, sys.history, now, ans);
    RepairSetsOneFlag(m, now, ans);
    hide Main.Step, RepairedSend, History.Turned, Sync.Due, HeldBack, Main.Good;
    if Hid.SendSysparam(m.device.value, ans.wire).NotAcked? {
      FlagIsHarmless(m.Step(now, ans), now, now);
    }
  }

  lemma SendKeepsNear(m: Main, now: nat, ans: Answer)
    requires m.Good() && now <= m.clock && Near(m.sync, m.clock)
    requires m.sync.Due(now) == Some(SendSysparam(m.sync.Shown()))
    ensures
      var next := RepairedSend(m.(sync := m.sync.Fired(now)), now, ans);
      Near(next.sync, next.clock)
  {
    TimersNearTurn(m, now, ans);
    PendingTurn(m, now, ans);
    RepairSetsOneFlag(m, now, ans);
    hide Main.Step, RepairedSend, Sync.Due;
  }

  lemma SendKeepsCoherent(m: Main, h: History, now: nat, ans: Answer)
    requires m.Good() && m.sync.Due(now) == Some(SendSysparam(m.sync.Shown()))
    ensures
      var next := RepairedSend(m.(sync := m.sync.Fired(now)), now, ans);
      StrictlyCoherent(next.sync, h.Turned(m, now, ans).acked) && Remembered(next.sync, h.Turned(m, now, ans).since)
  {
    assert m.sync.Fired(now).Shown() == m.sync.Shown();
  }

  lemma ConnectKeepsCoherent(m: Main, h: History, now: nat, ans: Answer)
    requires m.sync.Due(now) == Some(ConnectDevice) && Remembered(m.sync, h.since)
    ensures StrictlyCoherent(m.Step(now, ans).sync, h.Turned(m, now, ans).acked)
    ensures Remembered(m.Step(now, ans).sync, h.Turned(m, now, ans).since)
  {
    assert m.Step(now, ans) == m.(sync := m.sync.Fired(now)).Connect(ans);
  }

  lemma OtherTurnsKeepCoherent(m: Main, h: History, now: nat, ans: Answer)
    requires m.Good() && m.sync.Due(now).Some? && m.sync.Due(now).value.Rank() in {1, 2}
    requires StrictlyCoherent(m.sync, h.acked) && Remembered(m.sync, h.since)
    ensures StrictlyCoherent(m.Step(now, ans).sync, h.Turned(m, now, ans).acked)
    ensures Remembered(m.Step(now, ans).sync, h.Turned(m, now, ans).since)
  {
    var f := m.(sync := m.sync.Fired(now));
    if m.sync.Due(now).value.SpawnPulseMonitor? {
      assert m.Step(now, ans) == f.SpawnPulse();
    } else {
      assert m.Step(now, ans) == f.QueryLink(now, ans);
    }
  }

  lemma TurnsKeepCoherent(m: Main, h: History, now: nat, ans: Answer)
    requires m.Good() && m.sync.Due(now).Some? && m.sync.Due(now) != Some(SendSysparam(m.sync.Shown()))
    requires StrictlyCoherent(m.sync, h.acked) && Remembered(m.sync, h.since)
    ensures StrictlyCoherent(m.Step(now, ans).sync, h.Turned(m, now, ans).acked)
    ensures Remembered(m.Step(now, ans).sync, h.Turned(m, now, ans).since)
  {
    hide Main.Step, History.Turned, StrictlyCoherent, Remembered;
    if m.sync.Due(now).value.ConnectDevice? {
      ConnectKeepsCoherent(m, h, now, ans);
    } else {
      OtherTurnsKeepCoherent(m, h, now, ans);
    }
  }

  lemma EventsKeepCoherent(m: Main, h: History, event: Event, at: nat)
    requires StrictlyCoherent(m.sync, h.acked) && Remembered(m.sync, h.since)
    ensures StrictlyCoherent(m.Handle(event, at).sync, h.acked)
    ensures Remembered(m.Handle(event, at).sync, h.Noted(m, event, at).since)
  {
  }

  lemma KeptByStep(sys: System, step: Step, cfg: Config)
    requires Kept(sys, cfg)
    ensures Kept(RepairedNext(sys, step), cfg)
  {
    hide Next, Main.Step, Main.Handle, History.Turned, History.Noted, Sync.Due, Main.Good, Paced,
      StrictlyCoherent, Remembered, RepairedSend, TimersNear, Pending;
    if step.Turn? && SendOwed(sys) {
      SendKeepsSoundAndPaced(sys, step.answer, cfg);
      SendKeepsCoherent(sys.main, sys.history, sys.pc.now, step.answer);
      SendKeepsNear(sys.main, sys.pc.now, step.answer);
    } else {
      TimersNearKept(sys, step, cfg);
      PendingKept(sys, step, cfg);
      SoundKept(sys, step, cfg);
      PacedKept(sys, step, cfg);
      match MoveOf(sys, step)
      case Wait =>
      case Heard(event, at) => EventsKeepCoherent(sys.main, sys.history, event, at);
      case Acted(now, ans) => TurnsKeepCoherent(sys.main, sys.history, now, ans);
    }
  }

  lemma {:induction false} KeptAlways(cfg: Config, t0: nat, ans: Answer, steps: seq<Step>)
    ensures Kept(RepairedReached(cfg, t0, ans, steps), cfg)
  {
    if steps == [] {
      StartIsGood(cfg, t0, ans);
    } else {
      KeptAlways(cfg, t0, ans, steps[..|steps| - 1]);
      KeptByStep(RepairedReached(cfg, t0, ans, steps[..|steps| - 1]), steps[|steps| - 1], cfg);
    }
  }

  // ---------------------------------------------------------------- what the repair buys, and what it costs

  /** Display coherence for every configuration: in every repaired run a volume that the keyboard does not
      show is remembered without looking at the backoff. */
  lemma RepairedIsCoherent(cfg: Config, t0: nat, ans: Answer, steps: seq<Step>)
    ensures
      var sys := RepairedReached(cfg, t0, ans, steps);
      StrictlyCoherent(sys.main.sync, sys.history.acked)
  {
    KeptAlways(cfg, t0, ans, steps);
  }

  /** The rate limit is the same: remembering the volume makes no send come sooner than `Gap` allows. */
  lemma RepairedSendsAreSpaced(cfg: Config, t0: nat, ans: Answer, steps: seq<Step>)
    ensures Spaced(RepairedReached(cfg, t0, ans, steps).history.sends, Gap(cfg))
  {
    KeptAlways(cfg, t0, ans, steps);
  }

  /** Exactly when an unanswered sync is sent again, over every repaired run: once the link is up and the
      delay over, a send is owed unless a volume heard since the unanswered send has yet to settle and
      neither the time sync nor a device found since makes the send due anyway. */
  lemma RepairedSyncSentAgainIff(cfg: Config, t0: nat, ans: Answer, steps: seq<Step>, t: nat)
    requires RepairedReached(cfg, t0, ans, steps).history.since.unanswered
    requires RepairedReached(cfg, t0, ans, steps).main.sync.linkUp
    requires RepairedReached(cfg, t0, ans, steps).main.sync.nextSendAt <= t
    ensures
      var sys := RepairedReached(cfg, t0, ans, steps);
      var since := sys.history.since;
      sys.main.sync.SendDue(t) <==>
        || since.syncAt <= t
        || since.reconnected
        || since.heard.None?
        || since.heard.value + cfg.debounce <= t
  {
    KeptAlways(cfg, t0, ans, steps);
    hide RepairedReached, Paced;
  }

  // ---------------------------------------------------------------- delivery

  lemma RepairedSendOnlyMain(sys: System, step: Step)
    requires step.Turn? && SendOwed(sys)
    ensures
      var next := RepairedNext(sys, step);
      && next.live == sys.live && next.queue == sys.queue && next.signal == sys.signal
      && next.main.sync.lastVol == sys.main.sync.lastVol && next.main.sync.pulseAt == sys.main.sync.pulseAt
  {
    hide Next, Sync.Due, Sync.Fired, History.Turned, Hid.SendSysparam;
    SendFires(sys.main.sync, sys.pc.now);
  }

  lemma SendFires(s: Sync, now: nat)
    requires s.Due(now) == Some(SendSysparam(s.Shown()))
    ensures s.Fired(now).lastVol == s.lastVol && s.Fired(now).pulseAt == s.pulseAt
  {
  }

  lemma {:induction false} RepairedMonitors(cfg: Config, t0: nat, ans: Answer, steps: seq<Step>)
    ensures OneToken(RepairedReached(cfg, t0, ans, steps)) && VolumeOnItsWay(RepairedReached(cfg, t0, ans, steps))
  {
    if steps != [] {
      var most, step := steps[..|steps| - 1], steps[|steps| - 1];
      var sys := RepairedReached(cfg, t0, ans, most);
      RepairedMonitors(cfg, t0, ans, most);
      hide Next, SendOwed, LastHeard;
      if step.Turn? && SendOwed(sys) {
        RepairedSendOnlyMain(sys, step);
      } else {
        OneTokenKept(sys, step);
        VolumeOnItsWayKept(sys, step);
      }
    }
  }

  lemma AnsweredStepIsCodes(sys: System, step: Step, cfg: Config)
    requires Sound(sys, cfg) && Answered(step)
    ensures RepairedNext(sys, step) == Next(sys, step)
  {
    if step.Turn? && SendOwed(sys) {
      RepairSetsOneFlag(sys.main, sys.pc.now, step.answer);
      AnswersAcknowledge(step.answer, sys.main.device.value);
      hide Main.Step, RepairedSend, History.Turned;
    }
  }

  /** While the keyboard answers the repaired daemon and the code's are the same. */
  lemma {:induction false} AnsweredRunIsCodes(sys: System, more: seq<Step>, cfg: Config)
    requires Sound(sys, cfg) && forall step :: step in more ==> Answered(step)
    ensures RepairedRun(sys, more) == Run(sys, more) && Sound(Run(sys, more), cfg)
  {
    if more != [] {
      var most := more[..|more| - 1];
      AnsweredRunIsCodes(sys, most, cfg);
      assert more[|more| - 1] in more;
      hide Sound, Next, RepairedNext;
      AnsweredStepIsCodes(Run(sys, most), more[|more| - 1], cfg);
      SoundKept(Run(sys, most), more[|more| - 1], cfg);
    }
  }

  lemma {:induction false} RepairedRunConcat(sys: System, a: seq<Step>, b: seq<Step>)
    ensures RepairedRun(sys, a + b) == RepairedRun(RepairedRun(sys, a), b)
    decreases |b|
  {
    if b == [] {
      assert a + b == a;
    } else {
      RepairedRunConcat(sys, a, b[..|b| - 1]);
      assert (a + b)[..|a + b| - 1] == a + b[..|b| - 1];
    }
  }

  /** From every state of every repaired run, with no condition on what the daemon still remembers: once every
      search and exchange succeeds, however long each takes and whatever the other threads do, at any rest no
      sooner than the longest interval but the one between time syncs the keyboard has acknowledged the
      volume that the live monitor last saw. */
  lemma RepairedVolumeIsDelivered(cfg: Config, t0: nat, ans: Answer, steps: seq<Step>, more: seq<Step>)
    requires forall step :: step in more ==> Answered(step)
    ensures
      var start := RepairedReached(cfg, t0, ans, steps);
      var end := RepairedRun(start, more);
      Rested(end) && start.main.clock + Promptness(cfg) <= end.main.clock ==> Delivered(end)
  {
    var start := RepairedReached(cfg, t0, ans, steps);
    var limit := start.main.clock + Promptness(cfg);
    KeptAlways(cfg, t0, ans, steps);
    AnsweredRunIsCodes(start, more, cfg);
    RepairedRunConcat(Begin(cfg, t0, ans), steps, more);
    RepairedMonitors(cfg, t0, ans, steps + more);
    RememberedIsPromised(start, cfg);
    hide RepairedReached, RepairedRun, Paced, Promises, Sound, TimersNear, Pending, VolumeOnItsWay;
    PromisesRun(start, more, cfg, limit);
    var end := Run(start, more);
    if Rested(end) && limit <= end.main.clock {
      RestedIsAcknowledged(end, cfg, limit);
      AcknowledgedIsDelivered(end);
    }
  }

  /** On time, with answers that take no time: from every state of every repaired run the keyboard shows the
      volume last heard within the longest interval but the one between time syncs, and keeps showing it.
      Either it does already and nothing else is sent, or it is sent by then.  What follows is a run of the
      repaired system, action for action. */
  lemma RepairedVolumeIsShownPromptly(
      cfg: Config, t0: nat, ans: Answer, steps: seq<Step>, protocol: Hid.Protocol, horizon: nat)
    returns (more: seq<Step>)
    requires cfg.Positive()
    requires
      var sys := RepairedReached(cfg, t0, ans, steps);
      !sys.pc.Exited? && Shutdown !in sys.queue && sys.main.clock + Promptness(cfg) < horizon
    ensures
      var sys := RepairedReached(cfg, t0, ans, steps);
      Resumable(sys, cfg) &&
      var run := Resume(sys, horizon, Always(Friendly(protocol)));
      && RepairedRun(sys, more).history.log == sys.history.log + Actions(run)
      && (|| Settles(run, ToShow(sys), sys.main.clock + Promptness(cfg))
          || (sys.history.acked == Some(ToShow(sys)) && OnlySends(run, ToShow(sys))))
  {
    var sys := RepairedReached(cfg, t0, ans, steps);
    KeptAlways(cfg, t0, ans, steps);
    hide RepairedReached, RepairedRun, Run, Main.Good, Paced, Resume, Settles, OnlySends, TimersNear, Pending, Brings;
    more := ResumeIsRun(sys, cfg, horizon, Friendly(protocol));
    AnsweredRunIsCodes(sys, more, cfg);
    if Remembers(sys) {
      RememberedIsShownPromptly(sys, cfg, protocol, horizon);
    } else {
      ResumeOnlyShows(sys, cfg, horizon, Always(Friendly(protocol)));
    }
  }
}
