/** What happens after a send that nobody acknowledged: how long the daemon waits, and what it sends when
    the keyboard is back. */
module Retry {
  import opened Base
  import opened SyncSpec
  import opened MainLoop
  import opened System
  import opened Runs
  import opened Interleaving
  import opened Scenarios
  import Hid

  // ---------------------------------------------------------------- backoff

  /** The delay imposed by the (k+1)-th unacknowledged send in a row. */
  function Backoff(cfg: Config, k: nat): nat {
    if k == 0 then cfg.retryBase else Min(cfg.retryBase * Pow2(k), cfg.retryMax)
  }

  /** The sum of the first n delays. */
  function TotalDelay(cfg: Config, n: nat): nat {
    if n == 0 then 0 else TotalDelay(cfg, n - 1) + Backoff(cfg, n - 1)
  }

  predicate BackedOff(s: Sync, h: History) {
    && s.sendBackoff == Backoff(s.cfg, h.misses)
    && (h.misses > 0 ==> h.firstMiss + TotalDelay(s.cfg, h.misses) <= s.nextSendAt)
  }

  lemma BackoffDoubles(cfg: Config, k: nat)
    ensures Min(2 * Backoff(cfg, k), cfg.retryMax) == Backoff(cfg, k + 1)
    ensures TotalDelay(cfg, k + 1) == TotalDelay(cfg, k) + Backoff(cfg, k)
    ensures Backoff(cfg, 0) == cfg.retryBase && TotalDelay(cfg, 0) == 0
  {
    assert cfg.retryBase * (2 * Pow2(k)) == 2 * (cfg.retryBase * Pow2(k));
  }

  lemma BackedOffSend(m: Main, h: History, now: nat, ans: Answer)
    requires m.Good() && m.sync.Due(now) == Some(SendSysparam(m.sync.Shown())) && BackedOff(m.sync, h)
    ensures BackedOff(m.Step(now, ans).sync, h.Turned(m, now, ans))
  {
    hide Backoff, TotalDelay;
    BackoffDoubles(m.sync.cfg, h.misses);
    var f := m.(sync := m.sync.Fired(now));
    assert m.Step(now, ans) == f.Send(now, ans) && m.device.Some?;
    match Hid.SendSysparam(m.device.value, ans.wire)
    case Acked =>
    case NotAcked =>
    case SendFailed =>
  }

  lemma BackedOffTurn(m: Main, h: History, now: nat, ans: Answer)
    requires m.Good() && m.sync.Due(now).Some? && BackedOff(m.sync, h)
    ensures BackedOff(m.Step(now, ans).sync, h.Turned(m, now, ans))
  {
    hide Backoff, TotalDelay;
    BackoffDoubles(m.sync.cfg, 0);
    var f := m.(sync := m.sync.Fired(now));
    match m.sync.Due(now).value
    case SendSysparam(_) => hide *; BackedOffSend(m, h, now, ans);
    case ConnectDevice => assert m.Step(now, ans) == f.Connect(ans);
    case SpawnPulseMonitor => assert m.Step(now, ans) == f.SpawnPulse();
    case PollLinkState => assert m.Step(now, ans) == f.QueryLink(now, ans);
  }

  lemma {:induction false} BackedOffAlways(cfg: Config, t0: nat, ans: Answer, steps: seq<Step>)
    ensures
      var sys := Reached(cfg, t0, ans, steps);
      BackedOff(sys.main.sync, sys.history)
  {
    if steps != [] {
      var most := steps[..|steps| - 1];
      var sys := Reached(cfg, t0, ans, most);
      BackedOffAlways(cfg, t0, ans, most);
      SoundAlways(cfg, t0, ans, most);
      BackedOffKept(sys, steps[|steps| - 1], cfg);
    }
  }

  lemma BackedOffKept(sys: System, step: Step, cfg: Config)
    requires Sound(sys, cfg) && BackedOff(sys.main.sync, sys.history)
    ensures BackedOff(Next(sys, step).main.sync, Next(sys, step).history)
  {
    hide Next, Main.Step, Main.Good, History.Turned, Sync.Due, MoveOf, Backoff, TotalDelay;
    SoundKept(sys, step, cfg);
    match MoveOf(sys, step)
    case Wait =>
    case Heard(event, at) =>
    case Acted(now, a) => BackedOffTurn(sys.main, sys.history, now, a);
  }

  /** Backoff closed form: after n unacknowledged sends in a row within one connection the backoff is
      the base doubled n times and cut at the maximum, and the next attempt comes no earlier than the
      first plus all the delays so far. */
  lemma BackoffClosedForm(cfg: Config, t0: nat, ans: Answer, steps: seq<Step>)
    ensures
      var sys := Reached(cfg, t0, ans, steps);
      var n := sys.history.misses;
      && (n >= 1 ==> sys.main.sync.sendBackoff == Min(cfg.retryBase * Pow2(n), cfg.retryMax))
      && (forall now: nat :: n >= 1 && sys.main.sync.SendDue(now) ==>
            sys.history.firstMiss + TotalDelay(cfg, n) <= now)
  {
    BackedOffAlways(cfg, t0, ans, steps);
    SoundAlways(cfg, t0, ans, steps);
  }

  /** While the base does not exceed the maximum, every delay has the same form. */
  lemma {:induction false} DelaysAreCutPowers(cfg: Config, k: nat)
    requires cfg.retryBase <= cfg.retryMax
    ensures Backoff(cfg, k) == Min(cfg.retryBase * Pow2(k), cfg.retryMax)
  {
  }

  // ---------------------------------------------------------------- what is still to be sent

  /** What is left of an unanswered send in the state: a reconnect makes the next send due at once; otherwise
      the time sync stands where it stood, and unless it was due by the end of the delay anyway, the dirty
      flag marks exactly the volumes heard since. */
  predicate Kept(s: Sync, since: Since) {
    since.unanswered ==>
      if since.reconnected then s.nextTimeSync <= s.nextSendAt
      else
        && s.nextTimeSync == since.syncAt
        && (since.syncAt <= s.nextSendAt
            || (if since.heard.Some? then s.volDirty && s.volLastChange == since.heard.value else !s.volDirty))
  }

  lemma KeptSend(m: Main, h: History, now: nat, ans: Answer)
    requires m.Good() && m.sync.Due(now) == Some(SendSysparam(m.sync.Shown()))
    ensures Kept(m.Step(now, ans).sync, h.Turned(m, now, ans).since)
  {
    var f := m.(sync := m.sync.Fired(now));
    assert m.Step(now, ans) == f.Send(now, ans) && m.device.Some?;
    match Hid.SendSysparam(m.device.value, ans.wire)
    case Acked =>
    case NotAcked =>
    case SendFailed =>
  }

  lemma KeptConnect(m: Main, h: History, now: nat, ans: Answer)
    requires m.sync.Due(now) == Some(ConnectDevice) && Kept(m.sync, h.since)
    ensures Kept(m.Step(now, ans).sync, h.Turned(m, now, ans).since)
  {
    assert m.Step(now, ans) == m.(sync := m.sync.Fired(now)).Connect(ans);
  }

  lemma KeptTurn(m: Main, h: History, now: nat, ans: Answer)
    requires m.Good() && m.sync.Due(now).Some? && Kept(m.sync, h.since)
    ensures Kept(m.Step(now, ans).sync, h.Turned(m, now, ans).since)
  {
    var f := m.(sync := m.sync.Fired(now));
    match m.sync.Due(now).value
    case SendSysparam(_) => hide Main.Step, Kept; KeptSend(m, h, now, ans);
    case ConnectDevice => hide Main.Step, Kept; KeptConnect(m, h, now, ans);
    case SpawnPulseMonitor => assert m.Step(now, ans) == f.SpawnPulse();
    case PollLinkState => assert m.Step(now, ans) == f.QueryLink(now, ans);
  }

  lemma KeptHandle(m: Main, h: History, event: Event, at: nat)
    requires Kept(m.sync, h.since)
    ensures Kept(m.Handle(event, at).sync, h.Noted(m, event, at).since)
  {
  }

  lemma KeptKept(sys: System, step: Step, cfg: Config)
    requires Sound(sys, cfg) && Kept(sys.main.sync, sys.history.since)
    ensures Kept(Next(sys, step).main.sync, Next(sys, step).history.since)
  {
    hide Next, Main.Step, Main.Handle, Main.Good, History.Turned, History.Noted, Sync.Due, MoveOf, Kept;
    SoundKept(sys, step, cfg);
    match MoveOf(sys, step)
    case Wait =>
    case Heard(event, at) => KeptHandle(sys.main, sys.history, event, at);
    case Acted(now, a) => KeptTurn(sys.main, sys.history, now, a);
  }

  lemma {:induction false} KeptAlways(cfg: Config, t0: nat, ans: Answer, steps: seq<Step>)
    ensures
      var sys := Reached(cfg, t0, ans, steps);
      Kept(sys.main.sync, sys.history.since)
  {
    if steps != [] {
      var most := steps[..|steps| - 1];
      KeptAlways(cfg, t0, ans, most);
      SoundAlways(cfg, t0, ans, most);
      KeptKept(Reached(cfg, t0, ans, most), steps[|steps| - 1], cfg);
    }
  }

  /** Exactly when an unanswered sync is sent again, over every run: from any unanswered send until the next
      one, once the link is up and the delay over, a send is owed if and only if the time sync that stood at
      the send is due, or a device was found since, or another volume was heard since and has settled.  What
      the send was for does not matter: the volume that caused it does not count. */
  lemma UnansweredSyncSentAgainIff(cfg: Config, t0: nat, ans: Answer, steps: seq<Step>, t: nat)
    requires Reached(cfg, t0, ans, steps).history.since.unanswered
    requires Reached(cfg, t0, ans, steps).main.sync.linkUp && Reached(cfg, t0, ans, steps).main.sync.nextSendAt <= t
    ensures
      var sys := Reached(cfg, t0, ans, steps);
      var since := sys.history.since;
      sys.main.sync.SendDue(t) <==>
        || since.syncAt <= t
        || since.reconnected
        || (since.heard.Some? && since.heard.value + cfg.debounce <= t)
  {
    KeptAlways(cfg, t0, ans, steps);
    SoundAlways(cfg, t0, ans, steps);
    hide Reached;
  }

  /** Since the last send, which nobody acknowledged, no device was found and no other volume heard. */
  predicate Forgotten(since: Since, until: nat) {
    since.unanswered && since.syncAt == until && since.heard.None? && !since.reconnected
  }

  lemma UnansweredIsForgotten(sys: System, ans: Answer)
    requires sys.main.Good() && sys.pc.Draining?
    requires sys.main.sync.Due(sys.pc.now) == Some(SendSysparam(sys.main.sync.Shown()))
    requires Hid.SendSysparam(sys.main.device.value, ans.wire) == Hid.NotAcked
    ensures Forgotten(Next(sys, Turn(ans)).history.since, sys.main.sync.nextTimeSync)
    ensures Next(sys, Turn(ans)).history.sends == sys.history.sends + [sys.pc.now]
  {
    hide Main.Step;
  }

  /** What is forgotten stays forgotten: in every run, as long as no device is found and no other volume
      heard, whatever the link and the monitors do, nothing is sent before the time sync. */
  lemma {:induction false} ForgottenUntilTimeSync(cfg: Config, t0: nat, ans: Answer, steps: seq<Step>, more: seq<Step>)
    requires
      var since := Reached(cfg, t0, ans, steps).history.since;
      && Forgotten(since, since.syncAt)
      && forall k :: 0 <= k <= |more| ==>
           var later := Run(Reached(cfg, t0, ans, steps), more[..k]).history.since;
           later.heard.None? && !later.reconnected
    ensures
      var sys := Reached(cfg, t0, ans, steps);
      var end := Run(sys, more);
      && end == Reached(cfg, t0, ans, steps + more)
      && (end.Time() < sys.history.since.syncAt ==>
            end.history.sends == sys.history.sends && end.history.since == sys.history.since)
  {
    var sys := Reached(cfg, t0, ans, steps);
    RunConcat(Begin(cfg, t0, ans), steps, more);
    assert more[..|more|] == more;
    if more != [] {
      var most := more[..|more| - 1];
      forall k | 0 <= k <= |most| ensures most[..k] == more[..k] {
      }
      ForgottenUntilTimeSync(cfg, t0, ans, steps, most);
      KeptAlways(cfg, t0, ans, steps + most);
      SoundAlways(cfg, t0, ans, steps + most);
      ForgottenStep(Run(sys, most), more[|more| - 1], cfg, sys.history.since.syncAt);
    }
  }

  lemma ForgottenStep(sys: System, step: Step, cfg: Config, until: nat)
    requires Sound(sys, cfg) && Kept(sys.main.sync, sys.history.since)
    requires var since := Next(sys, step).history.since; since.heard.None? && !since.reconnected
    ensures sys.Time() <= Next(sys, step).Time()
    ensures Forgotten(sys.history.since, until) && Next(sys, step).Time() < until ==>
      && Next(sys, step).history.sends == sys.history.sends
      && Next(sys, step).history.since == sys.history.since
  {
    hide Next, Main.Step, Main.Handle, History.Turned, MoveOf, Sync.Due, Kept;
    SoundKept(sys, step, cfg);
    if Forgotten(sys.history.since, until) && Next(sys, step).Time() < until {
      match MoveOf(sys, step)
      case Wait =>
      case Heard(event, at) =>
      case Acted(now, ans) => ForgottenTurn(sys.main, sys.history, now, ans, until);
    }
  }

  lemma ForgottenTurn(m: Main, h: History, now: nat, ans: Answer, until: nat)
    requires m.Good() && Kept(m.sync, h.since) && Forgotten(h.since, until) && now < until && m.sync.Due(now).Some?
    requires !h.Turned(m, now, ans).since.reconnected
    ensures h.Turned(m, now, ans).sends == h.sends && h.Turned(m, now, ans).since == h.since
  {
  }

  /** So a volume-only send that nobody acknowledged is forgotten: with no device found and no other volume
      heard, it is the last send before the time sync, which lies ahead. */
  lemma UnansweredVolumeIsForgotten(
      cfg: Config, t0: nat, ans: Answer, steps: seq<Step>, silence: Answer, more: seq<Step>)
    requires
      var sys := Reached(cfg, t0, ans, steps);
      && sys.pc.Draining? && sys.main.sync.Due(sys.pc.now) == Some(SendSysparam(sys.main.sync.Shown()))
      && !sys.main.sync.TimeDue(sys.pc.now)
      && sys.main.device.Some? && Hid.SendSysparam(sys.main.device.value, silence.wire) == Hid.NotAcked
    requires
      forall k :: 0 <= k <= |more| ==>
        var later := Run(Next(Reached(cfg, t0, ans, steps), Turn(silence)), more[..k]).history.since;
        later.heard.None? && !later.reconnected
    ensures
      var sys := Reached(cfg, t0, ans, steps);
      var end := Run(Next(sys, Turn(silence)), more);
      && sys.pc.now < sys.main.sync.nextTimeSync
      && (end.Time() < sys.main.sync.nextTimeSync ==> end.history.sends == sys.history.sends + [sys.pc.now])
  {
    var sys := Reached(cfg, t0, ans, steps);
    SoundAlways(cfg, t0, ans, steps);
    UnansweredIsForgotten(sys, silence);
    var sent := steps + [Turn(silence)];
    assert sent[..|sent| - 1] == steps;
    assert Reached(cfg, t0, ans, sent) == Next(sys, Turn(silence));
    hide Next, Reached, Sync.Due, Main.Good;
    ForgottenUntilTimeSync(cfg, t0, ans, sent, more);
  }

  /** What a daemon with default intervals knows when it has heard a volume at 1 s. */
  const FIFTY :=
    Sync(DEFAULT, Some(50), true, 1_000, 1_800_000, None, None, false, DEFAULT.retryBase, 0, true, None)

  lemma FiftyHeard()
    ensures Initial(DEFAULT, 0).(initialPending := false).OnSendOk(0).OnVolumeChanged(50, 1_000) == FIFTY
    ensures DEFAULT.timeSync > 0
    ensures FIFTY.Deadline(1_000) == 500 && FIFTY.Due(1_000).None?
    ensures FIFTY.Due(1_500) == Some(SendSysparam(50))
  {
  }

  lemma FiftySettled() returns (sys: System)
    ensures InDrain(sys, DEFAULT) && sys.main.clock == 1_500 && sys.main.device == Some(Hid.Dongle)
    ensures sys.history.sends == [0] && sys.history.acked == Some(0) && sys.main.sync == FIFTY
  {
    hide *;
    FiftyHeard();
    sys := AfterAck(DEFAULT);
    sys := Hears(sys, DEFAULT, 50, 1_000);
    sys := SleepsUntil(sys, DEFAULT, 1_500);
  }

  /** With default intervals: a volume-only send at 1.5 s goes unanswered; the link is back at 11.5 s; nothing
      is owed then nor until the half-hourly time sync. */
  lemma ForgottenVolumeWitness() returns (sys: System)
    ensures Reachable(sys, DEFAULT) && sys.main.clock == 11_500
    ensures sys.history.sends == [0, 1_500] && sys.history.acked == Some(0) && sys.main.sync.lastVol == Some(50)
    ensures forall t: nat :: 11_500 <= t < 1_800_000 ==> sys.main.sync.Due(t).None?
    ensures sys.main.sync.Due(1_800_000) == Some(SendSysparam(50))
  {
    hide Next, Reachable, Main.Step;
    var before := FiftySettled();
    sys := Missed(before, DEFAULT);
    assert sys.main.sync.nextTimeSync == 1_800_000 && !sys.main.sync.volDirty && sys.main.sync.linkUp;
  }
}
