/** How far apart two sends are, over every run. */
module Pacing {
  import opened Base
  import opened SyncSpec
  import opened MainLoop
  import opened System
  import opened Runs

  /** The shortest delay that any path from one send to the next goes through. */
  function Gap(cfg: Config): nat {
    Min(cfg.debounce,
        Min(cfg.timeSync,
            Min(cfg.reconnect, Max(Min(cfg.retryBase, cfg.retryMax), cfg.statusPoll))))
  }

  /** No send can happen before `last + Gap`: the time has come, or the device is down until then, or
      the link is, or the link is back but the retry delay is still to be waited for, or only new
      content can cause a send. */
  predicate HeldBack(s: Sync, last: nat, time: nat) {
    var retry := Min(s.cfg.retryBase, s.cfg.retryMax);
    || last + Gap(s.cfg) <= time
    || (s.deviceAt.Some? && last + s.cfg.reconnect <= s.deviceAt.value)
    || (s.deviceAt.None? && !s.linkUp && last + retry <= s.nextSendAt
        && s.statusAt.Some? && last + s.cfg.statusPoll <= s.statusAt.value)
    || (s.deviceAt.None? && s.linkUp && last + retry <= s.nextSendAt && last + s.cfg.statusPoll <= time)
    || (s.deviceAt.None? && s.linkUp && last + s.cfg.timeSync <= s.nextTimeSync
        && (s.volDirty ==> last <= s.volLastChange))
  }

  ghost predicate Spaced(sends: seq<nat>, gap: nat) {
    forall i :: 0 <= i < |sends| - 1 ==> sends[i] + gap <= sends[i + 1]
  }

  ghost predicate Paced(s: Sync, h: History, time: nat) {
    var sends := h.sends;
    && Spaced(sends, Gap(s.cfg))
    && (sends != [] ==> h.start <= sends[0] && sends[|sends| - 1] <= time && HeldBack(s, sends[|sends| - 1], time))
  }

  lemma HeldBackLater(s: Sync, last: nat, time: nat, later: nat)
    requires HeldBack(s, last, time) && time <= later
    ensures HeldBack(s, last, later)
  {
  }

  lemma HeldBackHandle(m: Main, last: nat, time: nat, event: Event, at: nat)
    requires HeldBack(m.sync, last, time) && last <= time <= at
    ensures HeldBack(m.Handle(event, at).sync, last, at)
  {
  }

  lemma SendIsHeldBack(m: Main, last: nat, now: nat)
    requires m.Good() && HeldBack(m.sync, last, now)
    requires m.sync.Due(now).Some? && m.sync.Due(now).value.SendSysparam?
    ensures last + Gap(m.sync.cfg) <= now
  {
  }

  lemma ConnectIsHeldBack(m: Main, last: nat, now: nat)
    requires HeldBack(m.sync, last, now) && m.sync.Due(now) == Some(ConnectDevice)
    ensures last + Gap(m.sync.cfg) <= now
  {
  }

  lemma HeldBackAfterSend(m: Main, now: nat, ans: Answer)
    requires m.Good() && m.sync.Due(now).Some? && m.sync.Due(now).value.SendSysparam?
    ensures HeldBack(m.Step(now, ans).sync, now, now)
  {
    var f := m.(sync := m.sync.Fired(now));
    assert m.Step(now, ans) == f.Send(now, ans);
  }

  lemma HeldBackAfterQuery(m: Main, last: nat, now: nat, ans: Answer)
    requires m.Good() && HeldBack(m.sync, last, now) && last <= now && m.sync.Due(now) == Some(PollLinkState)
    ensures HeldBack(m.Step(now, ans).sync, last, now)
  {
    var f := m.(sync := m.sync.Fired(now));
    assert m.Step(now, ans) == f.QueryLink(now, ans);
  }

  lemma PacedTurn(m: Main, h: History, now: nat, ans: Answer)
    requires m.Good() && Paced(m.sync, h, now) && h.start <= now
    ensures Paced(m.Step(now, ans).sync, h.Turned(m, now, ans), now)
  {
    StepKeepsGood(m, now, ans);
    if m.sync.Due(now).Some? {
      match m.sync.Due(now).value
      case SendSysparam(_) =>
        HeldBackAfterSend(m, now, ans);
        SentOnTurn(m, h, now, ans);
        if h.sends != [] { SendIsHeldBack(m, h.sends[|h.sends| - 1], now); }
      case ConnectDevice =>
        if h.sends != [] { ConnectIsHeldBack(m, h.sends[|h.sends| - 1], now); }
      case SpawnPulseMonitor =>
      case PollLinkState =>
        if h.sends != [] { HeldBackAfterQuery(m, h.sends[|h.sends| - 1], now, ans); }
    }
  }

  lemma SentOnTurn(m: Main, h: History, now: nat, ans: Answer)
    requires m.Good() && m.sync.Due(now).Some? && m.sync.Due(now).value.SendSysparam?
    ensures h.Turned(m, now, ans).sends == h.sends + [now] && h.Turned(m, now, ans).start == h.start
  {
    NoActionIsDropped(m, now);
  }

  lemma PacedKept(sys: System, step: Step, cfg: Config)
    requires Sound(sys, cfg) && Paced(sys.main.sync, sys.history, sys.Time())
    ensures Paced(Next(sys, step).main.sync, Next(sys, step).history, Next(sys, step).Time())
  {
    hide Next, Main.Step, Main.Good, Main.Handle, History.Turned, Sync.Due, HeldBack, MoveOf;
    SoundKept(sys, step, cfg);
    var sends := sys.history.sends;
    var next := Next(sys, step);
    match MoveOf(sys, step)
    case Wait =>
      if sends != [] { HeldBackLater(sys.main.sync, sends[|sends| - 1], sys.Time(), next.Time()); }
    case Heard(event, at) =>
      if sends != [] {
        HeldBackHandle(sys.main, sends[|sends| - 1], sys.Time(), event, at);
        HeldBackLater(next.main.sync, sends[|sends| - 1], at, next.Time());
      }
    case Acted(now, ans) => PacedTurn(sys.main, sys.history, now, ans);
  }

  /** Rate limit: in every run any two consecutive sends are at least the gap apart, whatever was
      acknowledged, lost, reconnected or changed in between.  The times are those of the polls that handed
      the sends out, not those at which the packets left. */
  lemma {:induction false} SendsAreSpaced(cfg: Config, t0: nat, ans: Answer, steps: seq<Step>)
    ensures
      var sys := Reached(cfg, t0, ans, steps);
      Spaced(sys.history.sends, Gap(cfg)) && Paced(sys.main.sync, sys.history, sys.Time())
  {
    SoundAlways(cfg, t0, ans, steps);
    if steps != [] {
      var most := steps[..|steps| - 1];
      SoundAlways(cfg, t0, ans, most);
      SendsAreSpaced(cfg, t0, ans, most);
      PacedKept(Reached(cfg, t0, ans, most), steps[|steps| - 1], cfg);
    }
  }

  lemma {:induction false} SpacedSpan(sends: seq<nat>, gap: nat)
    requires Spaced(sends, gap) && sends != []
    ensures sends[0] + (|sends| - 1) * gap <= sends[|sends| - 1]
  {
    if |sends| > 1 {
      var most := sends[..|sends| - 1];
      assert Spaced(most, gap) by {
        forall i | 0 <= i < |most| - 1 ensures most[i] + gap <= most[i + 1] {
          assert sends[i] + gap <= sends[i + 1];
        }
      }
      SpacedSpan(most, gap);
      assert sends[|sends| - 2] + gap <= sends[|sends| - 1];
      assert (|sends| - 1) * gap == (|sends| - 2) * gap + gap;
    }
  }

  /** So a run that has lasted `elapsed` ticks has sent at most `elapsed / gap + 1` times. */
  lemma SendsAreFew(cfg: Config, t0: nat, ans: Answer, steps: seq<Step>)
    requires Gap(cfg) > 0
    ensures
      var sys := Reached(cfg, t0, ans, steps);
      |sys.history.sends| <= (sys.main.clock - t0) / Gap(cfg) + 1
  {
    var sys := Reached(cfg, t0, ans, steps);
    var sends, gap := sys.history.sends, Gap(cfg);
    SendsAreSpaced(cfg, t0, ans, steps);
    SoundAlways(cfg, t0, ans, steps);
    if sends != [] {
      SpacedSpan(sends, gap);
      AtMostQuotient(|sends| - 1, gap, sys.main.clock - t0);
    }
  }

  lemma AtMostQuotient(n: nat, d: nat, total: nat)
    requires d > 0 && n * d <= total
    ensures n <= total / d
  {
    var q := total / d;
    assert total == q * d + total % d;
    assert (n - q) * d < d;
    assert n - q >= 1 ==> (n - q) * d >= d;
  }
}
