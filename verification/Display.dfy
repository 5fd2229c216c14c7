/** The volume the keyboard shows, and what remembers a volume it does not show yet. */
module Display {
  import opened Base
  import opened SyncSpec
  import opened MainLoop
  import opened System
  import opened Runs
  import opened Scenarios
  import Hid

  // ---------------------------------------------------------------- coherence

  /** If the last acknowledged volume is not the one a send would carry, something remembers it: the
      dirty flag, a pending initial sync, a missing device, or a backoff that shows an unanswered send. */
  predicate Coherent(s: Sync, acked: Option<Byte>) {
    || acked == Some(s.Shown())
    || s.volDirty || s.initialPending || s.deviceAt.Some? || s.sendBackoff > s.cfg.retryBase
  }

  lemma CoherentTurn(m: Main, h: History, now: nat, ans: Answer)
    requires m.Good() && Coherent(m.sync, h.acked) && 0 < m.sync.cfg.retryBase < m.sync.cfg.retryMax
    requires m.sync.Due(now).Some?
    ensures Coherent(m.Step(now, ans).sync, h.Turned(m, now, ans).acked)
  {
    match m.sync.Due(now).value
    case SendSysparam(_) => CoherentSend(m, h, now, ans);
    case ConnectDevice => CoherentConnect(m, h, now, ans);
    case SpawnPulseMonitor =>
    case PollLinkState => CoherentQuery(m, h, now, ans);
  }

  lemma CoherentSend(m: Main, h: History, now: nat, ans: Answer)
    requires m.Good() && m.sync.Due(now) == Some(SendSysparam(m.sync.Shown()))
    requires Coherent(m.sync, h.acked) && 0 < m.sync.cfg.retryBase < m.sync.cfg.retryMax
    ensures Coherent(m.Step(now, ans).sync, h.Turned(m, now, ans).acked)
  {
    var f := m.(sync := m.sync.Fired(now));
    assert m.Step(now, ans) == f.Send(now, ans) && f.sync.Shown() == m.sync.Shown();
    match Hid.SendSysparam(m.device.value, ans.wire)
    case Acked => assert h.Turned(m, now, ans).acked == Some(m.sync.Shown());
    case NotAcked => assert m.Step(now, ans).sync.sendBackoff > m.sync.cfg.retryBase;
    case SendFailed =>
  }

  lemma CoherentConnect(m: Main, h: History, now: nat, ans: Answer)
    requires m.sync.Due(now) == Some(ConnectDevice)
    ensures Coherent(m.Step(now, ans).sync, h.Turned(m, now, ans).acked)
  {
    assert m.Step(now, ans) == m.(sync := m.sync.Fired(now)).Connect(ans);
  }

  lemma CoherentQuery(m: Main, h: History, now: nat, ans: Answer)
    requires m.Good() && m.sync.Due(now) == Some(PollLinkState) && Coherent(m.sync, h.acked)
    ensures Coherent(m.Step(now, ans).sync, h.Turned(m, now, ans).acked)
  {
    assert m.Step(now, ans) == m.(sync := m.sync.Fired(now)).QueryLink(now, ans);
  }

  lemma {:induction false} CoherentAlways(cfg: Config, t0: nat, ans: Answer, steps: seq<Step>)
    requires 0 < cfg.retryBase < cfg.retryMax
    ensures
      var sys := Reached(cfg, t0, ans, steps);
      Coherent(sys.main.sync, sys.history.acked)
  {
    if steps != [] {
      var most := steps[..|steps| - 1];
      CoherentAlways(cfg, t0, ans, most);
      SoundAlways(cfg, t0, ans, most);
      CoherentKept(Reached(cfg, t0, ans, most), steps[|steps| - 1], cfg);
    }
  }

  lemma CoherentKept(sys: System, step: Step, cfg: Config)
    requires Sound(sys, cfg) && Coherent(sys.main.sync, sys.history.acked) && 0 < cfg.retryBase < cfg.retryMax
    ensures Coherent(Next(sys, step).main.sync, Next(sys, step).history.acked)
  {
    hide Next, Main.Step, Main.Good, History.Turned, Sync.Due, MoveOf;
    SoundKept(sys, step, cfg);
    match MoveOf(sys, step)
    case Wait =>
    case Heard(event, at) =>
    case Acted(now, a) => hide Coherent; CoherentTurn(sys.main, sys.history, now, a);
  }

  ghost predicate CoherentInEveryRun(cfg: Config) {
    forall t0: nat, ans: Answer, steps: seq<Step> ::
      var sys := Reached(cfg, t0, ans, steps);
      Coherent(sys.main.sync, sys.history.acked)
  }

  /** Display coherence holds in every run exactly for the configurations whose backoff can grow. */
  lemma CoherentIffBackoffGrows(cfg: Config)
    ensures CoherentInEveryRun(cfg) <==> 0 < cfg.retryBase < cfg.retryMax
  {
    if 0 < cfg.retryBase < cfg.retryMax {
      forall t0: nat, ans: Answer, steps: seq<Step>
        ensures
          var sys := Reached(cfg, t0, ans, steps);
          Coherent(sys.main.sync, sys.history.acked)
      {
        CoherentAlways(cfg, t0, ans, steps);
      }
    } else {
      IncoherentWithoutGrowth(cfg);
    }
  }

  /** Otherwise one unanswered first send is forgotten. */
  lemma IncoherentWithoutGrowth(cfg: Config)
    requires !(0 < cfg.retryBase < cfg.retryMax)
    ensures !CoherentInEveryRun(cfg)
  {
    var before := FirstSend(cfg);
    var sys := Turned(before, cfg, SILENT);
    assert sys.main == before.main.(sync := before.main.sync.Fired(0)).Send(0, SILENT);
    assert sys.history.acked == None && !Coherent(sys.main.sync, sys.history.acked);
    hide Coherent, Next, Begin;
    var t0: nat, ans: Answer, steps: seq<Step> :| Reached(cfg, t0, ans, steps) == sys;
  }
}
