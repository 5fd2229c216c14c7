/** The main thread of src/daemon.rs as a value: what each action does to the daemon given how the
    environment answers, the inner drain, and one turn of the event loop. */
module MainLoop {
  import opened Base
  import opened SyncSpec
  import Hid

  datatype Event = VolumeChanged(vol: Byte) | PulseDisconnected | Shutdown

  /** How the environment answers one action: the device found by a connect and how long the search
      took, and what the wire did and how long it took.  An action reads only what concerns it. */
  datatype Answer = Answer(found: Option<Hid.Protocol>, searchTime: nat, wire: Hid.Wire, wireTime: nat)

  /** The daemon's own variables; `clock` is the latest reading of its clock. */
  datatype Main = Main(sync: Sync, device: Option<Hid.Protocol>, handle: bool, awake: bool, clock: nat)
  {
    predicate OnCable() {
      device.Some? && device.value.UsbCable?
    }

    /** What holds at the head of the inner loop: the device slot is filled exactly when no
        reconnect is scheduled, and a cable's link is never down. */
    predicate Good() {
      && sync.Valid()
      && (device.Some? <==> sync.deviceAt.None?)
      && (OnCable() ==> sync.linkUp)
    }

    function Send(now: nat, ans: Answer): Main {
      if device.None? then this
      else
        var done := this.(clock := clock + ans.wireTime);
        match Hid.SendSysparam(device.value, ans.wire)
        case Acked => done.(sync := sync.OnSendOk(now), awake := true)
        case NotAcked => done.(sync := sync.OnSendNoAck(now), awake := false)
        case SendFailed => done.(sync := sync.OnDeviceLost(now), device := None)
    }

    function QueryLink(now: nat, ans: Answer): Main {
      if device.None? then this
      else
        var done := this.(clock := clock + ans.wireTime);
        match Hid.LinkState(device.value, ans.wire)
        case LinkUp => done.(sync := sync.OnLinkState(now, true))
        case LinkDown => done.(sync := sync.OnLinkState(now, false))
        case LinkFailed => done.(sync := sync.OnDeviceLost(now), device := None)
    }

    /** Reads the clock again after the search, unlike every other action. */
    function Connect(ans: Answer): Main {
      var at := clock + ans.searchTime;
      match ans.found
      case None => this.(sync := sync.OnDeviceLost(at), clock := at)
      case Some(protocol) =>
        var up := sync.OnDeviceConnected(at);
        var link := Hid.LinkState(protocol, ans.wire);
        this.(
          sync := if link.LinkFailed? then up else up.OnLinkState(at, link.LinkUp?),
          device := ans.found,
          awake := !link.LinkDown?,
          clock := at + ans.wireTime)
    }

    function SpawnPulse(): Main {
      this.(handle := true, sync := sync.OnPulseConnected())
    }

    function Perform(action: Action, now: nat, ans: Answer): Main {
      match action
      case SendSysparam(_) => Send(now, ans)
      case ConnectDevice => Connect(ans)
      case SpawnPulseMonitor => SpawnPulse()
      case PollLinkState => QueryLink(now, ans)
    }

    /** One turn of the inner loop at the frozen time `now`. */
    function Step(now: nat, ans: Answer): Main {
      match sync.Due(now)
      case None => this
      case Some(action) => this.(sync := sync.Fired(now)).Perform(action, now, ans)
    }

    function Handle(event: Event, at: nat): Main {
      match event
      case VolumeChanged(vol) => this.(sync := sync.OnVolumeChanged(vol, at), clock := at)
      case PulseDisconnected => this.(sync := sync.OnPulseLost(at), handle := false, clock := at)
      case Shutdown => this.(clock := at)
    }
  }

  /** The daemon before its event loop: a new state machine, one connect, one monitor. */
  function Start(cfg: Config, now: nat, ans: Answer): Main {
    Main(Initial(cfg, now), None, false, true, now).Connect(ans).SpawnPulse()
  }

  lemma StartIsGood(cfg: Config, now: nat, ans: Answer)
    ensures Start(cfg, now, ans).Good()
  {
  }

  lemma SendKeepsGood(m: Main, now: nat, ans: Answer)
    requires m.Good()
    ensures m.Send(now, ans).Good()
    ensures m.Send(now, ans).sync.cfg == m.sync.cfg && m.clock <= m.Send(now, ans).clock
  {
  }

  lemma QueryKeepsGood(m: Main, now: nat, ans: Answer)
    requires m.Good()
    ensures m.QueryLink(now, ans).Good()
    ensures m.QueryLink(now, ans).sync.cfg == m.sync.cfg && m.clock <= m.QueryLink(now, ans).clock
  {
  }

  lemma ConnectKeepsGood(m: Main, ans: Answer)
    requires m.sync.Valid()
    ensures m.device.None? ==> m.Connect(ans).Good()
    ensures m.Connect(ans).sync.cfg == m.sync.cfg && m.clock <= m.Connect(ans).clock
  {
  }

  lemma StepKeepsGood(m: Main, now: nat, ans: Answer)
    requires m.Good()
    ensures m.Step(now, ans).Good()
    ensures m.Step(now, ans).sync.cfg == m.sync.cfg
    ensures m.clock <= m.Step(now, ans).clock
  {
    if m.sync.Due(now).Some? {
      var f := m.(sync := m.sync.Fired(now));
      assert f.sync.Valid();
      hide Main.Send, Main.Connect, Main.QueryLink;
      match m.sync.Due(now).value
      case SendSysparam(_) => SendKeepsGood(f, now, ans);
      case ConnectDevice => ConnectKeepsGood(f, ans);
      case SpawnPulseMonitor =>
      case PollLinkState => QueryKeepsGood(f, now, ans);
    }
  }

  lemma HandleKeepsGood(m: Main, event: Event, at: nat)
    requires m.Good()
    ensures m.Handle(event, at).Good()
    ensures m.Handle(event, at).sync.cfg == m.sync.cfg
  {
  }

  /** The guards around a send and a link query never drop one, and a daemon on a cable never asks
      for the link. */
  lemma NoActionIsDropped(m: Main, now: nat)
    requires m.Good() && m.sync.Due(now).Some?
    ensures m.sync.Due(now).value.SendSysparam? ==> m.device.Some?
    ensures m.sync.Due(now).value.PollLinkState? ==> m.device.Some? && m.device.value.Dongle?
  {
  }

  // ---------------------------------------------------------------- the inner loop

  /** How many ranks are still open at `now`; it falls with every action. */
  function Left(s: Sync, now: nat): nat {
    if s.Due(now).None? then 0 else 4 - s.Due(now).value.Rank()
  }

  lemma NothingAfterSend(m: Main, now: nat, ans: Answer)
    requires m.Good() && now <= m.clock && m.sync.cfg.Positive()
    requires m.sync.Due(now).Some? && m.sync.Due(now).value.SendSysparam?
    ensures m.Step(now, ans).sync.Due(now).None?
  {
    var f := m.(sync := m.sync.Fired(now));
    assert m.Step(now, ans) == f.Send(now, ans);
    assert !Elapsed(f.sync.pulseAt, now) && f.sync.linkUp && f.device.Some?;
  }

  lemma SendAfterQuery(m: Main, now: nat, ans: Answer)
    requires m.Good() && now <= m.clock && m.sync.cfg.Positive()
    requires m.sync.Due(now) == Some(PollLinkState)
    ensures var next := m.Step(now, ans).sync.Due(now); next.Some? ==> next.value.SendSysparam?
  {
    var f := m.(sync := m.sync.Fired(now));
    assert m.Step(now, ans) == f.QueryLink(now, ans);
    assert !Elapsed(f.sync.pulseAt, now) && f.sync.statusAt == Some(now + f.sync.cfg.statusPoll);
  }

  lemma SpawnOrSendAfterConnect(m: Main, now: nat, ans: Answer)
    requires m.Good() && now <= m.clock && m.sync.cfg.Positive()
    requires m.sync.Due(now) == Some(ConnectDevice)
    ensures
      var next := m.Step(now, ans).sync.Due(now);
      next.Some? ==> next.value.SpawnPulseMonitor? || next.value.SendSysparam?
    ensures m.Step(now, ans).device.Some? ==> !Elapsed(m.Step(now, ans).sync.statusAt, now)
    ensures m.Step(now, ans).device.None? ==> m.Step(now, ans).sync.Due(now).None?
  {
    var f := m.(sync := m.sync.Fired(now));
    assert m.Step(now, ans) == f.Connect(ans);
  }

  lemma QueryOrSendAfterSpawn(m: Main, now: nat, ans: Answer)
    requires m.Good() && m.sync.Due(now) == Some(SpawnPulseMonitor)
    ensures
      var next := m.Step(now, ans).sync.Due(now);
      next.Some? ==> next.value.PollLinkState? || next.value.SendSysparam?
    ensures m.Step(now, ans).sync.statusAt == m.sync.statusAt
  {
  }

  /** After an action only later ones can follow at the same `now`. */
  lemma ActionsOnlyMoveOn(m: Main, now: nat, ans: Answer)
    requires m.Good() && now <= m.clock && m.sync.cfg.Positive() && m.sync.Due(now).Some?
    ensures
      var next := m.Step(now, ans).sync.Due(now);
      next.Some? ==> m.sync.Due(now).value.Rank() < next.value.Rank()
  {
    match m.sync.Due(now).value
    case SendSysparam(_) => NothingAfterSend(m, now, ans);
    case ConnectDevice => SpawnOrSendAfterConnect(m, now, ans);
    case SpawnPulseMonitor => QueryOrSendAfterSpawn(m, now, ans);
    case PollLinkState => SendAfterQuery(m, now, ans);
  }

  datatype Drained = Drained(main: Main, log: seq<Action>)

  /** The inner loop: hand out and perform actions until none is owed.  The k-th action is answered
      by `answers(k)`. */
  function Drain(m: Main, now: nat, answers: nat -> Answer, k: nat): (r: Drained)
    requires m.Good() && now <= m.clock && m.sync.cfg.Positive()
    ensures r.main.Good() && m.clock <= r.main.clock && r.main.sync.cfg == m.sync.cfg
    ensures r.main.sync.Due(now).None?
    decreases Left(m.sync, now)
  {
    match m.sync.Due(now)
    case None => Drained(m, [])
    case Some(action) =>
      StepKeepsGood(m, now, answers(k));
      ActionsOnlyMoveOn(m, now, answers(k));
      var rest := Drain(m.Step(now, answers(k)), now, answers, k + 1);
      Drained(rest.main, [action] + rest.log)
  }

  /** One turn of the inner loop and the rest of the drain. */
  lemma DrainUnfolds(m: Main, now: nat, answers: nat -> Answer, k: nat)
    requires m.Good() && now <= m.clock && m.sync.cfg.Positive() && m.sync.Due(now).Some?
    ensures
      var action := m.sync.Due(now).value;
      var next := m.(sync := m.sync.Fired(now)).Perform(action, now, answers(k));
      && next == m.Step(now, answers(k))
      && next.Good() && next.sync.cfg == m.sync.cfg && now <= next.clock && Left(next.sync, now) < Left(m.sync, now)
      && Drain(m, now, answers, k).main == Drain(next, now, answers, k + 1).main
      && Drain(m, now, answers, k).log == [action] + Drain(next, now, answers, k + 1).log
  {
    ActionsOnlyMoveOn(m, now, answers(k));
    StepKeepsGood(m, now, answers(k));
  }

  lemma DrainStops(m: Main, now: nat, answers: nat -> Answer, k: nat)
    requires m.Good() && now <= m.clock && m.sync.cfg.Positive() && m.sync.Due(now).None?
    ensures m.(sync := m.sync.Fired(now)) == m && Drain(m, now, answers, k) == Drained(m, [])
  {
  }

  ghost predicate InRankOrder(log: seq<Action>) {
    forall i, j :: 0 <= i < j < |log| ==> log[i].Rank() < log[j].Rank()
  }

  lemma {:induction false} DrainInRankOrder(m: Main, now: nat, answers: nat -> Answer, k: nat)
    requires m.Good() && now <= m.clock && m.sync.cfg.Positive()
    ensures InRankOrder(Drain(m, now, answers, k).log)
    ensures m.sync.Due(now).None? <==> Drain(m, now, answers, k).log == []
    ensures m.sync.Due(now).Some? ==> Drain(m, now, answers, k).log[0] == m.sync.Due(now).value
    decreases Left(m.sync, now)
  {
    if m.sync.Due(now).Some? {
      StepKeepsGood(m, now, answers(k));
      ActionsOnlyMoveOn(m, now, answers(k));
      DrainInRankOrder(m.Step(now, answers(k)), now, answers, k + 1);
    }
  }

  lemma {:induction false} NoQueryUntilTimer(m: Main, now: nat, answers: nat -> Answer, k: nat)
    requires m.Good() && now <= m.clock && m.sync.cfg.Positive()
    requires m.device.Some? && !Elapsed(m.sync.statusAt, now)
    ensures PollLinkState !in Drain(m, now, answers, k).log
    decreases Left(m.sync, now)
  {
    if m.sync.Due(now).Some? {
      var next := m.Step(now, answers(k));
      StepKeepsGood(m, now, answers(k));
      ActionsOnlyMoveOn(m, now, answers(k));
      if m.sync.Due(now).value.SendSysparam? {
        NothingAfterSend(m, now, answers(k));
      } else {
        QueryOrSendAfterSpawn(m, now, answers(k));
        NoQueryUntilTimer(next, now, answers, k + 1);
      }
    }
  }

  /** A drain performs at most three actions, at most one of each kind, and never asks for the link
      after a connect. */
  lemma DrainIsShort(m: Main, now: nat, answers: nat -> Answer, k: nat)
    requires m.Good() && now <= m.clock && m.sync.cfg.Positive()
    ensures
      var log := Drain(m, now, answers, k).log;
      && |log| <= 3
      && InRankOrder(log)
      && !(ConnectDevice in log && PollLinkState in log)
  {
    var log := Drain(m, now, answers, k).log;
    DrainInRankOrder(m, now, answers, k);
    if ConnectDevice in log {
      var i :| 0 <= i < |log| && log[i] == ConnectDevice;
      assert i > 0 ==> log[0].Rank() < log[i].Rank();
      var next := m.Step(now, answers(k));
      StepKeepsGood(m, now, answers(k));
      SpawnOrSendAfterConnect(m, now, answers(k));
      ActionsOnlyMoveOn(m, now, answers(k));
      if next.device.Some? {
        NoQueryUntilTimer(next, now, answers, k + 1);
        assert log == [ConnectDevice] + Drain(next, now, answers, k + 1).log;
      } else {
        assert Drain(next, now, answers, k + 1).log == [];
      }
    }
    ShortOrAllKinds(log);
  }

  lemma ShortOrAllKinds(log: seq<Action>)
    requires InRankOrder(log)
    ensures |log| <= 3 || (ConnectDevice in log && PollLinkState in log)
  {
    if |log| >= 4 {
      assert log[0].Rank() < log[1].Rank() < log[2].Rank() < log[3].Rank();
      assert log[0] == ConnectDevice && log[2] == PollLinkState;
    }
  }

  // ---------------------------------------------------------------- when the inner loop ends

  function Always(ans: Answer): nat -> Answer {
    _ => ans
  }

  /** `turns` turns of the inner loop, whether or not an action is owed. */
  function Turns(m: Main, now: nat, answers: nat -> Answer, turns: nat): Main {
    if turns == 0 then m
    else Turns(m, now, answers, turns - 1).Step(now, answers(turns - 1))
  }

  lemma {:induction false} FourTurnsAreEnough(m: Main, now: nat, answers: nat -> Answer, turns: nat)
    requires m.Good() && now <= m.clock && m.sync.cfg.Positive()
    ensures
      var t := Turns(m, now, answers, turns);
      && t.Good() && now <= t.clock && t.sync.cfg == m.sync.cfg
      && (t.sync.Due(now).Some? ==> turns <= t.sync.Due(now).value.Rank())
  {
    if turns > 0 {
      var t := Turns(m, now, answers, turns - 1);
      FourTurnsAreEnough(m, now, answers, turns - 1);
      StepKeepsGood(t, now, answers(turns - 1));
      if t.sync.Due(now).Some? {
        ActionsOnlyMoveOn(t, now, answers(turns - 1));
      }
    }
  }
}
