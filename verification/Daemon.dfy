/** The daemon of src/daemon.rs as an object over its own `SyncState`: the same branches in the same
    order, each method tied to the value-level loop. */
module DaemonModel {
  import opened Base
  import opened SyncSpec
  import opened SyncStateModel
  import opened MainLoop
  import opened EventLoop
  import Hid

  class Daemon {
    const state: SyncState
    var device: Option<Hid.Protocol>
    var handle: bool
    var keyboardAwake: bool
    var clock: nat
    var queue: seq<Event>
    /** The actions performed so far, oldest first. */
    var log: seq<Action>

    ghost function View(): Main
      reads this, state
    {
      Main(state.View(), device, handle, keyboardAwake, clock)
    }

    ghost predicate Valid()
      reads this, state
    {
      state.Valid()
    }

    /** Lines 25-42: the state machine, the first connect and the first monitor. */
    constructor (config: Config, now: nat, ans: Answer)
      ensures fresh(state) && Valid() && View().Good()
      ensures View() == Start(config, now, ans)
      ensures queue == [] && log == []
    {
      state := new SyncState(config, now);
      device := None;
      handle := false;
      keyboardAwake := true;
      clock := now;
      queue := [];
      log := [];
      new;
      TryConnectDevice(ans);
      TrySpawnPulse();
      StartIsGood(config, now, ans);
    }

    method TryConnectDevice(ans: Answer)
      requires Valid()
      modifies this`device, this`keyboardAwake, this`clock, state
      ensures Valid() && View() == old(View()).Connect(ans)
    {
      clock := clock + ans.searchTime;
      match ans.found
      case Some(protocol) =>
        var now := clock;
        state.OnDeviceConnected(now);
        keyboardAwake := true;
        var link := Hid.LinkState(protocol, ans.wire);
        clock := clock + ans.wireTime;
        if link != Hid.LinkFailed {
          state.OnLinkState(now, link == Hid.LinkUp);
          if link == Hid.LinkDown {
            keyboardAwake := false;
          }
        }
        device := Some(protocol);
      case None =>
        state.OnDeviceLost(clock);
    }

    method TrySpawnPulse()
      requires Valid()
      modifies this`handle, state
      ensures Valid() && View() == old(View()).SpawnPulse()
    {
      handle := true;
      state.OnPulseConnected();
    }

    method Send(now: nat, ans: Answer)
      requires Valid()
      modifies this`device, this`keyboardAwake, this`clock, state
      ensures Valid() && View() == old(View()).Send(now, ans)
    {
      match device
      case None =>
      case Some(protocol) =>
        clock := clock + ans.wireTime;
        match Hid.SendSysparam(protocol, ans.wire)
        case Acked =>
          if !keyboardAwake {
            keyboardAwake := true;
          }
          state.OnSendOk(now);
        case NotAcked =>
          var _ := state.OnSendNoAck(now);
          if keyboardAwake {
            keyboardAwake := false;
          }
        case SendFailed =>
          state.OnDeviceLost(now);
          device := None;
    }

    method QueryLink(now: nat, ans: Answer)
      requires Valid()
      modifies this`device, this`clock, state
      ensures Valid() && View() == old(View()).QueryLink(now, ans)
    {
      match device
      case None =>
      case Some(protocol) =>
        clock := clock + ans.wireTime;
        var link := Hid.LinkState(protocol, ans.wire);
        if link != Hid.LinkFailed {
          state.OnLinkState(now, link == Hid.LinkUp);
        } else {
          state.OnDeviceLost(now);
          device := None;
        }
    }

    method Perform(action: Action, now: nat, ans: Answer)
      requires Valid()
      modifies this`device, this`handle, this`keyboardAwake, this`clock, this`log, state
      ensures Valid() && View() == old(View()).Perform(action, now, ans)
      ensures log == old(log) + [action]
    {
      log := log + [action];
      match action
      case SendSysparam(_) => Send(now, ans);
      case ConnectDevice => TryConnectDevice(ans);
      case SpawnPulseMonitor => TrySpawnPulse();
      case PollLinkState => QueryLink(now, ans);
    }

    /** The inner loop, lines 63-126.  It ends whatever the answers are, after at most three actions. */
    method DrainActions(answers: nat -> Answer)
      requires Valid() && View().Good() && state.config.Positive()
      modifies this`device, this`handle, this`keyboardAwake, this`clock, this`log, state
      ensures Valid() && View().Good() && View().sync.Due(old(clock)).None?
      ensures
        var d := Drain(old(View()), old(clock), answers, 0);
        View() == d.main && log == old(log) + d.log && |d.log| <= 3
    {
      hide Drain, Main.Perform, Sync.Due, Sync.Fired, Main.Good, Sync.Valid;
      var now := clock;
      ghost var start := View();
      DrainIsShort(start, now, answers, 0);
      var k := 0;
      ghost var before := View();
      var action := state.Poll(now);
      while action.Some?
        invariant Valid() && before.Good() && now <= before.clock && before.sync.cfg == state.config
        invariant action == before.sync.Due(now) && View() == before.(sync := before.sync.Fired(now))
        invariant Drain(start, now, answers, 0).main == Drain(before, now, answers, k).main
        invariant old(log) + Drain(start, now, answers, 0).log == log + Drain(before, now, answers, k).log
        decreases Left(before.sync, now)
      {
        DrainUnfolds(before, now, answers, k);
        Perform(action.value, now, answers(k));
        before := View();
        k := k + 1;
        action := state.Poll(now);
      }
      DrainStops(before, now, answers, k);
    }

    /** The outer loop, for any script of what it meets: the whole of lines 44-127. */
    method WatchLoop(turns: seq<Turn>) returns (running: bool)
      requires Valid() && View().Good() && state.config.Positive()
      modifies this`device, this`handle, this`keyboardAwake, this`clock, this`log, this`queue, state
      ensures Valid() && View().Good()
      ensures Loop(View(), queue, running, log) == Run(old(Loop(View(), queue, true, log)), turns)
    {
      running := true;
      ghost var start := Loop(View(), queue, true, log);
      for i := 0 to |turns|
        invariant Valid() && View().Good() && state.config.Positive()
        invariant Loop(View(), queue, running, log) == Run(start, turns[..i])
      {
        assert turns[..i + 1][..i] == turns[..i];
        if running {
          running := OneTurn(turns[i]);
        }
      }
      assert turns[..|turns|] == turns;
    }

    /** One turn of the outer loop. */
    method OneTurn(turn: Turn) returns (running: bool)
      requires Valid() && View().Good() && state.config.Positive()
      modifies this`device, this`handle, this`keyboardAwake, this`clock, this`log, this`queue, state
      ensures Valid() && View().Good()
      ensures Loop(View(), queue, running, log) == Iterate(old(Loop(View(), queue, true, log)), turn)
    {
      hide Drain, Received, Main.Good, Sync.Valid;
      ghost var before := Loop(View(), queue, true, log);
      ReceivedKeepsGood(before, turn);
      running := Await(turn);
      if running {
        DrainActions(turn.answers);
      }
    }

    /** The wait and the one event it may bring, lines 45-60. */
    method Await(turn: Turn) returns (running: bool)
      requires Valid()
      modifies this`handle, this`clock, this`queue, state
      ensures Valid()
      ensures Loop(View(), queue, running, log) == Received(old(Loop(View(), queue, true, log)), turn)
    {
      hide Sync.Deadline, Sync.Due, Sync.Valid;
      running := true;
      queue := queue + turn.arrivals;
      var head := clock + turn.lead;
      var timeout := state.NextDeadline(head);
      if queue == [] {
        clock := head + timeout + turn.slack;
      } else {
        var event := queue[0];
        queue := queue[1..];
        clock := head + turn.slack;
        match event
        case VolumeChanged(vol) =>
          state.OnVolumeChanged(vol, clock);
        case PulseDisconnected =>
          state.OnPulseLost(clock);
          handle := false;
        case Shutdown =>
          running := false;
      }
      clock := clock + turn.pause;
    }
  }
}
