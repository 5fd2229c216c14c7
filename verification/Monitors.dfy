/** What crosses the channel: one monitor at a time, and the volume it last reported is the volume the
    daemon will know once it has read its queue. */
module Monitors {
  import opened Base
  import opened SyncSpec
  import opened MainLoop
  import opened System
  import Hid

  // ---------------------------------------------------------------- conservation

  function Disconnects(queue: seq<Event>): nat {
    multiset(queue)[PulseDisconnected]
  }

  /** Monitors alive, disconnects waiting to be read, and the scheduled respawn. */
  function Tokens(sys: System): nat {
    |sys.live| + Disconnects(sys.queue) + (if sys.main.sync.pulseAt.Some? then 1 else 0)
  }

  predicate OneToken(sys: System) {
    if sys.ShuttingDown() then Tokens(sys) <= 1 else Tokens(sys) == 1
  }

  lemma DisconnectsAppend(queue: seq<Event>, event: Event)
    ensures Disconnects(queue + [event]) == Disconnects(queue) + (if event.PulseDisconnected? then 1 else 0)
  {
  }

  lemma DisconnectsPop(queue: seq<Event>)
    requires queue != []
    ensures Disconnects(queue) == (if queue[0].PulseDisconnected? then 1 else 0) + Disconnects(queue[1..])
  {
    assert queue == [queue[0]] + queue[1..];
  }

  /** In the main thread only a spawn takes the scheduled respawn away, and nothing it does in a drain
      touches the volume it knows. */
  lemma TurnAndPulse(m: Main, now: nat, ans: Answer)
    ensures m.Step(now, ans).sync.pulseAt ==
      if m.sync.Due(now) == Some(SpawnPulseMonitor) then None else m.sync.pulseAt
    ensures m.sync.Due(now) == Some(SpawnPulseMonitor) ==> m.sync.pulseAt.Some?
    ensures m.Step(now, ans).sync.lastVol == m.sync.lastVol
  {
    var f := m.(sync := m.sync.Fired(now));
    if m.sync.Due(now).Some? {
      match m.sync.Due(now).value
      case SendSysparam(_) => assert m.Step(now, ans) == f.Send(now, ans);
      case ConnectDevice => assert m.Step(now, ans) == f.Connect(ans);
      case SpawnPulseMonitor => assert m.Step(now, ans) == f.SpawnPulse();
      case PollLinkState => assert m.Step(now, ans) == f.QueryLink(now, ans);
    }
  }

  lemma OneTokenMainThread(sys: System, step: Step)
    requires OneToken(sys) && (step.Receive? || step.TimeOut? || step.Turn?)
    ensures OneToken(Next(sys, step))
  {
    hide Main.Step, History.Turned, Sync.Due, Sync.Deadline, Sync.Masked, Disconnects;
    match step
    case Receive(_, _, _) => if sys.queue != [] { DisconnectsPop(sys.queue); }
    case TimeOut(_, _) =>
    case Turn(ans) => if sys.pc.Draining? { TurnAndPulse(sys.main, sys.pc.now, ans); }
  }

  lemma OneTokenOtherThreads(sys: System, step: Step)
    requires OneToken(sys) && !(step.Receive? || step.TimeOut? || step.Turn?)
    ensures OneToken(Next(sys, step))
  {
    hide Disconnects;
    match step
    case MonitorReady(i, initial) => if initial.Some? { DisconnectsAppend(sys.queue, VolumeChanged(initial.value)); }
    case MonitorSaw(i, vol) => DisconnectsAppend(sys.queue, VolumeChanged(vol));
    case MonitorFails(i) => DisconnectsAppend(sys.queue, PulseDisconnected);
    case MonitorStops(i) =>
    case RaiseFlag =>
    case SendShutdown => DisconnectsAppend(sys.queue, Shutdown);
  }

  lemma OneTokenKept(sys: System, step: Step)
    requires OneToken(sys)
    ensures OneToken(Next(sys, step))
  {
    hide Next, OneToken;
    if step.Receive? || step.TimeOut? || step.Turn? {
      OneTokenMainThread(sys, step);
    } else {
      OneTokenOtherThreads(sys, step);
    }
  }

  /** Token conservation: before shutdown exactly one of a live monitor, a disconnect on its way and a
      scheduled respawn exists, afterwards at most one. */
  lemma {:induction false} TokensConserved(cfg: Config, t0: nat, ans: Answer, steps: seq<Step>)
    ensures OneToken(Reached(cfg, t0, ans, steps))
  {
    if steps != [] {
      var most := steps[..|steps| - 1];
      TokensConserved(cfg, t0, ans, most);
      OneTokenKept(Reached(cfg, t0, ans, most), steps[|steps| - 1]);
    }
  }

  /** Two monitors never feed the channel at once, and a monitor never starts while the goodbye of the
      one before it is still unread. */
  lemma OneMonitorAtATime(cfg: Config, t0: nat, ans: Answer, steps: seq<Step>)
    ensures
      var sys := Reached(cfg, t0, ans, steps);
      && |sys.live| <= 1
      && (sys.live != [] ==> PulseDisconnected !in sys.queue && sys.main.sync.pulseAt.None?)
  {
    TokensConserved(cfg, t0, ans, steps);
  }

  // ---------------------------------------------------------------- the volume on its way

  /** What `lastVol` becomes when the queued events are handled in order. */
  function LastHeard(lastVol: Option<Byte>, queue: seq<Event>): Option<Byte>
    decreases |queue|
  {
    if queue == [] then lastVol
    else LastHeard(if queue[0].VolumeChanged? then Some(queue[0].vol) else lastVol, queue[1..])
  }

  function HandleAll(m: Main, queue: seq<Event>, at: nat): Main
    decreases |queue|
  {
    if queue == [] then m else HandleAll(m.Handle(queue[0], at), queue[1..], at)
  }

  lemma {:induction false} HandlingGivesLastHeard(m: Main, queue: seq<Event>, at: nat)
    ensures HandleAll(m, queue, at).sync.lastVol == LastHeard(m.sync.lastVol, queue)
    decreases |queue|
  {
    if queue != [] {
      HandlingGivesLastHeard(m.Handle(queue[0], at), queue[1..], at);
    }
  }

  lemma {:induction false} LastHeardAppend(lastVol: Option<Byte>, queue: seq<Event>, event: Event)
    ensures LastHeard(lastVol, queue + [event]) ==
      if event.VolumeChanged? then Some(event.vol) else LastHeard(lastVol, queue)
    decreases |queue|
  {
    if queue == [] {
      assert (queue + [event])[1..] == [];
    } else {
      assert (queue + [event])[1..] == queue[1..] + [event];
      LastHeardAppend(if queue[0].VolumeChanged? then Some(queue[0].vol) else lastVol, queue[1..], event);
    }
  }

  predicate VolumeOnItsWay(sys: System) {
    forall i :: 0 <= i < |sys.live| && sys.live[i].lastVol.Some? ==>
      LastHeard(sys.main.sync.lastVol, sys.queue) == sys.live[i].lastVol
  }

  lemma VolumeOnItsWayMainThread(sys: System, step: Step)
    requires |sys.live| <= 1 && VolumeOnItsWay(sys) && (step.Receive? || step.TimeOut? || step.Turn?)
    ensures VolumeOnItsWay(Next(sys, step))
  {
    hide Main.Step, History.Turned, Sync.Due, Sync.Deadline, Sync.Masked;
    if step.Turn? && sys.pc.Draining? {
      hide LastHeard;
      TurnAndPulse(sys.main, sys.pc.now, step.answer);
    }
  }

  lemma VolumeOnItsWayOtherThreads(sys: System, step: Step)
    requires |sys.live| <= 1 && VolumeOnItsWay(sys) && !(step.Receive? || step.TimeOut? || step.Turn?)
    ensures VolumeOnItsWay(Next(sys, step))
  {
    hide LastHeard;
    match step
    case MonitorReady(i, initial) =>
      if initial.Some? { LastHeardAppend(sys.main.sync.lastVol, sys.queue, VolumeChanged(initial.value)); }
    case MonitorSaw(i, vol) => LastHeardAppend(sys.main.sync.lastVol, sys.queue, VolumeChanged(vol));
    case MonitorFails(i) => LastHeardAppend(sys.main.sync.lastVol, sys.queue, PulseDisconnected);
    case MonitorStops(i) =>
    case RaiseFlag =>
    case SendShutdown => LastHeardAppend(sys.main.sync.lastVol, sys.queue, Shutdown);
  }

  lemma VolumeOnItsWayKept(sys: System, step: Step)
    requires |sys.live| <= 1 && VolumeOnItsWay(sys)
    ensures VolumeOnItsWay(Next(sys, step))
  {
    hide Next, VolumeOnItsWay;
    if step.Receive? || step.TimeOut? || step.Turn? {
      VolumeOnItsWayMainThread(sys, step);
    } else {
      VolumeOnItsWayOtherThreads(sys, step);
    }
  }

  lemma {:induction false} VolumeOnItsWayAlways(cfg: Config, t0: nat, ans: Answer, steps: seq<Step>)
    ensures VolumeOnItsWay(Reached(cfg, t0, ans, steps))
  {
    if steps != [] {
      var most := steps[..|steps| - 1];
      VolumeOnItsWayAlways(cfg, t0, ans, most);
      TokensConserved(cfg, t0, ans, most);
      VolumeOnItsWayKept(Reached(cfg, t0, ans, most), steps[|steps| - 1]);
    }
  }

  /** Channel coherence: whatever a live monitor last saw is what the daemon knows once it has handled
      its queue, through every death and respawn of monitors. */
  lemma QueueDeliversTheVolume(cfg: Config, t0: nat, ans: Answer, steps: seq<Step>, i: nat, at: nat)
    requires i < |Reached(cfg, t0, ans, steps).live|
    requires Reached(cfg, t0, ans, steps).live[i].lastVol.Some?
    ensures
      var sys := Reached(cfg, t0, ans, steps);
      HandleAll(sys.main, sys.queue, at).sync.lastVol == sys.live[i].lastVol
  {
    var sys := Reached(cfg, t0, ans, steps);
    VolumeOnItsWayAlways(cfg, t0, ans, steps);
    HandlingGivesLastHeard(sys.main, sys.queue, at);
  }

  // ---------------------------------------------------------------- handles and shutdown

  lemma TurnAndHandle(m: Main, now: nat, ans: Answer)
    ensures m.Step(now, ans).handle == (m.handle || m.sync.Due(now) == Some(SpawnPulseMonitor))
  {
    hide Hid.SendSysparam, Hid.LinkState;
  }

  /** The thread handle is held exactly while no respawn is scheduled. */
  lemma {:induction false} HandleHeldUnlessRespawning(cfg: Config, t0: nat, ans: Answer, steps: seq<Step>)
    ensures
      var m := Reached(cfg, t0, ans, steps).main;
      m.handle <==> m.sync.pulseAt.None?
  {
    if steps != [] {
      var most := steps[..|steps| - 1];
      var sys := Reached(cfg, t0, ans, most);
      HandleHeldUnlessRespawning(cfg, t0, ans, most);
      HandleKept(sys, steps[|steps| - 1]);
    }
  }

  lemma HandleKept(sys: System, step: Step)
    requires sys.main.handle <==> sys.main.sync.pulseAt.None?
    ensures Next(sys, step).main.handle <==> Next(sys, step).main.sync.pulseAt.None?
  {
    hide Main.Step, History.Turned, Sync.Due, Sync.Deadline, Sync.Masked;
    if step.Turn? && sys.pc.Draining? {
      TurnAndPulse(sys.main, sys.pc.now, step.answer);
      TurnAndHandle(sys.main, sys.pc.now, step.answer);
    }
  }

  function Shutdowns(queue: seq<Event>): nat {
    multiset(queue)[Shutdown]
  }

  lemma ShutdownsPop(queue: seq<Event>)
    requires queue != []
    ensures Shutdowns(queue) == (if queue[0].Shutdown? then 1 else 0) + Shutdowns(queue[1..])
  {
    assert queue == [queue[0]] + queue[1..];
  }

  /** The request to stop is sent once and is either waiting in the queue or has ended the loop. */
  predicate ShutdownOnItsWay(sys: System) {
    Shutdowns(sys.queue) + (if sys.pc.Exited? then 1 else 0) == (if sys.signal.Notified? then 1 else 0)
  }

  lemma ShutdownKept(sys: System, step: Step)
    requires ShutdownOnItsWay(sys)
    ensures ShutdownOnItsWay(Next(sys, step))
  {
    hide Main.Step, Main.Handle, History.Turned, Sync.Due, Sync.Deadline, Sync.Masked;
    if step.Receive? && sys.queue != [] { ShutdownsPop(sys.queue); }
  }

  /** The loop ends only after the signal, the signal's event is never lost, and a monitor that is still
      alive then is one whose handle the daemon joins. */
  lemma {:induction false} EndsOnSignal(cfg: Config, t0: nat, ans: Answer, steps: seq<Step>)
    ensures ShutdownOnItsWay(Reached(cfg, t0, ans, steps))
    ensures Reached(cfg, t0, ans, steps).pc.Exited? ==> Reached(cfg, t0, ans, steps).signal.Notified?
    ensures Reached(cfg, t0, ans, steps).live != [] ==> Reached(cfg, t0, ans, steps).main.handle
  {
    if steps != [] {
      var most := steps[..|steps| - 1];
      EndsOnSignal(cfg, t0, ans, most);
      ShutdownKept(Reached(cfg, t0, ans, most), steps[|steps| - 1]);
    }
    OneMonitorAtATime(cfg, t0, ans, steps);
    HandleHeldUnlessRespawning(cfg, t0, ans, steps);
  }
}
