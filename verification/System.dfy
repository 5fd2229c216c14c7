/** The whole daemon as interleaved steps: the main thread's waits and drain turns, the PulseAudio
    monitors that feed its queue, the signal thread.  A step that is not possible changes nothing, so
    every sequence of steps is a run. */
module System {
  import opened Base
  import opened SyncSpec
  import opened MainLoop
  import Hid

  /** A monitor thread that has not said goodbye yet. */
  datatype Monitor = Monitor(connected: bool, lastVol: Option<Byte>)

  datatype Pc = Head | Draining(now: nat) | Exited

  datatype Signal = Waiting | FlagSet | Notified

  /** What has happened since the last send: whether nobody acknowledged it, when the time sync was due
      then, when a volume that was not known yet was last heard, and whether a device was found. */
  datatype Since = Since(unanswered: bool, syncAt: nat, heard: Option<nat>, reconnected: bool)

  /** What happened so far; it steers nothing.  `sends` holds the frozen times of the polls that handed a
      send out.  `misses` counts the unacknowledged sends since the last connect or acknowledged send,
      `firstMiss` is the time of the first of them.  `log` holds the actions performed. */
  datatype History = History(
    start: nat, sends: seq<nat>, acks: nat, acked: Option<Byte>, misses: nat, firstMiss: nat, since: Since,
    log: seq<Action>, iterations: nat, events: nat, masked: nat)
  {
    /** The history after one turn of the inner loop. */
    function Turned(m: Main, now: nat, ans: Answer): History {
      match m.sync.Due(now)
      case None => this
      case Some(action) =>
        var h := this.(log := log + [action]);
        match action
        case SpawnPulseMonitor => h
        case PollLinkState => h
        case ConnectDevice =>
          if ans.found.Some? then h.(misses := 0, since := since.(reconnected := true)) else h
        case SendSysparam(vol) =>
          if m.device.None? then h
          else
            var result := Hid.SendSysparam(m.device.value, ans.wire);
            var g := h.(sends := sends + [now],
                        since := Since(result.NotAcked?, m.sync.nextTimeSync, None, false));
            match result
            case Acked => g.(acks := acks + 1, acked := Some(vol), misses := 0)
            case NotAcked => g.(misses := misses + 1, firstMiss := if misses == 0 then now else firstMiss)
            case SendFailed => g
    }

    /** The history after an event is handled. */
    function Noted(m: Main, event: Event, at: nat): History {
      var h := this.(iterations := iterations + 1, events := events + 1);
      if event.VolumeChanged? && m.sync.lastVol != Some(event.vol)
      then h.(since := since.(heard := Some(at)))
      else h
    }
  }

  datatype System = System(
    main: Main, pc: Pc, queue: seq<Event>, live: seq<Monitor>, signal: Signal, history: History)
  {
    /** The time the next poll may carry at the earliest: the frozen time of a drain under way, or the
        clock. */
    function Time(): nat {
      if pc.Draining? then pc.now else main.clock
    }

    predicate ShuttingDown() {
      signal != Waiting
    }
  }

  datatype Step =
    // the main thread
    | Receive(lead: nat, slack: nat, pause: nat)
    | TimeOut(lead: nat, slack: nat)
    | Turn(answer: Answer)
    // a monitor thread
    | MonitorReady(i: nat, initial: Option<Byte>)
    | MonitorSaw(i: nat, vol: Byte)
    | MonitorFails(i: nat)
    | MonitorStops(i: nat)
    // the signal thread
    | RaiseFlag
    | SendShutdown

  function Begin(cfg: Config, now: nat, ans: Answer): System {
    System(Start(cfg, now, ans), Head, [], [Monitor(false, None)], Waiting,
           History(now, [], 0, None, 0, 0, Since(false, now, None, false), [], 0, 0, 0))
  }

  function Without<T>(s: seq<T>, i: nat): seq<T>
    requires i < |s|
  {
    s[..i] + s[i + 1..]
  }

  function NextReceive(sys: System, lead: nat, slack: nat, pause: nat): System {
    if sys.pc.Head? && sys.queue != [] then
      var event := sys.queue[0];
      var at := sys.main.clock + lead + slack;
      var m := sys.main.Handle(event, at);
      var after := sys.(main := m.(clock := m.clock + pause), queue := sys.queue[1..],
                        history := sys.history.Noted(sys.main, event, at));
      after.(pc := if event.Shutdown? then Exited else Draining(after.main.clock))
    else sys
  }

  function NextTimeOut(sys: System, lead: nat, slack: nat): System {
    if sys.pc.Head? && sys.queue == [] then
      var head := sys.main.clock + lead;
      var now := head + sys.main.sync.Deadline(head) + slack;
      sys.(main := sys.main.(clock := now), pc := Draining(now),
           history := sys.history.(
             iterations := sys.history.iterations + 1,
             masked := sys.history.masked + (if sys.main.sync.Masked(head) then 1 else 0)))
    else sys
  }

  function NextTurn(sys: System, ans: Answer): System {
    if sys.pc.Draining? then
      var now := sys.pc.now;
      var due := sys.main.sync.Due(now);
      if due.None? then sys.(pc := Head)
      else sys.(
        main := sys.main.Step(now, ans),
        live := if due.value.SpawnPulseMonitor? then sys.live + [Monitor(false, None)] else sys.live,
        history := sys.history.Turned(sys.main, now, ans))
    else sys
  }

  function NextMonitor(sys: System, step: Step): System
    requires step.MonitorReady? || step.MonitorSaw? || step.MonitorFails? || step.MonitorStops?
  {
    if step.i >= |sys.live| then sys
    else
      var monitor := sys.live[step.i];
      match step
      case MonitorReady(i, initial) =>
        if monitor.connected then sys
        else sys.(live := sys.live[i := Monitor(true, initial)],
                  queue := if initial.Some? then sys.queue + [VolumeChanged(initial.value)] else sys.queue)
      case MonitorSaw(i, vol) =>
        if !monitor.connected || monitor.lastVol == Some(vol) then sys
        else sys.(live := sys.live[i := Monitor(true, Some(vol))], queue := sys.queue + [VolumeChanged(vol)])
      case MonitorFails(i) =>
        sys.(live := Without(sys.live, i), queue := sys.queue + [PulseDisconnected])
      case MonitorStops(i) =>
        if monitor.connected && sys.ShuttingDown() then sys.(live := Without(sys.live, i)) else sys
  }

  function Next(sys: System, step: Step): System {
    match step
    case Receive(lead, slack, pause) => NextReceive(sys, lead, slack, pause)
    case TimeOut(lead, slack) => NextTimeOut(sys, lead, slack)
    case Turn(ans) => NextTurn(sys, ans)
    case RaiseFlag => if sys.signal.Waiting? then sys.(signal := FlagSet) else sys
    case SendShutdown =>
      if sys.signal.FlagSet? then sys.(signal := Notified, queue := sys.queue + [Shutdown]) else sys
    case _ => NextMonitor(sys, step)
  }

  function Run(sys: System, steps: seq<Step>): System {
    if steps == [] then sys
    else Next(Run(sys, steps[..|steps| - 1]), steps[|steps| - 1])
  }

  /** The state after `steps` from the start of the daemon. */
  function Reached(cfg: Config, now: nat, ans: Answer, steps: seq<Step>): System {
    Run(Begin(cfg, now, ans), steps)
  }
}
