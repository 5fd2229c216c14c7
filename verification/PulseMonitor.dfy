/** The monitor thread of src/volume.rs: what it sends over its whole life. */
module PulseMonitorModel {
  import opened Base
  import opened MainLoop
  import System
  import Interleaving

  /** What one turn of the monitor's loop meets: the shutdown flag, the health of its connection, whether
      prepare and dispatch worked, whether a sink event was noticed, and the volume query. */
  datatype Round = Round(shutdown: bool, ready: bool, prepared: bool, dispatched: bool, noticed: bool,
                         query: Option<Byte>)

  /** How the monitor function returned: not yet, cleanly, or with an error its thread still reports. */
  datatype End = Running | Clean | Error

  /** A monitor's life so far: what it last saw, whether an event waits to be looked at, what it sent. */
  datatype Life = Life(lastVol: Option<Byte>, gotEvent: bool, sent: seq<Event>, end: End)
  {
    function Saw(vol: Byte): Life {
      if lastVol == Some(vol) then this
      else this.(lastVol := Some(vol), sent := sent + [VolumeChanged(vol)])
    }

    function Live(r: Round): Life {
      if !end.Running? then this
      else if r.shutdown then this.(end := Clean)
      else if !r.ready then this.(sent := sent + [PulseDisconnected], end := Clean)
      else if !r.prepared then this.(end := Error)
      else if !r.dispatched then this.(gotEvent := gotEvent || r.noticed, end := Error)
      else if !(gotEvent || r.noticed) then this
      else if r.query.Some? then this.(gotEvent := false).Saw(r.query.value)
      else this.(gotEvent := false, sent := sent + [PulseDisconnected], end := Clean)
    }
  }

  function Born(connected: bool, initial: Option<Byte>): Life {
    if !connected then Life(None, false, [], Error)
    else Life(initial, false, if initial.Some? then [VolumeChanged(initial.value)] else [], Running)
  }

  function Lived(life: Life, rounds: seq<Round>): Life {
    if rounds == [] then life
    else Lived(life, rounds[..|rounds| - 1]).Live(rounds[|rounds| - 1])
  }

  /** Everything the thread sends: the monitor's own events and, after an error, the disconnect. */
  function Reported(life: Life): seq<Event> {
    if life.end.Error? then life.sent + [PulseDisconnected] else life.sent
  }

  /** The function of lines 37-109 as an object of its local variables. */
  class PulseMonitor {
    var lastVol: Option<Byte>
    var gotEvent: bool
    var sent: seq<Event>

    ghost function View(end: End): Life
      reads this
    {
      Life(lastVol, gotEvent, sent, end)
    }

    constructor ()
      ensures lastVol == None && !gotEvent && sent == []
    {
      lastVol := None;
      gotEvent := false;
      sent := [];
    }

    method RunPulseMonitor(connected: bool, initial: Option<Byte>, rounds: seq<Round>) returns (end: End)
      requires lastVol == None && !gotEvent && sent == []
      modifies this
      ensures View(end) == Lived(Born(connected, initial), rounds)
    {
      ghost var born := Born(connected, initial);
      if !connected {
        StaysOver(born, rounds);
        return Error;
      }
      if initial.Some? {
        lastVol := initial;
        sent := sent + [VolumeChanged(initial.value)];
      }
      for i := 0 to |rounds|
        invariant View(Running) == Lived(born, rounds[..i])
      {
        var r := rounds[i];
        ghost var before := View(Running);
        assert rounds[..i + 1][..i] == rounds[..i];
        RestStaysOver(born, rounds, i);
        if r.shutdown {
          return Clean;
        }
        if !r.ready {
          sent := sent + [PulseDisconnected];
          return Clean;
        }
        if !r.prepared {
          return Error;
        }
        if r.noticed {
          gotEvent := true;
        }
        if !r.dispatched {
          return Error;
        }
        if gotEvent {
          gotEvent := false;
          match r.query
          case Some(vol) =>
            if lastVol != Some(vol) {
              lastVol := Some(vol);
              sent := sent + [VolumeChanged(vol)];
            }
          case None =>
            sent := sent + [PulseDisconnected];
            return Clean;
        }
      }
      assert rounds[..|rounds|] == rounds;
      return Running;
    }

    /** The thread body, lines 27-32: an error is reported as a disconnect. */
    method Spawn(connected: bool, initial: Option<Byte>, rounds: seq<Round>) returns (end: End)
      requires lastVol == None && !gotEvent && sent == []
      modifies this
      ensures
        var life := Lived(Born(connected, initial), rounds);
        sent == Reported(life) && end == life.end
    {
      end := RunPulseMonitor(connected, initial, rounds);
      if end == Error {
        sent := sent + [PulseDisconnected];
      }
    }
  }

  lemma {:induction false} StaysOver(life: Life, rounds: seq<Round>)
    requires !life.end.Running?
    ensures Lived(life, rounds) == life
  {
    if rounds != [] {
      StaysOver(life, rounds[..|rounds| - 1]);
    }
  }

  lemma {:induction false} LivedConcat(life: Life, a: seq<Round>, b: seq<Round>)
    ensures Lived(life, a + b) == Lived(Lived(life, a), b)
    decreases |b|
  {
    if b == [] {
      assert a + b == a;
    } else {
      LivedConcat(life, a, b[..|b| - 1]);
      assert (a + b)[..|a + b| - 1] == a + b[..|b| - 1];
    }
  }

  /** Once over after round i, over for good. */
  lemma RestStaysOver(life: Life, rounds: seq<Round>, i: nat)
    requires i < |rounds|
    ensures
      var after := Lived(life, rounds[..i]).Live(rounds[i]);
      Lived(life, rounds[..i + 1]) == after && (!after.end.Running? ==> Lived(life, rounds) == after)
  {
    assert rounds[..i + 1][..i] == rounds[..i];
    var after := Lived(life, rounds[..i + 1]);
    LivedConcat(life, rounds[..i + 1], rounds[i + 1..]);
    assert rounds[..i + 1] + rounds[i + 1..] == rounds;
    if !after.end.Running? {
      StaysOver(after, rounds[i + 1..]);
    }
  }

  // ---------------------------------------------------------------- what a life sends

  /** A monitor's report: volumes, no two in a row the same, then at most one disconnect. */
  ghost predicate Report(events: seq<Event>, volumes: nat) {
    && volumes <= |events| <= volumes + 1
    && (forall i :: 0 <= i < volumes ==> events[i].VolumeChanged?)
    && (forall i :: 0 <= i < volumes - 1 ==> events[i] != events[i + 1])
    && (volumes < |events| ==> events[volumes] == PulseDisconnected)
  }

  /** The volumes of a life so far: every one different from the one before, the last one the one the
      monitor remembers; a disconnect only at the end of a life that is over. */
  ghost predicate Tidy(life: Life, volumes: nat) {
    && Report(life.sent, volumes)
    && (life.lastVol.None? <==> volumes == 0)
    && (volumes > 0 ==> life.sent[volumes - 1] == VolumeChanged(life.lastVol.value))
    && (!life.end.Clean? ==> |life.sent| == volumes)
  }

  lemma TidyLive(life: Life, volumes: nat, r: Round)
    requires Tidy(life, volumes)
    ensures Tidy(life.Live(r), volumes) || Tidy(life.Live(r), volumes + 1)
  {
  }

  lemma {:induction false} LivesAreTidy(connected: bool, initial: Option<Byte>, rounds: seq<Round>)
    returns (volumes: nat)
    ensures Tidy(Lived(Born(connected, initial), rounds), volumes)
  {
    if rounds == [] {
      volumes := if connected && initial.Some? then 1 else 0;
    } else {
      volumes := LivesAreTidy(connected, initial, rounds[..|rounds| - 1]);
      var life := Lived(Born(connected, initial), rounds[..|rounds| - 1]);
      TidyLive(life, volumes, rounds[|rounds| - 1]);
      if !Tidy(life.Live(rounds[|rounds| - 1]), volumes) {
        volumes := volumes + 1;
      }
    }
  }

  /** Over its whole life a monitor thread reports changed volumes only, then says goodbye at most once;
      it never ends without a goodbye unless it saw the shutdown flag. */
  lemma MonitorReports(connected: bool, initial: Option<Byte>, rounds: seq<Round>) returns (volumes: nat)
    ensures
      var life := Lived(Born(connected, initial), rounds);
      && Report(Reported(life), volumes)
      && (life.end.Running? ==> |Reported(life)| == volumes)
      && (volumes > 0 ==> life.lastVol.Some? && Reported(life)[volumes - 1] == VolumeChanged(life.lastVol.value))
      && (!life.end.Running? && (forall r :: r in rounds ==> !r.shutdown) ==> |Reported(life)| == volumes + 1)
  {
    volumes := LivesAreTidy(connected, initial, rounds);
    if forall r :: r in rounds ==> !r.shutdown {
      GoodbyeWithoutShutdown(connected, initial, rounds);
    }
  }

  lemma {:induction false} GoodbyeWithoutShutdown(connected: bool, initial: Option<Byte>, rounds: seq<Round>)
    requires forall r :: r in rounds ==> !r.shutdown
    ensures
      var life := Lived(Born(connected, initial), rounds);
      life.end.Clean? ==> life.sent != [] && life.sent[|life.sent| - 1] == PulseDisconnected
  {
    if rounds != [] {
      GoodbyeWithoutShutdown(connected, initial, rounds[..|rounds| - 1]);
    }
  }

  // ---------------------------------------------------------------- the volumes by the rounds

  /** The monitor goes on after this round. */
  predicate Survives(r: Round) {
    !r.shutdown && r.ready && r.prepared && r.dispatched && (r.noticed ==> r.query.Some?)
  }

  /** The volumes read: the initial one and one for each round that noticed an event. */
  function Readings(initial: Option<Byte>, rounds: seq<Round>): seq<Byte> {
    if rounds == [] then (if initial.Some? then [initial.value] else [])
    else
      var r := rounds[|rounds| - 1];
      Readings(initial, rounds[..|rounds| - 1]) + (if r.noticed && r.query.Some? then [r.query.value] else [])
  }

  /** The readings that differ from the one before. */
  function Changes(readings: seq<Byte>): seq<Byte> {
    if |readings| <= 1 then readings
    else
      var n := |readings| - 1;
      Changes(readings[..n]) + (if readings[n] == readings[n - 1] then [] else [readings[n]])
  }

  function VolumeEvents(volumes: seq<Byte>): seq<Event> {
    seq(|volumes|, i requires 0 <= i < |volumes| => VolumeChanged(volumes[i]))
  }

  function LastReading(readings: seq<Byte>): Option<Byte> {
    if readings == [] then None else Some(readings[|readings| - 1])
  }

  lemma ChangesAppend(readings: seq<Byte>, vol: Byte)
    ensures VolumeEvents(Changes(readings + [vol])) ==
      if LastReading(readings) == Some(vol) then VolumeEvents(Changes(readings))
      else VolumeEvents(Changes(readings)) + [VolumeChanged(vol)]
  {
    assert (readings + [vol])[..|readings|] == readings;
  }

  lemma {:induction false} ChangesEndAlike(readings: seq<Byte>)
    ensures LastReading(Changes(readings)) == LastReading(readings)
  {
    if |readings| > 1 {
      ChangesEndAlike(readings[..|readings| - 1]);
    }
  }

  /** While it runs a monitor has sent the changes among its readings and remembers the last one. */
  lemma {:induction false} RunningTells(initial: Option<Byte>, rounds: seq<Round>)
    requires forall r :: r in rounds ==> Survives(r)
    ensures
      var readings := Readings(initial, rounds);
      Lived(Born(true, initial), rounds) ==
        Life(LastReading(readings), false, VolumeEvents(Changes(readings)), Running)
  {
    if rounds != [] {
      var most, r := rounds[..|rounds| - 1], rounds[|rounds| - 1];
      RunningTells(initial, most);
      assert r in rounds;
      var readings := Readings(initial, most);
      if r.noticed {
        ChangesAppend(readings, r.query.value);
        assert Readings(initial, rounds) == readings + [r.query.value];
        hide Changes, VolumeEvents, Readings;
      } else {
        assert Readings(initial, rounds) == readings;
      }
    }
  }

  /** How round `r` ends a monitor that does not survive it. */
  function EndOf(r: Round): End {
    if r.shutdown || !r.ready || (r.prepared && r.dispatched) then Clean else Error
  }

  /** The whole of what a monitor thread sends, by its rounds alone: the changes among the initial volume and
      the volumes queried in the rounds that noticed an event, up to the first round it does not survive, then
      a goodbye unless that round saw the shutdown flag.  While it runs it remembers the last volume read. */
  lemma MonitorTells(initial: Option<Byte>, rounds: seq<Round>, n: nat)
    requires n <= |rounds| && (forall i :: 0 <= i < n ==> Survives(rounds[i]))
    requires n < |rounds| ==> !Survives(rounds[n])
    ensures
      var life := Lived(Born(true, initial), rounds);
      var readings := Readings(initial, rounds[..n]);
      var volumes := VolumeEvents(Changes(readings));
      && life.lastVol == LastReading(readings)
      && (life.lastVol.Some? ==> volumes != [] && volumes[|volumes| - 1] == VolumeChanged(life.lastVol.value))
      && life.end == (if n == |rounds| then Running else EndOf(rounds[n]))
      && Reported(life) == volumes + if n == |rounds| || rounds[n].shutdown then [] else [PulseDisconnected]
  {
    RunningTells(initial, rounds[..n]);
    ChangesEndAlike(Readings(initial, rounds[..n]));
    if n < |rounds| {
      RestStaysOver(Born(true, initial), rounds, n);
    } else {
      assert rounds[..n] == rounds;
    }
    hide Readings, Changes, Born;
  }

  lemma NeverConnected(initial: Option<Byte>, rounds: seq<Round>)
    ensures Reported(Lived(Born(false, initial), rounds)) == [PulseDisconnected]
  {
    StaysOver(Born(false, initial), rounds);
  }

  // ---------------------------------------------------------------- as steps of the system

  /** The live monitors after monitor i has lived on to `life`. */
  function LiveAfter(live: seq<System.Monitor>, i: nat, life: Life): seq<System.Monitor>
    requires i < |live|
  {
    if life.end.Running? then live[i := System.Monitor(true, life.lastVol)] else System.Without(live, i)
  }

  /** Only the queue and monitor i differ. */
  ghost predicate OnlyReported(sys: System.System, end: System.System, i: nat, life: Life, news: seq<Event>)
    requires i < |sys.live|
  {
    end == sys.(queue := sys.queue + news, live := LiveAfter(sys.live, i, life))
  }

  /** One round of a monitor is what the system's monitor steps say: the same events reach the queue, the
      same monitor or none stays alive. */
  lemma RoundIsRun(sys: System.System, i: nat, life: Life, r: Round) returns (steps: seq<System.Step>)
    requires i < |sys.live| && sys.live[i] == System.Monitor(true, life.lastVol)
    requires life.end.Running? && (r.shutdown ==> sys.ShuttingDown())
    ensures Reported(life) <= Reported(life.Live(r))
    ensures OnlyReported(sys, System.Run(sys, steps), i, life.Live(r), Reported(life.Live(r))[|Reported(life)|..])
  {
    var after := life.Live(r);
    assert System.Run(sys, []) == sys;
    if !r.shutdown && after.end.Running? && after.lastVol.None? {
      steps := [];
      assert sys.live[i := System.Monitor(true, after.lastVol)] == sys.live;
      assert sys.queue + [] == sys.queue;
    } else {
      var step :=
        if r.shutdown then System.MonitorStops(i)
        else if !after.end.Running? then System.MonitorFails(i)
        else System.MonitorSaw(i, after.lastVol.value);
      steps := [step];
      assert steps[..0] == [];
      assert System.Run(sys, steps) == System.Next(sys, step);
      assert sys.live[i := sys.live[i]] == sys.live && sys.queue + [] == sys.queue;
    }
  }

  /** A monitor's whole life is a run of the system: what its thread sends, in its order, is what the
      queue receives. */
  lemma {:induction false} LifeIsRun(
      sys: System.System, i: nat, connected: bool, initial: Option<Byte>, rounds: seq<Round>)
    returns (steps: seq<System.Step>)
    requires i < |sys.live| && sys.live[i] == System.Monitor(false, None)
    requires sys.ShuttingDown() || forall r :: r in rounds ==> !r.shutdown
    ensures
      var life := Lived(Born(connected, initial), rounds);
      OnlyReported(sys, System.Run(sys, steps), i, life, Reported(life))
  {
    if rounds == [] {
      steps := BirthIsRun(sys, i, connected, initial);
    } else {
      var most, r := rounds[..|rounds| - 1], rounds[|rounds| - 1];
      var life := Lived(Born(connected, initial), most);
      steps := LifeIsRun(sys, i, connected, initial, most);
      assert r in rounds;
      hide Life.Live, System.Run, LiveAfter, Reported, Born;
      if life.end.Running? {
        var mid := System.Run(sys, steps);
        LivesOn(sys, i, life);
        var more := RoundIsRun(mid, i, life, r);
        Interleaving.RunConcat(sys, steps, more);
        ReportsJoin(sys, mid, i, life, life.Live(r));
        steps := steps + more;
      } else {
        OverIsOver(life, r);
      }
    }
  }

  lemma BirthIsRun(sys: System.System, i: nat, connected: bool, initial: Option<Byte>) returns (steps: seq<System.Step>)
    requires i < |sys.live| && sys.live[i] == System.Monitor(false, None)
    ensures
      var life := Born(connected, initial);
      OnlyReported(sys, System.Run(sys, steps), i, life, Reported(life))
  {
    var step := if connected then System.MonitorReady(i, initial) else System.MonitorFails(i);
    steps := [step];
    assert steps[..0] == [];
    assert System.Run(sys, []) == sys;
    assert System.Run(sys, steps) == System.Next(sys, step);
    assert sys.queue + [] == sys.queue;
  }

  lemma OverIsOver(life: Life, r: Round)
    requires !life.end.Running?
    ensures life.Live(r) == life
  {
  }

  lemma LivesOn(sys: System.System, i: nat, life: Life)
    requires i < |sys.live| && life.end.Running?
    ensures |LiveAfter(sys.live, i, life)| == |sys.live|
    ensures LiveAfter(sys.live, i, life)[i] == System.Monitor(true, life.lastVol)
  {
  }

  /** Two reports in a row are one. */
  lemma ReportsJoin(sys: System.System, mid: System.System, i: nat, life: Life, after: Life)
    requires i < |sys.live| && life.end.Running? && Reported(life) <= Reported(after)
    requires OnlyReported(sys, mid, i, life, Reported(life))
    ensures i < |mid.live|
    ensures LiveAfter(mid.live, i, after) == LiveAfter(sys.live, i, after)
    ensures mid.queue + Reported(after)[|Reported(life)|..] == sys.queue + Reported(after)
  {
    hide Reported;
  }
}
