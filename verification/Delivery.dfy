/** What the daemon is for: a keyboard that answers soon shows the volume, however long its answers and the
    threads take and whatever the monitors do meanwhile. */
module Delivery {
  import opened Base
  import opened SyncSpec
  import opened MainLoop
  import opened System
  import opened Runs
  import opened Monitors
  import opened Progress
  import opened Interleaving
  import opened Settling
  import Hid

  predicate Answered(step: Step) {
    step.Turn? ==> Answers(step.answer)
  }

  /** Something will make the daemon send once the clock has reached `limit`: a device yet to be found, a
      time sync due by then, or a dirty volume, however recently it changed. */
  predicate Owes(s: Sync, limit: nat) {
    s.deviceAt.Some? || s.nextTimeSync <= limit || s.volDirty
  }

  /** Every timer runs out by `limit`, and until the keyboard has acknowledged the volume the daemon knows, it
      owes a send or has a new volume in its queue. */
  predicate Promised(s: Sync, queue: seq<Event>, acked: Option<Byte>, limit: nat) {
    Ready(s, limit) && (Owes(s, limit) || Brings(s.lastVol, queue) || acked == Some(s.Shown()))
  }

  lemma PromisedLater(s: Sync, queue: seq<Event>, acked: Option<Byte>, limit: nat, later: nat)
    requires Promised(s, queue, acked, limit) && limit <= later
    ensures Promised(s, queue, acked, later)
  {
  }

  lemma PromisedQueue(s: Sync, queue: seq<Event>, more: seq<Event>, acked: Option<Byte>, limit: nat)
    requires Promised(s, queue, acked, limit)
    ensures Promised(s, queue + more, acked, limit)
  {
    if Brings(s.lastVol, queue) {
      var i :| 0 <= i < |queue| && queue[i].VolumeChanged? && s.lastVol != Some(queue[i].vol);
      assert (queue + more)[i] == queue[i];
    }
  }

  lemma PromisedHandle(m: Main, queue: seq<Event>, acked: Option<Byte>, limit: nat, at: nat)
    requires queue != [] && Promised(m.sync, queue, acked, limit)
    ensures Promised(m.Handle(queue[0], at).sync, queue[1..], acked, limit)
  {
    BringsUnfolds(m.sync.lastVol, queue);
  }

  lemma PromisedSend(m: Main, h: History, queue: seq<Event>, now: nat, ans: Answer, limit: nat)
    requires m.Good() && m.sync.Due(now) == Some(SendSysparam(m.sync.Shown())) && Answers(ans)
    requires Ready(m.sync, limit) && now <= limit
    ensures Promised(m.Step(now, ans).sync, queue, h.Turned(m, now, ans).acked, limit)
  {
    assert m.device.Some?;
    AnswersAcknowledge(ans, m.device.value);
    assert m.Step(now, ans) == m.(sync := m.sync.Fired(now)).Send(now, ans);
    hide Brings;
  }

  lemma PromisedConnect(m: Main, h: History, queue: seq<Event>, now: nat, ans: Answer, limit: nat)
    requires m.sync.Due(now) == Some(ConnectDevice) && Answers(ans) && m.Step(now, ans).clock <= limit
    ensures Promised(m.Step(now, ans).sync, queue, h.Turned(m, now, ans).acked, limit)
  {
    AnswersAcknowledge(ans, ans.found.value);
    assert m.Step(now, ans) == m.(sync := m.sync.Fired(now)).Connect(ans);
    hide Brings;
  }

  lemma PromisedQuery(m: Main, h: History, queue: seq<Event>, now: nat, ans: Answer, limit: nat)
    requires m.Good() && m.sync.Due(now) == Some(PollLinkState) && Answers(ans)
    requires Promised(m.sync, queue, h.acked, limit)
    ensures Promised(m.Step(now, ans).sync, queue, h.Turned(m, now, ans).acked, limit)
  {
    assert m.device.Some?;
    AnswersAcknowledge(ans, m.device.value);
    assert m.Step(now, ans) == m.(sync := m.sync.Fired(now)).QueryLink(now, ans);
    hide Brings;
  }

  lemma PromisedTurn(m: Main, h: History, queue: seq<Event>, now: nat, ans: Answer, limit: nat)
    requires m.Good() && m.sync.Due(now).Some? && Answers(ans)
    requires Promised(m.sync, queue, h.acked, limit) && now <= m.clock && m.Step(now, ans).clock <= limit
    ensures Promised(m.Step(now, ans).sync, queue, h.Turned(m, now, ans).acked, limit)
  {
    StepKeepsGood(m, now, ans);
    assert m.sync.Due(now).value.SendSysparam? ==> m.sync.Due(now).value.vol == m.sync.Shown();
    match m.sync.Due(now).value
    case SendSysparam(_) => hide *; PromisedSend(m, h, queue, now, ans, limit);
    case ConnectDevice => hide *; PromisedConnect(m, h, queue, now, ans, limit);
    case PollLinkState => hide *; PromisedQuery(m, h, queue, now, ans, limit);
    case SpawnPulseMonitor => hide Brings;
  }

  // ---------------------------------------------------------------- every step of such a run

  predicate Promises(sys: System, limit: nat) {
    Promised(sys.main.sync, sys.queue, sys.history.acked, Max(limit, sys.main.clock))
  }

  lemma PromisesReceive(sys: System, step: Step, limit: nat)
    requires Promises(sys, limit) && step.Receive?
    ensures Promises(Next(sys, step), limit)
  {
    hide Promised;
    if sys.pc.Head? && sys.queue != [] {
      var at := sys.main.clock + step.lead + step.slack;
      var s := sys.main.Handle(sys.queue[0], at).sync;
      PromisedHandle(sys.main, sys.queue, sys.history.acked, Max(limit, sys.main.clock), at);
      PromisedLater(s, sys.queue[1..], sys.history.acked, Max(limit, sys.main.clock), Max(limit, at + step.pause));
    }
  }

  lemma PromisesTurn(sys: System, step: Step, cfg: Config, limit: nat)
    requires Sound(sys, cfg) && Promises(sys, limit) && step.Turn? && Answers(step.answer)
    ensures Promises(Next(sys, step), limit)
  {
    hide Promised, Main.Step, Main.Good, Sync.Due, History.Turned, Answers;
    if sys.pc.Draining? && sys.main.sync.Due(sys.pc.now).Some? {
      var now, clock := sys.pc.now, sys.main.Step(sys.pc.now, step.answer).clock;
      StepKeepsGood(sys.main, now, step.answer);
      PromisedLater(sys.main.sync, sys.queue, sys.history.acked, Max(limit, sys.main.clock), Max(limit, clock));
      PromisedTurn(sys.main, sys.history, sys.queue, now, step.answer, Max(limit, clock));
    }
  }

  lemma PromisesStep(sys: System, step: Step, cfg: Config, limit: nat)
    requires Sound(sys, cfg) && Promises(sys, limit) && Answered(step)
    ensures Promises(Next(sys, step), limit)
  {
    hide Promised, Sync.Deadline, Sync.Masked, Main.Good;
    match step
    case Receive(_, _, _) => PromisesReceive(sys, step, limit);
    case Turn(_) => PromisesTurn(sys, step, cfg, limit);
    case TimeOut(_, _) =>
      var next := Next(sys, step);
      PromisedLater(sys.main.sync, sys.queue, sys.history.acked,
                    Max(limit, sys.main.clock), Max(limit, next.main.clock));
    case _ =>
      OtherOnlyQueues(sys, step);
      var queue := Next(sys, step).queue;
      assert queue == sys.queue + queue[|sys.queue|..];
      PromisedQueue(sys.main.sync, sys.queue, queue[|sys.queue|..], sys.history.acked, Max(limit, sys.main.clock));
  }

  lemma {:induction false} PromisesRun(sys: System, more: seq<Step>, cfg: Config, limit: nat)
    requires Sound(sys, cfg) && Promises(sys, limit) && forall step :: step in more ==> Answered(step)
    ensures Sound(Run(sys, more), cfg) && Promises(Run(sys, more), limit)
  {
    if more != [] {
      var most := more[..|more| - 1];
      PromisesRun(sys, most, cfg, limit);
      assert more[|more| - 1] in more;
      hide Sound, Promises, Next;
      SoundKept(Run(sys, most), more[|more| - 1], cfg);
      PromisesStep(Run(sys, most), more[|more| - 1], cfg, limit);
    }
  }

  // ---------------------------------------------------------------- delivery

  /** Nothing is left to do at the clock: the queue is read, no action is owed, no volume is still settling. */
  predicate Rested(sys: System) {
    var s := sys.main.sync;
    && sys.queue == [] && s.Due(sys.main.clock).None?
    && (s.volDirty ==> s.volLastChange + s.cfg.debounce <= sys.main.clock)
  }

  /** The keyboard has acknowledged the volume the daemon knows, and that is what a live monitor last saw. */
  predicate Delivered(sys: System) {
    && sys.history.acked == Some(sys.main.sync.Shown())
    && forall i :: 0 <= i < |sys.live| && sys.live[i].lastVol.Some? ==> sys.history.acked == sys.live[i].lastVol
  }

  lemma RestedIsAcknowledged(sys: System, cfg: Config, limit: nat)
    requires Sound(sys, cfg) && Promises(sys, limit) && Rested(sys) && limit <= sys.main.clock
    ensures sys.history.acked == Some(sys.main.sync.Shown())
  {
  }

  lemma AcknowledgedIsDelivered(sys: System)
    requires sys.queue == [] && VolumeOnItsWay(sys) && sys.history.acked == Some(sys.main.sync.Shown())
    ensures Delivered(sys)
  {
  }

  lemma RunDelivers(cfg: Config, t0: nat, ans: Answer, steps: seq<Step>, more: seq<Step>, limit: nat)
    requires Promises(Reached(cfg, t0, ans, steps), limit) && forall step :: step in more ==> Answered(step)
    ensures
      var end := Run(Reached(cfg, t0, ans, steps), more);
      Rested(end) && limit <= end.main.clock ==> Delivered(end)
  {
    var end := Run(Reached(cfg, t0, ans, steps), more);
    SoundAlways(cfg, t0, ans, steps);
    PromisesRun(Reached(cfg, t0, ans, steps), more, cfg, limit);
    RunConcat(Begin(cfg, t0, ans), steps, more);
    VolumeOnItsWayAlways(cfg, t0, ans, steps + more);
    if Rested(end) && limit <= end.main.clock {
      RestedIsAcknowledged(end, cfg, limit);
      AcknowledgedIsDelivered(end);
    }
  }

  /** In every run, from any reachable state on, whatever was lost, unanswered or forgotten before: if every
      keyboard search and every exchange from there on succeeds, however long each takes, however late the
      loop wakes, and whatever the monitors and signals do, then at any time no sooner than the longest
      interval at which the daemon is at rest the keyboard has acknowledged the volume that the live monitor
      last saw. */
  lemma VolumeIsDelivered(cfg: Config, t0: nat, ans: Answer, steps: seq<Step>, more: seq<Step>)
    requires forall step :: step in more ==> Answered(step)
    ensures
      var start := Reached(cfg, t0, ans, steps);
      var end := Run(start, more);
      Rested(end) && start.main.clock + Patience(cfg) <= end.main.clock ==> Delivered(end)
  {
    var start := Reached(cfg, t0, ans, steps);
    SoundAlways(cfg, t0, ans, steps);
    TimersNearAlways(cfg, t0, ans, steps);
    hide Reached, Rested, Delivered, Brings;
    RunDelivers(cfg, t0, ans, steps, more, start.main.clock + Patience(cfg));
  }

  lemma RememberedIsPromised(sys: System, cfg: Config)
    requires Sound(sys, cfg) && TimersNear(sys.main.sync, sys.main.clock) && Pending(sys.main.sync, sys.main.clock)
    requires Remembers(sys) || sys.history.acked == Some(sys.main.sync.Shown())
    ensures Promises(sys, sys.main.clock + Promptness(cfg))
  {
    hide Brings;
  }

  /** If the volume is acknowledged already, or a dirty flag, a pending initial sync, a missing device or a new
      volume in the queue remembers it, the interval between time syncs need not be waited for. */
  lemma RememberedVolumeIsDelivered(cfg: Config, t0: nat, ans: Answer, steps: seq<Step>, more: seq<Step>)
    requires forall step :: step in more ==> Answered(step)
    requires
      var start := Reached(cfg, t0, ans, steps);
      Remembers(start) || start.history.acked == Some(start.main.sync.Shown())
    ensures
      var start := Reached(cfg, t0, ans, steps);
      var end := Run(start, more);
      Rested(end) && start.main.clock + Promptness(cfg) <= end.main.clock ==> Delivered(end)
  {
    var start := Reached(cfg, t0, ans, steps);
    SoundAlways(cfg, t0, ans, steps);
    TimersNearAlways(cfg, t0, ans, steps);
    PendingAlways(cfg, t0, ans, steps);
    hide Reached, Rested, Delivered, Remembers;
    RememberedIsPromised(start, cfg);
    RunDelivers(cfg, t0, ans, steps, more, start.main.clock + Promptness(cfg));
  }

  // ---------------------------------------------------------------- rest can be reached

  const ANSWERS: nat -> Answer := Always(Friendly(Hid.Dongle))

  lemma QuickStep(m: Main, now: nat, protocol: Hid.Protocol)
    ensures m.Step(now, Friendly(protocol)).clock == m.clock
    ensures m.Step(now, Friendly(protocol)).sync.volLastChange == m.sync.volLastChange
  {
    hide Hid.SendSysparam, Hid.LinkState;
  }

  lemma {:induction false} QuickDrain(m: Main, now: nat, k: nat)
    requires m.Good() && now <= m.clock && m.sync.cfg.Positive()
    ensures
      var d := Drain(m, now, ANSWERS, k).main;
      d.clock == m.clock && d.sync.volLastChange == m.sync.volLastChange
    ensures forall step :: step in DrainSteps(m, now, ANSWERS, k) ==> Answered(step)
    decreases Left(m.sync, now)
  {
    hide Main.Step, Main.Good, Sync.Due;
    if m.sync.Due(now).None? {
      DrainStops(m, now, ANSWERS, k);
    } else {
      DrainUnfolds(m, now, ANSWERS, k);
      DrainStepsUnfold(m, now, ANSWERS, k);
      QuickStep(m, now, Hid.Dongle);
      QuickDrain(m.Step(now, ANSWERS(k)), now, k + 1);
    }
  }

  /** The drain under way comes to its end in no time. */
  lemma DrainFinishes(sys: System, cfg: Config) returns (more: seq<Step>)
    requires Sound(sys, cfg) && cfg.Positive() && sys.pc.Draining?
    ensures forall step :: step in more ==> Answered(step)
    ensures
      var end := Run(sys, more);
      && Sound(end, cfg) && end.pc == Head && end.queue == sys.queue && end.main.clock == sys.main.clock
      && end.main.sync.Due(sys.pc.now).None? && end.main.sync.volLastChange == sys.main.sync.volLastChange
  {
    hide Main.Good, Sync.Due, Run;
    more := DrainSteps(sys.main, sys.pc.now, ANSWERS, 0);
    QuickDrain(sys.main, sys.pc.now, 0);
    DrainIsRun(sys, ANSWERS, 0);
    RunKeepsSound(sys, more, cfg);
  }

  lemma {:induction false} RunKeepsSound(sys: System, more: seq<Step>, cfg: Config)
    requires Sound(sys, cfg)
    ensures Sound(Run(sys, more), cfg)
  {
    if more != [] {
      RunKeepsSound(sys, more[..|more| - 1], cfg);
      hide Sound, Next;
      SoundKept(Run(sys, more[..|more| - 1]), more[|more| - 1], cfg);
    }
  }

  /** One step, a drain, and what comes then. */
  lemma StepAndDrain(sys: System, step: Step, cfg: Config) returns (more: seq<Step>)
    requires Sound(sys, cfg) && cfg.Positive() && Answered(step) && Next(sys, step).pc.Draining?
    ensures forall step :: step in more ==> Answered(step)
    ensures
      var next, end := Next(sys, step), Run(sys, more);
      && Sound(end, cfg) && end.pc == Head && end.queue == next.queue && end.main.clock == next.main.clock
      && end.main.sync.Due(next.pc.now).None? && end.main.sync.volLastChange == next.main.sync.volLastChange
  {
    hide Sound, Next, Run, Sync.Due;
    SoundKept(sys, step, cfg);
    var rest := DrainFinishes(Next(sys, step), cfg);
    RunCons(sys, step, rest);
    more := [step] + rest;
  }

  lemma RestFromHead(sys: System, cfg: Config, time: nat) returns (more: seq<Step>)
    requires Sound(sys, cfg) && cfg.Positive() && sys.pc.Head? && Shutdown !in sys.queue
    ensures forall step :: step in more ==> Answered(step)
    ensures Rested(Run(sys, more)) && time <= Run(sys, more).main.clock
    decreases |sys.queue|
  {
    if sys.queue == [] {
      var step := TimeOut(0, time + sys.main.sync.volLastChange + cfg.debounce);
      hide Sync.Deadline, Sync.Masked, Sync.Due, Run;
      more := StepAndDrain(sys, step, cfg);
    } else {
      hide Main.Handle, Run, Sync.Due;
      var first := StepAndDrain(sys, Receive(0, 0, 0), cfg);
      var rest := RestFromHead(Run(sys, first), cfg, time);
      RunConcat(sys, first, rest);
      more := first + rest;
    }
  }

  /** From every reachable state in which no shutdown has come, a daemon whose keyboard answers can come to
      rest, as late as one likes: what is proved of rest is proved of something. */
  lemma RestIsReached(cfg: Config, t0: nat, ans: Answer, steps: seq<Step>, time: nat) returns (more: seq<Step>)
    requires cfg.Positive()
    requires !Reached(cfg, t0, ans, steps).pc.Exited? && Shutdown !in Reached(cfg, t0, ans, steps).queue
    ensures forall step :: step in more ==> Answered(step)
    ensures
      var end := Run(Reached(cfg, t0, ans, steps), more);
      Rested(end) && time <= end.main.clock
  {
    var sys := Reached(cfg, t0, ans, steps);
    SoundAlways(cfg, t0, ans, steps);
    hide Reached, Run, Rested, Sound;
    if sys.pc.Draining? {
      var first := DrainFinishes(sys, cfg);
      var rest := RestFromHead(Run(sys, first), cfg, time);
      RunConcat(sys, first, rest);
      more := first + rest;
    } else {
      more := RestFromHead(sys, cfg, time);
    }
  }
}
