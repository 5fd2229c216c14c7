/** Facts every other whole-run argument starts from. */
module Runs {
  import opened Base
  import opened SyncSpec
  import opened MainLoop
  import opened System

  predicate Sound(sys: System, cfg: Config) {
    && sys.main.Good() && sys.main.sync.cfg == cfg
    && sys.history.start <= sys.Time() <= sys.main.clock
  }

  ghost predicate Reachable(sys: System, cfg: Config) {
    exists t0: nat, ans: Answer, steps: seq<Step> :: Reached(cfg, t0, ans, steps) == sys
  }

  lemma StepReaches(sys: System, step: Step, cfg: Config)
    requires Reachable(sys, cfg)
    ensures Reachable(Next(sys, step), cfg)
  {
    var t0: nat, ans: Answer, steps: seq<Step> :| Reached(cfg, t0, ans, steps) == sys;
    var more := steps + [step];
    assert more[..|more| - 1] == steps;
    assert Reached(cfg, t0, ans, more) == Next(sys, step);
  }

  /** How one step moves the state machine: not at all, by an event handled at a time, or by one
      action answered in a drain. */
  datatype Move = Wait | Heard(event: Event, at: nat) | Acted(now: nat, answer: Answer)

  function MoveOf(sys: System, step: Step): Move {
    if step.Receive? && sys.pc.Head? && sys.queue != [] then
      Heard(sys.queue[0], sys.main.clock + step.lead + step.slack)
    else if step.Turn? && sys.pc.Draining? && sys.main.sync.Due(sys.pc.now).Some? then
      Acted(sys.pc.now, step.answer)
    else Wait
  }

  /** The parts of the history that only an action writes. */
  predicate SameSends(h: History, g: History) {
    && h.start == g.start && h.sends == g.sends && h.acks == g.acks && h.acked == g.acked
    && h.misses == g.misses && h.firstMiss == g.firstMiss && h.log == g.log
  }

  predicate MovedBy(sys: System, next: System, move: Move) {
    && sys.Time() <= next.Time()
    && match move
       case Wait =>
         next.main.sync == sys.main.sync && next.main.device == sys.main.device && next.main.awake == sys.main.awake
         && SameSends(sys.history, next.history) && next.history.since == sys.history.since
       case Heard(event, at) =>
         && sys.Time() <= sys.main.clock <= at <= next.Time() && SameSends(sys.history, next.history)
         && next.history.since == sys.history.Noted(sys.main, event, at).since
         && next.main.sync == sys.main.Handle(event, at).sync
         && next.main.device == sys.main.device && next.main.awake == sys.main.awake
       case Acted(now, ans) =>
         && sys.pc == Draining(now) && next.pc == sys.pc && sys.main.sync.Due(now).Some?
         && next.main == sys.main.Step(now, ans) && next.history == sys.history.Turned(sys.main, now, ans)
  }

  lemma NextMoves(sys: System, step: Step, cfg: Config)
    requires Sound(sys, cfg)
    ensures MovedBy(sys, Next(sys, step), MoveOf(sys, step))
    ensures sys.main.clock <= Next(sys, step).main.clock
    ensures Next(sys, step).pc.Draining? ==> Next(sys, step).pc.now <= Next(sys, step).main.clock
  {
    hide Main.Step, History.Turned, Sync.Due, Sync.Deadline, Sync.Masked;
    match step
    case Turn(ans) =>
      if sys.pc.Draining? { StepKeepsGood(sys.main, sys.pc.now, ans); }
    case _ =>
  }

  lemma SoundKept(sys: System, step: Step, cfg: Config)
    requires Sound(sys, cfg)
    ensures Sound(Next(sys, step), cfg)
    ensures MovedBy(sys, Next(sys, step), MoveOf(sys, step))
    ensures Next(sys, step).history.start == sys.history.start
  {
    hide Next, Main.Step, Sync.Due, MoveOf;
    NextMoves(sys, step, cfg);
    match MoveOf(sys, step)
    case Wait =>
    case Heard(event, at) => HandleKeepsGood(sys.main, event, at);
    case Acted(now, ans) => StepKeepsGood(sys.main, now, ans);
  }

  /** In every reachable state the device slot is filled exactly when no reconnect is scheduled, the
      link is polled exactly while it is down, a cable's link is up, and the clock has not run back. */
  lemma {:induction false} SoundAlways(cfg: Config, t0: nat, ans: Answer, steps: seq<Step>)
    ensures Sound(Reached(cfg, t0, ans, steps), cfg)
    ensures Reached(cfg, t0, ans, steps).history.start == t0
  {
    if steps == [] {
      StartIsGood(cfg, t0, ans);
    } else {
      var most := steps[..|steps| - 1];
      SoundAlways(cfg, t0, ans, most);
      SoundKept(Reached(cfg, t0, ans, most), steps[|steps| - 1], cfg);
    }
  }
}
