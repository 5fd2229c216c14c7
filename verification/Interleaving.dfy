/** The daemon object's event loop is one of the main threads that the interleaved system describes. */
module Interleaving {
  import opened Base
  import opened SyncSpec
  import opened MainLoop
  import opened System
  import EventLoop

  lemma {:induction false} RunConcat(sys: System, a: seq<Step>, b: seq<Step>)
    ensures Run(sys, a + b) == Run(Run(sys, a), b)
    decreases |b|
  {
    if b == [] {
      assert a + b == a;
    } else {
      RunConcat(sys, a, b[..|b| - 1]);
      assert (a + b)[..|a + b| - 1] == a + b[..|b| - 1];
    }
  }

  lemma RunCons(sys: System, step: Step, rest: seq<Step>)
    ensures Run(sys, [step] + rest) == Run(Next(sys, step), rest)
  {
    assert [step][..0] == [];
    assert Run(sys, [step]) == Next(Run(sys, []), step);
    RunConcat(sys, [step], rest);
  }

  /** The steps of the system that make up one drain. */
  function DrainSteps(m: Main, now: nat, answers: nat -> Answer, k: nat): seq<Step>
    requires m.Good() && now <= m.clock && m.sync.cfg.Positive()
    decreases Left(m.sync, now)
  {
    if m.sync.Due(now).None? then [Turn(answers(k))]
    else
      DrainUnfolds(m, now, answers, k);
      [Turn(answers(k))] + DrainSteps(m.Step(now, answers(k)), now, answers, k + 1)
  }

  lemma DrainStepsUnfold(m: Main, now: nat, answers: nat -> Answer, k: nat)
    requires m.Good() && now <= m.clock && m.sync.cfg.Positive() && m.sync.Due(now).Some?
    ensures
      var next := m.Step(now, answers(k));
      && next.Good() && now <= next.clock && next.sync.cfg.Positive()
      && DrainSteps(m, now, answers, k) == [Turn(answers(k))] + DrainSteps(next, now, answers, k + 1)
  {
    hide Main.Step, Main.Good, Sync.Due;
    DrainUnfolds(m, now, answers, k);
  }

  lemma DrainStepsStop(sys: System, answers: nat -> Answer, k: nat)
    requires sys.pc.Draining? && sys.main.Good() && sys.pc.now <= sys.main.clock && sys.main.sync.cfg.Positive()
    requires sys.main.sync.Due(sys.pc.now).None?
    ensures Run(sys, DrainSteps(sys.main, sys.pc.now, answers, k)) == sys.(pc := Head)
  {
    hide Main.Good, Sync.Due;
    assert [Turn(answers(k))] + [] == [Turn(answers(k))];
    RunCons(sys, Turn(answers(k)), []);
  }

  lemma {:induction false} DrainIsRun(sys: System, answers: nat -> Answer, k: nat)
    requires sys.pc.Draining? && sys.main.Good() && sys.pc.now <= sys.main.clock && sys.main.sync.cfg.Positive()
    ensures
      var end := Run(sys, DrainSteps(sys.main, sys.pc.now, answers, k));
      var d := Drain(sys.main, sys.pc.now, answers, k);
      && end.main == d.main && end.pc == Head && end.queue == sys.queue
      && end.history.log == sys.history.log + d.log
    decreases Left(sys.main.sync, sys.pc.now)
  {
    hide *;
    var now := sys.pc.now;
    if sys.main.sync.Due(now).None? {
      DrainStepsStop(sys, answers, k);
      DrainStops(sys.main, now, answers, k);
    } else {
      DrainUnfolds(sys.main, now, answers, k);
      DrainStepsUnfold(sys.main, now, answers, k);
      ActionCounted(sys, answers(k));
      var next := Next(sys, Turn(answers(k)));
      RunCons(sys, Turn(answers(k)), DrainSteps(next.main, now, answers, k + 1));
      DrainIsRun(next, answers, k + 1);
    }
  }

  lemma ActionCounted(sys: System, ans: Answer)
    requires sys.pc.Draining? && sys.main.sync.Due(sys.pc.now).Some?
    ensures
      var next := Next(sys, Turn(ans));
      && next.main == sys.main.Step(sys.pc.now, ans) && next.pc == sys.pc && next.queue == sys.queue
      && next.history.log == sys.history.log + [sys.main.sync.Due(sys.pc.now).value]
  {
    hide Main.Step;
  }

  /** The steps of the system that make up one turn of the event loop. */
  function TurnSteps(l: EventLoop.Loop, turn: EventLoop.Turn): seq<Step>
    requires l.Good()
  {
    EventLoop.ReceivedKeepsGood(l, turn);
    var after := EventLoop.Received(l, turn);
    var first :=
      if l.queue + turn.arrivals == [] then TimeOut(turn.lead, turn.slack + turn.pause)
      else Receive(turn.lead, turn.slack, turn.pause);
    if !after.running then [first]
    else [first] + DrainSteps(after.main, after.main.clock, turn.answers, 0)
  }

  /** One turn of the daemon's event loop is a run of the system: the same waits, the same events, the
      same actions in the same order. */
  lemma LoopTurnIsRun(sys: System, l: EventLoop.Loop, turn: EventLoop.Turn)
    requires l.Good() && l.running && sys.pc == Head
    requires sys.main == l.main && sys.queue == l.queue + turn.arrivals && sys.history.log == l.log
    ensures Shows(Run(sys, TurnSteps(l, turn)), EventLoop.Iterate(l, turn))
  {
    hide Main.Step, Main.Good, Sync.Due, Sync.Deadline, Drain, DrainSteps, History.Turned;
    var after := EventLoop.Received(l, turn);
    EventLoop.ReceivedKeepsGood(l, turn);
    var steps := TurnSteps(l, turn);
    var first := steps[0];
    var next := Next(sys, first);
    assert next.main == after.main && next.queue == after.queue;
    if after.running {
      assert next.pc == Draining(after.main.clock);
      RunCons(sys, first, DrainSteps(after.main, after.main.clock, turn.answers, 0));
      DrainIsRun(next, turn.answers, 0);
    } else {
      RunCons(sys, first, []);
      assert [first] + [] == [first];
    }
  }

  // ---------------------------------------------------------------- the whole loop

  /** The system between two turns of the main thread looks like the daemon; once the loop has ended, other
      threads may still write to a queue nobody reads. */
  predicate Shows(sys: System, l: EventLoop.Loop) {
    && sys.main == l.main && sys.history.log == l.log
    && sys.pc == (if l.running then Head else Exited)
    && (l.running ==> sys.queue == l.queue)
  }

  predicate OtherThread(step: Step) {
    !(step.Receive? || step.TimeOut? || step.Turn?)
  }

  /** What the other threads do before a turn of the main thread, and what that turn meets apart from the
      events they queued. */
  datatype Beat = Beat(others: seq<Step>, lead: nat, slack: nat, pause: nat, answers: nat -> Answer)
  {
    function With(arrivals: seq<Event>): EventLoop.Turn {
      EventLoop.Turn(arrivals, lead, slack, pause, answers)
    }
  }

  lemma OtherOnlyQueues(sys: System, step: Step)
    requires OtherThread(step)
    ensures
      var next := Next(sys, step);
      && next.main == sys.main && next.pc == sys.pc && next.history == sys.history && sys.queue <= next.queue
  {
  }

  lemma {:induction false} OthersOnlyQueue(sys: System, others: seq<Step>)
    requires forall step :: step in others ==> OtherThread(step)
    ensures
      var end := Run(sys, others);
      && end.main == sys.main && end.pc == sys.pc && end.history == sys.history && sys.queue <= end.queue
  {
    if others != [] {
      OthersOnlyQueue(sys, others[..|others| - 1]);
      assert others[|others| - 1] in others;
      OtherOnlyQueues(Run(sys, others[..|others| - 1]), others[|others| - 1]);
    }
  }

  /** What the queue of `after` holds beyond the queue of `before`. */
  function Appended(before: System, after: System): seq<Event> {
    after.queue[Min(|before.queue|, |after.queue|)..]
  }

  datatype Woven = Woven(steps: seq<Step>, turns: seq<EventLoop.Turn>)

  /** The script of beats as steps of the system and as turns of the daemon's loop.  Each beat contributes
      the steps of the other threads, then those of one turn, and that turn's arrivals are what the other
      threads have just queued. */
  function Weave(sys: System, l: EventLoop.Loop, beats: seq<Beat>): Woven
    requires l.Good()
  {
    if beats == [] then Woven([], [])
    else
      var most := Weave(sys, l, beats[..|beats| - 1]);
      var loop := EventLoop.Run(l, most.turns);
      var beat := beats[|beats| - 1];
      var turn := TurnOf(Run(sys, most.steps), beat);
      Woven(most.steps + BeatSteps(loop, turn, beat), most.turns + [turn])
  }

  function TurnOf(sys: System, beat: Beat): EventLoop.Turn {
    beat.With(Appended(sys, Run(sys, beat.others)))
  }

  function BeatSteps(l: EventLoop.Loop, turn: EventLoop.Turn, beat: Beat): seq<Step>
    requires l.Good()
  {
    beat.others + (if l.running then TurnSteps(l, turn) else [])
  }

  /** Any script of turns of the daemon's loop, with monitors and signals at work between them, is one run
      of the system: same state, same queue, same actions in the same order, same end. */
  lemma {:induction false} LoopIsRun(sys: System, l: EventLoop.Loop, beats: seq<Beat>)
    requires l.Good() && Shows(sys, l)
    requires forall beat, step :: beat in beats && step in beat.others ==> OtherThread(step)
    ensures
      var woven := Weave(sys, l, beats);
      |woven.turns| == |beats| && Shows(Run(sys, woven.steps), EventLoop.Run(l, woven.turns))
  {
    if beats != [] {
      var most, beat := beats[..|beats| - 1], beats[|beats| - 1];
      LoopIsRun(sys, l, most);
      var woven := Weave(sys, l, most);
      var mid, loop := Run(sys, woven.steps), EventLoop.Run(l, woven.turns);
      hide BeatSteps, TurnOf, Shows;
      BeatIsRun(mid, loop, beat);
      RunConcat(sys, woven.steps, BeatSteps(loop, TurnOf(mid, beat), beat));
      assert (woven.turns + [TurnOf(mid, beat)])[..|woven.turns|] == woven.turns;
    }
  }

  lemma WovenLast(sys: System, l: EventLoop.Loop, beats: seq<Beat>)
    requires l.Good() && beats != []
    ensures
      var most, woven := Weave(sys, l, beats[..|beats| - 1]), Weave(sys, l, beats);
      |woven.turns| == |most.turns| + 1 && most.steps <= woven.steps && most.turns <= woven.turns
  {
    hide Run, TurnOf, BeatSteps, EventLoop.Run;
  }

  lemma {:induction false} WovenLength(sys: System, l: EventLoop.Loop, beats: seq<Beat>)
    requires l.Good()
    ensures |Weave(sys, l, beats).turns| == |beats|
  {
    if beats != [] {
      WovenLast(sys, l, beats);
      WovenLength(sys, l, beats[..|beats| - 1]);
    }
  }

  lemma {:induction false} WovenPrefix(sys: System, l: EventLoop.Loop, beats: seq<Beat>, i: nat)
    requires l.Good() && i <= |beats|
    ensures Weave(sys, l, beats[..i]).steps <= Weave(sys, l, beats).steps
    ensures Weave(sys, l, beats[..i]).turns <= Weave(sys, l, beats).turns
  {
    hide *;
    var n := |beats| - 1;
    if i == |beats| {
      assert beats[..i] == beats;
    } else {
      WovenLast(sys, l, beats);
      WovenPrefix(sys, l, beats[..n], i);
      assert beats[..n][..i] == beats[..i];
    }
  }

  /** In that run each turn comes right after the steps of the other threads in its beat, and the events it
      finds arrived are exactly those that these steps queued. */
  lemma TurnsFindWhatIsQueued(sys: System, l: EventLoop.Loop, beats: seq<Beat>, i: nat)
    requires l.Good() && i < |beats|
    requires forall beat, step :: beat in beats && step in beat.others ==> OtherThread(step)
    ensures
      var before := Weave(sys, l, beats[..i]);
      var turns := Weave(sys, l, beats).turns;
      && |turns| == |beats| && turns[i] == beats[i].With(turns[i].arrivals)
      && before.steps + BeatSteps(EventLoop.Run(l, before.turns), turns[i], beats[i]) <= Weave(sys, l, beats).steps
      && Run(sys, before.steps + beats[i].others).queue == Run(sys, before.steps).queue + turns[i].arrivals
  {
    hide Run, BeatSteps, EventLoop.Run;
    var before := Weave(sys, l, beats[..i]);
    assert beats[..i + 1][..i] == beats[..i];
    WovenPrefix(sys, l, beats, i + 1);
    WovenLength(sys, l, beats);
    WovenLength(sys, l, beats[..i + 1]);
    WovenLength(sys, l, beats[..i]);
    RunConcat(sys, before.steps, beats[i].others);
    OthersOnlyQueue(Run(sys, before.steps), beats[i].others);
  }

  lemma BeatIsRun(sys: System, l: EventLoop.Loop, beat: Beat)
    requires l.Good() && Shows(sys, l)
    requires forall step :: step in beat.others ==> OtherThread(step)
    ensures Shows(Run(sys, BeatSteps(l, TurnOf(sys, beat), beat)), EventLoop.Iterate(l, TurnOf(sys, beat)))
    ensures Run(sys, beat.others).queue == sys.queue + TurnOf(sys, beat).arrivals
  {
    hide TurnSteps;
    OthersOnlyQueue(sys, beat.others);
    var mid, turn := Run(sys, beat.others), TurnOf(sys, beat);
    assert mid.queue == sys.queue + turn.arrivals;
    if l.running {
      LoopTurnIsRun(mid, l, turn);
      RunConcat(sys, beat.others, TurnSteps(l, turn));
    } else {
      assert BeatSteps(l, turn, beat) == beat.others;
    }
  }

  // ---------------------------------------------------------------- a loop that hears nothing more

  /** A step of the main thread in which every action gets the one answer. */
  predicate OwnStep(step: Step, ans: Answer) {
    !OtherThread(step) && (step.Turn? ==> step.answer == ans)
  }

  predicate OwnSteps(steps: seq<Step>, ans: Answer) {
    forall step :: step in steps ==> OwnStep(step, ans)
  }

  ghost predicate Quiet(turn: EventLoop.Turn, ans: Answer) {
    turn.arrivals == [] && forall k: nat :: turn.answers(k) == ans
  }

  lemma {:induction false} OwnDrainSteps(m: Main, now: nat, answers: nat -> Answer, k: nat, ans: Answer)
    requires m.Good() && now <= m.clock && m.sync.cfg.Positive() && forall i: nat :: answers(i) == ans
    ensures OwnSteps(DrainSteps(m, now, answers, k), ans)
    decreases Left(m.sync, now)
  {
    hide Main.Step, Main.Good, Sync.Due;
    if m.sync.Due(now).Some? {
      DrainUnfolds(m, now, answers, k);
      DrainStepsUnfold(m, now, answers, k);
      OwnDrainSteps(m.Step(now, answers(k)), now, answers, k + 1, ans);
    }
  }

  lemma OwnTurnSteps(l: EventLoop.Loop, turn: EventLoop.Turn, ans: Answer)
    requires l.Good() && Quiet(turn, ans)
    ensures OwnSteps(TurnSteps(l, turn), ans)
  {
    hide DrainSteps, EventLoop.Received, Main.Good;
    var after := EventLoop.Received(l, turn);
    EventLoop.ReceivedKeepsGood(l, turn);
    if after.running { OwnDrainSteps(after.main, after.main.clock, turn.answers, 0, ans); }
  }

  /** Turns of the daemon's loop between which nothing is queued are a run of the main thread alone. */
  lemma {:induction false} QuietLoopIsRun(sys: System, l: EventLoop.Loop, turns: seq<EventLoop.Turn>, ans: Answer)
    returns (steps: seq<Step>)
    requires l.Good() && Shows(sys, l) && forall turn :: turn in turns ==> Quiet(turn, ans)
    ensures Shows(Run(sys, steps), EventLoop.Run(l, turns)) && OwnSteps(steps, ans)
  {
    if turns == [] {
      steps := [];
    } else {
      var most, turn := turns[..|turns| - 1], turns[|turns| - 1];
      steps := QuietLoopIsRun(sys, l, most, ans);
      var mid, loop := Run(sys, steps), EventLoop.Run(l, most);
      assert Quiet(turn, ans);
      hide TurnSteps, Quiet, EventLoop.Iterate, Run;
      if loop.running {
        assert loop.queue + turn.arrivals == loop.queue by { NothingArrives(turn, ans); }
        LoopTurnIsRun(mid, loop, turn);
        OwnTurnSteps(loop, turn, ans);
        RunConcat(sys, steps, TurnSteps(loop, turn));
        steps := steps + TurnSteps(loop, turn);
      } else {
        StoppedStays(loop, turn);
      }
    }
  }

  lemma NothingArrives(turn: EventLoop.Turn, ans: Answer)
    requires Quiet(turn, ans)
    ensures turn.arrivals == []
  {
  }

  lemma StoppedStays(l: EventLoop.Loop, turn: EventLoop.Turn)
    requires l.Good() && !l.running
    ensures EventLoop.Iterate(l, turn) == l
  {
  }
}
