/** When the inner loop ends, whatever the environment answers. */
module Ending {
  import opened Base
  import opened SyncSpec
  import opened MainLoop
  import opened System
  import opened Runs
  import opened Scenarios
  import Hid

  ghost predicate Ends(m: Main, now: nat, answers: nat -> Answer) {
    exists turns: nat :: Turns(m, now, answers, turns).sync.Due(now).None?
  }

  /** Every drain that any run enters comes to an end against every environment. */
  ghost predicate AlwaysEnds(cfg: Config) {
    forall sys: System, answers: nat -> Answer ::
      Reachable(sys, cfg) && sys.pc.Draining? ==> Ends(sys.main, sys.pc.now, answers)
  }

  /** The inner loop ends in every run and against every environment if and only if none of the three
      intervals is zero. */
  lemma DrainEndsIffPositive(cfg: Config)
    ensures AlwaysEnds(cfg) <==> cfg.Positive()
  {
    if cfg.Positive() {
      forall sys: System, answers: nat -> Answer | Reachable(sys, cfg) && sys.pc.Draining?
        ensures Ends(sys.main, sys.pc.now, answers)
      {
        var t0: nat, ans: Answer, steps: seq<Step> :| Reached(cfg, t0, ans, steps) == sys;
        SoundAlways(cfg, t0, ans, steps);
        FourTurnsAreEnough(sys.main, sys.pc.now, answers, 4);
      }
    } else {
      var sys, action := StuckIsReached(cfg);
      var answers := Always(Discouraging(action));
      forall turns: nat ensures Turns(sys.main, sys.pc.now, answers, turns).sync.Due(sys.pc.now).Some? {
        NeverEnds(sys.main, sys.pc.now, action, turns);
      }
      assert !Ends(sys.main, sys.pc.now, answers);
    }
  }

  /** The first drain of a daemon never ends when the time sync is due again at once, when the link stays
      down and is asked for again at once, or when a keyboard is not found and searched for again at once. */
  lemma StuckIsReached(cfg: Config) returns (sys: System, action: Action)
    requires !cfg.Positive()
    ensures Reachable(sys, cfg) && sys.pc.Draining? && Stuck(sys.main, sys.pc.now, action)
  {
    var ans;
    if cfg.timeSync == 0 {
      action, ans := SendSysparam(0), HEARD;
    } else if cfg.statusPoll == 0 {
      action, ans := PollLinkState, HEARD.(wire := Hid.Reply(0, 0));
    } else {
      action, ans := ConnectDevice, SILENT;
    }
    var begin := Begin(cfg, 0, ans);
    assert Reached(cfg, 0, ans, []) == begin;
    StepReaches(begin, TimeOut(0, 0), cfg);
    sys := Next(begin, TimeOut(0, 0));
  }

  /** The answer that leaves an action owed when its interval is zero: an acknowledged send, a link
      that stays down, a search that finds nothing. */
  function Discouraging(action: Action): Answer {
    Answer(None, 0, Hid.Reply(0, if action.SendSysparam? then 1 else 0), 0)
  }

  predicate Stuck(m: Main, now: nat, action: Action) {
    && m.Good() && m.clock == now
    && m.sync.Due(now).Some? && m.sync.Due(now).value.Rank() == action.Rank()
    && match action
       case SendSysparam(_) => m.sync.cfg.timeSync == 0
       case PollLinkState => m.sync.cfg.statusPoll == 0
       case ConnectDevice => m.sync.cfg.reconnect == 0
       case SpawnPulseMonitor => false
  }

  lemma StuckStays(m: Main, now: nat, action: Action)
    requires Stuck(m, now, action)
    ensures Stuck(m.Step(now, Discouraging(action)), now, action)
  {
    var ans := Discouraging(action);
    var f := m.(sync := m.sync.Fired(now));
    StepKeepsGood(m, now, ans);
    match action
    case SendSysparam(_) => assert m.Step(now, ans) == f.Send(now, ans);
    case PollLinkState => assert m.Step(now, ans) == f.QueryLink(now, ans);
    case ConnectDevice => assert m.Step(now, ans) == f.Connect(ans);
  }

  lemma {:induction false} NeverEnds(m: Main, now: nat, action: Action, turns: nat)
    requires Stuck(m, now, action)
    ensures Stuck(Turns(m, now, Always(Discouraging(action)), turns), now, action)
  {
    if turns > 0 {
      NeverEnds(m, now, action, turns - 1);
      StuckStays(Turns(m, now, Always(Discouraging(action)), turns - 1), now, action);
    }
  }
}
