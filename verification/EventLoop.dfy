/** Whole turns of the event loop of src/daemon.rs: wait for an event or a timeout, handle it, drain. */
module EventLoop {
  import opened SyncSpec
  import opened MainLoop

  /** What one turn of the loop meets: the events other threads queued before the wait returned, the
      time before the deadline was computed, how much later than needed the wait returned, the time
      spent on the event, and the answers to the actions of the drain. */
  datatype Turn = Turn(arrivals: seq<Event>, lead: nat, slack: nat, pause: nat, answers: nat -> Answer)

  datatype Loop = Loop(main: Main, queue: seq<Event>, running: bool, log: seq<Action>)
  {
    predicate Good() {
      main.Good() && main.sync.cfg.Positive()
    }
  }

  /** The daemon and its queue after `recv_timeout`: the oldest event, or at least the deadline. */
  function Received(l: Loop, turn: Turn): (r: Loop) {
    var queue := l.queue + turn.arrivals;
    var head := l.main.clock + turn.lead;
    if queue == [] then
      l.(main := l.main.(clock := head + l.main.sync.Deadline(head) + turn.slack + turn.pause))
    else
      var after := l.main.Handle(queue[0], head + turn.slack);
      Loop(after.(clock := after.clock + turn.pause), queue[1..], !queue[0].Shutdown?, l.log)
  }

  lemma ReceivedKeepsGood(l: Loop, turn: Turn)
    requires l.Good()
    ensures Received(l, turn).Good() && Received(l, turn).main.sync.cfg == l.main.sync.cfg
  {
    hide Sync.Deadline, Main.Handle;
    var queue := l.queue + turn.arrivals;
    if queue != [] {
      HandleKeepsGood(l.main, queue[0], l.main.clock + turn.lead + turn.slack);
    }
  }

  function Iterate(l: Loop, turn: Turn): (r: Loop)
    requires l.Good()
    ensures r.Good() && r.main.sync.cfg == l.main.sync.cfg
  {
    if !l.running then l
    else
      ReceivedKeepsGood(l, turn);
      var after := Received(l, turn);
      if !after.running then after
      else
        var d := Drain(after.main, after.main.clock, turn.answers, 0);
        after.(main := d.main, log := after.log + d.log)
  }

  function Run(l: Loop, turns: seq<Turn>): (r: Loop)
    requires l.Good()
    ensures r.Good()
  {
    if turns == [] then l
    else Iterate(Run(l, turns[..|turns| - 1]), turns[|turns| - 1])
  }

  lemma {:induction false} RunCons(l: Loop, turn: Turn, rest: seq<Turn>)
    requires l.Good()
    ensures Run(l, [turn] + rest) == Run(Iterate(l, turn), rest)
    decreases |rest|
  {
    hide Iterate, Loop.Good;
    var all := [turn] + rest;
    if rest == [] {
      assert all[..|all| - 1] == [];
      assert Run(l, []) == l;
    } else {
      RunCons(l, turn, rest[..|rest| - 1]);
      assert all[..|all| - 1] == [turn] + rest[..|rest| - 1];
    }
  }
}
