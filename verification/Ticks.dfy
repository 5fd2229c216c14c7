/** Sleeping until the deadline does what polling at every tick would do. */
module Ticks {
  import opened Base
  import opened SyncSpec
  import opened MainLoop
  import opened Deadline
  import EventLoop

  /** An event and the earliest time at which the channel delivers it. */
  datatype Post = Post(at: nat, event: Event)

  datatype Timed = Timed(at: nat, action: Action)

  /** The daemon, the events still to come and the number of answers used up. */
  datatype World = World(main: Main, posts: seq<Post>, used: nat)
  {
    predicate Good() {
      main.Good() && main.sync.cfg.Positive()
    }

    predicate Mail(now: nat) {
      posts != [] && posts[0].at <= now
    }

    predicate Stops(now: nat) {
      Mail(now) && posts[0].event.Shutdown?
    }

    /** Nothing happens on a wake at `now`. */
    predicate Idle(now: nat) {
      !Mail(now) && main.sync.Due(now).None?
    }
  }

  datatype Woken = Woken(world: World, actions: seq<Action>)

  function AtTime(w: World, now: nat): World {
    w.(main := w.main.(clock := now))
  }

  /** The daemon once it has taken at most one event at `now`. */
  function Read(w: World, now: nat): World {
    if w.Mail(now) then w.(main := w.main.Handle(w.posts[0].event, now), posts := w.posts[1..])
    else AtTime(w, now)
  }

  lemma ReadKeepsGood(w: World, now: nat)
    requires w.Good()
    ensures Read(w, now).Good() && Read(w, now).main.clock == now
  {
    if w.Mail(now) { HandleKeepsGood(w.main, w.posts[0].event, now); }
  }

  /** One wake at `now`: at most one event, then a drain. */
  function Wake(w: World, now: nat, answers: nat -> Answer): (r: Woken)
    requires w.Good()
    ensures r.world.Good() && now <= r.world.main.clock
    ensures r.world.main.sync.Due(now).None?
    ensures r.world.posts == if w.Mail(now) then w.posts[1..] else w.posts
  {
    hide Drain;
    ReadKeepsGood(w, now);
    var read := Read(w, now);
    var d := Drain(read.main, now, answers, w.used);
    Woken(World(d.main, read.posts, w.used + |d.log|), d.log)
  }

  function Stamp(now: nat, actions: seq<Action>): seq<Timed> {
    seq(|actions|, i requires 0 <= i < |actions| => Timed(now, actions[i]))
  }

  /** The simple daemon: look at the channel and poll at every tick, again at once after an event, and
      after the time an action took. */
  function TickRun(w: World, now: nat, horizon: nat, answers: nat -> Answer): seq<Timed>
    requires w.Good()
    decreases horizon - now, |w.posts|
  {
    if horizon <= now || w.Stops(now) then []
    else
      var woken := Wake(w, now, answers);
      var clock := woken.world.main.clock;
      var next := if w.Mail(now) || now < clock then clock else now + 1;
      Stamp(now, woken.actions) + TickRun(woken.world, next, horizon, answers)
  }

  /** When `recv_timeout` returns if it is called at `now`. */
  function WakeTime(w: World, now: nat): nat {
    var deadline := now + w.main.sync.Deadline(now);
    if w.posts != [] && w.posts[0].at <= deadline then Max(now, w.posts[0].at) else deadline
  }

  /** The real daemon: sleep until the deadline or the next event.  A wake that finds nothing to do and
      took no time still lets one tick pass. */
  function EventRun(w: World, now: nat, horizon: nat, answers: nat -> Answer): seq<Timed>
    requires w.Good()
    decreases horizon - now, |w.posts|, if w.main.sync.Due(now).Some? then 1 else 0
  {
    var at := WakeTime(w, now);
    if horizon <= at || w.Stops(at) then []
    else
      var woken := Wake(w, at, answers);
      var next := if at == now && w.Idle(now) then now + 1 else woken.world.main.clock;
      Stamp(at, woken.actions) + EventRun(woken.world, next, horizon, answers)
  }

  lemma IdleWake(w: World, now: nat, answers: nat -> Answer)
    requires w.Good() && w.Idle(now)
    ensures Wake(w, now, answers) == Woken(AtTime(w, now), [])
  {
    DrainStops(w.main.(clock := now), now, answers, w.used);
  }

  /** The clock the daemon read before a wake has no say in it. */
  lemma ClockDoesNotMatter(w: World, clock: nat, now: nat, horizon: nat, answers: nat -> Answer)
    requires w.Good()
    ensures AtTime(w, clock).Good()
    ensures TickRun(AtTime(w, clock), now, horizon, answers) == TickRun(w, now, horizon, answers)
  {
    hide Drain, Main.Good;
    AtTimeKeepsGood(w, clock);
    var v := AtTime(w, clock);
    assert Read(v, now) == Read(w, now);
    if now < horizon && !w.Stops(now) {
      assert Wake(v, now, answers) == Wake(w, now, answers);
    }
  }

  lemma AtTimeKeepsGood(w: World, clock: nat)
    requires w.Good()
    ensures AtTime(w, clock).Good()
  {
  }

  /** A tick with nothing to do can be skipped. */
  lemma SkipIdleTick(w: World, now: nat, horizon: nat, answers: nat -> Answer)
    requires w.Good() && w.Idle(now)
    ensures TickRun(w, now, horizon, answers) == TickRun(w, now + 1, horizon, answers)
  {
    hide Drain, Wake, Main.Good, Sync.Due;
    if now < horizon {
      IdleWake(w, now, answers);
      ClockDoesNotMatter(w, now, now + 1, horizon, answers);
      assert Stamp(now, []) == [];
    }
  }

  lemma {:induction false} SkipIdleTicks(w: World, now: nat, at: nat, horizon: nat, answers: nat -> Answer)
    requires w.Good() && now <= at
    requires forall t: nat :: now <= t < at ==> w.Idle(t)
    ensures TickRun(w, now, horizon, answers) == TickRun(w, at, horizon, answers)
    decreases at - now
  {
    hide TickRun, Main.Good, World.Idle;
    if now < at {
      SkipIdleTick(w, now, horizon, answers);
      SkipIdleTicks(w, now + 1, at, horizon, answers);
    }
  }

  lemma NothingBeforeWakeTime(w: World, now: nat, t: nat)
    requires w.Good() && now <= t < WakeTime(w, now)
    ensures w.Idle(t)
  {
    DeadlineMissesNothing(w.main.sync, now, t);
  }

  /** Refinement: for every script of events and answers, the daemon that sleeps until its deadlines
      performs exactly the actions, at exactly the times, of the one that polls at every tick. */
  lemma {:induction false} EventRunIsTickRun(w: World, now: nat, horizon: nat, answers: nat -> Answer)
    requires w.Good()
    ensures EventRun(w, now, horizon, answers) == TickRun(w, now, horizon, answers)
    decreases horizon - now, |w.posts|, if w.main.sync.Due(now).Some? then 1 else 0
  {
    hide Drain, Wake, WakeTime, Main.Good, Sync.Due;
    var at := WakeTime(w, now);
    forall t: nat | now <= t < at ensures w.Idle(t) { NothingBeforeWakeTime(w, now, t); }
    WakeTimeLater(w, now);
    SkipIdleTicks(w, now, at, horizon, answers);
    if at < horizon && !w.Stops(at) {
      var woken := Wake(w, at, answers);
      var clock := woken.world.main.clock;
      if at == now && w.Idle(now) {
        IdleWake(w, now, answers);
        EventRunIsTickRun(woken.world, now + 1, horizon, answers);
      } else {
        EventRunIsTickRun(woken.world, clock, horizon, answers);
        if !w.Mail(at) && clock == at {
          SkipIdleTick(woken.world, at, horizon, answers);
        }
      }
    }
  }

  lemma WakeTimeLater(w: World, now: nat)
    ensures now <= WakeTime(w, now)
  {
  }

  // ---------------------------------------------------------------- the daemon's own loop

  lemma {:induction false} DrainShift(m: Main, now: nat, a: nat -> Answer, k: nat, b: nat -> Answer, j: nat)
    requires m.Good() && now <= m.clock && m.sync.cfg.Positive()
    requires forall n: nat :: k <= n ==> a(n) == b(j + n - k)
    ensures Drain(m, now, a, k) == Drain(m, now, b, j)
    decreases Left(m.sync, now)
  {
    assert a(k) == b(j);
    hide Main.Step, Main.Good, Main.Perform, Sync.Due, Sync.Fired;
    if m.sync.Due(now).Some? {
      DrainUnfolds(m, now, a, k);
      DrainUnfolds(m, now, b, j);
      DrainShift(m.Step(now, a(k)), now, a, k + 1, b, j + 1);
    } else {
      DrainStops(m, now, a, k);
      DrainStops(m, now, b, j);
    }
  }

  function From(answers: nat -> Answer, k: nat): nat -> Answer {
    (i: nat) => answers(k + i)
  }

  function Events(posts: seq<Post>): seq<Event> {
    seq(|posts|, i requires 0 <= i < |posts| => posts[i].event)
  }

  /** How many of the posts the channel holds at a time. */
  function Arrived(posts: seq<Post>, at: nat): (n: nat)
    ensures n <= |posts|
  {
    if posts == [] || at < posts[0].at then 0 else 1 + Arrived(posts[1..], at)
  }

  lemma {:induction false} ArrivedGrows(posts: seq<Post>, at: nat, later: nat)
    requires at <= later
    ensures Arrived(posts, at) <= Arrived(posts, later)
  {
    if posts != [] { ArrivedGrows(posts[1..], at, later); }
  }

  /** The event loop with the first n posts in its queue. */
  function LoopOf(w: World, n: nat, log: seq<Action>): EventLoop.Loop
    requires n <= |w.posts|
  {
    EventLoop.Loop(w.main, Events(w.posts[..n]), true, log)
  }

  /** What one turn of the event loop meets when it starts at `now` with n posts queued, wakes on time and
      finds every post that has reached the channel by then. */
  function OnTime(w: World, n: nat, now: nat, answers: nat -> Answer): EventLoop.Turn
    requires w.main.clock <= now && n <= Arrived(w.posts, now)
  {
    var at := WakeTime(w, now);
    ArrivedGrows(w.posts, now, at);
    EventLoop.Turn(Events(w.posts[n..Arrived(w.posts, at)]), now - w.main.clock, if w.Mail(at) then at - now else 0, 0,
                   From(answers, w.used))
  }

  /** How many posts are queued after a wake. */
  function StillQueued(w: World, at: nat): (n: nat)
    ensures n <= Arrived(if w.Mail(at) then w.posts[1..] else w.posts, at)
  {
    if w.Mail(at) then Arrived(w.posts, at) - 1 else 0
  }

  lemma EventsJoin(posts: seq<Post>, n: nat, m: nat)
    requires n <= m <= |posts|
    ensures Events(posts[..n]) + Events(posts[n..m]) == Events(posts[..m])
    ensures m > 0 ==> Events(posts[..m])[0] == posts[0].event
    ensures m > 0 ==> Events(posts[..m])[1..] == Events(posts[1..][..m - 1])
  {
  }

  lemma OnTimeReceives(w: World, n: nat, now: nat, answers: nat -> Answer, log: seq<Action>)
    requires w.main.clock <= now && n <= Arrived(w.posts, now)
    ensures
      var at := WakeTime(w, now);
      var l := EventLoop.Received(LoopOf(w, n, log), OnTime(w, n, now, answers));
      && l.main == Read(w, at).main && l.log == log && l.running == !w.Stops(at)
      && StillQueued(w, at) <= |Read(w, at).posts| && l.queue == Events(Read(w, at).posts[..StillQueued(w, at)])
  {
    hide Main.Handle, Sync.Deadline, Events, Arrived;
    var at := WakeTime(w, now);
    ArrivedGrows(w.posts, now, at);
    MailArrived(w, at);
    EventsJoin(w.posts, n, Arrived(w.posts, at));
    var l, turn := LoopOf(w, n, log), OnTime(w, n, now, answers);
    assert l.queue + turn.arrivals == Events(w.posts[..Arrived(w.posts, at)]);
    if w.Mail(at) {
      assert w.main.clock + turn.lead + turn.slack == at;
    } else {
      assert w.main.clock + turn.lead + w.main.sync.Deadline(now) == at;
    }
  }

  lemma MailArrived(w: World, at: nat)
    ensures w.Mail(at) <==> Arrived(w.posts, at) > 0
    ensures |Events(w.posts[..Arrived(w.posts, at)])| == Arrived(w.posts, at)
    ensures Events(w.posts[..0]) == []
  {
  }

  /** A wake of the sleeping daemon is a turn of the daemon's event loop, whatever is in its queue already. */
  lemma WakeIsLoopTurn(w: World, n: nat, now: nat, answers: nat -> Answer, log: seq<Action>)
    requires w.Good() && w.main.clock <= now && n <= Arrived(w.posts, now) && !w.Stops(WakeTime(w, now))
    ensures
      var l := LoopOf(w, n, log);
      var at := WakeTime(w, now);
      var woken := Wake(w, at, answers);
      && l.Good() && StillQueued(w, at) <= |woken.world.posts|
      && EventLoop.Iterate(l, OnTime(w, n, now, answers)) ==
           LoopOf(woken.world, StillQueued(w, at), log + woken.actions)
  {
    hide Drain, Main.Good, Sync.Due, StillQueued, Arrived, WakeTime, Events, EventLoop.Received, From;
    var at := WakeTime(w, now);
    var l, turn := LoopOf(w, n, log), OnTime(w, n, now, answers);
    OnTimeReceives(w, n, now, answers, log);
    EventLoop.ReceivedKeepsGood(l, turn);
    ReadKeepsGood(w, at);
    FromShift(answers, w.used);
    DrainShift(Read(w, at).main, at, answers, w.used, turn.answers, 0);
  }

  lemma FromShift(answers: nat -> Answer, used: nat)
    ensures forall k: nat :: used <= k ==> answers(k) == From(answers, used)(0 + k - used)
  {
    forall k: nat | used <= k ensures answers(k) == From(answers, used)(0 + k - used) {
      assert used + (0 + k - used) == k;
    }
  }

  function Actions(run: seq<Timed>): seq<Action> {
    seq(|run|, i requires 0 <= i < |run| => run[i].action)
  }

  lemma ActionsJoin(now: nat, log: seq<Action>, rest: seq<Timed>)
    ensures Actions(Stamp(now, log) + rest) == log + Actions(rest)
  {
  }

  lemma NoActions(log: seq<Action>)
    ensures log + Actions([]) == log
  {
  }

  /** The turns of the event loop that the sleeping daemon goes through; a shutdown takes one more turn. */
  function OnTimeTurns(w: World, n: nat, now: nat, horizon: nat, answers: nat -> Answer): seq<EventLoop.Turn>
    requires w.Good() && w.main.clock <= now && n <= Arrived(w.posts, now)
    decreases horizon - now, |w.posts|, if w.main.sync.Due(now).Some? then 1 else 0
  {
    var at := WakeTime(w, now);
    if horizon <= at then []
    else if w.Stops(at) then [OnTime(w, n, now, answers)]
    else
      var woken := Wake(w, at, answers);
      var next := NextTime(w, now, answers);
      NextIsLater(w, now, answers);
      [OnTime(w, n, now, answers)] + OnTimeTurns(woken.world, StillQueued(w, at), next, horizon, answers)
  }

  /** When the sleeping daemon calls `recv_timeout` again. */
  function NextTime(w: World, now: nat, answers: nat -> Answer): nat
    requires w.Good()
  {
    var at := WakeTime(w, now);
    if at == now && w.Idle(now) then now + 1 else Wake(w, at, answers).world.main.clock
  }

  lemma NextIsLater(w: World, now: nat, answers: nat -> Answer)
    requires w.Good()
    ensures
      var at := WakeTime(w, now);
      var v, next := Wake(w, at, answers).world, NextTime(w, now, answers);
      && now <= at <= next && v.main.clock <= next && StillQueued(w, at) <= Arrived(v.posts, next)
      && (next == now && |v.posts| >= |w.posts| ==>
            |v.posts| == |w.posts| && w.main.sync.Due(now).Some? && v.main.sync.Due(now).None?)
  {
    var at := WakeTime(w, now);
    var v, next := Wake(w, at, answers).world, NextTime(w, now, answers);
    WakeTimeLater(w, now);
    if at == now && w.Idle(now) { IdleWake(w, now, answers); }
    ArrivedGrows(v.posts, at, next);
    hide Wake, WakeTime, Arrived, Main.Good, Sync.Due;
  }

  lemma ShutdownTurn(w: World, n: nat, now: nat, answers: nat -> Answer, log: seq<Action>)
    requires w.Good() && w.main.clock <= now && n <= Arrived(w.posts, now) && w.Stops(WakeTime(w, now))
    ensures LoopOf(w, n, log).Good()
    ensures
      var end := EventLoop.Iterate(LoopOf(w, n, log), OnTime(w, n, now, answers));
      end.log == log && !end.running
  {
    hide OnTime, WakeTime, EventLoop.Received;
    OnTimeReceives(w, n, now, answers, log);
  }

  /** The sleeping daemon is the daemon's event loop: for every script of events and answers, with any number
      of them queued already, the actions it performs are the log of the loop over the turns that wake on
      time. */
  lemma {:induction false} EventRunIsLoopRun(
      w: World, n: nat, now: nat, horizon: nat, answers: nat -> Answer, log: seq<Action>)
    requires w.Good() && w.main.clock <= now && n <= Arrived(w.posts, now)
    ensures LoopOf(w, n, log).Good()
    ensures
      EventLoop.Run(LoopOf(w, n, log), OnTimeTurns(w, n, now, horizon, answers)).log
      == log + Actions(EventRun(w, now, horizon, answers))
    decreases horizon - now, |w.posts|, if w.main.sync.Due(now).Some? then 1 else 0
  {
    hide Drain, Wake, WakeTime, Main.Good, Sync.Due, OnTime, StillQueued, Arrived, Actions, EventLoop.Iterate;
    var at := WakeTime(w, now);
    var l, turn := LoopOf(w, n, log), OnTime(w, n, now, answers);
    if horizon <= at {
      NoActions(log);
    } else if w.Stops(at) {
      ShutdownTurn(w, n, now, answers, log);
      EventLoop.RunCons(l, turn, []);
      assert [turn] + [] == [turn];
      NoActions(log);
    } else {
      var woken := Wake(w, at, answers);
      var next := NextTime(w, now, answers);
      var m := StillQueued(w, at);
      NextIsLater(w, now, answers);
      WakeIsLoopTurn(w, n, now, answers, log);
      EventRunIsLoopRun(woken.world, m, next, horizon, answers, log + woken.actions);
      EventLoop.RunCons(l, turn, OnTimeTurns(woken.world, m, next, horizon, answers));
      ActionsJoin(at, woken.actions, EventRun(woken.world, next, horizon, answers));
    }
  }
}
