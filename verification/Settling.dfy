/** The daemon left alone with a keyboard that answers, when the loop wakes on time and answers take no time:
    by when it shows the volume, and that it shows nothing else afterwards. */
module Settling {
  import opened Base
  import opened SyncSpec
  import opened MainLoop
  import opened System
  import opened Runs
  import opened Monitors
  import opened Progress
  import opened Ticks
  import opened Scenarios
  import opened Interleaving
  import Hid

  /** The keyboard is found, its link is up and it acknowledges, however long that takes. */
  predicate Answers(ans: Answer) {
    ans.found.Some? && ans.wire.Reply? && ans.wire.command < 0x80 && ans.wire.data != 0
  }

  lemma AnswersAcknowledge(ans: Answer, device: Hid.Protocol)
    requires Answers(ans)
    ensures Hid.SendSysparam(device, ans.wire) == Hid.Acked
    ensures Hid.LinkState(device, ans.wire) == Hid.LinkUp
  {
  }

  /** The keyboard answers, and at once. */
  function Friendly(protocol: Hid.Protocol): (ans: Answer)
    ensures Answers(ans)
  {
    HEARD.(found := Some(protocol))
  }

  /** Every timer that may stand before a send runs out by `limit`. */
  predicate Ready(s: Sync, limit: nat) {
    && (s.deviceAt.Some? ==> s.deviceAt.value <= limit)
    && (s.deviceAt.None? ==> s.nextSendAt <= limit)
    && (s.statusAt.Some? ==> s.statusAt.value <= limit)
  }

  /** There is something to send by `limit`; a device yet to be found brings its own initial sync. */
  predicate Owing(s: Sync, limit: nat) {
    s.deviceAt.Some? || s.nextTimeSync <= limit || (s.volDirty && s.volLastChange + s.cfg.debounce <= limit)
  }

  /** Some event in the queue is a volume other than the one known. */
  predicate Brings(lastVol: Option<Byte>, queue: seq<Event>) {
    exists i :: 0 <= i < |queue| && queue[i].VolumeChanged? && lastVol != Some(queue[i].vol)
  }

  function VolumeOf(lastVol: Option<Byte>): Byte {
    if lastVol.Some? then lastVol.value else 0
  }

  lemma BringsUnfolds(lastVol: Option<Byte>, queue: seq<Event>)
    requires queue != []
    ensures
      var isNew := queue[0].VolumeChanged? && lastVol != Some(queue[0].vol);
      Brings(lastVol, queue) <==> isNew || Brings(lastVol, queue[1..])
  {
    if Brings(lastVol, queue) {
      var i :| 0 <= i < |queue| && queue[i].VolumeChanged? && lastVol != Some(queue[i].vol);
      if i > 0 { assert queue[1..][i - 1] == queue[i]; }
    }
    if Brings(lastVol, queue[1..]) {
      var i :| 0 <= i < |queue[1..]| && queue[1..][i].VolumeChanged? && lastVol != Some(queue[1..][i].vol);
      assert queue[i + 1] == queue[1..][i];
    }
  }

  lemma {:induction false} NothingNewHeard(lastVol: Option<Byte>, queue: seq<Event>)
    requires !Brings(lastVol, queue)
    ensures LastHeard(lastVol, queue) == lastVol
    decreases |queue|
  {
    if queue != [] {
      BringsUnfolds(lastVol, queue);
      NothingNewHeard(lastVol, queue[1..]);
    }
  }

  // ---------------------------------------------------------------- one drain

  /** In a drain nothing is sent but the volume the daemon knows, whatever the answers. */
  predicate Carry(log: seq<Action>, vol: Byte) {
    forall i :: 0 <= i < |log| && log[i].SendSysparam? ==> log[i].vol == vol
  }

  lemma {:induction false} DrainShows(m: Main, now: nat, answers: nat -> Answer, k: nat)
    requires m.Good() && now <= m.clock && m.sync.cfg.Positive()
    ensures
      var d := Drain(m, now, answers, k);
      d.main.sync.lastVol == m.sync.lastVol && Carry(d.log, m.sync.Shown())
    decreases Left(m.sync, now)
  {
    hide Main.Step, Main.Good, Sync.Fired;
    if m.sync.Due(now).None? {
      DrainStops(m, now, answers, k);
    } else {
      DrainUnfolds(m, now, answers, k);
      TurnAndPulse(m, now, answers(k));
      assert m.sync.Due(now).value.SendSysparam? ==> m.sync.Due(now).value.vol == m.sync.Shown();
      hide Sync.Due, Drain;
      DrainShows(m.Step(now, answers(k)), now, answers, k + 1);
    }
  }

  lemma ReadySend(m: Main, now: nat, limit: nat, protocol: Hid.Protocol)
    requires m.Good() && now <= m.clock <= limit && Ready(m.sync, limit)
    requires m.sync.Due(now).Some? && m.sync.Due(now).value.SendSysparam?
    ensures
      var next := m.Step(now, Friendly(protocol));
      next.clock == m.clock && Ready(next.sync, limit)
  {
    NoActionIsDropped(m, now);
    assert m.Step(now, Friendly(protocol)) == m.(sync := m.sync.Fired(now)).Send(now, Friendly(protocol));
  }

  lemma ReadyQuery(m: Main, now: nat, limit: nat, protocol: Hid.Protocol)
    requires m.Good() && now <= m.clock <= limit && Ready(m.sync, limit) && m.sync.Due(now) == Some(PollLinkState)
    ensures
      var next := m.Step(now, Friendly(protocol));
      next.clock == m.clock && Ready(next.sync, limit) && (Owing(m.sync, limit) ==> Owing(next.sync, limit))
  {
    NoActionIsDropped(m, now);
    assert m.Step(now, Friendly(protocol)) == m.(sync := m.sync.Fired(now)).QueryLink(now, Friendly(protocol));
  }

  lemma ReadyStep(m: Main, now: nat, limit: nat, protocol: Hid.Protocol)
    requires m.Good() && now <= m.clock <= limit && Ready(m.sync, limit) && m.sync.Due(now).Some?
    ensures
      var next := m.Step(now, Friendly(protocol));
      && next.clock == m.clock && Ready(next.sync, limit)
      && (Owing(m.sync, limit) && !m.sync.Due(now).value.SendSysparam? ==> Owing(next.sync, limit))
  {
    var ans := Friendly(protocol);
    var f := m.(sync := m.sync.Fired(now));
    match m.sync.Due(now).value
    case ConnectDevice => assert m.Step(now, ans) == f.Connect(ans);
    case SpawnPulseMonitor => assert m.Step(now, ans) == f.SpawnPulse();
    case PollLinkState => hide Main.Step; ReadyQuery(m, now, limit, protocol);
    case SendSysparam(_) => hide Main.Step; ReadySend(m, now, limit, protocol);
  }

  lemma OwedAtLimit(s: Sync, now: nat, limit: nat)
    requires s.Valid() && Ready(s, limit) && Owing(s, limit) && now <= limit && s.Due(now).None?
    ensures now < limit
  {
  }

  lemma {:induction false} FriendlyDrain(m: Main, now: nat, limit: nat, protocol: Hid.Protocol, k: nat)
    requires m.Good() && now <= m.clock <= limit && Ready(m.sync, limit) && m.sync.cfg.Positive()
    ensures
      var d := Drain(m, now, Always(Friendly(protocol)), k);
      && d.main.clock == m.clock && Ready(d.main.sync, limit)
      && (Owing(m.sync, limit) ==>
            SendSysparam(m.sync.Shown()) in d.log || (Owing(d.main.sync, limit) && now < limit))
    decreases Left(m.sync, now)
  {
    hide Main.Step, Main.Good, Ready, Owing, Sync.Shown, Sync.Fired;
    var answers := Always(Friendly(protocol));
    if m.sync.Due(now).None? {
      DrainStops(m, now, answers, k);
      GoodIsValid(m);
      if Owing(m.sync, limit) { OwedAtLimit(m.sync, now, limit); }
    } else {
      DrainUnfolds(m, now, answers, k);
      ReadyStep(m, now, limit, protocol);
      TurnAndPulse(m, now, answers(k));
      ShownIsVolume(m.sync);
      ShownIsVolume(m.Step(now, answers(k)).sync);
      FriendlyDrain(m.Step(now, answers(k)), now, limit, protocol, k + 1);
      assert m.sync.Due(now).value.SendSysparam? ==> m.sync.Due(now).value == SendSysparam(m.sync.Shown());
    }
  }

  lemma ShownIsVolume(s: Sync)
    ensures s.Shown() == VolumeOf(s.lastVol)
  {
  }

  lemma GoodIsValid(m: Main)
    requires m.Good()
    ensures m.sync.Valid()
  {
  }

  // ---------------------------------------------------------------- the run

  /** By `limit` the volume is sent, and nothing else is sent afterwards. */
  ghost predicate Settles(run: seq<Timed>, vol: Byte, limit: nat) {
    exists i ::
      && 0 <= i < |run| && run[i].action == SendSysparam(vol) && run[i].at <= limit
      && OnlySends(run[i..], vol)
  }

  ghost predicate OnlySends(run: seq<Timed>, vol: Byte) {
    forall i :: 0 <= i < |run| && run[i].action.SendSysparam? ==> run[i].action.vol == vol
  }

  lemma SettlesLater(run: seq<Timed>, rest: seq<Timed>, vol: Byte, limit: nat)
    requires Settles(rest, vol, limit)
    ensures Settles(run + rest, vol, limit)
  {
    var i :| 0 <= i < |rest| && rest[i].action == SendSysparam(vol) && rest[i].at <= limit && OnlySends(rest[i..], vol);
    var all := run + rest;
    assert all[|run| + i] == rest[i] && all[|run| + i..] == rest[i..];
  }

  lemma SettlesNow(now: nat, log: seq<Action>, rest: seq<Timed>, vol: Byte, limit: nat)
    requires now <= limit && Carry(log, vol) && OnlySends(rest, vol)
    ensures OnlySends(Stamp(now, log) + rest, vol)
    ensures SendSysparam(vol) in log ==> Settles(Stamp(now, log) + rest, vol, limit)
  {
    var all := Stamp(now, log) + rest;
    forall i | 0 <= i < |all| && all[i].action.SendSysparam? ensures all[i].action.vol == vol {
      if i < |log| { assert all[i] == Timed(now, log[i]); }
    }
    if SendSysparam(vol) in log {
      var i :| 0 <= i < |log| && log[i] == SendSysparam(vol);
      assert all[i] == Timed(now, log[i]);
    }
  }

  lemma ReadsNothingNew(w: World, now: nat)
    requires !Brings(w.main.sync.lastVol, Events(w.posts))
    ensures
      var v := Read(w, now);
      v.main.sync.lastVol == w.main.sync.lastVol && !Brings(v.main.sync.lastVol, Events(v.posts))
  {
    if w.posts != [] {
      BringsUnfolds(w.main.sync.lastVol, Events(w.posts));
      assert Events(w.posts)[1..] == Events(w.posts[1..]);
    }
  }

  /** A daemon that hears nothing new sends nothing but the volume it knows, whatever the answers. */
  lemma {:induction false} OnlyShown(w: World, now: nat, horizon: nat, answers: nat -> Answer)
    requires w.Good() && !Brings(w.main.sync.lastVol, Events(w.posts))
    ensures OnlySends(TickRun(w, now, horizon, answers), w.main.sync.Shown())
    decreases horizon - now, |w.posts|
  {
    hide Drain, Main.Good, Sync.Due, Sync.Shown, Brings;
    if now < horizon && !w.Stops(now) {
      var read := Read(w, now);
      ReadKeepsGood(w, now);
      ReadsNothingNew(w, now);
      DrainShows(read.main, now, answers, w.used);
      var woken := Wake(w, now, answers);
      ShownIsVolume(w.main.sync);
      ShownIsVolume(read.main.sync);
      ShownIsVolume(w.main.sync);
      ShownIsVolume(woken.world.main.sync);
      hide Wake, Read;
      var clock := woken.world.main.clock;
      var next := if w.Mail(now) || now < clock then clock else now + 1;
      OnlyShown(woken.world, next, horizon, answers);
      SettlesNow(now, woken.actions, TickRun(woken.world, next, horizon, answers), w.main.sync.Shown(), now);
    }
  }

  lemma ReadOne(w: World, now: nat, limit: nat)
    requires w.Good() && now <= limit && Ready(w.main.sync, limit)
    requires w.posts != [] ==> w.posts[0].at <= now && now + w.main.sync.cfg.debounce <= limit
    requires Owing(w.main.sync, limit) || Brings(w.main.sync.lastVol, Events(w.posts))
    ensures
      var v := Read(w, now);
      && Ready(v.main.sync, limit) && v.main.sync.cfg == w.main.sync.cfg
      && (Owing(v.main.sync, limit) || Brings(v.main.sync.lastVol, Events(v.posts)))
      && LastHeard(v.main.sync.lastVol, Events(v.posts)) == LastHeard(w.main.sync.lastVol, Events(w.posts))
  {
    if w.posts != [] {
      BringsUnfolds(w.main.sync.lastVol, Events(w.posts));
      assert Events(w.posts)[1..] == Events(w.posts[1..]);
    }
  }

  /** One wake takes at most one event; unless something is still owed or brought, the volume has been sent. */
  lemma FriendlyWake(w: World, now: nat, limit: nat, protocol: Hid.Protocol)
    requires w.Good() && now <= limit && Ready(w.main.sync, limit)
    requires w.posts != [] ==> w.posts[0].at <= now && now + w.main.sync.cfg.debounce <= limit
    requires Owing(w.main.sync, limit) || Brings(w.main.sync.lastVol, Events(w.posts))
    ensures
      var woken := Wake(w, now, Always(Friendly(protocol)));
      var v, last := woken.world.main.sync, woken.world.main.sync.lastVol;
      && woken.world.main.clock == now && Ready(v, limit) && v.cfg == w.main.sync.cfg
      && LastHeard(last, Events(woken.world.posts)) == LastHeard(w.main.sync.lastVol, Events(w.posts))
      && Carry(woken.actions, VolumeOf(last))
      && (|| Brings(last, Events(woken.world.posts))
          || (Owing(v, limit) && now < limit)
          || SendSysparam(VolumeOf(last)) in woken.actions)
  {
    hide Drain, Main.Good, Read, Ready, Owing, Brings, LastHeard, Sync.Due, Sync.Shown, Events, VolumeOf;
    var answers := Always(Friendly(protocol));
    var read := Read(w, now);
    ReadKeepsGood(w, now);
    ReadOne(w, now, limit);
    FriendlyDrain(read.main, now, limit, protocol, w.used);
    DrainShows(read.main, now, answers, w.used);
    ShownIsVolume(read.main.sync);
  }

  lemma {:induction false} TickRunSettles(w: World, now: nat, limit: nat, horizon: nat, protocol: Hid.Protocol)
    requires w.Good() && now <= limit < horizon && Ready(w.main.sync, limit)
    requires forall post :: post in w.posts ==> post.at <= now && !post.event.Shutdown?
    requires w.posts != [] ==> now + w.main.sync.cfg.debounce <= limit
    requires Owing(w.main.sync, limit) || Brings(w.main.sync.lastVol, Events(w.posts))
    ensures
      var vol := VolumeOf(LastHeard(w.main.sync.lastVol, Events(w.posts)));
      Settles(TickRun(w, now, horizon, Always(Friendly(protocol))), vol, limit)
    decreases limit - now, |w.posts|
  {
    hide Main.Good, Ready, Owing, Brings, LastHeard, Sync.Due, Events, VolumeOf, Settles;
    FriendlyWake(w, now, limit, protocol);
    var answers := Always(Friendly(protocol));
    var vol := VolumeOf(LastHeard(w.main.sync.lastVol, Events(w.posts)));
    var woken := Wake(w, now, answers);
    var v := woken.world;
    hide Wake;
    var next := if w.posts != [] then now else now + 1;
    var rest := TickRun(v, next, horizon, answers);
    assert TickRun(w, now, horizon, answers) == Stamp(now, woken.actions) + rest;
    if Brings(v.main.sync.lastVol, Events(v.posts)) || SendSysparam(vol) !in woken.actions {
      EmptyQueueBringsNothing(v);
      if !Brings(v.main.sync.lastVol, Events(v.posts)) {
        NothingNewHeard(v.main.sync.lastVol, Events(v.posts));
      }
      TickRunSettles(v, next, limit, horizon, protocol);
      SettlesLater(Stamp(now, woken.actions), rest, vol, limit);
    } else {
      NothingNewHeard(v.main.sync.lastVol, Events(v.posts));
      OnlyShown(v, next, horizon, answers);
      ShownIsVolume(v.main.sync);
      SettlesNow(now, woken.actions, rest, vol, limit);
    }
  }

  lemma EmptyQueueBringsNothing(w: World)
    ensures w.posts == [] ==> !Brings(w.main.sync.lastVol, Events(w.posts))
  {
  }

  // ---------------------------------------------------------------- from a state of the system

  function Posted(queue: seq<Event>, at: nat): seq<Post> {
    seq(|queue|, i requires 0 <= i < |queue| => Post(at, queue[i]))
  }

  /** What the daemon does from `sys` on if no thread queues anything more: it finishes the drain under way,
      if there is one, and goes on sleeping and waking, with its queue still to be read. */
  function Resume(sys: System, horizon: nat, answers: nat -> Answer): seq<Timed>
    requires sys.main.Good() && sys.main.sync.cfg.Positive() && sys.Time() <= sys.main.clock
  {
    if sys.pc.Draining? then
      var d := Drain(sys.main, sys.pc.now, answers, 0);
      Stamp(sys.pc.now, d.log)
      + EventRun(World(d.main, Posted(sys.queue, d.main.clock), |d.log|), d.main.clock, horizon, answers)
    else
      EventRun(World(sys.main, Posted(sys.queue, sys.main.clock), 0), sys.main.clock, horizon, answers)
  }

  /** The volume the daemon will know once it has read its queue. */
  function ToShow(sys: System): Byte {
    VolumeOf(LastHeard(sys.main.sync.lastVol, sys.queue))
  }

  predicate Resumable(sys: System, cfg: Config) {
    Sound(sys, cfg) && cfg.Positive() && !sys.pc.Exited? && Shutdown !in sys.queue
  }

  lemma PostedEvents(queue: seq<Event>, at: nat)
    ensures Events(Posted(queue, at)) == queue
    ensures Shutdown !in queue ==> forall post :: post in Posted(queue, at) ==> post.at == at && !post.event.Shutdown?
  {
  }

  lemma EventRunSettles(m: Main, queue: seq<Event>, used: nat, limit: nat, horizon: nat, protocol: Hid.Protocol)
    requires m.Good() && m.sync.cfg.Positive() && Ready(m.sync, limit) && Shutdown !in queue
    requires m.clock + m.sync.cfg.debounce <= limit < horizon
    requires Owing(m.sync, limit) || Brings(m.sync.lastVol, queue)
    ensures
      var w := World(m, Posted(queue, m.clock), used);
      var vol := VolumeOf(LastHeard(m.sync.lastVol, queue));
      w.Good() && Settles(EventRun(w, m.clock, horizon, Always(Friendly(protocol))), vol, limit)
  {
    var w := World(m, Posted(queue, m.clock), used);
    PostedEvents(queue, m.clock);
    hide Main.Good, Ready, Owing, Brings, LastHeard, Settles, Posted, Events, VolumeOf;
    TickRunSettles(w, m.clock, limit, horizon, protocol);
    EventRunIsTickRun(w, m.clock, horizon, Always(Friendly(protocol)));
  }

  lemma EventRunOnlyShows(m: Main, queue: seq<Event>, used: nat, horizon: nat, answers: nat -> Answer)
    requires m.Good() && m.sync.cfg.Positive() && !Brings(m.sync.lastVol, queue)
    ensures
      var w := World(m, Posted(queue, m.clock), used);
      w.Good() && OnlySends(EventRun(w, m.clock, horizon, answers), m.sync.Shown())
  {
    var w := World(m, Posted(queue, m.clock), used);
    PostedEvents(queue, m.clock);
    hide Main.Good, Brings, Posted, Events;
    OnlyShown(w, m.clock, horizon, answers);
    EventRunIsTickRun(w, m.clock, horizon, answers);
  }

  /** From any state with nothing new in the queue only the volume known already is sent, whatever the answers. */
  lemma ResumeOnlyShows(sys: System, cfg: Config, horizon: nat, answers: nat -> Answer)
    requires Resumable(sys, cfg) && !Brings(sys.main.sync.lastVol, sys.queue)
    ensures OnlySends(Resume(sys, horizon, answers), sys.main.sync.Shown()) && ToShow(sys) == sys.main.sync.Shown()
  {
    var m := sys.main;
    NothingNewHeard(m.sync.lastVol, sys.queue);
    hide Main.Good, Brings, LastHeard, EventRun, Drain, Sync.Due;
    if sys.pc.Draining? {
      var d := Drain(m, sys.pc.now, answers, 0);
      DrainShows(m, sys.pc.now, answers, 0);
      EventRunOnlyShows(d.main, sys.queue, |d.log|, horizon, answers);
      var w := World(d.main, Posted(sys.queue, d.main.clock), |d.log|);
      SettlesNow(sys.pc.now, d.log, EventRun(w, d.main.clock, horizon, answers), m.sync.Shown(), sys.pc.now);
    } else {
      EventRunOnlyShows(m, sys.queue, 0, horizon, answers);
    }
  }

  /** From any state whose timers run out by `limit` and that owes something by then, or has a new volume in
      its queue, the volume last heard is shown by `limit`, and it stays. */
  lemma ResumeSettles(sys: System, cfg: Config, limit: nat, horizon: nat, protocol: Hid.Protocol)
    requires Resumable(sys, cfg) && Ready(sys.main.sync, limit)
    requires sys.main.clock + cfg.debounce <= limit < horizon
    requires Owing(sys.main.sync, limit) || Brings(sys.main.sync.lastVol, sys.queue)
    ensures Settles(Resume(sys, horizon, Always(Friendly(protocol))), ToShow(sys), limit)
  {
    var m, answers := sys.main, Always(Friendly(protocol));
    hide Main.Good, Ready, Owing, Brings, LastHeard, EventRun, Drain, Sync.Due, Settles;
    if sys.pc.Draining? {
      var now := sys.pc.now;
      var d := Drain(m, now, answers, 0);
      var rest := EventRun(World(d.main, Posted(sys.queue, d.main.clock), |d.log|), d.main.clock, horizon, answers);
      FriendlyDrain(m, now, limit, protocol, 0);
      DrainShows(m, now, answers, 0);
      if Owing(d.main.sync, limit) || Brings(m.sync.lastVol, sys.queue) {
        EventRunSettles(d.main, sys.queue, |d.log|, limit, horizon, protocol);
        SettlesLater(Stamp(now, d.log), rest, ToShow(sys), limit);
      } else {
        NothingNewHeard(m.sync.lastVol, sys.queue);
        ShownIsVolume(m.sync);
        ShownIsVolume(d.main.sync);
        EventRunOnlyShows(d.main, sys.queue, |d.log|, horizon, answers);
        SettlesNow(now, d.log, rest, ToShow(sys), limit);
      }
    } else {
      EventRunSettles(m, sys.queue, 0, limit, horizon, protocol);
    }
  }

  // ---------------------------------------------------------------- the resumed daemon is a run of the system

  /** With every post in the queue already no turn finds anything arrived. */
  lemma {:induction false} QuietTurns(w: World, now: nat, horizon: nat, ans: Answer)
    requires w.Good() && w.main.clock <= now && |w.posts| <= Arrived(w.posts, now)
    ensures
      forall turn :: turn in OnTimeTurns(w, |w.posts|, now, horizon, Always(ans)) ==> Quiet(turn, ans)
    decreases horizon - now, |w.posts|, if w.main.sync.Due(now).Some? then 1 else 0
  {
    hide Drain, Wake, WakeTime, Main.Good, Sync.Due, NextTime, Quiet;
    var at, answers := WakeTime(w, now), Always(ans);
    WakeTimeLater(w, now);
    ArrivedGrows(w.posts, now, at);
    QuietTurn(w, now, ans);
    if at < horizon && !w.Stops(at) {
      NextIsLater(w, now, answers);
      QuietTurns(Wake(w, at, answers).world, NextTime(w, now, answers), horizon, ans);
    }
  }

  lemma QuietTurn(w: World, now: nat, ans: Answer)
    requires w.main.clock <= now && |w.posts| <= Arrived(w.posts, now)
    ensures Quiet(OnTime(w, |w.posts|, now, Always(ans)), ans)
  {
    ArrivedGrows(w.posts, now, WakeTime(w, now));
  }

  lemma {:induction false} AllPosted(queue: seq<Event>, at: nat)
    ensures Arrived(Posted(queue, at), at) == |queue| == |Posted(queue, at)|
  {
    if queue != [] {
      AllPosted(queue[1..], at);
      assert Posted(queue, at)[1..] == Posted(queue[1..], at);
    }
  }

  lemma EventRunIsRun(sys: System, used: nat, horizon: nat, ans: Answer) returns (steps: seq<Step>)
    requires sys.main.Good() && sys.main.sync.cfg.Positive() && sys.pc == Head
    ensures
      var w := World(sys.main, Posted(sys.queue, sys.main.clock), used);
      Run(sys, steps).history.log == sys.history.log + Actions(EventRun(w, sys.main.clock, horizon, Always(ans)))
    ensures OwnSteps(steps, ans)
  {
    var w := World(sys.main, Posted(sys.queue, sys.main.clock), used);
    var now, n := sys.main.clock, |sys.queue|;
    AllPosted(sys.queue, now);
    PostedEvents(sys.queue, now);
    assert w.posts[..n] == w.posts;
    var l := LoopOf(w, n, sys.history.log);
    assert Shows(sys, l) && l.Good();
    hide *;
    assert w.Good() && w.main.clock == now && w.posts == Posted(sys.queue, now);
    EventRunIsLoopRun(w, n, now, horizon, Always(ans), sys.history.log);
    QuietTurns(w, now, horizon, ans);
    steps := QuietLoopIsRun(sys, l, OnTimeTurns(w, n, now, horizon, Always(ans)), ans);
  }

  lemma DrainAndEventRunIsRun(sys: System, cfg: Config, horizon: nat, ans: Answer) returns (steps: seq<Step>)
    requires Resumable(sys, cfg) && sys.pc.Draining?
    ensures
      var d := Drain(sys.main, sys.pc.now, Always(ans), 0);
      var w := World(d.main, Posted(sys.queue, d.main.clock), |d.log|);
      Run(sys, steps).history.log ==
        sys.history.log + d.log + Actions(EventRun(w, d.main.clock, horizon, Always(ans)))
    ensures OwnSteps(steps, ans)
  {
    var now, answers := sys.pc.now, Always(ans);
    var d := Drain(sys.main, now, answers, 0);
    var first := DrainSteps(sys.main, now, answers, 0);
    hide Run, Drain, DrainSteps, EventRun, Posted, OwnSteps, Main.Good, Sync.Due, Actions;
    DrainIsRun(sys, answers, 0);
    OwnDrainSteps(sys.main, now, answers, 0, ans);
    var rest := EventRunIsRun(Run(sys, first), |d.log|, horizon, ans);
    RunConcat(sys, first, rest);
    OwnStepsJoin(first, rest, ans);
    steps := first + rest;
  }

  /** What `Resume` says is a run of the system in which only the main thread moves, action for action. */
  lemma ResumeIsRun(sys: System, cfg: Config, horizon: nat, ans: Answer) returns (steps: seq<Step>)
    requires Resumable(sys, cfg)
    ensures Run(sys, steps).history.log == sys.history.log + Actions(Resume(sys, horizon, Always(ans)))
    ensures OwnSteps(steps, ans)
  {
    hide Run, Drain, EventRun, Posted, OwnSteps, Main.Good, Actions;
    if sys.pc.Draining? {
      var d := Drain(sys.main, sys.pc.now, Always(ans), 0);
      var w := World(d.main, Posted(sys.queue, d.main.clock), |d.log|);
      ActionsJoin(sys.pc.now, d.log, EventRun(w, d.main.clock, horizon, Always(ans)));
      steps := DrainAndEventRunIsRun(sys, cfg, horizon, ans);
    } else {
      steps := EventRunIsRun(sys, 0, horizon, ans);
    }
  }

  lemma OwnStepsJoin(a: seq<Step>, b: seq<Step>, ans: Answer)
    requires OwnSteps(a, ans) && OwnSteps(b, ans)
    ensures OwnSteps(a + b, ans)
  {
  }

  // ---------------------------------------------------------------- from every reachable state

  /** On time, with answers that take no time: from every reachable state, if the keyboard answers from now on
      and nothing more is queued, the volume last heard, be it known or still in the queue, is shown within the
      longest interval of the latest clock reading, and stays: whatever was lost, unanswered or forgotten
      before.  If a monitor is alive, it is the volume that monitor last saw. */
  lemma VolumeIsShown(cfg: Config, t0: nat, ans: Answer, steps: seq<Step>, protocol: Hid.Protocol, horizon: nat)
    requires cfg.Positive()
    requires !Reached(cfg, t0, ans, steps).pc.Exited? && Shutdown !in Reached(cfg, t0, ans, steps).queue
    requires Reached(cfg, t0, ans, steps).main.clock + Max(Patience(cfg), cfg.debounce) < horizon
    ensures
      var sys := Reached(cfg, t0, ans, steps);
      var limit := sys.main.clock + Max(Patience(cfg), cfg.debounce);
      && Resumable(sys, cfg)
      && Settles(Resume(sys, horizon, Always(Friendly(protocol))), ToShow(sys), limit)
      && forall i :: 0 <= i < |sys.live| && sys.live[i].lastVol.Some? ==> ToShow(sys) == sys.live[i].lastVol.value
  {
    var sys := Reached(cfg, t0, ans, steps);
    SoundAlways(cfg, t0, ans, steps);
    TimersNearAlways(cfg, t0, ans, steps);
    VolumeOnItsWayAlways(cfg, t0, ans, steps);
    hide Reached, Main.Good, Resume, Settles;
    ResumeSettles(sys, cfg, sys.main.clock + Max(Patience(cfg), cfg.debounce), horizon, protocol);
  }

  /** The intervals but the one between time syncs. */
  function Promptness(cfg: Config): nat {
    Max(cfg.debounce, Max(cfg.reconnect, Max(cfg.statusPoll, Max(cfg.retryBase, cfg.retryMax))))
  }

  /** The change of a volume lies in the past, and a pending initial sync waits for nothing but the delay. */
  predicate Pending(s: Sync, clock: nat) {
    s.volLastChange <= clock && (s.initialPending ==> s.nextTimeSync <= s.nextSendAt)
  }

  lemma PendingSend(m: Main, now: nat, ans: Answer)
    requires m.Good() && Pending(m.sync, m.clock) && m.sync.Due(now).Some? && m.sync.Due(now).value.SendSysparam?
    ensures Pending(m.Step(now, ans).sync, m.Step(now, ans).clock)
  {
    assert m.Step(now, ans) == m.(sync := m.sync.Fired(now)).Send(now, ans);
  }

  lemma PendingTurn(m: Main, now: nat, ans: Answer)
    requires m.Good() && m.sync.Due(now).Some? && Pending(m.sync, m.clock)
    ensures Pending(m.Step(now, ans).sync, m.Step(now, ans).clock)
  {
    var f := m.(sync := m.sync.Fired(now));
    match m.sync.Due(now).value
    case SendSysparam(_) => hide Main.Step; PendingSend(m, now, ans);
    case ConnectDevice => assert m.Step(now, ans) == f.Connect(ans);
    case SpawnPulseMonitor => assert m.Step(now, ans) == f.SpawnPulse();
    case PollLinkState => assert m.Step(now, ans) == f.QueryLink(now, ans);
  }

  lemma PendingKept(sys: System, step: Step, cfg: Config)
    requires Sound(sys, cfg) && Pending(sys.main.sync, sys.main.clock)
    ensures Pending(Next(sys, step).main.sync, Next(sys, step).main.clock)
  {
    hide Next, Main.Step, History.Turned, Sync.Due, MoveOf, Main.Good;
    SoundKept(sys, step, cfg);
    NextMoves(sys, step, cfg);
    match MoveOf(sys, step)
    case Wait =>
    case Heard(event, at) =>
    case Acted(now, a) => PendingTurn(sys.main, now, a);
  }

  lemma {:induction false} PendingAlways(cfg: Config, t0: nat, ans: Answer, steps: seq<Step>)
    ensures
      var m := Reached(cfg, t0, ans, steps).main;
      Pending(m.sync, m.clock)
  {
    if steps != [] {
      var most := steps[..|steps| - 1];
      PendingAlways(cfg, t0, ans, most);
      SoundAlways(cfg, t0, ans, most);
      PendingKept(Reached(cfg, t0, ans, most), steps[|steps| - 1], cfg);
    }
  }

  /** Something in the state or in the queue still remembers to send the volume. */
  predicate Remembers(sys: System) {
    var s := sys.main.sync;
    s.volDirty || s.initialPending || s.deviceAt.Some? || Brings(s.lastVol, sys.queue)
  }

  lemma RememberedIsShownPromptly(sys: System, cfg: Config, protocol: Hid.Protocol, horizon: nat)
    requires Resumable(sys, cfg) && TimersNear(sys.main.sync, sys.main.clock) && Pending(sys.main.sync, sys.main.clock)
    requires Remembers(sys) && sys.main.clock + Promptness(cfg) < horizon
    ensures
      Settles(Resume(sys, horizon, Always(Friendly(protocol))), ToShow(sys), sys.main.clock + Promptness(cfg))
  {
    hide Resume, Settles, Main.Good, Brings;
    ResumeSettles(sys, cfg, sys.main.clock + Promptness(cfg), horizon, protocol);
  }

  /** On time, with answers that take no time: from every reachable state that still remembers the volume it
      takes no more than the longest interval but the one between time syncs. */
  lemma RememberedVolumeIsShownPromptly(
      cfg: Config, t0: nat, ans: Answer, steps: seq<Step>, protocol: Hid.Protocol, horizon: nat)
    requires cfg.Positive() && Remembers(Reached(cfg, t0, ans, steps))
    requires !Reached(cfg, t0, ans, steps).pc.Exited? && Shutdown !in Reached(cfg, t0, ans, steps).queue
    requires Reached(cfg, t0, ans, steps).main.clock + Promptness(cfg) < horizon
    ensures
      var sys := Reached(cfg, t0, ans, steps);
      && Resumable(sys, cfg)
      && Settles(Resume(sys, horizon, Always(Friendly(protocol))), ToShow(sys), sys.main.clock + Promptness(cfg))
  {
    SoundAlways(cfg, t0, ans, steps);
    TimersNearAlways(cfg, t0, ans, steps);
    PendingAlways(cfg, t0, ans, steps);
    hide Reached, Main.Good, Resume, Settles, TimersNear, Pending, Remembers;
    RememberedIsShownPromptly(Reached(cfg, t0, ans, steps), cfg, protocol, horizon);
  }
}
