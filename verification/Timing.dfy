/** When a daemon searches, queries, respawns and sends, in terms of what its record shows: who waits for whom,
    and for how long. */
module Timing {
  import opened Base
  import opened SyncSpec
  import opened MainLoop
  import opened System
  import opened Runs
  import opened Scenarios
  import opened Trace
  import opened Retry
  import opened Pacing
  import Hid

  /** The time of the poll that handed an action out, or at which an event was taken. */
  function When(e: Entry): nat {
    if e.Searched? then e.polled else e.at
  }

  /** An action is in the record only if it was the one owed by what the record said before. */
  predicate Justified(cfg: Config, before: seq<Entry>, e: Entry) {
    match e
    case Searched(polled, at, _, _) => Owed(cfg, before, polled) == Some(ConnectDevice) && polled <= at
    case Spawned(at) => Owed(cfg, before, at) == Some(SpawnPulseMonitor)
    case Queried(at, device, _) => Owed(cfg, before, at) == Some(PollLinkState) && device == Slot(before)
    case Sent(at, device, vol, _) => Owed(cfg, before, at) == Some(SendSysparam(vol)) && device == Slot(before)
    case Took(_, _) => true
  }

  ghost predicate Lawful(cfg: Config, tr: seq<Entry>) {
    && tr != [] && tr[0].Searched? && tr[0].polled <= tr[0].at
    && (forall i :: 0 < i < |tr| ==> Justified(cfg, tr[..i], tr[i]))
    && (forall i, j :: 0 <= i < j < |tr| ==> When(tr[i]) <= When(tr[j]))
  }

  ghost predicate LawfulBy(cfg: Config, tr: seq<Entry>, time: nat) {
    Lawful(cfg, tr) && When(tr[|tr| - 1]) <= time
  }

  lemma LawfulAppend(cfg: Config, tr: seq<Entry>, e: Entry, time: nat)
    requires LawfulBy(cfg, tr, When(e)) && Justified(cfg, tr, e) && When(e) <= time
    ensures LawfulBy(cfg, tr + [e], time)
  {
    hide Justified, When;
    var more := tr + [e];
    forall i | 0 < i < |more| ensures Justified(cfg, more[..i], more[i]) {
      assert more[..i] == if i < |tr| then tr[..i] else tr;
    }
  }

  lemma TurnIsJustified(m: Main, cfg: Config, tr: seq<Entry>, now: nat, ans: Answer)
    requires m.Good() && Tells(m, cfg, tr) && now <= m.clock && m.sync.Due(now).Some?
    ensures Justified(cfg, tr, Performed(m, now, ans)) && When(Performed(m, now, ans)) == now
  {
    TellsWhatIsOwed(m, cfg, tr, now);
    hide Owed, Sync.Due, Main.Good;
  }

  lemma {:induction false} RecordIsLawful(cfg: Config, t0: nat, ans: Answer, steps: seq<Step>)
    ensures LawfulBy(cfg, Record(cfg, t0, ans, steps), Reached(cfg, t0, ans, steps).Time())
  {
    if steps != [] {
      var most, step := steps[..|steps| - 1], steps[|steps| - 1];
      RecordIsLawful(cfg, t0, ans, most);
      RecordTells(cfg, t0, ans, most);
      SoundAlways(cfg, t0, ans, most);
      StepIsLawful(Reached(cfg, t0, ans, most), step, cfg, Record(cfg, t0, ans, most));
    }
  }

  lemma StepIsLawful(sys: System, step: Step, cfg: Config, tr: seq<Entry>)
    requires Sound(sys, cfg) && Tells(sys.main, cfg, tr) && LawfulBy(cfg, tr, sys.Time())
    ensures LawfulBy(cfg, tr + News(sys, step), Next(sys, step).Time())
  {
    hide Next, Main.Step, Main.Handle, Main.Good, History.Turned, Sync.Due, Tells, Performed, Lawful;
    SoundKept(sys, step, cfg);
    match MoveOf(sys, step)
    case Wait => assert tr + [] == tr;
    case Heard(event, at) => LawfulAppend(cfg, tr, Took(at, event), Next(sys, step).Time());
    case Acted(now, a) =>
      TurnIsJustified(sys.main, cfg, tr, now, a);
      LawfulAppend(cfg, tr, Performed(sys.main, now, a), Next(sys, step).Time());
  }

  // ---------------------------------------------------------------- the last entry of a kind

  /** Where the last entry of a kind stands. */
  lemma {:induction false} LastIs(tr: seq<Entry>, news: Entry -> bool) returns (k: nat)
    requires Last(tr, news).Some?
    ensures k < |tr| && news(tr[k]) && Last(tr, news) == Some(tr[k])
    ensures forall i :: k < i < |tr| ==> !news(tr[i])
  {
    k := |tr| - 1;
    if !news(tr[k]) {
      k := LastIs(tr[..k], news);
    }
  }

  lemma {:induction false} LastFound(tr: seq<Entry>, news: Entry -> bool, i: nat)
    requires i < |tr| && news(tr[i])
    ensures Last(tr, news).Some?
  {
    if i < |tr| - 1 && !news(tr[|tr| - 1]) {
      LastFound(tr[..|tr| - 1], news, i);
    }
  }

  lemma LastAt(tr: seq<Entry>, news: Entry -> bool, i: nat)
    requires i < |tr| && news(tr[i]) && forall k :: i < k < |tr| ==> !news(tr[k])
    ensures Last(tr, news) == Some(tr[i])
  {
    LastFound(tr, news, i);
    var k := LastIs(tr, news);
  }

  // ---------------------------------------------------------------- a lost device

  predicate DeviceAction(e: Entry) {
    e.Searched? || e.Sent? || e.Queried?
  }

  /** Whatever is sent or asked goes to a device found after the last failure. */
  lemma FoundSince(cfg: Config, tr: seq<Entry>, i: nat, j: nat) returns (k: nat)
    requires Lawful(cfg, tr) && i < j < |tr| && Loses(tr[i]) && (tr[j].Sent? || tr[j].Queried?)
    ensures i < k < j && Finds(tr[k])
  {
    var before := tr[..j];
    assert Justified(cfg, before, tr[j]) && before[i] == tr[i];
    assert Slot(before).Some?;
    k := LastIs(before, DeviceNews);
  }

  lemma NextIsSearch(cfg: Config, tr: seq<Entry>, i: nat, j: nat)
    requires Lawful(cfg, tr) && i < j < |tr| && Loses(tr[i]) && DeviceAction(tr[j])
    requires forall k :: i < k < j ==> !DeviceAction(tr[k])
    ensures tr[j].Searched? && tr[i].at + cfg.reconnect <= tr[j].polled
  {
    if !tr[j].Searched? {
      var k := FoundSince(cfg, tr, i, j);
      assert DeviceAction(tr[k]);
    } else {
      var before := tr[..j];
      assert Justified(cfg, before, tr[j]);
      LastAt(before, DeviceNews, i);
    }
  }

  lemma SearchIsOwed(cfg: Config, tr: seq<Entry>, i: nat, t: nat)
    requires i < |tr| && Loses(tr[i]) && forall k :: i < k < |tr| ==> !DeviceAction(tr[k])
    ensures Slot(tr).None?
    ensures Owed(cfg, tr, t) == if tr[i].at + cfg.reconnect <= t then Some(ConnectDevice) else None
  {
    LastAt(tr, DeviceNews, i);
  }

  /** After a failed exchange or a search that found nothing, in every run: the slot is empty and, until a
      search is made, a search is what is owed, from the end of the reconnect delay on and not before; the next
      thing done about the device is that search; and nothing is sent or asked again before a search has found a
      device. */
  lemma LossMeansSearch(cfg: Config, t0: nat, ans: Answer, steps: seq<Step>, i: nat)
    requires i < |Record(cfg, t0, ans, steps)| && Loses(Record(cfg, t0, ans, steps)[i])
    ensures
      var m, tr := Reached(cfg, t0, ans, steps).main, Record(cfg, t0, ans, steps);
      && ((forall k :: i < k < |tr| ==> !DeviceAction(tr[k])) ==>
            m.device.None? &&
            forall t: nat :: m.sync.Due(t) == if tr[i].at + cfg.reconnect <= t then Some(ConnectDevice) else None)
      && (forall j :: i < j < |tr| && DeviceAction(tr[j]) && (forall k :: i < k < j ==> !DeviceAction(tr[k])) ==>
            tr[j].Searched? && tr[i].at + cfg.reconnect <= tr[j].polled)
      && (forall j :: i < j < |tr| && (tr[j].Sent? || tr[j].Queried?) ==> exists k :: i < k < j && Finds(tr[k]))
  {
    var m, tr := Reached(cfg, t0, ans, steps).main, Record(cfg, t0, ans, steps);
    RecordIsLawful(cfg, t0, ans, steps);
    hide Reached, Record, Lawful, Loses, DeviceAction, Finds, Owed, Sync.Due, Slot;
    if forall k :: i < k < |tr| ==> !DeviceAction(tr[k]) {
      DueIsOwed(cfg, t0, ans, steps, 0);
      SearchIsOwed(cfg, tr, i, 0);
      forall t: nat
        ensures m.sync.Due(t) == if tr[i].at + cfg.reconnect <= t then Some(ConnectDevice) else None
      {
        DueIsOwed(cfg, t0, ans, steps, t);
        SearchIsOwed(cfg, tr, i, t);
      }
    }
    forall j | i < j < |tr| && DeviceAction(tr[j]) && (forall k :: i < k < j ==> !DeviceAction(tr[k]))
      ensures tr[j].Searched? && tr[i].at + cfg.reconnect <= tr[j].polled
    {
      NextIsSearch(cfg, tr, i, j);
    }
    forall j | i < j < |tr| && (tr[j].Sent? || tr[j].Queried?) ensures exists k :: i < k < j && Finds(tr[k]) {
      var k := FoundSince(cfg, tr, i, j);
    }
  }

  // ---------------------------------------------------------------- the link

  /** The link is asked for no sooner than an interval after the entry that last showed it down. */
  lemma QueryFollowsDown(cfg: Config, tr: seq<Entry>, j: nat) returns (k: nat)
    requires Lawful(cfg, tr) && 0 < j < |tr| && tr[j].Queried?
    ensures k < j && LinkNews(tr[k]) && (Unanswered(tr[k]) || SaysDown(tr[k]))
    ensures tr[k].at + cfg.statusPoll <= tr[j].at && forall l :: k < l < j ==> !LinkNews(tr[l])
  {
    var before := tr[..j];
    assert Justified(cfg, before, tr[j]);
    k := LastIs(before, LinkNews);
  }

  lemma QueriesApart(cfg: Config, tr: seq<Entry>, i: nat, j: nat)
    requires Lawful(cfg, tr) && i < j < |tr| && tr[i].Queried? && tr[j].Queried?
    ensures tr[i].at + cfg.statusPoll <= tr[j].at
  {
    var k := QueryFollowsDown(cfg, tr, j);
    if k < i {
      assert Fails(tr[i]);
      var l := FoundSince(cfg, tr, i, j);
      assert LinkNews(tr[l]);
    }
    assert When(tr[i]) <= When(tr[k]) <= tr[k].at by { AtIsLater(cfg, tr, k); }
  }

  lemma AtIsLater(cfg: Config, tr: seq<Entry>, k: nat)
    requires Lawful(cfg, tr) && k < |tr|
    ensures When(tr[k]) <= tr[k].at
  {
    if k > 0 { assert Justified(cfg, tr[..k], tr[k]); }
  }

  ghost predicate QueriesSpaced(tr: seq<Entry>, gap: nat) {
    forall i, j :: 0 <= i < j < |tr| && tr[i].Queried? && tr[j].Queried? ==> tr[i].at + gap <= tr[j].at
  }

  /** A sleeping keyboard's dongle is left in peace: in every run any two link queries are at least the status
      poll interval apart. */
  lemma QueriesAreSpaced(cfg: Config, t0: nat, ans: Answer, steps: seq<Step>)
    ensures QueriesSpaced(Record(cfg, t0, ans, steps), cfg.statusPoll)
  {
    var tr := Record(cfg, t0, ans, steps);
    RecordIsLawful(cfg, t0, ans, steps);
    hide Record, Lawful;
    forall i, j | 0 <= i < j < |tr| && tr[i].Queried? && tr[j].Queried? ensures tr[i].at + cfg.statusPoll <= tr[j].at {
      QueriesApart(cfg, tr, i, j);
    }
  }

  /** One step more, in the run and in its record. */
  lemma OneMore(cfg: Config, t0: nat, ans: Answer, steps: seq<Step>, step: Step)
    ensures Reached(cfg, t0, ans, steps + [step]) == Next(Reached(cfg, t0, ans, steps), step)
    ensures Record(cfg, t0, ans, steps + [step]) ==
      Record(cfg, t0, ans, steps) + News(Reached(cfg, t0, ans, steps), step)
  {
    assert (steps + [step])[..|steps|] == steps;
  }

  /** A dongle whose link is down, in no time. */
  const ASLEEP := HEARD.(wire := Hid.Reply(0, 0))

  /** A run whose keyboard sleeps, with the next query due at `next`, and its record. */
  ghost predicate Sleeping(sys: System, tr: seq<Entry>, cfg: Config, steps: seq<Step>, next: nat) {
    && sys == Reached(cfg, 0, ASLEEP, steps) && tr == Record(cfg, 0, ASLEEP, steps)
    && sys.queue == [] && sys.main.device == Some(Hid.Dongle)
    && sys.main.sync == Initial(cfg, 0).(linkUp := false, statusAt := Some(next))
  }

  lemma Waits(sys: System, tr: seq<Entry>, cfg: Config, steps: seq<Step>, next: nat)
    returns (end: System, more: seq<Step>)
    requires Sleeping(sys, tr, cfg, steps, next) && sys.pc == Head && sys.main.clock <= next
    ensures Sleeping(end, tr, cfg, more, next) && end.pc == Draining(next) && end.main.clock == next
  {
    var step := TimeOut(0, next - sys.main.clock - sys.main.sync.Deadline(sys.main.clock));
    OneMore(cfg, 0, ASLEEP, steps, step);
    hide Reached, Record, Sync.Masked;
    end, more := Next(sys, step), steps + [step];
    assert tr + [] == tr;
  }

  lemma AsleepStep(m: Main, cfg: Config, now: nat)
    requires m.device == Some(Hid.Dongle) && m.clock == now
    requires m.sync == Initial(cfg, 0).(linkUp := false, statusAt := Some(now))
    ensures m.sync.Due(now) == Some(PollLinkState)
    ensures m.Step(now, ASLEEP) == m.(sync := m.sync.(statusAt := Some(now + cfg.statusPoll)))
    ensures Performed(m, now, ASLEEP) == Queried(now, Some(Hid.Dongle), ASLEEP.wire)
  {
    assert m.Step(now, ASLEEP) == m.(sync := m.sync.Fired(now)).QueryLink(now, ASLEEP);
  }

  lemma Asks(sys: System, tr: seq<Entry>, cfg: Config, steps: seq<Step>, now: nat)
    returns (end: System, more: seq<Step>)
    requires Sleeping(sys, tr, cfg, steps, now) && sys.pc == Draining(now) && sys.main.clock == now
    ensures
      Sleeping(end, tr + [Queried(now, Some(Hid.Dongle), ASLEEP.wire)], cfg, more, now + cfg.statusPoll)
    ensures end.pc == Draining(now) && end.main.clock == now
  {
    OneMore(cfg, 0, ASLEEP, steps, Turn(ASLEEP));
    AsleepStep(sys.main, cfg, now);
    hide Reached, Record, Main.Step, Sync.Due, History.Turned, Performed, Initial;
    end, more := Next(sys, Turn(ASLEEP)), steps + [Turn(ASLEEP)];
  }

  lemma GoesToHead(sys: System, tr: seq<Entry>, cfg: Config, steps: seq<Step>, now: nat, next: nat)
    returns (end: System, more: seq<Step>)
    requires Sleeping(sys, tr, cfg, steps, next) && sys.pc == Draining(now) && sys.main.clock == now < next
    ensures Sleeping(end, tr, cfg, more, next) && end.pc == Head && end.main.clock == now
  {
    OneMore(cfg, 0, ASLEEP, steps, Turn(ASLEEP));
    hide Reached, Record;
    end, more := Next(sys, Turn(ASLEEP)), steps + [Turn(ASLEEP)];
    assert tr + [] == tr;
  }

  lemma FallsAsleep(cfg: Config)
    ensures Sleeping(Begin(cfg, 0, ASLEEP), Record(cfg, 0, ASLEEP, []), cfg, [], cfg.statusPoll)
    ensures Begin(cfg, 0, ASLEEP).pc == Head && Begin(cfg, 0, ASLEEP).main.clock == 0
    ensures |Record(cfg, 0, ASLEEP, [])| == 1
  {
  }

  /** A run in which a sleeping keyboard's dongle is asked twice, just the interval apart. */
  lemma AsksTwice(cfg: Config) returns (steps: seq<Step>)
    ensures
      var tr := Record(cfg, 0, ASLEEP, steps);
      && |tr| == 3 && tr[1].Queried? && tr[2].Queried? && tr[2].at == tr[1].at + cfg.statusPoll
  {
    FallsAsleep(cfg);
    hide *;
    var sys, tr := Begin(cfg, 0, ASLEEP), Record(cfg, 0, ASLEEP, []);
    sys, steps := Waits(sys, tr, cfg, [], cfg.statusPoll);
    sys, steps := Asks(sys, tr, cfg, steps, cfg.statusPoll);
    tr := tr + [Queried(cfg.statusPoll, Some(Hid.Dongle), ASLEEP.wire)];
    if cfg.statusPoll > 0 {
      sys, steps := GoesToHead(sys, tr, cfg, steps, cfg.statusPoll, 2 * cfg.statusPoll);
      sys, steps := Waits(sys, tr, cfg, steps, 2 * cfg.statusPoll);
    }
    sys, steps := Asks(sys, tr, cfg, steps, 2 * cfg.statusPoll);
    tr := tr + [Queried(2 * cfg.statusPoll, Some(Hid.Dongle), ASLEEP.wire)];
    SleepingRecord(sys, tr, cfg, steps, 3 * cfg.statusPoll);
  }

  lemma SleepingRecord(sys: System, tr: seq<Entry>, cfg: Config, steps: seq<Step>, next: nat)
    requires Sleeping(sys, tr, cfg, steps, next)
    ensures tr == Record(cfg, 0, ASLEEP, steps)
  {
  }

  /** The interval is exactly what the queries keep: all runs space them by `gap` if and only if it is no longer. */
  lemma QueriesSpacedExactlyByStatusPoll(cfg: Config, gap: nat)
    ensures
      (forall t0: nat, ans: Answer, steps: seq<Step> :: QueriesSpaced(Record(cfg, t0, ans, steps), gap))
      <==> gap <= cfg.statusPoll
  {
    if gap <= cfg.statusPoll {
      forall t0: nat, ans: Answer, steps: seq<Step> ensures QueriesSpaced(Record(cfg, t0, ans, steps), gap) {
        QueriesAreSpaced(cfg, t0, ans, steps);
      }
    } else {
      var steps := AsksTwice(cfg);
      assert !QueriesSpaced(Record(cfg, 0, ASLEEP, steps), gap);
    }
  }

  /** What ends the silence after a dongle has said that its link is down. */
  predicate SaysUp(e: Entry) {
    e.Queried? && e.device == Some(Hid.Dongle) && e.wire.Reply? && e.wire.command < 128 && e.wire.data != 0
  }

  lemma SendFollowsUp(cfg: Config, tr: seq<Entry>, i: nat, j: nat) returns (k: nat)
    requires Lawful(cfg, tr) && i < j < |tr| && tr[j].Sent?
    requires SaysDown(tr[i]) || Unanswered(tr[i])
    ensures i < k < j && (SaysUp(tr[k]) || (Finds(tr[k]) && !SaysDown(tr[k])))
  {
    var before := tr[..j];
    assert Justified(cfg, before, tr[j]) && before[i] == tr[i];
    if LinkNews(tr[i]) { LastFound(before, LinkNews, i); }
    k := LastIs(before, LinkNews);
    assert LinkNews(before[i]);
    if before[k].Queried? { QueriedIsDongle(cfg, tr, k); }
  }

  /** Only a dongle is ever asked. */
  lemma QueriedIsDongle(cfg: Config, tr: seq<Entry>, j: nat)
    requires Lawful(cfg, tr) && j < |tr| && tr[j].Queried?
    ensures tr[j].device == Some(Hid.Dongle)
  {
    var before := tr[..j];
    assert Justified(cfg, before, tr[j]);
    var k := LastIs(before, LinkNews);
    var d := LastIs(before, DeviceNews);
    assert LinkNews(before[d]);
    if d < k {
      assert Justified(cfg, tr[..k], tr[k]);
      assert before[..k] == tr[..k];
      LastAt(tr[..k], DeviceNews, d);
    }
  }

  /** An entry about the link of a device leaves that device in the slot. */
  lemma SlotStays(cfg: Config, tr: seq<Entry>, i: nat)
    requires Lawful(cfg, tr) && i < |tr| && (SaysDown(tr[i]) || Unanswered(tr[i]))
    requires forall k :: i < k < |tr| ==> !DeviceAction(tr[k])
    ensures Slot(tr).Some?
  {
    if tr[i].Searched? {
      LastAt(tr, DeviceNews, i);
    } else {
      var before := tr[..i];
      assert Justified(cfg, before, tr[i]);
      hide Owed;
      var d := LastIs(before, DeviceNews);
      LastAt(tr, DeviceNews, d);
    }
  }

  lemma QueryIsOwed(cfg: Config, tr: seq<Entry>, i: nat, t: nat)
    requires Lawful(cfg, tr) && i < |tr| && (SaysDown(tr[i]) || Unanswered(tr[i]))
    requires forall k :: i < k < |tr| ==> !DeviceAction(tr[k])
    ensures
      Owed(cfg, tr, t) ==
        if Elapsed(SpawnFrom(cfg, tr), t) then Some(SpawnPulseMonitor)
        else if tr[i].at + cfg.statusPoll <= t then Some(PollLinkState)
        else None
  {
    SlotStays(cfg, tr, i);
    LastAt(tr, LinkNews, i);
    hide Lawful, Last, Slot, SendFrom, TimeSyncFrom, Unsynced, KnownVolume, SpawnFrom, SearchFrom;
  }

  /** After a dongle has said that its link is down, when it was found or when it was asked, or after a send that
      nobody acknowledged, in every run: nothing is sent before the link is reported up or another device is
      found; and until something is done about the device, a query is what is owed, from the end of the status
      poll interval on and not before, except that a respawn that is due comes first. */
  lemma DownMeansQuery(cfg: Config, t0: nat, ans: Answer, steps: seq<Step>, i: nat)
    requires i < |Record(cfg, t0, ans, steps)|
    requires SaysDown(Record(cfg, t0, ans, steps)[i]) || Unanswered(Record(cfg, t0, ans, steps)[i])
    ensures
      var m, tr := Reached(cfg, t0, ans, steps).main, Record(cfg, t0, ans, steps);
      && ((forall k :: i < k < |tr| ==> !DeviceAction(tr[k])) ==>
            forall t: nat ::
              m.sync.Due(t) ==
                if Elapsed(SpawnFrom(cfg, tr), t) then Some(SpawnPulseMonitor)
                else if tr[i].at + cfg.statusPoll <= t then Some(PollLinkState)
                else None)
      && (forall j :: i < j < |tr| && tr[j].Sent? ==>
            exists k :: i < k < j && (SaysUp(tr[k]) || (Finds(tr[k]) && !SaysDown(tr[k]))))
  {
    var m, tr := Reached(cfg, t0, ans, steps).main, Record(cfg, t0, ans, steps);
    RecordIsLawful(cfg, t0, ans, steps);
    hide Reached, Record, Lawful, SaysDown, SaysUp, DeviceAction, Finds, Owed, Sync.Due, SpawnFrom, Slot;
    if forall k :: i < k < |tr| ==> !DeviceAction(tr[k]) {
      forall t: nat
        ensures m.sync.Due(t) ==
          if Elapsed(SpawnFrom(cfg, tr), t) then Some(SpawnPulseMonitor)
          else if tr[i].at + cfg.statusPoll <= t then Some(PollLinkState)
          else None
      {
        DueIsOwed(cfg, t0, ans, steps, t);
        QueryIsOwed(cfg, tr, i, t);
      }
    }
    forall j | i < j < |tr| && tr[j].Sent?
      ensures exists k :: i < k < j && (SaysUp(tr[k]) || (Finds(tr[k]) && !SaysDown(tr[k])))
    {
      var k := SendFollowsUp(cfg, tr, i, j);
    }
  }

  // ---------------------------------------------------------------- respawns

  predicate Disconnects(e: Entry) {
    e.Took? && e.event.PulseDisconnected?
  }

  lemma SpawnFollowsDisconnect(cfg: Config, tr: seq<Entry>, j: nat) returns (i: nat)
    requires Lawful(cfg, tr) && j < |tr| && tr[j].Spawned?
    ensures i < j && Disconnects(tr[i]) && tr[i].at + cfg.reconnect <= tr[j].at
    ensures forall k :: i < k < j ==> !Disconnects(tr[k]) && !tr[k].Spawned?
  {
    var before := tr[..j];
    assert Justified(cfg, before, tr[j]);
    i := LastIs(before, MonitorNews);
    forall k | i < k < j ensures !Disconnects(tr[k]) && !tr[k].Spawned? {
      assert before[k] == tr[k];
    }
  }

  lemma SpawnIsOwed(cfg: Config, tr: seq<Entry>, i: nat, t: nat)
    requires i < |tr| && Disconnects(tr[i]) && Slot(tr).Some?
    requires forall k :: i < k < |tr| ==> !Disconnects(tr[k]) && !tr[k].Spawned?
    ensures Owed(cfg, tr, t) == Some(SpawnPulseMonitor) <==> tr[i].at + cfg.reconnect <= t
  {
    LastAt(tr, MonitorNews, i);
    hide Last, Slot, QueryFrom, SendFrom, TimeSyncFrom, Unsynced, KnownVolume, SearchFrom;
  }

  /** In every run a monitor is respawned only for a disconnect taken since the last spawn, the reconnect delay
      after it and not earlier; and from then on, as soon as a device is there, the respawn is what is owed. */
  lemma RespawnFollowsDisconnect(cfg: Config, t0: nat, ans: Answer, steps: seq<Step>)
    ensures
      var m, tr := Reached(cfg, t0, ans, steps).main, Record(cfg, t0, ans, steps);
      && (forall j :: 0 <= j < |tr| && tr[j].Spawned? ==>
            exists i :: 0 <= i < j && Disconnects(tr[i]) && tr[i].at + cfg.reconnect <= tr[j].at
                        && forall k :: i < k < j ==> !Disconnects(tr[k]) && !tr[k].Spawned?)
      && (forall i :: 0 <= i < |tr| && Disconnects(tr[i])
                      && (forall k :: i < k < |tr| ==> !Disconnects(tr[k]) && !tr[k].Spawned?) ==>
            m.device.Some? ==>
            forall t: nat :: m.sync.Due(t) == Some(SpawnPulseMonitor) <==> tr[i].at + cfg.reconnect <= t)
  {
    var m, tr := Reached(cfg, t0, ans, steps).main, Record(cfg, t0, ans, steps);
    RecordIsLawful(cfg, t0, ans, steps);
    hide Reached, Record, Lawful, Disconnects, Owed, Sync.Due, Slot;
    forall j | 0 <= j < |tr| && tr[j].Spawned?
      ensures exists i :: 0 <= i < j && Disconnects(tr[i]) && tr[i].at + cfg.reconnect <= tr[j].at
                          && forall k :: i < k < j ==> !Disconnects(tr[k]) && !tr[k].Spawned?
    {
      var i := SpawnFollowsDisconnect(cfg, tr, j);
    }
    forall i, t: nat | 0 <= i < |tr| && Disconnects(tr[i]) && m.device.Some?
                       && (forall k :: i < k < |tr| ==> !Disconnects(tr[k]) && !tr[k].Spawned?)
      ensures m.sync.Due(t) == Some(SpawnPulseMonitor) <==> tr[i].at + cfg.reconnect <= t
    {
      DueIsOwed(cfg, t0, ans, steps, t);
      SpawnIsOwed(cfg, tr, i, t);
    }
  }

  // ---------------------------------------------------------------- the record and the history

  /** The actions in a record, the first search left out. */
  function ActionsIn(tr: seq<Entry>): seq<Action> {
    if |tr| <= 1 then []
    else
      ActionsIn(tr[..|tr| - 1]) +
      match tr[|tr| - 1]
      case Searched(_, _, _, _) => [ConnectDevice]
      case Sent(_, _, vol, _) => [SendSysparam(vol)]
      case Queried(_, _, _) => [PollLinkState]
      case Spawned(_) => [SpawnPulseMonitor]
      case Took(_, _) => []
  }

  function SendTimes(tr: seq<Entry>): seq<nat> {
    if tr == [] then []
    else SendTimes(tr[..|tr| - 1]) + (if tr[|tr| - 1].Sent? then [tr[|tr| - 1].at] else [])
  }

  lemma TurnedAsRecorded(m: Main, h: History, now: nat, ans: Answer, tr: seq<Entry>)
    requires m.Good() && m.sync.Due(now).Some? && tr != []
    requires h.log == ActionsIn(tr) && h.sends == SendTimes(tr)
    ensures
      var g, more := h.Turned(m, now, ans), tr + [Performed(m, now, ans)];
      g.log == ActionsIn(more) && g.sends == SendTimes(more)
  {
    NoActionIsDropped(m, now);
    var e := Performed(m, now, ans);
    assert (tr + [e])[..|tr|] == tr;
    hide Sync.Due, Main.Good;
  }

  /** The history that the other results speak of is in the record. */
  lemma {:induction false} HistoryIsRecorded(cfg: Config, t0: nat, ans: Answer, steps: seq<Step>)
    ensures
      var h, tr := Reached(cfg, t0, ans, steps).history, Record(cfg, t0, ans, steps);
      tr != [] && h.log == ActionsIn(tr) && h.sends == SendTimes(tr)
  {
    if steps != [] {
      var most, step := steps[..|steps| - 1], steps[|steps| - 1];
      var sys, tr := Reached(cfg, t0, ans, most), Record(cfg, t0, ans, most);
      HistoryIsRecorded(cfg, t0, ans, most);
      SoundAlways(cfg, t0, ans, most);
      StepIsRecorded(sys, step, cfg, tr);
    }
  }

  lemma StepIsRecorded(sys: System, step: Step, cfg: Config, tr: seq<Entry>)
    requires Sound(sys, cfg) && tr != [] && sys.history.log == ActionsIn(tr) && sys.history.sends == SendTimes(tr)
    ensures
      var h, more := Next(sys, step).history, tr + News(sys, step);
      h.log == ActionsIn(more) && h.sends == SendTimes(more)
  {
    hide Next, Main.Step, Main.Good, Main.Handle, History.Turned, History.Noted, Sync.Due, MoveOf, Performed, ActionsIn,
      SendTimes;
    SoundKept(sys, step, cfg);
    match MoveOf(sys, step)
    case Wait => assert tr + [] == tr;
    case Heard(event, at) => TookAsRecorded(tr, Took(at, event));
    case Acted(now, a) => TurnedAsRecorded(sys.main, sys.history, now, a, tr);
  }

  lemma TookAsRecorded(tr: seq<Entry>, e: Entry)
    requires tr != [] && e.Took?
    ensures ActionsIn(tr + [e]) == ActionsIn(tr) && SendTimes(tr + [e]) == SendTimes(tr)
  {
    assert (tr + [e])[..|tr|] == tr;
  }

  // ---------------------------------------------------------------- the intervals of the daemon

  /** The daemon's own intervals, in milliseconds: what its runs keep in numbers. */
  lemma DefaultTimings()
    ensures Gap(DEFAULT) == 500 && DEFAULT.debounce == 500 && DEFAULT.timeSync == 1_800_000
    ensures DEFAULT.reconnect == 2_000 && DEFAULT.statusPoll == 10_000 && DEFAULT.maxPoll == 2_000
    ensures Backoff(DEFAULT, 0) == 2_000 && Backoff(DEFAULT, 1) == 4_000 && Backoff(DEFAULT, 2) == 8_000
    ensures Backoff(DEFAULT, 3) == 16_000 && Backoff(DEFAULT, 4) == 32_000
    ensures forall k :: 5 <= k ==> Backoff(DEFAULT, k) == 60_000
  {
    forall k | 5 <= k ensures Backoff(DEFAULT, k) == 60_000 { AtLeast32(k); }
  }

  lemma {:induction false} AtLeast32(k: nat)
    requires 5 <= k
    ensures 32 <= Pow2(k)
  {
    if k > 5 { AtLeast32(k - 1); }
  }
}
