/** What a run did and met, in order and with its times, and what the daemon owes as far as this record alone
    tells: no timers, no flags, only what happened last. */
module Trace {
  import opened Base
  import opened SyncSpec
  import opened MainLoop
  import opened System
  import opened Runs
  import opened Retry
  import Hid

  /** `at` is the time an entry counts from: the frozen time of its poll, the clock once a search is over, or
      the time an event was taken.  `device` is what the slot held. */
  datatype Entry =
    | Searched(polled: nat, at: nat, found: Option<Hid.Protocol>, wire: Hid.Wire)
    | Sent(at: nat, device: Option<Hid.Protocol>, vol: Byte, wire: Hid.Wire)
    | Queried(at: nat, device: Option<Hid.Protocol>, wire: Hid.Wire)
    | Spawned(at: nat)
    | Took(at: nat, event: Event)

  function Performed(m: Main, now: nat, ans: Answer): Entry
    requires m.sync.Due(now).Some?
  {
    match m.sync.Due(now).value
    case ConnectDevice => Searched(now, m.clock + ans.searchTime, ans.found, ans.wire)
    case SpawnPulseMonitor => Spawned(now)
    case PollLinkState => Queried(now, m.device, ans.wire)
    case SendSysparam(vol) => Sent(now, m.device, vol, ans.wire)
  }

  /** What one step adds to the record. */
  function News(sys: System, step: Step): seq<Entry> {
    match MoveOf(sys, step)
    case Wait => []
    case Heard(event, at) => [Took(at, event)]
    case Acted(now, ans) => [Performed(sys.main, now, ans)]
  }

  /** The record of a run from the first search on; the first monitor is not in it. */
  function Record(cfg: Config, t0: nat, ans: Answer, steps: seq<Step>): seq<Entry> {
    if steps == [] then [Searched(t0, t0 + ans.searchTime, ans.found, ans.wire)]
    else
      var most := steps[..|steps| - 1];
      Record(cfg, t0, ans, most) + News(Reached(cfg, t0, ans, most), steps[|steps| - 1])
  }

  // ---------------------------------------------------------------- what an entry says

  /** The exchange failed: the write did, or a dongle's reply did not come, or came with its high bit set; only
      for a send is a reply that does not come no failure. */
  predicate Fails(e: Entry) {
    match e
    case Sent(_, Some(Dongle), _, wire) =>
      wire.WriteError? || wire.PollError? || (wire.Reply? && wire.command >= 128)
    case Sent(_, Some(UsbCable), _, wire) => wire.WriteError?
    case Queried(_, Some(Dongle), wire) => !wire.Reply? || wire.command >= 128
    case _ => false
  }

  /** Nobody acknowledged. */
  predicate Unanswered(e: Entry) {
    e.Sent? && e.device == Some(Hid.Dongle) && e.wire.Silence?
  }

  predicate Acknowledged(e: Entry) {
    e.Sent? && !Fails(e) && !Unanswered(e)
  }

  predicate Finds(e: Entry) {
    e.Searched? && e.found.Some?
  }

  predicate Loses(e: Entry) {
    Fails(e) || (e.Searched? && e.found.None?)
  }

  /** A dongle says that its link is down. */
  predicate SaysDown(e: Entry) {
    && (e.Queried? || e.Searched?)
    && (if e.Queried? then e.device else e.found) == Some(Hid.Dongle)
    && e.wire.Reply? && e.wire.command < 128 && e.wire.data == 0
  }

  predicate DeviceNews(e: Entry) {
    Finds(e) || Loses(e)
  }

  predicate MonitorNews(e: Entry) {
    e.Spawned? || (e.Took? && e.event.PulseDisconnected?)
  }

  predicate LinkNews(e: Entry) {
    Finds(e) || Unanswered(e) || (e.Queried? && !Fails(e))
  }

  predicate SyncNews(e: Entry) {
    Finds(e) || Acknowledged(e)
  }

  predicate AnswerNews(e: Entry) {
    SyncNews(e) || Unanswered(e)
  }

  predicate SendNews(e: Entry) {
    Finds(e) || e.Sent?
  }

  predicate VolumeNews(e: Entry) {
    e.Took? && e.event.VolumeChanged?
  }

  // ---------------------------------------------------------------- looking back

  function Last(tr: seq<Entry>, news: Entry -> bool): Option<Entry> {
    if tr == [] then None
    else if news(tr[|tr| - 1]) then Some(tr[|tr| - 1])
    else Last(tr[..|tr| - 1], news)
  }

  function Slot(tr: seq<Entry>): Option<Hid.Protocol> {
    var e := Last(tr, DeviceNews);
    if e.Some? && Finds(e.value) then e.value.found else None
  }

  function KnownVolume(tr: seq<Entry>): Option<Byte> {
    var e := Last(tr, VolumeNews);
    if e.Some? && VolumeNews(e.value) then Some(e.value.event.vol) else None
  }

  /** Unacknowledged sends since the last connect or acknowledged send. */
  function Misses(tr: seq<Entry>): nat {
    if tr == [] then 0
    else
      var e := tr[|tr| - 1];
      if SyncNews(e) then 0
      else Misses(tr[..|tr| - 1]) + (if Unanswered(e) then 1 else 0)
  }

  /** Nothing has been sent to this device yet. */
  predicate Fresh(tr: seq<Entry>) {
    var e := Last(tr, SendNews);
    e.Some? && Finds(e.value)
  }

  /** When the volume last changed, if no send has taken care of that.  An acknowledged one has; any other has
      if the volume had settled and it was not the first to its device. */
  function Unsynced(cfg: Config, tr: seq<Entry>): Option<nat> {
    if tr == [] then None
    else
      var e, most := tr[|tr| - 1], tr[..|tr| - 1];
      var before := Unsynced(cfg, most);
      if VolumeNews(e) && KnownVolume(most) != Some(e.event.vol) then Some(e.at)
      else if Acknowledged(e) then None
      else if e.Sent? && !Fresh(most) && before.Some? && before.value + cfg.debounce <= e.at then None
      else before
  }

  // ---------------------------------------------------------------- what is owed

  function SearchFrom(cfg: Config, tr: seq<Entry>): Option<nat> {
    var e := Last(tr, DeviceNews);
    if e.Some? && Loses(e.value) then Some(e.value.at + cfg.reconnect) else None
  }

  function SpawnFrom(cfg: Config, tr: seq<Entry>): Option<nat> {
    var e := Last(tr, MonitorNews);
    if e.Some? && e.value.Took? then Some(e.value.at + cfg.reconnect) else None
  }

  /** From when the link is asked for, if it is down. */
  function QueryFrom(cfg: Config, tr: seq<Entry>): Option<nat> {
    var e := Last(tr, LinkNews);
    if e.Some? && (Unanswered(e.value) || SaysDown(e.value)) then Some(e.value.at + cfg.statusPoll) else None
  }

  /** The end of the delay after an unacknowledged send. */
  function SendFrom(cfg: Config, tr: seq<Entry>): nat {
    var e := Last(tr, AnswerNews);
    if e.None? then 0
    else if Unanswered(e.value) && Misses(tr) > 0 then e.value.at + Backoff(cfg, Misses(tr) - 1)
    else e.value.at
  }

  function TimeSyncFrom(cfg: Config, tr: seq<Entry>): nat {
    var e := Last(tr, SyncNews);
    if e.None? then 0 else if Finds(e.value) then e.value.at else e.value.at + cfg.timeSync
  }

  /** The action owed at `t` after this record. */
  function Owed(cfg: Config, tr: seq<Entry>, t: nat): Option<Action> {
    if Slot(tr).None? then
      if Elapsed(SearchFrom(cfg, tr), t) then Some(ConnectDevice) else None
    else if Elapsed(SpawnFrom(cfg, tr), t) then Some(SpawnPulseMonitor)
    else if QueryFrom(cfg, tr).Some? then
      if Elapsed(QueryFrom(cfg, tr), t) then Some(PollLinkState) else None
    else
      var volume := Unsynced(cfg, tr);
      if SendFrom(cfg, tr) <= t
        && (TimeSyncFrom(cfg, tr) <= t || (volume.Some? && volume.value + cfg.debounce <= t))
      then Some(SendSysparam(if KnownVolume(tr).Some? then KnownVolume(tr).value else 0))
      else None
  }

  /** Whether the keyboard counts as awake. */
  predicate Awake(tr: seq<Entry>) {
    var e := Last(tr, AnswerNews);
    e.Some? ==> !Unanswered(e.value) && !SaysDown(e.value)
  }

  // ---------------------------------------------------------------- the state tells the same

  /** What the record says that holds whether a device is there or not. */
  predicate TellsAlways(m: Main, cfg: Config, tr: seq<Entry>) {
    && m.sync.cfg == cfg && m.device == Slot(tr) && m.awake == Awake(tr)
    && m.sync.deviceAt == SearchFrom(cfg, tr) && m.sync.pulseAt == SpawnFrom(cfg, tr)
    && m.sync.lastVol == KnownVolume(tr)
    && m.sync.volDirty == Unsynced(cfg, tr).Some?
    && (m.sync.volDirty ==> m.sync.volLastChange == Unsynced(cfg, tr).value)
  }

  /** What it says about the device that is there. */
  predicate TellsOfDevice(s: Sync, cfg: Config, tr: seq<Entry>) {
    && s.statusAt == QueryFrom(cfg, tr) && s.linkUp == QueryFrom(cfg, tr).None?
    && s.nextSendAt == SendFrom(cfg, tr) && s.sendBackoff == Backoff(cfg, Misses(tr))
    && s.nextTimeSync == TimeSyncFrom(cfg, tr)
    && s.initialPending == Fresh(tr) && (Fresh(tr) ==> s.nextTimeSync <= s.nextSendAt)
  }

  predicate Tells(m: Main, cfg: Config, tr: seq<Entry>) {
    && TellsAlways(m, cfg, tr)
    && (m.device.Some? ==> TellsOfDevice(m.sync, cfg, tr))
  }

  lemma TellsWhatIsOwed(m: Main, cfg: Config, tr: seq<Entry>, t: nat)
    requires m.Good() && Tells(m, cfg, tr)
    ensures m.sync.Due(t) == Owed(cfg, tr, t)
  {
    hide Slot, SearchFrom, SpawnFrom, QueryFrom, SendFrom, TimeSyncFrom, Unsynced, KnownVolume, Fresh, Backoff, Awake;
  }

  lemma LastAppend(tr: seq<Entry>, e: Entry, news: Entry -> bool)
    ensures Last(tr + [e], news) == if news(e) then Some(e) else Last(tr, news)
  {
    assert (tr + [e])[..|tr|] == tr;
  }

  lemma Appended(tr: seq<Entry>, e: Entry)
    ensures Last(tr + [e], DeviceNews) == if DeviceNews(e) then Some(e) else Last(tr, DeviceNews)
    ensures Last(tr + [e], MonitorNews) == if MonitorNews(e) then Some(e) else Last(tr, MonitorNews)
    ensures Last(tr + [e], LinkNews) == if LinkNews(e) then Some(e) else Last(tr, LinkNews)
    ensures Last(tr + [e], SyncNews) == if SyncNews(e) then Some(e) else Last(tr, SyncNews)
    ensures Last(tr + [e], AnswerNews) == if AnswerNews(e) then Some(e) else Last(tr, AnswerNews)
    ensures Last(tr + [e], SendNews) == if SendNews(e) then Some(e) else Last(tr, SendNews)
    ensures Last(tr + [e], VolumeNews) == if VolumeNews(e) then Some(e) else Last(tr, VolumeNews)
    ensures Misses(tr + [e]) == if SyncNews(e) then 0 else Misses(tr) + (if Unanswered(e) then 1 else 0)
  {
    LastAppend(tr, e, DeviceNews);
    LastAppend(tr, e, MonitorNews);
    LastAppend(tr, e, LinkNews);
    LastAppend(tr, e, SyncNews);
    LastAppend(tr, e, AnswerNews);
    LastAppend(tr, e, SendNews);
    LastAppend(tr, e, VolumeNews);
    assert (tr + [e])[..|tr|] == tr;
    hide Last, DeviceNews, MonitorNews, LinkNews, AnswerNews, SendNews, VolumeNews;
  }

  lemma UnsyncedAppended(cfg: Config, tr: seq<Entry>, e: Entry)
    ensures Unsynced(cfg, tr + [e]) ==
      var before := Unsynced(cfg, tr);
      if VolumeNews(e) && KnownVolume(tr) != Some(e.event.vol) then Some(e.at)
      else if Acknowledged(e) then None
      else if e.Sent? && !Fresh(tr) && before.Some? && before.value + cfg.debounce <= e.at then None
      else before
  {
    assert (tr + [e])[..|tr|] == tr;
  }

  /** The two records look the same but for what one entry may say about the device, the link, the sends and
      the volume. */
  predicate SameDevice(cfg: Config, tr: seq<Entry>, more: seq<Entry>) {
    && QueryFrom(cfg, more) == QueryFrom(cfg, tr) && SendFrom(cfg, more) == SendFrom(cfg, tr)
    && TimeSyncFrom(cfg, more) == TimeSyncFrom(cfg, tr) && Misses(more) == Misses(tr) && Fresh(more) == Fresh(tr)
  }

  predicate SameVolume(cfg: Config, tr: seq<Entry>, more: seq<Entry>) {
    KnownVolume(more) == KnownVolume(tr) && Unsynced(cfg, more) == Unsynced(cfg, tr)
  }

  lemma AfterSearch(cfg: Config, tr: seq<Entry>, e: Entry)
    requires e.Searched?
    ensures
      var more := tr + [e];
      && Slot(more) == e.found && SameVolume(cfg, tr, more) && SpawnFrom(cfg, more) == SpawnFrom(cfg, tr)
      && SearchFrom(cfg, more) == (if e.found.None? then Some(e.at + cfg.reconnect) else None)
      && Awake(more) == (if e.found.None? then Awake(tr) else !SaysDown(e))
      && (e.found.Some? ==>
            && QueryFrom(cfg, more) == (if SaysDown(e) then Some(e.at + cfg.statusPoll) else None)
            && SendFrom(cfg, more) == TimeSyncFrom(cfg, more) == e.at && Misses(more) == 0 && Fresh(more))
  {
    Appended(tr, e);
    UnsyncedAppended(cfg, tr, e);
    hide Last, Unsynced, Misses;
  }

  lemma AfterSpawn(cfg: Config, tr: seq<Entry>, e: Entry)
    requires e.Spawned?
    ensures
      var more := tr + [e];
      && SameVolume(cfg, tr, more) && SameDevice(cfg, tr, more) && Slot(more) == Slot(tr)
      && SearchFrom(cfg, more) == SearchFrom(cfg, tr) && Awake(more) == Awake(tr) && SpawnFrom(cfg, more) == None
  {
    Appended(tr, e);
    UnsyncedAppended(cfg, tr, e);
    hide Last, Unsynced, Misses;
  }

  lemma AfterTook(cfg: Config, tr: seq<Entry>, e: Entry)
    requires e.Took?
    ensures
      var more := tr + [e];
      && SameDevice(cfg, tr, more) && Slot(more) == Slot(tr)
      && SearchFrom(cfg, more) == SearchFrom(cfg, tr) && Awake(more) == Awake(tr)
      && SpawnFrom(cfg, more) == (if e.event.PulseDisconnected? then Some(e.at + cfg.reconnect) else SpawnFrom(cfg, tr))
      && KnownVolume(more) == (if e.event.VolumeChanged? then Some(e.event.vol) else KnownVolume(tr))
      && Unsynced(cfg, more) ==
           (if e.event.VolumeChanged? && KnownVolume(tr) != Some(e.event.vol) then Some(e.at) else Unsynced(cfg, tr))
  {
    Appended(tr, e);
    UnsyncedAppended(cfg, tr, e);
    hide Last, Unsynced, Misses;
  }

  lemma AfterQuery(cfg: Config, tr: seq<Entry>, e: Entry)
    requires e.Queried?
    ensures
      var more := tr + [e];
      && SameVolume(cfg, tr, more) && SpawnFrom(cfg, more) == SpawnFrom(cfg, tr) && Awake(more) == Awake(tr)
      && Slot(more) == (if Fails(e) then None else Slot(tr))
      && SearchFrom(cfg, more) == (if Fails(e) then Some(e.at + cfg.reconnect) else SearchFrom(cfg, tr))
      && (!Fails(e) ==>
            && QueryFrom(cfg, more) == (if SaysDown(e) then Some(e.at + cfg.statusPoll) else None)
            && SendFrom(cfg, more) == SendFrom(cfg, tr) && TimeSyncFrom(cfg, more) == TimeSyncFrom(cfg, tr)
            && Misses(more) == Misses(tr) && Fresh(more) == Fresh(tr))
  {
    Appended(tr, e);
    UnsyncedAppended(cfg, tr, e);
    hide Last, Unsynced, Misses;
  }

  lemma AfterSent(cfg: Config, tr: seq<Entry>, e: Entry)
    requires e.Sent?
    ensures
      var more := tr + [e];
      var before := Unsynced(cfg, tr);
      && KnownVolume(more) == KnownVolume(tr) && SpawnFrom(cfg, more) == SpawnFrom(cfg, tr)
      && Slot(more) == (if Fails(e) then None else Slot(tr))
      && SearchFrom(cfg, more) == (if Fails(e) then Some(e.at + cfg.reconnect) else SearchFrom(cfg, tr))
      && Awake(more) == (if Fails(e) then Awake(tr) else Acknowledged(e))
      && Unsynced(cfg, more) ==
           (if Acknowledged(e) || (!Fresh(tr) && before.Some? && before.value + cfg.debounce <= e.at) then None
            else before)
      && !Fresh(more)
  {
    Appended(tr, e);
    UnsyncedAppended(cfg, tr, e);
    hide Last, Unsynced, Misses;
  }

  lemma AfterSentToDevice(cfg: Config, tr: seq<Entry>, e: Entry)
    requires e.Sent? && !Fails(e)
    ensures
      var more := tr + [e];
      && QueryFrom(cfg, more) == (if Unanswered(e) then Some(e.at + cfg.statusPoll) else QueryFrom(cfg, tr))
      && SendFrom(cfg, more) == e.at + (if Unanswered(e) then Backoff(cfg, Misses(tr)) else 0)
      && TimeSyncFrom(cfg, more) == (if Unanswered(e) then TimeSyncFrom(cfg, tr) else e.at + cfg.timeSync)
      && Misses(more) == (if Unanswered(e) then Misses(tr) + 1 else 0)
  {
    Appended(tr, e);
    hide Last, Misses, Backoff;
  }

  // ---------------------------------------------------------------- every step

  lemma TellsSearch(m: Main, cfg: Config, tr: seq<Entry>, now: nat, ans: Answer)
    requires m.Good() && Tells(m, cfg, tr) && m.sync.Due(now) == Some(ConnectDevice)
    ensures Tells(m.Step(now, ans), cfg, tr + [Performed(m, now, ans)])
  {
    var e := Performed(m, now, ans);
    AfterSearch(cfg, tr, e);
    assert m.Step(now, ans) == m.(sync := m.sync.Fired(now)).Connect(ans);
    hide Slot, SearchFrom, SpawnFrom, QueryFrom, SendFrom, TimeSyncFrom, Unsynced, KnownVolume, Fresh, Awake, Main.Step;
  }

  lemma TellsSpawn(m: Main, cfg: Config, tr: seq<Entry>, now: nat, ans: Answer)
    requires m.Good() && Tells(m, cfg, tr) && m.sync.Due(now) == Some(SpawnPulseMonitor)
    ensures Tells(m.Step(now, ans), cfg, tr + [Performed(m, now, ans)])
  {
    AfterSpawn(cfg, tr, Performed(m, now, ans));
    assert m.Step(now, ans) == m.(sync := m.sync.Fired(now)).SpawnPulse();
    hide Slot, SearchFrom, SpawnFrom, QueryFrom, SendFrom, TimeSyncFrom, Unsynced, KnownVolume, Fresh, Awake, Main.Step;
  }

  lemma TellsQuery(m: Main, cfg: Config, tr: seq<Entry>, now: nat, ans: Answer)
    requires m.Good() && Tells(m, cfg, tr) && m.sync.Due(now) == Some(PollLinkState)
    ensures Tells(m.Step(now, ans), cfg, tr + [Performed(m, now, ans)])
  {
    AfterQuery(cfg, tr, Performed(m, now, ans));
    assert m.Step(now, ans) == m.(sync := m.sync.Fired(now)).QueryLink(now, ans);
    hide Slot, SearchFrom, SpawnFrom, QueryFrom, SendFrom, TimeSyncFrom, Unsynced, KnownVolume, Fresh, Awake, Main.Step;
  }

  lemma SendFired(m: Main, cfg: Config, tr: seq<Entry>, now: nat)
    requires m.Good() && Tells(m, cfg, tr) && m.sync.Due(now) == Some(SendSysparam(m.sync.Shown()))
    ensures m.device.Some? && m.sync.deviceAt.None? && m.sync.linkUp
    ensures
      var volume := Unsynced(cfg, tr);
      m.sync.Fired(now) == m.sync.(
        initialPending := false,
        volDirty := m.sync.volDirty && (Fresh(tr) || now < volume.value + cfg.debounce))
  {
    hide Slot, SearchFrom, SpawnFrom, QueryFrom, SendFrom, TimeSyncFrom, Unsynced, KnownVolume, Fresh, Awake, Misses,
      Backoff;
  }

  lemma TellsSend(m: Main, cfg: Config, tr: seq<Entry>, now: nat, ans: Answer)
    requires m.Good() && Tells(m, cfg, tr) && m.sync.Due(now) == Some(SendSysparam(m.sync.Shown()))
    ensures Tells(m.Step(now, ans), cfg, tr + [Performed(m, now, ans)])
  {
    var e := Performed(m, now, ans);
    AfterSent(cfg, tr, e);
    if !Fails(e) { AfterSentToDevice(cfg, tr, e); }
    BackoffDoubles(cfg, Misses(tr));
    SendFired(m, cfg, tr, now);
    assert m.Step(now, ans) == m.(sync := m.sync.Fired(now)).Send(now, ans);
    hide Slot, SearchFrom, SpawnFrom, QueryFrom, SendFrom, TimeSyncFrom, Unsynced, KnownVolume, Fresh, Awake, Main.Step,
      Misses, Backoff, Sync.Fired, Sync.Due, Main.Good;
  }

  lemma TellsEvent(m: Main, cfg: Config, tr: seq<Entry>, event: Event, at: nat)
    requires Tells(m, cfg, tr)
    ensures Tells(m.Handle(event, at), cfg, tr + [Took(at, event)])
  {
    AfterTook(cfg, tr, Took(at, event));
    hide Slot, SearchFrom, SpawnFrom, QueryFrom, SendFrom, TimeSyncFrom, Unsynced, KnownVolume, Fresh, Awake;
  }

  lemma TellsTurn(m: Main, cfg: Config, tr: seq<Entry>, now: nat, ans: Answer)
    requires m.Good() && Tells(m, cfg, tr) && m.sync.Due(now).Some?
    ensures Tells(m.Step(now, ans), cfg, tr + [Performed(m, now, ans)])
  {
    assert m.sync.Due(now).value.SendSysparam? ==> m.sync.Due(now).value.vol == m.sync.Shown();
    hide *;
    match m.sync.Due(now).value
    case ConnectDevice => TellsSearch(m, cfg, tr, now, ans);
    case SpawnPulseMonitor => TellsSpawn(m, cfg, tr, now, ans);
    case PollLinkState => TellsQuery(m, cfg, tr, now, ans);
    case SendSysparam(_) => TellsSend(m, cfg, tr, now, ans);
  }

  lemma {:induction false} RecordTells(cfg: Config, t0: nat, ans: Answer, steps: seq<Step>)
    ensures Tells(Reached(cfg, t0, ans, steps).main, cfg, Record(cfg, t0, ans, steps))
  {
    if steps == [] {
      BeginTells(cfg, t0, ans);
    } else {
      var most, step := steps[..|steps| - 1], steps[|steps| - 1];
      RecordTells(cfg, t0, ans, most);
      SoundAlways(cfg, t0, ans, most);
      StepTells(Reached(cfg, t0, ans, most), step, cfg, Record(cfg, t0, ans, most));
    }
  }

  lemma BeginTells(cfg: Config, t0: nat, ans: Answer)
    ensures Tells(Start(cfg, t0, ans), cfg, [Searched(t0, t0 + ans.searchTime, ans.found, ans.wire)])
  {
    var e := Searched(t0, t0 + ans.searchTime, ans.found, ans.wire);
    assert [] + [e] == [e];
    AfterSearch(cfg, [], e);
    hide QueryFrom, SendFrom, TimeSyncFrom;
  }

  lemma StepTells(sys: System, step: Step, cfg: Config, tr: seq<Entry>)
    requires Sound(sys, cfg) && Tells(sys.main, cfg, tr)
    ensures Tells(Next(sys, step).main, cfg, tr + News(sys, step))
  {
    hide Next, Main.Step, Main.Good, History.Turned, Sync.Due, MoveOf, TellsAlways, TellsOfDevice, Performed;
    SoundKept(sys, step, cfg);
    match MoveOf(sys, step)
    case Wait => assert tr + [] == tr; TellsSame(sys.main, Next(sys, step).main, cfg, tr);
    case Heard(event, at) =>
      TellsEvent(sys.main, cfg, tr, event, at);
      TellsSame(sys.main.Handle(event, at), Next(sys, step).main, cfg, tr + [Took(at, event)]);
    case Acted(now, a) => TellsTurn(sys.main, cfg, tr, now, a);
  }

  lemma TellsSame(m: Main, n: Main, cfg: Config, tr: seq<Entry>)
    requires Tells(m, cfg, tr) && n.sync == m.sync && n.device == m.device && n.awake == m.awake
    ensures Tells(n, cfg, tr)
  {
  }

  /** The state machine and its handlers against the record: in every run, the action that `poll` owes at any
      time is the one the record calls for, the slot holds the device last found and not lost since, and the
      keyboard counts as awake as it last showed itself. */
  lemma DueIsOwed(cfg: Config, t0: nat, ans: Answer, steps: seq<Step>, t: nat)
    ensures
      var m, tr := Reached(cfg, t0, ans, steps).main, Record(cfg, t0, ans, steps);
      m.sync.Due(t) == Owed(cfg, tr, t) && m.device == Slot(tr) && m.awake == Awake(tr)
  {
    RecordTells(cfg, t0, ans, steps);
    SoundAlways(cfg, t0, ans, steps);
    hide Reached, Record, Owed, Sync.Due, Slot, Awake;
    TellsWhatIsOwed(Reached(cfg, t0, ans, steps).main, cfg, Record(cfg, t0, ans, steps), t);
  }
}
