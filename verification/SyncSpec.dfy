/** The timed state machine of src/state.rs as a value.  `Due` and `Fired` together are
    `poll`: `Due` says which action is owed at a time, `Fired` what handing it out changes.
    Times and durations are natural numbers of ticks. */
module SyncSpec {
  import opened Base

  datatype Config = Config(
    debounce: nat,
    timeSync: nat,
    maxPoll: nat,
    reconnect: nat,
    retryBase: nat,
    retryMax: nat,
    statusPoll: nat)
  {
    /** The intervals that must not be zero for a drain of `poll` to end. */
    predicate Positive() {
      timeSync > 0 && reconnect > 0 && statusPoll > 0
    }
  }

  /** src/state.rs:3-9, in milliseconds. */
  const DEFAULT := Config(500, 1_800_000, 2_000, 2_000, 2_000, 60_000, 10_000)

  datatype Action =
    | SendSysparam(vol: Byte)
    | ConnectDevice
    | SpawnPulseMonitor
    | PollLinkState
  {
    /** The order in which one drain can hand actions out. */
    function Rank(): nat {
      match this
      case ConnectDevice => 0
      case SpawnPulseMonitor => 1
      case PollLinkState => 2
      case SendSysparam(_) => 3
    }
  }

  predicate Elapsed(at: Option<nat>, now: nat) {
    at.Some? && at.value <= now
  }

  /** The earlier of two optional times. */
  function Earlier(a: Option<nat>, b: Option<nat>): Option<nat> {
    if a.None? then b
    else if b.None? then a
    else Some(Min(a.value, b.value))
  }

  datatype Sync = Sync(
    cfg: Config,
    lastVol: Option<Byte>,
    volDirty: bool,
    volLastChange: nat,
    nextTimeSync: nat,
    deviceAt: Option<nat>,
    pulseAt: Option<nat>,
    initialPending: bool,
    sendBackoff: nat,
    nextSendAt: nat,
    linkUp: bool,
    statusAt: Option<nat>)
  {
    /** What every handler keeps: the link is polled exactly while it is down, and the
        backoff stays between the two configured bounds. */
    predicate Valid() {
      && (linkUp <==> statusAt.None?)
      && Min(cfg.retryBase, cfg.retryMax) <= sendBackoff <= Max(cfg.retryBase, cfg.retryMax)
    }

    /** The volume a send would carry. */
    function Shown(): Byte {
      if lastVol.Some? then lastVol.value else 0
    }

    predicate VolumeDue(now: nat) {
      volDirty && volLastChange + cfg.debounce <= now
    }

    predicate TimeDue(now: nat) {
      nextTimeSync <= now
    }

    predicate SendDue(now: nat) {
      linkUp && nextSendAt <= now && (TimeDue(now) || VolumeDue(now))
    }

    /** The action owed at `now`, if any. */
    function Due(now: nat): Option<Action> {
      if deviceAt.Some? then
        if Elapsed(deviceAt, now) then Some(ConnectDevice) else None
      else if Elapsed(pulseAt, now) then Some(SpawnPulseMonitor)
      else if !linkUp then
        if Elapsed(statusAt, now) then Some(PollLinkState) else None
      else if SendDue(now) then Some(SendSysparam(Shown()))
      else None
    }

    /** The state left behind when the owed action is handed out. */
    function Fired(now: nat): Sync {
      match Due(now)
      case None => this
      case Some(ConnectDevice) => this.(deviceAt := None)
      case Some(SpawnPulseMonitor) => this.(pulseAt := None)
      case Some(PollLinkState) => this.(statusAt := Some(now + cfg.statusPoll))
      case Some(SendSysparam(_)) =>
        if initialPending && TimeDue(now) then this.(initialPending := false)
        else if VolumeDue(now) then this.(volDirty := false)
        else this
    }

    function OnVolumeChanged(vol: Byte, now: nat): Sync {
      if lastVol == Some(vol) then this
      else this.(lastVol := Some(vol), volDirty := true, volLastChange := now)
    }

    function OnSendOk(now: nat): Sync {
      this.(nextTimeSync := now + cfg.timeSync, volDirty := false,
            sendBackoff := cfg.retryBase, nextSendAt := now)
    }

    function OnSendNoAck(now: nat): Sync {
      this.(nextSendAt := now + sendBackoff, sendBackoff := Min(2 * sendBackoff, cfg.retryMax),
            linkUp := false, statusAt := Some(now + cfg.statusPoll))
    }

    function OnLinkState(now: nat, up: bool): Sync {
      if up then this.(linkUp := true, statusAt := None)
      else this.(linkUp := false,
                 statusAt := if statusAt.Some? then statusAt else Some(now + cfg.statusPoll))
    }

    function OnDeviceLost(now: nat): Sync {
      this.(deviceAt := Some(now + cfg.reconnect))
    }

    function OnPulseLost(now: nat): Sync {
      this.(pulseAt := Some(now + cfg.reconnect))
    }

    function OnDeviceConnected(now: nat): Sync {
      this.(deviceAt := None, nextTimeSync := now, initialPending := true,
            sendBackoff := cfg.retryBase, nextSendAt := now, linkUp := true, statusAt := None)
    }

    function OnPulseConnected(): Sync {
      this.(pulseAt := None)
    }

    /** `next_deadline`: how long the event loop may sleep. */
    function Deadline(now: nat): nat {
      var capped := now + cfg.maxPoll;
      var e1 := if pulseAt.Some? then Min(capped, pulseAt.value) else capped;
      var e2 :=
        if deviceAt.Some? then Min(e1, deviceAt.value)
        else if !linkUp then (if statusAt.Some? then Min(e1, statusAt.value) else e1)
        else
          var floor := Max(nextSendAt, now);
          var e := if volDirty then Min(e1, Max(volLastChange + cfg.debounce, floor)) else e1;
          Min(e, Max(nextTimeSync, floor));
      Max(e2 - now, 0)
    }

    /** The first time from which some action is owed, if nothing else happens. */
    function WakeTime(): Option<nat> {
      if deviceAt.Some? then deviceAt
      else if !linkUp then Earlier(pulseAt, statusAt)
      else
        var content := if volDirty then Min(nextTimeSync, volLastChange + cfg.debounce) else nextTimeSync;
        Earlier(pulseAt, Some(Max(nextSendAt, content)))
    }

    /** The pulse timer asks to be woken before the device timer that hides it from `poll`. */
    predicate Masked(now: nat) {
      && deviceAt.Some? && pulseAt.Some?
      && Max(pulseAt.value, now) < Min(deviceAt.value, now + cfg.maxPoll)
    }
  }

  function Initial(cfg: Config, now: nat): Sync {
    Sync(cfg, None, false, now, now, None, None, true, cfg.retryBase, now, true, None)
  }
}
