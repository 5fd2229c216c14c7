/** The object of src/state.rs: fields updated in place, each method tied to the value-level
    machine of `SyncSpec`. */
module SyncStateModel {
  import opened Base
  import opened SyncSpec
  import opened Deadline

  class SyncState {
    const config: Config
    var lastVol: Option<Byte>
    var volDirty: bool
    var volLastChange: nat
    var nextTimeSync: nat
    var deviceReconnectAt: Option<nat>
    var pulseReconnectAt: Option<nat>
    var initialSyncPending: bool
    var sendBackoff: nat
    var nextSendAt: nat
    var linkUp: bool
    var statusPollAt: Option<nat>

    ghost function View(): Sync
      reads this
    {
      Sync(config, lastVol, volDirty, volLastChange, nextTimeSync, deviceReconnectAt, pulseReconnectAt,
           initialSyncPending, sendBackoff, nextSendAt, linkUp, statusPollAt)
    }

    ghost predicate Valid()
      reads this
    {
      View().Valid()
    }

    constructor (config: Config, now: nat)
      ensures Valid() && View() == Initial(config, now)
    {
      this.config := config;
      lastVol := None;
      volDirty := false;
      volLastChange := now;
      nextTimeSync := now;
      deviceReconnectAt := None;
      pulseReconnectAt := None;
      initialSyncPending := true;
      sendBackoff := config.retryBase;
      nextSendAt := now;
      linkUp := true;
      statusPollAt := None;
    }

    method OnVolumeChanged(vol: Byte, now: nat)
      requires Valid()
      modifies this
      ensures Valid() && View() == old(View()).OnVolumeChanged(vol, now)
    {
      if lastVol == Some(vol) {
        return;
      }
      lastVol := Some(vol);
      volDirty := true;
      volLastChange := now;
    }

    /** Hands out the owed action: an answer of None leaves the state alone, any other answer
        leaves exactly what `Fired` says. */
    method Poll(now: nat) returns (action: Option<Action>)
      requires Valid()
      modifies this
      ensures Valid()
      ensures action == old(View()).Due(now)
      ensures View() == old(View()).Fired(now)
      ensures action.None? ==> View() == old(View())
    {
      if deviceReconnectAt.Some? {
        if now >= deviceReconnectAt.value {
          deviceReconnectAt := None;
          return Some(ConnectDevice);
        }
        return None;
      }
      if pulseReconnectAt.Some? {
        if now >= pulseReconnectAt.value {
          pulseReconnectAt := None;
          return Some(SpawnPulseMonitor);
        }
      }
      if !linkUp {
        if statusPollAt.Some? {
          if now >= statusPollAt.value {
            statusPollAt := Some(now + config.statusPoll);
            return Some(PollLinkState);
          }
        }
        return None;
      }
      if now < nextSendAt {
        return None;
      }
      var vol := if lastVol.Some? then lastVol.value else 0;
      if initialSyncPending && now >= nextTimeSync {
        initialSyncPending := false;
        return Some(SendSysparam(vol));
      }
      if volDirty && now >= volLastChange + config.debounce {
        volDirty := false;
        return Some(SendSysparam(vol));
      }
      if !initialSyncPending && now >= nextTimeSync {
        return Some(SendSysparam(vol));
      }
      return None;
    }

    /** The time to sleep: no action becomes due before it is over, and unless it was cut at
        `max_poll_timeout` one is due then, in every state that does not mask the pulse timer. */
    method NextDeadline(now: nat) returns (timeout: nat)
      ensures timeout == View().Deadline(now) && timeout <= config.maxPoll
      ensures Valid() ==> forall t: nat :: now <= t < now + timeout ==> View().Due(t).None?
      ensures Valid() ==> (RightWait(View(), now, timeout) <==> !View().Masked(now))
    {
      if View().Valid() {
        DeadlineExactUnlessMasked(View(), now);
        forall t: nat | now <= t < now + View().Deadline(now) ensures View().Due(t).None? {
          DeadlineMissesNothing(View(), now, t);
        }
      }
      hide Sync.Due, Sync.Masked, RightWait;
      var earliest := now + config.maxPoll;
      if pulseReconnectAt.Some? {
        earliest := Min(earliest, pulseReconnectAt.value);
      }
      if deviceReconnectAt.Some? {
        earliest := Min(earliest, deviceReconnectAt.value);
      } else if !linkUp {
        if statusPollAt.Some? {
          earliest := Min(earliest, statusPollAt.value);
        }
      } else {
        var floor := Max(nextSendAt, now);
        if volDirty {
          earliest := Min(earliest, Max(volLastChange + config.debounce, floor));
        }
        earliest := Min(earliest, Max(nextTimeSync, floor));
      }
      timeout := if earliest >= now then earliest - now else 0;
    }

    method OnSendOk(now: nat)
      requires Valid()
      modifies this
      ensures Valid() && View() == old(View()).OnSendOk(now)
    {
      nextTimeSync := now + config.timeSync;
      volDirty := false;
      sendBackoff := config.retryBase;
      nextSendAt := now;
    }

    method OnSendNoAck(now: nat) returns (delay: nat)
      requires Valid()
      modifies this
      ensures Valid() && View() == old(View()).OnSendNoAck(now)
      ensures delay == old(sendBackoff) && nextSendAt == now + delay
    {
      delay := sendBackoff;
      nextSendAt := now + delay;
      sendBackoff := Min(delay * 2, config.retryMax);
      linkUp := false;
      statusPollAt := Some(now + config.statusPoll);
    }

    method OnLinkState(now: nat, up: bool)
      requires Valid()
      modifies this
      ensures Valid() && View() == old(View()).OnLinkState(now, up)
      ensures linkUp == up && statusPollAt.Some? == !up
      ensures !up && old(statusPollAt).Some? ==> statusPollAt == old(statusPollAt)
    {
      if up {
        linkUp := true;
        statusPollAt := None;
      } else {
        linkUp := false;
        if statusPollAt.None? {
          statusPollAt := Some(now + config.statusPoll);
        }
      }
    }

    method OnDeviceLost(now: nat)
      requires Valid()
      modifies this
      ensures Valid() && View() == old(View()).OnDeviceLost(now)
    {
      deviceReconnectAt := Some(now + config.reconnect);
    }

    method OnPulseLost(now: nat)
      requires Valid()
      modifies this
      ensures Valid() && View() == old(View()).OnPulseLost(now)
    {
      pulseReconnectAt := Some(now + config.reconnect);
    }

    method OnDeviceConnected(now: nat)
      requires Valid()
      modifies this
      ensures Valid() && View() == old(View()).OnDeviceConnected(now)
    {
      deviceReconnectAt := None;
      nextTimeSync := now;
      initialSyncPending := true;
      sendBackoff := config.retryBase;
      nextSendAt := now;
      linkUp := true;
      statusPollAt := None;
    }

    method OnPulseConnected()
      requires Valid()
      modifies this
      ensures Valid() && View() == old(View()).OnPulseConnected()
    {
      pulseReconnectAt := None;
    }
  }
}
