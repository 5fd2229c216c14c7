/** What `next_deadline` promises about `poll`, for one state and no event in between. */
module Deadline {
  import opened Base
  import opened SyncSpec

  /** `d` is the right time to sleep at `now`: `poll` stays silent until then, and unless the
      sleep was cut at `max_poll_timeout` it speaks at the end. */
  ghost predicate RightWait(s: Sync, now: nat, d: nat) {
    && d <= s.cfg.maxPoll
    && (forall t: nat :: now <= t < now + d ==> s.Due(t).None?)
    && (d < s.cfg.maxPoll ==> s.Due(now + d).Some?)
  }

  lemma DueFromWakeTime(s: Sync, t: nat)
    requires s.Valid()
    ensures s.Due(t).Some? <==> Elapsed(s.WakeTime(), t)
  {
    if s.deviceAt.None? && s.linkUp {
      assert s.SendDue(t) <==> s.nextSendAt <= t && (s.nextTimeSync <= t || s.VolumeDue(t));
    }
  }

  /** Handing an action out is never missed by waking late: once owed, some action stays owed. */
  lemma OwedStaysOwed(s: Sync, t: nat, later: nat)
    requires s.Valid() && t <= later && s.Due(t).Some?
    ensures s.Due(later).Some?
  {
    DueFromWakeTime(s, t);
    DueFromWakeTime(s, later);
  }

  /** Sleeping for the deadline misses no action, in every state, masked or not. */
  lemma DeadlineMissesNothing(s: Sync, now: nat, t: nat)
    requires s.Valid() && now <= t < now + s.Deadline(now)
    ensures s.Due(t).None?
  {
    DueFromWakeTime(s, t);
  }

  /** The deadline is the right wait in every state but the masked ones, and in those never. */
  lemma DeadlineExactUnlessMasked(s: Sync, now: nat)
    requires s.Valid()
    ensures RightWait(s, now, s.Deadline(now)) <==> !s.Masked(now)
  {
    var d := s.Deadline(now);
    forall t: nat | now <= t < now + d ensures s.Due(t).None? {
      DeadlineMissesNothing(s, now, t);
    }
    DueFromWakeTime(s, now + d);
  }

  lemma RightWaitUnique(s: Sync, now: nat, d: nat, e: nat)
    requires RightWait(s, now, d) && RightWait(s, now, e)
    ensures d == e
  {
  }

  /** Once `poll` is drained, the loop spins with a zero timeout exactly when the pulse
      reconnect is already due behind a device reconnect that is not. */
  lemma SpinsExactlyWhenPulseOverdue(s: Sync, now: nat)
    requires s.Valid() && s.cfg.maxPoll > 0 && s.Due(now).None?
    ensures s.Deadline(now) == 0 <==> s.deviceAt.Some? && now < s.deviceAt.value && Elapsed(s.pulseAt, now)
  {
    DueFromWakeTime(s, now);
  }

  /** The deadline with the pulse timer consulted only while `poll` would consult it. */
  function RepairedDeadline(s: Sync, now: nat): nat {
    if s.deviceAt.Some? then s.(pulseAt := None).Deadline(now) else s.Deadline(now)
  }

  lemma RepairedDeadlineExact(s: Sync, now: nat)
    requires s.Valid()
    ensures RightWait(s, now, RepairedDeadline(s, now))
  {
    var u := if s.deviceAt.Some? then s.(pulseAt := None) else s;
    DeadlineExactUnlessMasked(u, now);
    assert forall t: nat :: s.Due(t).Some? <==> u.Due(t).Some?;
  }
}
