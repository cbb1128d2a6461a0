/** Arithmetic of the Durable Object alarm: when to re-arm before work, and what stands after it. */
module Alarms {
  import opened Ordering

  const DEFAULT_ALARM_DELAY_MILLIS := 120_000

  datatype Result<+T> = Ok(value: T) | Err(message: string)

  /** A safe integer that is not negative; absent means the default. */
  function AlarmPolicyOf(delay: Option<int>): (r: Result<nat>)
    ensures r.Ok? <==> delay.None? || 0 <= delay.value <= MAX_SAFE_INTEGER
    ensures r.Ok? ==> r.value == if delay.Some? then delay.value else DEFAULT_ALARM_DELAY_MILLIS
  {
    var millis := if delay.Some? then delay.value else DEFAULT_ALARM_DELAY_MILLIS;
    if 0 <= millis <= MAX_SAFE_INTEGER then Ok(millis as nat)
    else Err("alarm recoveryDelayMillis must be a non-negative integer")
  }

  /** The alarm to set before a pass, or none when the standing one already covers it. */
  function ArmAt(due: Option<int>, now: int, delay: nat): Option<int> {
    if due.None? || due.value <= now || due.value > now + delay then Some(now + delay) else None
  }

  function Earlier(a: int, b: int): int { if b < a then b else a }

  /** The alarm that should stand after a pass. */
  function ScheduledAlarmAt(current: Option<int>, resting: bool, now: int, delay: nat,
      wakeAt: Option<int>): Result<Option<int>> {
    if resting then Ok(wakeAt)
    else if !(-MAX_SAFE_INTEGER <= now + delay <= MAX_SAFE_INTEGER)
    then Err("alarm recovery deadline must be a safe integer")
    else
      var target := if wakeAt.None? then now + delay else Earlier(now + delay, wakeAt.value);
      Ok(Some(if current.Some? && now < current.value <= target then current.value else target))
  }

  /** The slot once a pass has armed: the replacement if there is one, else what stood. */
  function Armed(due: Option<int>, now: int, delay: nat): (slot: Option<int>)
    ensures slot.Some? && slot.value <= now + delay
    ensures slot != due ==> slot.value == now + delay
    ensures due.Some? && now < due.value <= now + delay ==> slot == due
    ensures now < slot.value || delay == 0
  {
    var at := ArmAt(due, now, delay);
    if at.Some? then at else due
  }

  /** Unfinished work is woken no later than the recovery delay and no later than its own deadline;
      a standing future alarm that is early enough is kept; a resting actor keeps only its deadline. */
  lemma ScheduledBounds(current: Option<int>, resting: bool, now: int, delay: nat, wakeAt: Option<int>)
    ensures var r := ScheduledAlarmAt(current, resting, now, delay, wakeAt);
      r.Ok? ==>
        && (resting ==> r.value == wakeAt)
        && (!resting ==> r.value.Some? && r.value.value <= now + delay)
        && (!resting && wakeAt.Some? ==> r.value.value <= wakeAt.value)
        && (!resting && r.value != current ==>
              r.value.value == now + delay || (wakeAt.Some? && r.value.value == wakeAt.value))
        && (!resting && current.Some? && now < current.value <= now + delay &&
            (wakeAt.Some? ==> current.value <= wakeAt.value) ==>
              r.value == current)
    ensures ScheduledAlarmAt(current, resting, now, delay, wakeAt).Err? <==>
      !resting && !(-MAX_SAFE_INTEGER <= now + delay <= MAX_SAFE_INTEGER)
  {}
}
