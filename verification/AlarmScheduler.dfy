/** The alarm scheduler as a transition system: admissions, alarm deliveries and passes interleave
    at every storage call, and the object may crash at any point.

    `visible` is the alarm slot as `getAlarm` reports it and `stored` the part of it that survives a
    crash; writes reach `stored` at `sync`, or earlier at any time (`Flush`). The runtime is assumed
    to call `alarm()` for one object without overlap and to call it again after a crash or failure
    that came before the pass had armed its recovery alarm. Once armed, nothing is assumed: the
    delivery may or may not be repeated. Clock readings are arbitrary. */
module AlarmScheduler {
  import opened Ordering
  import opened Runs
  import opened Alarms

  /** Who holds the serialized section. `waits` marks an admission made by `wakeAndWait`. */
  datatype Section =
    | Free
    | Staging(waits: bool)
    | Stamping(waits: bool)
    | Syncing(waits: bool, at: int)
    | Publishing(waits: bool, at: int)
    | PassHolds

  datatype Pass =
    | Idle
    | Queued                // waiting for its first serialized section
    | Captured              // version captured, alarm not yet read
    | Stamped(at: int)      // recovery alarm written, not yet synced
    | Executing
    | Executed              // waiting for its second serialized section
    | Synchronizing
    | Settling

  datatype Delivery = Quiet | Calling | Redeliver

  /** How a waiter was settled: by a pass that had captured `goal` admissions, whose execute ran
      from step `began` to step `ended` (both meaningful only when resolved). */
  datatype Settlement = Settlement(resolved: bool, goal: nat, admittedAt: nat, began: nat, ended: nat)

  /** `waiters` maps a version to the completion waiting for it. The fields from `base` on are history:
      they record what happened and no step tests them. `unfinished` says that a pass has armed and no
      pass has synchronized since, and `deadline` is the wake the last synchronization was given. Admissions
      are numbered from 1 over all incarnations, `base` of them before this one; a completion is named by
      its admission's number. */
  datatype State = State(
    stored: Option<int>, visible: Option<int>, delivery: Delivery,
    version: nat, waiters: map<nat, nat>, section: Section, pass: Pass, passVersion: nat,
    base: nat, captured: nat, covered: nat, unrested: bool, unfinished: bool, deadline: Option<int>,
    marks: set<int>, armedAt: int, syncedAt: int, times: Times, settled: map<nat, Settlement>)
  {
    /** Acknowledged admissions. */
    function Admitted(): nat { base + version }
  }

  datatype Times = Times(step: nat, admitted: map<nat, nat>, began: nat, ended: nat, registered: set<nat>,
      lost: set<nat>)

  datatype Event =
    | BeginAdmit(waits: bool) | StageOk | StageFail
    | SetOk(now: int) | SetFail(now: int, tookEffect: bool)
    | SyncOk | SyncFail | Publish
    | Deliver(now: int, clearsVisible: bool) | Retry
    | Capture
    | Arm(now: int) | ArmFail(now: int, tookEffect: bool)
    | ArmSyncOk | ArmSyncFail
    | ExecuteOk | ExecuteFail(redeliver: bool)
    | BeginFinal
    | Synchronize(now: int, resting: bool, wakeAt: Option<int>)
    | SynchronizeFail(now: int, resting: bool, wakeAt: Option<int>, tookEffect: bool, redeliver: bool)
    | Settle
    | Flush | Crash(redeliver: bool)

  const INIT := State(None, None, Quiet, 0, map[], Free, Idle, 0, 0, 0, 0, false, false, None, {}, 0, 0,
      Times(0, map[], 0, 0, {}, {}), map[])

  predicate Unarmed(pass: Pass) { pass.Queued? || pass.Captured? || pass.Stamped? }

  predicate ArmedPass(pass: Pass) { pass.Executing? || pass.Executed? || pass.Synchronizing? }

  predicate Enabled(s: State, e: Event, delay: nat) {
    match e
    case BeginAdmit(_) => s.section.Free?
    case StageOk => s.section.Staging?
    case StageFail => s.section.Staging?
    case SetOk(_) => s.section.Stamping?
    case SetFail(_, _) => s.section.Stamping?
    case SyncOk => s.section.Syncing?
    case SyncFail => s.section.Syncing?
    case Publish => s.section.Publishing?
    case Deliver(now, _) => s.delivery.Quiet? && s.stored.Some? && s.stored.value <= now
    case Retry => s.delivery.Redeliver?
    case Capture => s.section.Free? && s.pass.Queued?
    case Arm(_) => s.pass.Captured?
    case ArmFail(_, _) => s.pass.Captured?
    case ArmSyncOk => s.pass.Stamped?
    case ArmSyncFail => s.pass.Stamped?
    case ExecuteOk => s.pass.Executing?
    case ExecuteFail(_) => s.pass.Executing?
    case BeginFinal => s.section.Free? && s.pass.Executed?
    case Synchronize(now, resting, wakeAt) =>
      s.pass.Synchronizing? && ScheduledAlarmAt(s.visible, resting, now, delay, wakeAt).Ok?
    case SynchronizeFail(now, resting, wakeAt, tookEffect, _) =>
      s.pass.Synchronizing? && (tookEffect ==> ScheduledAlarmAt(s.visible, resting, now, delay, wakeAt).Ok?)
    case Settle => s.pass.Settling?
    case Flush => true
    case Crash(_) => true
  }

  /** Waiters whose admission the running pass captured. */
  function Due(s: State): set<nat> {
    set w | w in s.waiters && w <= s.passVersion
  }

  function Outcome(s: State, resolved: bool, n: nat): Settlement {
    Settlement(resolved, s.captured,
        if n in s.times.admitted then s.times.admitted[n] else 0, s.times.began, s.times.ended)
  }

  function SettleDue(s: State, resolved: bool): State {
    s.(waiters := s.waiters - Due(s),
       settled := s.settled + map n | n in (set w | w in Due(s) :: s.waiters[w]) :: Outcome(s, resolved, n))
  }

  /** A pass that throws rejects the waiters it captured and ends; `alarm()` rejects with it. */
  function FailPass(s: State, redeliver: bool): State {
    SettleDue(s, false).(
      pass := Idle, passVersion := 0,
      section := if s.section.PassHolds? then Free else s.section,
      delivery := if Unarmed(s.pass) || redeliver then Redeliver else Quiet)
  }

  /** What a failing step had already written when it failed. */
  function BeforeFailing(s: State, e: Event, delay: nat): State
    requires Enabled(s, e, delay)
  {
    match e
    case ArmFail(now, true) => s.(visible := Armed(s.visible, now, delay))
    case SynchronizeFail(now, resting, wakeAt, true, _) =>
      s.(visible := ScheduledAlarmAt(s.visible, resting, now, delay, wakeAt).value, unrested := !resting,
         unfinished := false, deadline := wakeAt, syncedAt := now)
    case _ => s
  }

  function Tick(s: State): State {
    s.(times := s.times.(step := s.times.step + 1))
  }

  function Apply(s: State, e: Event, delay: nat): State
    requires Enabled(s, e, delay)
  {
    Tick(Effect(s, e, delay))
  }

  function Effect(s: State, e: Event, delay: nat): State
    requires Enabled(s, e, delay)
  {
    match e
    case BeginAdmit(waits) => s.(section := Staging(waits))
    case StageOk => s.(section := Stamping(s.section.waits))
    case StageFail => s.(section := Free)
    case SetOk(now) => s.(visible := Some(now), marks := s.marks + {now}, section := Syncing(s.section.waits, now))
    case SetFail(now, tookEffect) =>
      (if tookEffect then s.(visible := Some(now), marks := s.marks + {now}) else s).(section := Free)
    case SyncOk => s.(stored := s.visible, section := Publishing(s.section.waits, s.section.at))
    case SyncFail => s.(section := Free)
    case Publish =>
      var v := s.version + 1;
      s.(version := v, section := Free, marks := {s.section.at},
         waiters := if s.section.waits then s.waiters[v := s.base + v] else s.waiters,
         times := s.times.(admitted := s.times.admitted[s.base + v := s.times.step],
           registered := if s.section.waits then s.times.registered + {s.base + v} else s.times.registered))
    case Deliver(_, clearsVisible) =>
      s.(stored := None, visible := if clearsVisible || s.visible == s.stored then None else s.visible,
         delivery := Calling, pass := Queued, passVersion := 0)
    case Retry => s.(delivery := Calling, pass := Queued, passVersion := 0)
    case Capture => s.(section := PassHolds, pass := Captured, passVersion := s.version, captured := s.Admitted(),
        marks := {})
    case Arm(now) => s.(visible := Armed(s.visible, now, delay), pass := Stamped(now))
    case ArmFail(_, _) =>
      FailPass(BeforeFailing(s, e, delay), true)
    case ArmSyncOk =>
      s.(stored := s.visible, section := Free, pass := Executing, armedAt := s.pass.at, unfinished := true,
         times := s.times.(began := s.times.step))
    case ArmSyncFail => FailPass(s, true)
    case ExecuteOk => s.(pass := Executed, covered := s.captured, times := s.times.(ended := s.times.step))
    case ExecuteFail(redeliver) => FailPass(s, redeliver)
    case BeginFinal =>
      if s.version == s.passVersion then s.(section := PassHolds, pass := Synchronizing) else s.(pass := Settling)
    case Synchronize(now, resting, wakeAt) =>
      s.(visible := ScheduledAlarmAt(s.visible, resting, now, delay, wakeAt).value,
         section := Free, pass := Settling, unrested := !resting, unfinished := false, deadline := wakeAt,
         syncedAt := now)
    case SynchronizeFail(_, _, _, _, redeliver) =>
      FailPass(BeforeFailing(s, e, delay), redeliver)
    case Settle => SettleDue(s, true).(pass := Idle, passVersion := 0, delivery := Quiet)
    case Flush => s.(stored := s.visible)
    case Crash(redeliver) =>
      s.(visible := s.stored, version := 0, base := s.Admitted(), section := Free, pass := Idle, passVersion := 0,
          waiters := map[],
         delivery :=
           if s.delivery.Redeliver? || Unarmed(s.pass) || (s.delivery.Calling? && redeliver) then Redeliver else Quiet,
         times := s.times.(lost := s.times.lost + s.waiters.Values))
  }

  // ---------------------------------------------------------------- runs

  /** The states of a run, one per event; empty when some event was not enabled. */
  function StepOf(delay: nat): (State, Event) -> Option<State> {
    (s, e) => if Enabled(s, e, delay) then Some(Apply(s, e, delay)) else None
  }

  function Run(s: State, events: seq<Event>, delay: nat): Option<State> {
    RunOf(StepOf(delay), s, events)
  }

  ghost predicate Reachable(s: State, delay: nat) {
    exists events :: Run(INIT, events, delay) == Some(s)
  }

  // ---------------------------------------------------------------- owed work has a wake

  /** A call of `alarm()` is under way or will be made, and has not yet armed the slot. */
  predicate Pending(s: State) {
    s.delivery.Redeliver? || Unarmed(s.pass)
  }

  /** The slot holds the time of the latest acknowledged admission, or of an attempt after it. */
  predicate AtMark(s: State, slot: Option<int>) {
    slot.Some? && slot.value in s.marks
  }

  predicate WithinArming(s: State, slot: Option<int>, delay: nat) {
    slot.Some? && (slot.value in s.marks || slot.value <= s.armedAt + delay)
  }

  predicate WithinDelay(s: State, slot: Option<int>, delay: nat) {
    slot.Some? && (slot.value in s.marks || slot.value <= s.armedAt + delay || slot.value <= s.syncedAt + delay)
  }

  predicate WithinDeadline(s: State, slot: Option<int>, delay: nat) {
    s.deadline.Some? && slot.Some? &&
    (slot.value in s.marks || slot.value <= s.armedAt + delay || slot.value <= s.syncedAt + delay ||
        slot.value <= s.deadline.value)
  }

  /** Admissions not finished by an execute, work an execute left behind, a pass that has armed and is
      running or ended without synchronizing, or a wake that was asked for. */
  predicate Owed(s: State) {
    s.covered < s.Admitted() || s.unrested || s.unfinished || s.deadline.Some?
  }

  ghost predicate WakeInv(s: State, delay: nat) {
    && (s.Admitted() > s.captured && !Pending(s) ==> AtMark(s, s.stored) && AtMark(s, s.visible))
    && (s.Admitted() == s.captured && (s.covered < s.captured || s.unfinished) && !Pending(s) ==>
          WithinArming(s, s.stored, delay) && WithinArming(s, s.visible, delay))
    && (s.Admitted() == s.captured && s.unrested && !Pending(s) ==>
          WithinDelay(s, s.stored, delay) && WithinDelay(s, s.visible, delay))
    && (s.Admitted() == s.captured && s.deadline.Some? && !Pending(s) ==>
          WithinDeadline(s, s.stored, delay) && WithinDeadline(s, s.visible, delay))
  }

  ghost predicate ControlInv(s: State, delay: nat) {
    && (s.delivery.Calling? <==> !s.pass.Idle?)
    && (s.section.PassHolds? <==> s.pass.Captured? || s.pass.Stamped? || s.pass.Synchronizing?)
    && s.covered <= s.captured <= s.Admitted()
    && (s.pass.Captured? || s.pass.Stamped? || s.pass.Synchronizing? ==> s.captured == s.Admitted())
    && (s.pass.Idle? || s.pass.Queued? ==> s.passVersion == 0)
    && (!s.pass.Idle? && !s.pass.Queued? ==> s.captured == s.base + s.passVersion)
    && (s.pass.Executed? || s.pass.Synchronizing? || s.pass.Settling? ==> s.covered == s.captured)
    && (ArmedPass(s.pass) ==> s.unfinished)
    && (s.pass.Stamped? ==> s.visible.Some? && s.visible.value <= s.pass.at + delay)
    && (s.section.Syncing? ==> s.section.at in s.marks && (s.visible == Some(s.section.at) || s.pass.Queued?))
    && (s.section.Publishing? ==>
        s.section.at in s.marks && ((s.visible == s.stored == Some(s.section.at)) || s.pass.Queued?))
  }

  predicate AdmissionEvent(e: Event) {
    e.BeginAdmit? || e.StageOk? || e.StageFail? || e.SetOk? || e.SetFail? || e.SyncOk? || e.SyncFail? || e.Publish?
  }

  predicate PassEvent(e: Event) {
    || e.Capture? || e.Arm? || e.ArmFail? || e.ArmSyncOk? || e.ArmSyncFail? || e.ExecuteOk? || e.ExecuteFail?
    || e.BeginFinal? || e.Synchronize? || e.SynchronizeFail? || e.Settle?
  }

  /** The slot, history marks and control fields of a state, without its waiters. */
  lemma SettleDueFields(s: State, resolved: bool)
    ensures var t := SettleDue(s, resolved);
      t == s.(waiters := t.waiters, settled := t.settled) && t.waiters == s.waiters - Due(s)
  {}

  lemma AdmissionKeepsControl(s: State, e: Event, delay: nat)
    requires ControlInv(s, delay) && Enabled(s, e, delay) && AdmissionEvent(e)
    ensures ControlInv(Apply(s, e, delay), delay)
  {}

  /** A pass that throws: what the failing step wrote, and then the end of the pass. */
  predicate PassFails(e: Event) {
    e.ArmFail? || e.ArmSyncFail? || e.ExecuteFail? || e.SynchronizeFail?
  }

  function Redelivers(e: Event): bool {
    if e.ExecuteFail? || e.SynchronizeFail? then e.redeliver else true
  }

  lemma FailShape(s: State, e: Event, delay: nat)
    requires Enabled(s, e, delay) && PassFails(e)
    ensures Apply(s, e, delay) == Tick(FailPass(BeforeFailing(s, e, delay), Redelivers(e)))
  {
    hide SettleDue, FailPass;
  }

  /** The fields a throwing pass leaves, besides its waiters. */
  lemma FailFields(u: State, redeliver: bool)
    ensures var t := FailPass(u, redeliver);
      t == u.(waiters := t.waiters, settled := t.settled, pass := Idle, passVersion := 0,
              section := if u.section.PassHolds? then Free else u.section,
              delivery := if Unarmed(u.pass) || redeliver then Redeliver else Quiet)
  {}

  lemma FailKeepsControl(s: State, e: Event, delay: nat)
    requires ControlInv(s, delay) && Enabled(s, e, delay) && PassFails(e)
    ensures ControlInv(Apply(s, e, delay), delay)
  {
    hide Apply, FailPass;
    FailShape(s, e, delay);
    FailFields(BeforeFailing(s, e, delay), Redelivers(e));
  }

  lemma FirstSectionKeepsControl(s: State, e: Event, delay: nat)
    requires ControlInv(s, delay) && Enabled(s, e, delay) && (e.Capture? || e.Arm? || e.ArmSyncOk? || e.ExecuteOk?)
    ensures ControlInv(Apply(s, e, delay), delay)
  {}

  lemma LastSectionKeepsControl(s: State, e: Event, delay: nat)
    requires ControlInv(s, delay) && Enabled(s, e, delay) && (e.BeginFinal? || e.Synchronize? || e.Settle?)
    ensures ControlInv(Apply(s, e, delay), delay)
  {
    hide SettleDue;
    SettleDueFields(s, true);
  }

  lemma PassKeepsControl(s: State, e: Event, delay: nat)
    requires ControlInv(s, delay) && Enabled(s, e, delay) && PassEvent(e)
    ensures ControlInv(Apply(s, e, delay), delay)
  {
    hide ControlInv, Enabled, Apply;
    if PassFails(e) { FailKeepsControl(s, e, delay); }
    else if e.Capture? || e.Arm? || e.ArmSyncOk? || e.ExecuteOk? { FirstSectionKeepsControl(s, e, delay); }
    else { LastSectionKeepsControl(s, e, delay); }
  }

  lemma StepKeepsControl(s: State, e: Event, delay: nat)
    requires ControlInv(s, delay) && Enabled(s, e, delay)
    ensures ControlInv(Apply(s, e, delay), delay)
  {
    if AdmissionEvent(e) {
      hide Apply, ControlInv;
      AdmissionKeepsControl(s, e, delay);
    } else if PassEvent(e) {
      hide Apply, ControlInv;
      PassKeepsControl(s, e, delay);
    }
  }

  lemma AdmissionKeepsWake(s: State, e: Event, delay: nat)
    requires ControlInv(s, delay) && WakeInv(s, delay) && Enabled(s, e, delay) && AdmissionEvent(e)
    ensures WakeInv(Apply(s, e, delay), delay)
  {}

  lemma FailKeepsWake(s: State, e: Event, delay: nat)
    requires ControlInv(s, delay) && WakeInv(s, delay) && Enabled(s, e, delay) && PassFails(e)
    ensures WakeInv(Apply(s, e, delay), delay)
  {
    hide Apply, FailPass;
    FailShape(s, e, delay);
    FailFields(BeforeFailing(s, e, delay), Redelivers(e));
  }

  lemma FirstSectionKeepsWake(s: State, e: Event, delay: nat)
    requires ControlInv(s, delay) && WakeInv(s, delay) && Enabled(s, e, delay)
    requires (e.Capture? || e.Arm? || e.ArmSyncOk? || e.ExecuteOk?)
    ensures WakeInv(Apply(s, e, delay), delay)
  {}

  lemma LastSectionKeepsWake(s: State, e: Event, delay: nat)
    requires ControlInv(s, delay) && WakeInv(s, delay) && Enabled(s, e, delay)
    requires (e.BeginFinal? || e.Synchronize? || e.Settle?)
    ensures WakeInv(Apply(s, e, delay), delay)
  {
    hide SettleDue;
    SettleDueFields(s, true);
  }

  lemma PassKeepsWake(s: State, e: Event, delay: nat)
    requires ControlInv(s, delay) && WakeInv(s, delay) && Enabled(s, e, delay) && PassEvent(e)
    ensures WakeInv(Apply(s, e, delay), delay)
  {
    hide ControlInv, WakeInv, Enabled, Apply;
    if PassFails(e) { FailKeepsWake(s, e, delay); }
    else if e.Capture? || e.Arm? || e.ArmSyncOk? || e.ExecuteOk? { FirstSectionKeepsWake(s, e, delay); }
    else { LastSectionKeepsWake(s, e, delay); }
  }

  lemma StepKeepsWake(s: State, e: Event, delay: nat)
    requires ControlInv(s, delay) && WakeInv(s, delay) && Enabled(s, e, delay)
    ensures WakeInv(Apply(s, e, delay), delay)
  {
    if AdmissionEvent(e) {
      hide Apply, WakeInv, ControlInv;
      AdmissionKeepsWake(s, e, delay);
    } else if PassEvent(e) {
      hide Apply, WakeInv, ControlInv;
      PassKeepsWake(s, e, delay);
    }
  }

  /** Everything a reachable state satisfies. */
  ghost predicate Inv(s: State, delay: nat) {
    ControlInv(s, delay) && WakeInv(s, delay) && WaiterInv(s) && TimesInv(s) && SettledInv(s)
  }

  lemma InitInv(delay: nat)
    ensures Inv(INIT, delay)
  {
    hide Inv;
    FreshInv(INIT, delay);
  }

  lemma FreshInv(s: State, delay: nat)
    requires s.section.Free? && s.pass.Idle? && s.delivery.Quiet? && !s.unrested && !s.unfinished && s.deadline.None?
    requires s.version == s.base == s.captured == s.covered == s.passVersion == 0
    requires s.waiters == map[] && s.settled == map[] && s.times.registered == s.times.lost == {}
    ensures Inv(s, delay)
  {
    hide AtMark, WithinArming, WithinDelay, WithinDeadline;
  }

  lemma {:induction false} RunKeepsInv(s: State, events: seq<Event>, delay: nat)
    requires Inv(s, delay) && Run(s, events, delay).Some?
    ensures Inv(Run(s, events, delay).value, delay)
  {
    hide Inv, Enabled, Effect, Apply;
    if events != [] {
      var before, e := events[..|events| - 1], events[|events| - 1];
      RunKeepsInv(s, before, delay);
      StepKeepsInv(Run(s, before, delay).value, e, delay);
    }
  }

  lemma ReachableInv(s: State, delay: nat)
    requires Reachable(s, delay)
    ensures Inv(s, delay)
  {
    hide Inv, Run;
    var events :| Run(INIT, events, delay) == Some(s);
    InitInv(delay);
    RunKeepsInv(INIT, events, delay);
  }

  /** In every reachable state, owed work has a delivery on its way or a standing alarm, and that
      alarm survives a crash. An admission no pass has captured keeps the alarm it set, or that of a
      later attempt. Otherwise work a pass has captured, and a pass that has armed and is running or
      ended without synchronizing, whatever started it, is woken within the recovery delay of the
      latest arming; work left behind within that of the arming or the synchronization; and a wake
      that was asked for no later than its deadline or one of those. */
  lemma OwedHasWake(s: State, delay: nat)
    requires Reachable(s, delay)
    ensures Owed(s) && !Pending(s) ==> s.stored.Some? && s.visible.Some?
    ensures s.Admitted() > s.captured && !Pending(s) ==> AtMark(s, s.stored) && AtMark(s, s.visible)
    ensures s.Admitted() == s.captured && (s.covered < s.captured || s.unfinished) && !Pending(s) ==>
      WithinArming(s, s.stored, delay) && WithinArming(s, s.visible, delay)
    ensures s.Admitted() == s.captured && s.unrested && !Pending(s) ==>
      WithinDelay(s, s.stored, delay) && WithinDelay(s, s.visible, delay)
    ensures s.Admitted() == s.captured && s.deadline.Some? && !Pending(s) ==>
      WithinDeadline(s, s.stored, delay) && WithinDeadline(s, s.visible, delay)
    ensures ArmedPass(s.pass) ==> s.unfinished
  {
    ReachableInv(s, delay);
    hide Reachable, WaiterInv, TimesInv, SettledInv;
  }

  /** No step of a pass touches the alarm while an admission it did not capture is acknowledged. */
  lemma PassPreservesLaterAlarm(s: State, e: Event, delay: nat)
    requires Reachable(s, delay) && Enabled(s, e, delay) && PassEvent(e)
    requires s.Admitted() > s.captured
    ensures Apply(s, e, delay).visible == s.visible && Apply(s, e, delay).stored == s.stored
  {
    ReachableInv(s, delay);
    hide Reachable, WaiterInv, TimesInv, SettledInv, WakeInv;
  }

  // ---------------------------------------------------------------- waiters

  ghost predicate WaiterInv(s: State) {
    && (forall w :: w in s.waiters ==>
          && 1 <= w <= s.version && s.waiters[w] == s.base + w && s.waiters[w] in s.times.registered
          && s.waiters[w] !in s.settled && s.waiters[w] !in s.times.lost)
    && (forall n :: n in s.settled ==> n in s.times.registered && n !in s.times.lost)
    && s.times.lost <= s.times.registered
    && (forall n :: n in s.times.registered ==>
          1 <= n <= s.Admitted() && (n in s.settled || n in s.times.lost || n in s.waiters.Values))
  }

  ghost predicate TimesInv(s: State) {
    && (forall n :: 1 <= n <= s.Admitted() ==> n in s.times.admitted && s.times.admitted[n] < s.times.step)
    && (ArmedPass(s.pass) || s.pass.Settling? ==>
          s.times.began < s.times.step && forall n :: 1 <= n <= s.captured ==>
              n in s.times.admitted && s.times.admitted[n] < s.times.began)
    && (s.pass.Executed? || s.pass.Synchronizing? || s.pass.Settling? ==> s.times.began < s.times.ended < s.times.step)
  }

  /** Settled only by a pass that had captured the admission; resolved only by one whose execute
      began after the admission was acknowledged and has ended. */
  ghost predicate Justified(s: State, n: nat)
    requires n in s.settled
  {
    var r := s.settled[n];
    && n <= r.goal
    && (r.resolved ==> n in s.times.admitted && s.times.admitted[n] == r.admittedAt < r.began < r.ended < s.times.step)
  }

  ghost predicate SettledInv(s: State) {
    forall n :: n in s.settled ==> n <= s.Admitted() && Justified(s, n)
  }

  /** The completions settled by one pass, and how. */
  lemma SettleDueAdds(s: State, resolved: bool)
    ensures var t := SettleDue(s, resolved);
      && (forall n :: n in t.settled <==> n in s.settled || exists w :: w in Due(s) && s.waiters[w] == n)
      && (forall n :: n in s.settled && !(exists w :: w in Due(s) && s.waiters[w] == n) ==>
          t.settled[n] == s.settled[n])
      && (forall w :: w in Due(s) ==> t.settled[s.waiters[w]] == Outcome(s, resolved, s.waiters[w]))
      && (forall n :: n in s.waiters.Values ==> n in t.waiters.Values || exists w :: w in Due(s) && s.waiters[w] == n)
  {
    var t := SettleDue(s, resolved);
    forall n | n in s.waiters.Values ensures n in t.waiters.Values || exists w :: w in Due(s) && s.waiters[w] == n {
      var w :| w in s.waiters && s.waiters[w] == n;
      if w !in Due(s) { assert w in t.waiters && t.waiters[w] == n; }
    }
  }

  lemma SettleDueKeeps(s: State, resolved: bool)
    requires WaiterInv(s) && TimesInv(s) && SettledInv(s)
    requires s.passVersion == 0 || s.captured == s.base + s.passVersion
    requires resolved ==> s.pass.Settling?
    ensures var t := SettleDue(s, resolved); WaiterInv(t) && TimesInv(t) && SettledInv(t)
  {
    SettleDueFields(s, resolved);
    SettleDueWaiters(s, resolved);
    SettleDueJustified(s, resolved);
    assert TimesInv(SettleDue(s, resolved)) by { hide SettleDue; }
  }

  lemma SettleDueWaiters(s: State, resolved: bool)
    requires WaiterInv(s)
    ensures WaiterInv(SettleDue(s, resolved))
  {
    SettleDueAdds(s, resolved);
    SettleDueFields(s, resolved);
    hide SettleDue, Outcome;
  }

  lemma SettleDueJustified(s: State, resolved: bool)
    requires WaiterInv(s) && TimesInv(s) && SettledInv(s)
    requires s.passVersion == 0 || s.captured == s.base + s.passVersion
    requires resolved ==> s.pass.Settling?
    ensures SettledInv(SettleDue(s, resolved))
  {
    var t := SettleDue(s, resolved);
    SettleDueAdds(s, resolved);
    SettleDueFields(s, resolved);
    hide SettleDue;
    forall n | n in t.settled ensures n <= t.Admitted() && Justified(t, n) {
      if w :| w in Due(s) && s.waiters[w] == n {
        assert 1 <= n <= s.captured;
      } else {
        assert Justified(s, n);
      }
    }
  }

  lemma PublishKeepsWaiterInv(s: State, delay: nat)
    requires ControlInv(s, delay) && WaiterInv(s) && s.section.Publishing?
    ensures WaiterInv(Apply(s, Publish, delay))
  {
    hide ControlInv, Apply;
    PublishFrame(s, delay);
    var t := Apply(s, Publish, delay);
    assert forall w :: w in s.waiters ==> w in t.waiters && t.waiters[w] == s.waiters[w];
    assert s.section.waits ==> t.version in t.waiters && t.waiters[t.version] == t.Admitted();
    forall n | n in s.waiters.Values ensures n in t.waiters.Values {
      var w :| w in s.waiters && s.waiters[w] == n;
      assert t.waiters[w] == n;
    }
  }

  lemma PublishFrame(s: State, delay: nat)
    requires s.section.Publishing?
    ensures var t, v := Apply(s, Publish, delay), s.version + 1;
      && t.version == v && t.base == s.base && t.settled == s.settled && t.times.lost == s.times.lost
      && t.waiters == (if s.section.waits then s.waiters[v := s.base + v] else s.waiters)
      && t.times.registered == (if s.section.waits then s.times.registered + {s.base + v} else s.times.registered)
  {}

  lemma PublishKeepsTimes(s: State, delay: nat)
    requires ControlInv(s, delay) && TimesInv(s) && s.section.Publishing?
    ensures TimesInv(Apply(s, Publish, delay))
  {}

  lemma PublishKeepsSettled(s: State, delay: nat)
    requires SettledInv(s) && s.section.Publishing?
    ensures SettledInv(Apply(s, Publish, delay))
  {
    var t := Apply(s, Publish, delay);
    forall n | n in t.settled ensures Justified(t, n) { assert Justified(s, n); }
  }

  lemma PublishKeepsWaiters(s: State, delay: nat)
    requires ControlInv(s, delay) && WaiterInv(s) && TimesInv(s) && SettledInv(s) && s.section.Publishing?
    ensures var t := Apply(s, Publish, delay); WaiterInv(t) && TimesInv(t) && SettledInv(t)
  {
    hide ControlInv, WaiterInv, TimesInv, SettledInv, Apply;
    PublishKeepsWaiterInv(s, delay);
    PublishKeepsTimes(s, delay);
    PublishKeepsSettled(s, delay);
  }

  lemma CrashFrame(s: State, redeliver: bool, delay: nat)
    ensures var t := Apply(s, Crash(redeliver), delay);
      && t.waiters == map[] && t.version == 0 && t.base == s.Admitted() && t.settled == s.settled && t.pass.Idle?
      && t.times.admitted == s.times.admitted && t.times.registered == s.times.registered
      && t.times.lost == s.times.lost + s.waiters.Values && t.times.step == s.times.step + 1
  {}

  lemma CrashKeepsWaiters(s: State, redeliver: bool, delay: nat)
    requires ControlInv(s, delay) && WaiterInv(s) && TimesInv(s) && SettledInv(s)
    ensures var t := Apply(s, Crash(redeliver), delay); WaiterInv(t) && TimesInv(t) && SettledInv(t)
  {
    hide Apply, ControlInv;
    CrashFrame(s, redeliver, delay);
    var t := Apply(s, Crash(redeliver), delay);
    forall n | n in t.settled ensures Justified(t, n) { assert Justified(s, n); }
  }

  /** Steps that neither end a pass, acknowledge an admission nor crash. */
  predicate Quietly(e: Event) {
    !(e.Settle? || e.ArmFail? || e.ArmSyncFail? || e.ExecuteFail? || e.SynchronizeFail? || e.Publish? || e.Crash?)
  }

  lemma QuietFrame(s: State, e: Event, delay: nat)
    requires Enabled(s, e, delay) && Quietly(e)
    ensures var t := Apply(s, e, delay);
      t.waiters == s.waiters && t.settled == s.settled && t.version == s.version && t.base == s.base
  {}

  lemma QuietTimes(s: State, e: Event, delay: nat)
    requires Enabled(s, e, delay) && Quietly(e)
    ensures var t, u := Apply(s, e, delay).times, s.times;
      t.admitted == u.admitted && t.registered == u.registered && t.lost == u.lost && t.step == u.step + 1
  {}

  lemma QuietKeepsTimes(s: State, e: Event, delay: nat)
    requires ControlInv(s, delay) && TimesInv(s) && Enabled(s, e, delay) && Quietly(e)
    ensures TimesInv(Apply(s, e, delay))
  {}

  lemma QuietKeepsWaiters(s: State, e: Event, delay: nat)
    requires ControlInv(s, delay) && WaiterInv(s) && TimesInv(s) && SettledInv(s)
    requires Enabled(s, e, delay) && Quietly(e)
    ensures var t := Apply(s, e, delay); WaiterInv(t) && TimesInv(t) && SettledInv(t)
  {
    var t := Apply(s, e, delay);
    QuietFrame(s, e, delay);
    QuietTimes(s, e, delay);
    QuietKeepsTimes(s, e, delay);
    hide Apply, TimesInv, ControlInv;
    assert WaiterInv(t);
    hide WaiterInv;
    forall n | n in t.settled ensures Justified(t, n) { assert Justified(s, n); }
  }

  lemma TickKeepsWaiters(s: State)
    requires WaiterInv(s) && TimesInv(s) && SettledInv(s)
    ensures WaiterInv(Tick(s)) && TimesInv(Tick(s)) && SettledInv(Tick(s))
  {
    forall n | n in s.settled ensures Justified(Tick(s), n) { assert Justified(s, n); }
  }

  /** Ending the pass and freeing the section touches nothing the waiters depend on. */
  lemma PassOver(u: State, t: State)
    requires WaiterInv(u) && TimesInv(u) && SettledInv(u)
    requires t == u.(pass := Idle, passVersion := 0, section := t.section, delivery := t.delivery)
    ensures WaiterInv(t) && TimesInv(t) && SettledInv(t)
  {
    forall n | n in t.settled ensures Justified(t, n) { assert Justified(u, n); }
  }

  lemma FailKeepsWaiters(s: State, redeliver: bool)
    requires WaiterInv(s) && TimesInv(s) && SettledInv(s)
    requires s.passVersion == 0 || s.captured == s.base + s.passVersion
    ensures var t := Tick(FailPass(s, redeliver)); WaiterInv(t) && TimesInv(t) && SettledInv(t)
  {
    hide SettleDue, FailPass, WaiterInv, TimesInv, SettledInv, Tick;
    SettleDueKeeps(s, false);
    SettleDueFields(s, false);
    FailFields(s, redeliver);
    FailSettles(s, redeliver);
    PassOver(SettleDue(s, false), FailPass(s, redeliver));
    TickKeepsWaiters(FailPass(s, redeliver));
  }

  lemma StepKeepsWaiters(s: State, e: Event, delay: nat)
    requires ControlInv(s, delay) && WaiterInv(s) && TimesInv(s) && SettledInv(s) && Enabled(s, e, delay)
    ensures var t := Apply(s, e, delay); WaiterInv(t) && TimesInv(t) && SettledInv(t)
  {
    assert s.passVersion == 0 || s.captured == s.base + s.passVersion;
    hide WaiterInv, TimesInv, SettledInv, ControlInv, SettleDue;
    if Quietly(e) {
      QuietKeepsWaiters(s, e, delay);
    } else if e.Publish? {
      PublishKeepsWaiters(s, delay);
    } else if e.Crash? {
      CrashKeepsWaiters(s, e.redeliver, delay);
    } else {
      PassEndKeepsWaiters(s, e, delay);
    }
  }

  lemma PassEndKeepsWaiters(s: State, e: Event, delay: nat)
    requires WaiterInv(s) && TimesInv(s) && SettledInv(s) && Enabled(s, e, delay)
    requires s.passVersion == 0 || s.captured == s.base + s.passVersion
    requires e.Settle? || e.ArmFail? || e.ArmSyncFail? || e.ExecuteFail? || e.SynchronizeFail?
    ensures var t := Apply(s, e, delay); WaiterInv(t) && TimesInv(t) && SettledInv(t)
  {
    hide WaiterInv, TimesInv, SettledInv, SettleDue, FailPass, Apply;
    if e.Settle? {
      SettleDueKeeps(s, true);
      SettledPassEnds(SettleDue(s, true));
      SettleShape(s, delay);
    } else {
      var u := BeforeFailing(s, e, delay);
      AlarmWrite(s, e, delay);
      AlarmWriteKeepsWaiters(s, u);
      FailShape(s, e, delay);
      FailKeepsWaiters(u, Redelivers(e));
    }
  }

  lemma SettleShape(s: State, delay: nat)
    requires Enabled(s, Settle, delay)
    ensures Apply(s, Settle, delay) == Tick(SettleDue(s, true).(pass := Idle, passVersion := 0, delivery := Quiet))
  {
    hide SettleDue;
  }

  /** A failing step writes at most the alarm slot. */
  lemma AlarmWrite(s: State, e: Event, delay: nat)
    requires Enabled(s, e, delay)
    ensures var u := BeforeFailing(s, e, delay);
      u == s.(visible := u.visible, unrested := u.unrested, unfinished := u.unfinished, deadline := u.deadline,
          syncedAt := u.syncedAt)
  {}

  lemma AlarmWriteKeepsWaiters(s: State, u: State)
    requires WaiterInv(s) && TimesInv(s) && SettledInv(s)
    requires u == s.(visible := u.visible, unrested := u.unrested, unfinished := u.unfinished, deadline := u.deadline,
      syncedAt := u.syncedAt)
    ensures WaiterInv(u) && TimesInv(u) && SettledInv(u)
  {
    forall n | n in s.settled ensures Justified(u, n) { assert Justified(s, n); }
  }

  lemma SettledPassEnds(s: State)
    requires WaiterInv(s) && TimesInv(s) && SettledInv(s)
    ensures var t := Tick(s.(pass := Idle, passVersion := 0, delivery := Quiet));
      WaiterInv(t) && TimesInv(t) && SettledInv(t)
  {
    var t := s.(pass := Idle, passVersion := 0, delivery := Quiet);
    forall n | n in t.settled ensures Justified(t, n) { assert Justified(s, n); }
    assert WaiterInv(t) && TimesInv(t);
    hide WaiterInv, TimesInv, Justified;
    TickKeepsWaiters(t);
  }

  lemma StepKeepsInv(s: State, e: Event, delay: nat)
    requires Inv(s, delay) && Enabled(s, e, delay)
    ensures Inv(Apply(s, e, delay), delay)
  {
    hide WaiterInv, TimesInv, SettledInv, ControlInv, WakeInv;
    StepKeepsWaiters(s, e, delay);
    StepKeepsControl(s, e, delay);
    StepKeepsWake(s, e, delay);
    hide Apply;
  }

  // ---------------------------------------------------------------- what waiters are promised

  /** A completion is settled at most once: its record never changes, and while it is recorded it no
      longer waits. One that was registered and is neither settled nor waiting was lost in a crash. */
  lemma SettledOnce(s: State, e: Event, delay: nat, n: nat)
    requires Reachable(s, delay) && Enabled(s, e, delay)
    ensures var t := Apply(s, e, delay);
      && (n in s.settled ==> n in t.settled && t.settled[n] == s.settled[n])
      && !(n in t.settled && n in t.waiters.Values)
      && (n in t.times.registered ==> n in t.settled || n in t.waiters.Values || n in t.times.lost)
      && !(n in t.settled && n in t.times.lost)
  {
    hide Reachable, WakeInv, TimesInv, SettledInv, ControlInv, WaiterInv, Apply;
    ReachableInv(s, delay);
    StepKeepsWaiters(s, e, delay);
    if n in s.settled { SettledStays(s, e, delay, n); }
    Whereabouts(Apply(s, e, delay), n);
  }

  lemma Whereabouts(t: State, n: nat)
    requires WaiterInv(t)
    ensures !(n in t.settled && n in t.waiters.Values) && !(n in t.settled && n in t.times.lost)
    ensures n in t.times.registered ==> n in t.settled || n in t.waiters.Values || n in t.times.lost
  {}

  lemma SettledStays(s: State, e: Event, delay: nat, n: nat)
    requires WaiterInv(s) && Enabled(s, e, delay) && n in s.settled
    ensures n in Apply(s, e, delay).settled && Apply(s, e, delay).settled[n] == s.settled[n]
  {
    hide SettleDue, FailPass, Apply;
    if Quietly(e) {
      QuietFrame(s, e, delay);
      QuietTimes(s, e, delay);
    } else if e.Publish? || e.Crash? {
      NothingSettles(s, e, delay);
    } else if e.Settle? {
      SettleShape(s, delay);
      SettleDueAdds(s, true);
    } else {
      FailShape(s, e, delay);
      AlarmWrite(s, e, delay);
      FailSettles(BeforeFailing(s, e, delay), Redelivers(e));
      SettleDueAdds(BeforeFailing(s, e, delay), false);
    }
  }

  lemma NothingSettles(s: State, e: Event, delay: nat)
    requires Enabled(s, e, delay) && (e.Publish? || e.Crash?)
    ensures Apply(s, e, delay).settled == s.settled
  {}

  lemma FailSettles(u: State, redeliver: bool)
    ensures FailPass(u, redeliver).settled == SettleDue(u, false).settled
    ensures FailPass(u, redeliver).waiters == SettleDue(u, false).waiters
  {
    hide SettleDue;
  }

  /** A completion is settled only by a pass that had captured its admission, and resolved only when
      an execute that began after the admission was acknowledged has finished. */
  lemma SettlementJustified(s: State, delay: nat, n: nat)
    requires Reachable(s, delay) && n in s.settled
    ensures n <= s.settled[n].goal
    ensures s.settled[n].resolved ==>
      n in s.times.admitted && s.times.admitted[n] < s.settled[n].began < s.settled[n].ended < s.times.step
  {
    ReachableInv(s, delay);
    hide Reachable, ControlInv, WakeInv, WaiterInv, TimesInv;
    assert Justified(s, n);
  }

  predicate PassEnds(s: State, e: Event, delay: nat)
    requires Enabled(s, e, delay)
  {
    !s.pass.Idle? && Apply(s, e, delay).pass.Idle? && !e.Crash?
  }

  /** When a pass ends, no completion it captured is left waiting, and later ones are left alone. */
  lemma PassLeavesNoDueWaiter(s: State, e: Event, delay: nat, w: nat)
    requires Enabled(s, e, delay) && PassEnds(s, e, delay)
    ensures var t := Apply(s, e, delay); w in t.waiters <==> w in s.waiters && w > s.passVersion
    ensures var t := Apply(s, e, delay);
      w in s.waiters && w <= s.passVersion ==>
          s.waiters[w] in t.settled && (t.settled[s.waiters[w]].resolved <==> e.Settle?)
  {
    var u, t := BeforeFailing(s, e, delay), Apply(s, e, delay);
    PassEndSettles(s, e, delay);
    hide Apply;
    SettleDueAdds(u, e.Settle?);
    SettleDueFields(u, e.Settle?);
    hide SettleDue;
    assert w in s.waiters && w <= s.passVersion ==> w in Due(u);
  }

  lemma PassEndSettles(s: State, e: Event, delay: nat)
    requires Enabled(s, e, delay) && PassEnds(s, e, delay)
    ensures var u, t := BeforeFailing(s, e, delay), Apply(s, e, delay);
      && t.waiters == SettleDue(u, e.Settle?).waiters && t.settled == SettleDue(u, e.Settle?).settled
      && u.waiters == s.waiters && u.passVersion == s.passVersion
  {
    hide SettleDue, FailPass;
    AlarmWrite(s, e, delay);
    if PassFails(e) {
      FailShape(s, e, delay);
      FailSettles(BeforeFailing(s, e, delay), Redelivers(e));
    } else if e.Settle? {
      SettleShape(s, delay);
    }
  }

  // ---------------------------------------------------------------- owed work gets done

  /** Steps of an admission under way, of deliveries and of passes that do not fail. */
  predicate Forward(e: Event) {
    || e.StageOk? || e.SetOk? || e.SyncOk? || e.Publish? || e.Deliver? || e.Retry? || e.Capture? || e.Arm?
    || e.ArmSyncOk? || e.ExecuteOk? || e.BeginFinal? || e.Synchronize? || e.Settle?
  }

  predicate Covered(s: State) { s.covered == s.Admitted() }

  function AdmissionLeft(section: Section): nat {
    match section
    case Staging(_) => 4
    case Stamping(_) => 3
    case Syncing(_, _) => 2
    case Publishing(_, _) => 1
    case _ => 0
  }

  /** Pass steps left until an execute has covered every acknowledged admission: a pass that captured
      too few has to end and be followed by another. */
  function PassLeft(s: State): nat {
    if Covered(s) then 0
    else
      match s.pass
      case Executing => if s.captured == s.Admitted() then 1 else 8
      case Executed => 7
      case Settling => 6
      case Idle => 5
      case Queued => 4
      case Captured => 3
      case Stamped(_) => 2
      case Synchronizing => 1
  }

  function Distance(s: State): nat {
    10 * AdmissionLeft(s.section) + PassLeft(s)
  }

  lemma StepForward(s: State, e: Event, delay: nat)
    requires ControlInv(s, delay) && Enabled(s, e, delay) && Forward(e) && !Covered(s)
    ensures Distance(Apply(s, e, delay)) < Distance(s)
  {
    hide SettleDue;
    SettleDueFields(s, true);
  }

  /** While an acknowledged admission is not covered, some step forward is possible. */
  lemma ForwardPossible(s: State, delay: nat) returns (e: Event)
    requires Inv(s, delay) && !Covered(s)
    ensures Forward(e) && Enabled(s, e, delay)
  {
    hide WaiterInv, TimesInv, SettledInv;
    var due := if s.stored.Some? then s.stored.value else 0;
    e := match s.section
      case Staging(_) => StageOk
      case Stamping(_) => SetOk(0)
      case Syncing(_, _) => SyncOk
      case Publishing(_, _) => Publish
      case _ =>
        match s.pass
        case Idle => if s.delivery.Redeliver? then Retry else Deliver(due, false)
        case Queued => Capture
        case Captured => Arm(0)
        case Stamped(_) => ArmSyncOk
        case Executing => ExecuteOk
        case Executed => BeginFinal
        case _ => Settle;
  }

  /** Without failures, crashes and new admissions the acknowledged admissions are covered after at most
      `Distance` steps, in whatever order the steps come. */
  lemma {:induction false} EventuallyCovered(s: State, events: seq<Event>, delay: nat) returns (n: nat)
    requires Reachable(s, delay) && Run(s, events, delay).Some? && (forall e :: e in events ==> Forward(e))
    requires |events| >= Distance(s)
    ensures n <= |events| && Run(s, events[..n], delay).Some? && Covered(Run(s, events[..n], delay).value)
  {
    hide Inv, Apply, Enabled, Distance, Reachable;
    ReachableInv(s, delay);
    assert events[..0] == [];
    n := 0;
    while n < |events| && !Covered(Run(s, events[..n], delay).value)
      invariant n <= |events| && Run(s, events[..n], delay).Some? && Inv(Run(s, events[..n], delay).value, delay)
      invariant Distance(Run(s, events[..n], delay).value) + n <= Distance(s)
    {
      var t := Run(s, events[..n], delay).value;
      assert events == events[..n + 1] + events[n + 1..];
      RunJoin(StepOf(delay), s, events[..n + 1], events[n + 1..]);
      assert events[..n + 1][..n] == events[..n];
      StepForward(t, events[n], delay) by { InvControl(t, delay); }
      StepKeepsInv(t, events[n], delay);
      n := n + 1;
    }
    NoDistance(Run(s, events[..n], delay).value);
  }

  lemma InvControl(s: State, delay: nat)
    requires Inv(s, delay)
    ensures ControlInv(s, delay)
  {}

  lemma NoDistance(s: State)
    ensures Distance(s) == 0 ==> Covered(s)
  {}

  /** From every reachable state a continuation without failures, crashes and new admissions covers
      every acknowledged admission. */
  lemma {:induction false} CoverPossible(s: State, delay: nat) returns (events: seq<Event>)
    requires Reachable(s, delay)
    ensures Run(s, events, delay).Some? && Covered(Run(s, events, delay).value) && forall e :: e in events ==>
      Forward(e)
  {
    hide Inv, Apply, Enabled, Distance, Reachable;
    ReachableInv(s, delay);
    events := [];
    var t := s;
    while !Covered(t)
      invariant Run(s, events, delay) == Some(t) && Inv(t, delay) && forall e :: e in events ==> Forward(e)
      decreases Distance(t)
    {
      var e := ForwardPossible(t, delay);
      StepForward(t, e, delay) by { InvControl(t, delay); }
      StepKeepsInv(t, e, delay);
      RunOne(StepOf(delay), s, events, e);
      events, t := events + [e], Apply(t, e, delay);
    }
  }

  // ---------------------------------------------------------------- what may happen at any time

  /** Nothing is taken for granted: in every state the object may crash and pending writes may become
      durable; every await of an admission may fail, a failing alarm write having been made or not; and
      a due alarm may be delivered at any time from then on. */
  lemma AnythingMayFail(s: State, delay: nat, now: int, flag: bool)
    ensures Enabled(s, Crash(flag), delay) && Enabled(s, Flush, delay)
    ensures Apply(s, Flush, delay).stored == s.visible && Apply(s, Flush, delay).visible == s.visible
    ensures Apply(s, Crash(flag), delay).visible == s.stored && Apply(s, Crash(flag), delay).waiters == map[]
    ensures s.section.Staging? ==> Enabled(s, StageFail, delay)
    ensures s.section.Stamping? ==> AlarmAfter(s, SetFail(now, flag), delay, if flag then Some(now) else s.visible)
    ensures s.section.Syncing? ==> Enabled(s, SyncFail, delay)
    ensures s.delivery.Quiet? && s.stored.Some? && s.stored.value <= now ==> Consumes(s, Deliver(now, flag), delay)
  {
    hide SettleDue;
  }

  /** The same for the awaits of a pass. */
  lemma PassMayFail(s: State, delay: nat, now: int, flag: bool)
    ensures s.pass.Captured? ==>
      AlarmAfter(s, ArmFail(now, flag), delay, if flag then Armed(s.visible, now, delay) else s.visible)
    ensures s.pass.Stamped? ==> Enabled(s, ArmSyncFail, delay)
    ensures s.pass.Executing? ==> Enabled(s, ExecuteFail(flag), delay)
    ensures s.pass.Synchronizing? ==> Enabled(s, SynchronizeFail(now, flag, None, false, flag), delay)
  {
    hide SettleDue;
    if s.pass.Captured? {
      FailShape(s, ArmFail(now, flag), delay);
      FailFields(BeforeFailing(s, ArmFail(now, flag), delay), true);
      hide FailPass;
    }
  }

  /** Arming leaves an alarm alone that is still ahead and no later than the recovery delay, and otherwise
      sets one exactly that far away; so does a failing one that wrote. */
  lemma ArmingKeepsEarlier(s: State, delay: nat, now: int)
    requires s.pass.Captured?
    ensures var ahead := s.visible.Some? && now < s.visible.value <= now + delay;
      && AlarmAfter(s, Arm(now), delay, if ahead then s.visible else Some(now + delay))
      && AlarmAfter(s, ArmFail(now, true), delay, if ahead then s.visible else Some(now + delay))
  {
    PassMayFail(s, delay, now, true);
    hide SettleDue, FailPass;
  }

  /** The step may be taken and leaves `alarm` in the object's own view. */
  predicate AlarmAfter(s: State, e: Event, delay: nat, alarm: Option<int>) {
    Enabled(s, e, delay) && Apply(s, e, delay).visible == alarm
  }

  /** The step may be taken, takes the durable alarm and begins a pass. */
  predicate Consumes(s: State, e: Event, delay: nat) {
    Enabled(s, e, delay) && Apply(s, e, delay).stored.None? && Apply(s, e, delay).pass.Queued?
  }

  // ---------------------------------------------------------------- why calls must not overlap

  /** A second `alarm()` delivered while one runs: `run` hands back the running pass, so nothing
      happens except that the runtime has consumed the alarm. */
  function OverlappingDelivery(s: State): State
    requires !s.pass.Idle? && s.stored.Some?
  {
    Tick(s.(stored := None, visible := None))
  }

  lemma AdmissionRuns(s: State, now: int, delay: nat) returns (events: seq<Event>, t: State)
    requires s.section.Free?
    ensures Run(s, events, delay) == Some(t)
    ensures t.section.Free? && t.stored == t.visible == Some(now) && t.version == s.version + 1
    ensures t.pass == s.pass && t.delivery == s.delivery && t.passVersion == s.passVersion
    ensures t.base == s.base && t.captured == s.captured && t.covered == s.covered
  {
    events, t := [], s;
    RunOne(StepOf(delay), s, events, BeginAdmit(false));
    events, t := events + [BeginAdmit(false)], Apply(t, BeginAdmit(false), delay);
    RunOne(StepOf(delay), s, events, StageOk);
    events, t := events + [StageOk], Apply(t, StageOk, delay);
    RunOne(StepOf(delay), s, events, SetOk(now));
    events, t := events + [SetOk(now)], Apply(t, SetOk(now), delay);
    RunOne(StepOf(delay), s, events, SyncOk);
    events, t := events + [SyncOk], Apply(t, SyncOk, delay);
    RunOne(StepOf(delay), s, events, Publish);
    events, t := events + [Publish], Apply(t, Publish, delay);
  }

  lemma PassBegins(s: State, now: int, delay: nat) returns (events: seq<Event>, t: State)
    requires s.section.Free? && s.pass.Idle? && s.delivery.Quiet? && s.stored.Some? && s.stored.value <= now
    ensures Run(s, events, delay) == Some(t)
    ensures t.section.Free? && t.pass.Executing? && t.version == t.passVersion == s.version
    ensures t.base == s.base && t.captured == s.Admitted() && t.covered == s.covered
  {
    events, t := [], s;
    RunOne(StepOf(delay), s, events, Deliver(now, true));
    events, t := events + [Deliver(now, true)], Apply(t, Deliver(now, true), delay);
    RunOne(StepOf(delay), s, events, Capture);
    events, t := events + [Capture], Apply(t, Capture, delay);
    RunOne(StepOf(delay), s, events, Arm(now));
    events, t := events + [Arm(now)], Apply(t, Arm(now), delay);
    RunOne(StepOf(delay), s, events, ArmSyncOk);
    events, t := events + [ArmSyncOk], Apply(t, ArmSyncOk, delay);
  }

  lemma StalePassEnds(s: State, delay: nat) returns (events: seq<Event>, t: State)
    requires s.section.Free? && s.pass.Executing? && s.version != s.passVersion
    ensures Run(s, events, delay) == Some(t)
    ensures t.pass.Idle? && t.delivery.Quiet? && t.stored == s.stored && t.visible == s.visible
    ensures t.Admitted() == s.Admitted() && t.covered == s.captured
  {
    events, t := [], s;
    RunOne(StepOf(delay), s, events, ExecuteOk);
    events, t := events + [ExecuteOk], Apply(t, ExecuteOk, delay);
    RunOne(StepOf(delay), s, events, BeginFinal);
    events, t := events + [BeginFinal], Apply(t, BeginFinal, delay);
    RunOne(StepOf(delay), s, events, Settle);
    events, t := events + [Settle], Apply(t, Settle, delay);
  }

  /** With one overlapping call the guarantee fails: an acknowledged admission ends with no alarm and
      no delivery, after a pass that completed normally. */
  lemma OverlapLosesWake(delay: nat) returns (before: seq<Event>, t: State, after: seq<Event>, s: State)
    ensures Run(INIT, before, delay) == Some(t) && !t.pass.Idle? && t.stored.Some?
    ensures Run(OverlappingDelivery(t), after, delay) == Some(s)
    ensures Owed(s) && !Pending(s) && s.pass.Idle? && s.delivery.Quiet? && s.stored.None? && s.visible.None?
  {
    hide RunOf, Apply;
    var admit, s1 := AdmissionRuns(INIT, 0, delay);
    var begin, s2 := PassBegins(s1, 0, delay);
    var again, s3 := AdmissionRuns(s2, 1, delay);
    RunJoin(StepOf(delay), INIT, admit, begin);
    RunJoin(StepOf(delay), INIT, admit + begin, again);
    before, t := (admit + begin) + again, s3;
    after, s := StalePassEnds(OverlappingDelivery(t), delay);
  }

  // ---------------------------------------------------------------- the object

  /** The scheduler's fields and the alarm slot it reads and writes. Each method is one stretch of
      code between two awaits and performs the step of the transition system it is named for. */
  class Scheduler {
    const delay: nat
    var version: nat
    var running: bool
    var waiters: map<nat, nat>
    var alarm: Option<int>
    /** Completions settled so far: true for resolved, false for rejected. */
    var promises: map<nat, bool>
    ghost var model: State

    ghost predicate Valid()
      reads this
    {
      ValidBut(model.visible)
    }

    /** Valid except that the slot holds `slot`. */
    ghost predicate ValidBut(slot: Option<int>)
      reads this
    {
      && version == model.version && waiters == model.waiters && alarm == slot
      && running == !model.pass.Idle?
      && promises.Keys == model.settled.Keys
      && forall n :: n in promises ==> promises[n] == model.settled[n].resolved
    }

    constructor (recoveryDelay: nat)
      ensures Valid() && model == INIT && delay == recoveryDelay
    {
      delay := recoveryDelay;
      version, running, waiters, alarm, promises := 0, false, map[], None, map[];
      model := INIT;
    }

    /** `admit`: the staged work is to be covered by an alarm due at once. */
    method StampAdmission(now: int)
      requires Valid() && Enabled(model, SetOk(now), delay)
      modifies this
      ensures Valid() && model == Apply(old(model), SetOk(now), delay) && alarm == Some(now)
    {
      alarm := Some(now);
      model := Apply(model, SetOk(now), delay);
    }

    /** `admit`: the synced admission is numbered and published; `wakeAndWait` registers its completion. */
    method PublishAdmission(waits: bool, completion: nat, ghost at: int)
      requires Valid() && model.section == Publishing(waits, at) && completion == model.Admitted() + 1
      modifies this
      ensures Valid() && model == Apply(old(model), Publish, delay)
      ensures version == old(version) + 1 && alarm == old(alarm)
      ensures waiters == if waits then old(waiters)[version := completion] else old(waiters)
    {
      version := version + 1;
      if waits {
        waiters := waiters[version := completion];
      }
      model := Apply(model, Publish, delay);
    }

    /** `run`: a call that finds a pass running joins it, whatever the runtime took from the slot to
        deliver it; otherwise it starts a pass. `consumed` says whether the runtime cleared the slot. */
    method Run(consumed: bool, ghost e: Event) returns (joined: bool)
      requires Valid()
      requires running && consumed ==> model.stored.Some?
      requires !running ==> ControlInv(model, delay) && Enabled(model, e, delay) && (e.Retry? || e.Deliver?)
      requires !running ==> (consumed <==> e.Deliver? && (e.clearsVisible || model.visible == model.stored))
      modifies this
      ensures Valid() && (joined <==> old(running))
      ensures model ==
        if !joined then Apply(old(model), e, delay)
        else if consumed then OverlappingDelivery(old(model)) else old(model)
    {
      if consumed { alarm := None; }
      if running {
        model := if consumed then OverlappingDelivery(model) else model;
        return true;
      }
      running := true;
      model := Apply(model, e, delay);
      joined := false;
    }

    /** Without overlap no call joins: what the runtime delivers finds no pass running. */
    lemma NoneJoins(e: Event)
      requires Valid() && ControlInv(model, delay) && Enabled(model, e, delay) && (e.Retry? || e.Deliver?)
      ensures !running
    {}

    /** `pass`, first section: capture the version. */
    method CaptureVersion() returns (captured: nat)
      requires Valid() && Enabled(model, Capture, delay)
      modifies this
      ensures Valid() && model == Apply(old(model), Capture, delay) && captured == model.passVersion
      ensures captured == version == old(version)
    {
      captured := version;
      model := Apply(model, Capture, delay);
    }

    /** `pass`, first section: make sure a recovery alarm stands before anything executes. A storage
        error may hide that the alarm was written. */
    method ArmRecovery(now: int) returns (ok: bool, ghost wrote: bool)
      requires Valid() && Enabled(model, Arm(now), delay)
      modifies this
      ensures ok ==> Valid() && model == Apply(old(model), Arm(now), delay)
      ensures ok || wrote ==> alarm == Armed(old(alarm), now, delay)
      ensures !ok && !wrote ==> alarm == old(alarm)
      ensures !ok ==> model == old(model) && ValidBut(BeforeFailing(model, ArmFail(now, wrote), delay).visible)
    {
      var answered: bool, applied: bool := *, *;
      var at := ArmAt(alarm, now, delay);
      ok, wrote := answered, applied;
      if at.Some? && (ok || applied) { alarm := at; }
      if ok { model := Apply(model, Arm(now), delay); }
    }

    /** `pass`, second section: synchronize only if nothing was admitted since the capture. */
    method MaySynchronize(captured: nat) returns (current: bool)
      requires Valid() && Enabled(model, BeginFinal, delay) && captured == model.passVersion
      modifies this
      ensures Valid() && model == Apply(old(model), BeginFinal, delay)
      ensures current <==> model.pass.Synchronizing?
      ensures current <==> captured == old(version)
    {
      current := captured == version;
      model := Apply(model, BeginFinal, delay);
    }

    /** `synchronizeAlarm`: leave the alarm the actor's remaining work needs; false if it throws, which
        it does at least when the recovery deadline is no safe integer. A storage error may hide that
        the alarm was written. */
    method SynchronizeAlarm(now: int, resting: bool, wakeAt: Option<int>) returns (ok: bool, ghost wrote: bool)
      requires Valid() && model.pass.Synchronizing?
      modifies this
      ensures ok || wrote ==> ScheduledAlarmAt(old(alarm), resting, now, delay, wakeAt) == Ok(alarm)
      ensures !ok && !wrote ==> alarm == old(alarm)
      ensures ok ==> Valid() && model == Apply(old(model), Synchronize(now, resting, wakeAt), delay)
      ensures !ok ==> model == old(model)
      ensures !ok ==> ValidBut(BeforeFailing(model, SynchronizeFail(now, resting, wakeAt, wrote, false), delay).visible)
    {
      hide Apply, BeforeFailing, ScheduledAlarmAt;
      SynchronizeWrites(model, now, resting, wakeAt, delay);
      var answered: bool, applied: bool := *, *;
      var at := ScheduledAlarmAt(alarm, resting, now, delay, wakeAt);
      if at.Err? { return false, false; }
      ok, wrote := answered, applied;
      if ok || applied {
        if at.value.None? {
          if alarm.Some? { alarm := None; }
        } else if alarm != at.value {
          alarm := at.value;
        }
      }
      if ok {
        SynchronizeFrame(model, now, resting, wakeAt, delay);
        model := Apply(model, Synchronize(now, resting, wakeAt), delay);
      }
    }

    /** `pass`, last loop: settle every completion the pass captured. */
    method SettleCaptured(captured: nat, resolved: bool)
      requires ValidBut(alarm) && captured == model.passVersion
      modifies this`waiters, this`promises
      ensures waiters == SettleDue(model, resolved).waiters
      ensures promises.Keys == SettleDue(model, resolved).settled.Keys
      ensures forall n :: n in promises ==> promises[n] == SettleDue(model, resolved).settled[n].resolved
      ensures CapturedSettled(old(waiters), waiters, old(promises), promises, captured, resolved)
    {
      hide SettleDue, SettledIn;
      var open := waiters.Keys;
      ghost var all, was := waiters, promises;
      assert forall n :: !SettledIn(all, open, captured, n) by { NoneSettledYet(all, captured); }
      while open != {}
        invariant open <= all.Keys && waiters.Keys <= all.Keys
        invariant forall w :: w in waiters ==> waiters[w] == all[w]
        invariant forall w :: w in all ==> (w in waiters <==> w in open || w > captured)
        invariant forall n :: n in promises <==> n in was || SettledIn(all, open, captured, n)
        invariant forall n :: n in promises ==>
          promises[n] == if SettledIn(all, open, captured, n) then resolved else was[n]
        decreases open
      {
        var admitted :| admitted in open;
        ghost var rest := open - {admitted};
        SettledInGrows(all, open, captured, admitted);
        if admitted <= captured {
          promises := promises[waiters[admitted] := resolved];
          waiters := waiters - {admitted};
        }
        open := open - {admitted};
      }
      AllSettled(model, resolved, was, promises, waiters);
      CapturedAreSettled(all, waiters, was, promises, captured, resolved);
    }

    /** `pass` returns or throws: the captured completions settle and the pass is over. `e` is
        `Settle` for a pass that completed, or the failure that ended it, whose write, if it made one,
        is in the slot already. */
    method EndPass(captured: nat, ghost e: Event, resolved: bool)
      requires Enabled(model, e, delay) && (e.Settle? || PassFails(e)) && captured == model.passVersion
      requires ValidBut(BeforeFailing(model, e, delay).visible)
      requires resolved <==> e.Settle?
      modifies this
      ensures Valid() && model == Apply(old(model), e, delay) && !running && alarm == old(alarm)
      ensures CapturedSettled(old(waiters), waiters, old(promises), promises, captured, resolved)
    {
      hide SettleDue, Apply, FailPass, BeforeFailing, CapturedSettled;
      EndShape(model, e, delay);
      SettleCaptured(captured, resolved);
      running := false;
      model := Apply(model, e, delay);
    }
  }

  /** The completions at or below `captured` are settled in the same way and no longer wait; the others
      wait on, and no settled one changes. */
  ghost predicate CapturedSettled(all: map<nat, nat>, waiters: map<nat, nat>, was: map<nat, bool>,
      promises: map<nat, bool>, captured: nat, resolved: bool)
  {
    && (forall w :: w in waiters <==> w in all && w > captured)
    && (forall w :: w in waiters ==> waiters[w] == all[w])
    && (forall w :: w in all && w <= captured ==> all[w] in promises && promises[all[w]] == resolved)
    && (forall n :: n in promises && (forall w :: w in all && w <= captured ==> all[w] != n) ==>
          n in was && promises[n] == was[n])
    && was.Keys <= promises.Keys
  }

  lemma CapturedAreSettled(all: map<nat, nat>, waiters: map<nat, nat>, was: map<nat, bool>, promises: map<nat, bool>,
      captured: nat, resolved: bool)
    requires waiters.Keys <= all.Keys && forall w :: w in waiters ==> waiters[w] == all[w]
    requires forall w :: w in all ==> (w in waiters <==> w > captured)
    requires forall n :: n in promises <==> n in was || SettledIn(all, {}, captured, n)
    requires forall n :: n in promises ==> promises[n] == if SettledIn(all, {}, captured, n) then resolved else was[n]
    ensures CapturedSettled(all, waiters, was, promises, captured, resolved)
  {
    forall w | w in all && w <= captured ensures SettledIn(all, {}, captured, all[w]) {}
  }

  lemma EndShape(s: State, e: Event, delay: nat)
    requires Enabled(s, e, delay) && (e.Settle? || PassFails(e))
    ensures var t, u := Apply(s, e, delay), SettleDue(s, e.Settle?);
      && t.waiters == u.waiters && t.settled == u.settled && t.version == s.version && t.pass.Idle?
      && t.visible == BeforeFailing(s, e, delay).visible
  {
    hide SettleDue;
    if e.Settle? {
      SettleShape(s, delay);
      SettleDueFields(s, true);
    } else {
      hide Apply, FailPass;
      var u := BeforeFailing(s, e, delay);
      FailShape(s, e, delay);
      AlarmWrite(s, e, delay);
      FailFields(u, Redelivers(e));
      FailSettles(u, Redelivers(e));
      SettleSame(s, u);
    }
  }

  /** What settles does not depend on the alarm slot. */
  lemma SettleSame(s: State, u: State)
    requires u == s.(visible := u.visible, unrested := u.unrested, unfinished := u.unfinished, deadline := u.deadline,
      syncedAt := u.syncedAt)
    ensures SettleDue(u, false).waiters == SettleDue(s, false).waiters
    ensures SettleDue(u, false).settled == SettleDue(s, false).settled
  {
    assert Due(u) == Due(s);
    assert forall n :: Outcome(u, false, n) == Outcome(s, false, n);
  }

  lemma SynchronizeWrites(s: State, now: int, resting: bool, wakeAt: Option<int>, delay: nat)
    requires s.pass.Synchronizing?
    ensures BeforeFailing(s, SynchronizeFail(now, resting, wakeAt, false, false), delay).visible == s.visible
    ensures var at := ScheduledAlarmAt(s.visible, resting, now, delay, wakeAt);
      at.Ok? ==> BeforeFailing(s, SynchronizeFail(now, resting, wakeAt, true, false), delay).visible == at.value
  {}

  lemma SynchronizeFrame(s: State, now: int, resting: bool, wakeAt: Option<int>, delay: nat)
    requires Enabled(s, Synchronize(now, resting, wakeAt), delay)
    ensures var t := Apply(s, Synchronize(now, resting, wakeAt), delay);
      && t.version == s.version && t.waiters == s.waiters && t.settled == s.settled && !t.pass.Idle? && !s.pass.Idle?
      && t.visible == ScheduledAlarmAt(s.visible, resting, now, delay, wakeAt).value
  {}

  lemma NoneSettledYet(all: map<nat, nat>, captured: nat)
    ensures forall n :: !SettledIn(all, all.Keys, captured, n)
  {}

  lemma AllSettled(s: State, resolved: bool, was: map<nat, bool>, promises: map<nat, bool>, waiters: map<nat, nat>)
    requires was.Keys == s.settled.Keys && forall n :: n in was ==> was[n] == s.settled[n].resolved
    requires waiters.Keys <= s.waiters.Keys
    requires forall w :: w in waiters ==> waiters[w] == s.waiters[w]
    requires forall w :: w in s.waiters ==> (w in waiters <==> w > s.passVersion)
    requires forall n :: n in promises <==> n in was || SettledIn(s.waiters, {}, s.passVersion, n)
    requires forall n :: n in promises ==>
      promises[n] == if SettledIn(s.waiters, {}, s.passVersion, n) then resolved else was[n]
    ensures waiters == SettleDue(s, resolved).waiters
    ensures promises.Keys == SettleDue(s, resolved).settled.Keys
    ensures forall n :: n in promises ==> promises[n] == SettleDue(s, resolved).settled[n].resolved
  {
    hide SettleDue, SettledIn;
    SettleDueAdds(s, resolved);
    SettleDueFields(s, resolved);
    forall n ensures SettledIn(s.waiters, {}, s.passVersion, n) <==> exists w :: w in Due(s) && s.waiters[w] == n {
      SettledMeansDue(s, n);
    }
    assert waiters == s.waiters - Due(s);
    forall n | n in promises ensures promises[n] == SettleDue(s, resolved).settled[n].resolved {
      if w :| w in Due(s) && s.waiters[w] == n {
        assert SettleDue(s, resolved).settled[n] == Outcome(s, resolved, n);
      }
    }
  }

  lemma SettledMeansDue(s: State, n: nat)
    ensures SettledIn(s.waiters, {}, s.passVersion, n) <==> exists w :: w in Due(s) && s.waiters[w] == n
  {
    if SettledIn(s.waiters, {}, s.passVersion, n) {
      var w :| w in s.waiters && w <= s.passVersion && s.waiters[w] == n;
      assert w in Due(s);
    }
  }

  /** Some captured version already passed by the loop had completion `n`. */
  ghost predicate SettledIn(all: map<nat, nat>, open: set<nat>, captured: nat, n: nat) {
    exists w :: w in all && w !in open && w <= captured && all[w] == n
  }

  lemma SettledInGrows(all: map<nat, nat>, open: set<nat>, captured: nat, w: nat)
    requires w in open && w in all
    ensures forall n :: SettledIn(all, open - {w}, captured, n) <==>
      SettledIn(all, open, captured, n) || (w <= captured && n == all[w])
  {
    var rest := open - {w};
    forall n | SettledIn(all, open, captured, n) ensures SettledIn(all, rest, captured, n) {
      var v :| v in all && v !in open && v <= captured && all[v] == n;
      assert v !in rest;
    }
    if w <= captured { assert w !in rest; }
  }
}
