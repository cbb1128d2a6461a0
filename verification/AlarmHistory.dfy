/** The alarm scheduler seen through the events of a run alone: what its fields mean in terms of the
    events that happened, in which order, and with which arguments. */
module AlarmHistory {
  import opened Ordering
  import opened Runs
  import opened AlarmScheduler

  function Front(events: seq<Event>): seq<Event>
    requires events != []
  {
    events[..|events| - 1]
  }

  function Latest(events: seq<Event>): Event
    requires events != []
  {
    events[|events| - 1]
  }

  // ---------------------------------------------------------------- what the events say

  /** How many admissions were acknowledged. */
  function Admissions(events: seq<Event>): nat {
    if events == [] then 0 else Admissions(Front(events)) + if Latest(events).Publish? then 1 else 0
  }

  /** Whether the latest admission to begin was made by `wakeAndWait`. */
  predicate Waits(events: seq<Event>) {
    events != [] && if Latest(events).BeginAdmit? then Latest(events).waits else Waits(Front(events))
  }

  /** The admissions made by `wakeAndWait`, by number. */
  function WaitingAdmissions(events: seq<Event>): set<nat> {
    if events == [] then {}
    else WaitingAdmissions(Front(events)) + if Latest(events).Publish? && Waits(events) then {Admissions(events)}
        else {}
  }

  /** The clock reading of the latest admission that set the alarm. */
  function StampTime(events: seq<Event>): int {
    if events == [] then 0 else if Latest(events).SetOk? then Latest(events).now else StampTime(Front(events))
  }

  /** The times admissions wrote to the slot: those written since the latest capture, or since the
      latest acknowledgement, whose own time counts. */
  function WrittenTimes(events: seq<Event>): set<int> {
    if events == [] then {}
    else match Latest(events)
      case SetOk(now) => WrittenTimes(Front(events)) + {now}
      case SetFail(now, true) => WrittenTimes(Front(events)) + {now}
      case Publish => {StampTime(events)}
      case Capture => {}
      case _ => WrittenTimes(Front(events))
  }

  /** Where the latest pass captured the version, and where it took its last section; -1 for nowhere. */
  function LastCapture(events: seq<Event>): int {
    if events == [] then -1 else if Latest(events).Capture? then |events| - 1 else LastCapture(Front(events))
  }

  function LastFinal(events: seq<Event>): int {
    if events == [] then -1 else if Latest(events).BeginFinal? then |events| - 1 else LastFinal(Front(events))
  }

  /** The last section before the latest one. */
  function PreviousFinal(events: seq<Event>): int {
    if events == [] then -1
    else if Latest(events).BeginFinal? then LastFinal(Front(events)) else PreviousFinal(Front(events))
  }

  /** How many admissions the latest pass captured, and how many a finished execute had captured. */
  function CapturedBy(events: seq<Event>): nat {
    if events == [] then 0 else if Latest(events).Capture? then Admissions(events) else CapturedBy(Front(events))
  }

  function CoveredBy(events: seq<Event>): nat {
    if events == [] then 0 else if Latest(events).ExecuteOk? then CapturedBy(events) else CoveredBy(Front(events))
  }

  /** How many admissions were acknowledged when the latest pass took its last section. */
  function AtFinal(events: seq<Event>): nat {
    if events == [] then 0 else if Latest(events).BeginFinal? then Admissions(events) else AtFinal(Front(events))
  }

  /** The latest pass has synchronized since it took its last section. */
  predicate SyncedSinceFinal(events: seq<Event>) {
    events != [] && !Latest(events).BeginFinal? && (Latest(events).Synchronize? || SyncedSinceFinal(Front(events)))
  }

  function ArmTime(events: seq<Event>): int {
    if events == [] then 0 else if Latest(events).Arm? then Latest(events).now else ArmTime(Front(events))
  }

  /** The clock reading of the latest arming that was synced. */
  function ArmedTime(events: seq<Event>): int {
    if events == [] then 0 else if Latest(events).ArmSyncOk? then ArmTime(events) else ArmedTime(Front(events))
  }

  /** A synchronization that wrote the slot, whether it reported so or not. */
  predicate Writes(e: Event) {
    e.Synchronize? || (e.SynchronizeFail? && e.tookEffect)
  }

  /** The latest synchronization that wrote the slot. */
  function LastWrite(events: seq<Event>): Option<Event> {
    if events == [] then None else if Writes(Latest(events)) then Some(Latest(events)) else LastWrite(Front(events))
  }

  /** Some pass has armed and none has synchronized since. */
  predicate ArmedSince(events: seq<Event>) {
    events != [] && !Writes(Latest(events)) && (Latest(events).ArmSyncOk? || ArmedSince(Front(events)))
  }

  datatype Holder = Nobody | Admission | PassSection

  /** Who is between taking the serialized section and giving it back. */
  function HeldBy(events: seq<Event>): Holder {
    if events == [] then Nobody
    else match Latest(events)
      case BeginAdmit(_) => Admission
      case StageFail => Nobody
      case SetFail(_, _) => Nobody
      case SyncFail => Nobody
      case Publish => Nobody
      case Capture => PassSection
      case ArmFail(_, _) => Nobody
      case ArmSyncOk => Nobody
      case ArmSyncFail => Nobody
      case BeginFinal => if Admissions(events) == CapturedBy(events) then PassSection else Nobody
      case Synchronize(_, _, _) => Nobody
      case SynchronizeFail(_, _, _, _, _) => Nobody
      case Crash(_) => Nobody
      case _ => HeldBy(Front(events))
  }

  // ---------------------------------------------------------------- the fields are what the events say

  ghost predicate Counted(s: State, events: seq<Event>) {
    && s.Admitted() == Admissions(events)
    && s.captured == CapturedBy(events)
    && s.covered == CoveredBy(events)
    && s.times.registered == WaitingAdmissions(events)
  }

  ghost predicate Stamped(s: State, events: seq<Event>) {
    s.marks == WrittenTimes(events)
  }

  ghost predicate Written(s: State, events: seq<Event>) {
    && s.armedAt == ArmedTime(events)
    && s.unfinished == ArmedSince(events)
    && match LastWrite(events)
       case None => !s.unrested && s.deadline.None?
       case Some(e) => (Writes(e) ==> s.unrested == !e.resting && s.deadline == e.wakeAt && s.syncedAt == e.now)
  }

  ghost predicate UnderWay(s: State, events: seq<Event>) {
    && (s.section.Staging? || s.section.Stamping? || s.section.Syncing? || s.section.Publishing? ==>
          s.section.waits == Waits(events))
    && (s.section.Syncing? || s.section.Publishing? ==> s.section.at == StampTime(events))
    && (s.pass.Stamped? ==> s.pass.at == ArmTime(events))
  }

  ghost predicate Held(s: State, events: seq<Event>) {
    match HeldBy(events)
    case Nobody => s.section.Free?
    case PassSection => s.section.PassHolds?
    case Admission => s.section.Staging? || s.section.Stamping? || s.section.Syncing? || s.section.Publishing?
  }

  ghost predicate Traced(s: State, events: seq<Event>) {
    && -1 <= LastCapture(events) < |events| && -1 <= LastFinal(events) < |events|
    && (!s.pass.Idle? && !s.pass.Queued? ==> LastCapture(events) >= 0)
    && (s.pass.Captured? || s.pass.Stamped? || s.pass.Executing? || s.pass.Executed? ==>
          LastFinal(events) < LastCapture(events))
    && (s.pass.Synchronizing? || s.pass.Settling? ==> PreviousFinal(events) < LastCapture(events) < LastFinal(events))
    && (s.pass.Synchronizing? ==> AtFinal(events) == CapturedBy(events) && !SyncedSinceFinal(events))
    && (s.pass.Settling? ==> (SyncedSinceFinal(events) <==> AtFinal(events) == CapturedBy(events)))
  }

  ghost predicate Recorded(s: State, events: seq<Event>) {
    && Counted(s, events) && Stamped(s, events) && Written(s, events) && UnderWay(s, events) && Traced(s, events)
    && Held(s, events)
  }

  lemma Unfolds(events: seq<Event>, e: Event)
    ensures Front(events + [e]) == events && Latest(events + [e]) == e
  {}

  lemma StepCounts(s: State, events: seq<Event>, e: Event, delay: nat)
    requires Counted(s, events) && UnderWay(s, events) && ControlInv(s, delay) && Enabled(s, e, delay)
    ensures Counted(Apply(s, e, delay), events + [e])
  {
    Unfolds(events, e);
  }

  lemma StepWrites(s: State, events: seq<Event>, e: Event, delay: nat)
    requires Written(s, events) && UnderWay(s, events) && Enabled(s, e, delay)
    ensures Written(Apply(s, e, delay), events + [e])
  {
    hide Written, SettleDue, FailPass, Apply;
    WriteFields(s, e, delay);
    WrittenSteps(s, events, e, Apply(s, e, delay));
  }

  /** What one step does to the arming, the flag and the record of the latest synchronization. */
  lemma WriteFields(s: State, e: Event, delay: nat)
    requires Enabled(s, e, delay)
    ensures var t := Apply(s, e, delay);
      && t.armedAt == (if e.ArmSyncOk? then s.pass.at else s.armedAt)
      && t.unfinished == (if e.ArmSyncOk? then true else if Writes(e) then false else s.unfinished)
      && (if Writes(e) then t.unrested == !e.resting && t.deadline == e.wakeAt && t.syncedAt == e.now
          else t.unrested == s.unrested && t.deadline == s.deadline && t.syncedAt == s.syncedAt)
      && (e.ArmSyncOk? ==> s.pass.Stamped?)
  {
    if PassFails(e) {
      hide Apply, FailPass;
      FailShape(s, e, delay);
      FailFields(BeforeFailing(s, e, delay), Redelivers(e));
    }
  }

  lemma WrittenSteps(s: State, events: seq<Event>, e: Event, t: State)
    requires Written(s, events) && UnderWay(s, events) && (e.ArmSyncOk? ==> s.pass.Stamped?)
    requires t.armedAt == (if e.ArmSyncOk? then s.pass.at else s.armedAt)
    requires t.unfinished == (if e.ArmSyncOk? then true else if Writes(e) then false else s.unfinished)
    requires if Writes(e) then t.unrested == !e.resting && t.deadline == e.wakeAt && t.syncedAt == e.now
      else t.unrested == s.unrested && t.deadline == s.deadline && t.syncedAt == s.syncedAt
    ensures Written(t, events + [e])
  {
    Unfolds(events, e);
  }

  lemma StepStamps(s: State, events: seq<Event>, e: Event, delay: nat)
    requires Stamped(s, events) && UnderWay(s, events) && Enabled(s, e, delay)
    ensures Stamped(Apply(s, e, delay), events + [e])
  {
    Unfolds(events, e);
  }

  lemma StepUnderWay(s: State, events: seq<Event>, e: Event, delay: nat)
    requires UnderWay(s, events) && Enabled(s, e, delay)
    ensures UnderWay(Apply(s, e, delay), events + [e])
  {
    Unfolds(events, e);
  }

  lemma StepHolds(s: State, events: seq<Event>, e: Event, delay: nat)
    requires Held(s, events) && Counted(s, events) && ControlInv(s, delay) && Enabled(s, e, delay)
    ensures Held(Apply(s, e, delay), events + [e])
  {
    Unfolds(events, e);
    if PassFails(e) {
      hide Apply, FailPass;
      FailShape(s, e, delay);
      FailFields(BeforeFailing(s, e, delay), Redelivers(e));
    }
  }

  lemma StepTraces(s: State, events: seq<Event>, e: Event, delay: nat)
    requires Traced(s, events) && Counted(s, events) && ControlInv(s, delay) && Enabled(s, e, delay)
    ensures Traced(Apply(s, e, delay), events + [e])
  {
    Unfolds(events, e);
  }

  lemma StepRecords(s: State, events: seq<Event>, e: Event, delay: nat)
    requires Recorded(s, events) && ControlInv(s, delay) && Enabled(s, e, delay)
    ensures Recorded(Apply(s, e, delay), events + [e])
  {
    hide Counted, Stamped, Written, UnderWay, Traced, Held, ControlInv, Enabled, Apply;
    StepCounts(s, events, e, delay);
    StepStamps(s, events, e, delay);
    StepWrites(s, events, e, delay);
    StepUnderWay(s, events, e, delay);
    StepTraces(s, events, e, delay);
    StepHolds(s, events, e, delay);
  }

  lemma NothingCounted(s: State, events: seq<Event>)
    requires s == INIT && events == []
    ensures Counted(s, events)
  {}

  lemma NothingStamped(s: State, events: seq<Event>)
    requires s == INIT && events == []
    ensures Stamped(s, events)
  {}

  lemma NothingWritten(s: State, events: seq<Event>)
    requires s == INIT && events == []
    ensures Written(s, events)
  {}

  lemma NothingUnderWay(s: State, events: seq<Event>)
    requires s == INIT && events == []
    ensures UnderWay(s, events)
  {}

  lemma NothingHeld(s: State, events: seq<Event>)
    requires s == INIT && events == []
    ensures Held(s, events)
  {}

  lemma NothingTraced(s: State, events: seq<Event>)
    requires s == INIT && events == []
    ensures Traced(s, events)
  {}

  lemma NothingRecorded(s: State, events: seq<Event>)
    requires s == INIT && events == []
    ensures Recorded(s, events)
  {
    hide Counted, Stamped, Written, UnderWay, Traced, Held;
    NothingCounted(s, events);
    NothingStamped(s, events);
    NothingWritten(s, events);
    NothingUnderWay(s, events);
    NothingTraced(s, events);
    NothingHeld(s, events);
  }

  lemma RunControl(events: seq<Event>, delay: nat)
    requires Run(INIT, events, delay).Some?
    ensures ControlInv(Run(INIT, events, delay).value, delay) && TimesInv(Run(INIT, events, delay).value)
  {
    hide Run;
    assert Reachable(Run(INIT, events, delay).value, delay);
    ReachableInv(Run(INIT, events, delay).value, delay);
    hide WakeInv, WaiterInv, TimesInv, SettledInv, ControlInv;
  }

  /** In every run the counts, the times and the flags of the state are those of its events. */
  lemma {:induction false} FieldsAreHistory(events: seq<Event>, delay: nat)
    requires Run(INIT, events, delay).Some?
    ensures Recorded(Run(INIT, events, delay).value, events)
  {
    hide Recorded, ControlInv, TimesInv, Enabled, Apply;
    if events == [] {
      NothingRecorded(INIT, events);
    } else {
      var before, e := Front(events), Latest(events);
      FieldsAreHistory(before, delay);
      RunControl(before, delay);
      StepRecords(Run(INIT, before, delay).value, before, e, delay);
      assert events == before + [e];
    }
  }

  // ---------------------------------------------------------------- passes synchronize

  lemma {:induction false} LastCaptureIs(events: seq<Event>)
    ensures -1 <= LastCapture(events) < |events|
    ensures LastCapture(events) >= 0 ==>
      events[LastCapture(events)].Capture? && CapturedBy(events) == Admissions(events[..LastCapture(events)])
    ensures forall m :: LastCapture(events) < m < |events| ==> !events[m].Capture?
  {
    if events != [] {
      var before := Front(events);
      LastCaptureIs(before);
      assert forall m :: 0 <= m < |before| ==> events[m] == before[m] && events[..m] == before[..m];
    }
  }

  lemma {:induction false} LastFinalIs(events: seq<Event>)
    ensures -1 <= LastFinal(events) < |events|
    ensures LastFinal(events) >= 0 ==>
      events[LastFinal(events)].BeginFinal? && AtFinal(events) == Admissions(events[..LastFinal(events)])
    ensures forall m :: LastFinal(events) < m < |events| ==> !events[m].BeginFinal?
    ensures -1 <= PreviousFinal(events)
    ensures forall m :: PreviousFinal(events) < m < |events| && events[m].BeginFinal? ==> m == LastFinal(events)
    ensures SyncedSinceFinal(events) <==> exists m :: LastFinal(events) < m < |events| && events[m].Synchronize?
  {
    if events != [] {
      var before := Front(events);
      LastFinalIs(before);
      assert forall m :: 0 <= m < |before| ==> events[m] == before[m] && events[..m] == before[..m];
      assert events[|events| - 1] == Latest(events);
    }
  }

  /** The count grows exactly where something was acknowledged. */
  lemma {:induction false} CountStays(events: seq<Event>, i: nat, j: nat)
    requires i <= j <= |events|
    ensures Admissions(events[..i]) <= Admissions(events[..j])
    ensures Admissions(events[..i]) == Admissions(events[..j]) <==> forall m :: i <= m < j ==> !events[m].Publish?
    decreases j
  {
    if i < j {
      assert Front(events[..j]) == events[..j - 1] && Latest(events[..j]) == events[j - 1];
      CountStays(events, i, j - 1);
    }
  }

  /** A pass that completes has one capture and one last section; between that section and its end it
      synchronizes if and only if nothing was acknowledged between the capture and the section. */
  lemma SettledPassSynchronized(events: seq<Event>, delay: nat) returns (i: nat, j: nat)
    requires Run(INIT, events + [Settle], delay).Some?
    ensures i < j < |events| && events[i] == Capture && events[j] == BeginFinal
    ensures forall m :: i < m < |events| ==> events[m] != Capture && (events[m] == BeginFinal ==> m == j)
    ensures (exists m :: j < m < |events| && events[m].Synchronize?) <==> forall m :: i < m < j ==> events[m] != Publish
  {
    hide Counted, Stamped, Written, UnderWay, Enabled, Apply;
    SettledRun(events, delay);
    LastCaptureIs(events);
    LastFinalIs(events);
    i, j := LastCapture(events), LastFinal(events);
    CountStays(events, i, j);
  }

  lemma SettledRun(events: seq<Event>, delay: nat)
    requires Run(INIT, events + [Settle], delay).Some?
    ensures PreviousFinal(events) < LastCapture(events) < LastFinal(events) && LastCapture(events) >= 0
    ensures SyncedSinceFinal(events) <==> AtFinal(events) == CapturedBy(events)
  {
    hide Counted, Stamped, Written, UnderWay, Traced, Held, RunOf, Apply, Enabled;
    hide LastCapture, LastFinal, PreviousFinal, AtFinal, CapturedBy, SyncedSinceFinal;
    RunOne(StepOf(delay), INIT, events, Settle);
    FieldsAreHistory(events, delay);
    var s := Run(INIT, events, delay).value;
    assert s.pass.Settling? by { SettleEnds(s, delay); }
    TracedSettling(s, events);
  }

  lemma SettleEnds(s: State, delay: nat)
    ensures Enabled(s, Settle, delay) ==> s.pass.Settling?
  {}

  lemma TracedSettling(s: State, events: seq<Event>)
    requires Traced(s, events) && s.pass.Settling?
    ensures PreviousFinal(events) < LastCapture(events) < LastFinal(events) && LastCapture(events) >= 0
    ensures SyncedSinceFinal(events) <==> AtFinal(events) == CapturedBy(events)
  {}

  // ---------------------------------------------------------------- waiters over the events

  /** Event `k` acknowledges admission `n`. */
  ghost predicate Acknowledges(events: seq<Event>, k: int, n: int) {
    0 <= k < |events| && events[k].Publish? && Admissions(events[..k]) == n - 1
  }

  ghost predicate Timed(s: State, events: seq<Event>) {
    && s.times.step == |events|
    && (forall n :: n in s.times.admitted ==> Acknowledges(events, s.times.admitted[n], n))
    && (ArmedPass(s.pass) || s.pass.Settling? ==> s.times.began < |events| && events[s.times.began].ArmSyncOk?)
    && (s.pass.Executed? || s.pass.Synchronizing? || s.pass.Settling? ==>
          s.times.ended < |events| && events[s.times.ended].ExecuteOk?)
    && (s.times.lost != {} ==> exists k :: 0 <= k < |events| && events[k].Crash?)
    && forall n :: n in s.settled && s.settled[n].resolved ==> Executed(events, s.settled[n])
  }

  ghost predicate Executed(events: seq<Event>, r: Settlement) {
    r.began < |events| && events[r.began].ArmSyncOk? && r.ended < |events| && events[r.ended].ExecuteOk?
  }

  lemma LongerKeeps(events: seq<Event>, e: Event)
    ensures forall k, n :: Acknowledges(events, k, n) ==> Acknowledges(events + [e], k, n)
    ensures forall r :: Executed(events, r) ==> Executed(events + [e], r)
    ensures forall k :: 0 <= k < |events| ==> (events + [e])[k] == events[k]
  {
    assert forall k :: 0 <= k < |events| ==> (events + [e])[..k] == events[..k];
  }

  lemma QuietTimed(s: State, events: seq<Event>, e: Event, delay: nat)
    requires Timed(s, events) && TimesInv(s) && Enabled(s, e, delay) && Quietly(e)
    ensures Timed(Apply(s, e, delay), events + [e])
  {
    hide Acknowledges, Executed, Apply, TimesInv;
    LongerKeeps(events, e);
    QuietFrame(s, e, delay);
    QuietTimes(s, e, delay);
    QuietSpans(s, e, delay);
  }

  lemma QuietSpans(s: State, e: Event, delay: nat)
    requires Enabled(s, e, delay) && Quietly(e)
    ensures var t := Apply(s, e, delay);
      && t.times.began == (if e.ArmSyncOk? then s.times.step else s.times.began)
      && t.times.ended == (if e.ExecuteOk? then s.times.step else s.times.ended)
      && (ArmedPass(t.pass) || t.pass.Settling? ==> e.ArmSyncOk? || ArmedPass(s.pass) || s.pass.Settling?)
      && (t.pass.Executed? || t.pass.Synchronizing? || t.pass.Settling? ==>
            e.ExecuteOk? || s.pass.Executed? || s.pass.Synchronizing? || s.pass.Settling?)
  {}

  lemma PublishTimed(s: State, events: seq<Event>, delay: nat)
    requires Timed(s, events) && Counted(s, events) && TimesInv(s) && Enabled(s, Publish, delay)
    ensures Timed(Apply(s, Publish, delay), events + [Publish])
  {
    LongerKeeps(events, Publish);
    assert (events + [Publish])[..|events|] == events;
    assert Acknowledges(events + [Publish], |events|, s.Admitted() + 1);
    hide Acknowledges, Executed;
  }

  lemma CrashTimed(s: State, events: seq<Event>, redeliver: bool, delay: nat)
    requires Timed(s, events)
    ensures Timed(Apply(s, Crash(redeliver), delay), events + [Crash(redeliver)])
  {
    hide Acknowledges, Executed;
    LongerKeeps(events, Crash(redeliver));
    assert (events + [Crash(redeliver)])[|events|].Crash?;
  }

  lemma EndTimed(s: State, events: seq<Event>, e: Event, delay: nat)
    requires Timed(s, events) && Enabled(s, e, delay) && (e.Settle? || PassFails(e))
    ensures Timed(Apply(s, e, delay), events + [e])
  {
    hide Acknowledges, SettleDue, FailPass, Apply;
    LongerKeeps(events, e);
    var u, t := BeforeFailing(s, e, delay), Apply(s, e, delay);
    AlarmWrite(s, e, delay);
    SettleDueAdds(u, e.Settle?);
    SettleDueFields(u, e.Settle?);
    if e.Settle? {
      SettleShape(s, delay);
    } else {
      FailShape(s, e, delay);
      FailSettles(u, Redelivers(e));
      FailFields(u, Redelivers(e));
    }
    assert t.settled == SettleDue(u, e.Settle?).settled && t.times == s.times.(step := |events| + 1) && t.pass.Idle?;
    forall n | n in t.settled && t.settled[n].resolved ensures Executed(events + [e], t.settled[n]) {
      if w :| w in Due(u) && u.waiters[w] == n {
        assert t.settled[n] == Outcome(u, e.Settle?, n);
      }
    }
  }

  lemma {:induction false} RunTimed(events: seq<Event>, delay: nat)
    requires Run(INIT, events, delay).Some?
    ensures Timed(Run(INIT, events, delay).value, events)
  {
    hide Timed, ControlInv, TimesInv, Enabled, Apply, Recorded;
    if events == [] {
      NothingTimed(INIT, events);
    } else {
      var before, e := Front(events), Latest(events);
      RunTimed(before, delay);
      RunControl(before, delay);
      FieldsAreHistory(before, delay);
      assert events == before + [e];
      StepTimed(Run(INIT, before, delay).value, before, e, delay);
    }
  }

  lemma NothingTimed(s: State, events: seq<Event>)
    requires s == INIT && events == []
    ensures Timed(s, events)
  {}

  lemma StepTimed(s: State, events: seq<Event>, e: Event, delay: nat)
    requires Timed(s, events) && Recorded(s, events) && TimesInv(s) && Enabled(s, e, delay)
    ensures Timed(Apply(s, e, delay), events + [e])
  {
    hide Timed, TimesInv, Apply, Enabled, Counted, Stamped, Written, UnderWay, Traced;
    if Quietly(e) { QuietTimed(s, events, e, delay); }
    else if e.Publish? { PublishTimed(s, events, delay); }
    else if e.Crash? { CrashTimed(s, events, e.redeliver, delay); }
    else { EndTimed(s, events, e, delay); }
  }

  /** A completion of `wakeAndWait` that is resolved was acknowledged before a pass armed whose execute
      then finished. */
  lemma ResolvedAfterExecute(events: seq<Event>, delay: nat, n: nat) returns (i: nat, j: nat, k: nat)
    requires Run(INIT, events, delay).Some?
    requires n in Run(INIT, events, delay).value.settled && Run(INIT, events, delay).value.settled[n].resolved
    ensures n in WaitingAdmissions(events)
    ensures i < j < k < |events| && Acknowledges(events, i, n) && events[j] == ArmSyncOk && events[k] == ExecuteOk
  {
    var s := Run(INIT, events, delay).value;
    assert Reachable(s, delay);
    SettlementJustified(s, delay, n);
    Registered(s, delay, n);
    RunTimed(events, delay);
    FieldsAreHistory(events, delay);
    i, j, k := s.times.admitted[n], s.settled[n].began, s.settled[n].ended;
    hide Run, Acknowledges, Reachable;
    assert Executed(events, s.settled[n]);
  }

  lemma Registered(s: State, delay: nat, n: nat)
    requires Reachable(s, delay) && n in s.settled
    ensures n in s.times.registered
  {
    ReachableInv(s, delay);
    hide Reachable, ControlInv, WakeInv, TimesInv, SettledInv;
  }

  /** Every admission made by `wakeAndWait` and acknowledged has been settled or is waiting, or else
      some crash has lost it. */
  lemma WaiterAccounted(events: seq<Event>, delay: nat, n: nat)
    requires Run(INIT, events, delay).Some? && n in WaitingAdmissions(events)
    ensures var s := Run(INIT, events, delay).value;
      n in s.settled || n in s.waiters.Values || exists k :: 0 <= k < |events| && events[k].Crash?
  {
    var s := Run(INIT, events, delay).value;
    assert Reachable(s, delay);
    ReachableInv(s, delay);
    RunTimed(events, delay);
    FieldsAreHistory(events, delay);
    hide Run, Reachable, ControlInv, WakeInv, TimesInv, SettledInv, WaiterInv;
    Whereabouts(s, n);
  }

  // ---------------------------------------------------------------- owed work over the events

  function Later(a: int, b: int): int { if a < b then b else a }

  /** The slot holds one of these times, or one no later than `bound`. */
  predicate SetBy(slot: Option<int>, times: set<int>, bound: int) {
    slot.Some? && (slot.value in times || slot.value <= bound)
  }

  /** The wake guarantee in terms of the events, while no delivery is on its way: an alarm stands in both
      slots, at a time an admission wrote if some admission no pass has captured; otherwise, if a
      captured one no finished execute had captured or a pass armed and none synchronized since, no later
      than the recovery delay after the latest arming; and after a synchronization that left work or
      gave a wake, no later than that delay after it, or than the wake. */
  lemma OwedOverEvents(events: seq<Event>, delay: nat)
    requires Run(INIT, events, delay).Some? && !Pending(Run(INIT, events, delay).value)
    ensures var s, times := Run(INIT, events, delay).value, WrittenTimes(events);
      Admissions(events) > CapturedBy(events) ==>
        s.stored.Some? && s.stored.value in times && s.visible.Some? && s.visible.value in times
    ensures var s, times, armed := Run(INIT, events, delay).value, WrittenTimes(events), ArmedTime(events) + delay;
      Admissions(events) == CapturedBy(events) && (CoveredBy(events) < CapturedBy(events) || ArmedSince(events)) ==>
        SetBy(s.stored, times, armed) && SetBy(s.visible, times, armed)
    ensures var s, times, armed := Run(INIT, events, delay).value, WrittenTimes(events), ArmedTime(events) + delay;
      Admissions(events) == CapturedBy(events) && LastWrite(events).Some? && Writes(LastWrite(events).value) ==>
        var e := LastWrite(events).value;
        var synced := Later(armed, e.now + delay);
        && (!e.resting ==> SetBy(s.stored, times, synced) && SetBy(s.visible, times, synced))
        && (e.wakeAt.Some? ==>
              SetBy(s.stored, times, Later(synced, e.wakeAt.value)) &&
                  SetBy(s.visible, times, Later(synced, e.wakeAt.value)))
  {
    var s := Run(INIT, events, delay).value;
    assert Reachable(s, delay);
    OwedHasWake(s, delay);
    FieldsAreHistory(events, delay);
    hide Run, Reachable, UnderWay, Traced, Pending;
  }

  // ---------------------------------------------------------------- the serialized section

  /** Admissions and the two sections of a pass exclude one another: each takes the section when nobody
      holds it, and its further steps are taken while it holds it. */
  lemma SectionsExclude(events: seq<Event>, e: Event, delay: nat)
    requires Run(INIT, events + [e], delay).Some?
    ensures e.BeginAdmit? || e.Capture? || e.BeginFinal? ==> HeldBy(events) == Nobody
    ensures e.StageOk? || e.StageFail? || e.SetOk? || e.SetFail? || e.SyncOk? || e.SyncFail? || e.Publish? ==>
      HeldBy(events) == Admission
    ensures e.Arm? || e.ArmFail? || e.ArmSyncOk? || e.ArmSyncFail? || e.Synchronize? || e.SynchronizeFail? ==>
      HeldBy(events) == PassSection
  {
    hide Recorded, ControlInv, TimesInv, Apply, Enabled, RunOf;
    RunOne(StepOf(delay), INIT, events, e);
    FieldsAreHistory(events, delay);
    RunControl(events, delay);
    SectionKnown(Run(INIT, events, delay).value, events, e, delay);
  }

  lemma SectionKnown(s: State, events: seq<Event>, e: Event, delay: nat)
    requires Recorded(s, events) && ControlInv(s, delay) && Enabled(s, e, delay)
    ensures e.BeginAdmit? || e.Capture? || e.BeginFinal? ==> HeldBy(events) == Nobody
    ensures e.StageOk? || e.StageFail? || e.SetOk? || e.SetFail? || e.SyncOk? || e.SyncFail? || e.Publish? ==>
      HeldBy(events) == Admission
    ensures e.Arm? || e.ArmFail? || e.ArmSyncOk? || e.ArmSyncFail? || e.Synchronize? || e.SynchronizeFail? ==>
      HeldBy(events) == PassSection
  {
    hide Counted, Stamped, Written, UnderWay, Traced, HeldBy;
  }
}
