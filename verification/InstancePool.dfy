/** The instance pool of the Bun host: one opening per id at a time, and an orderly shutdown. Openings are
    numbered; runtimes are whatever the opener answers, possibly one object for several openings. */
module InstancePool {
  import opened Ordering
  import opened Runs

  /** How far an opening has come: waiting for its turn, calling the opener, answered but still listed
      in `opening`, and settled. */
  datatype Stage = Scheduled | Running | Answered(runtime: Option<nat>) | Settled(runtime: Option<nat>)
  datatype Opening = Opening(id: string, stage: Stage)

  /** `close`: not called, or waiting for the openings, then the tasks, then the runtimes. */
  datatype Closing =
    | Open
    | AwaitOpenings(openings: set<nat>)
    | AwaitTasks(tasks: set<nat>)
    | AwaitRuntimes(ids: set<string>, errors: set<string>)
    | Closed(errors: set<string>)

  /** `openings`, `winners`, which names the successful opening of each id, and `closeCalls` are history. */
  datatype State = State(
    openings: seq<Opening>,
    instances: map<string, nat>,
    winners: map<string, nat>,
    opening: map<string, nat>,
    tasks: set<nat>, nextTask: nat,
    aborted: bool,
    closing: Closing,
    closeCalls: multiset<nat>)

  const EMPTY := State([], map[], map[], map[], {}, 0, false, Closing.Open, multiset{})

  /** What a call of `open` returns: an exception, a runtime, or the promise of an opening. */
  datatype Answer = Throws | Current(runtime: nat) | Pending(opening: nat)

  function AnswerOf(s: State, id: string): Answer {
    if s.aborted then Throws
    else if id in s.instances then Current(s.instances[id])
    else if id in s.opening then Pending(s.opening[id])
    else Pending(|s.openings|)
  }

  datatype Event =
    | CallOpen(id: string)
    | Start(k: nat)
    | Succeed(k: nat, runtime: nat)
    | Fail(k: nat)
    | Forget(k: nat)
    | Track
    | EndTask(task: nat, ok: bool)
    | CallClose
    | OpeningsSettled
    | TasksSettled
    | EndClose(id: string, ok: bool)
    | RuntimesSettled

  predicate At(s: State, k: nat, stage: Stage) {
    k < |s.openings| && s.openings[k].stage == stage
  }

  predicate Enabled(s: State, e: Event) {
    match e
    case CallOpen(_) => true
    case Start(k) => At(s, k, Scheduled)
    case Succeed(k, _) => At(s, k, Running)
    case Fail(k) => At(s, k, Running)
    case Forget(k) => k < |s.openings| && s.openings[k].stage.Answered?
    case Track => true
    case EndTask(task, _) => task in s.tasks
    case CallClose => true
    case OpeningsSettled =>
      s.closing.AwaitOpenings? && forall k :: k in s.closing.openings ==>
          k < |s.openings| && s.openings[k].stage.Settled?
    case TasksSettled => s.closing.AwaitTasks? && s.closing.tasks !! s.tasks
    case EndClose(id, _) => s.closing.AwaitRuntimes? && id in s.closing.ids
    case RuntimesSettled => s.closing.AwaitRuntimes? && s.closing.ids == {}
  }

  function To(s: State, k: nat, stage: Stage): State
    requires k < |s.openings|
  {
    s.(openings := s.openings[k := s.openings[k].(stage := stage)])
  }

  function AddTask(s: State): State {
    s.(tasks := s.tasks + {s.nextTask}, nextTask := s.nextTask + 1)
  }

  /** One call for each of these ids, on the runtime listed for it. */
  ghost function CallsFor(ids: set<string>, instances: map<string, nat>): multiset<nat>
    requires ids <= instances.Keys
  {
    if ids == {} then multiset{} else multiset{instances[AnyOf(ids)]} + CallsFor(ids - {AnyOf(ids)}, instances)
  }

  ghost function AnyOf(ids: set<string>): (id: string)
    requires ids != {}
    ensures id in ids
  {
    var id :| id in ids;
    id
  }

  /** `recovers`: the pool was given a recovery function. */
  ghost function Apply(s: State, recovers: bool, e: Event): State
    requires Enabled(s, e)
  {
    match e
    case CallOpen(id) =>
      if s.aborted || id in s.instances || id in s.opening then s
      else s.(openings := s.openings + [Opening(id, Scheduled)], opening := s.opening[id := |s.openings|])
    case Start(k) => To(s, k, Running)
    case Succeed(k, runtime) =>
      var next := To(s, k, Answered(Some(runtime))).(
        instances := s.instances[s.openings[k].id := runtime], winners := s.winners[s.openings[k].id := k]);
      if !s.aborted && recovers then AddTask(next) else next
    case Fail(k) => To(s, k, Answered(None))
    case Forget(k) => To(s, k, Settled(s.openings[k].stage.runtime)).(opening := s.opening - {s.openings[k].id})
    case Track => AddTask(s)
    case EndTask(task, ok) => s.(tasks := s.tasks - {task}, aborted := s.aborted || !ok)
    case CallClose =>
      if s.closing.Open? then s.(aborted := true, closing := AwaitOpenings(s.opening.Values)) else s
    case OpeningsSettled => s.(closing := AwaitTasks(s.tasks))
    case TasksSettled =>
      s.(closing := AwaitRuntimes(s.instances.Keys, {}),
          closeCalls := s.closeCalls + CallsFor(s.instances.Keys, s.instances))
    case EndClose(id, ok) =>
      s.(closing := AwaitRuntimes(s.closing.ids - {id}, s.closing.errors + if ok then {} else {id}))
    case RuntimesSettled => s.(closing := Closed(s.closing.errors))
  }

  ghost function StepOf(recovers: bool): (State, Event) -> Option<State> {
    (s, e) => if Enabled(s, e) then Some(Apply(s, recovers, e)) else None
  }

  ghost function Run(s: State, recovers: bool, events: seq<Event>): Option<State> {
    RunOf(StepOf(recovers), s, events)
  }

  // ---------------------------------------------------------------- the invariant

  predicate InFlight(o: Opening) { !o.stage.Settled? }

  predicate Succeeded(o: Opening) { (o.stage.Answered? || o.stage.Settled?) && o.stage.runtime.Some? }

  /** `opening` lists exactly the openings in flight, under their ids. */
  ghost predicate FlightsOk(openings: seq<Opening>, opening: map<string, nat>) {
    && (forall id :: id in opening ==>
        opening[id] < |openings| && openings[opening[id]].id == id && InFlight(openings[opening[id]]))
    && (forall k :: 0 <= k < |openings| && InFlight(openings[k]) ==>
        openings[k].id in opening && opening[openings[k].id] == k)
  }

  /** `winners` lists exactly the openings that succeeded, under their ids; `instances` their runtimes;
      and an opening that is not answered yet has no runtime for its id. */
  ghost predicate InstancesOk(openings: seq<Opening>, winners: map<string, nat>, instances: map<string, nat>) {
    && instances.Keys == winners.Keys
    && (forall id :: id in winners ==>
        winners[id] < |openings| && openings[winners[id]].id == id && Succeeded(openings[winners[id]]))
    && (forall id :: id in winners ==>
        winners[id] < |openings| && openings[winners[id]].stage == Given(openings[winners[id]], instances[id]))
    && (forall k :: 0 <= k < |openings| && Succeeded(openings[k]) ==>
        openings[k].id in winners && winners[openings[k].id] == k)
    && (forall k :: 0 <= k < |openings| && (openings[k].stage.Scheduled? || openings[k].stage.Running?) ==>
        openings[k].id !in winners)
  }

  /** The stage of an opening that was answered with this runtime. */
  function Given(o: Opening, runtime: nat): Stage {
    if o.stage.Settled? then Settled(Some(runtime)) else Answered(Some(runtime))
  }

  ghost predicate ClosingOk(s: State) {
    && (!s.closing.Open? ==> s.aborted)
    && (s.closing.AwaitOpenings? ==>
          s.opening.Values <= s.closing.openings && forall k :: k in s.closing.openings ==> k < |s.openings|)
    && (s.closing.AwaitTasks? || s.closing.AwaitRuntimes? || s.closing.Closed? ==> s.opening == map[])
    && s.closeCalls == (if s.closing.AwaitRuntimes? || s.closing.Closed? then CallsFor(s.instances.Keys, s.instances)
        else multiset{})
    && (s.closing.AwaitRuntimes? ==> s.closing.errors + s.closing.ids <= s.instances.Keys)
    && (s.closing.Closed? ==> s.closing.errors <= s.instances.Keys)
  }

  ghost predicate Inv(s: State) {
    && FlightsOk(s.openings, s.opening)
    && InstancesOk(s.openings, s.winners, s.instances)
    && ClosingOk(s)
    && (forall t :: t in s.tasks ==> t < s.nextTask)
  }

  lemma OpenFlight(openings: seq<Opening>, opening: map<string, nat>, id: string)
    requires FlightsOk(openings, opening) && id !in opening
    ensures FlightsOk(openings + [Opening(id, Scheduled)], opening[id := |openings|])
  {}

  lemma MoveFlight(openings: seq<Opening>, opening: map<string, nat>, k: nat, stage: Stage)
    requires FlightsOk(openings, opening) && k < |openings| && InFlight(openings[k]) && !stage.Settled?
    ensures FlightsOk(openings[k := openings[k].(stage := stage)], opening)
  {}

  lemma EndFlight(openings: seq<Opening>, opening: map<string, nat>, k: nat, runtime: Option<nat>)
    requires FlightsOk(openings, opening) && k < |openings| && InFlight(openings[k])
    ensures FlightsOk(openings[k := openings[k].(stage := Settled(runtime))], opening - {openings[k].id})
  {}

  lemma StepKeepsFlights(s: State, recovers: bool, e: Event)
    requires FlightsOk(s.openings, s.opening) && Enabled(s, e)
    ensures FlightsOk(Apply(s, recovers, e).openings, Apply(s, recovers, e).opening)
  {
    hide FlightsOk;
    match e
    case CallOpen(id) => if id !in s.opening { OpenFlight(s.openings, s.opening, id); }
    case Start(k) => MoveFlight(s.openings, s.opening, k, Running);
    case Succeed(k, runtime) => MoveFlight(s.openings, s.opening, k, Answered(Some(runtime)));
    case Fail(k) => MoveFlight(s.openings, s.opening, k, Answered(None));
    case Forget(k) => EndFlight(s.openings, s.opening, k, s.openings[k].stage.runtime);
    case _ =>
  }

  lemma OpenInstance(openings: seq<Opening>, winners: map<string, nat>, instances: map<string, nat>, id: string)
    requires InstancesOk(openings, winners, instances) && id !in instances
    ensures InstancesOk(openings + [Opening(id, Scheduled)], winners, instances)
  {}

  /** Stages that neither turn an opening into a success nor change its runtime. */
  lemma MoveInstance(openings: seq<Opening>, winners: map<string, nat>, instances: map<string, nat>, k: nat,
      stage: Stage)
    requires InstancesOk(openings, winners, instances) && k < |openings|
    requires Succeeded(Opening("", stage)) <==> Succeeded(openings[k])
    requires Succeeded(openings[k]) ==> stage.runtime == openings[k].stage.runtime
    requires stage.Running? ==> openings[k].stage.Scheduled?
    requires !stage.Scheduled?
    ensures InstancesOk(openings[k := openings[k].(stage := stage)], winners, instances)
  {}

  lemma NewInstance(openings: seq<Opening>, opening: map<string, nat>, winners: map<string, nat>,
      instances: map<string, nat>, k: nat, runtime: nat)
    requires InstancesOk(openings, winners, instances) && FlightsOk(openings, opening)
    requires k < |openings| && openings[k].stage == Running
    ensures InstancesOk(openings[k := openings[k].(stage := Answered(Some(runtime)))], winners[openings[k].id := k],
      instances[openings[k].id := runtime])
  {}

  lemma StepKeepsInstances(s: State, recovers: bool, e: Event)
    requires FlightsOk(s.openings, s.opening) && InstancesOk(s.openings, s.winners, s.instances) && Enabled(s, e)
    ensures InstancesOk(Apply(s, recovers, e).openings, Apply(s, recovers, e).winners, Apply(s, recovers, e).instances)
  {
    hide FlightsOk, InstancesOk;
    match e
    case CallOpen(id) => if id !in s.instances { OpenInstance(s.openings, s.winners, s.instances, id); }
    case Start(k) => MoveInstance(s.openings, s.winners, s.instances, k, Running);
    case Succeed(k, runtime) => NewInstance(s.openings, s.opening, s.winners, s.instances, k, runtime);
    case Fail(k) => MoveInstance(s.openings, s.winners, s.instances, k, Answered(None));
    case Forget(k) => MoveInstance(s.openings, s.winners, s.instances, k, Settled(s.openings[k].stage.runtime));
    case _ =>
  }

  lemma SettledAreGone(s: State)
    requires FlightsOk(s.openings, s.opening) && s.closing.AwaitOpenings? && s.opening.Values <= s.closing.openings
    requires Enabled(s, OpeningsSettled)
    ensures s.opening == map[]
  {
    ValuesHold(s.opening);
    assert forall id :: id !in s.opening;
  }

  lemma ValuesHold(m: map<string, nat>)
    ensures forall id :: id in m ==> m[id] in m.Values
  {}

  lemma RunningListed(s: State, k: nat)
    requires FlightsOk(s.openings, s.opening) && At(s, k, Running)
    ensures s.openings[k].id in s.opening
  {}

  lemma FewerValues(m: map<string, nat>, id: string)
    ensures (m - {id}).Values <= m.Values
  {}

  predicate IsCloseEvent(e: Event) {
    e.CallClose? || e.OpeningsSettled? || e.TasksSettled? || e.EndClose? || e.RuntimesSettled?
  }

  lemma FlightsExist(s: State, k: nat)
    requires FlightsOk(s.openings, s.opening) && k in s.opening.Values
    ensures k < |s.openings|
  {
    var id :| id in s.opening && s.opening[id] == k;
  }

  lemma CloseKeepsClosing(s: State, recovers: bool, e: Event)
    requires FlightsOk(s.openings, s.opening) && ClosingOk(s) && Enabled(s, e) && IsCloseEvent(e)
    ensures ClosingOk(Apply(s, recovers, e))
  {
    hide FlightsOk;
    if e.OpeningsSettled? { SettledAreGone(s); }
    if e.CallClose? {
      forall k | k in s.opening.Values ensures k < |s.openings| { FlightsExist(s, k); }
    }
  }

  lemma OtherKeepsClosing(s: State, recovers: bool, e: Event)
    requires FlightsOk(s.openings, s.opening) && ClosingOk(s) && Enabled(s, e) && !IsCloseEvent(e)
    ensures ClosingOk(Apply(s, recovers, e))
  {
    hide FlightsOk;
    assert |Apply(s, recovers, e).openings| >= |s.openings|;
    hide At;
    if e.Succeed? { RunningListed(s, e.k); }
    if e.Forget? { FewerValues(s.opening, s.openings[e.k].id); }
    assert Apply(s, recovers, e).closing == s.closing;
  }

  lemma StepKeepsClosing(s: State, recovers: bool, e: Event)
    requires FlightsOk(s.openings, s.opening) && ClosingOk(s) && Enabled(s, e)
    ensures ClosingOk(Apply(s, recovers, e))
  {
    hide FlightsOk, ClosingOk, Apply;
    if IsCloseEvent(e) { CloseKeepsClosing(s, recovers, e); } else { OtherKeepsClosing(s, recovers, e); }
  }

  lemma StepKeepsInv(s: State, recovers: bool, e: Event)
    requires Inv(s) && Enabled(s, e)
    ensures Inv(Apply(s, recovers, e))
  {
    hide FlightsOk, InstancesOk, ClosingOk;
    StepKeepsFlights(s, recovers, e);
    StepKeepsInstances(s, recovers, e);
    StepKeepsClosing(s, recovers, e);
  }

  lemma {:induction false} RunKeepsInv(recovers: bool, events: seq<Event>)
    requires Run(EMPTY, recovers, events).Some?
    ensures Inv(Run(EMPTY, recovers, events).value)
  {
    if events == [] {
      assert CallsFor({}, EMPTY.instances) == multiset{};
    } else {
      RunKeepsInv(recovers, events[..|events| - 1]);
      hide Inv, Enabled, Apply;
      StepKeepsInv(Run(EMPTY, recovers, events[..|events| - 1]).value, recovers, events[|events| - 1]);
    }
  }

  // ---------------------------------------------------------------- one flight, one success

  /** No two openings of one id are in flight, and no two of one id succeed. */
  lemma SingleFlight(recovers: bool, events: seq<Event>, i: nat, j: nat)
    requires Run(EMPTY, recovers, events).Some?
    requires i < j < |Run(EMPTY, recovers, events).value.openings|
    ensures var os := Run(EMPTY, recovers, events).value.openings;
      os[i].id == os[j].id ==> !(InFlight(os[i]) && InFlight(os[j])) && !(Succeeded(os[i]) && Succeeded(os[j]))
  {
    RunKeepsInv(recovers, events);
    hide Run, ClosingOk;
  }

  /** Openings are only added, keep their id, and stay successful once they are. */
  ghost predicate Grows(a: seq<Opening>, b: seq<Opening>) {
    |a| <= |b| && forall k :: 0 <= k < |a| ==>
        b[k].id == a[k].id && (Succeeded(a[k]) ==> Succeeded(b[k]) && b[k].stage.runtime == a[k].stage.runtime)
  }

  lemma {:induction false} RunGrows(s: State, recovers: bool, events: seq<Event>)
    requires Run(s, recovers, events).Some?
    ensures Grows(s.openings, Run(s, recovers, events).value.openings)
    ensures s.aborted ==>
      Run(s, recovers, events).value.aborted && |Run(s, recovers, events).value.openings| == |s.openings|
    ensures !s.closing.Open? ==> !Run(s, recovers, events).value.closing.Open?
  {
    hide Enabled, Apply;
    if events != [] {
      RunGrows(s, recovers, events[..|events| - 1]);
      StepGrows(Run(s, recovers, events[..|events| - 1]).value, recovers, events[|events| - 1]);
    }
  }

  lemma StepGrows(s: State, recovers: bool, e: Event)
    requires Enabled(s, e)
    ensures Grows(s.openings, Apply(s, recovers, e).openings)
    ensures s.aborted ==> Apply(s, recovers, e).aborted && |Apply(s, recovers, e).openings| == |s.openings|
    ensures !s.closing.Open? ==> !Apply(s, recovers, e).closing.Open?
  {}

  /** The runtime a call's answer has delivered by the state `s`, if any. */
  function Delivered(s: State, answer: Answer): Option<nat> {
    match answer
    case Throws => None
    case Current(runtime) => Some(runtime)
    case Pending(k) => if k < |s.openings| && Succeeded(s.openings[k]) then s.openings[k].stage.runtime else None
  }

  /** A call's answer right after it was made: the runtime of a successful opening of that id, or an
      opening of that id in flight. */
  lemma AnswerNames(s: State, recovers: bool, id: string)
    requires Inv(s)
    ensures var t := Apply(s, recovers, CallOpen(id));
      match AnswerOf(s, id)
      case Throws => s.aborted
      case Current(runtime) =>
        && id in t.winners && t.winners[id] < |t.openings| && t.openings[t.winners[id]].id == id
        && Succeeded(t.openings[t.winners[id]]) && t.openings[t.winners[id]].stage.runtime == Some(runtime)
      case Pending(k) => k < |t.openings| && t.openings[k].id == id && InFlight(t.openings[k])
  {}

  /** Callers of one id, however their calls interleave with openings, failures and shutdown, get the
      same runtime: whatever two answers deliver is equal. */
  lemma SameRuntime(recovers: bool, a: seq<Event>, b: seq<Event>, c: seq<Event>, id: string)
    requires Run(EMPTY, recovers, a + [CallOpen(id)] + b + [CallOpen(id)] + c).Some?
    ensures Run(EMPTY, recovers, a).Some? && Run(EMPTY, recovers, a + [CallOpen(id)] + b).Some?
    ensures var first := AnswerOf(Run(EMPTY, recovers, a).value, id);
      var second := AnswerOf(Run(EMPTY, recovers, a + [CallOpen(id)] + b).value, id);
      var end := Run(EMPTY, recovers, a + [CallOpen(id)] + b + [CallOpen(id)] + c).value;
      Delivered(end, first).Some? && Delivered(end, second).Some? ==> Delivered(end, first) == Delivered(end, second)
  {
    var all, mid := a + [CallOpen(id)] + b + [CallOpen(id)] + c, a + [CallOpen(id)] + b;
    assert all == a + ([CallOpen(id)] + (b + [CallOpen(id)] + c)) && all == mid + ([CallOpen(id)] + c);
    RunJoin(StepOf(recovers), EMPTY, a, [CallOpen(id)] + (b + [CallOpen(id)] + c));
    RunJoin(StepOf(recovers), EMPTY, mid, [CallOpen(id)] + c);
    hide Run;
    AnswerDelivers(recovers, a, b + [CallOpen(id)] + c, id);
    AnswerDelivers(recovers, mid, c, id);
    RunKeepsInv(recovers, all);
  }

  /** What a call delivers in the end is the runtime listed for its id. */
  lemma AnswerDelivers(recovers: bool, before: seq<Event>, after: seq<Event>, id: string)
    requires Run(EMPTY, recovers, before).Some? && Run(EMPTY, recovers, before + ([CallOpen(id)] + after)).Some?
    ensures var s := Run(EMPTY, recovers, before).value;
      var end := Run(EMPTY, recovers, before + ([CallOpen(id)] + after)).value;
      Delivered(end, AnswerOf(s, id)).Some? ==>
          id in end.instances && Delivered(end, AnswerOf(s, id)) == Some(end.instances[id])
  {
    var s := Run(EMPTY, recovers, before).value;
    RunKeepsInv(recovers, before);
    AnswerNames(s, recovers, id);
    EventThenRest(s, recovers, CallOpen(id), after);
    RunJoin(StepOf(recovers), EMPTY, before, [CallOpen(id)] + after);
    RunGrows(Apply(s, recovers, CallOpen(id)), recovers, after);
    RunKeepsInv(recovers, before + ([CallOpen(id)] + after));
    DeliveredListed(Apply(s, recovers, CallOpen(id)), Run(EMPTY, recovers, before + ([CallOpen(id)] + after)).value,
        AnswerOf(s, id), id);
  }

  /** Later states list the runtime under the id of the opening that was answered with it. */
  lemma DeliveredListed(t: State, end: State, answer: Answer, id: string)
    requires InstancesOk(end.openings, end.winners, end.instances) && Grows(t.openings, end.openings)
    requires match answer
      case Throws => true
      case Current(runtime) =>
        && id in t.winners && t.winners[id] < |t.openings| && t.openings[t.winners[id]].id == id
        && Succeeded(t.openings[t.winners[id]]) && t.openings[t.winners[id]].stage.runtime == Some(runtime)
      case Pending(k) => k < |t.openings| && t.openings[k].id == id
    ensures Delivered(end, answer).Some? ==> id in end.instances && Delivered(end, answer) == Some(end.instances[id])
  {
    if answer.Current? { assert end.openings[t.winners[id]].id == id; }
  }

  lemma EventThenRest(s: State, recovers: bool, e: Event, rest: seq<Event>)
    requires Enabled(s, e)
    ensures Run(s, recovers, [e] + rest) == Run(Apply(s, recovers, e), recovers, rest)
  {
    RunOne(StepOf(recovers), s, [], e);
    assert [] + [e] == [e];
    RunJoin(StepOf(recovers), s, [e], rest);
  }

  // ---------------------------------------------------------------- shutdown

  /** The openings that were answered with this runtime. */
  ghost function Producers(openings: seq<Opening>, runtime: nat): set<nat> {
    set k | 0 <= k < |openings| && Succeeded(openings[k]) && openings[k].stage.runtime == Some(runtime)
  }

  /** The ids among these that list this runtime. */
  ghost function Holders(ids: set<string>, instances: map<string, nat>, runtime: nat): set<string>
    requires ids <= instances.Keys
  {
    set id | id in ids && instances[id] == runtime
  }

  lemma HoldersWithout(ids: set<string>, instances: map<string, nat>, runtime: nat, id: string)
    requires id in ids && ids <= instances.Keys
    ensures |Holders(ids, instances, runtime)| ==
      |Holders(ids - {id}, instances, runtime)| + if instances[id] == runtime then 1 else 0
  {
    var rest := Holders(ids - {id}, instances, runtime);
    assert Holders(ids, instances, runtime) == if instances[id] == runtime then rest + {id} else rest;
  }

  lemma {:induction false} CallsCount(ids: set<string>, instances: map<string, nat>, runtime: nat)
    requires ids <= instances.Keys
    ensures CallsFor(ids, instances)[runtime] == |Holders(ids, instances, runtime)|
  {
    hide Holders;
    if ids == {} {
      NoHolders(instances, runtime);
    } else {
      CallsCount(ids - {AnyOf(ids)}, instances, runtime);
      HoldersWithout(ids, instances, runtime, AnyOf(ids));
    }
  }

  lemma NoHolders(instances: map<string, nat>, runtime: nat)
    ensures Holders({}, instances, runtime) == {}
  {}

  lemma {:induction false} ImageSize(m: map<string, nat>, ids: set<string>)
    requires ids <= m.Keys && forall x, y :: x in ids && y in ids && m[x] == m[y] ==> x == y
    ensures |set x | x in ids :: m[x]| == |ids|
  {
    if ids == {} {
      assert (set x | x in ids :: m[x]) == {};
    } else {
      var id := AnyOf(ids);
      ImageSize(m, ids - {id});
      var rest := set x | x in ids - {id} :: m[x];
      assert (set x | x in ids :: m[x]) == rest + {m[id]} && m[id] !in rest;
    }
  }

  /** One close call per listed id is one per successful opening. */
  lemma CallsPerOpening(openings: seq<Opening>, winners: map<string, nat>, instances: map<string, nat>, runtime: nat)
    requires InstancesOk(openings, winners, instances)
    ensures CallsFor(instances.Keys, instances)[runtime] == |Producers(openings, runtime)|
  {
    var ids := Holders(instances.Keys, instances, runtime);
    CallsCount(instances.Keys, instances, runtime);
    assert forall id :: id in ids ==> openings[winners[id]].id == id;
    ImageSize(winners, ids);
    forall k | k in Producers(openings, runtime) ensures k in (set id | id in ids :: winners[id]) {
      assert openings[k].id in ids && winners[openings[k].id] == k;
    }
    assert Producers(openings, runtime) == set id | id in ids :: winners[id];
  }

  /** Once `close` has settled: nothing is in flight, a runtime has been closed exactly as often as
      openings were answered with it, and the reported errors are at listed ids. */
  lemma ClosedPool(recovers: bool, events: seq<Event>)
    requires Run(EMPTY, recovers, events).Some? && Run(EMPTY, recovers, events).value.closing.Closed?
    ensures var s := Run(EMPTY, recovers, events).value;
      && (forall k :: 0 <= k < |s.openings| ==> s.openings[k].stage.Settled?)
      && (forall runtime: nat :: s.closeCalls[runtime] == |Producers(s.openings, runtime)|)
      && s.closing.errors <= s.instances.Keys
  {
    RunKeepsInv(recovers, events);
    hide Run, CallsFor;
    var s := Run(EMPTY, recovers, events).value;
    forall runtime: nat ensures s.closeCalls[runtime] == |Producers(s.openings, runtime)| {
      CallsPerOpening(s.openings, s.winners, s.instances, runtime);
    }
    hide InstancesOk;
  }

  /** So every opened runtime has been closed, and exactly once if and only if no other opening was
      answered with the same runtime. */
  lemma ClosedOnce(recovers: bool, events: seq<Event>, k: nat)
    requires Run(EMPTY, recovers, events).Some? && Run(EMPTY, recovers, events).value.closing.Closed?
    requires k < |Run(EMPTY, recovers, events).value.openings|
    requires Succeeded(Run(EMPTY, recovers, events).value.openings[k])
    ensures var s := Run(EMPTY, recovers, events).value;
      var runtime := s.openings[k].stage.runtime.value;
      && s.closeCalls[runtime] >= 1
      && (s.closeCalls[runtime] == 1 <==> forall j :: j in Producers(s.openings, runtime) ==> j == k)
  {
    ClosedPool(recovers, events);
    hide Run;
    var s := Run(EMPTY, recovers, events).value;
    SizeOne(Producers(s.openings, s.openings[k].stage.runtime.value), k);
  }

  lemma SizeOne(all: set<nat>, k: nat)
    requires k in all
    ensures |all| >= 1 && (|all| == 1 <==> forall j :: j in all ==> j == k)
  {
    assert all == {k} + (all - {k});
    if forall j :: j in all ==> j == k { assert all == {k}; }
    if |all| == 1 { assert all - {k} == {}; }
  }

  /** After `close` has settled nothing changes any more but settled tasks: every call throws, no runtime
      is opened and none is closed again. */
  lemma ClosedForever(recovers: bool, events: seq<Event>, more: seq<Event>, id: string)
    requires Run(EMPTY, recovers, events).Some? && Run(EMPTY, recovers, events + more).Some?
    requires Run(EMPTY, recovers, events).value.closing.Closed?
    ensures var s, t := Run(EMPTY, recovers, events).value, Run(EMPTY, recovers, events + more).value;
      && AnswerOf(t, id) == Throws
      && t.openings == s.openings && t.instances == s.instances && t.closeCalls == s.closeCalls
      && t.closing == s.closing
  {
    RunJoin(StepOf(recovers), EMPTY, events, more);
    ClosedPool(recovers, events);
    RunKeepsInv(recovers, events);
    hide InstancesOk, FlightsOk;
    StaysClosed(Run(EMPTY, recovers, events).value, recovers, more);
  }

  lemma {:induction false} StaysClosed(s: State, recovers: bool, more: seq<Event>)
    requires s.closing.Closed? && s.aborted && Run(s, recovers, more).Some?
    requires forall k :: 0 <= k < |s.openings| ==> s.openings[k].stage.Settled?
    ensures var t := Run(s, recovers, more).value;
      t.aborted && t.openings == s.openings && t.instances == s.instances && t.closeCalls == s.closeCalls &&
          t.closing == s.closing
  {
    hide Enabled, Apply;
    if more != [] {
      StaysClosed(s, recovers, more[..|more| - 1]);
      StepStaysClosed(Run(s, recovers, more[..|more| - 1]).value, recovers, more[|more| - 1]);
    }
  }

  lemma StepStaysClosed(s: State, recovers: bool, e: Event)
    requires s.closing.Closed? && s.aborted && Enabled(s, e)
    requires forall k :: 0 <= k < |s.openings| ==> s.openings[k].stage.Settled?
    ensures var t := Apply(s, recovers, e);
      t.aborted && t.openings == s.openings && t.instances == s.instances && t.closeCalls == s.closeCalls &&
          t.closing == s.closing
  {
  }

  /** From the call of `close` on, every call of `open` throws. */
  lemma NoOpenAfterClose(recovers: bool, events: seq<Event>, more: seq<Event>, id: string)
    requires Run(EMPTY, recovers, events).Some? && Run(EMPTY, recovers, events + [CallClose] + more).Some?
    ensures AnswerOf(Run(EMPTY, recovers, events + [CallClose] + more).value, id) == Throws
    ensures |Run(EMPTY, recovers, events + [CallClose] + more).value.openings| ==
      |Run(EMPTY, recovers, events).value.openings|
  {
    var s := Run(EMPTY, recovers, events).value;
    assert events + [CallClose] + more == events + ([CallClose] + more);
    RunKeepsInv(recovers, events);
    RunJoin(StepOf(recovers), EMPTY, events, [CallClose] + more);
    EventThenRest(s, recovers, CallClose, more);
    RunGrows(Apply(s, recovers, CallClose), recovers, more);
    hide Run;
  }

  // ---------------------------------------------------------------- what `close` has waited for

  /** Some event says that this task ended, or that this id's runtime answered `close`. */
  ghost predicate Ended(events: seq<Event>, task: nat) {
    EndTask(task, true) in events || EndTask(task, false) in events
  }

  ghost predicate Closes(events: seq<Event>, id: string) {
    EndClose(id, true) in events || EndClose(id, false) in events
  }

  /** The tasks there were when the openings had settled. */
  ghost function TasksThen(recovers: bool, events: seq<Event>): set<nat>
    decreases |events|
  {
    if events == [] then {}
    else if events[|events| - 1].OpeningsSettled? && Run(EMPTY, recovers, events[..|events| - 1]).Some?
    then Run(EMPTY, recovers, events[..|events| - 1]).value.tasks
    else TasksThen(recovers, events[..|events| - 1])
  }

  /** How many tasks were begun: those tracked, and a recovery for each runtime that was opened before the
      pool was aborted. */
  ghost function TasksBegun(recovers: bool, events: seq<Event>): nat {
    if events == [] then 0
    else
      var before, e := events[..|events| - 1], events[|events| - 1];
      var aborted := CallClose in before || SomeTaskFailed(before);
      TasksBegun(recovers, before) + if e.Track? || (e.Succeed? && recovers && !aborted) then 1 else 0
  }

  /** Every task is under way or has ended, not both, and the closing pool has waited for those there were. */
  ghost predicate TasksWaited(s: State, events: seq<Event>, awaited: set<nat>) {
    && (forall t: nat :: t < s.nextTask ==> t in s.tasks || Ended(events, t))
    && (forall t: nat :: Ended(events, t) ==> t < s.nextTask && t !in s.tasks)
    && (s.closing.AwaitTasks? ==> s.closing.tasks == awaited && forall t :: t in awaited ==> t < s.nextTask)
    && (s.closing.AwaitRuntimes? || s.closing.Closed? ==> forall t :: t in awaited ==> Ended(events, t))
  }

  /** The answers of the runtimes so far. */
  ghost predicate ClosesWaited(s: State, events: seq<Event>) {
    && (s.closing.AwaitRuntimes? ==>
          && (forall id :: id in s.instances ==> (id in s.closing.ids <==> !Closes(events, id)))
          && (forall id :: id in s.closing.errors <==> EndClose(id, false) in events))
    && (s.closing.Closed? ==>
          && (forall id :: id in s.instances ==> Closes(events, id))
          && (forall id :: id in s.closing.errors <==> EndClose(id, false) in events))
    && (s.closing.Open? || s.closing.AwaitOpenings? || s.closing.AwaitTasks? ==> forall id :: !Closes(events, id))
  }

  ghost predicate SomeTaskFailed(events: seq<Event>) { exists t: nat :: EndTask(t, false) in events }

  ghost predicate AbortKnown(s: State, events: seq<Event>) {
    && (s.aborted <==> CallClose in events || SomeTaskFailed(events))
    && (!s.closing.Open? <==> CallClose in events)
  }

  lemma StepTasksWaited(s: State, recovers: bool, events: seq<Event>, e: Event, awaited: set<nat>)
    requires TasksWaited(s, events, awaited) && Inv(s) && Enabled(s, e)
    ensures TasksWaited(Apply(s, recovers, e), events + [e], if e.OpeningsSettled? then s.tasks else awaited)
  {
    hide FlightsOk, InstancesOk, CallsFor, ClosingOk;
    LongerEnded(events, e);
    hide Ended;
  }

  lemma LongerEnded(events: seq<Event>, e: Event)
    ensures forall t: nat :: Ended(events + [e], t) <==> Ended(events, t) || (e.EndTask? && e.task == t)
  {
    assert forall k :: k in events + [e] <==> k in events || k == e;
  }

  lemma StepClosesWaited(s: State, recovers: bool, events: seq<Event>, e: Event)
    requires ClosesWaited(s, events) && Inv(s) && Enabled(s, e)
    ensures ClosesWaited(Apply(s, recovers, e), events + [e])
  {
    hide FlightsOk, InstancesOk, CallsFor;
    LongerCloses(events, e);
    if e.Succeed? { RunningListed(s, e.k); }
    hide Closes;
  }

  lemma LongerCloses(events: seq<Event>, e: Event)
    ensures forall id :: Closes(events + [e], id) <==> Closes(events, id) || (e.EndClose? && e.id == id)
    ensures forall id :: EndClose(id, false) in events + [e] <==>
      EndClose(id, false) in events || e == EndClose(id, false)
    ensures forall id :: EndClose(id, false) in events ==> Closes(events, id)
  {
    assert forall k :: k in events + [e] <==> k in events || k == e;
  }

  lemma StepAbortKnown(s: State, recovers: bool, events: seq<Event>, e: Event)
    requires AbortKnown(s, events) && ClosingOk(s) && Enabled(s, e)
    ensures AbortKnown(Apply(s, recovers, e), events + [e])
  {
    hide CallsFor;
    assert forall k :: k in events + [e] <==> k in events || k == e;
    if t: nat :| EndTask(t, false) in events { assert EndTask(t, false) in events + [e]; }
    if t: nat :| EndTask(t, false) in events + [e] {
      if EndTask(t, false) != e { assert SomeTaskFailed(events); }
    }
    if e.EndTask? && !e.ok { assert e == EndTask(e.task, false) && e in events + [e]; }
  }

  /** What the wait `close` is in has behind it. */
  ghost predicate Waited(s: State, recovers: bool, events: seq<Event>) {
    && TasksWaited(s, events, TasksThen(recovers, events)) && ClosesWaited(s, events) && AbortKnown(s, events)
    && s.nextTask == TasksBegun(recovers, events)
  }

  lemma StepWaited(s: State, recovers: bool, events: seq<Event>, e: Event)
    requires Waited(s, recovers, events) && Inv(s) && Enabled(s, e) && Run(EMPTY, recovers, events) == Some(s)
    ensures Waited(Apply(s, recovers, e), recovers, events + [e])
  {
    hide TasksWaited, ClosesWaited, AbortKnown, Run, Apply, Enabled, FlightsOk, InstancesOk, ClosingOk;
    assert (events + [e])[..|events|] == events;
    StepBegun(s, recovers, events, e);
    StepTasksWaited(s, recovers, events, e, TasksThen(recovers, events));
    StepClosesWaited(s, recovers, events, e);
    StepAbortKnown(s, recovers, events, e);
  }

  lemma StepBegun(s: State, recovers: bool, events: seq<Event>, e: Event)
    requires AbortKnown(s, events) && Enabled(s, e) && s.nextTask == TasksBegun(recovers, events)
    ensures Apply(s, recovers, e).nextTask == TasksBegun(recovers, events + [e])
  {
    hide CallsFor, SomeTaskFailed;
    assert (events + [e])[..|events|] == events;
  }

  lemma {:induction false} RunWaited(recovers: bool, events: seq<Event>)
    requires Run(EMPTY, recovers, events).Some?
    ensures Waited(Run(EMPTY, recovers, events).value, recovers, events)
  {
    hide Waited, Inv, Enabled, Apply;
    if events == [] {
      NothingWaited(EMPTY, recovers, events);
    } else {
      var before, e := events[..|events| - 1], events[|events| - 1];
      RunWaited(recovers, before);
      RunKeepsInv(recovers, before);
      StepWaited(Run(EMPTY, recovers, before).value, recovers, before, e);
      assert before + [e] == events;
    }
  }

  lemma NothingWaited(s: State, recovers: bool, events: seq<Event>)
    requires s == EMPTY && events == []
    ensures Waited(s, recovers, events)
  {}

  /** Runtimes are closed only after every task there was when the openings had settled has ended; and
      once `close` has settled, every listed runtime has answered, and the reported errors are exactly
      those that failed. */
  lemma CloseWaits(recovers: bool, events: seq<Event>)
    requires Run(EMPTY, recovers, events).Some?
    ensures var s := Run(EMPTY, recovers, events).value;
      && (s.closing.AwaitRuntimes? || s.closing.Closed? ==> forall t :: t in TasksThen(recovers, events) ==>
          Ended(events, t))
      && (s.closing.Closed? ==>
            && (forall id :: id in s.instances ==> Closes(events, id))
            && (forall id :: id in s.closing.errors <==> EndClose(id, false) in events))
  {
    RunWaited(recovers, events);
    hide Run;
  }

  /** The running tasks are exactly those that were begun and have not ended; a recovery is begun for
      every runtime opened before the pool was aborted, if there is a recovery function, and for no other. */
  lemma TasksAre(recovers: bool, events: seq<Event>, t: nat)
    requires Run(EMPTY, recovers, events).Some?
    ensures t in Run(EMPTY, recovers, events).value.tasks <==> t < TasksBegun(recovers, events) && !Ended(events, t)
  {
    RunWaited(recovers, events);
    RunKeepsInv(recovers, events);
    hide Run, ClosesWaited, AbortKnown, FlightsOk, InstancesOk, ClosingOk;
  }

  /** The pool is aborted exactly when `close` was called or a task has failed. */
  lemma AbortedIff(recovers: bool, events: seq<Event>)
    requires Run(EMPTY, recovers, events).Some?
    ensures Run(EMPTY, recovers, events).value.aborted <==> CallClose in events || SomeTaskFailed(events)
  {
    RunWaited(recovers, events);
    hide Run, TasksWaited, ClosesWaited;
  }

  // ---------------------------------------------------------------- `close` can always settle

  /** The openings, tasks and runtimes answer one by one, all of them with a success or all with a failure. */
  predicate Answers(e: Event, ok: bool) {
    match e
    case Start(_) => true
    case Succeed(_, _) => ok
    case Fail(_) => !ok
    case Forget(_) => true
    case EndTask(_, ended) => ended == ok
    case EndClose(_, closed) => closed == ok
    case OpeningsSettled => true
    case TasksSettled => true
    case RuntimesSettled => true
    case _ => false
  }

  /** Steps an opening has left, an answer counted twice since it may list a runtime to be closed. */
  function StagesLeft(stage: Stage): nat {
    match stage
    case Scheduled => 4
    case Running => 3
    case Answered(_) => 1
    case Settled(_) => 0
  }

  function OpeningsLeft(openings: seq<Opening>): nat {
    if openings == [] then 0
    else OpeningsLeft(openings[..|openings| - 1]) + StagesLeft(openings[|openings| - 1].stage)
  }

  function CloseLeft(s: State): nat {
    match s.closing
    case Open => |s.instances| + 4
    case AwaitOpenings(_) => |s.instances| + 3
    case AwaitTasks(_) => |s.instances| + 2
    case AwaitRuntimes(ids, _) => |ids| + 1
    case Closed(_) => 0
  }

  function Distance(s: State): nat { OpeningsLeft(s.openings) + |s.tasks| + CloseLeft(s) }

  lemma {:induction false} StageLeft(openings: seq<Opening>, k: nat, stage: Stage)
    requires k < |openings|
    ensures OpeningsLeft(openings[k := openings[k].(stage := stage)]) ==
      OpeningsLeft(openings) - StagesLeft(openings[k].stage) + StagesLeft(stage)
  {
    var more := openings[k := openings[k].(stage := stage)];
    if k < |openings| - 1 {
      StageLeft(openings[..|openings| - 1], k, stage);
      assert more[..|openings| - 1] == openings[..|openings| - 1][k := openings[k].(stage := stage)];
    } else {
      assert more[..|openings| - 1] == openings[..|openings| - 1];
    }
  }

  lemma OneMore(m: map<string, nat>, id: string, runtime: nat)
    ensures |m[id := runtime]| <= |m| + 1
  {
    assert m[id := runtime].Keys == m.Keys + {id};
    assert |m.Keys + {id}| <= |m.Keys| + 1;
  }

  lemma OpeningAdvances(s: State, recovers: bool, ok: bool, k: nat, runtime: nat) returns (e: Event)
    requires Inv(s) && s.closing.AwaitOpenings? && k < |s.openings| && !s.openings[k].stage.Settled?
    ensures Enabled(s, e) && Answers(e, ok) && Distance(Apply(s, recovers, e)) < Distance(s)
  {
    hide FlightsOk, InstancesOk, OpeningsLeft, CallsFor;
    match s.openings[k].stage
    case Scheduled =>
      e := Start(k);
      StageLeft(s.openings, k, Running);
    case Running =>
      e := if ok then Succeed(k, runtime) else Fail(k);
      StageLeft(s.openings, k, Answered(if ok then Some(runtime) else None));
      OneMore(s.instances, s.openings[k].id, runtime);
    case Answered(answer) =>
      e := Forget(k);
      StageLeft(s.openings, k, Settled(answer));
  }

  lemma TasksAdvance(s: State, recovers: bool, ok: bool) returns (e: Event)
    requires s.closing.AwaitTasks?
    ensures Enabled(s, e) && Answers(e, ok) && Distance(Apply(s, recovers, e)) < Distance(s)
  {
    hide OpeningsLeft, CallsFor;
    if t :| t in s.closing.tasks && t in s.tasks {
      e := EndTask(t, ok);
    } else {
      e := TasksSettled;
      assert |s.instances.Keys| == |s.instances|;
    }
  }

  lemma RuntimesAdvance(s: State, recovers: bool, ok: bool) returns (e: Event)
    requires s.closing.AwaitRuntimes?
    ensures Enabled(s, e) && Answers(e, ok) && Distance(Apply(s, recovers, e)) < Distance(s)
  {
    hide OpeningsLeft, CallsFor, At;
    if s.closing.ids == {} {
      e := RuntimesSettled;
    } else {
      var id :| id in s.closing.ids;
      e := EndClose(id, ok);
    }
  }

  lemma CloseAdvances(s: State, recovers: bool, ok: bool, runtime: nat) returns (e: Event)
    requires Inv(s) && !s.closing.Open? && !s.closing.Closed?
    ensures Enabled(s, e) && Answers(e, ok) && Distance(Apply(s, recovers, e)) < Distance(s)
  {
    hide FlightsOk, InstancesOk, OpeningsLeft, CallsFor, Answers;
    match s.closing
    case AwaitOpenings(openings) =>
      if k :| k in openings && !s.openings[k].stage.Settled? {
        hide Enabled, Apply, Distance;
        e := OpeningAdvances(s, recovers, ok, k, runtime);
      } else {
        e := OpeningsSettled;
        assert Answers(e, ok) by { OthersAnswer(ok); }
      }
    case AwaitTasks(tasks) =>
      hide Enabled, Apply, Distance;
      e := TasksAdvance(s, recovers, ok);
    case AwaitRuntimes(ids, _) =>
      hide Enabled, Apply, Distance;
      e := RuntimesAdvance(s, recovers, ok);
  }

  lemma OthersAnswer(ok: bool)
    ensures Answers(OpeningsSettled, ok)
  {}

  /** Once called, `close` can settle from wherever it stands, without new calls: whether the openings,
      the tasks and the runtimes it waits for succeed or fail, nothing it waits for waits for it. */
  lemma {:induction false} CloseCanSettle(recovers: bool, events: seq<Event>, ok: bool, runtime: nat)
    returns (more: seq<Event>)
    requires Run(EMPTY, recovers, events).Some? && !Run(EMPTY, recovers, events).value.closing.Open?
    ensures Run(EMPTY, recovers, events + more).Some? && Run(EMPTY, recovers, events + more).value.closing.Closed?
    ensures forall e :: e in more ==> Answers(e, ok)
  {
    hide Inv, Enabled, Apply, Distance, Answers;
    RunKeepsInv(recovers, events);
    more := [];
    var t := Run(EMPTY, recovers, events).value;
    assert events + more == events;
    while !t.closing.Closed?
      invariant Run(EMPTY, recovers, events + more) == Some(t) && Inv(t) && !t.closing.Open?
      invariant forall e :: e in more ==> Answers(e, ok)
      decreases Distance(t)
    {
      var e := CloseAdvances(t, recovers, ok, runtime);
      RunOne(StepOf(recovers), EMPTY, events + more, e);
      StepKeepsInv(t, recovers, e);
      StaysCalled(t, recovers, e);
      assert events + more + [e] == events + (more + [e]);
      more, t := more + [e], Apply(t, recovers, e);
    }
  }

  lemma StaysCalled(s: State, recovers: bool, e: Event)
    requires Enabled(s, e) && !s.closing.Open?
    ensures !Apply(s, recovers, e).closing.Open?
  {}

  // ---------------------------------------------------------------- the pool

  /** The pool's fields, and one method for each stretch of code that runs without giving up control. */
  class Pool {
    const recovers: bool
    var openings: seq<Opening>
    var instances: map<string, nat>
    ghost var winners: map<string, nat>
    var opening: map<string, nat>
    var tasks: set<nat>
    var nextTask: nat
    var aborted: bool
    var closing: Closing
    ghost var closeCalls: multiset<nat>
    ghost var history: seq<Event>

    ghost function View(): State
      reads this
    {
      State(openings, instances, winners, opening, tasks, nextTask, aborted, closing, closeCalls)
    }

    ghost predicate Valid()
      reads this
    {
      Run(EMPTY, recovers, history) == Some(View())
    }

    constructor (recovers: bool)
      ensures Valid() && View() == EMPTY && this.recovers == recovers
    {
      this.recovers := recovers;
      openings, instances, winners, opening, tasks, nextTask := [], map[], map[], map[], {}, 0;
      aborted, closing, closeCalls, history := false, Closing.Open, multiset{}, [];
    }

    /** `open`: throws after an abort; otherwise the runtime, the pending opening, or a new one. */
    method CallOpen(id: string) returns (answer: Answer)
      requires Valid()
      modifies this
      ensures Valid() && history == old(history) + [Event.CallOpen(id)]
      ensures answer == AnswerOf(old(View()), id)
      ensures aborted == old(aborted) && instances == old(instances) && closing == old(closing)
    {
      hide Run;
      RunStep(recovers, history, View(), Event.CallOpen(id));
      history := history + [Event.CallOpen(id)];
      if aborted { return Throws; }
      if id in instances { return Current(instances[id]); }
      if id in opening { return Pending(opening[id]); }
      answer := Pending(|openings|);
      opening := opening[id := |openings|];
      openings := openings + [Opening(id, Scheduled)];
    }

    /** The opener is called. */
    method StartOpening(k: nat)
      requires Valid() && At(View(), k, Scheduled)
      modifies this
      ensures Valid() && history == old(history) + [Start(k)]
    {
      hide Run;
      RunStep(recovers, history, View(), Start(k));
      history := history + [Start(k)];
      openings := openings[k := openings[k].(stage := Running)];
    }

    /** The opener has answered with a runtime: it is listed, and its recovery is tracked. */
    method Opened(k: nat, runtime: nat)
      requires Valid() && At(View(), k, Running)
      modifies this
      ensures Valid() && history == old(history) + [Succeed(k, runtime)]
      ensures instances == old(instances)[old(openings[k]).id := runtime]
      ensures tasks == old(tasks) + (if !old(aborted) && recovers then {old(nextTask)} else {})
    {
      hide Run;
      RunStep(recovers, history, View(), Succeed(k, runtime));
      history := history + [Succeed(k, runtime)];
      instances := instances[openings[k].id := runtime];
      winners := winners[openings[k].id := k];
      openings := openings[k := openings[k].(stage := Answered(Some(runtime)))];
      if !aborted && recovers { tasks, nextTask := tasks + {nextTask}, nextTask + 1; }
    }

    method OpenFailed(k: nat)
      requires Valid() && At(View(), k, Running)
      modifies this
      ensures Valid() && history == old(history) + [Fail(k)] && instances == old(instances)
    {
      hide Run;
      RunStep(recovers, history, View(), Fail(k));
      history := history + [Fail(k)];
      openings := openings[k := openings[k].(stage := Answered(None))];
    }

    /** `finally`: the opening is unlisted and its promise settles. */
    method ForgetOpening(k: nat)
      requires Valid() && k < |openings| && openings[k].stage.Answered?
      modifies this
      ensures Valid() && history == old(history) + [Forget(k)]
      ensures opening == old(opening) - {old(openings[k]).id}
    {
      hide Run;
      RunStep(recovers, history, View(), Forget(k));
      history := history + [Forget(k)];
      opening := opening - {openings[k].id};
      openings := openings[k := openings[k].(stage := Settled(openings[k].stage.runtime))];
    }

    /** `track`. */
    method AddTask() returns (task: nat)
      requires Valid()
      modifies this
      ensures Valid() && history == old(history) + [Track] && task in tasks
    {
      hide Run;
      RunStep(recovers, history, View(), Track);
      history := history + [Track];
      task := nextTask;
      tasks, nextTask := tasks + {nextTask}, nextTask + 1;
    }

    /** A task that fails aborts the pool. */
    method TaskEnded(task: nat, ok: bool)
      requires Valid() && task in tasks
      modifies this
      ensures Valid() && history == old(history) + [EndTask(task, ok)]
      ensures aborted == (old(aborted) || !ok) && task !in tasks
    {
      hide Run;
      RunStep(recovers, history, View(), EndTask(task, ok));
      history := history + [EndTask(task, ok)];
      if !ok { aborted := true; }
      tasks := tasks - {task};
    }

    /** `close`, up to its first wait; later calls join the first. */
    method CallClose()
      requires Valid()
      modifies this
      ensures Valid() && history == old(history) + [Event.CallClose] && !closing.Open?
      ensures closing == if old(closing).Open? then AwaitOpenings(opening.Values) else old(closing)
    {
      hide Run;
      RunStep(recovers, history, View(), Event.CallClose);
      history := history + [Event.CallClose];
      ClosingAborted(recovers, old(history), old(View()));
      if closing.Open? {
        aborted := true;
        closing := AwaitOpenings(opening.Values);
      }
    }

    /** The rest of `close`, one wait at a time. It calls every runtime's `close` once the openings and
        then the tasks have settled. */
    method ContinueClose()
      requires Valid() && CloseStep(View()).Some?
      modifies this
      ensures Valid() && history == old(history) + [CloseStep(old(View())).value]
      ensures old(closing).AwaitOpenings? ==>
        forall k :: k in old(closing).openings ==> k < |old(openings)| && old(openings)[k].stage.Settled?
      ensures old(closing).AwaitTasks? ==> old(closing).tasks !! old(tasks)
      ensures old(closing).AwaitRuntimes? ==> old(closing).ids == {}
      ensures closing == (match old(closing)
        case AwaitOpenings(_) => AwaitTasks(tasks)
        case AwaitTasks(_) => AwaitRuntimes(instances.Keys, {})
        case AwaitRuntimes(_, errors) => Closed(errors)
        case _ => old(closing))
    {
      hide Run, CallsFor;
      RunStep(recovers, history, View(), CloseStep(View()).value);
      history := history + [CloseStep(View()).value];
      match closing
      case AwaitOpenings(_) =>
        closing := AwaitTasks(tasks);
      case AwaitTasks(_) =>
        CloseAll();
        closing := AwaitRuntimes(instances.Keys, {});
      case AwaitRuntimes(_, errors) =>
        closing := Closed(errors);
    }

    /** Calls `close` on the runtime of every listed id. */
    method CloseAll()
      modifies this`closeCalls
      ensures closeCalls == old(closeCalls) + CallsFor(instances.Keys, instances)
    {
      var rest := instances.Keys;
      ghost var done: multiset<nat> := multiset{};
      while rest != {}
        invariant rest <= instances.Keys && closeCalls == old(closeCalls) + done
        invariant forall r :: done[r] == |Holders(instances.Keys - rest, instances, r)|
        decreases rest
      {
        var id :| id in rest;
        OneMoreCall(instances, rest, id, done);
        closeCalls := closeCalls + multiset{instances[id]};
        done, rest := done + multiset{instances[id]}, rest - {id};
      }
      forall r ensures done[r] == CallsFor(instances.Keys, instances)[r] {
        CallsCount(instances.Keys, instances, r);
        assert instances.Keys - rest == instances.Keys;
      }
      assert done == CallsFor(instances.Keys, instances);
    }

    method RuntimeClosed(id: string, ok: bool)
      requires Valid() && closing.AwaitRuntimes? && id in closing.ids
      modifies this
      ensures Valid() && history == old(history) + [EndClose(id, ok)]
      ensures closing == AwaitRuntimes(old(closing.ids) - {id}, old(closing.errors) + if ok then {} else {id})
    {
      hide Run;
      RunStep(recovers, history, View(), EndClose(id, ok));
      history := history + [EndClose(id, ok)];
      closing := AwaitRuntimes(closing.ids - {id}, closing.errors + if ok then {} else {id});
    }
  }

  lemma OneMoreCall(instances: map<string, nat>, rest: set<string>, id: string, done: multiset<nat>)
    requires id in rest && rest <= instances.Keys
    requires forall r :: done[r] == |Holders(instances.Keys - rest, instances, r)|
    ensures forall r :: (done + multiset{instances[id]})[r] == |Holders(instances.Keys - (rest - {id}), instances, r)|
  {
    forall r ensures (done + multiset{instances[id]})[r] == |Holders(instances.Keys - (rest - {id}), instances, r)| {
      HoldersWithout(instances.Keys - (rest - {id}), instances, r, id);
      assert instances.Keys - (rest - {id}) - {id} == instances.Keys - rest;
    }
  }

  /** The step `close` can take next, once what it waits for has settled. */
  function CloseStep(s: State): Option<Event> {
    if Enabled(s, OpeningsSettled) then Some(OpeningsSettled)
    else if Enabled(s, TasksSettled) then Some(TasksSettled)
    else if Enabled(s, RuntimesSettled) then Some(RuntimesSettled)
    else None
  }

  lemma RunStep(recovers: bool, history: seq<Event>, s: State, e: Event)
    requires Run(EMPTY, recovers, history) == Some(s) && Enabled(s, e)
    ensures Run(EMPTY, recovers, history + [e]) == Some(Apply(s, recovers, e))
  {
    RunOne(StepOf(recovers), EMPTY, history, e);
  }

  lemma ClosingAborted(recovers: bool, history: seq<Event>, s: State)
    requires Run(EMPTY, recovers, history) == Some(s)
    ensures !s.closing.Open? ==> s.aborted
  {
    RunKeepsInv(recovers, history);
  }
}
