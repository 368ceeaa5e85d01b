/** Starting and stopping subgraphs: the shared assignments, the deployment gauge, the spawned
    start tasks of `SubgraphProvider` and the managers they call, as interleaved steps. */
module SubgraphProvider {
  import opened Types

  datatype Loc = Loc(id: int)
  datatype Kind = Trigger | Amp
  datatype Assignment = Assignment(handle: nat, kind: Option<Kind>)

  type Assignments = map<Loc, Assignment>

  // Requests by how far they have come: a start has checked, then counted itself, then
  // spawned its task; a stop has taken the assignment, then aborted and uncounted.
  datatype Flow = Flow(checked: map<nat, Loc>, counted: map<nat, Loc>, spawned: map<nat, (Loc, nat)>,
                       taken: map<nat, (Loc, Assignment)>, stopping: map<nat, (Loc, Option<Kind>)>)
  {
    predicate Free(id: nat) {
      id !in checked && id !in counted && id !in spawned && id !in taken && id !in stopping
    }
  }

  // A start task waits for the manifest; once it has it, it records the kind and hands the
  // subgraph to its manager without waiting again.
  datatype Task = Loading(loc: Loc) | Loaded(loc: Loc) | Starting(loc: Loc)

  datatype Work = Work(tasks: map<nat, Task>,
                       launching: map<nat, Loc>,   // handed to the trigger manager, not yet running
                       running: set<Loc>,
                       used: set<nat>)             // history: task handles

  datatype State = State(entries: Assignments, gauge: int,
                         overwritten: nat,         // history: assignments replaced by `add`
                         flow: Flow, work: Work)

  datatype Step =
    | StartCheck(id: nat, loc: Loc)
    | StartCount(id: nat)
    | StartSpawn(id: nat, handle: nat)
    | StartAdd(id: nat)
    | TaskLoad(handle: nat)
    | TaskSetKind(handle: nat)
    | TaskStart(handle: nat)
    | TaskFail(handle: nat)                        // no manifest, or cancelled
    | Launch(handle: nat)
    | LaunchFail(handle: nat)
    | StopTake(id: nat, loc: Loc)
    | StopCount(id: nat)
    | StopForward(id: nat)

  // ---------- steps ----------

  predicate FlowEnabled(f: Flow, step: Step) {
    match step
    case StartCheck(id, _) => f.Free(id)
    case StartCount(id) => id in f.checked
    case StartSpawn(id, _) => id in f.counted
    case StartAdd(id) => id in f.spawned
    case StopTake(id, _) => f.Free(id)
    case StopCount(id) => id in f.taken
    case StopForward(id) => id in f.stopping
    case _ => true
  }

  predicate WorkEnabled(w: Work, step: Step) {
    match step
    case StartSpawn(_, h) => h !in w.used && h !in w.tasks && h !in w.launching
    case TaskLoad(h) => h in w.tasks && w.tasks[h].Loading?
    case TaskSetKind(h) => h in w.tasks && w.tasks[h].Loaded?
    case TaskStart(h) => h in w.tasks && w.tasks[h].Starting? && h !in w.launching
    case TaskFail(h) => h in w.tasks && w.tasks[h].Loading?
    case Launch(h) => h in w.launching
    case LaunchFail(h) => h in w.launching
    case _ => true
  }

  predicate Enabled(s: State, step: Step) {
    FlowEnabled(s.flow, step) && WorkEnabled(s.work, step)
  }

  function NextFlow(f: Flow, entries: Assignments, step: Step): Flow
    requires FlowEnabled(f, step)
  {
    match step
    case StartCheck(id, loc) => if loc in entries then f else f.(checked := f.checked[id := loc])
    case StartCount(id) => f.(checked := f.checked - {id}, counted := f.counted[id := f.checked[id]])
    case StartSpawn(id, h) => f.(counted := f.counted - {id}, spawned := f.spawned[id := (f.counted[id], h)])
    case StartAdd(id) => f.(spawned := f.spawned - {id})
    case StopTake(id, loc) => if loc in entries then f.(taken := f.taken[id := (loc, entries[loc])]) else f
    case StopCount(id) =>
      f.(taken := f.taken - {id}, stopping := f.stopping[id := (f.taken[id].0, f.taken[id].1.kind)])
    case StopForward(id) => f.(stopping := f.stopping - {id})
    case _ => f
  }

  /** `set_subgraph_kind`: nothing happens if the locator is not assigned. */
  function WithKind(m: Assignments, loc: Loc, kind: Kind): Assignments {
    if loc in m then m[loc := m[loc].(kind := Some(kind))] else m
  }

  // `kindOf` is the processing kind that the locator's manifest has.
  function NextEntries(s: State, step: Step, kindOf: Loc -> Kind): Assignments
    requires Enabled(s, step)
  {
    match step
    case StartAdd(id) => s.entries[s.flow.spawned[id].0 := Assignment(s.flow.spawned[id].1, None)]
    case TaskSetKind(h) => WithKind(s.entries, s.work.tasks[h].loc, kindOf(s.work.tasks[h].loc))
    case StopTake(_, loc) => s.entries - {loc}
    case _ => s.entries
  }

  /** `abort` only reaches a task that waits: one that is past loading runs to its end. */
  function Abort(tasks: map<nat, Task>, h: nat): map<nat, Task> {
    if h in tasks && tasks[h].Loading? then tasks - {h} else tasks
  }

  /** The managers: the trigger manager starts a subgraph in a task of its own, the Amp manager
      takes its commands in order; a stop ends what runs by then. */
  function NextWork(w: Work, f: Flow, step: Step, kindOf: Loc -> Kind, managers: set<Kind>): Work
    requires FlowEnabled(f, step) && WorkEnabled(w, step)
  {
    match step
    case StartSpawn(id, h) => w.(tasks := w.tasks[h := Loading(f.counted[id])], used := w.used + {h})
    case TaskLoad(h) => w.(tasks := w.tasks[h := Loaded(w.tasks[h].loc)])
    case TaskSetKind(h) => w.(tasks := w.tasks[h := Starting(w.tasks[h].loc)])
    case TaskStart(h) =>
      var loc := w.tasks[h].loc;
      if kindOf(loc) !in managers then w.(tasks := w.tasks - {h})
      else if kindOf(loc).Trigger? then w.(tasks := w.tasks - {h}, launching := w.launching[h := loc])
      else w.(tasks := w.tasks - {h}, running := w.running + {loc})
    case TaskFail(h) => w.(tasks := w.tasks - {h})
    case Launch(h) => w.(running := w.running + {w.launching[h]}, launching := w.launching - {h})
    case LaunchFail(h) => w.(launching := w.launching - {h})
    case StopCount(id) => w.(tasks := Abort(w.tasks, f.taken[id].1.handle))
    case StopForward(id) =>
      var (loc, kind) := f.stopping[id];
      if kind.Some? && kind.value in managers then w.(running := w.running - {loc}) else w
    case _ => w
  }

  function Apply(s: State, step: Step, kindOf: Loc -> Kind, managers: set<Kind>): State
    requires Enabled(s, step)
  {
    State(NextEntries(s, step, kindOf),
          s.gauge + (if step.StartCount? then 1 else if step.StopCount? then -1 else 0),
          s.overwritten + (if step.StartAdd? && s.flow.spawned[step.id].0 in s.entries then 1 else 0),
          NextFlow(s.flow, s.entries, step),
          NextWork(s.work, s.flow, step, kindOf, managers))
  }

  const NO_REQUESTS := Flow(map[], map[], map[], map[], map[])
  const NO_WORK := Work(map[], map[], {}, {})
  const EMPTY := State(map[], 0, 0, NO_REQUESTS, NO_WORK)

  // ---------- runs ----------

  ghost predicate IsRun(s: State, steps: seq<Step>, kindOf: Loc -> Kind, managers: set<Kind>)
    decreases steps
  {
    steps == [] || (Enabled(s, steps[0]) && IsRun(Apply(s, steps[0], kindOf, managers), steps[1..], kindOf, managers))
  }

  ghost function Final(s: State, steps: seq<Step>, kindOf: Loc -> Kind, managers: set<Kind>): State
    requires IsRun(s, steps, kindOf, managers)
    decreases steps
  {
    if steps == [] then s else Final(Apply(s, steps[0], kindOf, managers), steps[1..], kindOf, managers)
  }

  predicate AtRest(s: State) {
    s.flow == NO_REQUESTS
  }

  // ---------- the gauge ----------

  lemma RemoveCard<K, V>(m: map<K, V>, k: K)
    ensures |m - {k}| == |m| - if k in m then 1 else 0
  {
    assert (m - {k}).Keys == m.Keys - {k};
    assert |m - {k}| == |(m - {k}).Keys| && |m| == |m.Keys|;
  }

  lemma InsertCard<K, V>(m: map<K, V>, k: K, v: V)
    ensures |m[k := v]| == |m| + if k in m then 0 else 1
  {
  }

  /** Requests between counting and adding or between taking and uncounting. */
  function Counted(f: Flow): nat {
    |f.counted| + |f.spawned| + |f.taken|
  }

  /** Conservation: assignments, counted requests, and assignments that were overwritten account
      for the gauge. */
  ghost predicate Balanced(s: State) {
    s.gauge == |s.entries| + Counted(s.flow) + s.overwritten
  }

  ghost predicate Separate(f: Flow) {
    f.checked.Keys !! f.counted.Keys !! f.spawned.Keys !! f.taken.Keys !! f.stopping.Keys
  }

  lemma StepKeepsSeparate(f: Flow, entries: Assignments, step: Step)
    requires Separate(f) && FlowEnabled(f, step)
    ensures Separate(NextFlow(f, entries, step))
  {
  }

  lemma FlowBalance(f: Flow, entries: Assignments, step: Step)
    requires Separate(f) && FlowEnabled(f, step)
    ensures Counted(NextFlow(f, entries, step)) == Counted(f) + Change(entries, step)
  {
    match step {
      case StartCount(id) => InsertCard(f.counted, id, f.checked[id]);
      case StartSpawn(id, h) => SpawnBalance(f, entries, id, h);
      case StartAdd(id) => RemoveCard(f.spawned, id);
      case StopTake(id, loc) => TakeBalance(f, entries, id, loc);
      case StopCount(id) => RemoveCard(f.taken, id);
      case _ =>
    }
  }

  function Change(entries: Assignments, step: Step): int {
    match step
    case StartCount(_) => 1
    case StopTake(_, loc) => if loc in entries then 1 else 0
    case StartAdd(_) => -1
    case StopCount(_) => -1
    case _ => 0
  }

  lemma SpawnBalance(f: Flow, entries: Assignments, id: nat, h: nat)
    requires Separate(f) && id in f.counted
    ensures Counted(NextFlow(f, entries, StartSpawn(id, h))) == Counted(f)
  {
    RemoveCard(f.counted, id);
    InsertCard(f.spawned, id, (f.counted[id], h));
  }

  lemma TakeBalance(f: Flow, entries: Assignments, id: nat, loc: Loc)
    requires f.Free(id)
    ensures Counted(NextFlow(f, entries, StopTake(id, loc))) == Counted(f) + Change(entries, StopTake(id, loc))
  {
    if loc in entries {
      InsertCard(f.taken, id, (loc, entries[loc]));
    }
  }

  lemma EntriesBalance(s: State, step: Step, kindOf: Loc -> Kind)
    requires Enabled(s, step)
    ensures |NextEntries(s, step, kindOf)| == |s.entries| +
              (if step.StartAdd? && s.flow.spawned[step.id].0 !in s.entries then 1
               else if step.StopTake? && step.loc in s.entries then -1 else 0)
  {
    match step {
      case StartAdd(id) =>
        InsertCard(s.entries, s.flow.spawned[id].0, Assignment(s.flow.spawned[id].1, None));
      case TaskSetKind(h) =>
        var loc := s.work.tasks[h].loc;
        if loc in s.entries {
          InsertCard(s.entries, loc, s.entries[loc].(kind := Some(kindOf(loc))));
        }
      case StopTake(_, loc) => RemoveCard(s.entries, loc);
      case _ =>
    }
  }

  lemma StepKeepsBalance(s: State, step: Step, kindOf: Loc -> Kind, managers: set<Kind>)
    requires Balanced(s) && Separate(s.flow) && Enabled(s, step)
    ensures Balanced(Apply(s, step, kindOf, managers))
  {
    FlowBalance(s.flow, s.entries, step);
    EntriesBalance(s, step, kindOf);
  }

  /** A recorded kind is that of the locator's own manifest. */
  ghost predicate KindsRight(s: State, kindOf: Loc -> Kind) {
    && (forall l :: l in s.entries && s.entries[l].kind.Some? ==> s.entries[l].kind.value == kindOf(l))
    && (forall i :: i in s.flow.taken && s.flow.taken[i].1.kind.Some? ==>
          s.flow.taken[i].1.kind.value == kindOf(s.flow.taken[i].0))
    && (forall i :: i in s.flow.stopping && s.flow.stopping[i].1.Some? ==>
          s.flow.stopping[i].1.value == kindOf(s.flow.stopping[i].0))
  }

  lemma StepKeepsKinds(s: State, step: Step, kindOf: Loc -> Kind, managers: set<Kind>)
    requires KindsRight(s, kindOf) && Enabled(s, step)
    ensures KindsRight(Apply(s, step, kindOf, managers), kindOf)
  {
  }

  /** What holds of every state of every run. */
  ghost predicate Valid(s: State, kindOf: Loc -> Kind, managers: set<Kind>) {
    Balanced(s) && Separate(s.flow) && KindsRight(s, kindOf) && Hosted(s.work, kindOf, managers)
  }

  /** Only subgraphs whose manager is enabled run. */
  ghost predicate Hosted(w: Work, kindOf: Loc -> Kind, managers: set<Kind>) {
    && (forall loc :: loc in w.running ==> kindOf(loc) in managers)
    && (forall h :: h in w.launching ==> kindOf(w.launching[h]) in managers)
  }

  lemma StepKeepsHosted(w: Work, f: Flow, step: Step, kindOf: Loc -> Kind, managers: set<Kind>)
    requires Hosted(w, kindOf, managers) && FlowEnabled(f, step) && WorkEnabled(w, step)
    ensures Hosted(NextWork(w, f, step, kindOf, managers), kindOf, managers)
  {
  }

  lemma StepKeepsValid(s: State, step: Step, kindOf: Loc -> Kind, managers: set<Kind>)
    requires Valid(s, kindOf, managers) && Enabled(s, step)
    ensures Valid(Apply(s, step, kindOf, managers), kindOf, managers)
  {
    StepKeepsSeparate(s.flow, s.entries, step);
    StepKeepsBalance(s, step, kindOf, managers);
    StepKeepsKinds(s, step, kindOf, managers);
    StepKeepsHosted(s.work, s.flow, step, kindOf, managers);
  }

  lemma {:induction false} RunKeepsValid(s: State, steps: seq<Step>, kindOf: Loc -> Kind, managers: set<Kind>)
    requires Valid(s, kindOf, managers) && IsRun(s, steps, kindOf, managers)
    ensures Valid(Final(s, steps, kindOf, managers), kindOf, managers)
    decreases steps
  {
    if steps != [] {
      StepKeepsValid(s, steps[0], kindOf, managers);
      RunKeepsValid(Apply(s, steps[0], kindOf, managers), steps[1..], kindOf, managers);
    }
  }

  /** In every interleaving of requests and tasks the gauge is conserved and kinds are right; at
      rest it is the number of assignments if and only if none was ever overwritten. */
  lemma GaugeConserved(steps: seq<Step>, kindOf: Loc -> Kind, managers: set<Kind>)
    requires IsRun(EMPTY, steps, kindOf, managers)
    ensures var t := Final(EMPTY, steps, kindOf, managers);
            && Balanced(t) && KindsRight(t, kindOf)
            && (AtRest(t) ==> (t.gauge == |t.entries| <==> t.overwritten == 0))
  {
    assert Valid(EMPTY, kindOf, managers);
    RunKeepsValid(EMPTY, steps, kindOf, managers);
  }

  // ---------- serialised requests ----------

  /** Request `i` is in flight for `loc`. */
  predicate Holds(f: Flow, i: nat, loc: Loc) {
    || (i in f.checked && f.checked[i] == loc)
    || (i in f.counted && f.counted[i] == loc)
    || (i in f.spawned && f.spawned[i].0 == loc)
    || (i in f.taken && f.taken[i].0 == loc)
    || (i in f.stopping && f.stopping[i].0 == loc)
  }

  /** A request for a locator begins only when none is in flight for it. */
  ghost predicate Serialised(f: Flow, step: Step) {
    step.StartCheck? || step.StopTake? ==> forall i :: !Holds(f, i, step.loc)
  }

  ghost predicate Exclusive(s: State) {
    && (forall i, j, loc :: Holds(s.flow, i, loc) && Holds(s.flow, j, loc) ==> i == j)
    && (forall i, loc :: Holds(s.flow, i, loc) ==> loc !in s.entries)
    && s.overwritten == 0
  }

  /** Requests in flight after a step were in flight before it or begin with it. */
  lemma HoldsAfter(f: Flow, entries: Assignments, step: Step, i: nat, loc: Loc)
    requires Separate(f) && FlowEnabled(f, step) && Holds(NextFlow(f, entries, step), i, loc)
    ensures Holds(f, i, loc) || ((step.StartCheck? || step.StopTake?) && step.id == i && step.loc == loc)
    ensures step.StartAdd? ==> step.id != i
    ensures step.StartCheck? && step.id == i && step.loc == loc ==> loc !in entries
  {
  }

  lemma StepKeepsExclusive(s: State, step: Step, kindOf: Loc -> Kind, managers: set<Kind>)
    requires Separate(s.flow) && Exclusive(s) && Enabled(s, step) && Serialised(s.flow, step)
    ensures Exclusive(Apply(s, step, kindOf, managers))
  {
    var t := Apply(s, step, kindOf, managers);
    if step.StartAdd? {
      assert Holds(s.flow, step.id, s.flow.spawned[step.id].0);
    }
    forall i, j, loc | Holds(t.flow, i, loc) && Holds(t.flow, j, loc)
      ensures i == j
    {
      HoldsAfter(s.flow, s.entries, step, i, loc);
      HoldsAfter(s.flow, s.entries, step, j, loc);
    }
    forall i, loc | Holds(t.flow, i, loc)
      ensures loc !in t.entries
    {
      HoldsAfter(s.flow, s.entries, step, i, loc);
    }
  }

  ghost predicate AllSerialised(s: State, steps: seq<Step>, kindOf: Loc -> Kind, managers: set<Kind>)
    requires IsRun(s, steps, kindOf, managers)
    decreases steps
  {
    steps == [] ||
    (&& Serialised(s.flow, steps[0])
     && AllSerialised(Apply(s, steps[0], kindOf, managers), steps[1..], kindOf, managers))
  }

  lemma {:induction false} SerialisedStays(s: State, steps: seq<Step>, kindOf: Loc -> Kind, managers: set<Kind>)
    requires Separate(s.flow) && Exclusive(s)
    requires IsRun(s, steps, kindOf, managers) && AllSerialised(s, steps, kindOf, managers)
    ensures Exclusive(Final(s, steps, kindOf, managers))
    decreases steps
  {
    if steps != [] {
      StepKeepsSeparate(s.flow, s.entries, steps[0]);
      StepKeepsExclusive(s, steps[0], kindOf, managers);
      SerialisedStays(Apply(s, steps[0], kindOf, managers), steps[1..], kindOf, managers);
    }
  }

  /** If the requests of each locator are serialised, no assignment is ever overwritten, so at
      rest the gauge is the number of assignments. */
  lemma SerialisedRuns(steps: seq<Step>, kindOf: Loc -> Kind, managers: set<Kind>)
    requires IsRun(EMPTY, steps, kindOf, managers) && AllSerialised(EMPTY, steps, kindOf, managers)
    ensures var t := Final(EMPTY, steps, kindOf, managers);
            t.overwritten == 0 && (AtRest(t) ==> t.gauge == |t.entries|)
  {
    GaugeConserved(steps, kindOf, managers);
    SerialisedStays(EMPTY, steps, kindOf, managers);
  }

  // ---------- does a stop reach every running subgraph? ----------

  /** A start that no request can prevent any more. */
  ghost predicate Pending(w: Work, loc: Loc, kindOf: Loc -> Kind, managers: set<Kind>) {
    || (kindOf(loc) in managers && exists h :: h in w.tasks && w.tasks[h] == Starting(loc))
    || (exists h :: h in w.launching && w.launching[h] == loc)
  }

  ghost predicate Live(w: Work, loc: Loc, kindOf: Loc -> Kind, managers: set<Kind>) {
    loc in w.running || Pending(w, loc, kindOf, managers)
  }

  ghost predicate TakenKnows(f: Flow, loc: Loc) {
    exists i :: i in f.taken && f.taken[i].0 == loc && f.taken[i].1.kind.Some?
  }

  ghost predicate StoppingKnows(f: Flow, loc: Loc, except: Option<nat>) {
    exists i :: i in f.stopping && Some(i) != except && f.stopping[i].0 == loc && f.stopping[i].1.Some?
  }

  /** A stop request that is under way, other than `except`, knows the kind and will forward. */
  ghost predicate StopKnows(f: Flow, loc: Loc, except: Option<nat>) {
    TakenKnows(f, loc) || StoppingKnows(f, loc, except)
  }

  predicate EntryKnows(entries: Assignments, loc: Loc) {
    loc in entries && entries[loc].kind.Some?
  }

  /** If `loc` runs or is bound to, its assignment or a stop under way knows the kind. */
  ghost predicate Reachable(s: State, loc: Loc, kindOf: Loc -> Kind, managers: set<Kind>) {
    Live(s.work, loc, kindOf, managers) ==> EntryKnows(s.entries, loc) || StopKnows(s.flow, loc, None)
  }

  /** The steps by which a subgraph escapes all stop requests: its task records the kind when no
      assignment is there; another start overwrites the assignment; the last stop that knows
      the kind is forwarded while a start is still pending. */
  ghost predicate Escapes(s: State, step: Step, loc: Loc, kindOf: Loc -> Kind, managers: set<Kind>)
    requires Enabled(s, step)
  {
    match step
    case TaskSetKind(h) =>
      s.work.tasks[h].loc == loc && loc !in s.entries && kindOf(loc) in managers && !StopKnows(s.flow, loc, None)
    case StartAdd(id) =>
      s.flow.spawned[id].0 == loc && Live(s.work, loc, kindOf, managers) && !StopKnows(s.flow, loc, None)
    case StopForward(id) =>
      && s.flow.stopping[id].0 == loc && s.flow.stopping[id].1.Some?
      && !EntryKnows(s.entries, loc) && !StopKnows(s.flow, loc, Some(id)) && Pending(s.work, loc, kindOf, managers)
    case _ => false
  }

  /** The steps that end this: a task of a later start records the kind in its assignment, or
      the pending start fails and nothing else of the locator runs or is bound to. */
  ghost predicate Recovers(s: State, step: Step, loc: Loc, kindOf: Loc -> Kind, managers: set<Kind>)
    requires Enabled(s, step)
  {
    match step
    case TaskSetKind(h) => s.work.tasks[h].loc == loc && loc in s.entries
    case LaunchFail(h) =>
      s.work.launching[h] == loc && !Live(NextWork(s.work, s.flow, step, kindOf, managers), loc, kindOf, managers)
    case _ => false
  }

  // ---- how each part of the state changes

  /** Only four steps change what runs or is bound to. */
  lemma LiveAfter(w: Work, f: Flow, step: Step, loc: Loc, kindOf: Loc -> Kind, managers: set<Kind>)
    requires FlowEnabled(f, step) && WorkEnabled(w, step)
    requires !step.TaskSetKind? && !step.LaunchFail? && !step.StopForward?
    ensures Live(NextWork(w, f, step, kindOf, managers), loc, kindOf, managers) <==> Live(w, loc, kindOf, managers)
  {
    var v := NextWork(w, f, step, kindOf, managers);
    TasksAfter(w, f, step, loc, kindOf, managers);
    if step.TaskStart? || step.Launch? {
      HandedOver(w, f, step, loc, kindOf, managers);
    } else {
      assert v.launching == w.launching && v.running == w.running;
    }
  }

  /** A task that is about to start is not affected by anything but its own step. */
  lemma TasksAfter(w: Work, f: Flow, step: Step, loc: Loc, kindOf: Loc -> Kind, managers: set<Kind>)
    requires FlowEnabled(f, step) && WorkEnabled(w, step) && !step.TaskSetKind?
    ensures var v := NextWork(w, f, step, kindOf, managers);
            forall h :: h in v.tasks && v.tasks[h] == Starting(loc) <==>
                        h in w.tasks && w.tasks[h] == Starting(loc) && step != TaskStart(h)
  {
  }

  lemma HandedOver(w: Work, f: Flow, step: Step, loc: Loc, kindOf: Loc -> Kind, managers: set<Kind>)
    requires FlowEnabled(f, step) && WorkEnabled(w, step) && (step.TaskStart? || step.Launch?)
    ensures Live(NextWork(w, f, step, kindOf, managers), loc, kindOf, managers) <==> Live(w, loc, kindOf, managers)
  {
    var v := NextWork(w, f, step, kindOf, managers);
    TasksAfter(w, f, step, loc, kindOf, managers);
    if step.TaskStart? {
      var h := step.handle;
      assert w.tasks[h] == Starting(w.tasks[h].loc);
      assert forall g :: g in w.launching ==> g in v.launching && v.launching[g] == w.launching[g];
      assert forall g :: g in v.launching && g != h ==> g in w.launching && v.launching[g] == w.launching[g];
      if kindOf(w.tasks[h].loc) in managers && kindOf(w.tasks[h].loc).Trigger? {
        assert h in v.launching && v.launching[h] == w.tasks[h].loc;
      }
      forall g | g in w.tasks && w.tasks[g] == Starting(loc) && g != h
        ensures g in v.tasks && v.tasks[g] == Starting(loc)
      {
      }
    } else {
      assert forall g :: g in w.launching && g != step.handle ==> g in v.launching && v.launching[g] == w.launching[g];
      assert forall g :: g in v.launching ==> g in w.launching && v.launching[g] == w.launching[g];
    }
  }

  /** Only three steps change whether the assignment or a stop under way knows the kind. */
  lemma KnowsAfter(s: State, step: Step, loc: Loc, kindOf: Loc -> Kind)
    requires Separate(s.flow) && Enabled(s, step) && !step.TaskSetKind? && !step.StartAdd? && !step.StopForward?
    ensures EntryKnows(NextEntries(s, step, kindOf), loc) || StopKnows(NextFlow(s.flow, s.entries, step), loc, None) <==>
            EntryKnows(s.entries, loc) || StopKnows(s.flow, loc, None)
  {
    var f, g := s.flow, NextFlow(s.flow, s.entries, step);
    if step.StopTake? {
      TakeKnows(s, step.id, step.loc, loc);
    } else if step.StopCount? {
      CountKnows(f, s.entries, step.id, loc);
    } else {
      assert g.taken == f.taken && g.stopping == f.stopping;
    }
  }

  lemma TakeKnows(s: State, id: nat, target: Loc, loc: Loc)
    requires s.flow.Free(id)
    ensures var g := NextFlow(s.flow, s.entries, StopTake(id, target));
            && (StoppingKnows(g, loc, None) <==> StoppingKnows(s.flow, loc, None))
            && (TakenKnows(g, loc) <==> TakenKnows(s.flow, loc) || (target == loc && EntryKnows(s.entries, loc)))
  {
    var f, g := s.flow, NextFlow(s.flow, s.entries, StopTake(id, target));
    assert g.stopping == f.stopping;
    assert forall i :: i in f.taken ==> i in g.taken && g.taken[i] == f.taken[i];
    if target in s.entries {
      assert id in g.taken && g.taken[id] == (target, s.entries[target]);
    }
  }

  lemma CountKnows(f: Flow, entries: Assignments, id: nat, loc: Loc)
    requires Separate(f) && id in f.taken
    ensures StopKnows(NextFlow(f, entries, StopCount(id)), loc, None) <==> StopKnows(f, loc, None)
  {
    var g := NextFlow(f, entries, StopCount(id));
    assert id in g.stopping && g.stopping[id] == (f.taken[id].0, f.taken[id].1.kind);
    assert forall i :: i in f.taken && i != id ==> i in g.taken && g.taken[i] == f.taken[i];
    assert forall i :: i in g.taken ==> i in f.taken && g.taken[i] == f.taken[i];
    assert id !in f.stopping;
    assert forall i :: i in f.stopping ==> i in g.stopping && g.stopping[i] == f.stopping[i];
    assert forall i :: i in g.stopping && i != id ==> i in f.stopping && g.stopping[i] == f.stopping[i];
  }

  /** One step: it is known exactly which steps make a locator unreachable for stop requests and
      which make it reachable again. */
  ghost predicate Decided(s: State, step: Step, loc: Loc, kindOf: Loc -> Kind, managers: set<Kind>)
    requires Enabled(s, step)
  {
    Reachable(Apply(s, step, kindOf, managers), loc, kindOf, managers) <==>
    !Escapes(s, step, loc, kindOf, managers) &&
    (Recovers(s, step, loc, kindOf, managers) || Reachable(s, loc, kindOf, managers))
  }

  lemma StepDecided(s: State, step: Step, loc: Loc, kindOf: Loc -> Kind, managers: set<Kind>)
    requires Valid(s, kindOf, managers) && Enabled(s, step)
    ensures Decided(s, step, loc, kindOf, managers)
  {
    match step {
      case TaskSetKind(h) => SetKindDecided(s, h, loc, kindOf, managers);
      case StartAdd(id) => AddDecided(s, id, loc, kindOf, managers);
      case StopForward(id) => ForwardDecided(s, id, loc, kindOf, managers);
      case LaunchFail(h) => LaunchFailDecided(s, h, loc, kindOf, managers);
      case _ =>
        LiveAfter(s.work, s.flow, step, loc, kindOf, managers);
        KnowsAfter(s, step, loc, kindOf);
    }
  }

  lemma SetKindDecided(s: State, h: nat, loc: Loc, kindOf: Loc -> Kind, managers: set<Kind>)
    requires Enabled(s, TaskSetKind(h))
    ensures Decided(s, TaskSetKind(h), loc, kindOf, managers)
  {
    var w, v := s.work, NextWork(s.work, s.flow, TaskSetKind(h), kindOf, managers);
    assert h in v.tasks && v.tasks[h] == Starting(w.tasks[h].loc);
    assert forall g :: g in w.tasks && g != h ==> g in v.tasks && v.tasks[g] == w.tasks[g];
    assert forall g :: g in v.tasks && g != h ==> g in w.tasks && v.tasks[g] == w.tasks[g];
    assert v.launching == w.launching && v.running == w.running;
    assert w.tasks[h].loc != loc ==> (Live(v, loc, kindOf, managers) <==> Live(w, loc, kindOf, managers));
  }

  lemma AddDecided(s: State, id: nat, loc: Loc, kindOf: Loc -> Kind, managers: set<Kind>)
    requires Enabled(s, StartAdd(id))
    ensures Decided(s, StartAdd(id), loc, kindOf, managers)
  {
    var g := NextFlow(s.flow, s.entries, StartAdd(id));
    assert g.taken == s.flow.taken && g.stopping == s.flow.stopping;
    assert NextWork(s.work, s.flow, StartAdd(id), kindOf, managers) == s.work;
  }

  lemma LaunchFailDecided(s: State, h: nat, loc: Loc, kindOf: Loc -> Kind, managers: set<Kind>)
    requires Enabled(s, LaunchFail(h))
    ensures Decided(s, LaunchFail(h), loc, kindOf, managers)
  {
    var w, v := s.work, NextWork(s.work, s.flow, LaunchFail(h), kindOf, managers);
    assert v.tasks == w.tasks && v.running == w.running;
    assert forall g :: g in v.launching ==> g in w.launching && v.launching[g] == w.launching[g];
    assert forall g :: g in w.launching && g != h ==> g in v.launching && v.launching[g] == w.launching[g];
    assert Live(v, loc, kindOf, managers) ==> Live(w, loc, kindOf, managers);
    assert w.launching[h] != loc ==> (Live(v, loc, kindOf, managers) <==> Live(w, loc, kindOf, managers));
  }

  lemma ForwardDecided(s: State, id: nat, loc: Loc, kindOf: Loc -> Kind, managers: set<Kind>)
    requires Valid(s, kindOf, managers) && Enabled(s, StopForward(id))
    ensures Decided(s, StopForward(id), loc, kindOf, managers)
  {
    ForwardKnows(s.flow, s.entries, id, loc);
    ForwardLive(s, id, loc, kindOf, managers);
    assert NextEntries(s, StopForward(id), kindOf) == s.entries;
  }

  lemma ForwardLive(s: State, id: nat, loc: Loc, kindOf: Loc -> Kind, managers: set<Kind>)
    requires KindsRight(s, kindOf) && Hosted(s.work, kindOf, managers) && Enabled(s, StopForward(id))
    ensures Live(NextWork(s.work, s.flow, StopForward(id), kindOf, managers), loc, kindOf, managers) <==>
            if s.flow.stopping[id].0 == loc && s.flow.stopping[id].1.Some? then Pending(s.work, loc, kindOf, managers)
            else Live(s.work, loc, kindOf, managers)
  {
    var f, w, v := s.flow, s.work, NextWork(s.work, s.flow, StopForward(id), kindOf, managers);
    assert v.tasks == w.tasks && v.launching == w.launching;
    assert Pending(v, loc, kindOf, managers) <==> Pending(w, loc, kindOf, managers);
    if f.stopping[id].0 == loc && f.stopping[id].1.Some? {
      assert f.stopping[id].1.value == kindOf(loc);
      assert loc !in v.running;
    } else {
      assert loc in v.running <==> loc in w.running;
    }
  }

  lemma ForwardKnows(f: Flow, entries: Assignments, id: nat, loc: Loc)
    requires id in f.stopping
    ensures var g := NextFlow(f, entries, StopForward(id));
            && (StopKnows(g, loc, None) <==> StopKnows(f, loc, Some(id)))
            && (StopKnows(f, loc, None) <==>
                StopKnows(f, loc, Some(id)) || (f.stopping[id].0 == loc && f.stopping[id].1.Some?))
  {
    var g := NextFlow(f, entries, StopForward(id));
    assert g.taken == f.taken;
    assert forall i :: i in g.stopping ==> i in f.stopping && g.stopping[i] == f.stopping[i] && i != id;
    assert forall i :: i in f.stopping && i != id ==> i in g.stopping && g.stopping[i] == f.stopping[i];
  }

  // ---- over runs

  ghost predicate NeverRecovers(s: State, steps: seq<Step>, loc: Loc, kindOf: Loc -> Kind, managers: set<Kind>)
    requires IsRun(s, steps, kindOf, managers)
    decreases steps
  {
    steps == [] ||
    (&& !Recovers(s, steps[0], loc, kindOf, managers)
     && NeverRecovers(Apply(s, steps[0], kindOf, managers), steps[1..], loc, kindOf, managers))
  }

  /** Some step of the run lets `loc` escape and no later step recovers it. */
  ghost predicate EscapesForGood(s: State, steps: seq<Step>, loc: Loc, kindOf: Loc -> Kind, managers: set<Kind>)
    requires IsRun(s, steps, kindOf, managers)
    decreases steps
  {
    steps != [] &&
    var t := Apply(s, steps[0], kindOf, managers);
    || EscapesForGood(t, steps[1..], loc, kindOf, managers)
    || (Escapes(s, steps[0], loc, kindOf, managers) && NeverRecovers(t, steps[1..], loc, kindOf, managers))
  }

  lemma {:induction false} RunDecided(s: State, steps: seq<Step>, loc: Loc, kindOf: Loc -> Kind, managers: set<Kind>)
    requires Valid(s, kindOf, managers) && IsRun(s, steps, kindOf, managers)
    ensures Reachable(Final(s, steps, kindOf, managers), loc, kindOf, managers) <==>
            !EscapesForGood(s, steps, loc, kindOf, managers) &&
            (Reachable(s, loc, kindOf, managers) || !NeverRecovers(s, steps, loc, kindOf, managers))
    decreases steps
  {
    if steps != [] {
      StepKeepsValid(s, steps[0], kindOf, managers);
      StepDecided(s, steps[0], loc, kindOf, managers);
      RunDecided(Apply(s, steps[0], kindOf, managers), steps[1..], loc, kindOf, managers);
    }
  }

  ghost predicate Assigned(t: State, loc: Loc, kindOf: Loc -> Kind) {
    loc in t.entries && t.entries[loc].kind == Some(kindOf(loc))
  }

  /** In every interleaving: at rest a subgraph that runs or is bound to is assigned with its
      kind, so that a stop is forwarded to it, if and only if it did not escape for good. */
  lemma StopsReach(steps: seq<Step>, loc: Loc, kindOf: Loc -> Kind, managers: set<Kind>)
    requires IsRun(EMPTY, steps, kindOf, managers)
    ensures var t := Final(EMPTY, steps, kindOf, managers);
            AtRest(t) ==>
              ((Live(t.work, loc, kindOf, managers) ==> Assigned(t, loc, kindOf)) <==>
               !EscapesForGood(EMPTY, steps, loc, kindOf, managers))
  {
    assert Valid(EMPTY, kindOf, managers);
    RunKeepsValid(EMPTY, steps, kindOf, managers);
    RunDecided(EMPTY, steps, loc, kindOf, managers);
  }

  // ---------- runs that go wrong ----------

  lemma {:induction false} Then(s: State, steps: seq<Step>, step: Step, kindOf: Loc -> Kind, managers: set<Kind>)
    returns (more: seq<Step>)
    requires IsRun(s, steps, kindOf, managers) && Enabled(Final(s, steps, kindOf, managers), step)
    ensures more == steps + [step] && IsRun(s, more, kindOf, managers)
    ensures Final(s, more, kindOf, managers) == Apply(Final(s, steps, kindOf, managers), step, kindOf, managers)
    ensures AllSerialised(s, steps, kindOf, managers) && Serialised(Final(s, steps, kindOf, managers).flow, step) ==>
              AllSerialised(s, more, kindOf, managers)
    decreases steps
  {
    more := steps + [step];
    if steps == [] {
      assert more[0] == step && more[1..] == [];
    } else {
      var rest := Then(Apply(s, steps[0], kindOf, managers), steps[1..], step, kindOf, managers);
      assert more[0] == steps[0] && more[1..] == rest;
    }
  }

  ghost predicate LeaksGauge(t: State) {
    AtRest(t) && t.gauge == 2 && |t.entries| == 1
  }

  /** Two starts of one locator that both check before either adds: from then on the gauge is
      one too high. */
  lemma ConcurrentStartsLeak(loc: Loc, kindOf: Loc -> Kind, managers: set<Kind>)
    ensures exists steps :: IsRun(EMPTY, steps, kindOf, managers) && LeaksGauge(Final(EMPTY, steps, kindOf, managers))
  {
    var r1 := Then(EMPTY, [], StartCheck(0, loc), kindOf, managers);
    var r2 := Then(EMPTY, r1, StartCheck(1, loc), kindOf, managers);
    var r3 := Then(EMPTY, r2, StartCount(0), kindOf, managers);
    var r4 := Then(EMPTY, r3, StartCount(1), kindOf, managers);
    var s4 := Final(EMPTY, r4, kindOf, managers);
    assert s4.flow == NO_REQUESTS.(counted := map[0 := loc, 1 := loc]);
    var r5 := BothAdd(r4, loc, kindOf, managers);
  }

  lemma BothAdd(r: seq<Step>, loc: Loc, kindOf: Loc -> Kind, managers: set<Kind>) returns (more: seq<Step>)
    requires IsRun(EMPTY, r, kindOf, managers)
    requires Final(EMPTY, r, kindOf, managers) ==
             EMPTY.(gauge := 2, flow := NO_REQUESTS.(counted := map[0 := loc, 1 := loc]))
    ensures IsRun(EMPTY, more, kindOf, managers) && LeaksGauge(Final(EMPTY, more, kindOf, managers))
  {
    var r1 := Then(EMPTY, r, StartSpawn(0, 0), kindOf, managers);
    var r2 := Then(EMPTY, r1, StartSpawn(1, 1), kindOf, managers);
    assert Final(EMPTY, r2, kindOf, managers).flow == NO_REQUESTS.(spawned := map[0 := (loc, 0), 1 := (loc, 1)]);
    var r3 := Then(EMPTY, r2, StartAdd(0), kindOf, managers);
    more := Then(EMPTY, r3, StartAdd(1), kindOf, managers);
    assert Final(EMPTY, more, kindOf, managers).entries == map[loc := Assignment(1, None)];
    assert Final(EMPTY, more, kindOf, managers).flow == NO_REQUESTS;
  }

  /** A serialised run that ends at rest with a subgraph that runs and is not assigned. */
  ghost predicate Leaks(steps: seq<Step>, loc: Loc, kindOf: Loc -> Kind, managers: set<Kind>) {
    && IsRun(EMPTY, steps, kindOf, managers) && AllSerialised(EMPTY, steps, kindOf, managers)
    && var t := Final(EMPTY, steps, kindOf, managers);
       AtRest(t) && t.work.tasks == map[] && t.work.launching == map[] && t.gauge == 0 && t.entries == map[] && loc in t.work.running
  }

  ghost predicate Reaches(steps: seq<Step>, t: State, kindOf: Loc -> Kind, managers: set<Kind>) {
    && IsRun(EMPTY, steps, kindOf, managers) && AllSerialised(EMPTY, steps, kindOf, managers)
    && Final(EMPTY, steps, kindOf, managers) == t
  }

  /** A start request has spawned its task. */
  lemma Spawned(loc: Loc, kindOf: Loc -> Kind, managers: set<Kind>) returns (r: seq<Step>)
    ensures Reaches(r, State(map[], 1, 0, NO_REQUESTS.(spawned := map[0 := (loc, 0)]),
                             Work(map[0 := Loading(loc)], map[], {}, {0})), kindOf, managers)
  {
    var r1 := Then(EMPTY, [], StartCheck(0, loc), kindOf, managers);
    var r2 := Then(EMPTY, r1, StartCount(0), kindOf, managers);
    r := Then(EMPTY, r2, StartSpawn(0, 0), kindOf, managers);
    assert Final(EMPTY, r, kindOf, managers).flow == NO_REQUESTS.(spawned := map[0 := (loc, 0)]);
    assert Final(EMPTY, r, kindOf, managers).work == Work(map[0 := Loading(loc)], map[], {}, {0});
  }

  /** A start request is over and its task has recorded the kind. */
  lemma Recorded(loc: Loc, kindOf: Loc -> Kind, managers: set<Kind>) returns (r: seq<Step>)
    ensures Reaches(r, State(map[loc := Assignment(0, Some(kindOf(loc)))], 1, 0, NO_REQUESTS,
                             Work(map[0 := Starting(loc)], map[], {}, {0})), kindOf, managers)
  {
    var r1 := Spawned(loc, kindOf, managers);
    var r2 := Then(EMPTY, r1, StartAdd(0), kindOf, managers);
    assert Final(EMPTY, r2, kindOf, managers).flow == NO_REQUESTS;
    var r3 := Then(EMPTY, r2, TaskLoad(0), kindOf, managers);
    r := Then(EMPTY, r3, TaskSetKind(0), kindOf, managers);
    assert Final(EMPTY, r, kindOf, managers).work == Work(map[0 := Starting(loc)], map[], {}, {0});
  }

  /** A whole stop request after everything else is over; it does not abort a waiting task. */
  lemma Stopped(r: seq<Step>, s: State, loc: Loc, kind: Option<Kind>, kindOf: Loc -> Kind, managers: set<Kind>)
    returns (more: seq<Step>)
    requires Reaches(r, s, kindOf, managers)
    requires s.entries == map[loc := Assignment(0, kind)] && s.flow == NO_REQUESTS && Abort(s.work.tasks, 0) == s.work.tasks
    ensures Reaches(more, State(map[], s.gauge - 1, s.overwritten, NO_REQUESTS,
                                if kind.Some? && kind.value in managers then s.work.(running := s.work.running - {loc})
                                else s.work), kindOf, managers)
    ensures more != [] && more[|more| - 1] == StopForward(1)
  {
    var r1 := Then(EMPTY, r, StopTake(1, loc), kindOf, managers);
    var s1 := Final(EMPTY, r1, kindOf, managers);
    assert s1.entries == map[] && s1.flow == NO_REQUESTS.(taken := map[1 := (loc, Assignment(0, kind))]);
    var r2 := Then(EMPTY, r1, StopCount(1), kindOf, managers);
    var s2 := Final(EMPTY, r2, kindOf, managers);
    assert s2.flow == NO_REQUESTS.(stopping := map[1 := (loc, kind)]);
    more := Then(EMPTY, r2, StopForward(1), kindOf, managers);
    assert Final(EMPTY, more, kindOf, managers).flow == NO_REQUESTS;
  }

  /** What a task that is about to start does in the end, if it has a manager. */
  lemma Starts(r: seq<Step>, s: State, loc: Loc, kindOf: Loc -> Kind, managers: set<Kind>) returns (more: seq<Step>)
    requires Reaches(r, s, kindOf, managers) && kindOf(loc) in managers
    requires s.work.tasks == map[0 := Starting(loc)] && s.work.launching == map[]
    ensures Reaches(more, s.(work := s.work.(tasks := map[], running := s.work.running + {loc})), kindOf, managers)
  {
    more := Then(EMPTY, r, TaskStart(0), kindOf, managers);
    assert Final(EMPTY, more, kindOf, managers).work.tasks == map[];
    if kindOf(loc).Trigger? {
      assert Final(EMPTY, more, kindOf, managers).work.launching == map[0 := loc];
      more := Then(EMPTY, more, Launch(0), kindOf, managers);
      assert Final(EMPTY, more, kindOf, managers).work.launching == map[];
    }
  }

  /** A start task that records the kind before its assignment has been added records it
      nowhere, and a later stop request is not forwarded: the subgraph keeps running. */
  lemma UntimelyTaskLeaks(loc: Loc, kindOf: Loc -> Kind, managers: set<Kind>)
    requires kindOf(loc) in managers
    ensures exists steps :: Leaks(steps, loc, kindOf, managers)
  {
    var r1 := Spawned(loc, kindOf, managers);
    var r2 := Then(EMPTY, r1, TaskLoad(0), kindOf, managers);
    var r3 := Then(EMPTY, r2, TaskSetKind(0), kindOf, managers);
    assert Final(EMPTY, r3, kindOf, managers).work == Work(map[0 := Starting(loc)], map[], {}, {0});
    var r4 := Starts(r3, Final(EMPTY, r3, kindOf, managers), loc, kindOf, managers);
    var r5 := Then(EMPTY, r4, StartAdd(0), kindOf, managers);
    var s5 := Final(EMPTY, r5, kindOf, managers);
    assert s5.flow == NO_REQUESTS && s5.entries == map[loc := Assignment(0, None)];
    var r6 := Stopped(r5, s5, loc, None, kindOf, managers);
    assert Leaks(r6, loc, kindOf, managers);
  }

  /** A stop whose abort comes when the task has already recorded the kind is forwarded first;
      the task then starts the subgraph, which keeps running. */
  lemma RacingStopLeaks(loc: Loc, kindOf: Loc -> Kind, managers: set<Kind>)
    requires kindOf(loc) in managers
    ensures exists steps :: Leaks(steps, loc, kindOf, managers)
  {
    var r1 := Recorded(loc, kindOf, managers);
    var s1 := Final(EMPTY, r1, kindOf, managers);
    var r2 := Stopped(r1, s1, loc, Some(kindOf(loc)), kindOf, managers);
    var r3 := Starts(r2, Final(EMPTY, r2, kindOf, managers), loc, kindOf, managers);
    assert Leaks(r3, loc, kindOf, managers);
  }

  /** Even if the task is over, a stop that comes before the trigger manager has launched the
      subgraph misses it. */
  lemma LateLaunchLeaks(loc: Loc, kindOf: Loc -> Kind, managers: set<Kind>)
    requires kindOf(loc) in managers && kindOf(loc).Trigger?
    ensures exists steps :: Leaks(steps, loc, kindOf, managers) && LaunchesLast(steps)
  {
    var r1 := Recorded(loc, kindOf, managers);
    var r2 := Then(EMPTY, r1, TaskStart(0), kindOf, managers);
    var s2 := Final(EMPTY, r2, kindOf, managers);
    assert s2.work.tasks == map[] && s2.work.launching == map[0 := loc];
    var r3 := Stopped(r2, s2, loc, Some(kindOf(loc)), kindOf, managers);
    var r4 := Then(EMPTY, r3, Launch(0), kindOf, managers);
    assert Final(EMPTY, r4, kindOf, managers).work.launching == map[];
    assert Leaks(r4, loc, kindOf, managers) && LaunchesLast(r4);
  }

  // The task was over before the stop: what comes last is the manager's launch.
  predicate LaunchesLast(steps: seq<Step>) {
    |steps| > 1 && steps[|steps| - 1].Launch? && steps[|steps| - 2].StopForward?
  }
}
