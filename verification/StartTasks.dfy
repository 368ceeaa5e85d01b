/** The life of the start tasks of `SubgraphProvider`: each handle goes through its phases once,
    and a stop that still finds the task waiting ends it for good. */
module StartTasks {
  import opened Types
  import opened SubgraphProvider

  // What becomes of one task handle: it waits for the manifest, has it, has recorded the kind and
  // will start the subgraph, is with the trigger manager, and is over.
  datatype Phase = Unborn | Waiting(loc: Loc) | Ready(loc: Loc) | Committed(loc: Loc) | Handed(loc: Loc) | Over
  {
    function Rank(): nat {
      match this
      case Unborn => 0
      case Waiting(_) => 1
      case Ready(_) => 2
      case Committed(_) => 3
      case Handed(_) => 4
      case Over => 5
    }
  }

  function PhaseOf(w: Work, h: nat): Phase {
    if h in w.tasks then
      match w.tasks[h]
      case Loading(loc) => Waiting(loc)
      case Loaded(loc) => Ready(loc)
      case Starting(loc) => Committed(loc)
    else if h in w.launching then Handed(w.launching[h])
    else if h in w.used then Over
    else Unborn
  }

  /** Handles are recorded, and no task is with its manager before it is over. */
  ghost predicate Registered(w: Work) {
    && (forall h :: h in w.tasks ==> h in w.used && h !in w.launching)
    && (forall h :: h in w.launching ==> h in w.used)
  }

  lemma StepKeepsRegistered(w: Work, f: Flow, step: Step, kindOf: Loc -> Kind, managers: set<Kind>)
    requires Registered(w) && FlowEnabled(f, step) && WorkEnabled(w, step)
    ensures Registered(NextWork(w, f, step, kindOf, managers))
  {
  }

  /** The only steps that concern the task of handle `h`. */
  predicate Concerns(step: Step, f: Flow, h: nat)
    requires FlowEnabled(f, step)
  {
    match step
    case StartSpawn(_, g) => g == h
    case TaskLoad(g) => g == h
    case TaskSetKind(g) => g == h
    case TaskStart(g) => g == h
    case TaskFail(g) => g == h
    case Launch(g) => g == h
    case LaunchFail(g) => g == h
    case StopCount(id) => f.taken[id].1.handle == h
    case _ => false
  }

  /** One task on its own: where such a step takes it. A task that has the manifest cannot fail or
      be aborted; without an enabled manager it ends without starting anything. */
  ghost predicate Moves(p: Phase, q: Phase, step: Step, f: Flow, kindOf: Loc -> Kind, managers: set<Kind>)
    requires FlowEnabled(f, step)
  {
    match step
    case StartSpawn(id, _) => p == Unborn && q == Waiting(f.counted[id])
    case TaskLoad(_) => p.Waiting? && q == Ready(p.loc)
    case TaskSetKind(_) => p.Ready? && q == Committed(p.loc)
    case TaskStart(_) =>
      p.Committed? && q == if kindOf(p.loc) == Trigger && Trigger in managers then Handed(p.loc) else Over
    case TaskFail(_) => p.Waiting? && q == Over
    case Launch(_) => p.Handed? && q == Over
    case LaunchFail(_) => p.Handed? && q == Over
    case StopCount(_) => q == if p.Waiting? then Over else p
    case _ => false
  }

  /** Every handle lives on its own: a step moves exactly the task it concerns. */
  lemma EachTaskMoves(w: Work, f: Flow, step: Step, h: nat, kindOf: Loc -> Kind, managers: set<Kind>)
    requires Registered(w) && FlowEnabled(f, step) && WorkEnabled(w, step)
    ensures var p, q := PhaseOf(w, h), PhaseOf(NextWork(w, f, step, kindOf, managers), h);
            if Concerns(step, f, h) then Moves(p, q, step, f, kindOf, managers) else q == p
  {
  }

  /** What runs changes only by a committed task that is taken over by the Amp manager, by a launch,
      and by a forwarded stop. */
  lemma RunningAfter(w: Work, f: Flow, step: Step, loc: Loc, kindOf: Loc -> Kind, managers: set<Kind>)
    requires FlowEnabled(f, step) && WorkEnabled(w, step)
    ensures loc in NextWork(w, f, step, kindOf, managers).running <==>
            match step
            case TaskStart(h) =>
              loc in w.running || (w.tasks[h] == Starting(loc) && kindOf(loc) == Amp && Amp in managers)
            case Launch(h) => loc in w.running || w.launching[h] == loc
            case StopForward(id) =>
              loc in w.running && !(f.stopping[id].0 == loc && f.stopping[id].1.Some? && f.stopping[id].1.value in managers)
            case _ => loc in w.running
  {
  }

  lemma {:induction false} RunKeepsRegistered(s: State, steps: seq<Step>, kindOf: Loc -> Kind, managers: set<Kind>)
    requires Registered(s.work) && IsRun(s, steps, kindOf, managers)
    ensures Registered(Final(s, steps, kindOf, managers).work)
    decreases steps
  {
    if steps != [] {
      StepKeepsRegistered(s.work, s.flow, steps[0], kindOf, managers);
      RunKeepsRegistered(Apply(s, steps[0], kindOf, managers), steps[1..], kindOf, managers);
    }
  }

  /** Over every run phases only advance. */
  lemma {:induction false} PhasesAdvance(s: State, steps: seq<Step>, h: nat, kindOf: Loc -> Kind, managers: set<Kind>)
    requires Registered(s.work) && IsRun(s, steps, kindOf, managers)
    ensures var p, q := PhaseOf(s.work, h), PhaseOf(Final(s, steps, kindOf, managers).work, h);
            p == q || p.Rank() < q.Rank()
    decreases steps
  {
    if steps != [] {
      StepKeepsRegistered(s.work, s.flow, steps[0], kindOf, managers);
      EachTaskMoves(s.work, s.flow, steps[0], h, kindOf, managers);
      PhasesAdvance(Apply(s, steps[0], kindOf, managers), steps[1..], h, kindOf, managers);
    }
  }

  // ---------- a stop that comes in time ----------

  /** In every run: a stop that finds the task of the assignment it took still waiting ends it, and
      whatever happens later that handle never holds a task or a launch again. */
  lemma AbortedForGood(before: seq<Step>, id: nat, after: seq<Step>, kindOf: Loc -> Kind, managers: set<Kind>)
    requires IsRun(EMPTY, before, kindOf, managers)
    requires var s := Final(EMPTY, before, kindOf, managers);
             && id in s.flow.taken
             && s.flow.taken[id].1.handle in s.work.tasks && s.work.tasks[s.flow.taken[id].1.handle].Loading?
             && IsRun(Apply(s, StopCount(id), kindOf, managers), after, kindOf, managers)
    ensures var s := Final(EMPTY, before, kindOf, managers);
            var h := s.flow.taken[id].1.handle;
            var w := Final(Apply(s, StopCount(id), kindOf, managers), after, kindOf, managers).work;
            h !in w.tasks && h !in w.launching
  {
    var s := Final(EMPTY, before, kindOf, managers);
    var h := s.flow.taken[id].1.handle;
    RunKeepsRegistered(EMPTY, before, kindOf, managers);
    EachTaskMoves(s.work, s.flow, StopCount(id), h, kindOf, managers);
    StepKeepsRegistered(s.work, s.flow, StopCount(id), kindOf, managers);
    PhasesAdvance(Apply(s, StopCount(id), kindOf, managers), after, h, kindOf, managers);
  }

  /** Nothing of `loc` runs or is bound to, and no request is about to spawn a task for it. */
  ghost predicate Quiet(s: State, loc: Loc, except: Option<nat>) {
    && loc !in s.work.running
    && (forall h :: h in s.work.tasks && s.work.tasks[h].loc == loc ==> Some(h) == except)
    && (forall h :: h in s.work.launching ==> s.work.launching[h] != loc)
    && (forall i :: i in s.flow.checked ==> s.flow.checked[i] != loc)
    && (forall i :: i in s.flow.counted ==> s.flow.counted[i] != loc)
  }

  ghost predicate NoStart(steps: seq<Step>, loc: Loc) {
    forall i :: 0 <= i < |steps| && steps[i].StartCheck? ==> steps[i].loc != loc
  }

  lemma StepKeepsQuiet(s: State, step: Step, loc: Loc, kindOf: Loc -> Kind, managers: set<Kind>)
    requires Quiet(s, loc, None) && Enabled(s, step) && (step.StartCheck? ==> step.loc != loc)
    ensures Quiet(Apply(s, step, kindOf, managers), loc, None)
  {
    RunningAfter(s.work, s.flow, step, loc, kindOf, managers);
  }

  lemma {:induction false} RunKeepsQuiet(s: State, steps: seq<Step>, loc: Loc, kindOf: Loc -> Kind, managers: set<Kind>)
    requires Quiet(s, loc, None) && IsRun(s, steps, kindOf, managers) && NoStart(steps, loc)
    ensures Quiet(Final(s, steps, kindOf, managers), loc, None)
    decreases steps
  {
    if steps != [] {
      StepKeepsQuiet(s, steps[0], loc, kindOf, managers);
      RunKeepsQuiet(Apply(s, steps[0], kindOf, managers), steps[1..], loc, kindOf, managers);
    }
  }

  /** If that task was all there was of the locator, it stays down until the next start: in no
      later state does it run, nor is it bound to. */
  lemma StoppedStaysDown(s: State, id: nat, after: seq<Step>, kindOf: Loc -> Kind, managers: set<Kind>)
    requires id in s.flow.taken
    requires var (loc, taken) := s.flow.taken[id];
             && taken.handle in s.work.tasks && s.work.tasks[taken.handle].Loading?
             && Quiet(s, loc, Some(taken.handle))
             && IsRun(Apply(s, StopCount(id), kindOf, managers), after, kindOf, managers)
             && NoStart(after, loc)
    ensures !Live(Final(Apply(s, StopCount(id), kindOf, managers), after, kindOf, managers).work,
                  s.flow.taken[id].0, kindOf, managers)
  {
    var (loc, taken) := s.flow.taken[id];
    assert Quiet(Apply(s, StopCount(id), kindOf, managers), loc, None);
    RunKeepsQuiet(Apply(s, StopCount(id), kindOf, managers), after, loc, kindOf, managers);
  }
}
