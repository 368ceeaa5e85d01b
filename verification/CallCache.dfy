/** The in-memory call cache in front of the persistent one (`BufferedCallCache`), as lock
    sections that concurrent operations interleave, with awaits in between. */
module CallCache {
  import opened Types

  // What `call::Request` compares: the address and the encoded call, but not the index.
  datatype Key = Key(address: Address, encoded: seq<Byte>)
  datatype Retval = Null | Value(bytes: seq<Byte>)

  // The answer of the chain to a call at a block.
  type Truth = (Ptr, Key) -> Retval

  /** What an operation still has to do; a single get is a batch of one. */
  datatype Phase =
    | Looking(todo: seq<Key>, missing: seq<Key>)
    | Inserting(found: map<Key, Retval>)
    | Setting(key: Key, value: Retval)
    | Writing(entry: Key, result: Retval)

  datatype Op = Op(block: Ptr, phase: Phase)

  datatype State = State(block: Option<Ptr>, buffer: map<Key, Retval>, store: map<(Ptr, Key), Retval>,
                         ops: map<nat, Op>, answers: set<(Ptr, Key, Retval)>)

  datatype Step =
    | BeginGet(id: nat, block: Ptr, keys: seq<Key>)
    | Look(id: nat)
    | Ask(id: nat, rows: set<Key>)      // the persistent cache answers for some of the keys
    | AskFails(id: nat)
    | Insert(id: nat)
    | BeginSet(id: nat, block: Ptr, key: Key, value: Retval)
    | InsertSet(id: nat)
    | Write(id: nat, ok: bool)          // the background write succeeds or fails

  /** `check_block`: a different block empties the buffer. */
  function Check(s: State, b: Ptr): State {
    if s.block == Some(b) then s else s.(block := Some(b), buffer := map[])
  }

  predicate Enabled(s: State, step: Step) {
    match step
    case BeginGet(id, _, _) => id !in s.ops
    case BeginSet(id, _, _, _) => id !in s.ops
    case Look(id) => id in s.ops && s.ops[id].phase.Looking? && s.ops[id].phase.todo != []
    case Ask(id, _) => id in s.ops && s.ops[id].phase.Looking? && s.ops[id].phase.todo == []
    case AskFails(id) => id in s.ops && s.ops[id].phase.Looking? && s.ops[id].phase.todo == []
    case Insert(id) => id in s.ops && s.ops[id].phase.Inserting?
    case InsertSet(id) => id in s.ops && s.ops[id].phase.Setting?
    case Write(id, _) => id in s.ops && s.ops[id].phase.Writing?
  }

  function Apply(s: State, step: Step): State
    requires Enabled(s, step)
  {
    match step
    case BeginGet(id, b, keys) =>
      var c := Check(s, b);
      c.(ops := c.ops[id := Op(b, Looking(keys, []))])
    case Look(id) =>
      var op := s.ops[id];
      var k := op.phase.todo[0];
      if k in s.buffer then
        s.(ops := s.ops[id := op.(phase := Looking(op.phase.todo[1..], op.phase.missing))],
           answers := s.answers + {(op.block, k, s.buffer[k])})
      else
        s.(ops := s.ops[id := op.(phase := Looking(op.phase.todo[1..], op.phase.missing + [k]))])
    case Ask(id, rows) =>
      var op := s.ops[id];
      var found := map k | k in rows && k in op.phase.missing && (op.block, k) in s.store :: s.store[(op.block, k)];
      s.(ops := s.ops[id := op.(phase := Inserting(found))])
    case AskFails(id) => s.(ops := s.ops - {id})
    case Insert(id) =>
      var op := s.ops[id];
      s.(buffer := s.buffer + op.phase.found, ops := s.ops - {id},
         answers := s.answers + set k | k in op.phase.found :: (op.block, k, op.phase.found[k]))
    case BeginSet(id, b, k, v) =>
      var c := Check(s, b);
      c.(ops := c.ops[id := Op(b, Setting(k, v))])
    case InsertSet(id) =>
      var op := s.ops[id];
      s.(buffer := s.buffer[op.phase.key := op.phase.value],
         ops := s.ops[id := op.(phase := Writing(op.phase.key, op.phase.value))])
    case Write(id, ok) =>
      var op := s.ops[id];
      s.(store := if ok then s.store[(op.block, op.phase.entry) := op.phase.result] else s.store, ops := s.ops - {id})
  }

  // ---------- agreement with the uncached call ----------

  ghost predicate BufferTrue(truth: Truth, s: State) {
    if s.block.None? then s.buffer == map[]
    else forall k :: k in s.buffer ==> s.buffer[k] == truth(s.block.value, k)
  }

  ghost predicate PhaseTrue(truth: Truth, op: Op) {
    match op.phase
    case Looking(_, _) => true
    case Inserting(found) => forall k :: k in found ==> found[k] == truth(op.block, k)
    case Setting(k, v) => v == truth(op.block, k)
    case Writing(k, v) => v == truth(op.block, k)
  }

  ghost predicate AllTrue(truth: Truth, s: State) {
    && BufferTrue(truth, s)
    && (forall p :: p in s.store ==> s.store[p] == truth(p.0, p.1))
    && (forall id :: id in s.ops ==> PhaseTrue(truth, s.ops[id]))
    && (forall a :: a in s.answers ==> a.2 == truth(a.0, a.1))
  }

  /** Callers only ever set what the node answered. */
  ghost predicate Honest(truth: Truth, step: Step) {
    step.BeginSet? ==> step.value == truth(step.block, step.key)
  }

  /** A buffer access happens while the recorded block is the operation's own. */
  ghost predicate InEpoch(s: State, step: Step)
    requires Enabled(s, step)
  {
    step.Look? || step.Insert? || step.InsertSet? ==> s.block == Some(s.ops[step.id].block)
  }

  lemma BufferStaysTrue(truth: Truth, s: State, step: Step)
    requires AllTrue(truth, s) && Enabled(s, step) && InEpoch(s, step)
    ensures BufferTrue(truth, Apply(s, step))
  {
    if step.Insert? || step.InsertSet? {
      assert PhaseTrue(truth, s.ops[step.id]);
    }
  }

  lemma PhasesStayTrue(truth: Truth, s: State, step: Step)
    requires AllTrue(truth, s) && Enabled(s, step) && Honest(truth, step)
    ensures forall id :: id in Apply(s, step).ops ==> PhaseTrue(truth, Apply(s, step).ops[id])
  {
    if step.InsertSet? {
      assert PhaseTrue(truth, s.ops[step.id]);
    }
  }

  lemma AnswersStayTrue(truth: Truth, s: State, step: Step)
    requires AllTrue(truth, s) && Enabled(s, step) && InEpoch(s, step)
    ensures forall a :: a in Apply(s, step).answers ==> a.2 == truth(a.0, a.1)
    ensures forall p :: p in Apply(s, step).store ==> Apply(s, step).store[p] == truth(p.0, p.1)
  {
    if step.Insert? || step.Write? {
      assert PhaseTrue(truth, s.ops[step.id]);
    }
  }

  lemma StepKeepsTruth(truth: Truth, s: State, step: Step)
    requires AllTrue(truth, s) && Enabled(s, step) && Honest(truth, step) && InEpoch(s, step)
    ensures AllTrue(truth, Apply(s, step))
  {
    BufferStaysTrue(truth, s, step);
    PhasesStayTrue(truth, s, step);
    AnswersStayTrue(truth, s, step);
  }

  /** What a buffer access moves between the operation's block and the recorded one has the same
      answer at both. */
  ghost predicate Safe(truth: Truth, s: State, step: Step)
    requires Enabled(s, step)
  {
    match step
    case Look(id) => s.ops[id].phase.todo[0] in s.buffer ==> Agree(truth, s, id, s.ops[id].phase.todo[0])
    case Insert(id) => forall k :: k in s.ops[id].phase.found ==> Agree(truth, s, id, k)
    case InsertSet(id) => Agree(truth, s, id, s.ops[id].phase.key)
    case _ => true
  }

  ghost predicate Agree(truth: Truth, s: State, id: nat, k: Key)
    requires id in s.ops
  {
    s.block.Some? && truth(s.ops[id].block, k) == truth(s.block.value, k)
  }

  /** A step keeps the cache and its responses right if and only if it is safe. */
  lemma StepSafeIff(truth: Truth, s: State, step: Step)
    requires AllTrue(truth, s) && Enabled(s, step) && Honest(truth, step)
    ensures AllTrue(truth, Apply(s, step)) <==> Safe(truth, s, step)
  {
    match step {
      case Look(id) => LookSafeIff(truth, s, id);
      case Insert(id) => InsertSafeIff(truth, s, id);
      case InsertSet(id) => SetSafeIff(truth, s, id);
      case _ => StepKeepsTruth(truth, s, step);
    }
  }

  lemma LookSafeIff(truth: Truth, s: State, id: nat)
    requires AllTrue(truth, s) && Enabled(s, Look(id))
    ensures AllTrue(truth, Apply(s, Look(id))) <==> Safe(truth, s, Look(id))
  {
    var t, op := Apply(s, Look(id)), s.ops[id];
    var k := op.phase.todo[0];
    PhasesStayTrue(truth, s, Look(id));
    if k in s.buffer {
      assert (op.block, k, s.buffer[k]) in t.answers;
      assert s.buffer[k] == truth(s.block.value, k);
    }
  }

  lemma InsertSafeIff(truth: Truth, s: State, id: nat)
    requires AllTrue(truth, s) && Enabled(s, Insert(id))
    ensures AllTrue(truth, Apply(s, Insert(id))) <==> Safe(truth, s, Insert(id))
  {
    var t, found := Apply(s, Insert(id)), s.ops[id].phase.found;
    assert PhaseTrue(truth, s.ops[id]);
    PhasesStayTrue(truth, s, Insert(id));
    forall k | k in found
      ensures k in t.buffer && t.buffer[k] == truth(s.ops[id].block, k)
    {
    }
    if Safe(truth, s, Insert(id)) && s.block.None? {
      assert found == map[];
    }
  }

  lemma SetSafeIff(truth: Truth, s: State, id: nat)
    requires AllTrue(truth, s) && Enabled(s, InsertSet(id))
    ensures AllTrue(truth, Apply(s, InsertSet(id))) <==> Safe(truth, s, InsertSet(id))
  {
    var t, k := Apply(s, InsertSet(id)), s.ops[id].phase.key;
    assert PhaseTrue(truth, s.ops[id]);
    PhasesStayTrue(truth, s, InsertSet(id));
    assert k in t.buffer && t.buffer[k] == truth(s.ops[id].block, k);
  }

  // ---------- every run in which overlapping operations share a block ----------

  /** An operation begins only while all operations in flight are for its block. */
  predicate Disciplined(s: State, step: Step) {
    step.BeginGet? || step.BeginSet? ==> forall id :: id in s.ops ==> s.ops[id].block == step.block
  }

  ghost predicate Together(s: State) {
    forall id :: id in s.ops ==> s.block == Some(s.ops[id].block)
  }

  lemma StepKeepsTogether(s: State, step: Step)
    requires Together(s) && Enabled(s, step) && Disciplined(s, step)
    ensures Together(Apply(s, step)) && InEpoch(s, step)
  {
  }

  ghost predicate IsRun(truth: Truth, s: State, steps: seq<Step>)
    decreases steps
  {
    steps == [] ||
    (Enabled(s, steps[0]) && Honest(truth, steps[0]) && IsRun(truth, Apply(s, steps[0]), steps[1..]))
  }

  ghost predicate DisciplinedRun(truth: Truth, s: State, steps: seq<Step>)
    requires IsRun(truth, s, steps)
    decreases steps
  {
    steps == [] || (Disciplined(s, steps[0]) && DisciplinedRun(truth, Apply(s, steps[0]), steps[1..]))
  }

  ghost function Final(truth: Truth, s: State, steps: seq<Step>): State
    requires IsRun(truth, s, steps)
    decreases steps
  {
    if steps == [] then s else Final(truth, Apply(s, steps[0]), steps[1..])
  }

  const EMPTY := State(None, map[], map[], map[], {})

  /** Over every interleaving of checks, lookups, awaits, inserts and (failing) background
      writes in which overlapping operations share their block, every buffer entry is the
      answer at the recorded block and every response is the answer at its own block. */
  lemma CacheAgrees(truth: Truth, steps: seq<Step>)
    requires IsRun(truth, EMPTY, steps) && DisciplinedRun(truth, EMPTY, steps)
    ensures AllTrue(truth, Final(truth, EMPTY, steps))
  {
    assert AllTrue(truth, EMPTY) && Together(EMPTY);
    RunKeepsTruth(truth, EMPTY, steps);
  }

  lemma {:induction false} RunKeepsTruth(truth: Truth, s: State, steps: seq<Step>)
    requires AllTrue(truth, s) && Together(s)
    requires IsRun(truth, s, steps) && DisciplinedRun(truth, s, steps)
    ensures AllTrue(truth, Final(truth, s, steps))
    decreases steps
  {
    if steps != [] {
      StepKeepsTogether(s, steps[0]);
      StepKeepsTruth(truth, s, steps[0]);
      RunKeepsTruth(truth, Apply(s, steps[0]), steps[1..]);
    }
  }

  ghost predicate SafeRun(truth: Truth, s: State, steps: seq<Step>)
    requires IsRun(truth, s, steps)
    decreases steps
  {
    steps == [] || (Safe(truth, s, steps[0]) && SafeRun(truth, Apply(s, steps[0]), steps[1..]))
  }

  ghost predicate TrueThroughout(truth: Truth, s: State, steps: seq<Step>)
    requires IsRun(truth, s, steps)
    decreases steps
  {
    AllTrue(truth, s) && (steps == [] || TrueThroughout(truth, Apply(s, steps[0]), steps[1..]))
  }

  /** Over every interleaving at all: the cache and its responses are right at every point of a run
      if and only if all its steps are safe. */
  lemma CacheAgreesIff(truth: Truth, steps: seq<Step>)
    requires IsRun(truth, EMPTY, steps)
    ensures TrueThroughout(truth, EMPTY, steps) <==> SafeRun(truth, EMPTY, steps)
  {
    assert AllTrue(truth, EMPTY);
    RunSafeIff(truth, EMPTY, steps);
  }

  lemma {:induction false} RunSafeIff(truth: Truth, s: State, steps: seq<Step>)
    requires AllTrue(truth, s) && IsRun(truth, s, steps)
    ensures TrueThroughout(truth, s, steps) <==> SafeRun(truth, s, steps)
    decreases steps
  {
    if steps != [] {
      StepSafeIff(truth, s, steps[0]);
      if Safe(truth, s, steps[0]) {
        RunSafeIff(truth, Apply(s, steps[0]), steps[1..]);
      } else {
        assert !TrueThroughout(truth, Apply(s, steps[0]), steps[1..]);
      }
    }
  }

  // ---------- schedules ----------

  // A schedule fixes everything but the answers of the chain; the value of a set is filled in.
  function Fill(truth: Truth, step: Step): Step {
    if step.BeginSet? then step.(value := truth(step.block, step.key)) else step
  }

  function Filled(truth: Truth, steps: seq<Step>): seq<Step> {
    if steps == [] then [] else [Fill(truth, steps[0])] + Filled(truth, steps[1..])
  }

  /** The same up to values. */
  ghost predicate SamePhase(p: Phase, q: Phase) {
    match p
    case Looking(_, _) => p == q
    case Inserting(found) => q.Inserting? && found.Keys == q.found.Keys
    case Setting(k, _) => q.Setting? && k == q.key
    case Writing(k, _) => q.Writing? && k == q.entry
  }

  ghost predicate SameOps(s: map<nat, Op>, t: map<nat, Op>) {
    && (forall id :: id in s <==> id in t)
    && (forall id :: id in s ==> s[id].block == t[id].block && SamePhase(s[id].phase, t[id].phase))
  }

  ghost predicate SameShape(s: State, t: State) {
    && s.block == t.block && s.buffer.Keys == t.buffer.Keys && s.store.Keys == t.store.Keys
    && SameOps(s.ops, t.ops)
  }

  lemma ShapeEnables(s: State, t: State, step: Step, a: Truth, b: Truth)
    requires SameShape(s, t)
    ensures Enabled(s, Fill(a, step)) <==> Enabled(t, Fill(b, step))
  {
  }

  lemma StepKeepsShape(s: State, t: State, step: Step, a: Truth, b: Truth)
    requires SameShape(s, t) && Enabled(s, Fill(a, step)) && Enabled(t, Fill(b, step))
    ensures SameShape(Apply(s, Fill(a, step)), Apply(t, Fill(b, step)))
  {
    match step {
      case BeginGet(_, _, _) => BeginKeepsShape(s, t, step, a, b);
      case BeginSet(_, _, _, _) => BeginKeepsShape(s, t, step, a, b);
      case Ask(id, rows) => AskKeepsShape(s, t, id, rows);
      case Insert(id) => InsertKeepsShape(s, t, id);
      case Look(id) => LookKeepsShape(s, t, id);
      case _ =>
    }
  }

  lemma BeginKeepsShape(s: State, t: State, step: Step, a: Truth, b: Truth)
    requires SameShape(s, t) && Enabled(s, Fill(a, step)) && Enabled(t, Fill(b, step)) && (step.BeginGet? || step.BeginSet?)
    ensures SameShape(Apply(s, Fill(a, step)), Apply(t, Fill(b, step)))
  {
  }

  lemma AskKeepsShape(s: State, t: State, id: nat, rows: set<Key>)
    requires SameShape(s, t) && Enabled(s, Ask(id, rows)) && Enabled(t, Ask(id, rows))
    ensures SameShape(Apply(s, Ask(id, rows)), Apply(t, Ask(id, rows)))
  {
  }

  lemma InsertKeepsShape(s: State, t: State, id: nat)
    requires SameShape(s, t) && Enabled(s, Insert(id)) && Enabled(t, Insert(id))
    ensures SameShape(Apply(s, Insert(id)), Apply(t, Insert(id)))
  {
  }

  lemma LookKeepsShape(s: State, t: State, id: nat)
    requires SameShape(s, t) && Enabled(s, Look(id)) && Enabled(t, Look(id))
    ensures SameShape(Apply(s, Look(id)), Apply(t, Look(id)))
  {
  }

  /** Something is looked up, inserted or set only while the operation's own block is recorded. */
  ghost predicate Own(s: State, step: Step)
    requires Enabled(s, step)
  {
    match step
    case Look(id) => s.ops[id].phase.todo[0] in s.buffer ==> s.block == Some(s.ops[id].block)
    case Insert(id) => s.ops[id].phase.found != map[] ==> s.block == Some(s.ops[id].block)
    case InsertSet(id) => s.block == Some(s.ops[id].block)
    case _ => true
  }

  ghost predicate OwnRun(truth: Truth, s: State, steps: seq<Step>)
    requires IsRun(truth, s, steps)
    decreases steps
  {
    steps == [] || (Own(s, steps[0]) && OwnRun(truth, Apply(s, steps[0]), steps[1..]))
  }

  lemma ShapeOwn(s: State, t: State, step: Step, a: Truth, b: Truth)
    requires SameShape(s, t) && Enabled(s, Fill(a, step)) && Enabled(t, Fill(b, step))
    ensures Own(s, Fill(a, step)) <==> Own(t, Fill(b, step))
  {
    if step.Insert? {
      var f, g := s.ops[step.id].phase.found, t.ops[step.id].phase.found;
      assert f == map[] <==> f.Keys == {};
      assert g == map[] <==> g.Keys == {};
    }
  }

  /** Whether a schedule can be run, and which blocks its accesses meet, does not depend on the
      answers. */
  lemma {:induction false} ShapeRuns(s: State, t: State, steps: seq<Step>, a: Truth, b: Truth)
    requires SameShape(s, t) && IsRun(a, s, Filled(a, steps))
    ensures IsRun(b, t, Filled(b, steps))
    ensures OwnRun(a, s, Filled(a, steps)) <==> OwnRun(b, t, Filled(b, steps))
    decreases steps
  {
    if steps != [] {
      ShapeEnables(s, t, steps[0], a, b);
      StepKeepsShape(s, t, steps[0], a, b);
      ShapeOwn(s, t, steps[0], a, b);
      assert Filled(a, steps)[1..] == Filled(a, steps[1..]) && Filled(b, steps)[1..] == Filled(b, steps[1..]);
      ShapeRuns(Apply(s, Fill(a, steps[0])), Apply(t, Fill(b, steps[0])), steps[1..], a, b);
    }
  }

  lemma {:induction false} OwnIsSafe(truth: Truth, s: State, steps: seq<Step>)
    requires IsRun(truth, s, steps) && OwnRun(truth, s, steps)
    ensures SafeRun(truth, s, steps)
    decreases steps
  {
    if steps != [] {
      OwnIsSafe(truth, Apply(s, steps[0]), steps[1..]);
    }
  }

  const NULLS: Truth := (p: Ptr, k: Key) => Null

  // A chain whose answers at one block differ from those at all others.
  function Telling(own: Ptr): Truth {
    (p: Ptr, k: Key) => if p == own then Value([]) else Null
  }

  /** Where an access meets a foreign block, some chain tells. */
  lemma {:induction false} ForeignIsUnsafe(s: State, steps: seq<Step>) returns (own: Ptr)
    requires IsRun(NULLS, s, Filled(NULLS, steps)) && !OwnRun(NULLS, s, Filled(NULLS, steps))
    ensures forall t :: SameShape(s, t) ==>
              IsRun(Telling(own), t, Filled(Telling(own), steps)) && !SafeRun(Telling(own), t, Filled(Telling(own), steps))
    decreases steps
  {
    var step := Fill(NULLS, steps[0]);
    assert Filled(NULLS, steps)[1..] == Filled(NULLS, steps[1..]);
    if Own(s, step) {
      own := ForeignIsUnsafe(Apply(s, step), steps[1..]);
    } else {
      own := s.ops[step.id].block;
    }
    forall t | SameShape(s, t)
      ensures IsRun(Telling(own), t, Filled(Telling(own), steps)) && !SafeRun(Telling(own), t, Filled(Telling(own), steps))
    {
      var truth := Telling(own);
      ShapeRuns(s, t, steps, NULLS, truth);
      assert Filled(truth, steps)[1..] == Filled(truth, steps[1..]);
      if Own(s, step) {
        StepKeepsShape(s, t, steps[0], NULLS, truth);
      } else {
        ForeignStep(s, t, step);
      }
    }
  }

  lemma ForeignStep(s: State, t: State, step: Step)
    requires SameShape(s, t) && Enabled(s, step) && Enabled(t, step) && !Own(s, step)
    ensures !Safe(Telling(s.ops[step.id].block), t, step)
  {
    var id, truth := step.id, Telling(s.ops[step.id].block);
    if step.Insert? {
      var found := t.ops[id].phase.found;
      assert s.ops[id].phase.found.Keys == found.Keys;
      var k :| k in s.ops[id].phase.found;
      assert k in found && !Agree(truth, t, id, k);
    }
  }

  ghost predicate RightFor(truth: Truth, steps: seq<Step>) {
    IsRun(truth, EMPTY, Filled(truth, steps)) && TrueThroughout(truth, EMPTY, Filled(truth, steps))
  }

  /** A schedule is right whatever the chain answers if and only if everything is looked up, inserted
      and set while the operation's own block is recorded. */
  lemma RightForAllIff(steps: seq<Step>)
    requires IsRun(NULLS, EMPTY, Filled(NULLS, steps))
    ensures (forall truth :: RightFor(truth, steps)) <==> OwnRun(NULLS, EMPTY, Filled(NULLS, steps))
  {
    if OwnRun(NULLS, EMPTY, Filled(NULLS, steps)) {
      forall truth
        ensures RightFor(truth, steps)
      {
        ShapeRuns(EMPTY, EMPTY, steps, NULLS, truth);
        OwnIsSafe(truth, EMPTY, Filled(truth, steps));
        CacheAgreesIff(truth, Filled(truth, steps));
      }
    } else {
      var own := ForeignIsUnsafe(EMPTY, steps);
      assert SameShape(EMPTY, EMPTY);
      CacheAgreesIff(Telling(own), Filled(Telling(own), steps));
      assert !RightFor(Telling(own), steps);
    }
  }

  /** Two operations for different blocks that overlap can leave a wrong entry behind: the
      first stores its answer after the second has switched the cache to its block, and a
      later get for the second block is answered with it. */
  lemma OverlapBreaks(truth: Truth, a: Ptr, b: Ptr, k: Key)
    requires truth(a, k) != truth(b, k)
    ensures exists steps :: IsRun(truth, EMPTY, steps) && !AllTrue(truth, Final(truth, EMPTY, steps))
  {
    var r1 := Then(truth, EMPTY, [], BeginSet(0, a, k, truth(a, k)));
    var r2 := Then(truth, EMPTY, r1, BeginGet(1, b, []));
    var r3 := Then(truth, EMPTY, r2, InsertSet(0));
    var s3 := Final(truth, EMPTY, r3);
    assert s3.block == Some(b) && s3.buffer[k] == truth(a, k);
    var r4 := Then(truth, EMPTY, r3, BeginGet(2, b, [k]));
    var r5 := Then(truth, EMPTY, r4, Look(2));
    assert (b, k, truth(a, k)) in Final(truth, EMPTY, r5).answers;
  }

  lemma {:induction false} Then(truth: Truth, s: State, steps: seq<Step>, step: Step) returns (more: seq<Step>)
    requires IsRun(truth, s, steps) && Enabled(Final(truth, s, steps), step) && Honest(truth, step)
    ensures IsRun(truth, s, more) && Final(truth, s, more) == Apply(Final(truth, s, steps), step)
    ensures more == steps + [step]
    decreases steps
  {
    more := steps + [step];
    if steps == [] {
      assert more[0] == step && more[1..] == [];
    } else {
      var rest := Then(truth, Apply(s, steps[0]), steps[1..], step);
      assert more[0] == steps[0] && more[1..] == rest;
    }
  }
}
