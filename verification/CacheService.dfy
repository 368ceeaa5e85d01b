/** What callers get out of the call cache in every interleaving: a get answers every key unless the
    persistent cache fails or does not have it, and what is written stays. */
module CacheService {
  import opened Types
  import opened CallCache

  /** The key was answered at the block. */
  ghost predicate Done(s: State, b: Ptr, k: Key) {
    exists v :: (b, k, v) in s.answers
  }

  lemma AnswersGrow(s: State, step: Step)
    requires Enabled(s, step)
    ensures s.answers <= Apply(s, step).answers
  {
  }

  lemma DoneStays(s: State, step: Step, b: Ptr, k: Key)
    requires Enabled(s, step) && Done(s, b, k)
    ensures Done(Apply(s, step), b, k)
  {
    AnswersGrow(s, step);
    var v :| (b, k, v) in s.answers;
    assert (b, k, v) in Apply(s, step).answers;
  }

  lemma {:induction false} DoneForGood(truth: Truth, s: State, steps: seq<Step>, b: Ptr, k: Key)
    requires IsRun(truth, s, steps) && Done(s, b, k)
    ensures Done(Final(truth, s, steps), b, k)
    decreases steps
  {
    if steps != [] {
      DoneStays(s, steps[0], b, k);
      DoneForGood(truth, Apply(s, steps[0]), steps[1..], b, k);
    }
  }

  // ---------- a get and its keys ----------

  /** The first `n` keys have been looked up: each was answered or is missing. */
  ghost predicate LookedUp(s: State, b: Ptr, keys: seq<Key>, missing: seq<Key>, n: nat)
    requires n <= |keys|
  {
    forall i :: 0 <= i < n ==> Done(s, b, keys[i]) || keys[i] in missing
  }

  /** Each key was answered, is about to be, or is excused. */
  ghost predicate Covered(s: State, b: Ptr, keys: seq<Key>, found: map<Key, Retval>, excused: set<Key>) {
    forall i :: 0 <= i < |keys| ==> Done(s, b, keys[i]) || keys[i] in found || keys[i] in excused
  }

  ghost predicate Serving(s: State, id: nat, b: Ptr, keys: seq<Key>, excused: set<Key>) {
    && id in s.ops && s.ops[id].block == b
    && match s.ops[id].phase
       case Looking(todo, missing) =>
         |todo| <= |keys| && todo == keys[|keys| - |todo|..] && LookedUp(s, b, keys, missing, |keys| - |todo|)
       case Inserting(found) => Covered(s, b, keys, found, excused)
       case _ => false
  }

  /** The keys that the persistent cache is asked for and does not return. */
  ghost function NotReturned(s: State, id: nat, rows: set<Key>): set<Key>
    requires id in s.ops && s.ops[id].phase.Looking?
  {
    set k | k in s.ops[id].phase.missing && !(k in rows && (s.ops[id].block, k) in s.store)
  }

  /** Steps of other operations do not get in the way. */
  lemma OthersKeepServing(s: State, step: Step, id: nat, b: Ptr, keys: seq<Key>, excused: set<Key>)
    requires Serving(s, id, b, keys, excused) && Enabled(s, step) && step.id != id
    ensures Serving(Apply(s, step), id, b, keys, excused)
  {
    var t := Apply(s, step);
    assert id in t.ops && t.ops[id] == s.ops[id];
    forall k | Done(s, b, k)
      ensures Done(t, b, k)
    {
      DoneStays(s, step, b, k);
    }
    match s.ops[id].phase {
      case Looking(todo, missing) =>
        assert LookedUp(t, b, keys, missing, |keys| - |todo|);
      case Inserting(found) =>
        assert Covered(t, b, keys, found, excused);
    }
  }

  lemma LookAnswers(s: State, id: nat)
    requires Enabled(s, Look(id))
    ensures var op, t := s.ops[id], Apply(s, Look(id));
            var k := op.phase.todo[0];
            && id in t.ops && t.ops[id].block == op.block && t.ops[id].phase.Looking?
            && t.ops[id].phase.todo == op.phase.todo[1..] && op.phase.missing <= t.ops[id].phase.missing
            && (Done(t, op.block, k) || k in t.ops[id].phase.missing)
  {
    var op, t := s.ops[id], Apply(s, Look(id));
    var k := op.phase.todo[0];
    if k in s.buffer {
      assert (op.block, k, s.buffer[k]) in t.answers;
    }
  }

  lemma TailOfTail(keys: seq<Key>, todo: seq<Key>)
    requires 0 < |todo| <= |keys| && todo == keys[|keys| - |todo|..]
    ensures todo[0] == keys[|keys| - |todo|] && todo[1..] == keys[|keys| - |todo[1..]|..]
  {
  }

  lemma LookServes(s: State, id: nat, b: Ptr, keys: seq<Key>, excused: set<Key>)
    requires Serving(s, id, b, keys, excused) && Enabled(s, Look(id))
    ensures Serving(Apply(s, Look(id)), id, b, keys, excused)
  {
    var t := Apply(s, Look(id));
    var todo, missing := s.ops[id].phase.todo, t.ops[id].phase.missing;
    LookAnswers(s, id);
    TailOfTail(keys, todo);
    forall i | 0 <= i < |keys| - |todo| + 1
      ensures Done(t, b, keys[i]) || keys[i] in missing
    {
      if i < |keys| - |todo| && Done(s, b, keys[i]) {
        DoneStays(s, Look(id), b, keys[i]);
      }
    }
  }

  lemma AskServes(s: State, id: nat, rows: set<Key>, b: Ptr, keys: seq<Key>, excused: set<Key>)
    requires Serving(s, id, b, keys, excused) && Enabled(s, Ask(id, rows))
    ensures Serving(Apply(s, Ask(id, rows)), id, b, keys, NotReturned(s, id, rows))
  {
    var t := Apply(s, Ask(id, rows));
    var missing := s.ops[id].phase.missing;
    forall i | 0 <= i < |keys|
      ensures Done(t, b, keys[i]) || keys[i] in t.ops[id].phase.found || keys[i] in NotReturned(s, id, rows)
    {
      if Done(s, b, keys[i]) {
        DoneStays(s, Ask(id, rows), b, keys[i]);
      }
    }
  }

  lemma InsertServes(s: State, id: nat, b: Ptr, keys: seq<Key>, excused: set<Key>)
    requires Serving(s, id, b, keys, excused) && Enabled(s, Insert(id))
    ensures forall i :: 0 <= i < |keys| ==> Done(Apply(s, Insert(id)), b, keys[i]) || keys[i] in excused
  {
    var t, found := Apply(s, Insert(id)), s.ops[id].phase.found;
    forall i | 0 <= i < |keys|
      ensures Done(t, b, keys[i]) || keys[i] in excused
    {
      if Done(s, b, keys[i]) {
        DoneStays(s, Insert(id), b, keys[i]);
      } else if keys[i] in found {
        assert (b, keys[i], found[keys[i]]) in t.answers;
      }
    }
  }

  /** In the run the persistent cache was asked for the missing keys of the operation, and failed or
      did not return `k`. */
  ghost predicate Excused(truth: Truth, s: State, steps: seq<Step>, id: nat, k: Key)
    requires IsRun(truth, s, steps)
    decreases steps
  {
    steps != [] &&
    (|| (steps[0] == AskFails(id) && s.ops[id].phase.Looking? && s.ops[id].phase.todo == [])
     || (steps[0].Ask? && steps[0].id == id && !(k in steps[0].rows && (s.ops[id].block, k) in s.store))
     || Excused(truth, Apply(s, steps[0]), steps[1..], id, k))
  }

  lemma {:induction false} ServedRun(truth: Truth, s: State, steps: seq<Step>, id: nat, b: Ptr, keys: seq<Key>, excused: set<Key>, i: nat)
    requires IsRun(truth, s, steps) && Serving(s, id, b, keys, excused)
    requires id !in Final(truth, s, steps).ops && i < |keys|
    ensures Done(Final(truth, s, steps), b, keys[i]) || keys[i] in excused || Excused(truth, s, steps, id, keys[i])
    decreases steps
  {
    var step, t := steps[0], Apply(s, steps[0]);
    if step.id != id {
      OthersKeepServing(s, step, id, b, keys, excused);
      ServedRun(truth, t, steps[1..], id, b, keys, excused, i);
    } else {
      match step {
        case Look(_) =>
          LookServes(s, id, b, keys, excused);
          ServedRun(truth, t, steps[1..], id, b, keys, excused, i);
        case Ask(_, rows) =>
          AskServes(s, id, rows, b, keys, excused);
          ServedRun(truth, t, steps[1..], id, b, keys, NotReturned(s, id, rows), i);
        case Insert(_) =>
          InsertServes(s, id, b, keys, excused);
          if Done(t, b, keys[i]) {
            DoneForGood(truth, t, steps[1..], b, keys[i]);
          }
        case AskFails(_) =>
      }
    }
  }

  /** In every interleaving: a get that has ended has answered each of its keys, unless the persistent
      cache failed or did not have the key. */
  lemma EveryKeyServed(truth: Truth, s: State, id: nat, b: Ptr, keys: seq<Key>, steps: seq<Step>, i: nat)
    requires Enabled(s, BeginGet(id, b, keys)) && i < |keys|
    requires var t := Apply(s, BeginGet(id, b, keys));
             IsRun(truth, t, steps) && id !in Final(truth, t, steps).ops
    ensures var t := Apply(s, BeginGet(id, b, keys));
            Done(Final(truth, t, steps), b, keys[i]) || Excused(truth, t, steps, id, keys[i])
  {
    var t := Apply(s, BeginGet(id, b, keys));
    assert keys[0..] == keys && LookedUp(t, b, keys, [], 0);
    ServedRun(truth, t, steps, id, b, keys, {}, i);
  }

  /** The persistent cache adds exactly the missing keys that it returns a row for, with their stored
      values. */
  lemma AskExact(s: State, id: nat, rows: set<Key>, k: Key)
    requires Enabled(s, Ask(id, rows))
    ensures var op, t := s.ops[id], Apply(s, Ask(id, rows));
            && id in t.ops && t.ops[id].phase.Inserting?
            && var found := t.ops[id].phase.found;
               && (k in found <==> k in rows && k in op.phase.missing && (op.block, k) in s.store)
               && (k in found ==> found[k] == s.store[(op.block, k)])
  {
  }

  // ---------- nothing unasked ----------

  type Asked = set<(Ptr, Key)>

  ghost predicate PhaseAsked(op: Op, asked: Asked) {
    match op.phase
    case Looking(todo, missing) => forall k :: k in todo || k in missing ==> (op.block, k) in asked
    case Inserting(found) => forall k :: k in found ==> (op.block, k) in asked
    case _ => true
  }

  /** Only what was asked for is answered or about to be. */
  ghost predicate OnlyAsked(s: State, asked: Asked) {
    && (forall a :: a in s.answers ==> (a.0, a.1) in asked)
    && (forall id :: id in s.ops ==> PhaseAsked(s.ops[id], asked))
  }

  ghost function AskedBy(step: Step): Asked {
    if step.BeginGet? then set k | k in step.keys :: (step.block, k) else {}
  }

  lemma StepOnlyAsked(s: State, step: Step, asked: Asked)
    requires OnlyAsked(s, asked) && Enabled(s, step)
    ensures OnlyAsked(Apply(s, step), asked + AskedBy(step))
  {
    var t, more := Apply(s, step), asked + AskedBy(step);
    forall id | id in t.ops
      ensures PhaseAsked(t.ops[id], more)
    {
      if id != step.id {
        assert t.ops[id] == s.ops[id];
        assert PhaseAsked(s.ops[id], asked);
      } else if step.id in s.ops {
        assert PhaseAsked(s.ops[step.id], asked);
        if step.Look? {
          LookAsked(s, id, asked);
        }
      }
    }
    if step.Look? || step.Insert? {
      assert PhaseAsked(s.ops[step.id], asked);
      assert step.Look? ==> s.ops[step.id].phase.todo[0] in s.ops[step.id].phase.todo;
    }
  }

  lemma LookAsked(s: State, id: nat, asked: Asked)
    requires Enabled(s, Look(id)) && PhaseAsked(s.ops[id], asked)
    ensures PhaseAsked(Apply(s, Look(id)).ops[id], asked)
  {
    var todo := s.ops[id].phase.todo;
    assert todo[0] in todo && forall k :: k in todo[1..] ==> k in todo;
  }

  /** Some get of the run asks for the key at the block. */
  ghost predicate Requested(steps: seq<Step>, b: Ptr, k: Key) {
    exists i :: 0 <= i < |steps| && steps[i].BeginGet? && steps[i].block == b && k in steps[i].keys
  }

  lemma {:induction false} RunOnlyAsked(truth: Truth, s: State, steps: seq<Step>, asked: Asked, a: (Ptr, Key, Retval))
    requires IsRun(truth, s, steps) && OnlyAsked(s, asked) && a in Final(truth, s, steps).answers
    ensures (a.0, a.1) in asked || Requested(steps, a.0, a.1)
    decreases steps
  {
    if steps != [] {
      StepOnlyAsked(s, steps[0], asked);
      RunOnlyAsked(truth, Apply(s, steps[0]), steps[1..], asked + AskedBy(steps[0]), a);
      if Requested(steps[1..], a.0, a.1) {
        var i :| 0 <= i < |steps| - 1 && steps[1..][i].BeginGet? && steps[1..][i].block == a.0 && a.1 in steps[1..][i].keys;
        assert steps[i + 1] == steps[1..][i];
      }
    }
  }

  /** In every interleaving from an empty cache each response is to a key that a get asked for, at the
      block it asked about. */
  lemma NothingUnasked(truth: Truth, steps: seq<Step>, a: (Ptr, Key, Retval))
    requires IsRun(truth, EMPTY, steps) && a in Final(truth, EMPTY, steps).answers
    ensures Requested(steps, a.0, a.1)
  {
    RunOnlyAsked(truth, EMPTY, steps, {}, a);
  }

  // ---------- the persistent cache ----------

  /** In the run an operation for the block and key finished its background write. */
  ghost predicate Written(truth: Truth, s: State, steps: seq<Step>, p: (Ptr, Key))
    requires IsRun(truth, s, steps)
    decreases steps
  {
    steps != [] &&
    (|| (steps[0].Write? && steps[0].ok && p == (s.ops[steps[0].id].block, s.ops[steps[0].id].phase.entry))
     || Written(truth, Apply(s, steps[0]), steps[1..], p))
  }

  /** The persistent cache keeps what it has and gains exactly what is written to it. */
  lemma {:induction false} StoredExactly(truth: Truth, s: State, steps: seq<Step>, p: (Ptr, Key))
    requires IsRun(truth, s, steps)
    ensures p in Final(truth, s, steps).store <==> p in s.store || Written(truth, s, steps, p)
    decreases steps
  {
    if steps != [] {
      StoredExactly(truth, Apply(s, steps[0]), steps[1..], p);
    }
  }

  // ---------- progress ----------

  /** How many steps an operation still takes at most: a lookup per key, asking the persistent cache
      and inserting what it has; or inserting and writing. */
  ghost function Ahead(s: State, id: nat): nat {
    if id !in s.ops then 0
    else
      match s.ops[id].phase
      case Looking(todo, _) => |todo| + 2
      case Inserting(_) => 1
      case Setting(_, _) => 2
      case Writing(_, _) => 1
  }

  /** Every step takes its own operation one step further, a failed request ends it, and no other
      operation is affected. */
  lemma StepAhead(s: State, step: Step, id: nat)
    requires Enabled(s, step)
    ensures Ahead(Apply(s, step), id) ==
            if id != step.id then Ahead(s, id)
            else match step
                 case BeginGet(_, _, keys) => |keys| + 2
                 case BeginSet(_, _, _, _) => 2
                 case AskFails(_) => 0
                 case _ => Ahead(s, id) - 1
  {
  }

  ghost function OwnSteps(steps: seq<Step>, id: nat): nat {
    if steps == [] then 0 else OwnSteps(steps[1..], id) + if steps[0].id == id then 1 else 0
  }

  predicate Begins(step: Step, id: nat) {
    (step.BeginGet? || step.BeginSet?) && step.id == id
  }

  /** In every interleaving an operation has ended once it has taken the steps it had ahead, and it takes
      no more than these. */
  lemma {:induction false} EndsInTime(truth: Truth, s: State, steps: seq<Step>, id: nat)
    requires IsRun(truth, s, steps) && forall i :: 0 <= i < |steps| ==> !Begins(steps[i], id)
    ensures var left := Ahead(Final(truth, s, steps), id);
            && left + OwnSteps(steps, id) <= Ahead(s, id)
            && (left == 0 || left + OwnSteps(steps, id) == Ahead(s, id))
            && (left == 0 <==> id !in Final(truth, s, steps).ops)
    decreases steps
  {
    if steps != [] {
      StepAhead(s, steps[0], id);
      assert !Begins(steps[0], id);
      EndsInTime(truth, Apply(s, steps[0]), steps[1..], id);
    }
  }

  // ---------- the buffer ----------

  /** As long as every operation that begins is for the recorded block, nothing leaves the buffer. */
  lemma {:induction false} BufferKept(truth: Truth, s: State, steps: seq<Step>, b: Ptr, k: Key)
    requires IsRun(truth, s, steps) && s.block == Some(b) && k in s.buffer
    requires forall i :: 0 <= i < |steps| && (steps[i].BeginGet? || steps[i].BeginSet?) ==> steps[i].block == b
    ensures Final(truth, s, steps).block == Some(b) && k in Final(truth, s, steps).buffer
    decreases steps
  {
    if steps != [] {
      BufferAfter(s, steps[0], k);
      BufferKept(truth, Apply(s, steps[0]), steps[1..], b, k);
    }
  }

  /** What is in the buffer after a step: nothing if another block begins, otherwise what was there and
      what the step inserts. */
  lemma BufferAfter(s: State, step: Step, k: Key)
    requires Enabled(s, step)
    ensures var t := Apply(s, step);
            if (step.BeginGet? || step.BeginSet?) && s.block != Some(step.block) then t.block == Some(step.block) && k !in t.buffer
            else
              && t.block == s.block
              && (k in t.buffer <==>
                    || k in s.buffer
                    || (step.Insert? && k in s.ops[step.id].phase.found)
                    || (step.InsertSet? && k == s.ops[step.id].phase.key))
  {
  }
}
