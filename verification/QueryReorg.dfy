/** The reorg check at the end of a query: `deployment_changed` against every run of forward
    and revert steps that may happen while the query executes. */
module QueryReorg {
  import opened Types

  // `data` is what a query sees: for each block number the block that wrote there.
  datatype Deployment = Deployment(head: Ptr, reorgCount: nat, currentDepth: nat, maxDepth: nat, data: map<int, Hash>)

  /** The data as of block `q`. */
  function View(s: Deployment, q: int): map<int, Hash> {
    map n | n in s.data && n <= q :: s.data[n]
  }

  // Processing a block moves forward, possibly past blocks without triggers; reverting a
  // block moves to its parent.
  datatype Step = Forward(to: Ptr) | Revert(parent: Ptr)

  predicate Enabled(s: Deployment, step: Step) {
    match step
    case Forward(p) => s.head.number < p.number
    case Revert(p) => p.number < s.head.number
  }

  /** `forward_block_ptr` and `revert_block_ptr` of the deployment store. */
  function Apply(s: Deployment, step: Step): Deployment {
    match step
    case Forward(p) => s.(head := p, currentDepth := 0, data := s.data[p.number := p.hash])
    case Revert(p) =>
      Deployment(p, s.reorgCount + 1, s.currentDepth + 1,
                 if s.maxDepth < s.currentDepth + 1 then s.currentDepth + 1 else s.maxDepth, View(s, p.number))
  }

  /** A run in which every revert goes back by at most `gap` block numbers. */
  ghost predicate IsRun(s: Deployment, steps: seq<Step>, gap: int)
    decreases steps
  {
    steps == [] ||
    (&& Enabled(s, steps[0])
     && (steps[0].Revert? ==> s.head.number - steps[0].parent.number <= gap)
     && IsRun(Apply(s, steps[0]), steps[1..], gap))
  }

  ghost function Final(s: Deployment, steps: seq<Step>): Deployment
    decreases steps
  {
    if steps == [] then s else Final(Apply(s, steps[0]), steps[1..])
  }

  /** Over the whole run nothing at or below `q` is ever replaced: each read sees the same. */
  ghost predicate Stable(s: Deployment, steps: seq<Step>, q: int)
    decreases steps
  {
    steps == [] ||
    (View(Apply(s, steps[0]), q) == View(s, q) && Stable(Apply(s, steps[0]), steps[1..], q))
  }

  /** `deployment_changed`: an error if reverts may have reached the queried blocks. */
  predicate Changed(state: Deployment, now: Deployment, queried: int) {
    && now.reorgCount > state.reorgCount
    && queried + now.maxDepth * (now.reorgCount - state.reorgCount) > state.head.number
  }

  // ---------- the counters ----------

  ghost function Reverts(steps: seq<Step>): nat {
    if steps == [] then 0 else Reverts(steps[1..]) + if steps[0].Revert? then 1 else 0
  }

  /** The length of the streak of reverts that is under way after `steps`, if it was `depth` before. */
  ghost function Streak(depth: nat, steps: seq<Step>): nat
    decreases steps
  {
    if steps == [] then depth else Streak(if steps[0].Revert? then depth + 1 else 0, steps[1..])
  }

  ghost function Target(step: Step): Ptr {
    if step.Forward? then step.to else step.parent
  }

  /** Over every run the head is where the last step went. */
  lemma {:induction false} HeadExact(s: Deployment, steps: seq<Step>)
    ensures Final(s, steps).head == if steps == [] then s.head else Target(steps[|steps| - 1])
    decreases steps
  {
    if steps != [] {
      HeadExact(Apply(s, steps[0]), steps[1..]);
    }
  }

  /** The last block that a run wrote at a number and did not revert; nothing if there is none, unless
      it was there before and never reverted. */
  ghost function Written(before: Option<Hash>, steps: seq<Step>, n: int): Option<Hash>
    decreases steps
  {
    if steps == [] then before
    else
      var now := match steps[0]
                 case Forward(p) => if p.number == n then Some(p.hash) else before
                 case Revert(p) => if n <= p.number then before else None;
      Written(now, steps[1..], n)
  }

  /** The block whose writes a query as of `q` sees at number `n`. */
  function Seen(s: Deployment, q: int, n: int): Option<Hash> {
    if n in View(s, q) then Some(View(s, q)[n]) else None
  }

  /** Over every run a query sees exactly that, up to the block it is as of. */
  lemma {:induction false} DataExact(s: Deployment, steps: seq<Step>, q: int, n: int)
    ensures Seen(Final(s, steps), q, n) == if n <= q then Written(Seen(s, q, n), steps, n) else None
    decreases steps
  {
    if steps != [] {
      DataExact(Apply(s, steps[0]), steps[1..], q, n);
    }
  }

  /** Over every run: the reorg count is the number of reverts, the current depth the length of the
      current streak of them, and the greatest depth that of the longest. */
  lemma {:induction false} CountersExact(s: Deployment, steps: seq<Step>)
    requires s.currentDepth <= s.maxDepth
    ensures var t := Final(s, steps);
            && t.reorgCount == s.reorgCount + Reverts(steps)
            && t.currentDepth == Streak(s.currentDepth, steps)
            && t.maxDepth >= s.maxDepth
            && (forall i :: 0 <= i <= |steps| ==> Streak(s.currentDepth, steps[..i]) <= t.maxDepth)
            && (t.maxDepth == s.maxDepth || exists i :: 0 <= i <= |steps| && t.maxDepth == Streak(s.currentDepth, steps[..i]))
    decreases steps
  {
    if steps != [] {
      var next := Apply(s, steps[0]);
      var rest := steps[1..];
      CountersExact(next, rest);
      forall i | 0 < i <= |steps|
        ensures Streak(s.currentDepth, steps[..i]) == Streak(next.currentDepth, rest[..i - 1])
      {
        assert steps[..i][1..] == rest[..i - 1];
      }
      assert steps[..0] == [] && rest[..0] == [];
      assert next.currentDepth == Streak(s.currentDepth, steps[..1]);
      var t := Final(s, steps);
      if t.maxDepth != next.maxDepth {
        var i :| 0 <= i <= |rest| && t.maxDepth == Streak(next.currentDepth, rest[..i]);
        assert t.maxDepth == Streak(s.currentDepth, steps[..i + 1]);
      }
    }
  }

  // ---------- soundness ----------

  lemma MulMonotone(gap: int, bound: int, n: int)
    requires gap <= bound && 0 <= n
    ensures gap * n <= bound * n
  {
  }

  lemma MulStep(gap: int, n: int)
    ensures gap * (n + 1) == gap * n + gap
  {
  }

  lemma {:induction false} CountsGrow(s: Deployment, steps: seq<Step>)
    ensures Final(s, steps).reorgCount >= s.reorgCount
    ensures Final(s, steps).maxDepth >= s.maxDepth
    ensures Final(s, steps).reorgCount > s.reorgCount ==> Final(s, steps).maxDepth >= 1
    decreases steps
  {
    if steps != [] {
      CountsGrow(Apply(s, steps[0]), steps[1..]);
    }
  }

  /** If the remaining reverts, each of at most `gap`, cannot take the head below `q`, then
      everything at or below `q` is stable. */
  lemma {:induction false} StableIfFar(s: Deployment, steps: seq<Step>, gap: nat, q: int)
    requires IsRun(s, steps, gap)
    requires q + gap * (Final(s, steps).reorgCount - s.reorgCount) <= s.head.number
    requires q <= s.head.number
    ensures Stable(s, steps, q)
    decreases steps
  {
    if steps != [] {
      var t := Apply(s, steps[0]);
      var left := Final(s, steps).reorgCount - t.reorgCount;
      CountsGrow(t, steps[1..]);
      if steps[0].Revert? {
        MulStep(gap, left);
      }
      MulMonotone(0, gap, left);
      StableIfFar(t, steps[1..], gap, q);
      assert View(t, q) == View(s, q);
    }
  }

  /** If the check passes and no single revert spans more block numbers than the deepest reorg
      spans blocks, no queried block was replaced at any time during the run. */
  lemma CheckIsSound(s: Deployment, steps: seq<Step>, gap: nat, q: int)
    requires IsRun(s, steps, gap) && q <= s.head.number
    requires !Changed(s, Final(s, steps), q)
    requires gap <= Final(s, steps).maxDepth || gap <= 1
    ensures Stable(s, steps, q)
  {
    CountsGrow(s, steps);
    var now := Final(s, steps);
    var n := now.reorgCount - s.reorgCount;
    if n > 0 {
      MulMonotone(gap, now.maxDepth, n);
    }
    StableIfFar(s, steps, gap, q);
  }

  /** The check is right for all deployments, runs and queried blocks. */
  ghost predicate Sound(gap: nat) {
    forall s: Deployment, steps: seq<Step>, q: int ::
      IsRun(s, steps, gap) && q <= s.head.number && !Changed(s, Final(s, steps), q) ==> Stable(s, steps, q)
  }

  /** It is so if and only if a revert never skips a block number: on a chain with gaps a single
      revert can go below the queried block while the check counts it as one block. */
  lemma SoundIffNoGaps(gap: nat)
    ensures Sound(gap) <==> gap <= 1
  {
    if gap <= 1 {
      forall s: Deployment, steps: seq<Step>, q: int
        | IsRun(s, steps, gap) && q <= s.head.number && !Changed(s, Final(s, steps), q)
        ensures Stable(s, steps, q)
      {
        CheckIsSound(s, steps, gap, q);
      }
    } else {
      var s := Deployment(Ptr(1, 10), 0, 0, 0, map[10 := 1]);
      var r, f := Revert(Ptr(2, 8)), Forward(Ptr(3, 9));
      var s1 := Apply(s, r);
      var s2 := Apply(s1, f);
      assert IsRun(s2, [], gap) && IsRun(s1, [f], gap) && [r, f][1..] == [f] && [f][1..] == [];
      assert IsRun(s, [r, f], gap);
      assert Final(s1, [f]) == s2 && Final(s, [r, f]) == s2;
      assert s2.maxDepth == 1 && s2.reorgCount == 1 && !Changed(s, s2, 9);
      assert 9 in View(s2, 9) && 9 !in View(s1, 9);
      assert !Stable(s1, [f], 9);
      assert !Stable(s, [r, f], 9);
    }
  }

  // ---------- precision ----------

  /** One reverted block: the check rejects reads up to the depth of the deepest reorg the deployment
      has ever had, although only reads of the reverted block can have changed. */
  lemma OneRevert(s: Deployment, parent: Ptr, q: int)
    requires parent.number == s.head.number - 1
    ensures IsRun(s, [Revert(parent)], 1)
    ensures Changed(s, Final(s, [Revert(parent)]), q) <==> s.head.number < q + s.maxDepth || s.head.number <= q + s.currentDepth
    ensures q <= parent.number ==> Stable(s, [Revert(parent)], q)
  {
    var steps, t := [Revert(parent)], Apply(s, Revert(parent));
    assert steps[1..] == [] && IsRun(t, [], 1) && Final(t, []) == t;
    assert Final(s, steps) == t && t.reorgCount - s.reorgCount == 1;
    if q <= parent.number {
      assert View(t, q) == View(s, q);
      assert Stable(t, [], q);
    }
  }

  // ---------- the query ----------

  ghost predicate Queryable(s: Deployment, blocks: seq<int>) {
    forall i :: 0 <= i < |blocks| ==> 0 <= blocks[i] <= s.head.number
  }

  /** The block loop and the final check of `execute`: `blocks` are the blocks the query reads
      at, all of them queryable in the initial state (`locate_blocks`), and `now` is the state
      at the end. If the query succeeds, each of its reads was stable over the whole run. */
  method Execute(state: Deployment, blocks: seq<int>, now: Deployment, allowChange: bool,
                 ghost steps: seq<Step>, ghost gap: nat) returns (ok: bool)
    requires state.head.number >= 0 && Queryable(state, blocks)
    requires IsRun(state, steps, gap) && now == Final(state, steps)
    ensures blocks != [] ==>
              (ok <==> || allowChange || now.reorgCount == state.reorgCount
                       || forall i :: 0 <= i < |blocks| ==>
                            blocks[i] <= state.head.number - now.maxDepth * (now.reorgCount - state.reorgCount))
    ensures ok && !allowChange && (gap <= 1 || gap <= now.maxDepth) ==>
              forall i :: 0 <= i < |blocks| ==> Stable(state, steps, blocks[i])
  {
    var maxBlock := 0;
    ghost var at: nat := 0;
    for i := 0 to |blocks|
      invariant 0 <= maxBlock <= state.head.number
      invariant forall j :: 0 <= j < i ==> blocks[j] <= maxBlock
      invariant if i == 0 then maxBlock == 0 else at < i && blocks[at] == maxBlock
    {
      if maxBlock <= blocks[i] {
        maxBlock, at := blocks[i], i;
      }
    }
    ok := allowChange || !Changed(state, now, maxBlock);
    CountsGrow(state, steps);
    if ok && !allowChange && (gap <= 1 || gap <= now.maxDepth) {
      CheckIsSound(state, steps, gap, maxBlock);
      forall i | 0 <= i < |blocks|
        ensures Stable(state, steps, blocks[i])
      {
        StableBelow(state, steps, maxBlock, blocks[i]);
      }
    }
  }

  lemma {:induction false} StableBelow(s: Deployment, steps: seq<Step>, q: int, p: int)
    requires Stable(s, steps, q) && p <= q
    ensures Stable(s, steps, p)
    decreases steps
  {
    if steps != [] {
      var t := Apply(s, steps[0]);
      ViewBelow(s, t, q, p);
      StableBelow(t, steps[1..], q, p);
    }
  }

  lemma ViewBelow(s: Deployment, t: Deployment, q: int, p: int)
    requires View(t, q) == View(s, q) && p <= q
    ensures View(t, p) == View(s, p)
  {
    forall n | n <= p
      ensures n in s.data <==> n in t.data
      ensures n in s.data ==> s.data[n] == t.data[n]
    {
      assert n in View(s, q) <==> n in View(t, q);
      assert n in View(s, q) ==> View(s, q)[n] == View(t, q)[n];
    }
  }
}
