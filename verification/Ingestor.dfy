/** The polling block ingestor over the chain store: `do_poll`, `ingest_block` and the
    store's `attempt_chain_head_update`. */
module Ingestor {
  import opened Types

  datatype BlockHash = BlockHash(id: int)
  datatype BlockInfo = BlockInfo(number: int, parent: BlockHash)

  // The block with a given hash; a hash determines its block.
  type World = BlockHash -> BlockInfo

  ghost predicate Ordered(world: World) {
    forall h :: world(world(h).parent).number < world(h).number
  }

  ghost function Ancestor(world: World, h: BlockHash, k: nat): BlockHash
    decreases k
  {
    if k == 0 then h else Ancestor(world, world(h).parent, k - 1)
  }

  // ---------- the chain store ----------

  /** `missing_parent`: walk from a head candidate until a block is absent, the walk has
      reached `first`, or it has reached the genesis block. */
  function MissingFrom(world: World, stored: set<BlockHash>, first: int, genesis: BlockHash, h: BlockHash): Option<BlockHash>
    requires Ordered(world)
    decreases world(h).number - first
  {
    var p := world(h).parent;
    if p !in stored then Some(p)
    else if world(p).number <= first || p == genesis then None
    else MissingFrom(world, stored, first, genesis, p)
  }

  function MissingParent(world: World, stored: set<BlockHash>, first: int, genesis: BlockHash, h: BlockHash): Option<BlockHash>
    requires Ordered(world)
  {
    if h == genesis then None else MissingFrom(world, stored, first, genesis, h)
  }

  /** Every ancestor of `h` numbered at least `first`, up to the genesis block, is stored. */
  ghost predicate Complete(world: World, stored: set<BlockHash>, first: int, genesis: BlockHash, h: BlockHash) {
    forall k: nat :: k >= 1 && world(Ancestor(world, h, k)).number >= first && BeforeGenesis(world, genesis, h, k) ==>
      Ancestor(world, h, k) in stored
  }

  // The walk from `h` passes no genesis block before its k-th step.
  ghost predicate BeforeGenesis(world: World, genesis: BlockHash, h: BlockHash, k: nat) {
    forall j: nat :: j < k ==> Ancestor(world, h, j) != genesis
  }

  lemma {:induction false} AncestorLower(world: World, h: BlockHash, k: nat)
    requires Ordered(world)
    ensures world(Ancestor(world, h, k)).number <= world(h).number - k
    decreases k
  {
    if k > 0 {
      AncestorLower(world, world(h).parent, k - 1);
    }
  }

  lemma {:induction false} MissingIsLower(world: World, stored: set<BlockHash>, first: int, genesis: BlockHash, h: BlockHash)
    requires Ordered(world)
    ensures MissingFrom(world, stored, first, genesis, h).Some? ==>
              var m := MissingFrom(world, stored, first, genesis, h).value;
              m !in stored && world(m).number < world(h).number
    decreases world(h).number - first
  {
    var p := world(h).parent;
    if p in stored && world(p).number > first && p != genesis {
      MissingIsLower(world, stored, first, genesis, p);
    }
  }

  /** Nothing missing means the ancestry is complete, and only then. */
  lemma {:induction false} NothingMissing(world: World, stored: set<BlockHash>, first: int, genesis: BlockHash, h: BlockHash)
    requires Ordered(world) && h != genesis && MissingFrom(world, stored, first, genesis, h).None?
    ensures Complete(world, stored, first, genesis, h)
    decreases world(h).number - first
  {
    var p := world(h).parent;
    forall k: nat | k >= 1 && world(Ancestor(world, h, k)).number >= first && BeforeGenesis(world, genesis, h, k)
      ensures Ancestor(world, h, k) in stored
    {
      if k > 1 {
        assert Ancestor(world, h, 1) == Ancestor(world, p, 0) == p;
        AncestorLower(world, p, k - 1);
        assert p != genesis;
        NothingMissing(world, stored, first, genesis, p);
        assert BeforeGenesis(world, genesis, p, k - 1) by {
          forall j: nat | j < k - 1
            ensures Ancestor(world, p, j) != genesis
          {
            assert Ancestor(world, h, j + 1) == Ancestor(world, p, j);
          }
        }
      }
    }
  }

  /** The ancestors the walk of `missing_parent` from `h` looks at. */
  function Walk(world: World, first: int, genesis: BlockHash, h: BlockHash): set<BlockHash>
    requires Ordered(world)
    decreases world(h).number - first
  {
    var p := world(h).parent;
    {p} + if world(p).number <= first || p == genesis then {} else Walk(world, first, genesis, p)
  }

  /** What has to be stored for `c` to become the head. */
  function Needed(world: World, genesis: BlockHash, ancestorCount: int, c: BlockHash): set<BlockHash>
    requires Ordered(world)
  {
    if c == genesis then {} else Walk(world, FirstBlock(world, c, ancestorCount), genesis, c)
  }

  /** The walk finds a missing block exactly if not all it looks at is stored. */
  lemma {:induction false} MissingInWalk(world: World, stored: set<BlockHash>, first: int, genesis: BlockHash, h: BlockHash)
    requires Ordered(world)
    ensures MissingFrom(world, stored, first, genesis, h).None? <==> Walk(world, first, genesis, h) <= stored
    ensures MissingFrom(world, stored, first, genesis, h).Some? ==>
              MissingFrom(world, stored, first, genesis, h).value in Walk(world, first, genesis, h) - stored
    decreases world(h).number - first
  {
    var p := world(h).parent;
    assert p in Walk(world, first, genesis, h);
    if world(p).number > first && p != genesis {
      MissingInWalk(world, stored, first, genesis, p);
    }
  }

  lemma MissingIsNeeded(world: World, stored: set<BlockHash>, genesis: BlockHash, ancestorCount: int, c: BlockHash)
    requires Ordered(world)
    ensures var missing := MissingParent(world, stored, FirstBlock(world, c, ancestorCount), genesis, c);
            && (missing.None? <==> Needed(world, genesis, ancestorCount, c) <= stored)
            && (missing.Some? ==> missing.value in Needed(world, genesis, ancestorCount, c) - stored)
  {
    if c != genesis {
      MissingInWalk(world, stored, FirstBlock(world, c, ancestorCount), genesis, c);
    }
  }

  lemma NeededComplete(world: World, stored: set<BlockHash>, genesis: BlockHash, ancestorCount: int, c: BlockHash)
    requires Ordered(world) && Needed(world, genesis, ancestorCount, c) <= stored
    ensures WithAncestors(world, stored, genesis, ancestorCount, c)
  {
    WithAncestorsComplete(world, stored, genesis, ancestorCount, c);
    if c != genesis {
      MissingIsNeeded(world, stored, genesis, ancestorCount, c);
      NothingMissing(world, stored, FirstBlock(world, c, ancestorCount), genesis, c);
    } else {
      assert Ancestor(world, c, 0) == genesis;
    }
  }

  // ---- the same in terms of the number of ancestors asked for

  /** Every ancestor of `c` up to the genesis block that is at most `ancestorCount` lower than `c`, and
      not below zero, is stored. */
  ghost predicate WithAncestors(world: World, stored: set<BlockHash>, genesis: BlockHash, ancestorCount: int, c: BlockHash) {
    forall k: nat ::
      && k >= 1 && BeforeGenesis(world, genesis, c, k)
      && world(Ancestor(world, c, k)).number >= 0
      && world(Ancestor(world, c, k)).number >= world(c).number - ancestorCount
      ==> Ancestor(world, c, k) in stored
  }

  lemma WithAncestorsComplete(world: World, stored: set<BlockHash>, genesis: BlockHash, ancestorCount: int, c: BlockHash)
    ensures WithAncestors(world, stored, genesis, ancestorCount, c) <==>
            Complete(world, stored, FirstBlock(world, c, ancestorCount), genesis, c)
  {
  }

  /** The walk gets to the k-th ancestor: the genesis block does not come before it, and all blocks
      between `c` and it are above zero and less than `ancestorCount` lower than `c`. */
  ghost predicate Reached(world: World, genesis: BlockHash, ancestorCount: int, c: BlockHash, k: nat) {
    && k >= 1 && BeforeGenesis(world, genesis, c, k)
    && forall j: nat :: 1 <= j < k ==>
         && world(Ancestor(world, c, j)).number > 0
         && world(Ancestor(world, c, j)).number > world(c).number - ancestorCount
  }

  ghost predicate ReachedAbove(world: World, first: int, genesis: BlockHash, h: BlockHash, k: nat) {
    && k >= 1 && BeforeGenesis(world, genesis, h, k)
    && forall j: nat :: 1 <= j < k ==> world(Ancestor(world, h, j)).number > first
  }

  lemma ReachedFirst(world: World, genesis: BlockHash, ancestorCount: int, c: BlockHash, k: nat)
    ensures Reached(world, genesis, ancestorCount, c, k) <==>
            ReachedAbove(world, FirstBlock(world, c, ancestorCount), genesis, c, k)
  {
  }

  lemma OneUp(world: World, first: int, genesis: BlockHash, h: BlockHash, k: nat)
    requires k >= 1
    ensures Ancestor(world, h, k) == Ancestor(world, world(h).parent, k - 1)
    ensures ReachedAbove(world, first, genesis, h, k) <==>
            h != genesis &&
            (k == 1 || (world(h).parent != genesis && world(world(h).parent).number > first &&
                        ReachedAbove(world, first, genesis, world(h).parent, k - 1)))
  {
    var p := world(h).parent;
    assert forall j: nat :: j >= 1 ==> Ancestor(world, h, j) == Ancestor(world, p, j - 1);
    assert Ancestor(world, h, 0) == h && Ancestor(world, p, 0) == p;
    if k > 1 && ReachedAbove(world, first, genesis, h, k) {
      assert Ancestor(world, h, 1) == p;
      forall j: nat | j < k - 1
        ensures Ancestor(world, p, j) != genesis && world(Ancestor(world, p, j)).number > first
      {
        assert Ancestor(world, h, j + 1) == Ancestor(world, p, j);
      }
    }
  }

  lemma {:induction false} WalkExact(world: World, first: int, genesis: BlockHash, h: BlockHash, b: BlockHash)
    requires Ordered(world) && h != genesis
    ensures b in Walk(world, first, genesis, h) <==>
            exists k: nat :: ReachedAbove(world, first, genesis, h, k) && b == Ancestor(world, h, k)
    decreases world(h).number - first
  {
    var p := world(h).parent;
    OneUp(world, first, genesis, h, 1);
    assert Ancestor(world, h, 1) == Ancestor(world, p, 0) == p;
    if world(p).number > first && p != genesis {
      WalkExact(world, first, genesis, p, b);
      if k: nat :| ReachedAbove(world, first, genesis, p, k) && b == Ancestor(world, p, k) {
        OneUp(world, first, genesis, h, k + 1);
        assert b == Ancestor(world, h, k + 1);
      }
    }
    if k: nat :| ReachedAbove(world, first, genesis, h, k) && b == Ancestor(world, h, k) {
      OneUp(world, first, genesis, h, k);
    }
  }

  /** What a candidate needs are exactly the blocks that the walk gets to. */
  lemma NeededExact(world: World, genesis: BlockHash, ancestorCount: int, c: BlockHash, b: BlockHash)
    requires Ordered(world)
    ensures b in Needed(world, genesis, ancestorCount, c) <==>
            exists k: nat :: Reached(world, genesis, ancestorCount, c, k) && b == Ancestor(world, c, k)
  {
    forall k: nat
      ensures Reached(world, genesis, ancestorCount, c, k) <==>
              ReachedAbove(world, FirstBlock(world, c, ancestorCount), genesis, c, k)
    {
      ReachedFirst(world, genesis, ancestorCount, c, k);
    }
    if c != genesis {
      WalkExact(world, FirstBlock(world, c, ancestorCount), genesis, c, b);
    } else {
      assert Ancestor(world, c, 0) == genesis;
    }
  }

  /** The first block on the walk that is not stored. */
  ghost predicate FirstMissing(world: World, stored: set<BlockHash>, genesis: BlockHash, ancestorCount: int, c: BlockHash, m: BlockHash) {
    exists k: nat ::
      && Reached(world, genesis, ancestorCount, c, k) && m == Ancestor(world, c, k) && m !in stored
      && forall j: nat :: 1 <= j < k ==> Ancestor(world, c, j) in stored
  }

  lemma {:induction false} MissingAt(world: World, stored: set<BlockHash>, first: int, genesis: BlockHash, h: BlockHash) returns (k: nat)
    requires Ordered(world) && h != genesis && MissingFrom(world, stored, first, genesis, h).Some?
    ensures ReachedAbove(world, first, genesis, h, k)
    ensures MissingFrom(world, stored, first, genesis, h) == Some(Ancestor(world, h, k))
    ensures forall j: nat :: 1 <= j < k ==> Ancestor(world, h, j) in stored
    decreases world(h).number - first
  {
    var p := world(h).parent;
    assert Ancestor(world, h, 1) == Ancestor(world, p, 0) == p;
    if p !in stored {
      k := 1;
    } else {
      var k' := MissingAt(world, stored, first, genesis, p);
      k := k' + 1;
      forall j: nat | 1 <= j < k
        ensures Ancestor(world, h, j) in stored
      {
        assert Ancestor(world, h, j) == Ancestor(world, p, j - 1);
      }
    }
    OneUp(world, first, genesis, h, k);
  }

  /** `missing_parent` answers with that block, and with nothing exactly if there is none. */
  lemma MissingExact(world: World, stored: set<BlockHash>, genesis: BlockHash, ancestorCount: int, c: BlockHash)
    requires Ordered(world)
    ensures var missing := MissingParent(world, stored, FirstBlock(world, c, ancestorCount), genesis, c);
            && (missing.Some? ==> FirstMissing(world, stored, genesis, ancestorCount, c, missing.value))
            && (missing.None? <==>
                forall k: nat :: Reached(world, genesis, ancestorCount, c, k) ==> Ancestor(world, c, k) in stored)
  {
    var first := FirstBlock(world, c, ancestorCount);
    var missing := MissingParent(world, stored, first, genesis, c);
    MissingIsNeeded(world, stored, genesis, ancestorCount, c);
    if missing.Some? {
      var k := MissingAt(world, stored, first, genesis, c);
      ReachedFirst(world, genesis, ancestorCount, c, k);
    } else {
      forall k: nat | Reached(world, genesis, ancestorCount, c, k)
        ensures Ancestor(world, c, k) in stored
      {
        NeededExact(world, genesis, ancestorCount, c, Ancestor(world, c, k));
      }
    }
  }

  lemma NeededLower(world: World, genesis: BlockHash, ancestorCount: int, c: BlockHash)
    requires Ordered(world)
    ensures forall b :: b in Needed(world, genesis, ancestorCount, c) ==> world(b).number < world(c).number
  {
    forall b | b in Needed(world, genesis, ancestorCount, c)
      ensures world(b).number < world(c).number
    {
      NeededExact(world, genesis, ancestorCount, c, b);
      var k: nat :| Reached(world, genesis, ancestorCount, c, k) && b == Ancestor(world, c, k);
      AncestorLower(world, c, k);
    }
  }

  /** A block is not among its own ancestors. */
  lemma CompleteWithoutSelf(world: World, stored: set<BlockHash>, genesis: BlockHash, ancestorCount: int, h: BlockHash)
    requires Ordered(world)
    ensures WithAncestors(world, stored + {h}, genesis, ancestorCount, h) <==> WithAncestors(world, stored, genesis, ancestorCount, h)
  {
    forall k: nat | k >= 1
      ensures Ancestor(world, h, k) != h
    {
      AncestorLower(world, h, k);
    }
  }

  /** Storing the missing block moves the walk strictly below it, or ends it. */
  lemma {:induction false} MissingAfterStore(world: World, stored: set<BlockHash>, first: int, genesis: BlockHash, h: BlockHash, m: BlockHash)
    requires Ordered(world) && MissingFrom(world, stored, first, genesis, h) == Some(m)
    ensures var next := MissingFrom(world, stored + {m}, first, genesis, h);
            next.Some? ==> first < world(m).number && world(next.value).number < world(m).number
    decreases world(h).number - first
  {
    var p := world(h).parent;
    if p !in stored {
      MissingIsLower(world, stored + {m}, first, genesis, p);
    } else {
      MissingAfterStore(world, stored, first, genesis, p, m);
    }
  }

  function Max(x: int, y: int): int {
    if x < y then y else x
  }

  function HeadNumber(world: World, head: Option<BlockHash>): int {
    if head.None? then -1 else world(head.value).number
  }

  // The order of head candidates: highest number first, then by hash.
  predicate Prefers(world: World, a: BlockHash, b: BlockHash) {
    world(a).number > world(b).number || (world(a).number == world(b).number && a.id <= b.id)
  }

  /** `chain_head_candidate`: the preferred block among those above the head. */
  predicate IsCandidate(world: World, stored: set<BlockHash>, head: Option<BlockHash>, c: BlockHash) {
    && c in stored && world(c).number > HeadNumber(world, head)
    && forall b :: b in stored ==> Prefers(world, c, b)
  }

  lemma {:induction false} Preferred(world: World, stored: set<BlockHash>) returns (c: BlockHash)
    requires stored != {}
    ensures c in stored && forall b :: b in stored ==> Prefers(world, c, b)
    decreases stored
  {
    var first :| first in stored;
    var rest := stored - {first};
    if rest == {} {
      assert stored == {first};
      return first;
    }
    var d := Preferred(world, rest);
    c := if Prefers(world, d, first) then d else first;
    forall b | b in stored
      ensures Prefers(world, c, b)
    {
      if b != first {
        assert b in rest;
        assert Prefers(world, d, b);
      }
    }
  }

  lemma CandidateExists(world: World, stored: set<BlockHash>, head: Option<BlockHash>)
    requires exists b :: b in stored && world(b).number > HeadNumber(world, head)
    ensures exists c :: c in stored && IsCandidate(world, stored, head, c)
  {
    var b :| b in stored && world(b).number > HeadNumber(world, head);
    var c := Preferred(world, stored);
    assert Prefers(world, c, b);
  }

  lemma CandidateUnique(world: World, stored: set<BlockHash>, head: Option<BlockHash>, c: BlockHash, d: BlockHash)
    requires IsCandidate(world, stored, head, c) && IsCandidate(world, stored, head, d)
    ensures c == d
  {
    assert Prefers(world, c, d) && Prefers(world, d, c);
  }

  function FirstBlock(world: World, c: BlockHash, ancestorCount: int): int {
    Max(0, world(c).number - ancestorCount)
  }

  /** No stored block is above the head. */
  predicate NoneAbove(world: World, stored: set<BlockHash>, head: Option<BlockHash>) {
    forall b :: b in stored ==> world(b).number <= HeadNumber(world, head)
  }

  /** What is fetched beside the latest block: what the candidate needs, if there is one. */
  ghost function Repair(world: World, stored: set<BlockHash>, head: Option<BlockHash>, genesis: BlockHash, ancestorCount: int): set<BlockHash>
    requires Ordered(world)
  {
    if c :| c in stored && IsCandidate(world, stored, head, c) then Needed(world, genesis, ancestorCount, c) else {}
  }

  lemma RepairsCandidate(world: World, stored: set<BlockHash>, head: Option<BlockHash>, genesis: BlockHash, ancestorCount: int, c: BlockHash)
    requires Ordered(world) && IsCandidate(world, stored, head, c)
    ensures Repair(world, stored, head, genesis, ancestorCount) == Needed(world, genesis, ancestorCount, c)
  {
    forall d | IsCandidate(world, stored, head, d)
      ensures d == c
    {
      CandidateUnique(world, stored, head, c, d);
    }
  }

  class ChainStore {
    const world: World
    const genesis: BlockHash
    var stored: set<BlockHash>
    var head: Option<BlockHash>

    constructor (world: World, genesis: BlockHash)
      ensures this.world == world && this.genesis == genesis && stored == {} && head == None
    {
      this.world, this.genesis, stored, head := world, genesis, {}, None;
    }

    ghost predicate HeadIs(c: BlockHash, ancestorCount: int)
      reads this
    {
      head == Some(c) && WithAncestors(world, stored, genesis, ancestorCount, c)
    }

    /** `attempt_chain_head_update`: the candidate becomes the head exactly if none of its
        ancestors in range is missing; otherwise the first missing one is returned. */
    method AttemptChainHeadUpdate(ancestorCount: int) returns (missing: Option<BlockHash>)
      requires Ordered(world)
      modifies this`head
      ensures (forall b :: b in stored ==> world(b).number <= HeadNumber(world, old(head))) ==> missing.None? && head == old(head)
      ensures forall c :: IsCandidate(world, stored, old(head), c) ==>
                missing == MissingParent(world, stored, FirstBlock(world, c, ancestorCount), genesis, c)
      ensures forall c :: IsCandidate(world, stored, old(head), c) ==>
                if missing.Some? then head == old(head) && FirstMissing(world, stored, genesis, ancestorCount, c, missing.value)
                else HeadIs(c, ancestorCount)
    {
      if forall b :: b in stored ==> world(b).number <= HeadNumber(world, head) {
        return None;
      }
      CandidateExists(world, stored, head);
      var c :| c in stored && IsCandidate(world, stored, head, c);
      forall d | IsCandidate(world, stored, head, d)
        ensures d == c
      {
        CandidateUnique(world, stored, head, c, d);
      }
      var first := FirstBlock(world, c, ancestorCount);
      missing := MissingParent(world, stored, first, genesis, c);
      MissingExact(world, stored, genesis, ancestorCount, c);
      if missing.Some? {
        return;
      }
      MissingIsNeeded(world, stored, genesis, ancestorCount, c);
      NeededComplete(world, stored, genesis, ancestorCount, c);
      head := Some(c);
    }
  }

  /** How many more missing blocks there can be once `m` is missing. */
  function Budget(world: World, first: int, m: BlockHash): nat {
    if world(m).number <= first then 1 else world(m).number - first + 1
  }

  // How ingesting a block goes: the node or the store fails before the block is stored, the store
  // fails when it updates the head afterwards, or nothing fails.
  datatype Reply = Unavailable | UpdateFails | Fine

  // The reply to the n-th block request of a poll.
  type Replies = (nat, BlockHash) -> Reply

  /** A request for each of these blocks was answered. */
  ghost predicate Answered(replies: Replies, blocks: set<BlockHash>) {
    forall b :: b in blocks ==> exists n :: replies(n, b) != Unavailable
  }

  ghost predicate AllFine(replies: Replies) {
    forall n, h :: replies(n, h) == Fine
  }

  class PollingBlockIngestor {
    const store: ChainStore
    const ancestorCount: int

    constructor (store: ChainStore, ancestorCount: int)
      ensures this.store == store && this.ancestorCount == ancestorCount
    {
      this.store, this.ancestorCount := store, ancestorCount;
    }

    /** `ingest_block`; `Err` is `false` here. If the head update fails the block stays stored. */
    method IngestBlock(reply: Reply, h: BlockHash) returns (ok: bool, missing: Option<BlockHash>)
      requires Ordered(store.world)
      modifies store
      ensures ok <==> reply == Fine
      ensures store.stored == if reply == Unavailable then old(store.stored) else old(store.stored) + {h}
      ensures !ok ==> store.head == old(store.head) && missing.None?
      ensures ok && NoneAbove(store.world, store.stored, old(store.head)) ==> missing.None? && store.head == old(store.head)
      ensures ok ==> forall c :: IsCandidate(store.world, store.stored, old(store.head), c) ==>
                missing == MissingParent(store.world, store.stored, FirstBlock(store.world, c, ancestorCount), store.genesis, c)
      ensures ok ==> forall c :: IsCandidate(store.world, store.stored, old(store.head), c) ==>
                if missing.Some? then store.head == old(store.head) else store.HeadIs(c, ancestorCount)
    {
      if reply == Unavailable {
        return false, None;
      }
      store.stored := store.stored + {h};
      if reply == UpdateFails {
        return false, None;
      }
      missing := store.AttemptChainHeadUpdate(ancestorCount);
      ok := true;
    }

    /** `do_poll`. The missing-parent loop is bounded, exactly the latest block and what the candidate
        for the head needs is stored, the head never goes back, and after a successful poll it is the
        candidate. Whether the latest block's ancestry is then complete is known in each case: if it
        is the candidate, if there is no candidate, and if another block is. */
    method DoPoll(latest: BlockHash, replies: Replies) returns (ok: bool, iterations: nat)
      requires Ordered(store.world)
      modifies store
      ensures iterations <= Max(1, ancestorCount)
      ensures Advances(old(store.head)) && (!ok ==> store.head == old(store.head))
      ensures (old(HeadStored()) ==> HeadStored()) && (old(HeadComplete()) ==> HeadComplete())
      ensures old(Stale(latest)) ==> ok && store.head == old(store.head) && store.stored == old(store.stored)
      ensures !old(Stale(latest)) ==> Stores(ok, latest, old(store.stored), old(store.head), replies)
      ensures ok && !old(Stale(latest)) ==> Settled(old(store.stored) + {latest}, old(store.head))
      ensures ok && !old(Stale(latest)) ==>
                (store.head == Some(latest) <==> IsCandidate(store.world, old(store.stored) + {latest}, old(store.head), latest))
      ensures ok && !old(Stale(latest)) && IsCandidate(store.world, old(store.stored) + {latest}, old(store.head), latest) ==>
                LatestComplete(store.stored, latest)
      ensures ok && !old(Stale(latest)) && NoneAbove(store.world, old(store.stored) + {latest}, old(store.head)) ==>
                (LatestComplete(store.stored, latest) <==> LatestComplete(old(store.stored), latest))
      ensures ok && !old(Stale(latest)) ==> forall c ::
                IsCandidate(store.world, old(store.stored) + {latest}, old(store.head), c) && c != latest ==>
                (LatestComplete(store.stored, latest) <==>
                 LatestComplete(old(store.stored) + Needed(store.world, store.genesis, ancestorCount, c), latest))
      ensures ok && !old(Stale(latest)) ==> Highest() && (store.head != old(store.head) ==> LeastHash())
      ensures AllFine(replies) ==> ok
    {
      if store.head.Some? {
        if store.head.value == latest {
          return true, 0;
        }
        if store.world(latest).number < store.world(store.head.value).number {
          return true, 0;
        }
      }
      ok, iterations := Ingest(latest, replies);
      ghost var start, before := old(store.stored) + {latest}, old(store.head);
      if ok {
        if exists b :: b in start && store.world(b).number > HeadNumber(store.world, before) {
          CandidateExists(store.world, start, before);
          ghost var c :| c in start && IsCandidate(store.world, start, before, c);
          RepairsCandidate(store.world, start, before, store.genesis, ancestorCount, c);
          NeededLower(store.world, store.genesis, ancestorCount, c);
        }
        WhenComplete(latest, old(store.stored), before);
      }
    }

    /** No stored block has a higher number than the head. */
    ghost predicate Highest()
      reads store
    {
      forall b :: b in store.stored ==>
        store.world(b).number <= if store.head.Some? then store.world(store.head.value).number else -1
    }

    /** Of the stored blocks with the number of the head, the head has the least hash. */
    ghost predicate LeastHash()
      reads store
    {
      store.head.Some? && forall b :: b in store.stored && store.world(b).number == store.world(store.head.value).number ==>
        store.head.value.id <= b.id
    }

    /** Every ancestor of the latest block in its range is among `stored`. */
    ghost predicate LatestComplete(stored: set<BlockHash>, latest: BlockHash)
      reads store
    {
      WithAncestors(store.world, stored, store.genesis, ancestorCount, latest)
    }

    /** What a poll from this state fetches beside the latest block. */
    ghost function Fetches(latest: BlockHash): set<BlockHash>
      requires Ordered(store.world)
      reads store
    {
      Repair(store.world, store.stored + {latest}, store.head, store.genesis, ancestorCount)
    }

    /** Nothing else is stored, only what the node has answered, and after success all of it. */
    ghost predicate Stores(ok: bool, latest: BlockHash, before: set<BlockHash>, head: Option<BlockHash>,
                           replies: Replies)
      requires Ordered(store.world)
      reads store
    {
      var fetched := Repair(store.world, before + {latest}, head, store.genesis, ancestorCount);
      && before <= store.stored <= before + {latest} + fetched
      && (ok ==> store.stored == before + {latest} + fetched)
      && (replies(0, latest) != Unavailable ==> latest in store.stored)
      && Answered(replies, store.stored - before)
    }

    lemma WhenComplete(latest: BlockHash, before: set<BlockHash>, head: Option<BlockHash>)
      requires Ordered(store.world)
      ensures var start := before + {latest};
              var after := start + Repair(store.world, start, head, store.genesis, ancestorCount);
              && (IsCandidate(store.world, start, head, latest) ==> LatestComplete(after, latest))
              && (NoneAbove(store.world, start, head) ==> (LatestComplete(after, latest) <==> LatestComplete(before, latest)))
              && forall c :: IsCandidate(store.world, start, head, c) ==>
                   (LatestComplete(after, latest) <==>
                    LatestComplete(before + Needed(store.world, store.genesis, ancestorCount, c), latest))
    {
      var start := before + {latest};
      var fetched := Repair(store.world, start, head, store.genesis, ancestorCount);
      assert start + fetched == (before + fetched) + {latest};
      CompleteWithoutSelf(store.world, before + fetched, store.genesis, ancestorCount, latest);
      if NoneAbove(store.world, start, head) {
        assert fetched == {} && before + fetched == before;
      }
      forall c | IsCandidate(store.world, start, head, c)
        ensures fetched == Needed(store.world, store.genesis, ancestorCount, c)
      {
        RepairsCandidate(store.world, start, head, store.genesis, ancestorCount, c);
      }
      if IsCandidate(store.world, start, head, latest) {
        NeededComplete(store.world, before + fetched, store.genesis, ancestorCount, latest);
      }
    }

    /** One poll, as far as a sequence of polls is concerned. */
    method Poll(latest: BlockHash, replies: Replies)
      requires Ordered(store.world)
      modifies store
      ensures HeadNumber(store.world, old(store.head)) <= HeadNumber(store.world, store.head)
      ensures old(store.stored) <= store.stored
      ensures (old(HeadStored()) ==> HeadStored()) && (old(HeadComplete()) ==> HeadComplete())
    {
      var _, _ := DoPoll(latest, replies);
    }

    /** Any number of polls, each with its own latest block and node answers. */
    method Run(latests: seq<BlockHash>, replies: nat -> Replies) returns (ghost heads: seq<int>)
      requires Ordered(store.world)
      modifies store
      ensures |heads| == |latests| + 1 && heads[0] == HeadNumber(store.world, old(store.head))
      ensures forall i, j :: 0 <= i < j < |heads| ==> heads[i] <= heads[j]
      ensures heads[|latests|] == HeadNumber(store.world, store.head) && old(store.stored) <= store.stored
      ensures (old(HeadStored()) ==> HeadStored()) && (old(HeadComplete()) ==> HeadComplete())
    {
      heads := [HeadNumber(store.world, store.head)];
      for i := 0 to |latests|
        invariant |heads| == i + 1 && heads[0] == HeadNumber(store.world, old(store.head))
        invariant forall k, j :: 0 <= k < j < |heads| ==> heads[k] <= heads[j]
        invariant heads[i] == HeadNumber(store.world, store.head) && old(store.stored) <= store.stored
        invariant (old(HeadStored()) ==> HeadStored()) && (old(HeadComplete()) ==> HeadComplete())
      {
        Poll(latests[i], replies(i));
        heads := heads + [HeadNumber(store.world, store.head)];
      }
    }

    /** The poll has nothing to do: the head is the latest block or is ahead of it. */
    ghost predicate Stale(latest: BlockHash)
      reads store
    {
      store.head.Some? && (store.head.value == latest || store.world(latest).number < store.world(store.head.value).number)
    }

    ghost predicate HeadStored()
      reads store
    {
      store.head.Some? ==> store.head.value in store.stored
    }

    /** The ancestors of the head in range are stored. */
    ghost predicate HeadComplete()
      reads store
    {
      store.head.Some? && store.head.value != store.genesis ==> LatestComplete(store.stored, store.head.value)
    }

    /** The head is unchanged or has a higher number than before. */
    ghost predicate Advances(before: Option<BlockHash>)
      reads store
    {
      store.head == before || HeadNumber(store.world, before) < HeadNumber(store.world, store.head)
    }

    /** The head is the preferred block above the old head with its ancestry complete, or
        unchanged if there is no block above it. */
    ghost predicate Settled(stored: set<BlockHash>, before: Option<BlockHash>)
      reads store
    {
      && (forall c :: IsCandidate(store.world, stored, before, c) ==> store.HeadIs(c, ancestorCount))
      && ((forall b :: b in stored ==> store.world(b).number <= HeadNumber(store.world, before)) ==> store.head == before)
    }

    method Ingest(latest: BlockHash, replies: Replies) returns (ok: bool, iterations: nat)
      requires Ordered(store.world)
      modifies store
      ensures iterations <= Max(1, ancestorCount)
      ensures Stores(ok, latest, old(store.stored), old(store.head), replies)
      ensures Advances(old(store.head)) && (!ok ==> store.head == old(store.head))
      ensures ok ==> Settled(old(store.stored) + {latest}, old(store.head))
      ensures AllFine(replies) ==> ok
    {
      var missing;
      ghost var c;
      ok, missing, c := IngestLatest(latest, replies);
      iterations := 0;
      assert replies(0, latest) != Unavailable ==> Answered(replies, {latest});
      if !ok || missing.None? {
        assert store.stored - old(store.stored) <= if replies(0, latest) == Unavailable then {} else {latest};
        return;
      }
      ok, iterations := FetchMissing(missing.value, replies, store.stored, store.head, c.value);
      assert store.stored - old(store.stored) <= (store.stored - (old(store.stored) + {latest})) + {latest};
      if ok {
        SettledBy(c.value, old(store.stored) + {latest}, old(store.head));
      }
    }

    /** The first request of a poll; `c` is the candidate for the head, if there is one. */
    method IngestLatest(latest: BlockHash, replies: Replies)
      returns (ok: bool, missing: Option<BlockHash>, ghost c: Option<BlockHash>)
      requires Ordered(store.world)
      modifies store
      ensures ok <==> replies(0, latest) == Fine
      ensures !ok || missing.Some? ==> store.head == old(store.head)
      ensures store.stored == if replies(0, latest) == Unavailable then old(store.stored) else old(store.stored) + {latest}
      ensures ok && c.None? ==> missing.None? && store.head == old(store.head)
      ensures ok && c.Some? ==>
                && IsCandidate(store.world, store.stored, old(store.head), c.value)
                && missing == MissingParent(store.world, store.stored, FirstBlock(store.world, c.value, ancestorCount), store.genesis, c.value)
      ensures ok ==> old(Fetches(latest)) ==
                     if c.None? then {} else Needed(store.world, store.genesis, ancestorCount, c.value)
      ensures ok && missing.None? ==> old(Fetches(latest)) <= store.stored && Settled(store.stored, old(store.head)) && Advances(old(store.head))
    {
      ok, missing := IngestBlock(replies(0, latest), latest);
      c := None;
      if ok && !NoneAbove(store.world, store.stored, old(store.head)) {
        CandidateExists(store.world, store.stored, old(store.head));
        ghost var d :| d in store.stored && IsCandidate(store.world, store.stored, old(store.head), d);
        c := Some(d);
        RepairsCandidate(store.world, store.stored, old(store.head), store.genesis, ancestorCount, d);
        MissingIsNeeded(store.world, store.stored, store.genesis, ancestorCount, d);
      }
    }

    lemma SettledBy(c: BlockHash, stored: set<BlockHash>, before: Option<BlockHash>)
      requires IsCandidate(store.world, stored, before, c) && store.HeadIs(c, ancestorCount)
      ensures Settled(stored, before) && Advances(before)
    {
      forall d | IsCandidate(store.world, stored, before, d)
        ensures d == c
      {
        CandidateUnique(store.world, stored, before, c, d);
      }
    }

    /** One iteration: the next missing block, if any, is strictly lower. */
    method FetchOne(reply: Reply, h: BlockHash, ghost head: Option<BlockHash>, ghost c: BlockHash)
      returns (ok: bool, missing: Option<BlockHash>)
      requires Ordered(store.world) && store.head == head
      requires IsCandidate(store.world, store.stored, head, c) && store.world(h).number < store.world(c).number
      requires MissingParent(store.world, store.stored, FirstBlock(store.world, c, ancestorCount), store.genesis, c) == Some(h)
      modifies store
      ensures ok <==> reply == Fine
      ensures store.stored == if reply == Unavailable then old(store.stored) else old(store.stored) + {h}
      ensures !ok || missing.Some? ==> store.head == head
      ensures ok ==> IsCandidate(store.world, store.stored, head, c)
      ensures ok ==> missing == MissingParent(store.world, store.stored, FirstBlock(store.world, c, ancestorCount), store.genesis, c)
      ensures ok && missing.Some? ==>
                store.world(missing.value).number < store.world(h).number && FirstBlock(store.world, c, ancestorCount) < store.world(h).number
      ensures ok && missing.None? ==> store.HeadIs(c, ancestorCount)
    {
      MissingAfterStore(store.world, store.stored, FirstBlock(store.world, c, ancestorCount), store.genesis, c, h);
      KeepsCandidate(store.world, store.stored, head, c, h);
      ok, missing := IngestBlock(reply, h);
    }

    /** The missing-parent loop. */
    method FetchMissing(first: BlockHash, replies: Replies,
                        ghost start: set<BlockHash>, ghost head: Option<BlockHash>, ghost c: BlockHash)
      returns (ok: bool, iterations: nat)
      requires Ordered(store.world) && store.stored == start && store.head == head
      requires IsCandidate(store.world, start, head, c)
      requires MissingParent(store.world, start, FirstBlock(store.world, c, ancestorCount), store.genesis, c) == Some(first)
      modifies store
      ensures iterations <= Max(1, ancestorCount)
      ensures start <= store.stored <= start + Needed(store.world, store.genesis, ancestorCount, c)
      ensures Answered(replies, store.stored - start)
      ensures !ok ==> store.head == head
      ensures ok ==> store.stored == start + Needed(store.world, store.genesis, ancestorCount, c) && store.HeadIs(c, ancestorCount)
      ensures AllFine(replies) ==> ok
    {
      ghost var world, genesis := store.world, store.genesis;
      ghost var low, needed := FirstBlock(world, c, ancestorCount), Needed(world, genesis, ancestorCount, c);
      MissingIsLower(world, start, low, genesis, c);
      MissingIsNeeded(world, start, genesis, ancestorCount, c);
      var missing := Some(first);
      iterations := 0;
      while missing.Some?
        invariant store.world == world && store.genesis == genesis && start <= store.stored <= start + needed
        invariant Answered(replies, store.stored - start)
        invariant IsCandidate(world, store.stored, head, c)
        invariant missing.Some? ==> store.head == head
        invariant MissingParent(world, store.stored, low, genesis, c) == missing
        invariant missing.Some? ==> world(missing.value).number < world(c).number
        invariant missing.Some? ==> iterations + Budget(world, low, missing.value) <= Max(1, ancestorCount)
        invariant missing.None? ==> iterations <= Max(1, ancestorCount) && store.HeadIs(c, ancestorCount)
        decreases if missing.Some? then 1 + Budget(world, low, missing.value) else 0
      {
        var h := missing.value;
        ghost var was := store.stored;
        MissingIsNeeded(world, was, genesis, ancestorCount, c);
        ok, missing := FetchOne(replies(iterations + 1, h), h, head, c);
        assert replies(iterations + 1, h) != Unavailable ==> Answered(replies, (was - start) + {h});
        assert store.stored - start <= (was - start) + if replies(iterations + 1, h) == Unavailable then {} else {h};
        if !ok {
          return false, iterations;
        }
        iterations := iterations + 1;
      }
      MissingIsNeeded(world, store.stored, genesis, ancestorCount, c);
      ok := true;
    }
  }

  lemma KeepsCandidate(world: World, stored: set<BlockHash>, head: Option<BlockHash>, c: BlockHash, h: BlockHash)
    requires IsCandidate(world, stored, head, c) && world(h).number < world(c).number
    ensures IsCandidate(world, stored + {h}, head, c)
  {
  }

  /** The walk always looks at the candidate's parent, so with an ancestor count of zero the
      loop may still run once: its bound is the larger of one and the ancestor count. */
  lemma ZeroAncestorsStillFetch(world: World, stored: set<BlockHash>, genesis: BlockHash, c: BlockHash)
    requires Ordered(world) && c != genesis && world(c).number >= 0 && world(c).parent !in stored
    ensures MissingParent(world, stored, FirstBlock(world, c, 0), genesis, c) == Some(world(c).parent)
  {
  }

  lemma ParentMissing(world: World, stored: set<BlockHash>, genesis: BlockHash, ancestorCount: int, h: BlockHash)
    requires h != genesis && world(h).parent !in stored
    requires world(world(h).parent).number >= Max(0, world(h).number - ancestorCount)
    ensures !WithAncestors(world, stored, genesis, ancestorCount, h)
  {
    assert Ancestor(world, h, 1) == Ancestor(world, world(h).parent, 0) == world(h).parent;
    assert Ancestor(world, h, 0) == h;
    assert BeforeGenesis(world, genesis, h, 1);
  }

  /** The node answers everything, and yet: if the latest block is a sibling of a stored head, it
      is stored, the poll succeeds, and its missing parent is not fetched. */
  method PollSibling(p: PollingBlockIngestor, latest: BlockHash, replies: Replies) returns (ok: bool)
    requires Ordered(p.store.world) && AllFine(replies)
    requires p.store.head.Some? && p.store.head.value in p.store.stored && NoneAbove(p.store.world, p.store.stored, p.store.head)
    requires latest != p.store.head.value && p.store.world(latest).number == p.store.world(p.store.head.value).number
    requires latest != p.store.genesis && p.store.world(latest).parent !in p.store.stored
    requires p.store.world(p.store.world(latest).parent).number >= Max(0, p.store.world(latest).number - p.ancestorCount)
    modifies p.store
    ensures ok && p.store.head == old(p.store.head) && p.store.stored == old(p.store.stored) + {latest}
    ensures !p.LatestComplete(p.store.stored, latest)
  {
    assert NoneAbove(p.store.world, p.store.stored + {latest}, p.store.head);
    var iterations;
    ok, iterations := p.DoPoll(latest, replies);
    assert p.store.world(p.store.world(latest).parent).number < p.store.world(latest).number;
    ParentMissing(p.store.world, p.store.stored, p.store.genesis, p.ancestorCount, latest);
  }

  // Two chains from one genesis block: even hashes, and odd hashes from 3 on.
  const FORK: World := (h: BlockHash) => BlockInfo(h.id / 2, if h.id == 3 then BlockHash(0) else BlockHash(h.id - 2))

  lemma Fork()
    ensures Ordered(FORK)
  {
    forall h
      ensures FORK(FORK(h).parent).number < FORK(h).number
    {
    }
  }

  /** The first poll on an empty store: the latest block becomes the head. */
  method PollFirst(p: PollingBlockIngestor, latest: BlockHash, replies: Replies) returns (ok: bool)
    requires Ordered(p.store.world) && AllFine(replies)
    requires p.store.head.None? && p.store.stored == {} && p.store.world(latest).number >= 0
    modifies p.store
    ensures ok && p.store.head == Some(latest)
    ensures p.store.stored == {latest} + Needed(p.store.world, p.store.genesis, p.ancestorCount, latest)
  {
    assert p.store.stored + {latest} == {latest};
    assert IsCandidate(p.store.world, {latest}, None, latest);
    RepairsCandidate(p.store.world, {latest}, None, p.store.genesis, p.ancestorCount, latest);
    var iterations;
    ok, iterations := p.DoPoll(latest, replies);
  }

  /** A sibling polled after an ordinary poll, on a store that was empty. */
  method SiblingPolled() returns (store: ChainStore)
    ensures store.world == FORK && store.genesis == BlockHash(0)
    ensures store.head == Some(BlockHash(4)) && store.stored == {BlockHash(0), BlockHash(2), BlockHash(4), BlockHash(5)}
    ensures !WithAncestors(FORK, store.stored, BlockHash(0), 10, BlockHash(5))
  {
    store := new ChainStore(FORK, BlockHash(0));
    var p := new PollingBlockIngestor(store, 10);
    var always := (n: nat, h: BlockHash) => Fine;
    NeedsOfFour();
    var _ := PollFirst(p, BlockHash(4), always);
    assert store.stored == {BlockHash(4), BlockHash(2), BlockHash(0)};
    SiblingFive(store.stored);
    var _ := PollSibling(p, BlockHash(5), always);
  }

  lemma NeedsOfFour()
    ensures Ordered(FORK) && FORK(BlockHash(4)).number == 2
    ensures Needed(FORK, BlockHash(0), 10, BlockHash(4)) == {BlockHash(2), BlockHash(0)}
  {
    Fork();
    assert FORK(BlockHash(4)) == BlockInfo(2, BlockHash(2)) && FORK(BlockHash(2)) == BlockInfo(1, BlockHash(0));
    assert Walk(FORK, 0, BlockHash(0), BlockHash(2)) == {BlockHash(0)};
  }

  lemma SiblingFive(stored: set<BlockHash>)
    requires stored == {BlockHash(4), BlockHash(2), BlockHash(0)}
    ensures NoneAbove(FORK, stored, Some(BlockHash(4)))
    ensures FORK(BlockHash(5)) == BlockInfo(2, BlockHash(3)) && BlockHash(3) !in stored
    ensures FORK(BlockHash(3)).number == 1
  {
  }

  /** A poll that gets the latest block and nothing else fails and leaves the block behind. */
  method PollInterrupted(p: PollingBlockIngestor, latest: BlockHash, replies: Replies) returns (ok: bool)
    requires Ordered(p.store.world) && replies(0, latest) != Unavailable && forall n, h :: replies(n, h) != Unavailable ==> h == latest
    requires p.store.head.Some? && p.store.world(latest).number > p.store.world(p.store.head.value).number
    requires NoneAbove(p.store.world, p.store.stored, p.store.head)
    requires latest != p.store.genesis && p.store.world(latest).parent !in p.store.stored
    modifies p.store
    ensures !ok && p.store.head == old(p.store.head) && p.store.stored == old(p.store.stored) + {latest}
  {
    ghost var world, start, parent := p.store.world, p.store.stored + {latest}, p.store.world(latest).parent;
    assert IsCandidate(world, start, p.store.head, latest);
    RepairsCandidate(world, start, p.store.head, p.store.genesis, p.ancestorCount, latest);
    assert parent in p.Fetches(latest) && parent != latest;
    var iterations;
    ok, iterations := p.DoPoll(latest, replies);
    OnlyAnswer(replies, p.store.stored - old(p.store.stored), latest);
    assert parent !in p.store.stored;
  }

  lemma OnlyAnswer(replies: Replies, blocks: set<BlockHash>, latest: BlockHash)
    requires Answered(replies, blocks) && forall n, h :: replies(n, h) != Unavailable ==> h == latest
    ensures blocks <= {latest}
  {
  }

  /** If a block above the latest block was left behind, the poll completes that block's ancestry
      and makes it the head; the latest block's missing parent is not fetched. */
  method PollBelowCandidate(p: PollingBlockIngestor, c: BlockHash, latest: BlockHash, replies: Replies)
    returns (ok: bool)
    requires Ordered(p.store.world) && AllFine(replies)
    requires p.store.head.Some? && p.store.head.value in p.store.stored && IsCandidate(p.store.world, p.store.stored, p.store.head, c)
    requires p.store.world(p.store.head.value).number < p.store.world(latest).number < p.store.world(c).number
    requires latest != p.store.genesis && p.store.world(p.store.world(latest).parent).number >= Max(0, p.store.world(latest).number - p.ancestorCount)
    requires p.store.world(latest).parent !in p.store.stored + Needed(p.store.world, p.store.genesis, p.ancestorCount, c)
    modifies p.store
    ensures ok && p.store.head == Some(c) && latest in p.store.stored && !p.LatestComplete(p.store.stored, latest)
  {
    assert IsCandidate(p.store.world, p.store.stored + {latest}, p.store.head, c);
    RepairsCandidate(p.store.world, p.store.stored + {latest}, p.store.head, p.store.genesis, p.ancestorCount, c);
    var iterations;
    ok, iterations := p.DoPoll(latest, replies);
    assert p.store.world(p.store.world(latest).parent).number < p.store.world(latest).number;
    ParentMissing(p.store.world, p.store.stored, p.store.genesis, p.ancestorCount, latest);
  }

  /** A poll, an interrupted poll, and a poll after a reorganisation to a shorter chain. */
  method AnotherCandidateWins() returns (store: ChainStore)
    ensures store.world == FORK && store.genesis == BlockHash(0)
    ensures store.head == Some(BlockHash(9)) && BlockHash(6) in store.stored
    ensures !WithAncestors(FORK, store.stored, BlockHash(0), 10, BlockHash(6))
  {
    var p := Interrupted();
    store := p.store;
    FourNotNeeded();
    LeftBehind({BlockHash(2), BlockHash(0)});
    var _ := PollBelowCandidate(p, BlockHash(9), BlockHash(6), (n: nat, h: BlockHash) => Fine);
  }

  method Interrupted() returns (p: PollingBlockIngestor)
    ensures fresh(p.store) && p.ancestorCount == 10 && p.store.world == FORK && p.store.genesis == BlockHash(0)
    ensures p.store.head == Some(BlockHash(2)) && p.store.stored == {BlockHash(2), BlockHash(0)} + {BlockHash(9)}
  {
    var store := new ChainStore(FORK, BlockHash(0));
    p := new PollingBlockIngestor(store, 10);
    NeedsOfTwoAndNine();
    var _ := PollFirst(p, BlockHash(2), (n: nat, h: BlockHash) => Fine);
    assert store.stored == {BlockHash(2), BlockHash(0)};
    LeftBehind(store.stored);
    var _ := PollInterrupted(p, BlockHash(9), (n: nat, h: BlockHash) => if h == BlockHash(9) then Fine else Unavailable);
  }

  lemma NeedsOfTwoAndNine()
    ensures Ordered(FORK) && FORK(BlockHash(2)).number == 1
    ensures Needed(FORK, BlockHash(0), 10, BlockHash(2)) == {BlockHash(0)}
    ensures Needed(FORK, BlockHash(0), 10, BlockHash(9)) == {BlockHash(7), BlockHash(5), BlockHash(3), BlockHash(0)}
  {
    Fork();
    assert Walk(FORK, 0, BlockHash(0), BlockHash(3)) == {BlockHash(0)};
    assert Walk(FORK, 0, BlockHash(0), BlockHash(5)) == {BlockHash(3), BlockHash(0)};
    assert Walk(FORK, 0, BlockHash(0), BlockHash(7)) == {BlockHash(5), BlockHash(3), BlockHash(0)};
  }

  lemma FourNotNeeded()
    ensures Ordered(FORK)
    ensures BlockHash(4) !in ({BlockHash(2), BlockHash(0)} + {BlockHash(9)}) + Needed(FORK, BlockHash(0), 10, BlockHash(9))
  {
    NeedsOfTwoAndNine();
  }

  lemma LeftBehind(stored: set<BlockHash>)
    requires stored == {BlockHash(2), BlockHash(0)}
    ensures NoneAbove(FORK, stored, Some(BlockHash(2)))
    ensures FORK(BlockHash(9)) == BlockInfo(4, BlockHash(7)) && FORK(BlockHash(6)) == BlockInfo(3, BlockHash(4))
    ensures FORK(BlockHash(4)).number == 2
    ensures IsCandidate(FORK, stored + {BlockHash(9)}, Some(BlockHash(2)), BlockHash(9))
  {
  }
}
