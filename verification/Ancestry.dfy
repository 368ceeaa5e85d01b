/** Walking back along parent pointers: `walk_back_ancestor`. Block numbers play no part, so
    chains with skipped block numbers are covered. */
module Ancestry {
  import opened Types

  // What asking for a block's parent may give.
  datatype Reply = Parent(ptr: Ptr) | NoParent | Failure

  type Getter = Ptr -> Reply

  datatype Walk = Found(ptr: Ptr) | Nothing | Error

  /** The k-th ancestor of `p`, if the ancestry reaches that far. */
  ghost function Up(get: Getter, p: Ptr, k: nat): Option<Ptr> {
    if k == 0 then Some(p)
    else
      match Up(get, p, k - 1)
      case None => None
      case Some(q) => if get(q).Parent? then Some(get(q).ptr) else None
  }

  ghost predicate IsRoot(get: Getter, p: Ptr, root: Option<Hash>, k: nat) {
    root.Some? && Up(get, p, k).Some? && Up(get, p, k).value.hash == root.value
  }

  /** No proper ancestor within `k` steps is the root. */
  ghost predicate NoRoot(get: Getter, p: Ptr, root: Option<Hash>, k: int) {
    forall j: nat :: 1 <= j <= k ==> !IsRoot(get, p, root, j)
  }

  lemma {:induction false} UpStops(get: Getter, p: Ptr, j: nat, k: nat)
    requires j <= k && Up(get, p, j).None?
    ensures Up(get, p, k).None?
    decreases k
  {
    if j < k {
      UpStops(get, p, j, k - 1);
    }
  }

  /** `walk_back_ancestor`: the child of the nearest root among the first `offset` proper
      ancestors; if there is none, the `offset`-th ancestor; and if ancestry ends or a lookup
      fails first, nothing or an error according to the lookup that stopped the walk. */
  method WalkBackAncestor(get: Getter, start: Ptr, offset: int, root: Option<Hash>) returns (r: Walk)
    ensures forall k: nat :: 1 <= k <= offset && IsRoot(get, start, root, k) && NoRoot(get, start, root, k - 1) ==>
              Up(get, start, k - 1).Some? && r == Found(Up(get, start, k - 1).value)
    ensures NoRoot(get, start, root, offset) && offset >= 0 && Up(get, start, offset).Some? ==>
              r == Found(Up(get, start, offset).value)
    ensures NoRoot(get, start, root, offset) ==> forall k: nat :: k < offset && Up(get, start, k).Some? ==>
              (get(Up(get, start, k).value) == NoParent ==> r == Nothing) &&
              (get(Up(get, start, k).value) == Failure ==> r == Error)
    ensures offset <= 0 ==> r == Found(start)
  {
    var current := start;
    var i: nat := 0;
    while i < offset
      invariant i <= Max(offset, 0)
      invariant Up(get, start, i) == Some(current)
      invariant NoRoot(get, start, root, i)
    {
      match get(current) {
        case Parent(parent) =>
          assert Up(get, start, i + 1) == Some(parent);
          if root.Some? && parent.hash == root.value {
            assert IsRoot(get, start, root, i + 1);
            return Found(current);
          }
          current := parent;
        case NoParent =>
          assert Up(get, start, i + 1).None?;
          Ended(get, start, offset, root, i);
          return Nothing;
        case Failure =>
          assert Up(get, start, i + 1).None?;
          Ended(get, start, offset, root, i);
          return Error;
      }
      i := i + 1;
    }
    AllParents(get, start, i);
    r := Found(current);
  }

  function Max(x: int, y: int): int {
    if x < y then y else x
  }

  lemma Ended(get: Getter, start: Ptr, offset: int, root: Option<Hash>, i: nat)
    requires Up(get, start, i).Some? && Up(get, start, i + 1).None? && NoRoot(get, start, root, i)
    ensures NoRoot(get, start, root, offset)
    ensures forall k: nat :: k > i ==> Up(get, start, k).None?
    ensures forall k: nat :: k < i && Up(get, start, k).Some? ==> get(Up(get, start, k).value).Parent?
  {
    forall k: nat | k > i
      ensures Up(get, start, k).None?
    {
      UpStops(get, start, i + 1, k);
    }
    AllParents(get, start, i);
  }

  lemma {:induction false} AllParents(get: Getter, p: Ptr, i: nat)
    requires Up(get, p, i).Some?
    ensures forall k: nat :: k < i ==> Up(get, p, k).Some? && get(Up(get, p, k).value).Parent?
  {
    if i > 0 {
      AllParents(get, p, i - 1);
    }
  }
}
