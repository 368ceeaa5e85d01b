/** Batched contract calls: the sequential use of the buffered cache, the batch lookup of the
    persistent cache, and `contract_calls`, which answers call i with result i. */
module ContractCalls {
  import opened Types
  import opened CallCache

  // The index is the caller's and takes no part in a request's identity.
  datatype Request = Request(key: Key, index: nat)
  datatype Source = Memory | Store | Rpc
  datatype Response = Response(req: Request, retval: Retval, source: Source)

  function Map<X, Y>(f: X -> Y, xs: seq<X>): (ys: seq<Y>)
    ensures |ys| == |xs| && forall i :: 0 <= i < |xs| ==> ys[i] == f(xs[i])
  {
    seq(|xs|, i requires 0 <= i < |xs| => f(xs[i]))
  }

  lemma Cancel<X>(x: X, a: multiset<X>, b: multiset<X>)
    requires a + multiset{x} == b + multiset{x}
    ensures a == b
  {
    assert a == a + multiset{x} - multiset{x} && b == b + multiset{x} - multiset{x};
  }

  lemma Split<X>(xs: seq<X>, j: nat)
    requires j < |xs|
    ensures multiset(xs) == multiset(xs[..j] + xs[j + 1..]) + multiset{xs[j]}
  {
    assert xs == xs[..j] + [xs[j]] + xs[j + 1..];
  }

  function Without<X>(xs: seq<X>, j: nat): seq<X>
    requires j < |xs|
  {
    xs[..j] + xs[j + 1..]
  }

  lemma MapSplit<X, Y>(f: X -> Y, xs: seq<X>, j: nat)
    requires j < |xs|
    ensures multiset(Map(f, xs)) == multiset(Map(f, Without(xs, j))) + multiset{f(xs[j])}
  {
    Split(Map(f, xs), j);
    assert Map(f, Without(xs, j)) == Map(f, xs)[..j] + Map(f, xs)[j + 1..];
  }

  lemma WithoutSame<X>(xs: seq<X>, ys: seq<X>, i: nat, j: nat)
    requires i < |xs| && j < |ys| && xs[i] == ys[j] && multiset(xs) == multiset(ys)
    ensures multiset(Without(xs, i)) == multiset(Without(ys, j))
  {
    Split(xs, i);
    Split(ys, j);
    Cancel(xs[i], multiset(Without(xs, i)), multiset(Without(ys, j)));
  }

  /** Mapping commutes with permuting. */
  lemma {:induction false} MapPermuted<X, Y>(f: X -> Y, xs: seq<X>, ys: seq<X>)
    requires multiset(xs) == multiset(ys)
    ensures multiset(Map(f, xs)) == multiset(Map(f, ys))
    decreases |xs|
  {
    assert |multiset(xs)| == |xs| && |multiset(ys)| == |ys|;
    if xs != [] {
      assert xs[0] in multiset(ys);
      var j :| 0 <= j < |ys| && ys[j] == xs[0];
      WithoutSame(xs, ys, 0, j);
      MapPermuted(f, Without(xs, 0), Without(ys, j));
      MapSplit(f, xs, 0);
      MapSplit(f, ys, j);
    }
  }

  function Requests(resps: seq<Response>): seq<Request> {
    Map((resp: Response) => resp.req, resps)
  }

  lemma RequestsConcat(xs: seq<Response>, ys: seq<Response>)
    ensures Requests(xs + ys) == Requests(xs) + Requests(ys)
  {
  }

  /** Responses and missing requests partition the requests. */
  ghost predicate Splits(reqs: seq<Request>, resps: seq<Response>, missing: seq<Request>) {
    multiset(reqs) == multiset(Requests(resps)) + multiset(missing)
  }

  ghost predicate Answers(truth: Truth, b: Ptr, resps: seq<Response>) {
    forall i :: 0 <= i < |resps| ==> resps[i].retval == truth(b, resps[i].req.key)
  }

  // ---------- the persistent cache ----------

  type Persistent = map<(Ptr, Key), Retval>

  ghost predicate StoreTrue(truth: Truth, store: Persistent) {
    forall p :: p in store ==> store[p] == truth(p.0, p.1)
  }

  /** The requests at the indices in `found`, as a multiset. */
  ghost function Chosen(reqs: seq<Request>, found: set<nat>, n: nat): multiset<Request>
    requires n <= |reqs|
  {
    if n == 0 then multiset{}
    else Chosen(reqs, found, n - 1) + if n - 1 in found then multiset{reqs[n - 1]} else multiset{}
  }

  lemma {:induction false} ChosenAdd(reqs: seq<Request>, found: set<nat>, i: nat, n: nat)
    requires i !in found && i < |reqs| && n <= |reqs|
    ensures Chosen(reqs, found + {i}, n) == Chosen(reqs, found, n) + if i < n then multiset{reqs[i]} else multiset{}
  {
    if n > 0 {
      ChosenAdd(reqs, found, i, n - 1);
      if n - 1 == i {
        assert n - 1 in found + {i};
      } else {
        assert n - 1 in found + {i} <==> n - 1 in found;
      }
    }
  }

  lemma {:induction false} ChosenNone(reqs: seq<Request>, n: nat)
    requires n <= |reqs|
    ensures Chosen(reqs, {}, n) == multiset{}
  {
    if n > 0 {
      ChosenNone(reqs, n - 1);
    }
  }

  /** No earlier request has the key of request `i`. */
  ghost predicate FirstOf(reqs: seq<Request>, i: nat)
    requires i < |reqs|
  {
    forall j :: 0 <= j < i ==> reqs[j].key != reqs[i].key
  }

  method Position(reqs: seq<Request>, k: Key) returns (i: nat)
    requires exists j :: 0 <= j < |reqs| && reqs[j].key == k
    ensures i < |reqs| && reqs[i].key == k && FirstOf(reqs, i)
  {
    i := 0;
    while reqs[i].key != k
      invariant i < |reqs| && forall j :: 0 <= j < i ==> reqs[j].key != k
      invariant exists j :: i <= j < |reqs| && reqs[j].key == k
      decreases |reqs| - i
    {
      i := i + 1;
    }
  }

  /** A response with the stored value to the first request with its key. */
  ghost predicate IsRow(store: Persistent, reqs: seq<Request>, b: Ptr, resp: Response) {
    && (b, resp.req.key) in store && resp.retval == store[(b, resp.req.key)] && resp.source == Store
    && exists i :: 0 <= i < |reqs| && FirstOf(reqs, i) && resp.req == reqs[i]
  }

  ghost predicate AnswersKey(resps: seq<Response>, k: Key) {
    exists i :: 0 <= i < |resps| && resps[i].req.key == k
  }

  /** One row for each key that is requested and stored, except those in `left`. */
  ghost predicate RowsExcept(store: Persistent, reqs: seq<Request>, b: Ptr, resps: seq<Response>, left: set<Key>) {
    && (forall i :: 0 <= i < |resps| ==> IsRow(store, reqs, b, resps[i]) && resps[i].req.key !in left)
    && (forall i, j :: 0 <= i < j < |resps| ==> resps[i].req.key != resps[j].req.key)
    && (forall i :: 0 <= i < |reqs| && (b, reqs[i].key) in store && reqs[i].key !in left ==> AnswersKey(resps, reqs[i].key))
  }

  lemma AddRow(store: Persistent, reqs: seq<Request>, b: Ptr, resps: seq<Response>, left: set<Key>, resp: Response)
    requires RowsExcept(store, reqs, b, resps, left) && IsRow(store, reqs, b, resp) && resp.req.key in left
    ensures RowsExcept(store, reqs, b, resps + [resp], left - {resp.req.key})
  {
    var more := resps + [resp];
    forall i | 0 <= i < |reqs| && (b, reqs[i].key) in store && reqs[i].key !in left - {resp.req.key}
      ensures AnswersKey(more, reqs[i].key)
    {
      if reqs[i].key == resp.req.key {
        assert more[|resps|].req.key == reqs[i].key;
      } else {
        var j :| 0 <= j < |resps| && resps[j].req.key == reqs[i].key;
        assert more[j].req.key == reqs[i].key;
      }
    }
  }

  lemma RowsAnswer(store: Persistent, reqs: seq<Request>, b: Ptr, resps: seq<Response>, truth: Truth)
    requires StoreTrue(truth, store) && RowsExcept(store, reqs, b, resps, {})
    ensures Answers(truth, b, resps)
  {
    forall i | 0 <= i < |resps|
      ensures resps[i].retval == truth(b, resps[i].req.key)
    {
      assert IsRow(store, reqs, b, resps[i]);
    }
  }

  /** The keys of rows that have not been read are stored and requested, and no request found so far
      has one of them. */
  ghost predicate Unread(store: Persistent, reqs: seq<Request>, b: Ptr, rows: set<Key>, found: set<nat>) {
    && (forall k :: k in rows ==> (b, k) in store && exists j :: 0 <= j < |reqs| && reqs[j].key == k)
    && (forall i :: i in found ==> i < |reqs| && reqs[i].key !in rows)
  }

  lemma UnreadKey(store: Persistent, reqs: seq<Request>, b: Ptr, rows: set<Key>, found: set<nat>, k: Key)
    requires Unread(store, reqs, b, rows, found) && k in rows
    ensures (b, k) in store && exists j :: 0 <= j < |reqs| && reqs[j].key == k
    ensures forall i: nat :: i < |reqs| && reqs[i].key == k ==>
              i !in found && Unread(store, reqs, b, rows - {k}, found + {i})
  {
  }

  lemma ChooseRow(reqs: seq<Request>, found: set<nat>, i: nat, resps: seq<Response>, resp: Response)
    requires i !in found && i < |reqs| && resp.req == reqs[i] && multiset(Requests(resps)) == Chosen(reqs, found, |reqs|)
    ensures multiset(Requests(resps + [resp])) == Chosen(reqs, found + {i}, |reqs|)
  {
    ChosenAdd(reqs, found, i, |reqs|);
    RequestsSnoc(resps, resp);
  }

  /** The rows found, in any order; each answers the first request with its key. */
  method Rows(store: Persistent, reqs: seq<Request>, b: Ptr) returns (resps: seq<Response>, found: set<nat>)
    ensures multiset(Requests(resps)) == Chosen(reqs, found, |reqs|) && RowsExcept(store, reqs, b, resps, {})
  {
    var rows := set i | 0 <= i < |reqs| && (b, reqs[i].key) in store :: reqs[i].key;
    found, resps := {}, [];
    ChosenNone(reqs, |reqs|);
    while rows != {}
      invariant Unread(store, reqs, b, rows, found)
      invariant multiset(Requests(resps)) == Chosen(reqs, found, |reqs|)
      invariant RowsExcept(store, reqs, b, resps, rows)
      decreases rows
    {
      var k :| k in rows;
      UnreadKey(store, reqs, b, rows, found, k);
      var i := Position(reqs, k);
      var resp := Response(reqs[i], store[(b, k)], Store);
      ChooseRow(reqs, found, i, resps, resp);
      AddRow(store, reqs, b, resps, rows, resp);
      resps, found, rows := resps + [resp], found + {i}, rows - {k};
    }
  }

  lemma RequestsSnoc(resps: seq<Response>, resp: Response)
    ensures multiset(Requests(resps + [resp])) == multiset(Requests(resps)) + multiset{resp.req}
  {
    RequestsConcat(resps, [resp]);
    assert Requests([resp]) == [resp.req];
  }

  ghost predicate Parted(reqs: seq<Request>, found: set<nat>, n: nat, missing: seq<Request>)
    requires n <= |reqs|
  {
    multiset(reqs[..n]) == Chosen(reqs, found, n) + multiset(missing)
  }

  lemma PartedStep(reqs: seq<Request>, found: set<nat>, n: nat, missing: seq<Request>)
    requires n < |reqs| && Parted(reqs, found, n, missing)
    ensures Parted(reqs, found, n + 1, if n in found then missing else missing + [reqs[n]])
  {
    assert reqs[..n + 1] == reqs[..n] + [reqs[n]];
  }

  method Remaining(reqs: seq<Request>, found: set<nat>) returns (missing: seq<Request>)
    ensures multiset(reqs) == Chosen(reqs, found, |reqs|) + multiset(missing)
  {
    missing := [];
    for i := 0 to |reqs|
      invariant Parted(reqs, found, i, missing)
    {
      PartedStep(reqs, found, i, missing);
      if i !in found {
        missing := missing + [reqs[i]];
      }
    }
    assert reqs[..|reqs|] == reqs;
  }

  /** `get_calls` of the persistent cache: one row per stored key, in any order, answers the
      first request with that key; repeated requests stay missing. */
  method StoreGetCalls(store: Persistent, reqs: seq<Request>, b: Ptr, ghost truth: Truth)
    returns (resps: seq<Response>, missing: seq<Request>)
    requires StoreTrue(truth, store)
    ensures Splits(reqs, resps, missing) && Answers(truth, b, resps)
    ensures RowsExcept(store, reqs, b, resps, {})
  {
    var found;
    resps, found := Rows(store, reqs, b);
    missing := Remaining(reqs, found);
    RowsAnswer(store, reqs, b, resps, truth);
  }

  // ---------- what the buffer answers ----------

  type Buffer = map<Key, Retval>

  /** The buffer's responses, in the order of the requests. */
  function Hits(reqs: seq<Request>, buffer: Buffer): seq<Response> {
    if reqs == [] then []
    else
      var req := reqs[|reqs| - 1];
      Hits(reqs[..|reqs| - 1], buffer) + if req.key in buffer then [Response(req, buffer[req.key], Memory)] else []
  }

  /** The requests the buffer cannot answer, in their order. */
  function Misses(reqs: seq<Request>, buffer: Buffer): seq<Request> {
    if reqs == [] then []
    else
      var req := reqs[|reqs| - 1];
      Misses(reqs[..|reqs| - 1], buffer) + if req.key in buffer then [] else [req]
  }

  lemma {:induction false} HitsSplit(reqs: seq<Request>, buffer: Buffer)
    ensures Splits(reqs, Hits(reqs, buffer), Misses(reqs, buffer))
  {
    if reqs != [] {
      var n := |reqs| - 1;
      var hits, misses := Hits(reqs[..n], buffer), Misses(reqs[..n], buffer);
      HitsSplit(reqs[..n], buffer);
      assert reqs == reqs[..n] + [reqs[n]];
      if reqs[n].key in buffer {
        assert Misses(reqs, buffer) == misses;
        SplitsHit(reqs[..n], hits, misses, Response(reqs[n], buffer[reqs[n].key], Memory));
      } else {
        assert Hits(reqs, buffer) == hits;
        SplitsMiss(reqs[..n], hits, misses, reqs[n]);
      }
    }
  }

  lemma SplitsHit(reqs: seq<Request>, resps: seq<Response>, missing: seq<Request>, resp: Response)
    requires Splits(reqs, resps, missing)
    ensures Splits(reqs + [resp.req], resps + [resp], missing)
  {
    RequestsSnoc(resps, resp);
  }

  lemma SplitsMiss(reqs: seq<Request>, resps: seq<Response>, missing: seq<Request>, req: Request)
    requires Splits(reqs, resps, missing)
    ensures Splits(reqs + [req], resps, missing + [req])
  {
  }

  lemma {:induction false} HitsAndMisses(reqs: seq<Request>, buffer: Buffer)
    ensures forall i :: 0 <= i < |Misses(reqs, buffer)| ==> Misses(reqs, buffer)[i].key !in buffer
    ensures forall i :: 0 <= i < |Hits(reqs, buffer)| ==>
              var resp := Hits(reqs, buffer)[i];
              resp.req.key in buffer && resp.retval == buffer[resp.req.key] && resp.source == Memory
  {
    if reqs != [] {
      var n := |reqs| - 1;
      HitsAndMisses(reqs[..n], buffer);
    }
  }

  /** The responses are the buffer's, followed by one row per key that is stored and not buffered;
      everything else is missing. */
  ghost predicate Looked(reqs: seq<Request>, buffer: Buffer, store: Persistent, b: Ptr, resps: seq<Response>, missing: seq<Request>) {
    var n := |Hits(reqs, buffer)|;
    && n <= |resps| && resps[..n] == Hits(reqs, buffer)
    && RowsExcept(store, Misses(reqs, buffer), b, resps[n..], {})
    && Splits(Misses(reqs, buffer), resps[n..], missing)
  }

  lemma LookedAnswers(reqs: seq<Request>, buffer: Buffer, store: Persistent, b: Ptr, hits: seq<Response>, rows: seq<Response>,
                      missing: seq<Request>, truth: Truth)
    requires hits == Hits(reqs, buffer) && RowsExcept(store, Misses(reqs, buffer), b, rows, {})
    requires Splits(Misses(reqs, buffer), rows, missing) && Answers(truth, b, rows)
    requires forall k :: k in buffer ==> buffer[k] == truth(b, k)
    ensures Looked(reqs, buffer, store, b, hits + rows, missing)
    ensures Splits(reqs, hits + rows, missing) && Answers(truth, b, hits + rows)
  {
    HitsAndMisses(reqs, buffer);
    HitsSplit(reqs, buffer);
    RequestsConcat(hits, rows);
    assert (hits + rows)[..|hits|] == hits && (hits + rows)[|hits|..] == rows;
  }

  /** Nothing that is buffered is missing. */
  lemma LookedMissing(reqs: seq<Request>, buffer: Buffer, store: Persistent, b: Ptr, resps: seq<Response>, missing: seq<Request>)
    requires Looked(reqs, buffer, store, b, resps, missing)
    ensures forall req :: req in missing ==> req in reqs && req.key !in buffer
  {
    HitsAndMisses(reqs, buffer);
    HitsSplit(reqs, buffer);
    forall req | req in missing
      ensures req in reqs && req.key !in buffer
    {
      assert req in multiset(missing);
      assert req in multiset(Misses(reqs, buffer));
      assert req in multiset(reqs);
      assert req in Misses(reqs, buffer);
    }
  }

  lemma AnswersOneMore(resps: seq<Response>, i: nat)
    requires i < |resps|
    ensures forall k :: AnswersKey(resps[..i + 1], k) <==> AnswersKey(resps[..i], k) || resps[i].req.key == k
  {
    var xs, ys := resps[..i], resps[..i + 1];
    assert forall j :: 0 <= j < i ==> ys[j] == xs[j];
    assert ys[i] == resps[i];
    forall k
      ensures AnswersKey(ys, k) <==> AnswersKey(xs, k) || resps[i].req.key == k
    {
      if j :| 0 <= j < |xs| && xs[j].req.key == k {
        assert ys[j].req.key == k;
      }
    }
  }

  lemma AllBuffered(reqs: seq<Request>, was: Buffer, now: Buffer, rows: seq<Response>)
    requires forall k :: k in now <==> k in was || AnswersKey(rows, k)
    ensures forall k :: k in now <==> k in was || AnswersKey(Hits(reqs, was) + rows, k)
  {
    var hits := Hits(reqs, was);
    HitsAndMisses(reqs, was);
    forall k
      ensures k in was || AnswersKey(rows, k) <==> k in was || AnswersKey(hits + rows, k)
    {
      if j :| 0 <= j < |rows| && rows[j].req.key == k {
        assert (hits + rows)[|hits| + j].req.key == k;
      }
    }
  }

  // ---------- the buffered cache, one operation at a time ----------

  class BufferedCallCache {
    var buffer: map<Key, Retval>
    var block: Option<Ptr>

    function Snapshot(): State
      reads this
    {
      State(block, buffer, map[], map[], {})
    }

    ghost predicate Agrees(truth: Truth)
      reads this
    {
      BufferTrue(truth, Snapshot())
    }

    constructor ()
      ensures Snapshot() == EMPTY
    {
      buffer, block := map[], None;
    }

    method CheckBlock(b: Ptr)
      modifies this
      ensures Snapshot() == Check(old(Snapshot()), b)
    {
      if block != Some(b) {
        block := Some(b);
        buffer := map[];
      }
    }

    method Get(req: Request) returns (r: Option<Response>)
      ensures r.Some? <==> req.key in buffer
      ensures r.Some? ==> r.value == Response(req, buffer[req.key], Memory)
    {
      if req.key in buffer {
        return Some(Response(req, buffer[req.key], Memory));
      }
      return None;
    }

    /** The buffer as far as it is for block `b`. */
    ghost function BufferAt(b: Ptr): Buffer
      reads this
    {
      if block == Some(b) then buffer else map[]
    }

    /** `get_calls`; `None` is an error of the persistent cache. What the buffer holds for the block is
        answered from it, and only the rest is looked up; the rows found are buffered. */
    method GetCalls(reqs: seq<Request>, b: Ptr, store: Persistent, ok: bool, ghost truth: Truth)
      returns (r: Option<(seq<Response>, seq<Request>)>)
      requires Agrees(truth) && StoreTrue(truth, store)
      modifies this
      ensures Agrees(truth) && block == Some(b)
      ensures r.Some? <==> ok
      ensures r.Some? ==> Splits(reqs, r.value.0, r.value.1) && Answers(truth, b, r.value.0)
      ensures r.Some? ==> Looked(reqs, old(BufferAt(b)), store, b, r.value.0, r.value.1)
      ensures forall k :: k in buffer <==> k in old(BufferAt(b)) || (r.Some? && AnswersKey(r.value.0, k))
    {
      CheckBlock(b);
      ghost var was := buffer;
      var missing: seq<Request>, resps: seq<Response> := [], [];
      for i := 0 to |reqs|
        invariant block == Some(b) && buffer == was && Agrees(truth)
        invariant resps == Hits(reqs[..i], was) && missing == Misses(reqs[..i], was)
      {
        var hit := Get(reqs[i]);
        assert reqs[..i + 1][..i] == reqs[..i];
        match hit
        case Some(resp) => resps := resps + [resp];
        case None => missing := missing + [reqs[i]];
      }
      assert reqs[..|reqs|] == reqs;
      if !ok {
        return None;
      }
      var stored, calls := StoreGetCalls(store, missing, b, truth);
      LookedAnswers(reqs, was, store, b, resps, stored, calls, truth);
      r := Some((resps + stored, calls));
      Remember(stored, b, truth);
      AllBuffered(reqs, was, buffer, stored);
    }

    method Remember(stored: seq<Response>, b: Ptr, ghost truth: Truth)
      requires Agrees(truth) && block == Some(b) && Answers(truth, b, stored)
      modifies this`buffer
      ensures Agrees(truth)
      ensures forall k :: k in buffer <==> k in old(buffer) || AnswersKey(stored, k)
    {
      for i := 0 to |stored|
        invariant Agrees(truth)
        invariant forall k :: k in buffer <==> k in old(buffer) || AnswersKey(stored[..i], k)
      {
        AnswersOneMore(stored, i);
        buffer := buffer[stored[i].req.key := stored[i].retval];
      }
      assert stored[..|stored|] == stored;
    }

    /** The memory part of `set_call`; whether the background write succeeds is irrelevant. */
    method SetCall(req: Request, b: Ptr, value: Retval, ghost truth: Truth)
      requires Agrees(truth) && value == truth(b, req.key)
      modifies this
      ensures Agrees(truth) && block == Some(b) && req.key in buffer && buffer[req.key] == value
      ensures forall k :: k in buffer <==> k == req.key || k in old(BufferAt(b))
    {
      CheckBlock(b);
      buffer := buffer[req.key := value];
    }
  }

  // ---------- contract_calls ----------

  // `key` is the encoded call, absent if the arguments do not fit the ABI.
  datatype ContractCall = ContractCall(block: Ptr, key: Option<Key>)

  ghost predicate SortedByIndex(resps: seq<Response>) {
    forall i, j :: 0 <= i < j < |resps| ==> resps[i].req.index <= resps[j].req.index
  }

  method Place(sorted: seq<Response>, x: Response) returns (r: seq<Response>)
    requires SortedByIndex(sorted)
    ensures SortedByIndex(r) && multiset(r) == multiset(sorted) + multiset{x}
  {
    var j := |sorted|;
    while j > 0 && sorted[j - 1].req.index > x.req.index
      invariant 0 <= j <= |sorted|
      invariant forall k :: j <= k < |sorted| ==> sorted[k].req.index > x.req.index
    {
      j := j - 1;
    }
    r := sorted[..j] + [x] + sorted[j..];
    Split(r, j);
    assert r[..j] + r[j + 1..] == sorted;
    PlaceSorted(sorted, x, j);
  }

  lemma PlaceSorted(sorted: seq<Response>, x: Response, j: nat)
    requires SortedByIndex(sorted) && j <= |sorted|
    requires forall k :: j <= k < |sorted| ==> sorted[k].req.index > x.req.index
    requires j > 0 ==> sorted[j - 1].req.index <= x.req.index
    ensures SortedByIndex(sorted[..j] + [x] + sorted[j..])
  {
    var r := sorted[..j] + [x] + sorted[j..];
    forall i, k | 0 <= i < k < |r|
      ensures r[i].req.index <= r[k].req.index
    {
      assert i < j ==> r[i] == sorted[i];
      assert k < j ==> r[k] == sorted[k];
      assert i > j ==> r[i] == sorted[i - 1];
      assert k > j ==> r[k] == sorted[k - 1];
      assert 0 <= i < j - 1 ==> sorted[i].req.index <= sorted[j - 1].req.index;
    }
  }

  /** `sort_by_key` on the index. */
  method Sort(resps: seq<Response>) returns (sorted: seq<Response>)
    ensures SortedByIndex(sorted) && multiset(sorted) == multiset(resps)
  {
    sorted := [];
    for i := 0 to |resps|
      invariant SortedByIndex(sorted) && multiset(sorted) == multiset(resps[..i])
    {
      assert resps[..i + 1] == resps[..i] + [resps[i]];
      sorted := Place(sorted, resps[i]);
    }
    assert resps[..|resps|] == resps;
  }

  function UpTo(n: nat): seq<nat> {
    seq(n, i => i)
  }

  ghost predicate Ascending(xs: seq<nat>) {
    forall i, j :: 0 <= i < j < |xs| ==> xs[i] <= xs[j]
  }

  lemma LastIsMost(xs: seq<nat>, ys: seq<nat>)
    requires Ascending(xs) && Ascending(ys) && multiset(xs) == multiset(ys) && xs != [] && ys != []
    ensures xs[|xs| - 1] <= ys[|ys| - 1]
  {
    var x := xs[|xs| - 1];
    assert x in multiset(xs);
    assert x in ys;
  }

  /** Sorting is unique: a sorted permutation of 0, 1, ..., n - 1 is the identity. */
  lemma {:induction false} SortedSame(xs: seq<nat>, ys: seq<nat>)
    requires Ascending(xs) && Ascending(ys) && multiset(xs) == multiset(ys)
    ensures xs == ys
    decreases |xs|
  {
    assert |multiset(xs)| == |xs| && |multiset(ys)| == |ys|;
    if xs != [] {
      LastIsMost(xs, ys);
      LastIsMost(ys, xs);
      var n := |xs| - 1;
      Split(xs, n);
      Split(ys, n);
      assert xs[..n] + xs[n + 1..] == xs[..n] && ys[..n] + ys[n + 1..] == ys[..n];
      Cancel(xs[n], multiset(xs[..n]), multiset(ys[..n]));
      SortedSame(xs[..n], ys[..n]);
      assert xs == xs[..n] + [xs[n]] && ys == ys[..n] + [ys[n]];
    }
  }

  function Numbered(calls: seq<ContractCall>): seq<Request>
    requires forall i :: 0 <= i < |calls| ==> calls[i].key.Some?
  {
    seq(|calls|, i requires 0 <= i < |calls| => Request(calls[i].key.value, i))
  }

  /** If the responses, sorted, belong to the numbered requests, the i-th is for call i. */
  lemma SortedResponses(calls: seq<ContractCall>, resps: seq<Response>)
    requires forall i :: 0 <= i < |calls| ==> calls[i].key.Some?
    requires SortedByIndex(resps) && multiset(Requests(resps)) == multiset(Numbered(calls))
    ensures |resps| == |calls|
    ensures forall i :: 0 <= i < |calls| ==> resps[i].req == Request(calls[i].key.value, i)
  {
    var reqs := Numbered(calls);
    assert |multiset(Requests(resps))| == |resps| && |multiset(reqs)| == |calls|;
    var index := (req: Request) => req.index;
    MapPermuted(index, Requests(resps), reqs);
    assert Map(index, reqs) == UpTo(|calls|);
    SortedSame(Map(index, Requests(resps)), UpTo(|calls|));
    forall i | 0 <= i < |calls|
      ensures resps[i].req == Request(calls[i].key.value, i)
    {
      assert Map(index, Requests(resps))[i] == i;
      assert Requests(resps)[i] in multiset(Requests(resps));
      assert Requests(resps)[i] in reqs;
    }
  }

  ghost predicate OneBlock(calls: seq<ContractCall>) {
    forall i, j :: 0 <= i < |calls| && 0 <= j < |calls| ==> calls[i].block == calls[j].block
  }

  ghost predicate Encodes(calls: seq<ContractCall>) {
    forall i :: 0 <= i < |calls| ==> calls[i].key.Some?
  }

  ghost predicate RpcTrue(truth: Truth, rpc: (Ptr, Key) -> Option<Retval>) {
    forall b, k :: rpc(b, k).Some? ==> rpc(b, k).value == truth(b, k)
  }

  /** Fetch and cache the missing requests. */
  method Fetch(cache: BufferedCallCache, missing: seq<Request>, b: Ptr, rpc: (Ptr, Key) -> Option<Retval>, ghost truth: Truth)
    returns (r: Option<seq<Response>>)
    requires cache.Agrees(truth) && RpcTrue(truth, rpc)
    modifies cache
    ensures cache.Agrees(truth)
    ensures r.Some? ==> Requests(r.value) == missing && Answers(truth, b, r.value)
    ensures r.Some? ==> forall i :: 0 <= i < |missing| ==> r.value[i].source == Rpc && missing[i].key in cache.BufferAt(b)
    ensures r.None? ==> exists req :: req in missing && rpc(b, req.key).None?
  {
    var resps: seq<Response> := [];
    for i := 0 to |missing|
      invariant cache.Agrees(truth)
      invariant Requests(resps) == missing[..i] && Answers(truth, b, resps)
      invariant forall j :: 0 <= j < i ==> resps[j].source == Rpc && missing[j].key in cache.BufferAt(b)
    {
      var result := rpc(b, missing[i].key);
      if result.None? {
        assert missing[i] in missing;
        return None;
      }
      cache.SetCall(missing[i], b, result.value, truth);
      resps := resps + [Response(missing[i], result.value, Rpc)];
      assert missing[..i + 1] == missing[..i] + [missing[i]];
    }
    r := Some(resps);
  }

  /** `contract_calls`: one result per call, result i decoded from the chain's answer to call
      i, whatever the caches held and in whatever order they answered. `None` is an error:
      calls for different blocks, arguments that do not encode, or a failed node request. */
  method ContractCallBatch<T>(cache: BufferedCallCache, store: Persistent, cacheOk: bool, calls: seq<ContractCall>,
                              rpc: (Ptr, Key) -> Option<Retval>, decode: (ContractCall, Retval) -> T, ghost truth: Truth)
    returns (r: Option<seq<T>>)
    requires cache.Agrees(truth) && StoreTrue(truth, store) && RpcTrue(truth, rpc)
    modifies cache
    ensures cache.Agrees(truth)
    ensures r.Some? ==> OneBlock(calls) && Encodes(calls) && |r.value| == |calls|
    ensures r.Some? ==> forall i :: 0 <= i < |calls| ==> r.value[i] == decode(calls[i], truth(calls[i].block, calls[i].key.value))
    ensures (&& OneBlock(calls) && Encodes(calls)
             && forall i :: 0 <= i < |calls| ==>
                  || rpc(calls[i].block, calls[i].key.value).Some?
                  || (cacheOk && calls[i].key.value in old(cache.BufferAt(calls[i].block))))
            ==> r.Some?
  {
    if calls == [] {
      return Some([]);
    }
    var b := calls[0].block;
    if exists i :: 0 <= i < |calls| && calls[i].block != b {
      return None;
    }
    if exists i :: 0 <= i < |calls| && calls[i].key.None? {
      return None;
    }
    var reqs := Numbered(calls);
    var hit := cache.GetCalls(reqs, b, store, cacheOk, truth);
    var (resps, missing) := if hit.Some? then hit.value else ([], reqs);
    if hit.Some? {
      LookedMissing(reqs, old(cache.BufferAt(b)), store, b, resps, missing);
    }
    var fetched := Fetch(cache, missing, b, rpc, truth);
    if fetched.None? {
      return None;
    }
    RequestsConcat(resps, fetched.value);
    var out := InOrder(calls, resps + fetched.value, b, decode, truth);
    r := Some(out);
  }

  /** Bring the responses into the order of the calls and decode them. */
  method InOrder<T>(calls: seq<ContractCall>, resps: seq<Response>, b: Ptr, decode: (ContractCall, Retval) -> T, ghost truth: Truth)
    returns (out: seq<T>)
    requires Encodes(calls) && Answers(truth, b, resps)
    requires multiset(Requests(resps)) == multiset(Numbered(calls))
    ensures |out| == |calls|
    ensures forall i :: 0 <= i < |calls| ==> out[i] == decode(calls[i], truth(b, calls[i].key.value))
  {
    var sorted := Sort(resps);
    MapPermuted((resp: Response) => resp.req, resps, sorted);
    SortedResponses(calls, sorted);
    AnswersPermuted(truth, b, resps, sorted);
    out := [];
    for i := 0 to |sorted|
      invariant |out| == i
      invariant forall j :: 0 <= j < i ==> out[j] == decode(calls[j], truth(b, calls[j].key.value))
    {
      out := out + [decode(calls[sorted[i].req.index], sorted[i].retval)];
    }
  }

  lemma AnswersPermuted(truth: Truth, b: Ptr, xs: seq<Response>, ys: seq<Response>)
    requires Answers(truth, b, xs) && multiset(xs) == multiset(ys)
    ensures Answers(truth, b, ys)
  {
    forall i | 0 <= i < |ys|
      ensures ys[i].retval == truth(b, ys[i].req.key)
    {
      assert ys[i] in multiset(ys);
      assert ys[i] in xs;
    }
  }
}
