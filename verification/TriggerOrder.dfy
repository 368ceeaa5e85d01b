/** The order in which the triggers of a block are processed: the comparison of triggers, and
    the sorting and deduplication of `BlockWithTriggers::new`. */
module TriggerOrder {
  import opened Types
  import opened Dispatch

  datatype Order = Less | Equal | Greater

  predicate IsStart(t: Trigger) {
    t.BlockTrigger? && t.kind.Start?
  }

  function ByNumber(x: int, y: int): Order {
    if x < y then Less else if x == y then Equal else Greater
  }

  function Compare(a: Trigger, b: Trigger): Order {
    if IsStart(a) then Less
    else if IsStart(b) then Greater
    else if a.BlockTrigger? && b.BlockTrigger? then Equal
    else if a.BlockTrigger? then Greater
    else if b.BlockTrigger? then Less
    else if a.CallTrigger? && b.CallTrigger? then ByNumber(a.call.tx, b.call.tx)
    else if a.LogTrigger? && b.LogTrigger? then ByNumber(a.log.index, b.log.index)
    else if a.CallTrigger? then (if a.call.tx == b.log.tx then Greater else ByNumber(a.call.tx, b.log.tx))
    else (if a.log.tx == b.call.tx then Less else ByNumber(a.log.tx, b.call.tx))
  }

  predicate Leq(a: Trigger, b: Trigger) {
    Compare(a, b) != Greater
  }

  // ---------- when the comparison is an order ----------

  /** Log indices follow the order of transactions, and an index belongs to one transaction. */
  ghost predicate Consistent(logs: iset<Log>) {
    forall l, m :: l in logs && m in logs ==>
      (l.index < m.index ==> l.tx <= m.tx) && (l.index == m.index ==> l.tx == m.tx)
  }

  ghost predicate Among(logs: iset<Log>, t: Trigger) {
    t.LogTrigger? ==> t.log in logs
  }

  ghost predicate Transitive(logs: iset<Log>) {
    forall a, b, c :: Among(logs, a) && Among(logs, b) && Among(logs, c) && Leq(a, b) && Leq(b, c) ==> Leq(a, c)
  }

  lemma TransitiveAt(logs: iset<Log>, a: Trigger, b: Trigger, c: Trigger)
    requires Consistent(logs) && Among(logs, a) && Among(logs, b) && Among(logs, c) && Leq(a, b) && Leq(b, c)
    ensures Leq(a, c)
  {
  }

  function Opposite(o: Order): Order {
    match o
    case Less => Greater
    case Equal => Equal
    case Greater => Less
  }

  /** Swapping the operands reverses the comparison unless both are block starts. */
  lemma ReversedUnlessStarts(a: Trigger, b: Trigger)
    ensures Compare(b, a) == Opposite(Compare(a, b)) <==> !(IsStart(a) && IsStart(b))
  {
  }

  /** The comparison is transitive over all calls, blocks and the given logs if and only if the
      log indices are consistent. */
  lemma OrderIffConsistent(logs: iset<Log>)
    ensures Transitive(logs) <==> Consistent(logs)
  {
    if Consistent(logs) {
      ConsistentOrder(logs);
    }
    if Transitive(logs) {
      OrderConsistent(logs);
    }
  }

  lemma OrderConsistent(logs: iset<Log>)
    requires Transitive(logs)
    ensures Consistent(logs)
  {
    forall l, m | l in logs && m in logs
      ensures (l.index < m.index ==> l.tx <= m.tx) && (l.index == m.index ==> l.tx == m.tx)
    {
      CallBetween(logs, l, m);
      CallBetween(logs, m, l);
    }
  }

  lemma ConsistentOrder(logs: iset<Log>)
    requires Consistent(logs)
    ensures Transitive(logs)
  {
    forall a, b, c | Among(logs, a) && Among(logs, b) && Among(logs, c) && Leq(a, b) && Leq(b, c)
      ensures Leq(a, c)
    {
      TransitiveAt(logs, a, b, c);
    }
  }

  /** A call in the transaction of `m` lies between `m` and any log of a later transaction. */
  lemma CallBetween(logs: iset<Log>, l: Log, m: Log)
    requires Transitive(logs) && l in logs && m in logs
    ensures l.index <= m.index ==> l.tx <= m.tx
  {
    var c := CallTrigger(Call(0, Address(0), [], true, m.tx, 0));
    if l.tx > m.tx {
      assert Leq(LogTrigger(m), c) && Leq(c, LogTrigger(l));
      assert Leq(LogTrigger(m), LogTrigger(l));
      assert l.index <= m.index ==> Leq(LogTrigger(l), LogTrigger(m));
      assert l.index <= m.index ==> Leq(LogTrigger(l), c);
    }
  }

  function Phase(t: Trigger): int {
    if IsStart(t) then 0 else if t.BlockTrigger? then 2 else 1
  }

  function Transaction(t: Trigger): nat
    requires Phase(t) == 1
  {
    if t.LogTrigger? then t.log.tx else t.call.tx
  }

  /** Block starts, then transaction by transaction its logs by index and its calls, then the
      other block triggers. */
  predicate NotAfter(a: Trigger, b: Trigger) {
    if Phase(a) != Phase(b) then Phase(a) < Phase(b)
    else if Phase(a) != 1 then true
    else if Transaction(a) != Transaction(b) then Transaction(a) < Transaction(b)
    else if a.LogTrigger? && b.LogTrigger? then a.log.index <= b.log.index
    else a.LogTrigger? || b.CallTrigger?
  }

  ghost predicate Lexicographic(logs: iset<Log>) {
    forall a, b :: Among(logs, a) && Among(logs, b) ==> (Leq(a, b) <==> NotAfter(a, b))
  }

  /** The comparison is this lexicographic order if and only if the log indices are consistent. */
  lemma LexicographicIffConsistent(logs: iset<Log>)
    ensures Lexicographic(logs) <==> Consistent(logs)
  {
    if Lexicographic(logs) {
      forall l, m | l in logs && m in logs
        ensures (l.index < m.index ==> l.tx <= m.tx) && (l.index == m.index ==> l.tx == m.tx)
      {
        assert Leq(LogTrigger(l), LogTrigger(m)) <==> NotAfter(LogTrigger(l), LogTrigger(m));
        assert Leq(LogTrigger(m), LogTrigger(l)) <==> NotAfter(LogTrigger(m), LogTrigger(l));
      }
    }
  }

  // ---------- stable sorting ----------

  ghost predicate Sorted(ts: seq<Trigger>) {
    forall i, j :: 0 <= i < j < |ts| ==> Leq(ts[i], ts[j])
  }

  ghost predicate AllAmong(logs: iset<Log>, ts: seq<Trigger>) {
    forall i :: 0 <= i < |ts| ==> Among(logs, ts[i])
  }

  predicate Tied(a: Trigger, b: Trigger) {
    Leq(a, b) && Leq(b, a)
  }

  /** The triggers that compare equal to `p`, in their order. */
  function TiedWith(ts: seq<Trigger>, p: Trigger): seq<Trigger> {
    if ts == [] then []
    else (if Tied(ts[0], p) then [ts[0]] else []) + TiedWith(ts[1..], p)
  }

  lemma {:induction false} TiedConcat(xs: seq<Trigger>, ys: seq<Trigger>, p: Trigger)
    ensures TiedWith(xs + ys, p) == TiedWith(xs, p) + TiedWith(ys, p)
  {
    if xs == [] {
      assert xs + ys == ys;
    } else {
      assert (xs + ys)[0] == xs[0] && (xs + ys)[1..] == xs[1..] + ys;
      TiedConcat(xs[1..], ys, p);
      var first := if Tied(xs[0], p) then [xs[0]] else [];
      assert TiedWith(xs + ys, p) == first + (TiedWith(xs[1..], p) + TiedWith(ys, p));
    }
  }

  lemma {:induction false} TiedNone(ts: seq<Trigger>, p: Trigger)
    requires forall i :: 0 <= i < |ts| ==> !Tied(ts[i], p)
    ensures TiedWith(ts, p) == []
  {
    if ts != [] {
      TiedNone(ts[1..], p);
    }
  }

  /** Sorted, with the same triggers, and ties in their original order. */
  ghost predicate StableSortOf(r: seq<Trigger>, ts: seq<Trigger>) {
    Sorted(r) && forall p :: TiedWith(r, p) == TiedWith(ts, p)
  }

  method Place(sorted: seq<Trigger>, x: Trigger, ghost logs: iset<Log>) returns (r: seq<Trigger>)
    requires Consistent(logs) && AllAmong(logs, sorted) && Among(logs, x) && Sorted(sorted)
    ensures AllAmong(logs, r) && StableSortOf(r, sorted + [x])
  {
    var j := |sorted|;
    while j > 0 && !Leq(sorted[j - 1], x)
      invariant 0 <= j <= |sorted|
      invariant forall k :: j <= k < |sorted| ==> !Leq(sorted[k], x)
    {
      j := j - 1;
    }
    r := sorted[..j] + [x] + sorted[j..];
    PlacedSorted(sorted, x, j, logs);
    forall p
      ensures TiedWith(r, p) == TiedWith(sorted + [x], p)
    {
      PlacedTies(sorted, x, j, p, logs);
    }
  }

  lemma PlacedSorted(sorted: seq<Trigger>, x: Trigger, j: nat, logs: iset<Log>)
    requires Consistent(logs) && AllAmong(logs, sorted) && Among(logs, x) && Sorted(sorted) && j <= |sorted|
    requires forall k :: j <= k < |sorted| ==> !Leq(sorted[k], x)
    requires j > 0 ==> Leq(sorted[j - 1], x)
    ensures Sorted(sorted[..j] + [x] + sorted[j..]) && AllAmong(logs, sorted[..j] + [x] + sorted[j..])
  {
    var r := sorted[..j] + [x] + sorted[j..];
    forall i | 0 <= i < |r|
      ensures r[i] == if i < j then sorted[i] else if i == j then x else sorted[i - 1]
    {
    }
    forall i, k | 0 <= i < k < |r|
      ensures Leq(r[i], r[k])
    {
      if i < j - 1 && k == j {
        TransitiveAt(logs, sorted[i], sorted[j - 1], x);
      }
    }
  }

  lemma PlacedTies(sorted: seq<Trigger>, x: Trigger, j: nat, p: Trigger, logs: iset<Log>)
    requires Consistent(logs) && AllAmong(logs, sorted) && Among(logs, x) && j <= |sorted|
    requires forall k :: j <= k < |sorted| ==> !Leq(sorted[k], x)
    ensures TiedWith(sorted[..j] + [x] + sorted[j..], p) == TiedWith(sorted + [x], p)
  {
    assert sorted == sorted[..j] + sorted[j..];
    TiedConcat(sorted[..j] + [x], sorted[j..], p);
    TiedConcat(sorted[..j], [x], p);
    TiedConcat(sorted[..j] + sorted[j..], [x], p);
    TiedConcat(sorted[..j], sorted[j..], p);
    if Tied(x, p) {
      forall k | 0 <= k < |sorted[j..]|
        ensures !Tied(sorted[j..][k], p)
      {
        TiesMeet(sorted[j + k], x, p);
      }
      TiedNone(sorted[j..], p);
    }
  }

  /** Being tied is transitive for all triggers, consistent or not. */
  lemma TiesMeet(a: Trigger, b: Trigger, p: Trigger)
    requires Tied(b, p)
    ensures Tied(a, p) ==> Leq(a, b)
  {
  }

  method Sort(ts: seq<Trigger>, ghost logs: iset<Log>) returns (r: seq<Trigger>)
    requires Consistent(logs) && AllAmong(logs, ts)
    ensures AllAmong(logs, r) && StableSortOf(r, ts)
  {
    r := [];
    for i := 0 to |ts|
      invariant AllAmong(logs, r) && StableSortOf(r, ts[..i])
    {
      ghost var was := r;
      r := Place(r, ts[i], logs);
      assert ts[..i + 1] == ts[..i] + [ts[i]];
      forall p
        ensures TiedWith(r, p) == TiedWith(ts[..i + 1], p)
      {
        TiedConcat(was, [ts[i]], p);
        TiedConcat(ts[..i], [ts[i]], p);
      }
    }
    assert ts[..|ts|] == ts;
  }

  /** Nothing tied with `p` follows a trigger that comes after `p`. */
  lemma TiesEnd(ts: seq<Trigger>, p: Trigger, logs: iset<Log>)
    requires Consistent(logs) && AllAmong(logs, ts) && Among(logs, p) && Sorted(ts)
    requires ts != [] && !Leq(ts[0], p)
    ensures TiedWith(ts, p) == []
  {
    forall i | 0 <= i < |ts|
      ensures !Tied(ts[i], p)
    {
      if 0 < i && Leq(ts[i], p) {
        TransitiveAt(logs, ts[0], ts[i], p);
      }
    }
    TiedNone(ts, p);
  }

  lemma {:induction false} TiedIn(ts: seq<Trigger>, p: Trigger)
    ensures forall t :: t in TiedWith(ts, p) <==> t in ts && Tied(t, p)
  {
    if ts != [] {
      TiedIn(ts[1..], p);
    }
  }

  lemma {:induction false} TiedCount(ts: seq<Trigger>, p: Trigger)
    ensures multiset(TiedWith(ts, p))[p] == multiset(ts)[p]
  {
    if ts == [] {
      assert TiedWith(ts, p) == ts;
    } else {
      TiedCount(ts[1..], p);
      var ties := TiedWith(ts[1..], p);
      assert ts == [ts[0]] + ts[1..];
      assert multiset(ts) == multiset([ts[0]]) + multiset(ts[1..]);
      if Tied(ts[0], p) {
        assert TiedWith(ts, p) == [ts[0]] + ties;
      } else {
        assert Tied(p, p) && TiedWith(ts, p) == ties;
      }
    }
  }

  /** The sorted sequence is determined by the order within ties alone. */
  lemma {:induction false} SortDetermined(x: seq<Trigger>, y: seq<Trigger>)
    requires Sorted(x) && Sorted(y) && SameTies(x, y)
    ensures x == y
    decreases |x|
  {
    if y != [] {
      FirstBelow(y, x);
    }
    if x != [] {
      SameFirst(x, y);
      SameRest(x, y);
      SortDetermined(x[1..], y[1..]);
    }
  }

  ghost predicate SameTies(x: seq<Trigger>, y: seq<Trigger>) {
    forall p :: p in x || p in y ==> TiedWith(x, p) == TiedWith(y, p)
  }

  lemma SameFirst(x: seq<Trigger>, y: seq<Trigger>)
    requires Sorted(x) && Sorted(y) && x != [] && SameTies(x, y)
    ensures y != [] && x[0] == y[0]
  {
    FirstBelow(x, y);
    FirstBelow(y, x);
    assert Tied(x[0], y[0]) && x[0] in x;
    TiedRest(x, x[0]);
    TiedRest(y, x[0]);
  }

  lemma SameRest(x: seq<Trigger>, y: seq<Trigger>)
    requires x != [] && y != [] && x[0] == y[0] && SameTies(x, y)
    ensures SameTies(x[1..], y[1..])
  {
    forall p | p in x[1..] || p in y[1..]
      ensures TiedWith(x[1..], p) == TiedWith(y[1..], p)
    {
      TiedRest(x, p);
      TiedRest(y, p);
    }
  }

  lemma FirstBelow(x: seq<Trigger>, y: seq<Trigger>)
    requires Sorted(y) && x != [] && TiedWith(x, x[0]) == TiedWith(y, x[0])
    ensures y != [] && Leq(y[0], x[0])
  {
    TiedIn(x, x[0]);
    TiedIn(y, x[0]);
    assert x[0] in TiedWith(x, x[0]);
    assert x[0] in y;
  }

  lemma TiedRest(ts: seq<Trigger>, p: Trigger)
    requires ts != []
    ensures TiedWith(ts[1..], p) == if Tied(ts[0], p) then TiedWith(ts, p)[1..] else TiedWith(ts, p)
    ensures Tied(ts[0], p) ==> TiedWith(ts, p)[0] == ts[0]
  {
  }

  // ---------- deduplication ----------

  /** `Vec::dedup`: a run of equal triggers becomes one. */
  function Dedup(ts: seq<Trigger>): seq<Trigger> {
    if |ts| < 2 then ts
    else if ts[0] == ts[1] then Dedup(ts[1..])
    else [ts[0]] + Dedup(ts[1..])
  }

  /** The number of maximal runs of `t`. */
  function Groups(ts: seq<Trigger>, t: Trigger): nat {
    if ts == [] then 0
    else Groups(ts[1..], t) + if ts[0] == t && (|ts| == 1 || ts[1] != t) then 1 else 0
  }

  lemma {:induction false} DedupIn(ts: seq<Trigger>)
    ensures forall t :: t in Dedup(ts) <==> t in ts
    ensures forall t :: multiset(Dedup(ts))[t] == Groups(ts, t)
    ensures ts != [] ==> Dedup(ts) != [] && Dedup(ts)[0] == ts[0]
  {
    if |ts| >= 2 {
      assert ts == [ts[0]] + ts[1..];
      DedupIn(ts[1..]);
    }
  }

  lemma {:induction false} DedupSorted(ts: seq<Trigger>)
    requires Sorted(ts)
    ensures Sorted(Dedup(ts))
  {
    if |ts| >= 2 {
      DedupSorted(ts[1..]);
      DedupIn(ts[1..]);
      forall t | t in Dedup(ts[1..])
        ensures Leq(ts[0], t)
      {
        assert t in ts[1..];
      }
    }
  }

  /** Deduplicating a sorted sequence deduplicates every group of ties on its own. */
  lemma {:induction false} DedupTied(ts: seq<Trigger>, p: Trigger, logs: iset<Log>)
    requires Consistent(logs) && AllAmong(logs, ts) && Among(logs, p) && Sorted(ts)
    ensures TiedWith(Dedup(ts), p) == Dedup(TiedWith(ts, p))
  {
    if |ts| >= 2 {
      var rest := ts[1..];
      DedupTied(rest, p, logs);
      if Tied(ts[0], p) && !Tied(ts[1], p) {
        NextTie(ts, p, logs);
      }
      var ties := TiedWith(rest, p);
      if Tied(ts[0], p) {
        assert TiedWith(ts, p) == [ts[0]] + ties;
        assert ([ts[0]] + ties)[1..] == ties;
        assert ties == [] || ties[0] == ts[1];
      } else {
        assert TiedWith(ts, p) == ties;
      }
      if ts[0] == ts[1] {
        assert Tied(ts[1], p) ==> ties != [];
      } else {
        assert Dedup(ts) == [ts[0]] + Dedup(rest);
        assert Dedup(ts)[1..] == Dedup(rest);
      }
    }
  }

  lemma NextTie(ts: seq<Trigger>, p: Trigger, logs: iset<Log>)
    requires Consistent(logs) && AllAmong(logs, ts) && Among(logs, p) && Sorted(ts)
    requires |ts| >= 2 && Tied(ts[0], p) && !Tied(ts[1], p)
    ensures TiedWith(ts[1..], p) == []
  {
    TransitiveAt(logs, p, ts[0], ts[1]);
    TiesEnd(ts[1..], p, logs);
  }

  /** Sorted, and every group of ties is the deduplicated group of `ts`. */
  ghost predicate SortedDistinct(r: seq<Trigger>, ts: seq<Trigger>, logs: iset<Log>) {
    && Sorted(r)
    && AllAmong(logs, r)
    && forall p :: Among(logs, p) ==> TiedWith(r, p) == Dedup(TiedWith(ts, p))
  }

  /** `BlockWithTriggers::new`. */
  method BlockWithTriggers(ts: seq<Trigger>, ghost logs: iset<Log>) returns (r: seq<Trigger>)
    requires Consistent(logs) && AllAmong(logs, ts)
    ensures SortedDistinct(r, ts, logs)
  {
    var sorted := Sort(ts, logs);
    r := Dedup(sorted);
    DedupDistinct(sorted, ts, logs);
  }

  lemma DedupDistinct(sorted: seq<Trigger>, ts: seq<Trigger>, logs: iset<Log>)
    requires Consistent(logs) && AllAmong(logs, sorted) && StableSortOf(sorted, ts)
    ensures SortedDistinct(Dedup(sorted), ts, logs)
  {
    var r := Dedup(sorted);
    DedupSorted(sorted);
    DedupIn(sorted);
    forall i | 0 <= i < |r|
      ensures Among(logs, r[i])
    {
      assert r[i] in sorted;
    }
    forall p | Among(logs, p)
      ensures TiedWith(r, p) == Dedup(TiedWith(ts, p))
    {
      DedupTied(sorted, p, logs);
    }
  }

  /** Every list of triggers of a block can be sorted. */
  lemma SortExists(ts: seq<Trigger>, logs: iset<Log>) returns (r: seq<Trigger>)
    requires Consistent(logs) && AllAmong(logs, ts)
    ensures SortedDistinct(r, ts, logs)
  {
    var sorted := StableSortExists(ts, logs);
    DedupDistinct(sorted, ts, logs);
    r := Dedup(sorted);
  }

  lemma {:induction false} StableSortExists(ts: seq<Trigger>, logs: iset<Log>) returns (r: seq<Trigger>)
    requires Consistent(logs) && AllAmong(logs, ts)
    ensures AllAmong(logs, r) && StableSortOf(r, ts)
  {
    if ts == [] {
      r := [];
    } else {
      var n := |ts| - 1;
      var front := StableSortExists(ts[..n], logs);
      r := PlaceExists(front, ts[n], logs);
      assert ts == ts[..n] + [ts[n]];
      forall p
        ensures TiedWith(r, p) == TiedWith(ts, p)
      {
        TiedConcat(front, [ts[n]], p);
        TiedConcat(ts[..n], [ts[n]], p);
      }
    }
  }

  lemma {:induction false} PlaceExists(sorted: seq<Trigger>, x: Trigger, logs: iset<Log>) returns (r: seq<Trigger>)
    requires Consistent(logs) && AllAmong(logs, sorted) && Among(logs, x) && Sorted(sorted)
    ensures AllAmong(logs, r) && StableSortOf(r, sorted + [x])
  {
    var j := LastBelow(sorted, x);
    r := sorted[..j] + [x] + sorted[j..];
    PlacedSorted(sorted, x, j, logs);
    forall p
      ensures TiedWith(r, p) == TiedWith(sorted + [x], p)
    {
      PlacedTies(sorted, x, j, p, logs);
    }
  }

  lemma {:induction false} LastBelow(sorted: seq<Trigger>, x: Trigger) returns (j: nat)
    ensures j <= |sorted| && (j > 0 ==> Leq(sorted[j - 1], x))
    ensures forall k :: j <= k < |sorted| ==> !Leq(sorted[k], x)
  {
    if sorted == [] || Leq(sorted[|sorted| - 1], x) {
      j := |sorted|;
    } else {
      j := LastBelow(sorted[..|sorted| - 1], x);
    }
  }

  /** Nothing is lost or invented, and a trigger is kept once for every run of it among the
      triggers it ties with. */
  lemma KeptOncePerRun(r: seq<Trigger>, ts: seq<Trigger>, logs: iset<Log>, t: Trigger)
    requires SortedDistinct(r, ts, logs) && Among(logs, t)
    ensures t in r <==> t in ts
    ensures multiset(r)[t] == Groups(TiedWith(ts, t), t)
  {
    TiedCount(r, t);
    TiedCount(ts, t);
    DedupIn(TiedWith(ts, t));
    assert t in r <==> multiset(r)[t] > 0;
    assert t in TiedWith(ts, t) <==> multiset(TiedWith(ts, t))[t] > 0;
  }

  /** The order in which parts that do not tie with each other are fetched does not matter. */
  lemma PartsCommute(xs: seq<Trigger>, ys: seq<Trigger>, r: seq<Trigger>, s: seq<Trigger>, logs: iset<Log>)
    requires forall x, y :: x in xs && y in ys ==> !Tied(x, y)
    requires SortedDistinct(r, xs + ys, logs) && SortedDistinct(s, ys + xs, logs)
    ensures r == s
  {
    forall p | p in r || p in s
      ensures TiedWith(r, p) == TiedWith(s, p)
    {
      assert Among(logs, p);
      PartsTies(xs, ys, p);
    }
    SortDetermined(r, s);
  }

  lemma PartsTies(xs: seq<Trigger>, ys: seq<Trigger>, p: Trigger)
    requires forall x, y :: x in xs && y in ys ==> !Tied(x, y)
    ensures TiedWith(xs + ys, p) == TiedWith(ys + xs, p)
  {
    TiedConcat(xs, ys, p);
    TiedConcat(ys, xs, p);
    OneSided(xs, ys, p);
  }

  lemma OneSided(xs: seq<Trigger>, ys: seq<Trigger>, p: Trigger)
    requires forall x, y :: x in xs && y in ys ==> !Tied(x, y)
    ensures TiedWith(xs, p) == [] || TiedWith(ys, p) == []
  {
    TiedIn(xs, p);
    TiedIn(ys, p);
    if TiedWith(xs, p) != [] && TiedWith(ys, p) != [] {
      var x, y := TiedWith(xs, p)[0], TiedWith(ys, p)[0];
      TiesMeet(x, y, p);
      TiesMeet(y, x, p);
      assert false;
    }
  }

  ghost predicate DuplicateFree(r: seq<Trigger>) {
    forall t :: multiset(r)[t] <= 1
  }

  /** Between two occurrences of `t` there is no other trigger that ties with it. */
  ghost predicate Together(ts: seq<Trigger>, t: Trigger) {
    forall i, k, j :: 0 <= i < k < j < |ts| && ts[i] == t && ts[j] == t && Tied(ts[k], t) ==> ts[k] == t
  }

  lemma {:induction false} FirstTie(ts: seq<Trigger>, p: Trigger) returns (m: nat)
    requires TiedWith(ts, p) != []
    ensures m < |ts| && ts[m] == TiedWith(ts, p)[0] && Tied(ts[m], p)
    ensures forall k :: 0 <= k < m ==> !Tied(ts[k], p)
  {
    if Tied(ts[0], p) {
      m := 0;
    } else {
      var n := FirstTie(ts[1..], p);
      m := n + 1;
    }
  }

  lemma {:induction false} OneRunIffTogether(ts: seq<Trigger>, t: Trigger)
    ensures Groups(TiedWith(ts, t), t) <= 1 <==> Together(ts, t)
  {
    if ts != [] {
      var rest := ts[1..];
      OneRunIffTogether(rest, t);
      assert forall k :: 0 < k < |ts| ==> ts[k] == rest[k - 1];
      if ts[0] != t {
        TogetherTail(ts, t);
      } else {
        TogetherHead(ts, t);
      }
    }
  }

  lemma TogetherTail(ts: seq<Trigger>, t: Trigger)
    requires ts != [] && ts[0] != t
    ensures Together(ts, t) <==> Together(ts[1..], t)
    ensures Groups(TiedWith(ts, t), t) == Groups(TiedWith(ts[1..], t), t)
  {
    var rest := ts[1..];
    var ties := TiedWith(rest, t);
    if Tied(ts[0], t) {
      assert TiedWith(ts, t) == [ts[0]] + ties;
      assert ([ts[0]] + ties)[1..] == ties;
    } else {
      assert TiedWith(ts, t) == ties;
    }
    if Together(ts, t) {
      TogetherDrop(ts, t);
    }
  }

  lemma TogetherDrop(ts: seq<Trigger>, t: Trigger)
    requires ts != [] && Together(ts, t)
    ensures Together(ts[1..], t)
  {
    var rest := ts[1..];
    forall i, k, j | 0 <= i < k < j < |rest| && rest[i] == t && rest[j] == t && Tied(rest[k], t)
      ensures rest[k] == t
    {
      assert ts[i + 1] == t && ts[j + 1] == t && Tied(ts[k + 1], t);
    }
  }

  lemma HeadGroups(ts: seq<Trigger>, t: Trigger)
    requires ts != [] && ts[0] == t
    ensures var ties := TiedWith(ts[1..], t);
            && Groups(TiedWith(ts, t), t) == Groups(ties, t) + (if ties == [] || ties[0] != t then 1 else 0)
            && (Groups(ties, t) == 0 <==> t !in ts[1..])
  {
    var ties := TiedWith(ts[1..], t);
    assert Tied(t, t) && TiedWith(ts, t) == [t] + ties;
    assert ([t] + ties)[1..] == ties;
    TiedIn(ts[1..], t);
    DedupIn(ties);
  }

  lemma TogetherHead(ts: seq<Trigger>, t: Trigger)
    requires ts != [] && ts[0] == t
    requires Groups(TiedWith(ts[1..], t), t) <= 1 <==> Together(ts[1..], t)
    ensures Groups(TiedWith(ts, t), t) <= 1 <==> Together(ts, t)
  {
    HeadGroups(ts, t);
    if TiedWith(ts[1..], t) == [] {
      forall j | 0 < j < |ts|
        ensures ts[j] != t
      {
        assert ts[j] in ts[1..];
      }
    } else {
      var m := FirstTie(ts[1..], t);
      if Groups(TiedWith(ts, t), t) <= 1 {
        HeadTogether(ts, t, m);
      } else if Together(ts, t) {
        HeadApart(ts, t, m);
      }
    }
  }

  lemma HeadApart(ts: seq<Trigger>, t: Trigger, m: nat)
    requires ts != [] && ts[0] == t && m < |ts| - 1 && Together(ts, t) && Tied(ts[m + 1], t)
    requires forall k :: 0 <= k < m ==> !Tied(ts[1..][k], t)
    ensures Together(ts[1..], t) && (ts[m + 1] == t || t !in ts[1..])
  {
    TogetherDrop(ts, t);
    if t in ts[1..] {
      var j :| 0 <= j < |ts[1..]| && ts[1..][j] == t;
      assert ts[j + 1] == t && m <= j;
    }
  }

  lemma HeadTogether(ts: seq<Trigger>, t: Trigger, m: nat)
    requires ts != [] && ts[0] == t && m < |ts| - 1 && Together(ts[1..], t)
    requires forall k :: 0 <= k < m ==> !Tied(ts[1..][k], t)
    requires ts[m + 1] == t || t !in ts[1..]
    ensures Together(ts, t)
  {
    var rest := ts[1..];
    forall i, k, j | 0 <= i < k < j < |ts| && ts[i] == t && ts[j] == t && Tied(ts[k], t)
      ensures ts[k] == t
    {
      assert rest[j - 1] == t && rest[k - 1] == ts[k];
      if i > 0 {
        assert rest[i - 1] == t;
      } else {
        assert rest[m] == t;
        assert m <= k - 1;
      }
    }
  }

  /** The triggers of a block are free of duplicates if and only if equal triggers were listed
      with nothing between them that ties with them. */
  lemma DuplicateFreeIff(r: seq<Trigger>, ts: seq<Trigger>, logs: iset<Log>)
    requires SortedDistinct(r, ts, logs)
    ensures DuplicateFree(r) <==> forall t :: Among(logs, t) ==> Together(ts, t)
  {
    forall t
      ensures Among(logs, t) ==> (multiset(r)[t] <= 1 <==> Together(ts, t))
      ensures !Among(logs, t) ==> multiset(r)[t] == 0
    {
      if Among(logs, t) {
        KeptOncePerRun(r, ts, logs, t);
        OneRunIffTogether(ts, t);
      }
    }
    if forall t :: Among(logs, t) ==> Together(ts, t) {
      forall t
        ensures multiset(r)[t] <= 1
      {
        assert Among(logs, t) ==> Together(ts, t);
      }
    }
  }

  // ---------- what can and what cannot be kept twice ----------

  ghost predicate Indexed(logs: iset<Log>) {
    forall l, m :: l in logs && m in logs && l.index == m.index ==> l == m
  }

  /** Logs and the start of the block are never kept twice. */
  lemma KeptOnce(r: seq<Trigger>, ts: seq<Trigger>, logs: iset<Log>, number: int, t: Trigger)
    requires SortedDistinct(r, ts, logs) && AllAmong(logs, ts) && Indexed(logs)
    requires forall u :: u in ts && u.BlockTrigger? ==> u.number == number
    requires t in ts && (t.LogTrigger? || IsStart(t))
    ensures multiset(r)[t] == 1
  {
    KeptOncePerRun(r, ts, logs, t);
    forall k | 0 <= k < |ts| && Tied(ts[k], t)
      ensures ts[k] == t
    {
      assert ts[k] in ts;
    }
    OneRunIffTogether(ts, t);
  }

  /** Two equal triggers with another one between them that ties with them are both kept: such as
      calls of one transaction, or the call-filtered block triggers of a block. */
  lemma KeptTwice(r: seq<Trigger>, x: Trigger, y: Trigger, logs: iset<Log>)
    requires x != y && Tied(y, x) && Among(logs, x) && SortedDistinct(r, [x, y, x], logs)
    ensures multiset(r)[x] == 2 && !DuplicateFree(r)
  {
    var ts := [x, y, x];
    KeptOncePerRun(r, ts, logs, x);
    assert ts[1..] == [y, x] && [y, x][1..] == [x] && [x][1..] == [];
    assert TiedWith([x], x) == [x] && TiedWith([y, x], x) == [y, x] && TiedWith(ts, x) == ts;
    assert Groups([x], x) == 1 && Groups([y, x], x) == 1;
  }
}
