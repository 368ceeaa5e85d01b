/** What becomes of the sorted and deduplicated triggers of a block when some are left out
    beforehand. Deduplication removes neighbours, so leaving out what stands between two equal
    triggers merges them. */
module TriggerSieve {
  import opened Types
  import opened Dispatch
  import opened TriggerOrder

  /** The triggers that are to be kept, in their order. */
  function Only(ts: seq<Trigger>, keep: Trigger -> bool): seq<Trigger> {
    if ts == [] then []
    else (if keep(ts[0]) then [ts[0]] else []) + Only(ts[1..], keep)
  }

  lemma {:induction false} OnlyConcat(xs: seq<Trigger>, ys: seq<Trigger>, keep: Trigger -> bool)
    ensures Only(xs + ys, keep) == Only(xs, keep) + Only(ys, keep)
  {
    if xs == [] {
      assert xs + ys == ys;
    } else {
      assert (xs + ys)[0] == xs[0] && (xs + ys)[1..] == xs[1..] + ys;
      OnlyConcat(xs[1..], ys, keep);
      var first := if keep(xs[0]) then [xs[0]] else [];
      assert Only(xs + ys, keep) == first + (Only(xs[1..], keep) + Only(ys, keep));
    }
  }

  lemma {:induction false} OnlyIn(ts: seq<Trigger>, keep: Trigger -> bool)
    ensures forall t :: t in Only(ts, keep) <==> t in ts && keep(t)
  {
    if ts != [] {
      OnlyIn(ts[1..], keep);
    }
  }

  lemma {:induction false} OnlyCount(ts: seq<Trigger>, keep: Trigger -> bool, t: Trigger)
    ensures multiset(Only(ts, keep))[t] == if keep(t) then multiset(ts)[t] else 0
  {
    if ts != [] {
      OnlyCount(ts[1..], keep, t);
      assert ts == [ts[0]] + ts[1..];
      assert multiset(ts) == multiset([ts[0]]) + multiset(ts[1..]);
    }
  }

  /** Nothing is left out if and only if everything is to be kept. */
  lemma {:induction false} OnlySame(ts: seq<Trigger>, keep: Trigger -> bool)
    ensures |Only(ts, keep)| <= |ts|
    ensures Only(ts, keep) == ts <==> forall t :: t in ts ==> keep(t)
  {
    if ts != [] {
      OnlySame(ts[1..], keep);
      var rest := Only(ts[1..], keep);
      assert ts == [ts[0]] + ts[1..] && ts[0] in ts;
      assert ([ts[0]] + rest)[1..] == rest;
      if keep(ts[0]) {
        assert Only(ts, keep) == [ts[0]] + rest;
      } else {
        assert |Only(ts, keep)| < |ts|;
      }
    }
  }

  lemma {:induction false} OnlyCongruent(ts: seq<Trigger>, p: Trigger -> bool, q: Trigger -> bool)
    requires forall t :: t in ts ==> p(t) == q(t)
    ensures Only(ts, p) == Only(ts, q)
  {
    if ts != [] {
      assert ts[0] in ts;
      OnlyCongruent(ts[1..], p, q);
    }
  }

  lemma {:induction false} OnlyTwice(ts: seq<Trigger>, p: Trigger -> bool, q: Trigger -> bool)
    ensures Only(Only(ts, p), q) == Only(ts, t => p(t) && q(t))
  {
    if ts != [] {
      OnlyTwice(ts[1..], p, q);
      var rest := Only(ts[1..], p);
      if p(ts[0]) {
        assert Only(ts, p) == [ts[0]] + rest;
        assert ([ts[0]] + rest)[1..] == rest;
      } else {
        assert Only(ts, p) == rest;
      }
    }
  }

  lemma {:induction false} OnlyTied(ts: seq<Trigger>, keep: Trigger -> bool, p: Trigger)
    ensures TiedWith(Only(ts, keep), p) == Only(TiedWith(ts, p), keep)
  {
    if ts != [] {
      OnlyTied(ts[1..], keep, p);
      var kept, ties := Only(ts[1..], keep), TiedWith(ts[1..], p);
      assert ([ts[0]] + kept)[1..] == kept && ([ts[0]] + ties)[1..] == ties;
      if keep(ts[0]) {
        assert Only(ts, keep) == [ts[0]] + kept;
      } else {
        assert Only(ts, keep) == kept;
      }
      if Tied(ts[0], p) {
        assert TiedWith(ts, p) == [ts[0]] + ties;
      } else {
        assert TiedWith(ts, p) == ties;
      }
    }
  }

  lemma {:induction false} OnlySorted(ts: seq<Trigger>, keep: Trigger -> bool)
    requires Sorted(ts)
    ensures Sorted(Only(ts, keep))
  {
    if ts != [] {
      OnlySorted(ts[1..], keep);
      OnlyIn(ts[1..], keep);
      var rest := Only(ts[1..], keep);
      forall t | t in rest
        ensures Leq(ts[0], t)
      {
        assert t in ts[1..];
      }
    }
  }

  // ---------- a group of ties ----------

  /** Somewhere in `ties`, only triggers that are left out stand between two `t`. */
  ghost predicate Merge(ties: seq<Trigger>, keep: Trigger -> bool, t: Trigger) {
    ties != [] &&
    var rest, kept := ties[1..], Only(ties[1..], keep);
    || Merge(rest, keep, t)
    || (ties[0] == t && rest != [] && rest[0] != t && kept != [] && kept[0] == t)
  }

  /** Leaving triggers out never adds a run of `t`, and removes one exactly where it merges. */
  lemma {:induction false} GroupsSieved(ties: seq<Trigger>, keep: Trigger -> bool, t: Trigger)
    requires keep(t)
    ensures Groups(Only(ties, keep), t) <= Groups(ties, t)
    ensures Groups(Only(ties, keep), t) == Groups(ties, t) <==> !Merge(ties, keep, t)
  {
    if ties != [] {
      var rest, kept := ties[1..], Only(ties[1..], keep);
      GroupsSieved(rest, keep, t);
      assert rest != [] && rest[0] == t ==> kept != [] && kept[0] == t;
      if keep(ties[0]) {
        assert Only(ties, keep) == [ties[0]] + kept;
        assert ([ties[0]] + kept)[1..] == kept;
      } else {
        assert Only(ties, keep) == kept;
      }
    }
  }

  /** What is wanted of a group of ties is the same whether or not other triggers are left out
      before deduplication, provided none of the wanted ones merge. */
  lemma {:induction false} WantedSieved(ties: seq<Trigger>, keep: Trigger -> bool, want: Trigger -> bool)
    requires forall t :: t in ties && want(t) ==> keep(t) && !Merge(ties, keep, t)
    ensures Only(Dedup(ties), want) == Only(Dedup(Only(ties, keep)), want)
  {
    if ties != [] {
      var rest := ties[1..];
      assert ties[0] in ties && ties == [ties[0]] + rest;
      forall t | t in rest && want(t)
        ensures keep(t) && !Merge(rest, keep, t)
      {
        assert t in ties;
      }
      WantedSieved(rest, keep, want);
      WantedStep(ties[0], rest, keep, want);
    }
  }

  lemma WantedStep(x: Trigger, rest: seq<Trigger>, keep: Trigger -> bool, want: Trigger -> bool)
    requires Only(Dedup(rest), want) == Only(Dedup(Only(rest, keep)), want)
    requires want(x) ==> keep(x)
    requires var kept := Only(rest, keep); want(x) && rest != [] && rest[0] != x && kept != [] ==> kept[0] != x
    ensures Only(Dedup([x] + rest), want) == Only(Dedup(Only([x] + rest, keep)), want)
  {
    var kept := Only(rest, keep);
    DedupFront(x, rest, want);
    assert ([x] + rest)[1..] == rest;
    if keep(x) {
      assert Only([x] + rest, keep) == [x] + kept;
      DedupFront(x, kept, want);
      assert rest != [] && rest[0] == x ==> kept != [] && kept[0] == x;
    } else {
      assert Only([x] + rest, keep) == kept;
    }
  }

  lemma DedupFront(x: Trigger, rest: seq<Trigger>, want: Trigger -> bool)
    ensures Only(Dedup([x] + rest), want) ==
            (if want(x) && (rest == [] || rest[0] != x) then [x] else []) + Only(Dedup(rest), want)
  {
    var ts := [x] + rest;
    assert ts[1..] == rest;
    if rest == [] {
      assert Dedup(ts) == [x] && [x][1..] == [];
    } else if rest[0] == x {
      DedupIn(rest);
      assert Dedup(ts) == Dedup(rest);
    } else {
      assert Dedup(ts) == [x] + Dedup(rest);
      assert ([x] + Dedup(rest))[1..] == Dedup(rest);
    }
  }

  // ---------- a block ----------

  /** Two `t` are listed, other triggers that tie with them stand between them, and all of those
      are left out. */
  ghost predicate Merges(ts: seq<Trigger>, keep: Trigger -> bool, t: Trigger) {
    exists i, j :: 0 <= i < j < |ts| && ts[i] == t && ts[j] == t && GapLeftOut(ts, keep, t, i, j)
  }

  ghost predicate GapLeftOut(ts: seq<Trigger>, keep: Trigger -> bool, t: Trigger, i: int, j: int)
    requires 0 <= i < j < |ts|
  {
    && (exists k :: i < k < j && Tied(ts[k], t))
    && (forall k :: i < k < j && Tied(ts[k], t) ==> !keep(ts[k]))
  }

  /** The first kept tie, if there is one, and whether it is the first tie at all. */
  lemma {:induction false} FirstKept(ts: seq<Trigger>, keep: Trigger -> bool, p: Trigger) returns (m: nat)
    requires Only(TiedWith(ts, p), keep) != []
    ensures m < |ts| && ts[m] == Only(TiedWith(ts, p), keep)[0] && Tied(ts[m], p) && keep(ts[m])
    ensures forall k :: 0 <= k < m && Tied(ts[k], p) ==> !keep(ts[k])
    ensures ts[m] != TiedWith(ts, p)[0] ==> exists k :: 0 <= k < m && Tied(ts[k], p)
  {
    var ties := TiedWith(ts[1..], p);
    if Tied(ts[0], p) {
      assert TiedWith(ts, p) == [ts[0]] + ties;
      assert ([ts[0]] + ties)[1..] == ties;
      if keep(ts[0]) {
        m := 0;
        return;
      }
      assert Only(TiedWith(ts, p), keep) == Only(ties, keep);
    } else {
      assert TiedWith(ts, p) == ties;
    }
    var n := FirstKept(ts[1..], keep, p);
    m := n + 1;
    if ts[m] != TiedWith(ts, p)[0] {
      if Tied(ts[0], p) {
        assert Tied(ts[0], p);
      } else {
        var k :| 0 <= k < n && Tied(ts[1..][k], p);
        assert Tied(ts[k + 1], p);
      }
    }
  }

  // The first trigger of the list is the earlier of the two.
  ghost predicate HeadGap(ts: seq<Trigger>, keep: Trigger -> bool, t: Trigger) {
    exists j :: 0 < j < |ts| && ts[0] == t && ts[j] == t && GapLeftOut(ts, keep, t, 0, j)
  }

  lemma MergesTail(ts: seq<Trigger>, keep: Trigger -> bool, t: Trigger)
    requires ts != []
    ensures Merges(ts, keep, t) <==> Merges(ts[1..], keep, t) || HeadGap(ts, keep, t)
  {
    if i, j :| 0 <= i < j < |ts| && ts[i] == t && ts[j] == t && GapLeftOut(ts, keep, t, i, j) && i > 0 {
      GapInTail(ts, keep, t, i, j);
    }
    if Merges(ts[1..], keep, t) {
      TailMerges(ts, keep, t);
    }
  }

  lemma GapInTail(ts: seq<Trigger>, keep: Trigger -> bool, t: Trigger, i: int, j: int)
    requires 0 < i < j < |ts| && ts[i] == t && ts[j] == t && GapLeftOut(ts, keep, t, i, j)
    ensures Merges(ts[1..], keep, t)
  {
    assert ts[1..][i - 1] == t && ts[1..][j - 1] == t;
    GapShifts(ts, keep, t, i - 1, j - 1);
  }

  lemma TailMerges(ts: seq<Trigger>, keep: Trigger -> bool, t: Trigger)
    requires ts != [] && Merges(ts[1..], keep, t)
    ensures Merges(ts, keep, t)
  {
    var rest := ts[1..];
    var i, j :| 0 <= i < j < |rest| && rest[i] == t && rest[j] == t && GapLeftOut(rest, keep, t, i, j);
    GapShifts(ts, keep, t, i, j);
    assert ts[i + 1] == t && ts[j + 1] == t;
  }

  lemma GapShifts(ts: seq<Trigger>, keep: Trigger -> bool, t: Trigger, i: int, j: int)
    requires ts != [] && 0 <= i < j < |ts| - 1
    ensures GapLeftOut(ts[1..], keep, t, i, j) <==> GapLeftOut(ts, keep, t, i + 1, j + 1)
  {
    var rest := ts[1..];
    assert forall k :: i < k < j ==> rest[k] == ts[k + 1];
    if k :| i < k < j && Tied(rest[k], t) {
      assert Tied(ts[k + 1], t);
    }
    if k :| i + 1 < k < j + 1 && Tied(ts[k], t) {
      assert Tied(rest[k - 1], t);
    }
    if GapLeftOut(rest, keep, t, i, j) {
      forall k | i + 1 < k < j + 1 && Tied(ts[k], t)
        ensures !keep(ts[k])
      {
        assert rest[k - 1] == ts[k];
      }
    }
    if GapLeftOut(ts, keep, t, i + 1, j + 1) {
      forall k | i < k < j && Tied(rest[k], t)
        ensures !keep(rest[k])
      {
        assert rest[k] == ts[k + 1];
      }
    }
  }

  lemma HeadGapIff(ts: seq<Trigger>, keep: Trigger -> bool, t: Trigger)
    requires ts != [] && ts[0] == t && keep(t)
    ensures var ties := TiedWith(ts[1..], t);
            HeadGap(ts, keep, t) <==> ties != [] && ties[0] != t && Only(ties, keep) != [] && Only(ties, keep)[0] == t
  {
    var rest, ties := ts[1..], TiedWith(ts[1..], t);
    if Only(ties, keep) != [] {
      var m := FirstKept(rest, keep, t);
      if ties[0] != t && rest[m] == t {
        GapBefore(ts, keep, t, m);
      }
      if HeadGap(ts, keep, t) {
        var j :| 0 < j < |ts| && ts[0] == t && ts[j] == t && GapLeftOut(ts, keep, t, 0, j);
        assert rest[j - 1] == t;
        GapEnds(ts, keep, t, j, m);
      }
    } else if HeadGap(ts, keep, t) {
      HeadGapKept(ts, keep, t);
    }
  }

  lemma HeadGapKept(ts: seq<Trigger>, keep: Trigger -> bool, t: Trigger)
    requires ts != [] && keep(t) && HeadGap(ts, keep, t)
    ensures t in Only(TiedWith(ts[1..], t), keep)
  {
    var j :| 0 < j < |ts| && ts[j] == t;
    assert ts[1..][j - 1] == t && Tied(t, t);
    TiedIn(ts[1..], t);
    OnlyIn(TiedWith(ts[1..], t), keep);
  }

  lemma GapBefore(ts: seq<Trigger>, keep: Trigger -> bool, t: Trigger, m: nat)
    requires m + 1 < |ts| && ts[0] == t && ts[m + 1] == t
    requires forall k :: 0 <= k < m && Tied(ts[1..][k], t) ==> !keep(ts[1..][k])
    requires exists k :: 0 <= k < m && Tied(ts[1..][k], t)
    ensures HeadGap(ts, keep, t)
  {
    var k :| 0 <= k < m && Tied(ts[1..][k], t);
    assert Tied(ts[k + 1], t);
    forall k | 0 < k < m + 1 && Tied(ts[k], t)
      ensures !keep(ts[k])
    {
      assert ts[1..][k - 1] == ts[k];
    }
    assert GapLeftOut(ts, keep, t, 0, m + 1);
  }

  lemma GapEnds(ts: seq<Trigger>, keep: Trigger -> bool, t: Trigger, j: nat, m: nat)
    requires keep(t) && 0 < j < |ts| && ts[j] == t && GapLeftOut(ts, keep, t, 0, j) && m + 1 < |ts|
    requires Tied(ts[m + 1], t) && keep(ts[m + 1]) && forall k :: 0 <= k < m && Tied(ts[1..][k], t) ==> !keep(ts[1..][k])
    ensures m == j - 1 && TiedWith(ts[1..], t) != [] && TiedWith(ts[1..], t)[0] != t
  {
    var rest := ts[1..];
    assert rest[j - 1] == t && Tied(t, t);
    assert m + 1 >= j;
    assert Tied(rest[j - 1], t) && j - 1 >= m;
    TiedIn(rest, t);
    assert t in TiedWith(rest, t);
    var first := FirstTie(rest, t);
    var k :| 0 < k < j && Tied(ts[k], t);
    assert Tied(rest[k - 1], t);
    assert first + 1 < j && Tied(ts[first + 1], t);
  }

  /** The two readings of merging agree. */
  lemma {:induction false} MergesIffMerge(ts: seq<Trigger>, keep: Trigger -> bool, t: Trigger)
    requires keep(t)
    ensures Merges(ts, keep, t) <==> Merge(TiedWith(ts, t), keep, t)
  {
    if ts != [] {
      MergesIffMerge(ts[1..], keep, t);
      MergesTail(ts, keep, t);
      var ties := TiedWith(ts[1..], t);
      if Tied(ts[0], t) {
        assert TiedWith(ts, t) == [ts[0]] + ties;
        assert ([ts[0]] + ties)[1..] == ties;
      } else {
        assert Tied(t, t) && TiedWith(ts, t) == ties;
      }
      if ts[0] == t {
        HeadGapIff(ts, keep, t);
      }
    }
  }

  // ---------- both ways through sorting and deduplication ----------

  /** A trigger is kept as often after leaving others out as before if and only if it is not
      left out itself and nothing that is left out separates two of it. */
  lemma MultiplicityIff(r: seq<Trigger>, s: seq<Trigger>, ts: seq<Trigger>, keep: Trigger -> bool, logs: iset<Log>, t: Trigger)
    requires SortedDistinct(r, ts, logs) && SortedDistinct(s, Only(ts, keep), logs) && Among(logs, t)
    ensures multiset(s)[t] <= multiset(r)[t]
    ensures multiset(s)[t] == multiset(r)[t] <==> (t in ts ==> keep(t) && !Merges(ts, keep, t))
  {
    KeptOncePerRun(r, ts, logs, t);
    KeptOncePerRun(s, Only(ts, keep), logs, t);
    OnlyIn(ts, keep);
    OnlyTied(ts, keep, t);
    if keep(t) {
      GroupsSieved(TiedWith(ts, t), keep, t);
      MergesIffMerge(ts, keep, t);
      if t !in ts {
        assert multiset(r)[t] == 0;
      }
    } else {
      assert t !in s && (t in ts <==> multiset(r)[t] > 0);
    }
  }

  /** The wanted triggers come out in the same sequence whether or not others are left out
      beforehand, if and only if nothing that is left out separates two equal wanted ones. */
  lemma WantedSameIff(r: seq<Trigger>, s: seq<Trigger>, ts: seq<Trigger>, keep: Trigger -> bool, want: Trigger -> bool, logs: iset<Log>)
    requires SortedDistinct(r, ts, logs) && SortedDistinct(s, Only(ts, keep), logs)
    requires AllAmong(logs, ts) && forall t :: t in ts && want(t) ==> keep(t)
    ensures Only(r, want) == Only(s, want) <==> forall t :: t in ts && want(t) ==> !Merges(ts, keep, t)
  {
    if forall t :: t in ts && want(t) ==> !Merges(ts, keep, t) {
      WantedSame(r, s, ts, keep, want, logs);
    } else {
      var t :| t in ts && want(t) && Merges(ts, keep, t);
      MultiplicityIff(r, s, ts, keep, logs, t);
      OnlyCount(r, want, t);
      OnlyCount(s, want, t);
    }
  }

  lemma WantedSame(r: seq<Trigger>, s: seq<Trigger>, ts: seq<Trigger>, keep: Trigger -> bool, want: Trigger -> bool, logs: iset<Log>)
    requires SortedDistinct(r, ts, logs) && SortedDistinct(s, Only(ts, keep), logs)
    requires forall t :: t in ts && want(t) ==> keep(t) && !Merges(ts, keep, t)
    ensures Only(r, want) == Only(s, want)
  {
    OnlySorted(r, want);
    OnlySorted(s, want);
    forall p | p in Only(r, want) || p in Only(s, want)
      ensures TiedWith(Only(r, want), p) == TiedWith(Only(s, want), p)
    {
      OnlyIn(r, want);
      OnlyIn(s, want);
      assert Among(logs, p);
      WantedTies(r, s, ts, keep, want, logs, p);
    }
    SortDetermined(Only(r, want), Only(s, want));
  }

  lemma WantedTies(r: seq<Trigger>, s: seq<Trigger>, ts: seq<Trigger>, keep: Trigger -> bool, want: Trigger -> bool, logs: iset<Log>, p: Trigger)
    requires SortedDistinct(r, ts, logs) && SortedDistinct(s, Only(ts, keep), logs) && Among(logs, p)
    requires forall t :: t in ts && want(t) ==> keep(t) && !Merges(ts, keep, t)
    ensures TiedWith(Only(r, want), p) == TiedWith(Only(s, want), p)
  {
    OnlyTied(r, want, p);
    OnlyTied(s, want, p);
    OnlyTied(ts, keep, p);
    var ties := TiedWith(ts, p);
    TiedIn(ts, p);
    forall t | t in ties && want(t)
      ensures keep(t) && !Merge(ties, keep, t)
    {
      TiedSame(ts, p, t);
      MergesIffMerge(ts, keep, t);
    }
    WantedSieved(ties, keep, want);
  }

  /** Triggers that tie have the same ties. */
  lemma {:induction false} TiedSame(ts: seq<Trigger>, p: Trigger, q: Trigger)
    requires Tied(q, p)
    ensures TiedWith(ts, p) == TiedWith(ts, q)
  {
    if ts != [] {
      TiedSame(ts[1..], p, q);
      TiesShared(ts[0], p, q);
    }
  }

  lemma TiesShared(a: Trigger, p: Trigger, q: Trigger)
    requires Tied(q, p)
    ensures Tied(a, p) <==> Tied(a, q)
  {
  }

  /** Of the triggers that tie either all are kept or none. */
  ghost predicate Uniform(ts: seq<Trigger>, keep: Trigger -> bool) {
    forall t, u :: t in ts && u in ts && Tied(t, u) ==> keep(t) == keep(u)
  }

  /** Leaving out whole groups of ties may as well be done afterwards. */
  lemma SieveLater(r: seq<Trigger>, ts: seq<Trigger>, keep: Trigger -> bool, logs: iset<Log>)
    requires SortedDistinct(r, ts, logs) && Uniform(ts, keep)
    ensures SortedDistinct(Only(r, keep), Only(ts, keep), logs)
  {
    OnlySorted(r, keep);
    OnlyAmong(r, keep, logs);
    forall p | Among(logs, p)
      ensures TiedWith(Only(r, keep), p) == Dedup(TiedWith(Only(ts, keep), p))
    {
      GroupLater(r, ts, keep, p);
    }
  }

  lemma OnlyAmong(r: seq<Trigger>, keep: Trigger -> bool, logs: iset<Log>)
    requires AllAmong(logs, r)
    ensures AllAmong(logs, Only(r, keep))
  {
    OnlyIn(r, keep);
    forall i | 0 <= i < |Only(r, keep)|
      ensures Among(logs, Only(r, keep)[i])
    {
      assert Only(r, keep)[i] in r;
    }
  }

  lemma GroupLater(r: seq<Trigger>, ts: seq<Trigger>, keep: Trigger -> bool, p: Trigger)
    requires TiedWith(r, p) == Dedup(TiedWith(ts, p)) && Uniform(ts, keep)
    ensures TiedWith(Only(r, keep), p) == Dedup(TiedWith(Only(ts, keep), p))
  {
    OnlyTied(r, keep, p);
    OnlyTied(ts, keep, p);
    UniformTies(ts, keep, p);
    GroupKept(TiedWith(ts, p), keep);
  }

  lemma UniformTies(ts: seq<Trigger>, keep: Trigger -> bool, p: Trigger)
    requires Uniform(ts, keep)
    ensures forall t, u :: t in TiedWith(ts, p) && u in TiedWith(ts, p) ==> keep(t) == keep(u)
  {
    TiedIn(ts, p);
    forall t, u | t in TiedWith(ts, p) && u in TiedWith(ts, p)
      ensures keep(t) == keep(u)
    {
      TiesTie(t, u, p);
    }
  }

  lemma TiesTie(t: Trigger, u: Trigger, p: Trigger)
    requires Tied(t, p) && Tied(u, p)
    ensures Tied(t, u)
  {
    TiesMeet(t, u, p);
    TiesMeet(u, t, p);
  }

  lemma GroupKept(ties: seq<Trigger>, keep: Trigger -> bool)
    requires forall t, u :: t in ties && u in ties ==> keep(t) == keep(u)
    ensures Only(Dedup(ties), keep) == Dedup(Only(ties, keep))
  {
    DedupIn(ties);
    OnlySame(ties, keep);
    OnlySame(Dedup(ties), keep);
    if ties != [] {
      assert ties[0] in ties;
      if !keep(ties[0]) {
        OnlyNone(ties, keep);
        OnlyNone(Dedup(ties), keep);
      }
    }
  }

  lemma {:induction false} OnlyNone(ts: seq<Trigger>, keep: Trigger -> bool)
    requires forall t :: t in ts ==> !keep(t)
    ensures Only(ts, keep) == []
  {
    if ts != [] {
      assert ts[0] in ts;
      OnlyNone(ts[1..], keep);
    }
  }

  // ---------- parts in either order ----------

  lemma {:induction false} DedupConcat(xs: seq<Trigger>, ys: seq<Trigger>)
    requires xs == [] || ys == [] || xs[|xs| - 1] != ys[0]
    ensures Dedup(xs + ys) == Dedup(xs) + Dedup(ys)
  {
    if xs == [] {
      assert xs + ys == ys;
    } else {
      var x, rest := xs[0], xs[1..];
      assert xs == [x] + rest && xs + ys == [x] + (rest + ys);
      DedupConcat(rest, ys);
      DedupCons(x, rest);
      DedupCons(x, rest + ys);
      var first := if rest == [] || rest[0] != x then [x] else [];
      assert Dedup(xs + ys) == first + (Dedup(rest) + Dedup(ys));
    }
  }

  lemma DedupParts(xs: seq<Trigger>, ys: seq<Trigger>)
    requires forall t :: t in xs ==> t !in ys
    ensures Dedup(xs + ys) == Dedup(xs) + Dedup(ys)
  {
    assert xs == [] || xs[|xs| - 1] in xs;
    assert ys == [] || ys[0] in ys;
    DedupConcat(xs, ys);
  }

  lemma DedupCons(x: Trigger, rest: seq<Trigger>)
    ensures Dedup([x] + rest) == (if rest == [] || rest[0] != x then [x] else []) + Dedup(rest)
  {
    assert ([x] + rest)[1..] == rest;
  }

  /** Of two parts, one all kept and one all left out, the kept one remains deduplicated. */
  lemma PartsSieved(xs: seq<Trigger>, ys: seq<Trigger>, keep: Trigger -> bool)
    requires (forall t :: t in xs ==> keep(t)) && (forall t :: t in ys ==> !keep(t))
    ensures Only(Dedup(xs + ys), keep) == Dedup(xs) == Only(Dedup(ys + xs), keep)
  {
    DedupParts(xs, ys);
    DedupParts(ys, xs);
    DedupIn(xs);
    DedupIn(ys);
    OnlyConcat(Dedup(xs), Dedup(ys), keep);
    OnlyConcat(Dedup(ys), Dedup(xs), keep);
    OnlySame(Dedup(xs), keep);
    OnlyNone(Dedup(ys), keep);
  }

  function Not(keep: Trigger -> bool): Trigger -> bool {
    t => !keep(t)
  }

  /** Two parts that arrive in either order behind the same triggers: those of the one part, and
      everything else, come out in the same sequence. */
  lemma ArrivalMoves(r: seq<Trigger>, s: seq<Trigger>, front: seq<Trigger>, xs: seq<Trigger>, ys: seq<Trigger>,
                     keep: Trigger -> bool, logs: iset<Log>)
    requires SortedDistinct(r, front + (xs + ys), logs) && SortedDistinct(s, front + (ys + xs), logs)
    requires (forall t :: t in xs ==> keep(t)) && (forall t :: t in ys ==> !keep(t))
    requires forall t, u :: t in front && (u in xs || u in ys) ==> !Tied(t, u)
    ensures Only(r, keep) == Only(s, keep) && Only(r, Not(keep)) == Only(s, Not(keep))
  {
    SieveSame(r, s, front, xs, ys, keep, logs, keep);
    SieveSame(r, s, front, xs, ys, keep, logs, Not(keep));
  }

  lemma SieveSame(r: seq<Trigger>, s: seq<Trigger>, front: seq<Trigger>, xs: seq<Trigger>, ys: seq<Trigger>,
                  keep: Trigger -> bool, logs: iset<Log>, want: Trigger -> bool)
    requires SortedDistinct(r, front + (xs + ys), logs) && SortedDistinct(s, front + (ys + xs), logs)
    requires (forall t :: t in xs ==> keep(t)) && (forall t :: t in ys ==> !keep(t))
    requires forall t, u :: t in front && (u in xs || u in ys) ==> !Tied(t, u)
    requires want == keep || want == Not(keep)
    ensures Only(r, want) == Only(s, want)
  {
    OnlySorted(r, want);
    OnlySorted(s, want);
    OnlyIn(r, want);
    OnlyIn(s, want);
    forall p | p in Only(r, want) || p in Only(s, want)
      ensures TiedWith(Only(r, want), p) == TiedWith(Only(s, want), p)
    {
      assert Among(logs, p);
      OnlyTied(r, want, p);
      OnlyTied(s, want, p);
      TiesMove(front, xs, ys, keep, want, p);
    }
    SortDetermined(Only(r, want), Only(s, want));
  }

  lemma TiesMove(front: seq<Trigger>, xs: seq<Trigger>, ys: seq<Trigger>, keep: Trigger -> bool, want: Trigger -> bool, p: Trigger)
    requires (forall t :: t in xs ==> keep(t)) && (forall t :: t in ys ==> !keep(t))
    requires forall t, u :: t in front && (u in xs || u in ys) ==> !Tied(t, u)
    requires want == keep || want == Not(keep)
    ensures Only(Dedup(TiedWith(front + (xs + ys), p)), want) == Only(Dedup(TiedWith(front + (ys + xs), p)), want)
  {
    var a, x, y := TiedWith(front, p), TiedWith(xs, p), TiedWith(ys, p);
    TiedThree(front, xs, ys, p);
    TiedThree(front, ys, xs, p);
    TiedIn(xs, p);
    TiedIn(ys, p);
    OneSided(front, xs, p);
    OneSided(front, ys, p);
    if a == [] {
      assert a + (x + y) == x + y && a + (y + x) == y + x;
      PartsSieved(x, y, keep);
      PartsSieved(y, x, Not(keep));
    } else {
      assert a + (x + y) == a + (y + x);
    }
  }

  lemma TiedThree(front: seq<Trigger>, xs: seq<Trigger>, ys: seq<Trigger>, p: Trigger)
    ensures TiedWith(front + (xs + ys), p) == TiedWith(front, p) + (TiedWith(xs, p) + TiedWith(ys, p))
  {
    TiedConcat(front, xs + ys, p);
    TiedConcat(xs, ys, p);
  }

  /** The wanted triggers come out in the same sequence in either order of arrival if and only if no
      wanted trigger of the one part ties with a wanted one of the other. */
  lemma ArrivalWantedIff(r: seq<Trigger>, s: seq<Trigger>, front: seq<Trigger>, xs: seq<Trigger>, ys: seq<Trigger>,
                         want: Trigger -> bool, logs: iset<Log>)
    requires SortedDistinct(r, front + (xs + ys), logs) && SortedDistinct(s, front + (ys + xs), logs)
    requires forall t, u :: t in front && (u in xs || u in ys) ==> !Tied(t, u)
    requires AllAmong(logs, ys) && forall t :: t in xs ==> t !in ys
    ensures Only(r, want) == Only(s, want) <==> forall x, y :: x in xs && y in ys && want(x) && want(y) ==> !Tied(x, y)
  {
    if x, y :| x in xs && y in ys && want(x) && want(y) && Tied(x, y) {
      assert Among(logs, y);
      OnlyTied(r, want, y);
      OnlyTied(s, want, y);
      FirstArrived(front, xs, ys, want, y, x);
      FirstArrived(front, ys, xs, want, y, y);
    } else {
      ArrivalUnseen(r, s, front, xs, ys, want, logs);
    }
  }

  lemma ArrivalUnseen(r: seq<Trigger>, s: seq<Trigger>, front: seq<Trigger>, xs: seq<Trigger>, ys: seq<Trigger>,
                      want: Trigger -> bool, logs: iset<Log>)
    requires SortedDistinct(r, front + (xs + ys), logs) && SortedDistinct(s, front + (ys + xs), logs)
    requires forall t, u :: t in front && (u in xs || u in ys) ==> !Tied(t, u)
    requires forall t :: t in xs ==> t !in ys
    requires forall x, y :: x in xs && y in ys && want(x) && want(y) ==> !Tied(x, y)
    ensures Only(r, want) == Only(s, want)
  {
    OnlySorted(r, want);
    OnlySorted(s, want);
    OnlyIn(r, want);
    OnlyIn(s, want);
    forall p | p in Only(r, want) || p in Only(s, want)
      ensures TiedWith(Only(r, want), p) == TiedWith(Only(s, want), p)
    {
      assert Among(logs, p);
      OnlyTied(r, want, p);
      OnlyTied(s, want, p);
      WantedTiesMove(front, xs, ys, want, p);
    }
    SortDetermined(Only(r, want), Only(s, want));
  }

  lemma WantedTiesMove(front: seq<Trigger>, xs: seq<Trigger>, ys: seq<Trigger>, want: Trigger -> bool, p: Trigger)
    requires forall t, u :: t in front && (u in xs || u in ys) ==> !Tied(t, u)
    requires forall t :: t in xs ==> t !in ys
    requires forall x, y :: x in xs && y in ys && want(x) && want(y) ==> !Tied(x, y)
    ensures Only(Dedup(TiedWith(front + (xs + ys), p)), want) == Only(Dedup(TiedWith(front + (ys + xs), p)), want)
  {
    var a, x, y := TiedWith(front, p), TiedWith(xs, p), TiedWith(ys, p);
    TiedThree(front, xs, ys, p);
    TiedThree(front, ys, xs, p);
    OneSided(front, xs, p);
    OneSided(front, ys, p);
    TiedIn(xs, p);
    TiedIn(ys, p);
    if a == [] {
      assert a + (x + y) == x + y && a + (y + x) == y + x;
      PartsWanted(x, y, want);
      PartsWanted(y, x, want);
      OneUnwanted(xs, ys, want, p);
    } else {
      assert a + (x + y) == a + (y + x);
    }
  }

  lemma PartsWanted(xs: seq<Trigger>, ys: seq<Trigger>, want: Trigger -> bool)
    requires forall t :: t in xs ==> t !in ys
    ensures Only(Dedup(xs + ys), want) == Only(Dedup(xs), want) + Only(Dedup(ys), want)
  {
    DedupParts(xs, ys);
    OnlyConcat(Dedup(xs), Dedup(ys), want);
  }

  lemma OneUnwanted(xs: seq<Trigger>, ys: seq<Trigger>, want: Trigger -> bool, p: Trigger)
    requires forall x, y :: x in xs && y in ys && want(x) && want(y) ==> !Tied(x, y)
    ensures Only(Dedup(TiedWith(xs, p)), want) == [] || Only(Dedup(TiedWith(ys, p)), want) == []
  {
    TiedIn(xs, p);
    if x :| x in TiedWith(xs, p) && want(x) {
      NoneWanted(ys, want, p, x);
    } else {
      DedupIn(TiedWith(xs, p));
      OnlyNone(Dedup(TiedWith(xs, p)), want);
    }
  }

  lemma NoneWanted(ys: seq<Trigger>, want: Trigger -> bool, p: Trigger, x: Trigger)
    requires Tied(x, p) && forall y :: y in ys && want(y) ==> !Tied(x, y)
    ensures Only(Dedup(TiedWith(ys, p)), want) == []
  {
    TiedIn(ys, p);
    DedupIn(TiedWith(ys, p));
    forall y | y in Dedup(TiedWith(ys, p))
      ensures !want(y)
    {
      TiesMeet(x, y, p);
      TiesMeet(y, x, p);
    }
    OnlyNone(Dedup(TiedWith(ys, p)), want);
  }

  /** The first wanted tie comes from the part that arrives first, if that has one. */
  lemma FirstArrived(front: seq<Trigger>, xs: seq<Trigger>, ys: seq<Trigger>, want: Trigger -> bool, p: Trigger, x: Trigger)
    requires forall t, u :: t in front && (u in xs || u in ys) ==> !Tied(t, u)
    requires (forall t :: t in xs ==> t !in ys) && x in xs && want(x) && Tied(x, p)
    ensures var d := Only(Dedup(TiedWith(front + (xs + ys), p)), want); d != [] && d[0] in xs
  {
    TiedThree(front, xs, ys, p);
    OneSided(front, xs, p);
    TiedIn(xs, p);
    TiedIn(ys, p);
    assert x in TiedWith(xs, p);
    var a, b := TiedWith(xs, p), TiedWith(ys, p);
    assert [] + (a + b) == a + b;
    PartsWanted(a, b, want);
    DedupIn(a);
    OnlyIn(Dedup(a), want);
    assert x in Only(Dedup(a), want);
    assert Only(Dedup(a), want)[0] in Only(Dedup(a), want);
  }
}
