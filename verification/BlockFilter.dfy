/** The merged block filter of `EthereumBlockFilter`. */
module BlockFilters {
  import opened Types

  // (start block, contract)
  type Watched = set<(int, Address)>

  // `polling` holds (start block, interval) with interval 0 for a `once` handler.
  datatype BlockFilter = BlockFilter(polling: set<(int, int)>, contracts: Watched, everyBlock: bool)
  {
    predicate IsEmpty() {
      !everyBlock && contracts == {} && polling == {}
    }
  }

  /** One entry per contract, the one with the least start block. */
  ghost function Least(w: Watched): Watched {
    set p | p in w && forall q :: q in w && q.1 == p.1 ==> p.0 <= q.0
  }

  ghost predicate OnePerContract(w: Watched) {
    forall p, q :: p in w && q in w && p.1 == q.1 ==> p == q
  }

  ghost function Merge(f: BlockFilter, g: BlockFilter): BlockFilter {
    BlockFilter(f.polling + g.polling, Least(f.contracts + g.contracts), f.everyBlock || g.everyBlock)
  }

  /** Every contract of `w` keeps its least start block. */
  lemma {:induction false} LeastExists(w: Watched, p: (int, Address))
    requires p in w
    ensures exists q :: q in Least(w) && q.1 == p.1 && q.0 <= p.0
    decreases |w|
  {
    if p in Least(w) {
    } else {
      var q :| q in w && q.1 == p.1 && q.0 < p.0;
      LeastExists(w - {p}, q);
      var r :| r in Least(w - {p}) && r.1 == p.1 && r.0 <= q.0;
      assert r in Least(w);
    }
  }

  lemma LeastOne(x: Watched)
    ensures OnePerContract(Least(x))
    ensures OnePerContract(x) ==> Least(x) == x
  {
  }

  lemma LeastOfLeast(x: Watched, y: Watched)
    ensures Least(Least(x) + Least(y)) == Least(x + y)
  {
    LeastLeft(x, Least(y));
    LeastLeft(y, x);
    assert x + Least(y) == Least(y) + x && x + y == y + x;
  }

  lemma LeastLeft(x: Watched, y: Watched)
    ensures Least(Least(x) + y) == Least(x + y)
  {
    forall p | p in Least(Least(x) + y)
      ensures p in Least(x + y)
    {
      forall q | q in x + y && q.1 == p.1
        ensures p.0 <= q.0
      {
        if q in x {
          LeastExists(x, q);
          var r :| r in Least(x) && r.1 == q.1 && r.0 <= q.0;
          assert r in Least(x) + y;
        }
      }
    }
    forall p | p in Least(x + y)
      ensures p in Least(Least(x) + y)
    {
      if p in x {
        assert p in Least(x);
      }
    }
  }

  // ---------- building ----------

  function PollingOf(d: DataSource): set<(int, int)> {
    (set h | h in d.blocks && h.filter.Some? && h.filter.value.Polling? :: (d.start, h.filter.value.every as int)) +
    (set h | h in d.blocks && h.filter.Some? && h.filter.value.Once? :: (d.start, 0 as int))
  }

  predicate HasFilter(d: DataSource, f: Option<BlockHandlerFilter>) {
    exists h :: h in d.blocks && h.filter == f
  }

  function Single(d: DataSource): BlockFilter
    requires d.address.Some?
  {
    BlockFilter(PollingOf(d), if HasFilter(d, Some(WithCall)) then {(d.start, d.address.value)} else {}, HasFilter(d, None))
  }

  /** What a list of data sources stands for, entry by entry. */
  ghost predicate BuiltFrom(f: BlockFilter, dss: seq<DataSource>) {
    && (forall p :: p in f.polling <==> exists d :: d in dss && d.address.Some? && p in PollingOf(d))
    && f.contracts == Least(CallWatches(dss))
    && (f.everyBlock <==> exists d :: d in dss && d.address.Some? && HasFilter(d, None))
  }

  ghost function CallWatches(dss: seq<DataSource>): Watched {
    set d | d in dss && d.address.Some? && HasFilter(d, Some(WithCall)) :: (d.start, d.address.value)
  }

  /** The list has a data source at address `a` with start block `start` and a handler with the filter. */
  ghost predicate Declared(dss: seq<DataSource>, a: Address, start: int, filter: Option<BlockHandlerFilter>) {
    exists d, h :: d in dss && d.address == Some(a) && d.start == start && h in d.blocks && h.filter == filter
  }

  /** A built filter has a polling entry exactly for each polling and once handler, watches exactly the
      contracts of call-filtered handlers from their least start block on, and asks for every block
      exactly if some handler has no filter. */
  lemma BuiltExact(f: BlockFilter, dss: seq<DataSource>)
    requires BuiltFrom(f, dss)
    ensures forall n, e :: (n, e) in f.polling <==>
              exists a, filter :: Declared(dss, a, n, Some(filter)) &&
                                  ((filter.Once? && e == 0) || (filter.Polling? && e == filter.every as int))
    ensures forall n, a :: (n, a) in f.contracts <==>
              Declared(dss, a, n, Some(WithCall)) && forall m :: Declared(dss, a, m, Some(WithCall)) ==> n <= m
    ensures f.everyBlock <==> exists a, n :: Declared(dss, a, n, None)
  {
    forall n, e
      ensures (n, e) in f.polling <==>
              exists a, filter :: Declared(dss, a, n, Some(filter)) &&
                                  ((filter.Once? && e == 0) || (filter.Polling? && e == filter.every as int))
    {
      PollingExact(f, dss, n, e);
    }
    forall n, a
      ensures (n, a) in CallWatches(dss) <==> Declared(dss, a, n, Some(WithCall))
    {
    }
    forall d | d in dss && d.address.Some? && HasFilter(d, None)
      ensures Declared(dss, d.address.value, d.start, None)
    {
    }
  }

  lemma PollingExact(f: BlockFilter, dss: seq<DataSource>, n: int, e: int)
    requires BuiltFrom(f, dss)
    ensures (n, e) in f.polling <==>
            exists a, filter :: Declared(dss, a, n, Some(filter)) &&
                                ((filter.Once? && e == 0) || (filter.Polling? && e == filter.every as int))
  {
    if (n, e) in f.polling {
      var d :| d in dss && d.address.Some? && (n, e) in PollingOf(d);
      var h :| h in d.blocks && h.filter.Some? && d.start == n &&
               ((h.filter.value.Once? && e == 0) || (h.filter.value.Polling? && e == h.filter.value.every as int));
      assert Declared(dss, d.address.value, n, Some(h.filter.value));
    }
    if a, filter :| Declared(dss, a, n, Some(filter)) &&
                    ((filter.Once? && e == 0) || (filter.Polling? && e == filter.every as int)) {
      var d, h :| d in dss && d.address == Some(a) && d.start == n && h in d.blocks && h.filter == Some(filter);
      assert (n, e) in PollingOf(d);
    }
  }

  lemma BuiltSnoc(f: BlockFilter, dss: seq<DataSource>, d: DataSource)
    requires BuiltFrom(f, dss)
    ensures d.address.None? ==> BuiltFrom(f, dss + [d])
    ensures d.address.Some? ==> BuiltFrom(Merge(f, Single(d)), dss + [d])
  {
    var all := dss + [d];
    assert forall e :: e in all <==> e in dss || e == d;
    if d.address.None? {
      assert CallWatches(all) == CallWatches(dss);
    } else {
      assert CallWatches(all) == CallWatches(dss) + Single(d).contracts;
      LeastLeft(CallWatches(dss), Single(d).contracts);
    }
  }

  /** Building from a concatenated list is building from each part and extending; one entry
      per contract is kept, with the least start block. */
  lemma BuildConcat(a: seq<DataSource>, b: seq<DataSource>, fa: BlockFilter, fb: BlockFilter, f: BlockFilter)
    requires BuiltFrom(fa, a) && BuiltFrom(fb, b) && BuiltFrom(f, a + b)
    ensures f == Merge(fa, fb) == Merge(fb, fa)
    ensures OnePerContract(f.contracts)
  {
    var all := a + b;
    assert forall d :: d in all <==> d in a || d in b;
    assert f.polling == fa.polling + fb.polling;
    WatchesConcat(a, b);
    LeastOfLeast(CallWatches(a), CallWatches(b));
    LeastOne(CallWatches(all));
    assert fa.contracts + fb.contracts == fb.contracts + fa.contracts;
  }

  lemma WatchesConcat(a: seq<DataSource>, b: seq<DataSource>)
    ensures CallWatches(a + b) == CallWatches(a) + CallWatches(b)
  {
    assert forall d :: d in a + b <==> d in a || d in b;
  }

  /** The loop of `extend` over the contracts of the other filter, which come in any order. */
  method ExtendWatched(mine: Watched, other: Watched) returns (r: Watched)
    requires OnePerContract(mine)
    ensures r == Least(mine + other) && OnePerContract(r)
  {
    LeastOne(mine);
    r := mine;
    var todo, seen := other, mine;
    while todo != {}
      invariant todo <= other && seen + todo == mine + other
      invariant r == Least(seen) && OnePerContract(r)
      decreases todo
    {
      var p :| p in todo;
      if q :| q in r && q.1 == p.1 {
        if p.0 < q.0 {
          r := r - {q} + {p};
          LeastEarlier(seen, q, p);
        } else {
          LeastLater(seen, q, p);
        }
      } else {
        LeastNew(seen, p);
        r := r + {p};
      }
      todo, seen := todo - {p}, seen + {p};
      LeastOne(seen);
    }
    assert seen == mine + other;
  }

  lemma LeastEarlier(w: Watched, q: (int, Address), p: (int, Address))
    requires q in Least(w) && q.1 == p.1 && p.0 < q.0
    ensures Least(w + {p}) == Least(w) - {q} + {p}
  {
    forall r | r in Least(w) - {q}
      ensures r.1 != q.1
    {
      assert q in w && r in w;
    }
  }

  lemma LeastLater(w: Watched, q: (int, Address), p: (int, Address))
    requires q in Least(w) && q.1 == p.1 && q.0 <= p.0
    ensures Least(w + {p}) == Least(w)
  {
    if p in Least(w + {p}) {
      assert q in w + {p};
      assert p == q;
    }
  }

  lemma LeastNew(w: Watched, p: (int, Address))
    requires forall q :: q in Least(w) ==> q.1 != p.1
    ensures Least(w + {p}) == Least(w) + {p}
  {
    forall q | q in w
      ensures q.1 != p.1
    {
      LeastExists(w, q);
    }
  }
}
