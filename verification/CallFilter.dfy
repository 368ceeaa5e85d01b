/** The merged call filter of `EthereumCallFilter`. */
module CallFilters {
  import opened Types

  // Per contract the least start block and the wanted selectors.
  type Contracts = map<Address, (int, set<Selector>)>

  datatype CallFilter = CallFilter(contracts: Contracts, wildcards: set<Selector>)
  {
    predicate IsEmpty() {
      contracts == map[] && wildcards == {}
    }

    predicate Matches(call: Call) {
      && |call.input| >= 4
      && var selector: Selector := call.input[..4];
         if call.to !in contracts then selector in wildcards
         else if contracts[call.to].1 == {} then true
         else selector in contracts[call.to].1 || selector in wildcards
    }
  }

  // (start block, contract, selector) of one call handler
  type Triple = (int, Address, Selector)

  ghost function Triples(dss: seq<DataSource>): set<Triple> {
    set d, h | d in dss && d.address.Some? && h in d.calls :: (d.start, d.address.value, h.selector)
  }

  ghost function Addresses(ts: set<Triple>): set<Address> {
    set t | t in ts :: t.1
  }

  ghost function Selectors(ts: set<Triple>, a: Address): set<Selector> {
    set t | t in ts && t.1 == a :: t.2
  }

  ghost predicate LeastStart(ts: set<Triple>, a: Address, start: int) {
    && (exists t :: t in ts && t.1 == a && t.0 == start)
    && (forall t :: t in ts && t.1 == a ==> start <= t.0)
  }

  /** The map that a set of triples stands for: every contract with exactly its selectors and
      its least start block. */
  ghost predicate Summarises(m: Contracts, ts: set<Triple>) {
    && m.Keys == Addresses(ts)
    && forall a :: a in m ==> m[a].1 == Selectors(ts, a) && LeastStart(ts, a, m[a].0)
  }

  ghost predicate BuiltFrom(f: CallFilter, dss: seq<DataSource>) {
    Summarises(f.contracts, Triples(dss)) && f.wildcards == {}
  }

  function MergeAt(x: (int, set<Selector>), y: (int, set<Selector>)): (int, set<Selector>) {
    (if y.0 < x.0 then y.0 else x.0, x.1 + y.1)
  }

  function MergeContracts(m: Contracts, n: Contracts): Contracts {
    map a | a in m.Keys + n.Keys ::
      if a in m && a in n then MergeAt(m[a], n[a]) else if a in m then m[a] else n[a]
  }

  function Merge(f: CallFilter, g: CallFilter): CallFilter {
    CallFilter(MergeContracts(f.contracts, g.contracts), f.wildcards + g.wildcards)
  }

  lemma MergeSummarises(m: Contracts, ts: set<Triple>, n: Contracts, us: set<Triple>)
    requires Summarises(m, ts) && Summarises(n, us)
    ensures Summarises(MergeContracts(m, n), ts + us)
  {
    var r, all := MergeContracts(m, n), ts + us;
    assert Addresses(all) == Addresses(ts) + Addresses(us);
    forall a | a in r
      ensures r[a].1 == Selectors(all, a) && LeastStart(all, a, r[a].0)
    {
      assert Selectors(all, a) == Selectors(ts, a) + Selectors(us, a);
      Absent(ts, a);
      Absent(us, a);
      MergeLeast(ts, us, a, r[a].0);
    }
  }

  lemma Absent(ts: set<Triple>, a: Address)
    ensures a !in Addresses(ts) ==> Selectors(ts, a) == {} && forall t :: t in ts ==> t.1 != a
  {
    forall t | t in ts
      ensures t.1 in Addresses(ts)
    {
    }
  }

  lemma MergeLeast(ts: set<Triple>, us: set<Triple>, a: Address, start: int)
    ensures LeastStart(ts, a, start) && (forall t :: t in us && t.1 == a ==> start <= t.0) ==> LeastStart(ts + us, a, start)
    ensures LeastStart(us, a, start) && (forall t :: t in ts && t.1 == a ==> start <= t.0) ==> LeastStart(ts + us, a, start)
  {
    forall t | t in ts || t in us
      ensures t in ts + us
    {
    }
  }

  lemma SummaryUnique(m: Contracts, n: Contracts, ts: set<Triple>)
    requires Summarises(m, ts) && Summarises(n, ts)
    ensures m == n
  {
    forall a | a in m
      ensures a in n && m[a] == n[a]
    {
      assert LeastStart(ts, a, m[a].0) && LeastStart(ts, a, n[a].0);
    }
  }

  /** Building from a concatenated list is building from each part and extending. */
  lemma BuildConcat(a: seq<DataSource>, b: seq<DataSource>, fa: CallFilter, fb: CallFilter, f: CallFilter)
    requires BuiltFrom(fa, a) && BuiltFrom(fb, b) && BuiltFrom(f, a + b)
    ensures f == Merge(fa, fb) == Merge(fb, fa)
  {
    assert Triples(a + b) == Triples(a) + Triples(b);
    assert Triples(a + b) == Triples(b) + Triples(a);
    MergeSummarises(fa.contracts, Triples(a), fb.contracts, Triples(b));
    MergeSummarises(fb.contracts, Triples(b), fa.contracts, Triples(a));
    SummaryUnique(f.contracts, MergeContracts(fa.contracts, fb.contracts), Triples(a + b));
    SummaryUnique(f.contracts, MergeContracts(fb.contracts, fa.contracts), Triples(a + b));
  }

  // ---------- building and extending ----------

  function Restrict(m: Contracts, keys: set<Address>): Contracts {
    map a | a in m && a in keys :: m[a]
  }

  method ExtendContracts(m: Contracts, n: Contracts) returns (r: Contracts)
    ensures r == MergeContracts(m, n)
  {
    r := m;
    var todo, done := n.Keys, {};
    while todo != {}
      invariant todo !! done && todo + done == n.Keys
      invariant r == MergeContracts(m, Restrict(n, done))
      decreases todo
    {
      var a :| a in todo;
      MergeStep(m, n, done, a);
      r := r[a := if a in r then MergeAt(r[a], n[a]) else n[a]];
      todo, done := todo - {a}, done + {a};
    }
    assert Restrict(n, done) == n;
  }

  lemma MergeStep(m: Contracts, n: Contracts, done: set<Address>, a: Address)
    requires a in n && a !in done
    ensures var r := MergeContracts(m, Restrict(n, done));
            MergeContracts(m, Restrict(n, done + {a})) == r[a := if a in r then MergeAt(r[a], n[a]) else n[a]]
  {
    var r, q := MergeContracts(m, Restrict(n, done)), MergeContracts(m, Restrict(n, done + {a}));
    assert q.Keys == r.Keys + {a};
  }

  lemma SummarisesOne(start: int, a: Address, s: Selector)
    ensures Summarises(map[a := (start, {s})], {(start, a, s)})
  {
    var t: Triple := (start, a, s);
    assert Addresses({t}) == {a} && Selectors({t}, a) == {s};
    assert t in {t} && t.1 == a && t.0 == start;
  }

  // ---------- meaning ----------

  /** Some data source with a call handler for `call`, start block aside. */
  ghost predicate SomeHandles(dss: seq<DataSource>, call: Call) {
    && |call.input| >= 4
    && exists t :: t in Triples(dss) && t.1 == call.to && t.2 == call.input[..4]
  }

  /** The built filter accepts exactly the calls that some data source has a handler for. */
  lemma BuiltFilterExact(f: CallFilter, dss: seq<DataSource>, call: Call)
    requires BuiltFrom(f, dss)
    ensures f.Matches(call) <==> SomeHandles(dss, call)
  {
    var ts := Triples(dss);
    BuiltNonEmpty(f, dss);
    if f.Matches(call) {
      assert call.input[..4] in Selectors(ts, call.to);
    }
    if SomeHandles(dss, call) {
      var t :| t in ts && t.1 == call.to && t.2 == call.input[..4];
      assert t.1 in Addresses(ts) && t.2 in Selectors(ts, t.1);
    }
  }

  /** No shared contract has selectors on one side only, unless those selectors and the
      wildcards are all there are. */
  ghost predicate Compatible(f: CallFilter, g: CallFilter) {
    forall a :: a in f.contracts && a in g.contracts && (f.contracts[a].1 == {}) != (g.contracts[a].1 == {}) ==>
      forall s: Selector :: s in f.contracts[a].1 + g.contracts[a].1 + f.wildcards + g.wildcards
  }

  lemma UnionAt(f: CallFilter, g: CallFilter, call: Call)
    requires Compatible(f, g)
    ensures Merge(f, g).Matches(call) <==> f.Matches(call) || g.Matches(call)
  {
    if |call.input| >= 4 && call.to in f.contracts && call.to in g.contracts {
      var a, s: Selector := call.to, call.input[..4];
      assert Merge(f, g).contracts[a].1 == f.contracts[a].1 + g.contracts[a].1;
      if f.contracts[a].1 == {} && g.contracts[a].1 == {} {
        assert Merge(f, g).contracts[a].1 == {};
      } else if f.contracts[a].1 == {} || g.contracts[a].1 == {} {
        assert s in f.contracts[a].1 + g.contracts[a].1 + f.wildcards + g.wildcards;
      }
    }
  }

  /** Extending means accepting what either filter accepts, on every call, if and only if the
      filters are compatible: an empty selector set means "any selector" until it is extended. */
  lemma ExtendIsUnion(f: CallFilter, g: CallFilter)
    ensures (forall call: Call :: Merge(f, g).Matches(call) <==> f.Matches(call) || g.Matches(call)) <==> Compatible(f, g)
  {
    if Compatible(f, g) {
      forall call: Call
        ensures Merge(f, g).Matches(call) <==> f.Matches(call) || g.Matches(call)
      {
        UnionAt(f, g, call);
      }
    } else {
      var a :| a in f.contracts && a in g.contracts && (f.contracts[a].1 == {}) != (g.contracts[a].1 == {}) &&
               !forall s: Selector :: s in f.contracts[a].1 + g.contracts[a].1 + f.wildcards + g.wildcards;
      var s: Selector :| s !in f.contracts[a].1 + g.contracts[a].1 + f.wildcards + g.wildcards;
      var call := Call(0, a, s, true, 0, 0);
      assert call.input[..4] == s;
      assert Merge(f, g).contracts[a].1 == f.contracts[a].1 + g.contracts[a].1;
      assert !Merge(f, g).Matches(call) && (f.Matches(call) || g.Matches(call));
    }
  }

  /** Filters built from data sources are always compatible. */
  lemma BuiltCompatible(f: CallFilter, a: seq<DataSource>, g: CallFilter, b: seq<DataSource>)
    requires BuiltFrom(f, a) && BuiltFrom(g, b)
    ensures Compatible(f, g)
  {
    BuiltNonEmpty(f, a);
    BuiltNonEmpty(g, b);
  }

  lemma BuiltNonEmpty(f: CallFilter, dss: seq<DataSource>)
    requires BuiltFrom(f, dss)
    ensures forall a :: a in f.contracts ==> f.contracts[a].1 != {}
  {
    forall a | a in f.contracts
      ensures f.contracts[a].1 != {}
    {
      var t :| t in Triples(dss) && t.1 == a;
      assert t.2 in Selectors(Triples(dss), a);
    }
  }
}
