/** The combined trigger filter, updated in place by `extend` and `extend_with_template`, and
    what it means for a filter to cover a data source. */
module TriggerFilters {
  import opened Types
  import L = LogFilters
  import C = CallFilters
  import B = BlockFilters

  datatype Filter = Filter(log: L.LogFilter, call: C.CallFilter, block: B.BlockFilter)

  ghost function Merge(f: Filter, g: Filter): Filter {
    Filter(L.Merge(f.log, g.log), C.Merge(f.call, g.call), B.Merge(f.block, g.block))
  }

  ghost predicate BuiltFrom(f: Filter, dss: seq<DataSource>) {
    L.BuiltFrom(f.log, dss) && C.BuiltFrom(f.call, dss) && B.BuiltFrom(f.block, dss)
  }

  // ---------- coverage ----------

  /** The filter lets through every trigger that `d` has a handler for. */
  ghost predicate Covers(f: Filter, d: DataSource) {
    && (forall h :: h in d.events ==> EventCovered(f.log, d, h))
    && (d.address.Some? ==>
          && (forall h :: h in d.calls ==> CallCovered(f.call, d.address.value, d.start, h.selector))
          && (forall h :: h in d.blocks ==> BlockCovered(f.block, d.address.value, d.start, h.filter)))
  }

  predicate EventCovered(f: L.LogFilter, d: DataSource, h: EventHandler) {
    f.Has(L.KeyOf(d, h)) || f.Has(L.Wildcard(h.topic0))
  }

  predicate CallCovered(f: C.CallFilter, a: Address, start: int, s: Selector) {
    s in f.wildcards || (a in f.contracts && f.contracts[a].0 <= start && s in f.contracts[a].1)
  }

  ghost predicate BlockCovered(f: B.BlockFilter, a: Address, start: int, filter: Option<BlockHandlerFilter>) {
    match filter
    case None => f.everyBlock
    case Some(Polling(every)) => f.everyBlock || (start, every as int) in f.polling
    case Some(Once) => f.everyBlock || (start, 0) in f.polling
    case Some(WithCall) => Watches(f, a, start)
  }

  ghost predicate Watches(f: B.BlockFilter, a: Address, start: int) {
    exists p :: p in f.contracts && p.1 == a && p.0 <= start
  }

  /** A filter built from data sources covers each of them. */
  lemma BuiltCovers(f: Filter, dss: seq<DataSource>, d: DataSource)
    requires BuiltFrom(f, dss) && d in dss
    ensures Covers(f, d)
  {
    forall h | h in d.events
      ensures EventCovered(f.log, d, h)
    {
      assert L.Wants(dss, L.KeyOf(d, h), false);
    }
    if d.address.Some? {
      forall h | h in d.calls
        ensures CallCovered(f.call, d.address.value, d.start, h.selector)
      {
        var t: C.Triple := (d.start, d.address.value, h.selector);
        assert t in C.Triples(dss);
        assert t.1 in C.Addresses(C.Triples(dss)) && t.2 in C.Selectors(C.Triples(dss), t.1);
      }
      forall h | h in d.blocks
        ensures BlockCovered(f.block, d.address.value, d.start, h.filter)
      {
        BuiltCoversBlock(f.block, dss, d, h);
      }
    }
  }

  lemma BuiltCoversBlock(f: B.BlockFilter, dss: seq<DataSource>, d: DataSource, h: BlockHandler)
    requires B.BuiltFrom(f, dss) && d in dss && d.address.Some? && h in d.blocks
    ensures BlockCovered(f, d.address.value, d.start, h.filter)
  {
    match h.filter
    case None =>
      assert B.HasFilter(d, None);
    case Some(Polling(every)) =>
      assert (d.start, every as int) in B.PollingOf(d);
    case Some(Once) =>
      assert (d.start, 0) in B.PollingOf(d);
    case Some(WithCall) =>
      assert B.HasFilter(d, Some(WithCall));
      assert (d.start, d.address.value) in B.CallWatches(dss);
      B.LeastExists(B.CallWatches(dss), (d.start, d.address.value));
  }

  /** Extending a filter on either side never uncovers a data source. */
  lemma MergeCovers(f: Filter, g: Filter, d: DataSource)
    requires Covers(f, d) || Covers(g, d)
    ensures Covers(Merge(f, g), d)
  {
    var m := Merge(f, g);
    forall h | h in d.events
      ensures EventCovered(m.log, d, h)
    {
      L.MergeEntries(f.log, g.log, L.KeyOf(d, h));
      L.MergeEntries(f.log, g.log, L.Wildcard(h.topic0));
    }
    if d.address.Some? {
      forall h | h in d.blocks
        ensures BlockCovered(m.block, d.address.value, d.start, h.filter)
      {
        MergeWatches(f.block, g.block, d.address.value, d.start);
      }
    }
  }

  lemma MergeWatches(f: B.BlockFilter, g: B.BlockFilter, a: Address, start: int)
    ensures Watches(f, a, start) || Watches(g, a, start) ==> Watches(B.Merge(f, g), a, start)
  {
    if Watches(f, a, start) || Watches(g, a, start) {
      var p :| p in f.contracts + g.contracts && p.1 == a && p.0 <= start;
      B.LeastExists(f.contracts + g.contracts, p);
    }
  }

  // ---------- templates ----------

  function Signatures(events: seq<EventHandler>): set<Hash> {
    set h | h in events :: h.topic0
  }

  predicate NeedsReceipt(events: seq<EventHandler>, s: Hash) {
    exists h :: h in events && h.topic0 == s && h.receipt
  }

  function FromEvents(events: seq<EventHandler>): L.LogFilter {
    L.LogFilter(map[], map s | s in Signatures(events) :: NeedsReceipt(events, s), map[])
  }

  /** `from_mapping` of the three filters: templates have no address and no start block. */
  function FromTemplate(t: DataSource): Filter {
    Filter(FromEvents(t.events),
           C.CallFilter(map[], set h | h in t.calls :: h.selector),
           B.BlockFilter({}, {}, t.blocks != []))
  }

  /** It matches the logs and calls that have a handler of the template, from any contract, asks for a
      receipt if one of the event's handlers does, and for every block if there is a block handler. */
  lemma TemplateExact(t: DataSource)
    ensures var f := FromTemplate(t);
            && (forall log :: f.log.Matches(log) <==>
                  |log.topics| > 0 && exists h :: h in t.events && h.topic0 == log.topics[0])
            && (forall sig, contract, topics :: f.log.RequiresReceipt(sig, contract, topics) <==>
                  exists h :: h in t.events && h.topic0 == sig && h.receipt)
            && (forall call: Call :: f.call.Matches(call) <==>
                  |call.input| >= 4 && exists h :: h in t.calls && h.selector == call.input[..4])
            && f.block.contracts == {} && f.block.polling == {} && (f.block.everyBlock <==> t.blocks != [])
  {
    var f := FromTemplate(t);
    assert forall s :: s in f.log.wildcards <==> exists h :: h in t.events && h.topic0 == s;
    assert forall s :: s in f.log.wildcards ==> (f.log.wildcards[s] <==> exists h :: h in t.events && h.topic0 == s && h.receipt);
  }

  /** A data source has the handlers of the template it was created from. */
  predicate InstanceOf(d: DataSource, t: DataSource) {
    d.address.Some? && d.events == t.events && d.calls == t.calls && d.blocks == t.blocks
  }

  /** A filter made from the template covers its instances if and only if the template has no
      block handler with a call filter. */
  lemma TemplateCovers(t: DataSource, d: DataSource)
    requires InstanceOf(d, t)
    ensures Covers(FromTemplate(t), d) <==> !B.HasFilter(t, Some(WithCall))
  {
    var f := FromTemplate(t);
    forall h | h in d.events
      ensures EventCovered(f.log, d, h)
    {
      assert f.log.Has(L.Wildcard(h.topic0));
    }
    if h :| h in d.blocks && h.filter == Some(WithCall) {
      assert !BlockCovered(f.block, d.address.value, d.start, h.filter);
    }
  }

  // ---------- objects ----------

  class EthereumCallFilter {
    var contracts: C.Contracts
    var wildcards: set<Selector>

    function Value(): C.CallFilter
      reads this
    {
      C.CallFilter(contracts, wildcards)
    }

    constructor FromDataSources(dss: seq<DataSource>)
      ensures C.BuiltFrom(Value(), dss)
    {
      contracts, wildcards := map[], {};
      new;
      for i := 0 to |dss|
        invariant C.BuiltFrom(Value(), dss[..i])
      {
        AddHandlers(dss[i], C.Triples(dss[..i]));
        assert dss[..i + 1] == dss[..i] + [dss[i]];
        assert C.Triples(dss[..i + 1]) == C.Triples(dss[..i]) + C.Triples([dss[i]]);
      }
      assert dss[..|dss|] == dss;
    }

    method AddHandlers(d: DataSource, ghost before: set<C.Triple>)
      requires C.Summarises(contracts, before)
      modifies this`contracts
      ensures C.Summarises(contracts, before + C.Triples([d]))
    {
      if d.address.None? {
        assert before + C.Triples([d]) == before;
        return;
      }
      ghost var seen: set<C.Triple> := {};
      for j := 0 to |d.calls|
        invariant seen == set h | h in d.calls[..j] :: (d.start, d.address.value, h.selector)
        invariant C.Summarises(contracts, before + seen)
      {
        var selector := d.calls[j].selector;
        Insert(d.start, d.address.value, selector, before + seen);
        assert d.calls[..j + 1] == d.calls[..j] + [d.calls[j]];
        ghost var t := (d.start, d.address.value, selector);
        assert before + seen + {t} == before + (seen + {t});
        seen := seen + {t};
      }
      assert d.calls[..|d.calls|] == d.calls;
      assert seen == C.Triples([d]);
    }

    /** The body of the `FromIterator` loop. */
    method Insert(start: int, address: Address, selector: Selector, ghost before: set<C.Triple>)
      requires C.Summarises(contracts, before)
      modifies this`contracts
      ensures C.Summarises(contracts, before + {(start, address, selector)})
    {
      ghost var was := contracts;
      var entry := if address in contracts then contracts[address] else (start, {});
      if entry.0 > start {
        entry := (start, entry.1);
      }
      contracts := contracts[address := (entry.0, entry.1 + {selector})];
      ghost var one: C.Contracts := map[address := (start, {selector})];
      C.SummarisesOne(start, address, selector);
      C.MergeSummarises(was, before, one, {(start, address, selector)});
      assert {} + {selector} == {selector};
      assert contracts == C.MergeContracts(was, one);
    }

    method Extend(other: C.CallFilter)
      modifies this
      ensures Value() == C.Merge(old(Value()), other)
    {
      if other.IsEmpty() {
        assert C.MergeContracts(contracts, map[]) == contracts;
        return;
      }
      contracts := C.ExtendContracts(contracts, other.contracts);
      wildcards := wildcards + other.wildcards;
    }
  }

  class EthereumBlockFilter {
    var polling: set<(int, int)>
    var contracts: B.Watched
    var everyBlock: bool

    function Value(): B.BlockFilter
      reads this
    {
      B.BlockFilter(polling, contracts, everyBlock)
    }

    ghost predicate Valid()
      reads this
    {
      B.OnePerContract(contracts)
    }

    constructor FromDataSources(dss: seq<DataSource>)
      ensures B.BuiltFrom(Value(), dss) && Valid()
    {
      polling, contracts, everyBlock := {}, {}, false;
      new;
      for i := 0 to |dss|
        invariant B.BuiltFrom(Value(), dss[..i]) && Valid()
      {
        ghost var was := Value();
        if dss[i].address.Some? {
          Extend(B.Single(dss[i]));
        }
        B.BuiltSnoc(was, dss[..i], dss[i]);
        assert dss[..i + 1] == dss[..i] + [dss[i]];
      }
      assert dss[..|dss|] == dss;
    }

    method Extend(other: B.BlockFilter)
      requires Valid()
      modifies this
      ensures Value() == B.Merge(old(Value()), other) && Valid()
    {
      if other.IsEmpty() {
        B.LeastOne(contracts);
        assert contracts + other.contracts == contracts;
        return;
      }
      everyBlock := everyBlock || other.everyBlock;
      contracts := B.ExtendWatched(contracts, other.contracts);
      polling := polling + other.polling;
    }
  }

  class TriggerFilter {
    const log: L.EthereumLogFilter
    const call: EthereumCallFilter
    const block: EthereumBlockFilter

    function Value(): Filter
      reads log, call, block
    {
      Filter(log.Value(), call.Value(), block.Value())
    }

    constructor FromDataSources(dss: seq<DataSource>)
      ensures BuiltFrom(Value(), dss) && block.Valid()
      ensures fresh(log) && fresh(call) && fresh(block)
    {
      log := new L.EthereumLogFilter.FromDataSources(dss);
      call := new EthereumCallFilter.FromDataSources(dss);
      block := new EthereumBlockFilter.FromDataSources(dss);
    }

    /** `extend`: the filter of the new data sources is merged in, so every data source that
        was covered stays covered, and the new ones are covered too. */
    method Extend(dss: seq<DataSource>)
      requires block.Valid()
      modifies log, call, block
      ensures block.Valid()
      ensures exists g :: BuiltFrom(g, dss) && Value() == Merge(old(Value()), g)
      ensures forall d :: d in dss || old(Covers(Value(), d)) ==> Covers(Value(), d)
    {
      var l := new L.EthereumLogFilter.FromDataSources(dss);
      var c := new EthereumCallFilter.FromDataSources(dss);
      var b := new EthereumBlockFilter.FromDataSources(dss);
      ghost var g := Filter(l.Value(), c.Value(), b.Value());
      ghost var was := Value();
      log.Extend(l.Value());
      call.Extend(c.Value());
      block.Extend(b.Value());
      assert BuiltFrom(g, dss) && Value() == Merge(was, g);
      forall d | d in dss || Covers(was, d)
        ensures Covers(Value(), d)
      {
        if d in dss {
          BuiltCovers(g, dss, d);
        }
        MergeCovers(was, g, d);
      }
    }

    /** `extend_with_template`, for one template. */
    method ExtendWithTemplate(t: DataSource)
      requires block.Valid()
      modifies log, call, block
      ensures block.Valid() && Value() == Merge(old(Value()), FromTemplate(t))
      ensures forall d :: old(Covers(Value(), d)) ==> Covers(Value(), d)
    {
      ghost var was := Value();
      var g := FromTemplate(t);
      log.Extend(g.log);
      call.Extend(g.call);
      block.Extend(g.block);
      forall d | Covers(was, d)
        ensures Covers(Value(), d)
      {
        MergeCovers(was, g, d);
      }
    }
  }
}
