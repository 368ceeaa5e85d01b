/** The merged log filter of `EthereumLogFilter`: how it is built from data sources,
    extended, and what it accepts. */
module LogFilters {
  import opened Types

  // EventSignatureWithTopics
  datatype SigTopics = SigTopics(address: Option<Address>, signature: Hash, topic1: TopicList,
                                 topic2: TopicList, topic3: TopicList)
  {
    predicate Matches(a: Address, sig: Hash, topics: seq<Hash>) {
      && (address.None? || address.value == a)
      && signature == sig
      && Allows(topic1, topics, 1)
      && Allows(topic2, topics, 2)
      && Allows(topic3, topics, 3)
    }

    predicate HasEmptyList() {
      topic1 == OneOf([]) || topic2 == OneOf([]) || topic3 == OneOf([])
    }
  }

  // The three places a handler can be registered at.
  datatype Key = Edge(contract: Address, signature: Hash) | Wildcard(event: Hash) | Filtered(entry: SigTopics)
  {
    predicate Accepts(log: Log) {
      && |log.topics| > 0
      && match this
         case Edge(a, s) => log.address == a && log.topics[0] == s
         case Wildcard(s) => log.topics[0] == s
         case Filtered(e) => e.Matches(log.address, log.topics[0], log.topics)
    }
  }

  // `graph` is the bipartite contract/event graph, given by its weighted edges.
  datatype LogFilter = LogFilter(graph: map<(Address, Hash), bool>, wildcards: map<Hash, bool>,
                                 topicEvents: map<SigTopics, bool>)
  {
    predicate Has(k: Key) {
      match k
      case Edge(a, s) => (a, s) in graph
      case Wildcard(s) => s in wildcards
      case Filtered(e) => e in topicEvents
    }

    predicate Flag(k: Key) {
      match k
      case Edge(a, s) => (a, s) in graph && graph[(a, s)]
      case Wildcard(s) => s in wildcards && wildcards[s]
      case Filtered(e) => e in topicEvents && topicEvents[e]
    }

    predicate IsEmpty() {
      graph == map[] && wildcards == map[] && topicEvents == map[]
    }

    predicate Matches(log: Log) {
      && |log.topics| > 0
      && (|| (log.address, log.topics[0]) in graph
          || log.topics[0] in wildcards
          || exists e :: e in topicEvents && e.Matches(log.address, log.topics[0], log.topics))
    }

    predicate RequiresReceipt(sig: Hash, contract: Option<Address>, topics: seq<Hash>) {
      || (sig in wildcards && wildcards[sig])
      || (exists e :: e in topicEvents && topicEvents[e] && EntryMatches(e, contract, sig, topics))
      || (contract.Some? && (contract.value, sig) in graph && graph[(contract.value, sig)])
    }
  }

  /** `EventSignatureWithTopics::matches` with an optional address argument. */
  predicate EntryMatches(e: SigTopics, contract: Option<Address>, sig: Hash, topics: seq<Hash>) {
    if contract.Some? then e.Matches(contract.value, sig, topics)
    else e.address.None? && e.Matches(Address(0), sig, topics)
  }

  const EMPTY := LogFilter(map[], map[], map[])

  function KeyOf(d: DataSource, h: EventHandler): Key {
    if h.HasAdditionalTopics() then Filtered(SigTopics(d.address, h.topic0, h.topic1, h.topic2, h.topic3))
    else if d.address.Some? then Edge(d.address.value, h.topic0)
    else Wildcard(h.topic0)
  }

  // ---------- merging ----------

  function OrInsert<K>(m: map<K, bool>, k: K, v: bool): map<K, bool> {
    m[k := v || (k in m && m[k])]
  }

  function OrMerge<K>(m: map<K, bool>, n: map<K, bool>): map<K, bool> {
    map k | k in m.Keys + n.Keys :: (k in m && m[k]) || (k in n && n[k])
  }

  function Merge(f: LogFilter, g: LogFilter): LogFilter {
    LogFilter(OrMerge(f.graph, g.graph), OrMerge(f.wildcards, g.wildcards), OrMerge(f.topicEvents, g.topicEvents))
  }

  function Put(f: LogFilter, k: Key, v: bool): LogFilter {
    match k
    case Edge(a, s) => f.(graph := OrInsert(f.graph, (a, s), v))
    case Wildcard(s) => f.(wildcards := OrInsert(f.wildcards, s, v))
    case Filtered(e) => f.(topicEvents := OrInsert(f.topicEvents, e, v))
  }

  /** Some data source has an event handler registered at `k` (one that declares a
      receipt, if `receipt`). */
  ghost predicate Wants(dss: seq<DataSource>, k: Key, receipt: bool) {
    exists d, h :: d in dss && h in d.events && KeyOf(d, h) == k && (receipt ==> h.receipt)
  }

  /** The filter that a list of data sources stands for, said key by key. */
  ghost predicate BuiltFrom(f: LogFilter, dss: seq<DataSource>) {
    forall k: Key :: (f.Has(k) <==> Wants(dss, k, false)) && (f.Flag(k) <==> Wants(dss, k, true))
  }

  lemma SameEntries(f: LogFilter, g: LogFilter)
    requires forall k: Key :: f.Has(k) == g.Has(k) && f.Flag(k) == g.Flag(k)
    ensures f == g
  {
    forall p: (Address, Hash)
      ensures p in f.graph <==> p in g.graph
      ensures p in f.graph ==> f.graph[p] == g.graph[p]
    {
      var k := Edge(p.0, p.1);
      assert f.Has(k) == g.Has(k) && f.Flag(k) == g.Flag(k);
    }
    forall s
      ensures s in f.wildcards <==> s in g.wildcards
      ensures s in f.wildcards ==> f.wildcards[s] == g.wildcards[s]
    {
      assert f.Has(Wildcard(s)) == g.Has(Wildcard(s)) && f.Flag(Wildcard(s)) == g.Flag(Wildcard(s));
    }
    forall e
      ensures e in f.topicEvents <==> e in g.topicEvents
      ensures e in f.topicEvents ==> f.topicEvents[e] == g.topicEvents[e]
    {
      assert f.Has(Filtered(e)) == g.Has(Filtered(e)) && f.Flag(Filtered(e)) == g.Flag(Filtered(e));
    }
    assert f.graph == g.graph;
    assert f.wildcards == g.wildcards;
    assert f.topicEvents == g.topicEvents;
  }

  /** Merging ORs both the keys and their receipt flags. */
  lemma MergeEntries(f: LogFilter, g: LogFilter, k: Key)
    ensures Merge(f, g).Has(k) <==> f.Has(k) || g.Has(k)
    ensures Merge(f, g).Flag(k) <==> f.Flag(k) || g.Flag(k)
  {
  }

  lemma PutEntries(f: LogFilter, k: Key, v: bool, q: Key)
    ensures Put(f, k, v).Has(q) <==> f.Has(q) || q == k
    ensures Put(f, k, v).Flag(q) <==> f.Flag(q) || (q == k && v)
  {
  }

  lemma WantsConcat(a: seq<DataSource>, b: seq<DataSource>, k: Key, receipt: bool)
    ensures Wants(a + b, k, receipt) <==> Wants(a, k, receipt) || Wants(b, k, receipt)
  {
    if Wants(a + b, k, receipt) {
      var d, h :| d in a + b && h in d.events && KeyOf(d, h) == k && (receipt ==> h.receipt);
      assert d in a || d in b;
    }
    if Wants(a, k, receipt) {
      var d, h :| d in a && h in d.events && KeyOf(d, h) == k && (receipt ==> h.receipt);
      assert d in a + b;
    }
    if Wants(b, k, receipt) {
      var d, h :| d in b && h in d.events && KeyOf(d, h) == k && (receipt ==> h.receipt);
      assert d in a + b;
    }
  }

  /** A filter built from a concatenated list is the first list's filter extended by the
      second's, and building determines the filter, so order and grouping are irrelevant. */
  lemma BuildConcat(a: seq<DataSource>, b: seq<DataSource>, fa: LogFilter, fb: LogFilter, f: LogFilter)
    requires BuiltFrom(fa, a) && BuiltFrom(fb, b) && BuiltFrom(f, a + b)
    ensures f == Merge(fa, fb) == Merge(fb, fa)
  {
    forall k: Key
      ensures f.Has(k) == Merge(fa, fb).Has(k) && f.Flag(k) == Merge(fa, fb).Flag(k)
    {
      MergeEntries(fa, fb, k);
      WantsConcat(a, b, k, false);
      WantsConcat(a, b, k, true);
      assert (fa.Has(k) <==> Wants(a, k, false)) && (fb.Has(k) <==> Wants(b, k, false));
    }
    SameEntries(f, Merge(fa, fb));
    MergeCommutes(fa, fb);
  }

  lemma MergeCommutes(f: LogFilter, g: LogFilter)
    ensures Merge(f, g) == Merge(g, f)
  {
    forall k: Key
      ensures Merge(f, g).Has(k) == Merge(g, f).Has(k) && Merge(f, g).Flag(k) == Merge(g, f).Flag(k)
    {
      MergeEntries(f, g, k);
      MergeEntries(g, f, k);
    }
    SameEntries(Merge(f, g), Merge(g, f));
  }

  lemma MergeAssociates(f: LogFilter, g: LogFilter, h: LogFilter)
    ensures Merge(Merge(f, g), h) == Merge(f, Merge(g, h))
  {
    var fg, gh := Merge(f, g), Merge(g, h);
    forall k: Key
      ensures Merge(fg, h).Has(k) == Merge(f, gh).Has(k) && Merge(fg, h).Flag(k) == Merge(f, gh).Flag(k)
    {
      MergeEntries(f, g, k);
      MergeEntries(fg, h, k);
      MergeEntries(g, h, k);
      MergeEntries(f, gh, k);
    }
    SameEntries(Merge(fg, h), Merge(f, gh));
  }

  lemma MergeUnit(f: LogFilter)
    ensures Merge(f, EMPTY) == f
  {
    forall k: Key
      ensures Merge(f, EMPTY).Has(k) == f.Has(k) && Merge(f, EMPTY).Flag(k) == f.Flag(k)
    {
      MergeEntries(f, EMPTY, k);
    }
    SameEntries(Merge(f, EMPTY), f);
  }

  // ---------- building and extending ----------

  method OrExtend<K(==)>(m: map<K, bool>, n: map<K, bool>) returns (r: map<K, bool>)
    ensures r == OrMerge(m, n)
  {
    r := m;
    var todo := n.Keys;
    while todo != {}
      invariant todo <= n.Keys
      invariant r.Keys == m.Keys + (n.Keys - todo)
      invariant forall k :: k in r ==> (r[k] <==> (k in m && m[k]) || (k in n && k !in todo && n[k]))
      decreases todo
    {
      var k :| k in todo;
      r := OrInsert(r, k, n[k]);
      todo := todo - {k};
    }
  }

  class EthereumLogFilter {
    var graph: map<(Address, Hash), bool>
    var wildcards: map<Hash, bool>
    var topicEvents: map<SigTopics, bool>

    function Value(): LogFilter
      reads this
    {
      LogFilter(graph, wildcards, topicEvents)
    }

    constructor ()
      ensures Value() == EMPTY
    {
      graph, wildcards, topicEvents := map[], map[], map[];
    }

    constructor FromDataSources(dss: seq<DataSource>)
      ensures BuiltFrom(Value(), dss)
    {
      graph, wildcards, topicEvents := map[], map[], map[];
      new;
      for i := 0 to |dss|
        invariant BuiltFrom(Value(), dss[..i])
      {
        RegisterAll(dss[i], dss[..i]);
        assert dss[..i + 1] == dss[..i] + [dss[i]];
      }
      assert dss[..|dss|] == dss;
    }

    method RegisterAll(d: DataSource, ghost before: seq<DataSource>)
      requires BuiltFrom(Value(), before)
      modifies this
      ensures BuiltFrom(Value(), before + [d])
    {
      ghost var old0 := Value();
      for j := 0 to |d.events|
        invariant forall k: Key :: Value().Has(k) <==> old0.Has(k) || exists h :: h in d.events[..j] && KeyOf(d, h) == k
        invariant forall k: Key :: Value().Flag(k) <==> old0.Flag(k) || exists h :: h in d.events[..j] && KeyOf(d, h) == k && h.receipt
      {
        var h := d.events[j];
        ghost var was := Value();
        Register(d, h);
        forall k: Key
          ensures Value().Has(k) <==> was.Has(k) || k == KeyOf(d, h)
          ensures Value().Flag(k) <==> was.Flag(k) || (k == KeyOf(d, h) && h.receipt)
        {
          PutEntries(was, KeyOf(d, h), h.receipt, k);
        }
        assert d.events[..j + 1] == d.events[..j] + [h];
      }
      assert d.events[..|d.events|] == d.events;
      forall k: Key
        ensures (Value().Has(k) <==> Wants(before + [d], k, false)) && (Value().Flag(k) <==> Wants(before + [d], k, true))
      {
        WantsConcat(before, [d], k, false);
        WantsConcat(before, [d], k, true);
        WantsOne(d, k, false);
        WantsOne(d, k, true);
      }
    }

    /** The four-way choice of `from_data_sources`. */
    method Register(d: DataSource, h: EventHandler)
      modifies this
      ensures Value() == Put(old(Value()), KeyOf(d, h), h.receipt)
    {
      match d.address
      case Some(contract) =>
        if !h.HasAdditionalTopics() {
          graph := OrInsert(graph, (contract, h.topic0), h.receipt);
        } else {
          topicEvents := OrInsert(topicEvents, SigTopics(Some(contract), h.topic0, h.topic1, h.topic2, h.topic3), h.receipt);
        }
      case None =>
        if !h.HasAdditionalTopics() {
          wildcards := OrInsert(wildcards, h.topic0, h.receipt);
        } else {
          topicEvents := OrInsert(topicEvents, SigTopics(d.address, h.topic0, h.topic1, h.topic2, h.topic3), h.receipt);
        }
    }

    method Extend(other: LogFilter)
      modifies this
      ensures Value() == Merge(old(Value()), other)
    {
      if other.IsEmpty() {
        MergeUnit(Value());
        return;
      }
      graph := OrExtend(graph, other.graph);
      wildcards := OrExtend(wildcards, other.wildcards);
      topicEvents := OrExtend(topicEvents, other.topicEvents);
    }
  }

  lemma WantsOne(d: DataSource, k: Key, receipt: bool)
    ensures Wants([d], k, receipt) <==> exists h :: h in d.events && KeyOf(d, h) == k && (receipt ==> h.receipt)
  {
    if h :| h in d.events && KeyOf(d, h) == k && (receipt ==> h.receipt) {
      assert d in [d];
    }
  }

  // ---------- what a filter accepts ----------

  lemma MatchesByKey(f: LogFilter, log: Log)
    ensures f.Matches(log) <==> exists k: Key :: f.Has(k) && k.Accepts(log)
    ensures |log.topics| > 0 ==>
              (f.RequiresReceipt(log.topics[0], Some(log.address), log.topics) <==>
               exists k: Key :: f.Flag(k) && k.Accepts(log))
  {
    if |log.topics| > 0 {
      var edge, wild := Edge(log.address, log.topics[0]), Wildcard(log.topics[0]);
      assert f.Has(edge) <==> (log.address, log.topics[0]) in f.graph;
      assert f.Has(wild) <==> log.topics[0] in f.wildcards;
      assert edge.Accepts(log) && wild.Accepts(log);
      forall e | e in f.topicEvents && e.Matches(log.address, log.topics[0], log.topics)
        ensures f.Has(Filtered(e)) && Filtered(e).Accepts(log)
        ensures f.topicEvents[e] ==> f.Flag(Filtered(e))
      {
      }
    }
  }

  /** Asked without an address, a receipt is demanded exactly if some flagged key that is not
      tied to a contract accepts the topics; so it is then demanded at every address. */
  lemma ReceiptWithoutAddress(f: LogFilter, topics: seq<Hash>, a: Address)
    requires |topics| > 0
    ensures f.RequiresReceipt(topics[0], None, topics) <==>
            exists k: Key :: f.Flag(k) && k.Accepts(Log(0, a, topics, 0, 0)) &&
                             (k.Wildcard? || (k.Filtered? && k.entry.address.None?))
    ensures f.RequiresReceipt(topics[0], None, topics) ==> f.RequiresReceipt(topics[0], Some(a), topics)
  {
    var log := Log(0, a, topics, 0, 0);
    var wild := Wildcard(topics[0]);
    assert wild.Accepts(log) && (f.Flag(wild) <==> topics[0] in f.wildcards && f.wildcards[topics[0]]);
    forall e | e in f.topicEvents && f.topicEvents[e] && EntryMatches(e, None, topics[0], topics)
      ensures f.Flag(Filtered(e)) && Filtered(e).Accepts(log) && EntryMatches(e, Some(a), topics[0], topics)
    {
    }
  }

  /** `h` of `d` is to be run on `log`, start block and ABI aside. */
  predicate Handles(d: DataSource, h: EventHandler, log: Log) {
    h in d.events && d.ListensTo(log.address) && h.Matches(log)
  }

  ghost predicate SomeHandles(dss: seq<DataSource>, log: Log, receipt: bool) {
    exists d, h :: d in dss && Handles(d, h, log) && (receipt ==> h.receipt)
  }

  /** A key accepts what its handler matches; the converse fails only for handlers all of
      whose topic lists are empty, which match nothing and are registered as unfiltered. */
  lemma KeyAccepts(d: DataSource, h: EventHandler, log: Log)
    requires h in d.events
    ensures Handles(d, h, log) ==> KeyOf(d, h).Accepts(log)
    ensures KeyOf(d, h).Accepts(log) ==>
              Handles(d, h, log) || (h.Degenerate() && d.ListensTo(log.address) && log.topics[0] == h.topic0)
    ensures h.Degenerate() ==> !h.Matches(log)
  {
  }

  /** The built filter never loses a log or a receipt that a handler needs. */
  lemma BuiltFilterComplete(f: LogFilter, dss: seq<DataSource>, log: Log)
    requires BuiltFrom(f, dss)
    ensures SomeHandles(dss, log, false) ==> f.Matches(log)
    ensures SomeHandles(dss, log, true) ==> f.RequiresReceipt(log.topics[0], Some(log.address), log.topics)
  {
    MatchesByKey(f, log);
    forall d, h | d in dss && Handles(d, h, log)
      ensures f.Has(KeyOf(d, h)) && KeyOf(d, h).Accepts(log)
      ensures h.receipt ==> f.Flag(KeyOf(d, h))
    {
      KeyAccepts(d, h, log);
      assert Wants(dss, KeyOf(d, h), false);
      assert h.receipt ==> Wants(dss, KeyOf(d, h), true);
    }
  }

  /** Every degenerate handler (with a receipt, if `receipt`) is covered, at each address it
      listens to, by a handler for the same event that has no topic list at all. */
  ghost predicate Shadowed(dss: seq<DataSource>, receipt: bool) {
    forall d, h, a: Address {:trigger h in d.events, d.ListensTo(a)} ::
      d in dss && h in d.events && h.Degenerate() && d.ListensTo(a) && (receipt ==> h.receipt) ==>
        exists d', h' :: d' in dss && h' in d'.events && h'.Unfiltered() && h'.topic0 == h.topic0 &&
                         d'.ListensTo(a) && (receipt ==> h'.receipt)
  }

  /** One log: accepted exactly if handled, provided degenerate handlers are shadowed. */
  lemma BuiltFilterExactAt(f: LogFilter, dss: seq<DataSource>, log: Log, receipt: bool)
    requires BuiltFrom(f, dss) && Shadowed(dss, receipt) && |log.topics| > 0
    ensures (if receipt then f.RequiresReceipt(log.topics[0], Some(log.address), log.topics) else f.Matches(log))
            ==> SomeHandles(dss, log, receipt)
  {
    MatchesByKey(f, log);
    if k: Key :| (if receipt then f.Flag(k) else f.Has(k)) && k.Accepts(log) {
      assert Wants(dss, k, receipt);
      var d, h :| d in dss && h in d.events && KeyOf(d, h) == k && (receipt ==> h.receipt);
      KeyAccepts(d, h, log);
      if !Handles(d, h, log) {
        assert h.Degenerate() && d.ListensTo(log.address);
        var d', h' :| d' in dss && h' in d'.events && h'.Unfiltered() && h'.topic0 == h.topic0 &&
                      d'.ListensTo(log.address) && (receipt ==> h'.receipt);
        assert Handles(d', h', log);
      }
    }
  }

  ghost predicate ExactFor(f: LogFilter, dss: seq<DataSource>, receipt: bool) {
    forall log: Log :: |log.topics| > 0 ==>
      ((if receipt then f.RequiresReceipt(log.topics[0], Some(log.address), log.topics) else f.Matches(log))
       <==> SomeHandles(dss, log, receipt))
  }

  /** Accepted = handled (and receipt demanded = receipt declared) for every log if and only
      if each handler whose topic lists are all empty is shadowed by an unfiltered one. */
  lemma BuiltFilterExact(f: LogFilter, dss: seq<DataSource>, receipt: bool)
    requires BuiltFrom(f, dss)
    ensures ExactFor(f, dss, receipt) <==> Shadowed(dss, receipt)
  {
    if Shadowed(dss, receipt) {
      forall log: Log | |log.topics| > 0
        ensures (if receipt then f.RequiresReceipt(log.topics[0], Some(log.address), log.topics) else f.Matches(log))
                <==> SomeHandles(dss, log, receipt)
      {
        BuiltFilterComplete(f, dss, log);
        BuiltFilterExactAt(f, dss, log, receipt);
      }
    }
    if ExactFor(f, dss, receipt) {
      forall d, h, a: Address | d in dss && h in d.events && h.Degenerate() && d.ListensTo(a) && (receipt ==> h.receipt)
        ensures exists d', h' :: d' in dss && h' in d'.events && h'.Unfiltered() && h'.topic0 == h.topic0 &&
                                 d'.ListensTo(a) && (receipt ==> h'.receipt)
      {
        ExactNeedsShadow(f, dss, d, h, a, receipt);
      }
    }
  }

  /** The bare log with only a signature separates a degenerate handler from its key. */
  lemma ExactNeedsShadow(f: LogFilter, dss: seq<DataSource>, d: DataSource, h: EventHandler, a: Address, receipt: bool)
    requires BuiltFrom(f, dss) && ExactFor(f, dss, receipt)
    requires d in dss && h in d.events && h.Degenerate() && d.ListensTo(a) && (receipt ==> h.receipt)
    ensures exists d', h' :: d' in dss && h' in d'.events && h'.Unfiltered() && h'.topic0 == h.topic0 &&
                             d'.ListensTo(a) && (receipt ==> h'.receipt)
  {
    var log := Log(0, a, [h.topic0], 0, 0);
    var k := KeyOf(d, h);
    assert Wants(dss, k, false) && (receipt ==> Wants(dss, k, true));
    assert f.Has(k) && (receipt ==> f.Flag(k)) && k.Accepts(log);
    MatchesByKey(f, log);
    assert SomeHandles(dss, log, receipt);
    var d', h' :| d' in dss && Handles(d', h', log) && (receipt ==> h'.receipt);
    assert h'.Unfiltered();
  }
}
