/** Breaking a log filter into `eth_getLogs` requests: one per wildcard event, one per
    topic-filtered event, and a greedy vertex cover of the contract/event graph. */
module GetLogs {
  import opened Types
  import opened LogFilters

  // EthGetLogsFilter
  datatype Request = Request(contracts: seq<Address>, signatures: seq<Hash>, topic1: TopicList,
                             topic2: TopicList, topic3: TopicList)
  {
    /** The answer of a node to the request (the `eth_getLogs` section of EIP-1474): an empty
        list means anything, and a set of topics constrains its own position only. */
    predicate Accepts(log: Log) {
      && (contracts == [] || log.address in contracts)
      && (signatures == [] || (|log.topics| > 0 && log.topics[0] in signatures))
      && NodeAllows(topic1, log.topics, 1)
      && NodeAllows(topic2, log.topics, 2)
      && NodeAllows(topic3, log.topics, 3)
    }

    predicate Covers(p: (Address, Hash)) {
      p.0 in contracts && p.1 in signatures
    }

    // The two assertions of `push_filter`.
    predicate Sane() {
      contracts != [] && signatures != [] && (|contracts| == 1 || |signatures| == 1)
    }

    predicate TopicFree() {
      topic1.AnyTopic? && topic2.AnyTopic? && topic3.AnyTopic?
    }
  }

  predicate NodeAllows(list: TopicList, topics: seq<Hash>, i: nat) {
    EmptyList(list) || Allows(list, topics, i)
  }

  function FromContract(a: Address): Request {
    Request([a], [], AnyTopic, AnyTopic, AnyTopic)
  }

  function FromEvent(s: Hash): Request {
    Request([], [s], AnyTopic, AnyTopic, AnyTopic)
  }

  function FromEventWithTopics(e: SigTopics): Request {
    Request(if e.address.Some? then [e.address.value] else [], [e.signature], e.topic1, e.topic2, e.topic3)
  }

  // ---------- the contract/event graph ----------

  datatype Node = Contract(address: Address) | Event(signature: Hash)

  type Edges = set<(Address, Hash)>

  function Neighbors(g: Edges, v: Node): set<Node> {
    match v
    case Contract(a) => set p | p in g && p.0 == a :: Event(p.1)
    case Event(s) => set p | p in g && p.1 == s :: Contract(p.0)
  }

  function Nodes(g: Edges): set<Node> {
    (set p | p in g :: Contract(p.0)) + (set p | p in g :: Event(p.1))
  }

  predicate Touches(p: (Address, Hash), v: Node) {
    v == Contract(p.0) || v == Event(p.1)
  }

  function Without(g: Edges, v: Node): Edges {
    set p | p in g && !Touches(p, v)
  }

  predicate MaxDegree(g: Edges, v: Node) {
    v in Nodes(g) && forall u :: u in Nodes(g) ==> |Neighbors(g, u)| <= |Neighbors(g, v)|
  }

  lemma {:induction false} MaxDegreeAmong(g: Edges, nodes: set<Node>) returns (v: Node)
    requires nodes != {}
    ensures v in nodes && forall u :: u in nodes ==> |Neighbors(g, u)| <= |Neighbors(g, v)|
    decreases nodes
  {
    v :| v in nodes;
    var rest := nodes - {v};
    if rest != {} {
      var w := MaxDegreeAmong(g, rest);
      assert nodes == rest + {v};
      if |Neighbors(g, v)| < |Neighbors(g, w)| {
        v := w;
      }
    }
  }

  ghost function EdgesAt(g: Edges, v: Node): Edges {
    set p | p in g && (v == Contract(p.0) || v == Event(p.1))
  }

  /** No vertex at all has more edges. */
  ghost predicate Busiest(g: Edges, v: Node) {
    EdgesAt(g, v) != {} && forall u: Node :: |EdgesAt(g, u)| <= |EdgesAt(g, v)|
  }

  lemma OneMoreEdge(g: Edges, p: (Address, Hash), v: Node)
    requires p !in g && Touches(p, v)
    ensures var other := if v.Contract? then Event(p.1) else Contract(p.0);
            other !in Neighbors(g, v) && Neighbors(g + {p}, v) == Neighbors(g, v) + {other}
    ensures EdgesAt(g + {p}, v) == EdgesAt(g, v) + {p}
  {
  }

  lemma {:induction false} DegreeIsEdges(g: Edges, v: Node)
    ensures |Neighbors(g, v)| == |EdgesAt(g, v)|
    decreases g
  {
    if EdgesAt(g, v) == {} {
      assert Neighbors(g, v) == {};
    } else {
      var p :| p in EdgesAt(g, v);
      DegreeIsEdges(g - {p}, v);
      OneMoreEdge(g - {p}, p, v);
      assert g == g - {p} + {p};
    }
  }

  lemma MaxDegreeIsBusiest(g: Edges, v: Node)
    requires MaxDegree(g, v)
    ensures Busiest(g, v)
  {
    DegreeIsEdges(g, v);
    forall u: Node
      ensures |EdgesAt(g, u)| <= |EdgesAt(g, v)|
    {
      DegreeIsEdges(g, u);
      if u !in Nodes(g) {
        assert EdgesAt(g, u) == {};
      }
    }
    var p :| p in g && (v == Contract(p.0) || v == Event(p.1));
    assert p in EdgesAt(g, v);
  }

  /** `picks` removes a vertex of maximal degree again and again until no edge is left. */
  ghost predicate Greedy(g: Edges, picks: seq<Node>) {
    if g == {} then picks == []
    else picks != [] && Busiest(g, picks[0]) && Greedy(Without(g, picks[0]), picks[1..])
  }

  lemma {:induction false} GreedySnoc(g: Edges, picks: seq<Node>, v: Node)
    requires Busiest(Remaining(g, picks), v) && GreedySoFar(g, picks)
    ensures GreedySoFar(g, picks + [v]) && Remaining(g, picks + [v]) == Without(Remaining(g, picks), v)
  {
    if picks == [] {
      assert (picks + [v])[1..] == [];
    } else {
      assert (picks + [v])[1..] == picks[1..] + [v];
      GreedySnoc(Without(g, picks[0]), picks[1..], v);
    }
  }

  ghost function Remaining(g: Edges, picks: seq<Node>): Edges {
    if picks == [] then g else Remaining(Without(g, picks[0]), picks[1..])
  }

  ghost predicate GreedySoFar(g: Edges, picks: seq<Node>) {
    picks == [] || (Busiest(g, picks[0]) && GreedySoFar(Without(g, picks[0]), picks[1..]))
  }

  lemma {:induction false} GreedyDone(g: Edges, picks: seq<Node>)
    requires GreedySoFar(g, picks) && Remaining(g, picks) == {}
    ensures Greedy(g, picks)
  {
    if picks != [] {
      assert g != {};
      GreedyDone(Without(g, picks[0]), picks[1..]);
    }
  }

  /** The picked vertices are a vertex cover. */
  lemma {:induction false} GreedyIsVertexCover(g: Edges, picks: seq<Node>)
    requires Greedy(g, picks)
    ensures forall p :: p in g ==> exists v :: v in picks && Touches(p, v)
  {
    if g != {} {
      GreedyIsVertexCover(Without(g, picks[0]), picks[1..]);
      forall p | p in g
        ensures exists v :: v in picks && Touches(p, v)
      {
        if Touches(p, picks[0]) {
          assert picks[0] in picks;
        } else {
          assert p in Without(g, picks[0]);
          var v :| v in picks[1..] && Touches(p, v);
          assert v in picks;
        }
      }
    }
  }

  // ---------- requests for one vertex ----------

  /** `reqs` covers each pair of `pairs` exactly once and no other pair, within the cap. */
  ghost predicate PartitionsInto(pairs: Edges, reqs: seq<Request>, cap: nat) {
    && (forall i :: 0 <= i < |reqs| ==>
          && 1 <= |reqs[i].contracts| <= cap && 1 <= |reqs[i].signatures|
          && (|reqs[i].contracts| == 1 || |reqs[i].signatures| == 1)
          && reqs[i].topic1 == AnyTopic && reqs[i].topic2 == AnyTopic && reqs[i].topic3 == AnyTopic)
    && (forall i, p :: 0 <= i < |reqs| && reqs[i].Covers(p) ==> p in pairs)
    && (forall p :: p in pairs ==> exists i :: 0 <= i < |reqs| && reqs[i].Covers(p))
    && (forall i, j, p :: 0 <= i < j < |reqs| && reqs[i].Covers(p) ==> !reqs[j].Covers(p))
  }

  // The number of contracts a request may hold: a single-contract request always fits.
  function Cap(cap: nat): nat {
    if cap == 0 then 1 else cap
  }

  function PairOf(v: Node, n: Node): (Address, Hash) {
    if v.Contract? && n.Event? then (v.address, n.signature)
    else if v.Event? && n.Contract? then (n.address, v.signature)
    else (Address(0), 0)
  }

  function PairsAt(v: Node, ns: set<Node>): Edges {
    set n | n in ns :: PairOf(v, n)
  }

  lemma PartitionSnoc(pairs: Edges, reqs: seq<Request>, cap: nat, r: Request, more: Edges)
    requires PartitionsInto(pairs, reqs, cap) && pairs !! more
    requires r.Sane() && r.TopicFree() && |r.contracts| <= cap
    requires forall p :: r.Covers(p) <==> p in more
    ensures PartitionsInto(pairs + more, reqs + [r], cap)
  {
    var all := reqs + [r];
    forall p | p in pairs + more
      ensures exists i :: 0 <= i < |all| && all[i].Covers(p)
    {
      if p in pairs {
        var i :| 0 <= i < |reqs| && reqs[i].Covers(p);
        assert all[i].Covers(p);
      } else {
        assert all[|reqs|].Covers(p);
      }
    }
  }

  lemma PartitionConcat(a: Edges, xs: seq<Request>, b: Edges, ys: seq<Request>, cap: nat)
    requires PartitionsInto(a, xs, cap) && PartitionsInto(b, ys, cap) && a !! b
    ensures PartitionsInto(a + b, xs + ys, cap)
  {
    var all := xs + ys;
    forall p | p in a + b
      ensures exists i :: 0 <= i < |all| && all[i].Covers(p)
    {
      if p in a {
        var i :| 0 <= i < |xs| && xs[i].Covers(p);
        assert all[i].Covers(p);
      } else {
        var i :| 0 <= i < |ys| && ys[i].Covers(p);
        assert all[|xs| + i].Covers(p);
      }
    }
    forall i, j, p | 0 <= i < j < |all| && all[i].Covers(p)
      ensures !all[j].Covers(p)
    {
      if j < |xs| {
        assert !xs[j].Covers(p);
      } else if i < |xs| {
        assert p in a && all[j] == ys[j - |xs|];
      } else {
        assert ys[i - |xs|].Covers(p) && !ys[j - |xs|].Covers(p);
      }
    }
  }

  /** The inner loop of `eth_get_logs_filters`; `None` is a failed assertion. The neighbours
      come in any order. */
  method VertexRequests(v: Node, neighbors: set<Node>, cap: nat) returns (r: Option<seq<Request>>)
    requires neighbors != {}
    requires forall n :: n in neighbors ==> n.Contract? != v.Contract?
    ensures r.Some? ==> PartitionsInto(PairsAt(v, neighbors), r.value, Cap(cap))
    ensures r.None? <==> cap == 0 && v.Event?
  {
    var filter := match v
      case Contract(a) => FromContract(a)
      case Event(s) => FromEvent(s);
    var pushed: seq<Request> := [];
    var todo := neighbors;
    ghost var before: set<Node>, open: set<Node> := {}, {};
    while todo != {}
      invariant todo <= neighbors && before !! open && before + open == neighbors - todo
      invariant todo != neighbors ==> open != {}
      invariant cap == 0 && v.Event? ==> todo == neighbors
      invariant PartitionsInto(PairsAt(v, before), pushed, Cap(cap))
      invariant filter.TopicFree()
      invariant Holds(v, open, filter)
      invariant if v.Contract? then before == {} else |filter.contracts| <= cap
      decreases todo
    {
      var n :| n in todo;
      todo := todo - {n};
      match n
      case Contract(a) =>
        if |filter.contracts| == cap {
          if !filter.Sane() {
            return None;
          }
          FilterPairs(v, open, filter);
          PairsDisjoint(v, before, open);
          PartitionSnoc(PairsAt(v, before), pushed, Cap(cap), filter, PairsAt(v, open));
          PairsUnion(v, before, open);
          pushed := pushed + [filter];
          filter := FromEvent(filter.signatures[0]);
          before, open := before + open, {};
        }
        filter := filter.(contracts := filter.contracts + [a]);
        open := open + {n};
      case Event(s) =>
        filter := filter.(signatures := filter.signatures + [s]);
        open := open + {n};
    }
    FilterPairs(v, open, filter);
    PairsDisjoint(v, before, open);
    PartitionSnoc(PairsAt(v, before), pushed, Cap(cap), filter, PairsAt(v, open));
    PairsUnion(v, before, open);
    assert before + open == neighbors;
    if !filter.Sane() {
      return None;
    }
    r := Some(pushed + [filter]);
  }

  /** `filter` joins `v` with the neighbours in `open`. */
  ghost predicate Holds(v: Node, open: set<Node>, filter: Request) {
    match v
    case Contract(a) => filter.contracts == [a] && forall s :: s in filter.signatures <==> Event(s) in open
    case Event(s) => filter.signatures == [s] && forall a :: a in filter.contracts <==> Contract(a) in open
  }

  lemma FilterPairs(v: Node, open: set<Node>, filter: Request)
    requires forall n :: n in open ==> n.Contract? != v.Contract?
    requires Holds(v, open, filter)
    ensures forall p :: filter.Covers(p) <==> p in PairsAt(v, open)
    ensures open != {} ==> filter.Sane()
  {
    forall p
      ensures filter.Covers(p) <==> p in PairsAt(v, open)
    {
      var n := if v.Contract? then Event(p.1) else Contract(p.0);
      if filter.Covers(p) {
        assert n in open && PairOf(v, n) == p;
      }
    }
    if open != {} {
      var n :| n in open;
      assert PairOf(v, n) in PairsAt(v, open);
      assert filter.Covers(PairOf(v, n));
    }
  }

  lemma PairsDisjoint(v: Node, x: set<Node>, y: set<Node>)
    requires x !! y && forall n :: n in x + y ==> n.Contract? != v.Contract?
    ensures PairsAt(v, x) !! PairsAt(v, y)
  {
    forall m, n | m in x && n in y
      ensures PairOf(v, m) != PairOf(v, n)
    {
      assert m != n && m in x + y && n in x + y;
    }
  }

  lemma PairsUnion(v: Node, x: set<Node>, y: set<Node>)
    ensures PairsAt(v, x) + PairsAt(v, y) == PairsAt(v, x + y)
  {
    forall n | n in x + y
      ensures PairOf(v, n) in PairsAt(v, x) + PairsAt(v, y)
    {
    }
  }

  // ---------- the whole filter ----------

  /** `reqs` is a listing of `wanted`, each request once, in some order. */
  ghost predicate Lists(reqs: seq<Request>, wanted: set<Request>) {
    |reqs| == |wanted| && forall r :: r in reqs <==> r in wanted
  }

  function EventRequests(events: set<Hash>): set<Request> {
    set s | s in events :: FromEvent(s)
  }

  function TopicRequests(entries: set<SigTopics>): set<Request> {
    set e | e in entries :: FromEventWithTopics(e)
  }

  method ListRequests(wanted: set<Request>) returns (reqs: seq<Request>)
    ensures Lists(reqs, wanted)
  {
    reqs := [];
    var todo, done := wanted, {};
    while todo != {}
      invariant todo + done == wanted && todo !! done
      invariant Lists(reqs, done)
      decreases todo
    {
      var r :| r in todo;
      reqs := reqs + [r];
      todo, done := todo - {r}, done + {r};
    }
    assert done == wanted;
  }

  /** One request per wildcard event, one per topic-filtered event, and a partition of the
      graph's edges. */
  ghost predicate Decomposes(f: LogFilter, wild: seq<Request>, topics: seq<Request>, edges: seq<Request>, cap: nat) {
    && Lists(wild, EventRequests(f.wildcards.Keys))
    && Lists(topics, TopicRequests(f.topicEvents.Keys))
    && PartitionsInto(f.graph.Keys, edges, cap)
  }

  /** `eth_get_logs_filters`; `None` is a failed assertion, which needs a cap of zero and an
      event among the vertices of maximal degree that were picked. */
  method EthGetLogsFilters(f: LogFilter, cap: nat)
    returns (r: Option<seq<Request>>, ghost wild: seq<Request>, ghost topics: seq<Request>,
             ghost edges: seq<Request>, ghost picks: seq<Node>)
    ensures r.Some? ==> r.value == wild + topics + edges && Decomposes(f, wild, topics, edges, Cap(cap))
    ensures cap >= 1 ==> r.Some?
    ensures r.Some? ==> Greedy(f.graph.Keys, picks)
    ensures GreedySoFar(f.graph.Keys, picks)
    ensures r.None? <==> cap == 0 && exists v :: v in picks && v.Event?
  {
    var w := ListRequests(EventRequests(f.wildcards.Keys));
    var t := ListRequests(TopicRequests(f.topicEvents.Keys));
    var cover;
    cover, picks := CoverEdges(f.graph.Keys, cap);
    wild, topics, edges := w, t, if cover.Some? then cover.value else [];
    r := if cover.Some? then Some(w + t + cover.value) else None;
  }

  /** Any vertex of maximal degree, and the requests for its edges. */
  method NextRequests(g: Edges, cap: nat) returns (v: Node, r: Option<seq<Request>>)
    requires g != {}
    ensures Busiest(g, v) && Without(g, v) < g
    ensures r.Some? ==> PartitionsInto(g - Without(g, v), r.value, Cap(cap))
    ensures r.None? <==> cap == 0 && v.Event?
  {
    HasMaxDegree(g);
    v :| v in Nodes(g) && MaxDegree(g, v);
    VertexEdges(g, v);
    MaxDegreeIsBusiest(g, v);
    r := VertexRequests(v, Neighbors(g, v), cap);
  }

  /** The greedy loop over the graph. */
  method CoverEdges(g0: Edges, cap: nat) returns (r: Option<seq<Request>>, ghost picks: seq<Node>)
    ensures r.Some? ==> PartitionsInto(g0, r.value, Cap(cap))
    ensures cap >= 1 ==> r.Some?
    ensures r.Some? ==> Greedy(g0, picks)
    ensures GreedySoFar(g0, picks)
    ensures r.None? <==> cap == 0 && exists v :: v in picks && v.Event?
  {
    picks := [];
    var pushed: seq<Request> := [];
    var g := g0;
    while g != {}
      invariant g <= g0
      invariant g == Remaining(g0, picks) && GreedySoFar(g0, picks)
      invariant PartitionsInto(g0 - g, pushed, Cap(cap))
      invariant cap == 0 ==> forall v :: v in picks ==> v.Contract?
      decreases g
    {
      var v, some := NextRequests(g, cap);
      GreedySnoc(g0, picks, v);
      picks := picks + [v];
      if some.None? {
        assert v in picks;
        return None, picks;
      }
      PartitionConcat(g0 - g, pushed, g - Without(g, v), some.value, Cap(cap));
      assert (g0 - g) + (g - Without(g, v)) == g0 - Without(g, v);
      pushed := pushed + some.value;
      g := Without(g, v);
    }
    GreedyDone(g0, picks);
    assert g0 - g == g0;
    r := Some(pushed);
  }

  lemma HasMaxDegree(g: Edges)
    requires g != {}
    ensures exists v :: v in Nodes(g) && MaxDegree(g, v)
  {
    var p :| p in g;
    assert Contract(p.0) in Nodes(g);
    var v := MaxDegreeAmong(g, Nodes(g));
    assert MaxDegree(g, v);
  }

  lemma VertexEdges(g: Edges, v: Node)
    requires v in Nodes(g)
    ensures Neighbors(g, v) != {} && Without(g, v) < g
    ensures forall n :: n in Neighbors(g, v) ==> n.Contract? != v.Contract?
    ensures PairsAt(v, Neighbors(g, v)) == g - Without(g, v)
  {
    var p :| p in g && Touches(p, v);
    assert p !in Without(g, v);
    match v {
      case Contract(a) => assert p.0 == a && Event(p.1) in Neighbors(g, v);
      case Event(e) => assert p.1 == e && Contract(p.0) in Neighbors(g, v);
    }
    forall q | q in g - Without(g, v)
      ensures q in PairsAt(v, Neighbors(g, v))
    {
      var n := if v.Contract? then Event(q.1) else Contract(q.0);
      assert n in Neighbors(g, v) && PairOf(v, n) == q;
    }
  }

  // ---------- meaning ----------

  ghost predicate SomeAccepts(reqs: seq<Request>, log: Log) {
    exists r :: r in reqs && r.Accepts(log)
  }

  /** What a node returns for a key of the filter. */
  predicate NodeAccepts(k: Key, log: Log) {
    match k
    case Filtered(e) => FromEventWithTopics(e).Accepts(log)
    case _ => k.Accepts(log)
  }

  /** The request of a topic-filtered event means what the filter means by it, on every log,
      if and only if none of its topic lists is empty. */
  lemma EntryRequestExact(e: SigTopics)
    ensures (forall log: Log :: NodeAccepts(Filtered(e), log) <==> Filtered(e).Accepts(log)) <==> !e.HasEmptyList()
  {
    if e.HasEmptyList() {
      var some := (t: TopicList) => if t.OneOf? && t.allowed != [] then t.allowed[0] else 0;
      var a := if e.address.Some? then e.address.value else Address(0);
      var log := Log(0, a, [e.signature, some(e.topic1), some(e.topic2), some(e.topic3)], 0, 0);
      assert NodeAccepts(Filtered(e), log) && !Filtered(e).Accepts(log);
    }
  }

  /** The requests together return exactly the logs that the filter's keys stand for. */
  lemma DecompositionMeaning(f: LogFilter, wild: seq<Request>, topics: seq<Request>, edges: seq<Request>, cap: nat, log: Log)
    requires Decomposes(f, wild, topics, edges, cap)
    ensures SomeAccepts(wild + topics + edges, log) <==> exists k: Key :: f.Has(k) && NodeAccepts(k, log)
  {
    WildMeaning(f, wild, log);
    TopicMeaning(f, topics, log);
    EdgeMeaning(f.graph.Keys, edges, cap, log);
    var all := wild + topics + edges;
    assert forall r :: r in all <==> r in wild || r in topics || r in edges;
    if SomeAccepts(edges, log) {
      assert f.Has(Edge(log.address, log.topics[0])) && NodeAccepts(Edge(log.address, log.topics[0]), log);
    }
    if SomeAccepts(wild, log) {
      assert f.Has(Wildcard(log.topics[0])) && NodeAccepts(Wildcard(log.topics[0]), log);
    }
    if SomeAccepts(topics, log) {
      var e :| e in f.topicEvents && NodeAccepts(Filtered(e), log);
      assert f.Has(Filtered(e));
    }
    forall k: Key | f.Has(k) && NodeAccepts(k, log)
      ensures SomeAccepts(all, log)
    {
    }
  }

  lemma WildMeaning(f: LogFilter, wild: seq<Request>, log: Log)
    requires Lists(wild, EventRequests(f.wildcards.Keys))
    ensures SomeAccepts(wild, log) <==> |log.topics| > 0 && log.topics[0] in f.wildcards
  {
    if |log.topics| > 0 && log.topics[0] in f.wildcards {
      var r := FromEvent(log.topics[0]);
      assert r in EventRequests(f.wildcards.Keys);
      assert r in wild && r.Accepts(log);
    }
  }

  lemma TopicMeaning(f: LogFilter, topics: seq<Request>, log: Log)
    requires Lists(topics, TopicRequests(f.topicEvents.Keys))
    ensures SomeAccepts(topics, log) <==> exists e :: e in f.topicEvents && NodeAccepts(Filtered(e), log)
  {
    if r :| r in topics && r.Accepts(log) {
      assert r in TopicRequests(f.topicEvents.Keys);
      var e :| e in f.topicEvents.Keys && r == FromEventWithTopics(e);
      assert NodeAccepts(Filtered(e), log);
    }
    forall e | e in f.topicEvents && NodeAccepts(Filtered(e), log)
      ensures SomeAccepts(topics, log)
    {
      assert FromEventWithTopics(e) in TopicRequests(f.topicEvents.Keys);
    }
  }

  lemma EdgeMeaning(g: Edges, edges: seq<Request>, cap: nat, log: Log)
    requires PartitionsInto(g, edges, cap)
    ensures SomeAccepts(edges, log) <==> |log.topics| > 0 && (log.address, log.topics[0]) in g
  {
    if SomeAccepts(edges, log) {
      var i :| 0 <= i < |edges| && edges[i].Accepts(log);
      assert edges[i].Sane();
      assert edges[i].Covers((log.address, log.topics[0]));
    }
    if |log.topics| > 0 && (log.address, log.topics[0]) in g {
      var i :| 0 <= i < |edges| && edges[i].Covers((log.address, log.topics[0]));
      assert edges[i].TopicFree();
      assert edges[i] in edges && edges[i].Accepts(log);
    }
  }

  /** An entry with an empty topic list lets the log through at the node. */
  ghost predicate LetThrough(f: LogFilter, log: Log) {
    exists e :: e in f.topicEvents && e.HasEmptyList() && NodeAccepts(Filtered(e), log)
  }

  /** Decomposing preserves meaning: a log is returned if and only if the filter matches it or an
      entry with an empty topic list lets it through. */
  lemma DecompositionExact(f: LogFilter, wild: seq<Request>, topics: seq<Request>, edges: seq<Request>, cap: nat, log: Log)
    requires Decomposes(f, wild, topics, edges, cap)
    ensures SomeAccepts(wild + topics + edges, log) <==> f.Matches(log) || LetThrough(f, log)
  {
    DecompositionMeaning(f, wild, topics, edges, cap, log);
    KeysLetThrough(f, log);
  }

  lemma KeysLetThrough(f: LogFilter, log: Log)
    ensures (exists k: Key :: f.Has(k) && NodeAccepts(k, log)) <==> f.Matches(log) || LetThrough(f, log)
  {
    MatchesByKey(f, log);
    forall k: Key
      ensures k.Accepts(log) ==> NodeAccepts(k, log)
      ensures NodeAccepts(k, log) ==> k.Accepts(log) || (k.Filtered? && k.entry.HasEmptyList())
    {
    }
    if e :| e in f.topicEvents && e.HasEmptyList() && NodeAccepts(Filtered(e), log) {
      assert f.Has(Filtered(e));
    }
  }
}
