/** The triggers of one block as the two paths list them, and the handler runs that come out in
    order: parsing a block in memory, and scanning a range that contains it. */
module TriggerPaths {
  import opened Types
  import opened TriggerFilters
  import opened Dispatch
  import opened TriggerOrder
  import opened TriggerSieve
  import L = LogFilters
  import C = CallFilters
  import B = BlockFilters
  import LogScan
  import CallScan

  // ---------- lists of triggers ----------

  function CallsOf(traces: seq<Trace>): seq<Call> {
    if traces == [] then []
    else
      var maybe := CallScan.TryFromTrace(traces[0]);
      (if maybe.Some? then [maybe.value] else []) + CallsOf(traces[1..])
  }

  lemma {:induction false} CallsOfIn(traces: seq<Trace>, c: Call)
    ensures c in CallsOf(traces) <==> exists t :: t in traces && CallScan.TryFromTrace(t) == Some(c)
  {
    if traces != [] {
      CallsOfIn(traces[1..], c);
      if t :| t in traces && CallScan.TryFromTrace(t) == Some(c) && t != traces[0] {
        assert t in traces[1..];
      }
      assert traces[0] in traces;
    }
  }

  function LogTriggers(logs: seq<Log>, keep: Log -> bool): seq<Trigger> {
    if logs == [] then []
    else (if keep(logs[0]) then [LogTrigger(logs[0])] else []) + LogTriggers(logs[1..], keep)
  }

  function CallTriggers(calls: seq<Call>, keep: Call -> bool): seq<Trigger> {
    if calls == [] then []
    else (if keep(calls[0]) then [CallTrigger(calls[0])] else []) + CallTriggers(calls[1..], keep)
  }

  /** The call-filtered block triggers of a list of calls. */
  function WatchTriggers(number: int, calls: seq<Call>, keep: Call -> bool): seq<Trigger> {
    if calls == [] then []
    else (if keep(calls[0]) then [BlockTrigger(number, WithCallTo(calls[0].to))] else []) +
         WatchTriggers(number, calls[1..], keep)
  }

  /** The other block triggers, block start first. */
  function KindTriggers(number: int, kinds: set<Kind>): seq<Trigger> {
    (if Start in kinds then [BlockTrigger(number, Start)] else []) +
    (if End in kinds then [BlockTrigger(number, End)] else [])
  }

  lemma {:induction false} LogTriggersIn(logs: seq<Log>, keep: Log -> bool)
    ensures forall t :: t in LogTriggers(logs, keep) <==> t.LogTrigger? && t.log in logs && keep(t.log)
  {
    if logs != [] {
      LogTriggersIn(logs[1..], keep);
    }
  }

  lemma {:induction false} CallTriggersIn(calls: seq<Call>, keep: Call -> bool)
    ensures forall t :: t in CallTriggers(calls, keep) <==> t.CallTrigger? && t.call in calls && keep(t.call)
  {
    if calls != [] {
      CallTriggersIn(calls[1..], keep);
    }
  }

  lemma {:induction false} WatchTriggersIn(number: int, calls: seq<Call>, keep: Call -> bool, t: Trigger)
    ensures t in WatchTriggers(number, calls, keep) <==>
            t.BlockTrigger? && t.number == number && t.kind.WithCallTo? && exists c :: c in calls && keep(c) && c.to == t.kind.callee
  {
    if calls != [] {
      WatchTriggersIn(number, calls[1..], keep, t);
      assert calls[0] in calls;
      if c :| c in calls && keep(c) && BlockTrigger(number, WithCallTo(c.to)) == t && c != calls[0] {
        assert c in calls[1..];
      }
    }
  }

  // ---- leaving out is a matter of the trigger

  lemma {:induction false} OnlyLogs(logs: seq<Log>, p: Log -> bool, q: Trigger -> bool, r: Log -> bool)
    requires forall l :: l in logs ==> (r(l) <==> p(l) && q(LogTrigger(l)))
    ensures Only(LogTriggers(logs, p), q) == LogTriggers(logs, r)
  {
    if logs != [] {
      assert logs[0] in logs;
      OnlyLogs(logs[1..], p, q, r);
      OnlyFront(if p(logs[0]) then [LogTrigger(logs[0])] else [], LogTriggers(logs[1..], p), q);
    }
  }

  lemma {:induction false} OnlyCalls(calls: seq<Call>, p: Call -> bool, q: Trigger -> bool, r: Call -> bool)
    requires forall c :: c in calls ==> (r(c) <==> p(c) && q(CallTrigger(c)))
    ensures Only(CallTriggers(calls, p), q) == CallTriggers(calls, r)
  {
    if calls != [] {
      assert calls[0] in calls;
      OnlyCalls(calls[1..], p, q, r);
      OnlyFront(if p(calls[0]) then [CallTrigger(calls[0])] else [], CallTriggers(calls[1..], p), q);
    }
  }

  lemma {:induction false} OnlyWatches(number: int, calls: seq<Call>, p: Call -> bool, q: Trigger -> bool, r: Call -> bool)
    requires forall c :: c in calls ==> (r(c) <==> p(c) && q(BlockTrigger(number, WithCallTo(c.to))))
    ensures Only(WatchTriggers(number, calls, p), q) == WatchTriggers(number, calls, r)
  {
    if calls != [] {
      assert calls[0] in calls;
      OnlyWatches(number, calls[1..], p, q, r);
      OnlyFront(if p(calls[0]) then [BlockTrigger(number, WithCallTo(calls[0].to))] else [],
                WatchTriggers(number, calls[1..], p), q);
    }
  }

  lemma OnlyFront(first: seq<Trigger>, rest: seq<Trigger>, q: Trigger -> bool)
    requires |first| <= 1
    ensures Only(first + rest, q) == (if |first| == 1 && q(first[0]) then first else []) + Only(rest, q)
  {
    if |first| == 0 {
      assert first + rest == rest;
    } else {
      assert (first + rest)[0] == first[0] && (first + rest)[1..] == rest;
    }
  }

  // ---------- what each path lists ----------

  function EveryLog(): Log -> bool {
    l => true
  }

  function EveryCall(): Call -> bool {
    c => true
  }

  function Succeeded(): Call -> bool {
    (c: Call) => c.txOk
  }

  function Matching(f: C.CallFilter): Call -> bool {
    c => f.Matches(c)
  }

  function MatchingSucceeded(f: C.CallFilter): Call -> bool {
    c => f.Matches(c) && c.txOk
  }

  function Fetched(f: C.CallFilter, to: int): Call -> bool {
    c => CallScan.Fetches(f, to, c)
  }

  function FetchedSucceeded(f: C.CallFilter, to: int): Call -> bool {
    c => CallScan.Fetches(f, to, c) && c.txOk
  }

  ghost function FetchedLogs(f: L.LogFilter): Log -> bool {
    l => LogScan.Fetches(f, l)
  }

  /** Every trigger there could be, in the order of the block. */
  function AllList(b: Block): seq<Trigger> {
    var calls := CallsOf(b.traces);
    LogTriggers(b.logs, EveryLog()) + CallTriggers(calls, Succeeded()) +
    (WatchTriggers(b.number, calls, EveryCall()) + KindTriggers(b.number, {Start, End}))
  }

  /** `parse_log_triggers`, `parse_call_triggers` and `parse_block_triggers`. */
  function ParsedList(f: Filter, w: C.CallFilter, b: Block): seq<Trigger> {
    var calls := if !f.call.IsEmpty() || f.block.contracts != {} then CallsOf(b.traces) else [];
    (if f.log.IsEmpty() then [] else LogTriggers(b.logs, EveryLog())) +
    (if f.call.IsEmpty() then [] else CallTriggers(calls, MatchingSucceeded(f.call))) +
    (if f.block.IsEmpty() then []
     else WatchTriggers(b.number, calls, Matching(w)) + KindTriggers(b.number, ScheduledKinds(b.number, f.block)))
  }

  /** What a range scan ending at `to` brings back of the block, without calls of failed
      transactions, if call-filtered block triggers arrive before scheduled ones. */
  ghost function ScannedList(f: Filter, w: C.CallFilter, b: Block, to: int): seq<Trigger> {
    LogTriggers(b.logs, FetchedLogs(f.log)) + CallTriggers(CallsOf(b.traces), FetchedSucceeded(f.call, to)) +
    ScannedBlocks(f, w, b, to, true)
  }

  ghost function ScannedBlocks(f: Filter, w: C.CallFilter, b: Block, to: int, watchFirst: bool): seq<Trigger> {
    var watched, kinds := WatchTriggers(b.number, CallsOf(b.traces), Fetched(w, to)),
                          KindTriggers(b.number, ScheduledKinds(b.number, f.block));
    if watchFirst then watched + kinds else kinds + watched
  }

  /** What parsing keeps. */
  predicate ParseKeep(f: Filter, w: C.CallFilter, t: Trigger) {
    match t
    case LogTrigger(_) => !f.log.IsEmpty()
    case CallTrigger(c) => f.call.Matches(c)
    case BlockTrigger(_, WithCallTo(a)) => a in w.contracts
    case BlockTrigger(n, kind) => kind in ScheduledKinds(n, f.block)
  }

  function ParseKeeps(f: Filter, w: C.CallFilter): Trigger -> bool {
    t => ParseKeep(f, w, t)
  }

  /** What a scan ending at `to` keeps of that. */
  ghost function ScanKeeps(f: Filter, w: C.CallFilter, to: int): Trigger -> bool {
    t => !LeftOut(f, w, to, t)
  }

  /** Calls to the contract are fetched: it has started, or there are too many to ask for each. */
  predicate WatchStarted(w: C.CallFilter, to: int, a: Address) {
    a in w.contracts && (w.contracts[a].0 <= to || |CallScan.Started(w, to)| > 100)
  }

  lemma WatchMatches(f: B.BlockFilter, w: C.CallFilter, to: int, c: Call)
    requires WatchFilter(w, f) && |c.input| >= 4
    ensures w.Matches(c) <==> c.to in w.contracts
    ensures CallScan.Fetches(w, to, c) <==> WatchStarted(w, to, c.to)
    ensures c.to in w.contracts ==> f.contracts != {}
  {
    assert |CallScan.Started(w, to)| > 100 ==> CallScan.Started(w, to) != {};
  }

  lemma {:induction false} CallsHaveSelectors(traces: seq<Trace>)
    ensures forall c :: c in CallsOf(traces) ==> |c.input| >= 4
  {
    if traces != [] {
      CallsHaveSelectors(traces[1..]);
    }
  }

  lemma OnlyKinds(number: int, kinds: set<Kind>, q: Trigger -> bool)
    ensures Only(KindTriggers(number, kinds), q) == KindTriggers(number, set k | k in kinds && q(BlockTrigger(number, k)))
  {
    var first := if Start in kinds then [BlockTrigger(number, Start)] else [];
    var rest := if End in kinds then [BlockTrigger(number, End)] else [];
    OnlyFront(first, rest, q);
    assert rest + [] == rest;
    OnlyFront(rest, [], q);
  }

  lemma OnlyParts(x: seq<Trigger>, y: seq<Trigger>, z: seq<Trigger>, v: seq<Trigger>, q: Trigger -> bool)
    ensures Only(x + y + (z + v), q) == Only(x, q) + Only(y, q) + (Only(z, q) + Only(v, q))
  {
    OnlyConcat(x + y, z + v, q);
    OnlyConcat(x, y, q);
    OnlyConcat(z, v, q);
  }

  lemma {:induction false} NoLogs(logs: seq<Log>, p: Log -> bool)
    requires forall l :: l in logs ==> !p(l)
    ensures LogTriggers(logs, p) == []
  {
    if logs != [] {
      assert logs[0] in logs;
      NoLogs(logs[1..], p);
    }
  }

  lemma {:induction false} NoCalls(number: int, calls: seq<Call>, p: Call -> bool)
    requires forall c :: c in calls ==> !p(c)
    ensures CallTriggers(calls, p) == [] && WatchTriggers(number, calls, p) == []
  {
    if calls != [] {
      assert calls[0] in calls;
      NoCalls(number, calls[1..], p);
    }
  }

  /** Parsing leaves triggers out of what the block has. */
  lemma ParsedIsOnly(f: Filter, w: C.CallFilter, b: Block)
    requires WatchFilter(w, f.block)
    ensures ParsedList(f, w, b) == Only(AllList(b), ParseKeeps(f, w))
  {
    var calls, q := CallsOf(b.traces), ParseKeeps(f, w);
    OnlyParts(LogTriggers(b.logs, EveryLog()), CallTriggers(calls, Succeeded()),
              WatchTriggers(b.number, calls, EveryCall()), KindTriggers(b.number, {Start, End}), q);
    ParsedLogs(f, w, b);
    ParsedCalls(f, w, b);
    ParsedWatches(f, w, b);
    ParsedKinds(f, w, b);
  }

  lemma ParsedLogs(f: Filter, w: C.CallFilter, b: Block)
    ensures Only(LogTriggers(b.logs, EveryLog()), ParseKeeps(f, w)) ==
            if f.log.IsEmpty() then [] else LogTriggers(b.logs, EveryLog())
  {
    var none := (l: Log) => false;
    if f.log.IsEmpty() {
      OnlyLogs(b.logs, EveryLog(), ParseKeeps(f, w), none);
      NoLogs(b.logs, none);
    } else {
      OnlyLogs(b.logs, EveryLog(), ParseKeeps(f, w), EveryLog());
    }
  }

  lemma ParsedCalls(f: Filter, w: C.CallFilter, b: Block)
    ensures Only(CallTriggers(CallsOf(b.traces), Succeeded()), ParseKeeps(f, w)) ==
            if f.call.IsEmpty() then [] else CallTriggers(CallsOf(b.traces), MatchingSucceeded(f.call))
  {
    var calls := CallsOf(b.traces);
    OnlyCalls(calls, Succeeded(), ParseKeeps(f, w), MatchingSucceeded(f.call));
    if f.call.IsEmpty() {
      NoCalls(b.number, calls, MatchingSucceeded(f.call));
    }
  }

  lemma ParsedWatches(f: Filter, w: C.CallFilter, b: Block)
    requires WatchFilter(w, f.block)
    ensures var watched := WatchTriggers(b.number, CallsOf(b.traces), Matching(w));
            && Only(WatchTriggers(b.number, CallsOf(b.traces), EveryCall()), ParseKeeps(f, w)) == watched
            && (f.block.contracts == {} ==> watched == [])
  {
    var calls := CallsOf(b.traces);
    CallsHaveSelectors(b.traces);
    forall c | c in calls
      ensures w.Matches(c) <==> c.to in w.contracts
      ensures w.Matches(c) ==> f.block.contracts != {}
    {
      WatchMatches(f.block, w, 0, c);
    }
    OnlyWatches(b.number, calls, EveryCall(), ParseKeeps(f, w), Matching(w));
    if f.block.contracts == {} {
      NoCalls(b.number, calls, Matching(w));
    }
  }

  lemma ParsedKinds(f: Filter, w: C.CallFilter, b: Block)
    ensures Only(KindTriggers(b.number, {Start, End}), ParseKeeps(f, w)) == KindTriggers(b.number, ScheduledKinds(b.number, f.block))
    ensures f.block.IsEmpty() ==> KindTriggers(b.number, ScheduledKinds(b.number, f.block)) == []
  {
    OnlyKinds(b.number, {Start, End}, ParseKeeps(f, w));
  }

  /** Scanning leaves triggers out of what parsing lists. */
  lemma ScannedIsOnly(f: Filter, w: C.CallFilter, b: Block, to: int)
    requires WatchFilter(w, f.block)
    ensures ScannedList(f, w, b, to) == Only(ParsedList(f, w, b), ScanKeeps(f, w, to))
  {
    var all, both := AllList(b), ScanAndParse(f, w, to);
    ParsedIsOnly(f, w, b);
    OnlyTwice(all, ParseKeeps(f, w), ScanKeeps(f, w, to));
    OnlyCongruent(all, t => ParseKeeps(f, w)(t) && ScanKeeps(f, w, to)(t), both);
    AllScanned(f, w, b, to);
  }

  ghost function ScanAndParse(f: Filter, w: C.CallFilter, to: int): Trigger -> bool {
    t => ParseKeep(f, w, t) && !LeftOut(f, w, to, t)
  }

  lemma AllScanned(f: Filter, w: C.CallFilter, b: Block, to: int)
    requires WatchFilter(w, f.block)
    ensures ScannedList(f, w, b, to) == Only(AllList(b), ScanAndParse(f, w, to))
  {
    var calls, both := CallsOf(b.traces), ScanAndParse(f, w, to);
    OnlyParts(LogTriggers(b.logs, EveryLog()), CallTriggers(calls, Succeeded()),
              WatchTriggers(b.number, calls, EveryCall()), KindTriggers(b.number, {Start, End}), both);
    FetchedNotEmpty(f, to);
    OnlyLogs(b.logs, EveryLog(), both, FetchedLogs(f.log));
    OnlyCalls(calls, Succeeded(), both, FetchedSucceeded(f.call, to));
    ScannedWatches(f, w, b, to);
    ScannedKinds(f, w, b, to);
  }

  lemma ScannedKinds(f: Filter, w: C.CallFilter, b: Block, to: int)
    ensures Only(KindTriggers(b.number, {Start, End}), ScanAndParse(f, w, to)) ==
            KindTriggers(b.number, ScheduledKinds(b.number, f.block))
  {
    OnlyKinds(b.number, {Start, End}, ScanAndParse(f, w, to));
  }

  /** Nothing is fetched with an empty filter, or that the filter does not match. */
  lemma FetchedNotEmpty(f: Filter, to: int)
    ensures forall l :: LogScan.Fetches(f.log, l) ==> !f.log.IsEmpty()
    ensures forall c :: CallScan.Fetches(f.call, to, c) ==> f.call.Matches(c) && !f.call.IsEmpty()
  {
  }

  lemma ScannedWatches(f: Filter, w: C.CallFilter, b: Block, to: int)
    requires WatchFilter(w, f.block)
    ensures Only(WatchTriggers(b.number, CallsOf(b.traces), EveryCall()), ScanAndParse(f, w, to)) ==
            WatchTriggers(b.number, CallsOf(b.traces), Fetched(w, to))
  {
    var calls := CallsOf(b.traces);
    CallsHaveSelectors(b.traces);
    forall c | c in calls
      ensures Fetched(w, to)(c) <==> WatchStarted(w, to, c.to)
    {
      WatchMatches(f.block, w, to, c);
    }
    OnlyWatches(b.number, calls, EveryCall(), ScanAndParse(f, w, to), Fetched(w, to));
  }

  // ---- the lists and the sets

  lemma AllListIn(b: Block, t: Trigger)
    ensures t in AllList(b) <==> t in AllTriggers(b)
  {
    var calls := CallsOf(b.traces);
    LogTriggersIn(b.logs, EveryLog());
    CallTriggersIn(calls, Succeeded());
    WatchTriggersIn(b.number, calls, EveryCall(), t);
    forall c
      ensures c in calls <==> c in Calls(b)
    {
      CallsOfIn(b.traces, c);
    }
  }

  lemma ParsedSet(f: Filter, w: C.CallFilter, b: Block, t: Trigger)
    requires WatchFilter(w, f.block)
    ensures t in ParsedTriggers(f, w, b) <==> t in AllTriggers(b) && ParseKeep(f, w, t)
  {
    forall c | c in Calls(b)
      ensures w.Matches(c) <==> c.to in w.contracts
      ensures w.Matches(c) ==> f.block.contracts != {}
    {
      WatchMatches(f.block, w, 0, c);
    }
  }

  lemma ScannedSet(f: Filter, w: C.CallFilter, b: Block, to: int, t: Trigger)
    requires WatchFilter(w, f.block)
    ensures t in ScannedTriggers(f, w, b, to) <==> t in AllTriggers(b) && ParseKeep(f, w, t) && !LeftOut(f, w, to, t)
  {
    forall c | c in Calls(b)
      ensures CallScan.Fetches(w, to, c) <==> WatchStarted(w, to, c.to)
    {
      WatchMatches(f.block, w, to, c);
    }
    FetchedNotEmpty(f, to);
  }

  /** The lists hold exactly the triggers of the sets. */
  lemma ListsAreSets(f: Filter, w: C.CallFilter, b: Block, to: int, t: Trigger)
    requires WatchFilter(w, f.block)
    ensures t in ParsedList(f, w, b) <==> t in ParsedTriggers(f, w, b)
    ensures t in ScannedList(f, w, b, to) <==> t in ScannedTriggers(f, w, b, to)
  {
    AllListIn(b, t);
    ParsedIsOnly(f, w, b);
    AllScanned(f, w, b, to);
    OnlyIn(AllList(b), ParseKeeps(f, w));
    OnlyIn(AllList(b), ScanAndParse(f, w, to));
    ParsedSet(f, w, b, t);
    ScannedSet(f, w, b, to, t);
  }

  // ---------- sequences of handler runs ----------

  /** The runs of one trigger, data source by data source. */
  function RunsOn(dss: seq<DataSource>, t: Trigger, number: int, codec: Codec): seq<(int, Trigger, Outcome)> {
    if dss == [] then []
    else
      var i := |dss| - 1;
      var o := MatchAndDecode(dss[i], t, number, codec);
      RunsOn(dss[..i], t, number, codec) + if o == NoMatch then [] else [(i, t, o)]
  }

  function RunSequence(dss: seq<DataSource>, ts: seq<Trigger>, number: int, codec: Codec): seq<(int, Trigger, Outcome)> {
    if ts == [] then [] else RunsOn(dss, ts[0], number, codec) + RunSequence(dss, ts[1..], number, codec)
  }

  /** One trigger runs on exactly the data sources that match it, in their order, once each. */
  lemma {:induction false} RunsOnExact(dss: seq<DataSource>, t: Trigger, number: int, codec: Codec)
    ensures forall r :: r in RunsOn(dss, t, number, codec) <==>
              && 0 <= r.0 < |dss| && r.1 == t
              && r.2 == MatchAndDecode(dss[r.0], t, number, codec) && r.2 != NoMatch
    ensures forall i, j :: 0 <= i < j < |RunsOn(dss, t, number, codec)| ==>
              RunsOn(dss, t, number, codec)[i].0 < RunsOn(dss, t, number, codec)[j].0
  {
    if dss != [] {
      var n := |dss| - 1;
      var rest := RunsOn(dss[..n], t, number, codec);
      RunsOnExact(dss[..n], t, number, codec);
      forall i | 0 <= i < |rest|
        ensures rest[i].0 < n
      {
        assert rest[i] in rest;
      }
    }
  }

  ghost function Handled(dss: seq<DataSource>, number: int, codec: Codec): Trigger -> bool {
    t => RunsOn(dss, t, number, codec) != []
  }

  lemma {:induction false} RunsOnLabels(dss: seq<DataSource>, t: Trigger, number: int, codec: Codec)
    ensures forall i :: 0 <= i < |RunsOn(dss, t, number, codec)| ==> RunsOn(dss, t, number, codec)[i].1 == t
    ensures RunsOn(dss, t, number, codec) != [] <==> exists d :: d in dss && MatchAndDecode(d, t, number, codec) != NoMatch
  {
    if dss != [] {
      var last := dss[|dss| - 1];
      RunsOnLabels(dss[..|dss| - 1], t, number, codec);
      assert last in dss;
      if d :| d in dss && MatchAndDecode(d, t, number, codec) != NoMatch && d != last {
        assert d in dss[..|dss| - 1];
      }
    }
  }

  /** Only handled triggers matter. */
  lemma {:induction false} RunsOfHandled(dss: seq<DataSource>, ts: seq<Trigger>, number: int, codec: Codec)
    ensures RunSequence(dss, ts, number, codec) == RunSequence(dss, Only(ts, Handled(dss, number, codec)), number, codec)
  {
    if ts != [] {
      RunsOfHandled(dss, ts[1..], number, codec);
      var rest := Only(ts[1..], Handled(dss, number, codec));
      if Handled(dss, number, codec)(ts[0]) {
        assert Only(ts, Handled(dss, number, codec)) == [ts[0]] + rest;
        assert ([ts[0]] + rest)[1..] == rest;
      } else {
        assert Only(ts, Handled(dss, number, codec)) == rest;
      }
    }
  }

  lemma SomeRuns(dss: seq<DataSource>, ts: seq<Trigger>, number: int, codec: Codec)
    requires forall t :: t in ts ==> RunsOn(dss, t, number, codec) != []
    ensures RunSequence(dss, ts, number, codec) == [] <==> ts == []
  {
    if ts != [] {
      assert ts[0] in ts;
    }
  }

  /** The handled triggers can be read off the runs. */
  lemma {:induction false} RunsTellTriggers(dss: seq<DataSource>, xs: seq<Trigger>, ys: seq<Trigger>, number: int, codec: Codec)
    requires forall t :: t in xs || t in ys ==> RunsOn(dss, t, number, codec) != []
    requires RunSequence(dss, xs, number, codec) == RunSequence(dss, ys, number, codec)
    ensures xs == ys
    decreases |xs|
  {
    SomeRuns(dss, xs, number, codec);
    SomeRuns(dss, ys, number, codec);
    if xs != [] {
      assert xs[0] in xs && ys[0] in ys;
      RunsOnLabels(dss, xs[0], number, codec);
      RunsOnLabels(dss, ys[0], number, codec);
      var r := RunsOn(dss, xs[0], number, codec);
      assert RunSequence(dss, xs, number, codec)[0] == r[0];
      assert RunSequence(dss, ys, number, codec)[0] == RunsOn(dss, ys[0], number, codec)[0];
      assert xs[0] == ys[0];
      assert RunSequence(dss, xs, number, codec)[|r|..] == RunSequence(dss, xs[1..], number, codec);
      assert RunSequence(dss, ys, number, codec)[|r|..] == RunSequence(dss, ys[1..], number, codec);
      RunsTellTriggers(dss, xs[1..], ys[1..], number, codec);
    }
  }

  lemma RunsSameIff(dss: seq<DataSource>, xs: seq<Trigger>, ys: seq<Trigger>, number: int, codec: Codec)
    ensures RunSequence(dss, xs, number, codec) == RunSequence(dss, ys, number, codec) <==>
            Only(xs, Handled(dss, number, codec)) == Only(ys, Handled(dss, number, codec))
  {
    var h := Handled(dss, number, codec);
    RunsOfHandled(dss, xs, number, codec);
    RunsOfHandled(dss, ys, number, codec);
    OnlyIn(xs, h);
    OnlyIn(ys, h);
    if RunSequence(dss, xs, number, codec) == RunSequence(dss, ys, number, codec) {
      RunsTellTriggers(dss, Only(xs, h), Only(ys, h), number, codec);
    }
  }

  // ---------- the two paths ----------

  ghost function LogsIn(b: Block): iset<Log> {
    iset l | l in b.logs
  }

  /** Log indices are those of an Ethereum block, and a transaction has one status. */
  ghost predicate Regular(b: Block) {
    && Consistent(LogsIn(b)) && Indexed(LogsIn(b))
    && forall c, d :: c in CallsOf(b.traces) && d in CallsOf(b.traces) && c.tx == d.tx ==> c.txOk == d.txOk
  }

  lemma LogOfBlock(b: Block, t: Trigger)
    requires t in AllTriggers(b)
    ensures Among(LogsIn(b), t)
  {
  }

  lemma ParsedAmong(f: Filter, w: C.CallFilter, b: Block)
    requires WatchFilter(w, f.block)
    ensures AllAmong(LogsIn(b), ParsedList(f, w, b)) && AllAmong(LogsIn(b), AllList(b))
  {
    forall t | t in AllList(b)
      ensures Among(LogsIn(b), t)
    {
      AllListIn(b, t);
      LogOfBlock(b, t);
    }
    ParsedIsOnly(f, w, b);
    OnlyAmong(AllList(b), ParseKeeps(f, w), LogsIn(b));
  }

  /** For every trigger: after sorting and deduplication it is there equally often on both paths if
      and only if, where it is listed at all, the scan keeps it and leaves out nothing that
      separates two of it. The order of arrival makes no difference. */
  lemma SameMultiplicityIff(f: Filter, w: C.CallFilter, b: Block, to: int, watchFirst: bool, parsed: seq<Trigger>, scanned: seq<Trigger>, t: Trigger)
    requires WatchFilter(w, f.block) && Among(LogsIn(b), t) && Consistent(LogsIn(b))
    requires SortedDistinct(parsed, ParsedList(f, w, b), LogsIn(b))
    requires SortedDistinct(scanned, ArrivedList(f, w, b, to, watchFirst), LogsIn(b))
    ensures multiset(scanned)[t] <= multiset(parsed)[t]
    ensures multiset(scanned)[t] == multiset(parsed)[t] <==>
            (t in ParsedTriggers(f, w, b) ==> !LeftOut(f, w, to, t) && !Merges(ParsedList(f, w, b), ScanKeeps(f, w, to), t))
  {
    ScannedAmong(f, w, b, to);
    var other := SortExists(ScannedList(f, w, b, to), LogsIn(b));
    if watchFirst {
      SortDetermined(scanned, other);
    } else {
      ArrivalOnlyMoves(other, scanned, f, w, b, to);
    }
    ScannedIsOnly(f, w, b, to);
    ListsAreSets(f, w, b, to, t);
    MultiplicityIff(parsed, other, ParsedList(f, w, b), ScanKeeps(f, w, to), LogsIn(b), t);
  }

  /** The scan leaves out nothing that separates two equal triggers that a data source handles. */
  ghost predicate NoneMerge(f: Filter, w: C.CallFilter, dss: seq<DataSource>, b: Block, to: int, codec: Codec) {
    forall t :: t in ParsedList(f, w, b) && Handled(dss, b.number, codec)(t) ==>
      !Merges(ParsedList(f, w, b), ScanKeeps(f, w, to), t)
  }

  /** If call-filtered block triggers arrive first, this decides whether the two paths give the same
      sequence of handler runs. */
  lemma WatchFirstRunsAgreeIff(f: Filter, w: C.CallFilter, dss: seq<DataSource>, b: Block, to: int, codec: Codec,
                         parsed: seq<Trigger>, scanned: seq<Trigger>)
    requires forall d :: d in dss ==> Covers(f, d) && HasSource(d)
    requires WatchFilter(w, f.block) && B.OnePerContract(f.block.contracts) && b.number <= to
    requires SortedDistinct(parsed, ParsedList(f, w, b), LogsIn(b)) && SortedDistinct(scanned, ScannedList(f, w, b, to), LogsIn(b))
    ensures RunSequence(dss, parsed, b.number, codec) == RunSequence(dss, scanned, b.number, codec) <==>
            NoneMerge(f, w, dss, b, to, codec)
  {
    ScannedIsOnly(f, w, b, to);
    ParsedAmong(f, w, b);
    RunsSameIff(dss, parsed, scanned, b.number, codec);
    forall t | t in ParsedList(f, w, b) && Handled(dss, b.number, codec)(t)
      ensures ScanKeeps(f, w, to)(t)
    {
      HandledKept(f, w, dss, b, to, codec, t);
    }
    WantedSameIff(parsed, scanned, ParsedList(f, w, b), ScanKeeps(f, w, to), Handled(dss, b.number, codec), LogsIn(b));
  }

  lemma HandledKept(f: Filter, w: C.CallFilter, dss: seq<DataSource>, b: Block, to: int, codec: Codec, t: Trigger)
    requires forall d :: d in dss ==> Covers(f, d) && HasSource(d)
    requires WatchFilter(w, f.block) && B.OnePerContract(f.block.contracts) && b.number <= to
    requires t in AllTriggers(b) || t in ParsedList(f, w, b)
    requires Handled(dss, b.number, codec)(t)
    ensures ParseKeep(f, w, t) && !LeftOut(f, w, to, t)
  {
    RunsOnLabels(dss, t, b.number, codec);
    var d :| d in dss && MatchAndDecode(d, t, b.number, codec) != NoMatch;
    ListsAreSets(f, w, b, to, t);
    NothingInvented(f, w, b, to);
    Survives(f, w, b, to, d, t, codec);
    ScannedSet(f, w, b, to, t);
  }

  /** The same for parsing and offering every trigger of the block. */
  lemma OfferedRunsAgreeIff(f: Filter, w: C.CallFilter, dss: seq<DataSource>, b: Block, codec: Codec,
                            offered: seq<Trigger>, parsed: seq<Trigger>)
    requires forall d :: d in dss ==> Covers(f, d) && HasSource(d)
    requires WatchFilter(w, f.block) && B.OnePerContract(f.block.contracts)
    requires SortedDistinct(offered, AllList(b), LogsIn(b)) && SortedDistinct(parsed, ParsedList(f, w, b), LogsIn(b))
    ensures RunSequence(dss, offered, b.number, codec) == RunSequence(dss, parsed, b.number, codec) <==>
            forall t :: t in AllList(b) && Handled(dss, b.number, codec)(t) ==> !Merges(AllList(b), ParseKeeps(f, w), t)
  {
    ParsedIsOnly(f, w, b);
    ParsedAmong(f, w, b);
    RunsSameIff(dss, offered, parsed, b.number, codec);
    forall t | t in AllList(b) && Handled(dss, b.number, codec)(t)
      ensures ParseKeeps(f, w)(t)
    {
      AllListIn(b, t);
      HandledKept(f, w, dss, b, b.number, codec, t);
    }
    WantedSameIff(offered, parsed, AllList(b), ParseKeeps(f, w), Handled(dss, b.number, codec), LogsIn(b));
  }

  // ---------- more data sources in the filter ----------

  /** A filter built from more data sources keeps more. */
  lemma KeepsMore(f: Filter, w: C.CallFilter, dss: seq<DataSource>, g: Filter, v: C.CallFilter, sub: seq<DataSource>, t: Trigger)
    requires BuiltFrom(f, dss) && BuiltFrom(g, sub) && WatchFilter(w, f.block) && WatchFilter(v, g.block)
    requires forall d :: d in sub ==> d in dss
    ensures ParseKeep(g, v, t) ==> ParseKeep(f, w, t)
  {
    match t
    case LogTrigger(_) => MoreLogs(f.log, dss, g.log, sub);
    case CallTrigger(c) => MoreCalls(f.call, dss, g.call, sub, c);
    case BlockTrigger(n, kind) =>
      if kind.WithCallTo? {
        MoreWatches(f.block, w, dss, g.block, v, sub, kind.callee);
      } else {
        MoreKinds(f.block, dss, g.block, sub, n);
      }
  }

  lemma MoreLogs(f: L.LogFilter, dss: seq<DataSource>, g: L.LogFilter, sub: seq<DataSource>)
    requires L.BuiltFrom(f, dss) && L.BuiltFrom(g, sub) && forall d :: d in sub ==> d in dss
    ensures f.IsEmpty() ==> g.IsEmpty()
  {
    forall k: L.Key
      ensures g.Has(k) ==> f.Has(k)
    {
      if g.Has(k) {
        var d, h :| d in sub && h in d.events && L.KeyOf(d, h) == k;
        assert L.Wants(dss, k, false);
      }
    }
    if f.IsEmpty() {
      L.SameEntries(f, g);
    }
  }

  lemma MoreCalls(f: C.CallFilter, dss: seq<DataSource>, g: C.CallFilter, sub: seq<DataSource>, c: Call)
    requires C.BuiltFrom(f, dss) && C.BuiltFrom(g, sub) && forall d :: d in sub ==> d in dss
    ensures g.Matches(c) ==> f.Matches(c)
  {
    C.BuiltFilterExact(f, dss, c);
    C.BuiltFilterExact(g, sub, c);
  }

  lemma MoreWatches(f: B.BlockFilter, w: C.CallFilter, dss: seq<DataSource>, g: B.BlockFilter, v: C.CallFilter, sub: seq<DataSource>, a: Address)
    requires B.BuiltFrom(f, dss) && B.BuiltFrom(g, sub) && WatchFilter(w, f) && WatchFilter(v, g)
    requires forall d :: d in sub ==> d in dss
    ensures a in v.contracts ==> a in w.contracts
  {
    if a in v.contracts {
      var p := (v.contracts[a].0, a);
      assert p in B.CallWatches(sub);
      assert p in B.CallWatches(dss);
      B.LeastExists(B.CallWatches(dss), p);
    }
  }

  lemma MoreKinds(f: B.BlockFilter, dss: seq<DataSource>, g: B.BlockFilter, sub: seq<DataSource>, n: int)
    requires B.BuiltFrom(f, dss) && B.BuiltFrom(g, sub) && forall d :: d in sub ==> d in dss
    ensures ScheduledKinds(n, g) <= ScheduledKinds(n, f)
  {
    if g.everyBlock {
      var d :| d in sub && d.address.Some? && B.HasFilter(d, None);
      assert d in dss;
    }
    forall p | p in g.polling
      ensures p in f.polling
    {
      var d :| d in sub && d.address.Some? && p in B.PollingOf(d);
      assert d in dss;
    }
  }

  /** Data sources have the same sequence of runs with a filter of their own as with the filter of a
      longer list, if and only if their own filter leaves out nothing between two equal triggers that
      they handle. */
  lemma AloneRunsAgreeIff(f: Filter, w: C.CallFilter, dss: seq<DataSource>, g: Filter, v: C.CallFilter, sub: seq<DataSource>,
                          b: Block, codec: Codec, together: seq<Trigger>, alone: seq<Trigger>)
    requires BuiltFrom(f, dss) && BuiltFrom(g, sub) && WatchFilter(w, f.block) && WatchFilter(v, g.block)
    requires forall d :: d in sub ==> d in dss && HasSource(d)
    requires SortedDistinct(together, ParsedList(f, w, b), LogsIn(b)) && SortedDistinct(alone, ParsedList(g, v, b), LogsIn(b))
    ensures RunSequence(sub, together, b.number, codec) == RunSequence(sub, alone, b.number, codec) <==>
            forall t :: t in ParsedList(f, w, b) && Handled(sub, b.number, codec)(t) ==> !Merges(ParsedList(f, w, b), ParseKeeps(g, v), t)
  {
    AloneIsOnly(f, w, dss, g, v, sub, b);
    ParsedAmong(f, w, b);
    RunsSameIff(sub, together, alone, b.number, codec);
    B.LeastOne(B.CallWatches(sub));
    forall d | d in sub
      ensures Covers(g, d)
    {
      BuiltCovers(g, sub, d);
    }
    forall t | t in ParsedList(f, w, b) && Handled(sub, b.number, codec)(t)
      ensures ParseKeeps(g, v)(t)
    {
      ListsAreSets(f, w, b, b.number, t);
      NothingInvented(f, w, b, b.number);
      HandledKept(g, v, sub, b, b.number, codec, t);
    }
    WantedSameIff(together, alone, ParsedList(f, w, b), ParseKeeps(g, v), Handled(sub, b.number, codec), LogsIn(b));
  }

  lemma AloneIsOnly(f: Filter, w: C.CallFilter, dss: seq<DataSource>, g: Filter, v: C.CallFilter, sub: seq<DataSource>, b: Block)
    requires BuiltFrom(f, dss) && BuiltFrom(g, sub) && WatchFilter(w, f.block) && WatchFilter(v, g.block)
    requires forall d :: d in sub ==> d in dss
    ensures ParsedList(g, v, b) == Only(ParsedList(f, w, b), ParseKeeps(g, v))
  {
    ParsedIsOnly(f, w, b);
    ParsedIsOnly(g, v, b);
    OnlyTwice(AllList(b), ParseKeeps(f, w), ParseKeeps(g, v));
    forall t | t in AllList(b)
      ensures (ParseKeeps(f, w)(t) && ParseKeeps(g, v)(t)) == ParseKeeps(g, v)(t)
    {
      KeepsMore(f, w, dss, g, v, sub, t);
    }
    OnlyCongruent(AllList(b), t => ParseKeeps(f, w)(t) && ParseKeeps(g, v)(t), ParseKeeps(g, v));
  }

  // ---------- from what arrives to what is processed ----------

  function IsCall(): Trigger -> bool {
    (t: Trigger) => t.CallTrigger?
  }

  function IsBlock(): Trigger -> bool {
    (t: Trigger) => t.BlockTrigger?
  }

  /** Calls of failed transactions are removed from the sorted triggers. */
  function NotFailed(): Trigger -> bool {
    (t: Trigger) => t.CallTrigger? ==> t.call.txOk
  }

  /** What a scan brings back of the block, by kind of trigger. Logs may come repeatedly and in any
      order, and the kinds in any interleaving. */
  ghost predicate Arrives(ts: seq<Trigger>, f: Filter, w: C.CallFilter, b: Block, to: int, watchFirst: bool) {
    && (forall l :: LogTrigger(l) in ts <==> l in b.logs && LogScan.Fetches(f.log, l))
    && Only(ts, IsCall()) == CallTriggers(CallsOf(b.traces), Fetched(f.call, to))
    && Only(ts, IsBlock()) == ScannedBlocks(f, w, b, to, watchFirst)
  }

  ghost function ArrivedList(f: Filter, w: C.CallFilter, b: Block, to: int, watchFirst: bool): seq<Trigger> {
    LogTriggers(b.logs, FetchedLogs(f.log)) + CallTriggers(CallsOf(b.traces), FetchedSucceeded(f.call, to)) +
    ScannedBlocks(f, w, b, to, watchFirst)
  }

  /** However the triggers arrive, the block's are those of the list. */
  lemma ArrivedSorted(ts: seq<Trigger>, r: seq<Trigger>, f: Filter, w: C.CallFilter, b: Block, to: int, watchFirst: bool)
    requires Regular(b) && Arrives(ts, f, w, b, to, watchFirst) && SortedDistinct(r, ts, LogsIn(b))
    ensures SortedDistinct(Only(r, NotFailed()), ArrivedList(f, w, b, to, watchFirst), LogsIn(b))
  {
    CallsArrive(ts, f, w, b, to, watchFirst);
    SieveLater(r, ts, NotFailed(), LogsIn(b));
    forall p | Among(LogsIn(b), p)
      ensures Dedup(TiedWith(Only(ts, NotFailed()), p)) == Dedup(TiedWith(ArrivedList(f, w, b, to, watchFirst), p))
    {
      match p
      case LogTrigger(l) => LogTies(ts, f, w, b, to, watchFirst, l);
      case CallTrigger(_) => CallTies(ts, f, w, b, to, watchFirst, p);
      case BlockTrigger(_, _) => BlockTies(ts, f, w, b, to, watchFirst, p);
    }
  }

  /** Calls that tie belong to one transaction, so they fail or succeed together. */
  lemma CallsArrive(ts: seq<Trigger>, f: Filter, w: C.CallFilter, b: Block, to: int, watchFirst: bool)
    requires Regular(b) && Arrives(ts, f, w, b, to, watchFirst)
    ensures Uniform(ts, NotFailed())
  {
    OnlyIn(ts, IsCall());
    CallTriggersIn(CallsOf(b.traces), Fetched(f.call, to));
    forall t, u | t in ts && u in ts && Tied(t, u)
      ensures NotFailed()(t) == NotFailed()(u)
    {
      if t.CallTrigger? {
        assert u.CallTrigger? && t.call.tx == u.call.tx;
        assert t in Only(ts, IsCall()) && u in Only(ts, IsCall());
      }
    }
  }

  /** Ties are of the same kind. */
  lemma TiesOfKind(ts: seq<Trigger>, p: Trigger, keep: Trigger -> bool)
    requires forall t :: Tied(t, p) ==> keep(t)
    ensures TiedWith(ts, p) == TiedWith(Only(ts, keep), p)
  {
    OnlyTied(ts, keep, p);
    TiedIn(ts, p);
    OnlySame(TiedWith(ts, p), keep);
  }

  lemma OnlyKind(f: Filter, w: C.CallFilter, b: Block, to: int, watchFirst: bool)
    ensures Only(ArrivedList(f, w, b, to, watchFirst), IsCall()) == CallTriggers(CallsOf(b.traces), FetchedSucceeded(f.call, to))
    ensures Only(ArrivedList(f, w, b, to, watchFirst), IsBlock()) == ScannedBlocks(f, w, b, to, watchFirst)
  {
    LogTriggersIn(b.logs, FetchedLogs(f.log));
    CallTriggersIn(CallsOf(b.traces), FetchedSucceeded(f.call, to));
    BlocksIn(f, w, b, to, watchFirst);
    OnlyMiddle(LogTriggers(b.logs, FetchedLogs(f.log)), CallTriggers(CallsOf(b.traces), FetchedSucceeded(f.call, to)),
               ScannedBlocks(f, w, b, to, watchFirst), IsCall());
    OnlyLast(LogTriggers(b.logs, FetchedLogs(f.log)), CallTriggers(CallsOf(b.traces), FetchedSucceeded(f.call, to)),
             ScannedBlocks(f, w, b, to, watchFirst), IsBlock());
  }

  lemma OnlyMiddle(x: seq<Trigger>, y: seq<Trigger>, z: seq<Trigger>, keep: Trigger -> bool)
    requires forall t :: t in x || t in z ==> !keep(t)
    requires forall t :: t in y ==> keep(t)
    ensures Only(x + y + z, keep) == y
  {
    OnlyConcat(x + y, z, keep);
    OnlyConcat(x, y, keep);
    OnlyNone(x, keep);
    OnlySame(y, keep);
    OnlyNone(z, keep);
  }

  lemma OnlyLast(x: seq<Trigger>, y: seq<Trigger>, z: seq<Trigger>, keep: Trigger -> bool)
    requires forall t :: t in x || t in y ==> !keep(t)
    requires forall t :: t in z ==> keep(t)
    ensures Only(x + y + z, keep) == z
  {
    OnlyConcat(x + y, z, keep);
    OnlyConcat(x, y, keep);
    OnlyNone(x, keep);
    OnlyNone(y, keep);
    OnlySame(z, keep);
  }

  lemma BlocksIn(f: Filter, w: C.CallFilter, b: Block, to: int, watchFirst: bool)
    ensures forall t :: t in ScannedBlocks(f, w, b, to, watchFirst) ==> t.BlockTrigger?
  {
    forall t | t in WatchTriggers(b.number, CallsOf(b.traces), Fetched(w, to))
      ensures t.BlockTrigger?
    {
      WatchTriggersIn(b.number, CallsOf(b.traces), Fetched(w, to), t);
    }
  }

  lemma CallTies(ts: seq<Trigger>, f: Filter, w: C.CallFilter, b: Block, to: int, watchFirst: bool, p: Trigger)
    requires Arrives(ts, f, w, b, to, watchFirst) && p.CallTrigger?
    ensures TiedWith(Only(ts, NotFailed()), p) == TiedWith(ArrivedList(f, w, b, to, watchFirst), p)
  {
    TiesOfKind(Only(ts, NotFailed()), p, IsCall());
    TiesOfKind(ArrivedList(f, w, b, to, watchFirst), p, IsCall());
    OnlyKind(f, w, b, to, watchFirst);
    OnlyTwice(ts, NotFailed(), IsCall());
    OnlyTwice(ts, IsCall(), NotFailed());
    OnlyCongruent(ts, t => NotFailed()(t) && IsCall()(t), t => IsCall()(t) && NotFailed()(t));
    OnlyCalls(CallsOf(b.traces), Fetched(f.call, to), NotFailed(), FetchedSucceeded(f.call, to));
  }

  lemma BlockTies(ts: seq<Trigger>, f: Filter, w: C.CallFilter, b: Block, to: int, watchFirst: bool, p: Trigger)
    requires Arrives(ts, f, w, b, to, watchFirst) && p.BlockTrigger?
    ensures TiedWith(Only(ts, NotFailed()), p) == TiedWith(ArrivedList(f, w, b, to, watchFirst), p)
  {
    TiesOfKind(Only(ts, NotFailed()), p, IsBlock());
    TiesOfKind(ArrivedList(f, w, b, to, watchFirst), p, IsBlock());
    OnlyKind(f, w, b, to, watchFirst);
    OnlyTwice(ts, NotFailed(), IsBlock());
    OnlyCongruent(ts, t => NotFailed()(t) && IsBlock()(t), IsBlock());
  }

  /** A log ties with itself only, so it is kept once. */
  lemma LogTies(ts: seq<Trigger>, f: Filter, w: C.CallFilter, b: Block, to: int, watchFirst: bool, l: Log)
    requires Regular(b) && Arrives(ts, f, w, b, to, watchFirst) && l in b.logs
    ensures Dedup(TiedWith(Only(ts, NotFailed()), LogTrigger(l))) == Dedup(TiedWith(ArrivedList(f, w, b, to, watchFirst), LogTrigger(l)))
  {
    var p, x, y := LogTrigger(l), Only(ts, NotFailed()), ArrivedList(f, w, b, to, watchFirst);
    OnlyIn(ts, NotFailed());
    ArrivedLogs(f, w, b, to, watchFirst);
    OneLog(x, b, l);
    OneLog(y, b, l);
    assert p in x <==> p in y;
  }

  lemma ArrivedLogs(f: Filter, w: C.CallFilter, b: Block, to: int, watchFirst: bool)
    ensures forall l :: LogTrigger(l) in ArrivedList(f, w, b, to, watchFirst) <==> l in b.logs && LogScan.Fetches(f.log, l)
  {
    LogTriggersIn(b.logs, FetchedLogs(f.log));
    CallTriggersIn(CallsOf(b.traces), FetchedSucceeded(f.call, to));
    BlocksIn(f, w, b, to, watchFirst);
  }

  lemma OneLog(ts: seq<Trigger>, b: Block, l: Log)
    requires Regular(b) && l in b.logs && forall m :: LogTrigger(m) in ts ==> m in b.logs
    ensures Dedup(TiedWith(ts, LogTrigger(l))) == if LogTrigger(l) in ts then [LogTrigger(l)] else []
  {
    var p := LogTrigger(l);
    TiedIn(ts, p);
    forall t | t in TiedWith(ts, p)
      ensures t == p
    {
      assert t.LogTrigger? && t.log in LogsIn(b) && l in LogsIn(b);
    }
    EqualDedup(TiedWith(ts, p), p);
    assert Tied(p, p);
    if TiedWith(ts, p) != [] {
      assert TiedWith(ts, p)[0] in TiedWith(ts, p);
    }
  }

  lemma {:induction false} EqualDedup(ts: seq<Trigger>, p: Trigger)
    requires forall t :: t in ts ==> t == p
    ensures Dedup(ts) == if ts == [] then [] else [p]
  {
    if |ts| >= 2 {
      assert ts[0] in ts && ts[1] in ts;
      assert forall t :: t in ts[1..] ==> t in ts;
      EqualDedup(ts[1..], p);
    } else if |ts| == 1 {
      assert ts[0] in ts;
    }
  }

  /** In any order of arrival the block has exactly the scanned triggers. */
  lemma ArrivedSet(r: seq<Trigger>, f: Filter, w: C.CallFilter, b: Block, to: int, watchFirst: bool, t: Trigger)
    requires WatchFilter(w, f.block) && SortedDistinct(r, ArrivedList(f, w, b, to, watchFirst), LogsIn(b))
    ensures t in r <==> t in ScannedTriggers(f, w, b, to)
  {
    assert t in ArrivedList(f, w, b, to, watchFirst) <==> t in ScannedList(f, w, b, to);
    ListsAreSets(f, w, b, to, t);
    SortedSet(r, ArrivedList(f, w, b, to, watchFirst), b, t);
    if t in ScannedTriggers(f, w, b, to) {
      NothingInvented(f, w, b, to);
      LogOfBlock(b, t);
    }
  }

  lemma ParsedSorted(r: seq<Trigger>, f: Filter, w: C.CallFilter, b: Block, t: Trigger)
    requires WatchFilter(w, f.block) && SortedDistinct(r, ParsedList(f, w, b), LogsIn(b))
    ensures t in r <==> t in ParsedTriggers(f, w, b)
  {
    ListsAreSets(f, w, b, b.number, t);
    SortedSet(r, ParsedList(f, w, b), b, t);
    if t in ParsedTriggers(f, w, b) {
      NothingInvented(f, w, b, b.number);
      LogOfBlock(b, t);
    }
  }

  lemma SortedSet(r: seq<Trigger>, ts: seq<Trigger>, b: Block, t: Trigger)
    requires SortedDistinct(r, ts, LogsIn(b))
    ensures Among(LogsIn(b), t) ==> (t in r <==> t in ts)
    ensures !Among(LogsIn(b), t) ==> t !in r
  {
    if Among(LogsIn(b), t) {
      KeptOncePerRun(r, ts, LogsIn(b), t);
    }
  }

  function IsWatch(): Trigger -> bool {
    (t: Trigger) => t.BlockTrigger? && t.kind.WithCallTo?
  }

  // The parts of what a scan lists, before the block triggers, and the two kinds of these.
  ghost function ArrivedFront(f: Filter, b: Block, to: int): seq<Trigger> {
    LogTriggers(b.logs, FetchedLogs(f.log)) + CallTriggers(CallsOf(b.traces), FetchedSucceeded(f.call, to))
  }

  function ArrivedWatches(w: C.CallFilter, b: Block, to: int): seq<Trigger> {
    WatchTriggers(b.number, CallsOf(b.traces), Fetched(w, to))
  }

  function ArrivedKinds(f: Filter, b: Block): seq<Trigger> {
    KindTriggers(b.number, ScheduledKinds(b.number, f.block))
  }

  lemma ArrivedParts(f: Filter, w: C.CallFilter, b: Block, to: int)
    ensures forall t :: t in ArrivedFront(f, b, to) ==> !t.BlockTrigger?
    ensures forall t :: t in ArrivedWatches(w, b, to) ==> IsWatch()(t) && t.number == b.number
    ensures forall t :: t in ArrivedKinds(f, b) <==> t.BlockTrigger? && t.number == b.number && t.kind in ScheduledKinds(b.number, f.block)
    ensures forall t :: t in ArrivedKinds(f, b) ==> !IsWatch()(t)
    ensures ArrivedList(f, w, b, to, true) == ArrivedFront(f, b, to) + (ArrivedWatches(w, b, to) + ArrivedKinds(f, b))
    ensures ArrivedList(f, w, b, to, false) == ArrivedFront(f, b, to) + (ArrivedKinds(f, b) + ArrivedWatches(w, b, to))
  {
    LogTriggersIn(b.logs, FetchedLogs(f.log));
    CallTriggersIn(CallsOf(b.traces), FetchedSucceeded(f.call, to));
    forall t | t in ArrivedWatches(w, b, to)
      ensures IsWatch()(t) && t.number == b.number
    {
      WatchTriggersIn(b.number, CallsOf(b.traces), Fetched(w, to), t);
    }
  }

  /** The order in which call-filtered and scheduled block triggers arrive only moves the two
      against each other: each kind, with all other triggers, is in the same sequence. */
  lemma ArrivalOnlyMoves(r: seq<Trigger>, s: seq<Trigger>, f: Filter, w: C.CallFilter, b: Block, to: int)
    requires SortedDistinct(r, ArrivedList(f, w, b, to, true), LogsIn(b)) && SortedDistinct(s, ArrivedList(f, w, b, to, false), LogsIn(b))
    ensures Only(r, IsWatch()) == Only(s, IsWatch()) && Only(r, Not(IsWatch())) == Only(s, Not(IsWatch()))
    ensures forall t :: multiset(r)[t] == multiset(s)[t]
  {
    ArrivedParts(f, w, b, to);
    ArrivalMoves(r, s, ArrivedFront(f, b, to), ArrivedWatches(w, b, to), ArrivedKinds(f, b), IsWatch(), LogsIn(b));
    forall t
      ensures multiset(r)[t] == multiset(s)[t]
    {
      OnlyCount(r, IsWatch(), t);
      OnlyCount(s, IsWatch(), t);
      OnlyCount(r, Not(IsWatch()), t);
      OnlyCount(s, Not(IsWatch()), t);
    }
  }

  lemma KindsAmong(f: Filter, w: C.CallFilter, b: Block, to: int)
    ensures AllAmong(LogsIn(b), ArrivedKinds(f, b))
  {
    ArrivedParts(f, w, b, to);
    forall i | 0 <= i < |ArrivedKinds(f, b)|
      ensures Among(LogsIn(b), ArrivedKinds(f, b)[i])
    {
      assert ArrivedKinds(f, b)[i] in ArrivedKinds(f, b);
    }
  }

  /** Of these two kinds exactly the call-filtered ones and the end of the block tie. */
  lemma WantedArrivalIff(r: seq<Trigger>, s: seq<Trigger>, f: Filter, w: C.CallFilter, b: Block, to: int, want: Trigger -> bool)
    requires SortedDistinct(r, ArrivedList(f, w, b, to, true), LogsIn(b)) && SortedDistinct(s, ArrivedList(f, w, b, to, false), LogsIn(b))
    ensures Only(r, want) == Only(s, want) <==>
            || !(End in ScheduledKinds(b.number, f.block) && want(BlockTrigger(b.number, End)))
            || forall x :: x in ArrivedWatches(w, b, to) ==> !want(x)
  {
    ArrivedParts(f, w, b, to);
    KindsAmong(f, w, b, to);
    ArrivalWantedIff(r, s, ArrivedFront(f, b, to), ArrivedWatches(w, b, to), ArrivedKinds(f, b), want, LogsIn(b));
    EndTies(f, w, b, to, want);
  }

  lemma EndTies(f: Filter, w: C.CallFilter, b: Block, to: int, want: Trigger -> bool)
    ensures (forall x, y :: x in ArrivedWatches(w, b, to) && y in ArrivedKinds(f, b) && want(x) && want(y) ==> !Tied(x, y)) <==>
            || !(End in ScheduledKinds(b.number, f.block) && want(BlockTrigger(b.number, End)))
            || forall x :: x in ArrivedWatches(w, b, to) ==> !want(x)
  {
    var watches, kinds, end := ArrivedWatches(w, b, to), ArrivedKinds(f, b), BlockTrigger(b.number, End);
    ArrivedParts(f, w, b, to);
    assert end in kinds <==> End in ScheduledKinds(b.number, f.block);
    forall x, y | x in watches && y in kinds
      ensures Tied(x, y) <==> y == end
    {
      EndTie(x, y);
    }
  }

  lemma EndTie(x: Trigger, y: Trigger)
    requires x.BlockTrigger? && y.BlockTrigger? && x.kind.WithCallTo? && !y.kind.WithCallTo? && x.number == y.number
    ensures Tied(x, y) <==> y == BlockTrigger(x.number, End)
  {
  }

  function Everything(): Trigger -> bool {
    t => true
  }

  /** The order of arrival does not show in a block if and only if no call-filtered trigger is
      fetched or the end of the block is not scheduled. */
  lemma ArrivalShows(r: seq<Trigger>, s: seq<Trigger>, f: Filter, w: C.CallFilter, b: Block, to: int)
    requires SortedDistinct(r, ArrivedList(f, w, b, to, true), LogsIn(b)) && SortedDistinct(s, ArrivedList(f, w, b, to, false), LogsIn(b))
    ensures r == s <==> ArrivedWatches(w, b, to) == [] || End !in ScheduledKinds(b.number, f.block)
  {
    OnlySame(r, Everything());
    OnlySame(s, Everything());
    WantedArrivalIff(r, s, f, w, b, to, Everything());
    assert ArrivedWatches(w, b, to) == [] || ArrivedWatches(w, b, to)[0] in ArrivedWatches(w, b, to);
  }

  /** No data source handles both a fetched call-filtered trigger and the scheduled end of the block. */
  ghost predicate ArrivalUnnoticed(f: Filter, w: C.CallFilter, dss: seq<DataSource>, b: Block, to: int, codec: Codec) {
    || !(End in ScheduledKinds(b.number, f.block) && Handled(dss, b.number, codec)(BlockTrigger(b.number, End)))
    || forall x :: x in ArrivedWatches(w, b, to) ==> !Handled(dss, b.number, codec)(x)
  }

  /** And it does not show in the runs exactly if those two are not both handled. */
  lemma ArrivalRunsIff(r: seq<Trigger>, s: seq<Trigger>, f: Filter, w: C.CallFilter, dss: seq<DataSource>, b: Block, to: int, codec: Codec)
    requires SortedDistinct(r, ArrivedList(f, w, b, to, true), LogsIn(b)) && SortedDistinct(s, ArrivedList(f, w, b, to, false), LogsIn(b))
    ensures RunSequence(dss, r, b.number, codec) == RunSequence(dss, s, b.number, codec) <==>
            ArrivalUnnoticed(f, w, dss, b, to, codec)
  {
    RunsSameIff(dss, r, s, b.number, codec);
    WantedArrivalIff(r, s, f, w, b, to, Handled(dss, b.number, codec));
  }

  // ---------- the two paths in every order of arrival ----------

  /** The two paths give the same sequence of handler runs if and only if the scan leaves out nothing
      that separates two equal handled triggers, and, where scheduled block triggers arrive before
      call-filtered ones, that is not noticed. */
  lemma PathRunsAgreeIff(f: Filter, w: C.CallFilter, dss: seq<DataSource>, b: Block, to: int, watchFirst: bool, codec: Codec,
                         parsed: seq<Trigger>, scanned: seq<Trigger>)
    requires forall d :: d in dss ==> Covers(f, d) && HasSource(d)
    requires WatchFilter(w, f.block) && B.OnePerContract(f.block.contracts) && b.number <= to && Consistent(LogsIn(b))
    requires SortedDistinct(parsed, ParsedList(f, w, b), LogsIn(b))
    requires SortedDistinct(scanned, ArrivedList(f, w, b, to, watchFirst), LogsIn(b))
    ensures RunSequence(dss, parsed, b.number, codec) == RunSequence(dss, scanned, b.number, codec) <==>
            NoneMerge(f, w, dss, b, to, codec) && (watchFirst || ArrivalUnnoticed(f, w, dss, b, to, codec))
  {
    if watchFirst {
      WatchFirstRunsAgreeIff(f, w, dss, b, to, codec, parsed, scanned);
    } else {
      ScannedAmong(f, w, b, to);
      var other := SortExists(ScannedList(f, w, b, to), LogsIn(b));
      WatchFirstRunsAgreeIff(f, w, dss, b, to, codec, parsed, other);
      ArrivalRunsIff(other, scanned, f, w, dss, b, to, codec);
      if !NoneMerge(f, w, dss, b, to, codec) {
        MergedRunsDiffer(f, w, dss, b, to, codec, parsed, scanned);
      }
    }
  }

  lemma ScannedAmong(f: Filter, w: C.CallFilter, b: Block, to: int)
    requires WatchFilter(w, f.block)
    ensures AllAmong(LogsIn(b), ScannedList(f, w, b, to))
  {
    ParsedAmong(f, w, b);
    ScannedIsOnly(f, w, b, to);
    OnlyAmong(ParsedList(f, w, b), ScanKeeps(f, w, to), LogsIn(b));
  }

  /** A handled trigger that merges is processed less often, in whatever order triggers arrive. */
  lemma MergedRunsDiffer(f: Filter, w: C.CallFilter, dss: seq<DataSource>, b: Block, to: int, codec: Codec,
                         parsed: seq<Trigger>, scanned: seq<Trigger>)
    requires WatchFilter(w, f.block) && !NoneMerge(f, w, dss, b, to, codec) && Consistent(LogsIn(b))
    requires SortedDistinct(parsed, ParsedList(f, w, b), LogsIn(b)) && SortedDistinct(scanned, ArrivedList(f, w, b, to, false), LogsIn(b))
    ensures RunSequence(dss, parsed, b.number, codec) != RunSequence(dss, scanned, b.number, codec)
  {
    var h := Handled(dss, b.number, codec);
    var t :| t in ParsedList(f, w, b) && h(t) && Merges(ParsedList(f, w, b), ScanKeeps(f, w, to), t);
    ParsedAmong(f, w, b);
    assert Among(LogsIn(b), t);
    ListsAreSets(f, w, b, to, t);
    SameMultiplicityIff(f, w, b, to, false, parsed, scanned, t);
    OnlyCount(parsed, h, t);
    OnlyCount(scanned, h, t);
    RunsSameIff(dss, parsed, scanned, b.number, codec);
  }

  // ---------- when the lists are the same ----------

  /** Both paths list the same call triggers, as often and in the same order, if and only if every
      call of the block that the filter matches is also fetched. */
  lemma SameCallTriggers(f: C.CallFilter, calls: seq<Call>, to: int)
    ensures CallTriggers(calls, MatchingSucceeded(f)) == CallTriggers(calls, FetchedSucceeded(f, to)) <==>
            forall c :: c in calls && f.Matches(c) && c.txOk ==> CallScan.Fetches(f, to, c)
  {
    var q := (t: Trigger) => t.CallTrigger? && CallScan.Fetches(f, to, t.call);
    OnlyCalls(calls, MatchingSucceeded(f), q, FetchedSucceeded(f, to));
    OnlySame(CallTriggers(calls, MatchingSucceeded(f)), q);
    CallTriggersIn(calls, MatchingSucceeded(f));
    if forall t :: t in CallTriggers(calls, MatchingSucceeded(f)) ==> q(t) {
      forall c | c in calls && f.Matches(c) && c.txOk
        ensures CallScan.Fetches(f, to, c)
      {
        assert q(CallTrigger(c));
      }
    }
  }

  /** And the same call-filtered block triggers if and only if no watched contract that the scan
      leaves out is called. */
  lemma SameWatchTriggers(f: B.BlockFilter, w: C.CallFilter, b: Block, to: int)
    requires WatchFilter(w, f)
    ensures var calls := CallsOf(b.traces);
            WatchTriggers(b.number, calls, Matching(w)) == WatchTriggers(b.number, calls, Fetched(w, to)) <==>
            forall c :: c in calls && c.to in w.contracts ==> WatchStarted(w, to, c.to)
  {
    var calls := CallsOf(b.traces);
    CallsHaveSelectors(b.traces);
    forall c | c in calls
      ensures w.Matches(c) <==> c.to in w.contracts
      ensures CallScan.Fetches(w, to, c) <==> WatchStarted(w, to, c.to)
    {
      WatchMatches(f, w, to, c);
    }
    var q := (t: Trigger) => t.BlockTrigger? && t.kind.WithCallTo? && WatchStarted(w, to, t.kind.callee);
    var ts := WatchTriggers(b.number, calls, Matching(w));
    OnlyWatches(b.number, calls, Matching(w), q, Fetched(w, to));
    OnlySame(ts, q);
    forall c | c in calls && w.Matches(c)
      ensures BlockTrigger(b.number, WithCallTo(c.to)) in ts
    {
      WatchTriggersIn(b.number, calls, Matching(w), BlockTrigger(b.number, WithCallTo(c.to)));
    }
    if forall t :: t in ts ==> q(t) {
      forall c | c in calls && c.to in w.contracts
        ensures WatchStarted(w, to, c.to)
      {
        assert q(BlockTrigger(b.number, WithCallTo(c.to)));
      }
    }
    forall t | t in ts
      ensures t.BlockTrigger? && t.kind.WithCallTo? && exists c :: c in calls && w.Matches(c) && c.to == t.kind.callee
    {
      WatchTriggersIn(b.number, calls, Matching(w), t);
    }
  }

  /** If the scan leaves out no call and no call-filtered block trigger, only the order of arrival can
      make a difference. */
  lemma StartedRunsAgree(f: Filter, w: C.CallFilter, dss: seq<DataSource>, b: Block, to: int, watchFirst: bool, codec: Codec,
                         parsed: seq<Trigger>, scanned: seq<Trigger>)
    requires forall d :: d in dss ==> Covers(f, d) && HasSource(d)
    requires WatchFilter(w, f.block) && B.OnePerContract(f.block.contracts) && b.number <= to
    requires Consistent(LogsIn(b)) && Indexed(LogsIn(b))
    requires SortedDistinct(parsed, ParsedList(f, w, b), LogsIn(b))
    requires SortedDistinct(scanned, ArrivedList(f, w, b, to, watchFirst), LogsIn(b))
    requires forall t :: t in ParsedList(f, w, b) && !t.LogTrigger? ==> !LeftOut(f, w, to, t)
    ensures RunSequence(dss, parsed, b.number, codec) == RunSequence(dss, scanned, b.number, codec) <==>
            watchFirst || ArrivalUnnoticed(f, w, dss, b, to, codec)
  {
    var ts, q := ParsedList(f, w, b), ScanKeeps(f, w, to);
    ParsedAmong(f, w, b);
    PathRunsAgreeIff(f, w, dss, b, to, watchFirst, codec, parsed, scanned);
    forall t | t in ts && Handled(dss, b.number, codec)(t)
      ensures !Merges(ts, q, t)
    {
      HandledKept(f, w, dss, b, to, codec, t);
      forall u | u in ts && Tied(u, t)
        ensures q(u)
      {
        assert Among(LogsIn(b), u) && Among(LogsIn(b), t);
        TiedLogs(u, t, LogsIn(b));
      }
      NothingMerges(ts, q, t);
    }
  }

  lemma TiedLogs(u: Trigger, t: Trigger, logs: iset<Log>)
    requires Tied(u, t) && Among(logs, u) && Among(logs, t) && Indexed(logs)
    ensures u.LogTrigger? ==> u == t
  {
  }

  lemma NothingMerges(ts: seq<Trigger>, keep: Trigger -> bool, t: Trigger)
    requires forall u :: u in ts && Tied(u, t) ==> keep(u)
    ensures !Merges(ts, keep, t)
  {
    forall i, j | 0 <= i < j < |ts|
      ensures !GapLeftOut(ts, keep, t, i, j)
    {
      if k :| i < k < j && Tied(ts[k], t) {
        assert ts[k] in ts;
      }
    }
  }

  // ---------- where the paths differ ----------

  lemma ListAround(c: Call, d: Call, keep: Call -> bool, number: int)
    requires keep(c)
    ensures CallTriggers([c, d, c], keep) ==
            if keep(d) then [CallTrigger(c), CallTrigger(d), CallTrigger(c)] else [CallTrigger(c), CallTrigger(c)]
    ensures var x, y := BlockTrigger(number, WithCallTo(c.to)), BlockTrigger(number, WithCallTo(d.to));
            WatchTriggers(number, [c, d, c], keep) == if keep(d) then [x, y, x] else [x, x]
  {
    assert [c, d, c][1..] == [d, c] && [d, c][1..] == [c] && [c][1..] == [];
    assert CallTriggers([c], keep) == [CallTrigger(c)];
    assert WatchTriggers(number, [c], keep) == [BlockTrigger(number, WithCallTo(c.to))];
  }

  /** Two equal calls to a contract in one transaction, with a call between them to a contract
      whose handlers start after the scan: parsing the block runs the call handler twice, scanning
      it runs the handler once. */
  lemma CallTwiceOnOnePath(f: Filter, w: C.CallFilter, b: Block, to: int, c: Call, d: Call, parsed: seq<Trigger>, scanned: seq<Trigger>)
    requires f.log.IsEmpty() && f.block.IsEmpty() && WatchFilter(w, f.block) && f.call.wildcards == {}
    requires f.call.contracts.Keys == {c.to, d.to} && f.call.Matches(c) && f.call.Matches(d) && c.txOk && d.txOk
    requires f.call.contracts[c.to].0 <= b.number <= to < f.call.contracts[d.to].0
    requires b.logs == [] && CallsOf(b.traces) == [c, d, c] && c.tx == d.tx
    requires SortedDistinct(parsed, ParsedList(f, w, b), LogsIn(b)) && SortedDistinct(scanned, ScannedList(f, w, b, to), LogsIn(b))
    ensures multiset(parsed)[CallTrigger(c)] == 2 && multiset(scanned)[CallTrigger(c)] == 1
  {
    assert CallScan.Started(f.call, to) == {c.to};
    ListAround(c, d, MatchingSucceeded(f.call), b.number);
    assert ParsedList(f, w, b) == [CallTrigger(c), CallTrigger(d), CallTrigger(c)];
    assert !LeftOut(f, w, to, CallTrigger(c)) && LeftOut(f, w, to, CallTrigger(d));
    Separated(f, w, b, to, CallTrigger(c), CallTrigger(d), parsed, scanned);
  }

  /** The same with call-filtered block triggers. */
  lemma WatchedTwiceOnOnePath(f: Filter, w: C.CallFilter, b: Block, to: int, c: Call, d: Call, parsed: seq<Trigger>, scanned: seq<Trigger>)
    requires f.log.IsEmpty() && f.call.IsEmpty() && !f.block.everyBlock && f.block.polling == {}
    requires WatchFilter(w, f.block) && w.contracts.Keys == {c.to, d.to} && |c.input| >= 4 && |d.input| >= 4
    requires w.contracts[c.to].0 <= b.number <= to < w.contracts[d.to].0
    requires b.logs == [] && CallsOf(b.traces) == [c, d, c]
    requires SortedDistinct(parsed, ParsedList(f, w, b), LogsIn(b)) && SortedDistinct(scanned, ScannedList(f, w, b, to), LogsIn(b))
    ensures multiset(parsed)[BlockTrigger(b.number, WithCallTo(c.to))] == 2
    ensures multiset(scanned)[BlockTrigger(b.number, WithCallTo(c.to))] == 1
  {
    assert CallScan.Started(w, to) == {c.to};
    var x, y := BlockTrigger(b.number, WithCallTo(c.to)), BlockTrigger(b.number, WithCallTo(d.to));
    WatchListAround(f, w, b, c, d);
    assert !LeftOut(f, w, to, x) && LeftOut(f, w, to, y);
    Separated(f, w, b, to, x, y, parsed, scanned);
  }

  lemma WatchListAround(f: Filter, w: C.CallFilter, b: Block, c: Call, d: Call)
    requires f.log.IsEmpty() && f.call.IsEmpty() && !f.block.everyBlock && f.block.polling == {}
    requires WatchFilter(w, f.block) && w.contracts.Keys == {c.to, d.to} && |c.input| >= 4 && |d.input| >= 4
    requires b.logs == [] && CallsOf(b.traces) == [c, d, c]
    ensures var x, y := BlockTrigger(b.number, WithCallTo(c.to)), BlockTrigger(b.number, WithCallTo(d.to));
            ParsedList(f, w, b) == [x, y, x]
  {
    WatchMatches(f.block, w, b.number, c);
    WatchMatches(f.block, w, b.number, d);
    ListAround(c, d, Matching(w), b.number);
    assert c.to in w.contracts && f.block.contracts != {};
    assert ScheduledKinds(b.number, f.block) == {};
  }

  lemma Separated(f: Filter, w: C.CallFilter, b: Block, to: int, x: Trigger, y: Trigger, parsed: seq<Trigger>, scanned: seq<Trigger>)
    requires WatchFilter(w, f.block) && ParsedList(f, w, b) == [x, y, x] && x != y && Tied(y, x) && !x.LogTrigger?
    requires !LeftOut(f, w, to, x) && LeftOut(f, w, to, y)
    requires SortedDistinct(parsed, ParsedList(f, w, b), LogsIn(b)) && SortedDistinct(scanned, ScannedList(f, w, b, to), LogsIn(b))
    ensures multiset(parsed)[x] == 2 && multiset(scanned)[x] == 1
  {
    KeptTwice(parsed, x, y, LogsIn(b));
    ScannedIsOnly(f, w, b, to);
    MergedToOne(scanned, x, y, ScanKeeps(f, w, to), LogsIn(b));
  }

  lemma MergedToOne(r: seq<Trigger>, x: Trigger, y: Trigger, keep: Trigger -> bool, logs: iset<Log>)
    requires keep(x) && !keep(y) && Among(logs, x) && SortedDistinct(r, Only([x, y, x], keep), logs)
    ensures multiset(r)[x] == 1
  {
    assert [x, y, x][1..] == [y, x] && [y, x][1..] == [x] && [x][1..] == [];
    assert Only([x], keep) == [x];
    assert Only([y, x], keep) == [] + Only([x], keep);
    assert Only([x, y, x], keep) == [x] + Only([y, x], keep) == [x, x];
    KeptOncePerRun(r, [x, x], logs, x);
    assert [x, x][1..] == [x];
    assert TiedWith([x], x) == [x];
    assert TiedWith([x, x], x) == [x] + [x] == [x, x];
    assert Groups([x], x) == 1;
  }
}
