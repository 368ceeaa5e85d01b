/** Whole-range scans of final blocks (`blocks_with_triggers`) and the triggers of a single
    block (`triggers_in_block`), from requests to sorted triggers. */
module RangeScan {
  import opened Types
  import opened TriggerFilters
  import opened Dispatch
  import opened Intervals
  import opened TriggerOrder
  import opened TriggerSieve
  import opened TriggerPaths
  import C = CallFilters
  import B = BlockFilters
  import LogScan
  import CallScan

  // Some chains have null blocks, numbers at which there is no block.
  datatype Chain = Chain(logs: LogScan.LogChain, traces: CallScan.TraceChain, receipts: int -> bool,
                         present: int -> bool, head: int)
  {
    ghost predicate Valid() {
      && LogScan.Numbered(logs) && CallScan.TracesNumbered(traces)
      && present(head)
      && (forall n :: !present(n) ==> logs(n) == [] && traces(n) == [])
      && (forall n :: !receipts(n) ==> traces(n) == [])
      && (forall n :: Regular(At(n)))
    }

    function At(n: int): Block {
      Block(n, logs(n), traces(n))
    }

    function Next(n: int): (m: int)
      requires n <= head && present(head)
      ensures n <= m <= head && present(m)
      ensures forall k :: n <= k < m ==> !present(k)
      decreases head - n
    {
      if present(n) then n else Next(n + 1)
    }
  }

  /** `next_existing_ptr_to_number`. */
  method NextExisting(c: Chain, n: int) returns (m: int)
    requires c.Valid() && n <= c.head
    ensures m == c.Next(n)
  {
    m := n;
    while !c.present(m)
      invariant n <= m <= c.head && c.Next(n) == c.Next(m)
      decreases c.head - m
    {
      m := m + 1;
    }
  }

  // ---------- what the requests of a range bring back ----------

  function NumberOf(t: Trigger): int {
    match t
    case BlockTrigger(n, _) => n
    case CallTrigger(call) => call.number
    case LogTrigger(log) => log.number
  }

  function OfNumber(n: int): Trigger -> bool {
    t => NumberOf(t) == n
  }

  /** The scheduled block triggers of a range. */
  function ScheduledList(c: Chain, f: B.BlockFilter, from: int, to: int): seq<Trigger>
    decreases (to - from)
  {
    if from > to then []
    else (if c.present(from) then KindTriggers(from, ScheduledKinds(from, f)) else []) + ScheduledList(c, f, from + 1, to)
  }

  lemma {:induction false} ScheduledOf(c: Chain, f: B.BlockFilter, from: int, to: int, n: int)
    ensures Only(ScheduledList(c, f, from, to), OfNumber(n)) ==
            if from <= n <= to && c.present(n) then KindTriggers(n, ScheduledKinds(n, f)) else []
    decreases (to - from)
  {
    if from <= to {
      ScheduledOf(c, f, from + 1, to, n);
      var first := if c.present(from) then KindTriggers(from, ScheduledKinds(from, f)) else [];
      OnlyConcat(first, ScheduledList(c, f, from + 1, to), OfNumber(n));
      if n == from {
        OnlySame(first, OfNumber(n));
      } else {
        OnlyNone(first, OfNumber(n));
      }
    }
  }

  lemma {:induction false} ScheduledConcat(c: Chain, f: B.BlockFilter, from: int, to: int)
    requires from <= to
    ensures ScheduledList(c, f, from, to) == ScheduledList(c, f, from, to - 1) +
              if c.present(to) then KindTriggers(to, ScheduledKinds(to, f)) else []
    decreases (to - from)
  {
    if from < to {
      ScheduledConcat(c, f, from + 1, to);
    }
  }

  /** A start or end of an existing block of the range at which one is due. */
  ghost predicate Due(c: Chain, f: B.BlockFilter, from: int, to: int, t: Trigger) {
    && t.BlockTrigger? && from <= t.number <= to && c.present(t.number)
    && ((t.kind.Start? && StartDue(f, t.number)) || (t.kind.End? && EndDue(f, t.number)))
  }

  lemma {:induction false} ScheduledIn(c: Chain, f: B.BlockFilter, from: int, to: int, t: Trigger)
    ensures t in ScheduledList(c, f, from, to) <==> Due(c, f, from, to, t)
    decreases (to - from)
  {
    if from <= to {
      ScheduledIn(c, f, from + 1, to, t);
      ScheduledKindsExact(from, f);
    }
  }

  method ScheduledTriggers(c: Chain, f: B.BlockFilter, from: int, to: int) returns (ts: seq<Trigger>)
    requires from <= to
    ensures ts == ScheduledList(c, f, from, to)
    ensures forall t :: t in ts <==> Due(c, f, from, to, t)
  {
    forall t
      ensures t in ScheduledList(c, f, from, to) <==> Due(c, f, from, to, t)
    {
      ScheduledIn(c, f, from, to, t);
    }
    ts := [];
    for n := from to to + 1
      invariant ts == ScheduledList(c, f, from, n - 1)
    {
      ScheduledConcat(c, f, from, n);
      if c.present(n) {
        ts := ts + KindTriggers(n, ScheduledKinds(n, f));
      }
    }
  }

  // ---- calls

  function FilterCalls(calls: seq<Call>, keep: Call -> bool): seq<Call> {
    if calls == [] then [] else (if keep(calls[0]) then [calls[0]] else []) + FilterCalls(calls[1..], keep)
  }

  function CallNumber(n: int): Call -> bool {
    (c: Call) => c.number == n
  }

  lemma FilterFront(c: Call, rest: seq<Call>, keep: Call -> bool)
    ensures FilterCalls([c] + rest, keep) == (if keep(c) then [c] else []) + FilterCalls(rest, keep)
  {
    assert ([c] + rest)[1..] == rest;
  }

  lemma {:induction false} FilterConcat(xs: seq<Call>, ys: seq<Call>, keep: Call -> bool)
    ensures FilterCalls(xs + ys, keep) == FilterCalls(xs, keep) + FilterCalls(ys, keep)
  {
    if xs == [] {
      assert xs + ys == ys;
    } else {
      var rest := xs[1..];
      FilterConcat(rest, ys, keep);
      FilterFront(xs[0], rest, keep);
      FilterFront(xs[0], rest + ys, keep);
      assert xs == [xs[0]] + rest && xs + ys == [xs[0]] + (rest + ys);
    }
  }

  lemma {:induction false} FilterAllOrNone(calls: seq<Call>, keep: Call -> bool)
    ensures (forall c :: c in calls ==> keep(c)) ==> FilterCalls(calls, keep) == calls
    ensures (forall c :: c in calls ==> !keep(c)) ==> FilterCalls(calls, keep) == []
  {
    if calls != [] {
      assert calls[0] in calls;
      FilterAllOrNone(calls[1..], keep);
      assert calls == [calls[0]] + calls[1..];
    }
  }

  /** The call-filtered block triggers of the calls of a range. */
  function WatchedList(calls: seq<Call>): seq<Trigger> {
    if calls == [] then []
    else [BlockTrigger(calls[0].number, WithCallTo(calls[0].to))] + WatchedList(calls[1..])
  }

  lemma {:induction false} CallsOfNumber(calls: seq<Call>, n: int, own: seq<Call>, keep: Call -> bool)
    requires FilterCalls(calls, CallNumber(n)) == FilterCalls(own, keep)
    ensures Only(CallTriggers(calls, EveryCall()), OfNumber(n)) == CallTriggers(own, keep)
    ensures Only(WatchedList(calls), OfNumber(n)) == WatchTriggers(n, own, keep)
  {
    OnlyCalls(calls, EveryCall(), OfNumber(n), CallNumber(n));
    FilteredTriggers(calls, n, CallNumber(n));
    FilteredTriggers(own, n, keep);
    WatchedOfNumber(calls, n);
  }

  lemma {:induction false} FilteredTriggers(calls: seq<Call>, n: int, keep: Call -> bool)
    ensures CallTriggers(calls, keep) == CallTriggers(FilterCalls(calls, keep), EveryCall())
    ensures WatchTriggers(n, calls, keep) == WatchTriggers(n, FilterCalls(calls, keep), EveryCall())
  {
    if calls != [] {
      FilteredTriggers(calls[1..], n, keep);
      var rest := FilterCalls(calls[1..], keep);
      if keep(calls[0]) {
        assert FilterCalls(calls, keep) == [calls[0]] + rest;
        assert ([calls[0]] + rest)[1..] == rest;
      } else {
        assert FilterCalls(calls, keep) == rest;
      }
    }
  }

  lemma {:induction false} WatchedOfNumber(calls: seq<Call>, n: int)
    ensures Only(WatchedList(calls), OfNumber(n)) == WatchTriggers(n, calls, CallNumber(n))
  {
    if calls != [] {
      WatchedOfNumber(calls[1..], n);
      OnlyFront([BlockTrigger(calls[0].number, WithCallTo(calls[0].to))], WatchedList(calls[1..]), OfNumber(n));
    }
  }

  /** Of a block's traces, those requested and matched are the calls that are fetched. */
  lemma {:induction false} BlockCalls(ts: seq<Trace>, f: C.CallFilter, to: int)
    requires CallScan.Started(f, to) != {} || f.wildcards != {}
    ensures CallScan.MatchingCalls(CallScan.SelectTraces(ts, CallScan.Requested(f, to)), f) ==
            FilterCalls(CallsOf(ts), Fetched(f, to))
  {
    if ts != [] {
      var maybe := CallScan.TryFromTrace(ts[0]);
      BlockCalls(ts[1..], f, to);
      SelectedFront(ts, f, CallScan.Requested(f, to));
      FilterConcat(if maybe.Some? then [maybe.value] else [], CallsOf(ts[1..]), Fetched(f, to));
      OneCall(maybe, Fetched(f, to));
      if maybe.Some? {
        RequestedIff(f, to, maybe.value);
      }
    }
  }

  lemma SelectedFront(ts: seq<Trace>, f: C.CallFilter, addresses: set<Address>)
    requires ts != []
    ensures var maybe := CallScan.TryFromTrace(ts[0]);
            CallScan.MatchingCalls(CallScan.SelectTraces(ts, addresses), f) ==
            (if (addresses == {} || ts[0].to in addresses) && maybe.Some? && f.Matches(maybe.value) then [maybe.value] else []) +
            CallScan.MatchingCalls(CallScan.SelectTraces(ts[1..], addresses), f)
  {
    var rest := CallScan.SelectTraces(ts[1..], addresses);
    if addresses == {} || ts[0].to in addresses {
      assert CallScan.SelectTraces(ts, addresses) == [ts[0]] + rest;
      assert ([ts[0]] + rest)[1..] == rest;
    } else {
      assert CallScan.SelectTraces(ts, addresses) == rest;
    }
  }

  lemma RequestedIff(f: C.CallFilter, to: int, c: Call)
    requires CallScan.Started(f, to) != {} || f.wildcards != {}
    ensures CallScan.Fetches(f, to, c) <==>
            f.Matches(c) && (CallScan.Requested(f, to) == {} || c.to in CallScan.Requested(f, to))
  {
    CallScan.FetchesByRequest(f, to, c);
  }

  lemma OneCall(maybe: Option<Call>, keep: Call -> bool)
    ensures FilterCalls(if maybe.Some? then [maybe.value] else [], keep) ==
            if maybe.Some? && keep(maybe.value) then [maybe.value] else []
  {
    if maybe.Some? {
      assert [maybe.value][1..] == [];
    }
  }

  /** The calls of block `n` among those of the range are the ones of the block that are fetched. */
  lemma {:induction false} RangeCallsOf(traces: CallScan.TraceChain, f: C.CallFilter, from: int, to: int, end: int, n: int)
    requires CallScan.TracesNumbered(traces) && (CallScan.Started(f, end) != {} || f.wildcards != {})
    ensures FilterCalls(CallScan.MatchingCalls(CallScan.ScanTraces(traces, CallScan.Requested(f, end), from, to), f), CallNumber(n)) ==
            if from <= n <= to then FilterCalls(CallsOf(traces(n)), Fetched(f, end)) else []
    decreases (to - from)
  {
    if from <= to {
      var addresses := CallScan.Requested(f, end);
      var first, rest := CallScan.SelectTraces(traces(from), addresses), CallScan.ScanTraces(traces, addresses, from + 1, to);
      RangeCallsOf(traces, f, from + 1, to, end, n);
      CallScan.MatchingCallsConcat(first, rest, f);
      FilterConcat(CallScan.MatchingCalls(first, f), CallScan.MatchingCalls(rest, f), CallNumber(n));
      BlockNumbers(traces, f, from, addresses);
      FilterAllOrNone(CallScan.MatchingCalls(first, f), CallNumber(n));
      BlockCalls(traces(from), f, end);
    }
  }

  lemma BlockNumbers(traces: CallScan.TraceChain, f: C.CallFilter, m: int, addresses: set<Address>)
    requires CallScan.TracesNumbered(traces)
    ensures forall c :: c in CallScan.MatchingCalls(CallScan.SelectTraces(traces(m), addresses), f) ==> c.number == m
  {
    forall c | c in CallScan.MatchingCalls(CallScan.SelectTraces(traces(m), addresses), f)
      ensures c.number == m
    {
      CallScan.MatchingCallsIn(CallScan.SelectTraces(traces(m), addresses), f, c);
      var t :| t in CallScan.SelectTraces(traces(m), addresses) && CallScan.TryFromTrace(t) == Some(c);
      CallScan.SelectTracesIn(traces(m), addresses, t);
    }
  }

  lemma FetchedCallsOf(traces: CallScan.TraceChain, f: C.CallFilter, from: int, to: int, n: int)
    requires CallScan.TracesNumbered(traces) && from <= n <= to
    ensures FilterCalls(CallScan.RangeCalls(traces, f, from, to), CallNumber(n)) == FilterCalls(CallsOf(traces(n)), Fetched(f, to))
  {
    if CallScan.Started(f, to) == {} && f.wildcards == {} {
      forall call
        ensures !CallScan.Fetches(f, to, call)
      {
        CallScan.FetchesByRequest(f, to, call);
      }
      FilterAllOrNone(CallsOf(traces(n)), Fetched(f, to));
    } else {
      RangeCallsOf(traces, f, from, to, to, n);
    }
  }

  /** A call filter on the contracts of a block filter; iteration order decides which start
      block a contract gets if there are several. */
  method ToCallFilter(f: B.BlockFilter) returns (w: C.CallFilter)
    ensures WatchFilter(w, f)
  {
    var m: C.Contracts := map[];
    var todo := f.contracts;
    while todo != {}
      invariant todo <= f.contracts
      invariant forall p :: p in f.contracts - todo ==> p.1 in m
      invariant forall a :: a in m ==> m[a].1 == {} && (m[a].0, a) in f.contracts
      decreases todo
    {
      var p :| p in todo;
      m := m[p.1 := (p.0, {})];
      todo := todo - {p};
    }
    w := C.CallFilter(m, {});
  }

  /** Skipping a scan with an empty filter loses nothing. */
  lemma EmptyFetchesNothing(f: Filter, w: C.CallFilter)
    requires WatchFilter(w, f.block)
    ensures f.log.IsEmpty() ==> forall l :: !LogScan.Fetches(f.log, l)
    ensures f.call.IsEmpty() ==> forall to, call :: !CallScan.Fetches(f.call, to, call)
    ensures f.block.contracts == {} ==> forall to, call :: !CallScan.Fetches(w, to, call)
    ensures !f.block.everyBlock && f.block.polling == {} ==> forall n :: ScheduledKinds(n, f.block) == {}
  {
  }

  // ---------- joining the answers ----------

  // The parts that are requested: scheduled block triggers, logs, calls, and call-filtered block
  // triggers.
  datatype Parts = Parts(scheduled: seq<Trigger>, logs: seq<Trigger>, calls: seq<Trigger>, watched: seq<Trigger>)
  {
    function Part(i: int): seq<Trigger> {
      if i == 0 then scheduled else if i == 1 then logs else if i == 2 then calls else watched
    }

    function Only(keep: Trigger -> bool): Parts {
      Parts(TriggerSieve.Only(scheduled, keep), TriggerSieve.Only(logs, keep), TriggerSieve.Only(calls, keep), TriggerSieve.Only(watched, keep))
    }

    predicate Has(t: Trigger) {
      t in scheduled || t in logs || t in calls || t in watched
    }
  }

  // The order in which the requests finish: which part comes first, second, third and fourth.
  datatype Arrival = Arrival(first: int, second: int, third: int, fourth: int)
  {
    predicate Valid() {
      {first, second, third, fourth} == {0, 1, 2, 3}
    }

    /** The call-filtered block triggers arrive before the scheduled ones. */
    predicate WatchFirst() {
      first == 3 || (second == 3 && first != 0) || (third == 3 && fourth == 0)
    }
  }

  function Join(p: Parts, o: Arrival): seq<Trigger> {
    p.Part(o.first) + p.Part(o.second) + p.Part(o.third) + p.Part(o.fourth)
  }

  lemma OnlyFour(x: seq<Trigger>, y: seq<Trigger>, z: seq<Trigger>, v: seq<Trigger>, keep: Trigger -> bool)
    ensures Only(x + y + z + v, keep) == Only(x, keep) + Only(y, keep) + Only(z, keep) + Only(v, keep)
  {
    OnlyConcat(x + y + z, v, keep);
    OnlyConcat(x + y, z, keep);
    OnlyConcat(x, y, keep);
  }

  lemma PartOnly(p: Parts, i: int, keep: Trigger -> bool)
    ensures p.Only(keep).Part(i) == Only(p.Part(i), keep)
  {
  }

  lemma OnlyJoin(p: Parts, o: Arrival, keep: Trigger -> bool)
    ensures Only(Join(p, o), keep) == Join(p.Only(keep), o)
  {
    OnlyFour(p.Part(o.first), p.Part(o.second), p.Part(o.third), p.Part(o.fourth), keep);
    PartOnly(p, o.first, keep);
    PartOnly(p, o.second, keep);
    PartOnly(p, o.third, keep);
    PartOnly(p, o.fourth, keep);
  }

  lemma ArrivalDistinct(o: Arrival)
    requires o.Valid()
    ensures o.first != o.second && o.first != o.third && o.first != o.fourth
    ensures o.second != o.third && o.second != o.fourth && o.third != o.fourth
    ensures 0 <= o.first < 4 && 0 <= o.second < 4 && 0 <= o.third < 4 && 0 <= o.fourth < 4
  {
    var all := {o.first, o.second, o.third, o.fourth};
    assert o.first in all && o.second in all && o.third in all && o.fourth in all;
    assert 0 in all && 1 in all && 2 in all && 3 in all;
  }

  lemma JoinCalls(p: Parts, o: Arrival)
    requires o.Valid() && p.scheduled == [] && p.logs == [] && p.watched == []
    ensures Join(p, o) == p.calls
  {
    ArrivalDistinct(o);
  }

  lemma JoinBlocks(p: Parts, o: Arrival)
    requires o.Valid() && p.logs == [] && p.calls == []
    ensures Join(p, o) == if o.WatchFirst() then p.watched + p.scheduled else p.scheduled + p.watched
  {
    ArrivalDistinct(o);
  }

  lemma JoinHas(p: Parts, o: Arrival, t: Trigger)
    requires o.Valid()
    ensures t in Join(p, o) <==> p.Has(t)
  {
    ArrivalDistinct(o);
  }

  /** What the requests of a range bring back; logs in any order and repeatedly. */
  ghost predicate Collected(p: Parts, c: Chain, f: Filter, w: C.CallFilter, from: int, to: int) {
    && p.scheduled == ScheduledList(c, f.block, from, to)
    && (forall t :: t in p.logs <==> t.LogTrigger? && from <= t.log.number <= to && t.log in c.logs(t.log.number) && LogScan.Fetches(f.log, t.log))
    && p.calls == CallTriggers(CallScan.RangeCalls(c.traces, f.call, from, to), EveryCall())
    && p.watched == WatchedList(CallScan.RangeCalls(c.traces, w, from, to))
  }

  /** The triggers of block `n` among them. */
  lemma PartsOf(p: Parts, c: Chain, f: Filter, w: C.CallFilter, from: int, to: int, n: int)
    requires c.Valid() && Collected(p, c, f, w, from, to) && from <= n <= to && c.present(n)
    ensures var q := p.Only(OfNumber(n));
            && q.scheduled == KindTriggers(n, ScheduledKinds(n, f.block))
            && (forall t :: t in q.logs <==> t.LogTrigger? && t.log in c.logs(n) && LogScan.Fetches(f.log, t.log))
            && q.calls == CallTriggers(CallsOf(c.traces(n)), Fetched(f.call, to))
            && q.watched == WatchTriggers(n, CallsOf(c.traces(n)), Fetched(w, to))
  {
    ScheduledOf(c, f.block, from, to, n);
    OnlyIn(p.logs, OfNumber(n));
    FetchedCallsOf(c.traces, f.call, from, to, n);
    CallsOfNumber(CallScan.RangeCalls(c.traces, f.call, from, to), n, CallsOf(c.traces(n)), Fetched(f.call, to));
    FetchedCallsOf(c.traces, w, from, to, n);
    CallsOfNumber(CallScan.RangeCalls(c.traces, w, from, to), n, CallsOf(c.traces(n)), Fetched(w, to));
  }

  lemma JoinArrives(p: Parts, o: Arrival, c: Chain, f: Filter, w: C.CallFilter, from: int, to: int, n: int)
    requires c.Valid() && Collected(p, c, f, w, from, to) && from <= n <= to && c.present(n) && o.Valid()
    ensures Arrives(Only(Join(p, o), OfNumber(n)), f, w, c.At(n), to, o.WatchFirst())
  {
    var q := p.Only(OfNumber(n));
    OnlyJoin(p, o, OfNumber(n));
    PartsOf(p, c, f, w, from, to, n);
    KindsOfParts(q, c.At(n), f, w, to);
    JoinKinds(q, o);
    forall l
      ensures LogTrigger(l) in Join(q, o) <==> l in c.logs(n) && LogScan.Fetches(f.log, l)
    {
      JoinHas(q, o, LogTrigger(l));
    }
  }

  lemma JoinKinds(q: Parts, o: Arrival)
    requires o.Valid()
    requires q.Only(IsCall()) == Parts([], [], q.calls, []) && q.Only(IsBlock()) == Parts(q.scheduled, [], [], q.watched)
    ensures Only(Join(q, o), IsCall()) == q.calls
    ensures Only(Join(q, o), IsBlock()) == if o.WatchFirst() then q.watched + q.scheduled else q.scheduled + q.watched
  {
    OnlyJoin(q, o, IsCall());
    JoinCalls(q.Only(IsCall()), o);
    OnlyJoin(q, o, IsBlock());
    JoinBlocks(q.Only(IsBlock()), o);
  }

  lemma KindsOfParts(q: Parts, b: Block, f: Filter, w: C.CallFilter, to: int)
    requires q.scheduled == KindTriggers(b.number, ScheduledKinds(b.number, f.block)) && forall t :: t in q.logs ==> t.LogTrigger?
    requires q.calls == CallTriggers(CallsOf(b.traces), Fetched(f.call, to))
    requires q.watched == WatchTriggers(b.number, CallsOf(b.traces), Fetched(w, to))
    ensures forall t :: t in q.scheduled || t in q.watched ==> t.BlockTrigger?
    ensures forall t :: t in q.calls ==> t.CallTrigger?
    ensures q.Only(IsCall()) == Parts([], [], q.calls, [])
    ensures q.Only(IsBlock()) == Parts(q.scheduled, [], [], q.watched)
  {
    CallTriggersIn(CallsOf(b.traces), Fetched(f.call, to));
    forall t | t in q.watched
      ensures t.BlockTrigger?
    {
      WatchTriggersIn(b.number, CallsOf(b.traces), Fetched(w, to), t);
    }
    OnlyNone(q.scheduled, IsCall());
    OnlyNone(q.logs, IsCall());
    OnlySame(q.calls, IsCall());
    OnlyNone(q.watched, IsCall());
    OnlySame(q.scheduled, IsBlock());
    OnlyNone(q.logs, IsBlock());
    OnlyNone(q.calls, IsBlock());
    OnlySame(q.watched, IsBlock());
  }

  /** Every trigger that arrives belongs to an existing block of the range. */
  lemma ArrivesPresent(p: Parts, o: Arrival, c: Chain, f: Filter, w: C.CallFilter, from: int, to: int, t: Trigger)
    requires c.Valid() && Collected(p, c, f, w, from, to) && o.Valid() && t in Join(p, o)
    ensures from <= NumberOf(t) <= to && c.present(NumberOf(t))
  {
    JoinHas(p, o, t);
    if t in p.scheduled {
      ScheduledOf(c, f.block, from, to, NumberOf(t));
      OnlyIn(p.scheduled, OfNumber(NumberOf(t)));
    } else if t in p.calls {
      CallTriggersIn(CallScan.RangeCalls(c.traces, f.call, from, to), EveryCall());
      CallScan.RangeCallsIn(c.traces, f.call, from, to, t.call);
    } else if t in p.watched {
      var call := WatchedIn(CallScan.RangeCalls(c.traces, w, from, to), t);
      CallScan.RangeCallsIn(c.traces, w, from, to, call);
    }
  }

  lemma {:induction false} WatchedIn(calls: seq<Call>, t: Trigger) returns (call: Call)
    requires t in WatchedList(calls)
    ensures call in calls && call.number == NumberOf(t)
  {
    if t == BlockTrigger(calls[0].number, WithCallTo(calls[0].to)) {
      call := calls[0];
    } else {
      call := WatchedIn(calls[1..], t);
    }
  }

  // ---------- blocks_with_triggers ----------

  /** Whether the requests are answered: logs, calls, watched calls, block pointers, and the traces
      of a single block (or these are known already). */
  datatype Replies = Replies(logs: nat -> LogScan.Provider, calls: CallScan.TraceReplies,
                             watches: CallScan.TraceReplies, pointers: bool, blockTraces: bool)
  {
    /** The requests that this filter leads to are answered, if only for single blocks. */
    ghost predicate Cope(f: Filter) {
      && (f.log.graph != map[] || f.log.wildcards != map[] || f.log.topicEvents != map[] ==> forall i :: LogScan.Copes(logs(i)))
      && (f.call.contracts != map[] || f.call.wildcards != {} ==> forall a, b :: calls(a, b))
      && (f.block.contracts != {} ==> forall a, b :: watches(a, b))
      && (f.block.everyBlock || f.block.polling != {} ==> pointers)
    }
  }

  datatype Limits = Limits(cap: nat, maxEventOnly: int, stepSize: int)
  {
    predicate Valid() {
      cap >= 1 && maxEventOnly >= 1 && stepSize >= 1
    }
  }

  method CollectTriggers(c: Chain, replies: Replies, f: Filter, w: C.CallFilter, from: int, to: int, limits: Limits)
    returns (p: Option<Parts>)
    requires c.Valid() && WatchFilter(w, f.block) && from <= to && limits.Valid()
    ensures p.Some? ==> Collected(p.value, c, f, w, from, to)
    ensures replies.Cope(f) ==> p.Some?
  {
    EmptyFetchesNothing(f, w);
    var scheduled: seq<Trigger> := [];
    if f.block.everyBlock || f.block.polling != {} {
      if !replies.pointers {
        return None;
      }
      scheduled := ScheduledTriggers(c, f.block, from, to);
    } else {
      NothingScheduled(c, f.block, from, to);
    }
    var logs: seq<Log> := [];
    if !f.log.IsEmpty() {
      var some := LogScan.LogsInBlockRange(c.logs, replies.logs, f.log, from, to, limits.cap, limits.maxEventOnly);
      if some.None? {
        return None;
      }
      logs := some.value;
    }
    var calls: seq<Call> := [];
    if !f.call.IsEmpty() {
      var some := CallScan.CallsInBlockRange(c.traces, replies.calls, from, to, f.call, limits.stepSize);
      if some.None? {
        return None;
      }
      calls := some.value;
    }
    var watched: seq<Call> := [];
    if f.block.contracts != {} {
      var some := CallScan.CallsInBlockRange(c.traces, replies.watches, from, to, w, limits.stepSize);
      if some.None? {
        return None;
      }
      watched := some.value;
    }
    p := Some(Parts(scheduled, LogTriggers(logs, EveryLog()), CallTriggers(calls, EveryCall()), WatchedList(watched)));
    Assembled(c, f, w, from, to, scheduled, logs, calls, watched);
  }

  lemma Assembled(c: Chain, f: Filter, w: C.CallFilter, from: int, to: int, scheduled: seq<Trigger>, logs: seq<Log>, calls: seq<Call>, watched: seq<Call>)
    requires scheduled == ScheduledList(c, f.block, from, to)
    requires forall l :: l in logs <==> from <= l.number <= to && l in c.logs(l.number) && LogScan.Fetches(f.log, l)
    requires calls == CallScan.RangeCalls(c.traces, f.call, from, to) && watched == CallScan.RangeCalls(c.traces, w, from, to)
    ensures Collected(Parts(scheduled, LogTriggers(logs, EveryLog()), CallTriggers(calls, EveryCall()), WatchedList(watched)), c, f, w, from, to)
  {
    LogTriggersIn(logs, EveryLog());
  }

  lemma {:induction false} NothingScheduled(c: Chain, f: B.BlockFilter, from: int, to: int)
    requires !f.everyBlock && f.polling == {}
    ensures ScheduledList(c, f, from, to) == []
    decreases (to - from)
  {
    if from <= to {
      NothingScheduled(c, f, from + 1, to);
    }
  }

  function Lookup(m: map<int, seq<Trigger>>, n: int): seq<Trigger> {
    if n in m then m[n] else []
  }

  ghost predicate Grouped(m: map<int, seq<Trigger>>, ts: seq<Trigger>) {
    && (forall n :: Lookup(m, n) == Only(ts, OfNumber(n)))
    && (forall n :: n in m ==> m[n] != [])
  }

  method GroupByBlock(ts: seq<Trigger>) returns (m: map<int, seq<Trigger>>)
    ensures Grouped(m, ts)
  {
    m := map[];
    for i := 0 to |ts|
      invariant Grouped(m, ts[..i])
    {
      var n := NumberOf(ts[i]);
      assert ts[..i + 1] == ts[..i] + [ts[i]];
      GroupOne(m, ts[..i], ts[i]);
      m := m[n := Lookup(m, n) + [ts[i]]];
    }
    assert ts[..|ts|] == ts;
  }

  lemma GroupOne(m: map<int, seq<Trigger>>, ts: seq<Trigger>, t: Trigger)
    requires Grouped(m, ts)
    ensures Grouped(m[NumberOf(t) := Lookup(m, NumberOf(t)) + [t]], ts + [t])
  {
    forall k
      ensures Lookup(m[NumberOf(t) := Lookup(m, NumberOf(t)) + [t]], k) == Only(ts + [t], OfNumber(k))
    {
      OnlyConcat(ts, [t], OfNumber(k));
      OnlyFront([t], [], OfNumber(k));
      assert [t] + [] == [t];
    }
  }

  /** The triggers of a block, as they are processed after a scan that ended at `to`. */
  ghost predicate IsScanned(r: seq<Trigger>, f: Filter, w: C.CallFilter, b: Block, to: int, watchFirst: bool) {
    SortedDistinct(r, ArrivedList(f, w, b, to, watchFirst), LogsIn(b))
  }

  /** The triggers of a parsed block, as they are processed. */
  ghost predicate IsParsed(r: seq<Trigger>, f: Filter, w: C.CallFilter, b: Block) {
    SortedDistinct(r, ParsedList(f, w, b), LogsIn(b))
  }

  ghost predicate EachScanned(blocks: map<int, seq<Trigger>>, c: Chain, f: Filter, w: C.CallFilter, to: int, watchFirst: bool) {
    forall n :: n in blocks ==> IsScanned(blocks[n], f, w, c.At(n), to, watchFirst)
  }

  lemma EachScannedPut(blocks: map<int, seq<Trigger>>, n: int, sorted: seq<Trigger>, c: Chain, f: Filter, w: C.CallFilter, to: int, watchFirst: bool)
    requires EachScanned(blocks, c, f, w, to, watchFirst) && IsScanned(sorted, f, w, c.At(n), to, watchFirst)
    ensures EachScanned(blocks[n := sorted], c, f, w, to, watchFirst)
  {
  }

  ghost predicate SameBelow(blocks: map<int, seq<Trigger>>, byBlock: map<int, seq<Trigger>>, n: int) {
    forall k :: k in blocks <==> k in byBlock && k < n
  }

  lemma SameBelowPut(blocks: map<int, seq<Trigger>>, byBlock: map<int, seq<Trigger>>, n: int, sorted: seq<Trigger>)
    requires SameBelow(blocks, byBlock, n) && n in byBlock
    ensures SameBelow(blocks[n := sorted], byBlock, n + 1)
  {
  }

  ghost predicate Ready(ts: seq<Trigger>, f: Filter, w: C.CallFilter, b: Block, to: int, watchFirst: bool) {
    Regular(b) && Arrives(ts, f, w, b, to, watchFirst)
  }

  method ScannedBlock(ts: seq<Trigger>, ghost f: Filter, ghost w: C.CallFilter, ghost b: Block, ghost to: int, ghost watchFirst: bool)
    returns (r: seq<Trigger>)
    requires Ready(ts, f, w, b, to, watchFirst)
    ensures IsScanned(r, f, w, b, to, watchFirst)
  {
    forall i | 0 <= i < |ts|
      ensures Among(LogsIn(b), ts[i])
    {
      assert ts[i] in ts;
    }
    var sorted := BlockWithTriggers(ts, LogsIn(b));
    r := Only(sorted, NotFailed());
    ArrivedSorted(ts, sorted, f, w, b, to, watchFirst);
  }

  /** The triggers that a scan ending at `to` yields for block `n`: the logs of the block that are
      requested, the calls its traces make that are fetched and whose transaction succeeded, one
      block trigger per callee of a fetched watched call, and the starts and ends that are due. */
  ghost predicate Yielded(c: Chain, f: Filter, w: C.CallFilter, n: int, to: int, t: Trigger) {
    match t
    case LogTrigger(l) => l in c.logs(n) && LogScan.Fetches(f.log, l)
    case CallTrigger(call) => call.txOk && MadeIn(c, n, call) && CallScan.Fetches(f.call, to, call)
    case BlockTrigger(m, Start) => m == n && StartDue(f.block, n)
    case BlockTrigger(m, End) => m == n && EndDue(f.block, n)
    case BlockTrigger(m, WithCallTo(a)) =>
      m == n && exists call :: MadeIn(c, n, call) && call.to == a && CallScan.Fetches(w, to, call)
  }

  ghost predicate MadeIn(c: Chain, n: int, call: Call) {
    exists t :: t in c.traces(n) && CallScan.MadeBy(call, t)
  }

  ghost predicate HasYielded(ts: seq<Trigger>, c: Chain, f: Filter, w: C.CallFilter, n: int, to: int) {
    forall t :: t in ts <==> Yielded(c, f, w, n, to, t)
  }

  lemma ScannedYields(ts: seq<Trigger>, c: Chain, f: Filter, w: C.CallFilter, n: int, to: int, watchFirst: bool)
    requires WatchFilter(w, f.block) && IsScanned(ts, f, w, c.At(n), to, watchFirst)
    ensures HasYielded(ts, c, f, w, n, to)
  {
    forall t
      ensures t in ts <==> Yielded(c, f, w, n, to, t)
    {
      ArrivedSet(ts, f, w, c.At(n), to, watchFirst, t);
      YieldedIsScanned(c, f, w, n, to, t);
    }
  }

  lemma YieldedIsScanned(c: Chain, f: Filter, w: C.CallFilter, n: int, to: int, t: Trigger)
    ensures t in ScannedTriggers(f, w, c.At(n), to) <==> Yielded(c, f, w, n, to, t)
  {
    ScheduledKindsExact(n, f.block);
    match t
    case LogTrigger(l) =>
    case CallTrigger(call) =>
      ScannedCall(f, w, c.At(n), to, call);
      CallsExact(c.At(n), call);
    case BlockTrigger(m, WithCallTo(a)) =>
      if m == n {
        ScannedWatch(f, w, c.At(n), to, a);
        forall call
          ensures call in Calls(c.At(n)) <==> MadeIn(c, n, call)
        {
          CallsExact(c.At(n), call);
        }
      }
    case BlockTrigger(m, _) =>
  }

  /** The triggers that parsing block `n` in memory yields: unlike a scan it takes all logs of the
      block if there is any log filter, and all calls that match, whatever was requested. */
  ghost predicate InMemory(c: Chain, f: Filter, w: C.CallFilter, n: int, t: Trigger) {
    match t
    case LogTrigger(l) =>
      l in c.logs(n) && (f.log.graph != map[] || f.log.wildcards != map[] || f.log.topicEvents != map[])
    case CallTrigger(call) => call.txOk && MadeIn(c, n, call) && f.call.Matches(call)
    case BlockTrigger(m, Start) => m == n && StartDue(f.block, n)
    case BlockTrigger(m, End) => m == n && EndDue(f.block, n)
    case BlockTrigger(m, WithCallTo(a)) => m == n && exists call :: MadeIn(c, n, call) && call.to == a && w.Matches(call)
  }

  ghost predicate HasInMemory(ts: seq<Trigger>, c: Chain, f: Filter, w: C.CallFilter, n: int) {
    forall t :: t in ts <==> InMemory(c, f, w, n, t)
  }

  lemma ParsedYields(ts: seq<Trigger>, c: Chain, f: Filter, w: C.CallFilter, n: int)
    requires WatchFilter(w, f.block) && IsParsed(ts, f, w, c.At(n))
    ensures HasInMemory(ts, c, f, w, n)
  {
    forall t
      ensures t in ts <==> InMemory(c, f, w, n, t)
    {
      ParsedSorted(ts, f, w, c.At(n), t);
      InMemoryIsParsed(c, f, w, n, t);
    }
  }

  lemma InMemoryIsParsed(c: Chain, f: Filter, w: C.CallFilter, n: int, t: Trigger)
    requires WatchFilter(w, f.block)
    ensures t in ParsedTriggers(f, w, c.At(n)) <==> InMemory(c, f, w, n, t)
  {
    match t
    case LogTrigger(l) =>
    case CallTrigger(call) =>
      ParsedCall(f, w, c.At(n), call);
      CallsExact(c.At(n), call);
    case BlockTrigger(m, WithCallTo(a)) =>
      if m == n {
        ParsedWatch(f, w, c.At(n), a);
        forall call
          ensures call in Calls(c.At(n)) <==> MadeIn(c, n, call)
        {
          CallsExact(c.At(n), call);
        }
      }
    case BlockTrigger(m, _) =>
      ParsedKind(f, w, c.At(n), t.kind);
      ScheduledKindsExact(n, f.block);
  }

  /** `blocks_with_triggers`: for every block of the resolved range its triggers, sorted and
      deduplicated; a block without any may be absent, but the last one is always there. `None` is
      an error. */
  method BlocksWithTriggers(c: Chain, replies: Replies, f: Filter, from: int, to: int, limits: Limits, arrival: Arrival)
    returns (r: Option<map<int, seq<Trigger>>>, last: int, w: C.CallFilter)
    requires c.Valid() && from <= to <= c.head && limits.Valid() && arrival.Valid()
    ensures last == c.Next(to) && WatchFilter(w, f.block)
    ensures replies.Cope(f) ==> r.Some?
    ensures r.Some? ==> last in r.value
    ensures r.Some? ==> forall n :: n in r.value ==>
              from <= n <= last && c.present(n) && IsScanned(r.value[n], f, w, c.At(n), last, arrival.WatchFirst())
    ensures r.Some? ==> forall n :: from <= n <= last && c.present(n) && n !in r.value ==>
              IsScanned([], f, w, c.At(n), last, arrival.WatchFirst())
    ensures r.Some? ==> forall n :: from <= n <= last && c.present(n) ==> HasYielded(Lookup(r.value, n), c, f, w, n, last)
  {
    w := ToCallFilter(f.block);
    last := NextExisting(c, to);
    var p := CollectTriggers(c, replies, f, w, from, last, limits);
    if p.None? {
      return None, last, w;
    }
    var ts := Join(p.value, arrival);
    var byBlock := GroupByBlock(ts);
    ghost var watchFirst := arrival.WatchFirst();
    GroupsArrive(p.value, arrival, byBlock, c, f, w, from, last);
    if last !in byBlock {
      byBlock := byBlock[last := []];
    }
    var blocks := SortBlocks(c, byBlock, f, w, from, last, watchFirst);
    r := Some(blocks);
    forall n | from <= n <= last && c.present(n) && n !in blocks
      ensures IsScanned([], f, w, c.At(n), last, watchFirst)
    {
      assert Lookup(byBlock, n) == [];
      NothingArrives(f, w, c.At(n), last, watchFirst);
    }
    BlocksYield(blocks, c, f, w, from, last, watchFirst);
  }

  lemma BlocksYield(blocks: map<int, seq<Trigger>>, c: Chain, f: Filter, w: C.CallFilter, from: int, to: int, watchFirst: bool)
    requires WatchFilter(w, f.block) && EachScanned(blocks, c, f, w, to, watchFirst)
    requires forall n :: from <= n <= to && c.present(n) && n !in blocks ==> IsScanned([], f, w, c.At(n), to, watchFirst)
    ensures forall n :: from <= n <= to && c.present(n) ==> HasYielded(Lookup(blocks, n), c, f, w, n, to)
  {
    forall n | from <= n <= to && c.present(n)
      ensures HasYielded(Lookup(blocks, n), c, f, w, n, to)
    {
      ScannedYields(Lookup(blocks, n), c, f, w, n, to, watchFirst);
    }
  }

  lemma GroupsArrive(p: Parts, arrival: Arrival, byBlock: map<int, seq<Trigger>>, c: Chain, f: Filter, w: C.CallFilter, from: int, to: int)
    requires c.Valid() && Collected(p, c, f, w, from, to) && arrival.Valid() && Grouped(byBlock, Join(p, arrival))
    ensures forall n :: from <= n <= to && c.present(n) ==> Arrives(Lookup(byBlock, n), f, w, c.At(n), to, arrival.WatchFirst())
    ensures forall n :: n in byBlock ==> from <= n <= to && c.present(n)
  {
    forall n | from <= n <= to && c.present(n)
      ensures Arrives(Lookup(byBlock, n), f, w, c.At(n), to, arrival.WatchFirst())
    {
      JoinArrives(p, arrival, c, f, w, from, to, n);
    }
    forall n | n in byBlock
      ensures from <= n <= to && c.present(n)
    {
      OnlyIn(Join(p, arrival), OfNumber(n));
      var t := Lookup(byBlock, n)[0];
      assert t in Lookup(byBlock, n);
      ArrivesPresent(p, arrival, c, f, w, from, to, t);
    }
  }

  lemma NothingArrives(f: Filter, w: C.CallFilter, b: Block, to: int, watchFirst: bool)
    requires Regular(b) && Arrives([], f, w, b, to, watchFirst)
    ensures IsScanned([], f, w, b, to, watchFirst)
  {
    assert SortedDistinct([], [], LogsIn(b));
    ArrivedSorted([], [], f, w, b, to, watchFirst);
  }

  method SortBlocks(c: Chain, byBlock: map<int, seq<Trigger>>, ghost f: Filter, ghost w: C.CallFilter,
                    from: int, to: int, ghost watchFirst: bool) returns (blocks: map<int, seq<Trigger>>)
    requires from <= to && forall n :: n in byBlock ==> from <= n <= to && Ready(byBlock[n], f, w, c.At(n), to, watchFirst)
    ensures forall k :: k in blocks <==> k in byBlock
    ensures EachScanned(blocks, c, f, w, to, watchFirst)
  {
    blocks := map[];
    for n := from to to + 1
      invariant SameBelow(blocks, byBlock, n)
      invariant EachScanned(blocks, c, f, w, to, watchFirst)
    {
      if n in byBlock {
        var sorted := ScannedBlock(byBlock[n], f, w, c.At(n), to, watchFirst);
        EachScannedPut(blocks, n, sorted, c, f, w, to, watchFirst);
        SameBelowPut(blocks, byBlock, n, sorted);
        blocks := blocks[n := sorted];
      }
    }
  }

  // ---------- end to end ----------

  function SetOf(ts: seq<Trigger>): set<Trigger> {
    set t | t in ts
  }

  predicate RequiresTraces(f: Filter) {
    !f.call.IsEmpty() || f.block.contracts != {}
  }

  /** `triggers_in_block`: a final block goes through a range scan of itself, a non-final one is
      parsed in memory. Either way the data sources that the filter covers have the runs they
      would have if every trigger of the block were offered to them. Traces of a non-final block are
      asked for if the filter requires them and the block has receipts. `None` is an error. */
  method TriggersInBlock(c: Chain, replies: Replies, f: Filter, n: int, isFinal: bool, limits: Limits, arrival: Arrival,
                         ghost dss: seq<DataSource>) returns (ts: Option<seq<Trigger>>, w: C.CallFilter)
    requires c.Valid() && n <= c.head && c.present(n) && B.OnePerContract(f.block.contracts)
    requires limits.Valid() && arrival.Valid()
    requires forall d :: d in dss ==> Covers(f, d) && HasSource(d)
    ensures isFinal && replies.Cope(f) ==> ts.Some?
    ensures !isFinal ==>
              (ts.None? <==>
                 && (f.call.contracts != map[] || f.call.wildcards != {} || f.block.contracts != {})
                 && c.receipts(n) && !replies.blockTraces)
    ensures WatchFilter(w, f.block)
    ensures ts.Some? ==> if isFinal then IsScanned(ts.value, f, w, c.At(n), n, arrival.WatchFirst()) else IsParsed(ts.value, f, w, c.At(n))
    ensures ts.Some? ==> if isFinal then HasYielded(ts.value, c, f, w, n, n) else HasInMemory(ts.value, c, f, w, n)
    ensures ts.Some? ==> forall codec :: Runs(dss, SetOf(ts.value), n, codec) == Runs(dss, AllTriggers(c.At(n)), n, codec)
  {
    if isFinal {
      var blocks, last;
      blocks, last, w := BlocksWithTriggers(c, replies, f, n, n, limits, arrival);
      if blocks.None? {
        return None, w;
      }
      // exactly one block
      assert last == n && forall k :: k in blocks.value <==> k == n;
      ts := Some(blocks.value[n]);
      assert Lookup(blocks.value, n) == ts.value;
    } else {
      w := ToCallFilter(f.block);
      if RequiresTraces(f) && c.receipts(n) && !replies.blockTraces {
        return None, w;
      }
      ParsedAmong(f, w, c.At(n));
      var r := BlockWithTriggers(ParsedList(f, w, c.At(n)), LogsIn(c.At(n)));
      ts := Some(r);
      ParsedYields(r, c, f, w, n);
    }
    forall codec
      ensures Runs(dss, SetOf(ts.value), n, codec) == Runs(dss, AllTriggers(c.At(n)), n, codec)
    {
      if isFinal {
        ScannedRuns(ts.value, f, w, dss, c.At(n), n, arrival.WatchFirst(), codec);
      } else {
        ParsedRuns(ts.value, f, w, dss, c.At(n), codec);
      }
    }
  }

  lemma ScannedRuns(r: seq<Trigger>, f: Filter, w: C.CallFilter, dss: seq<DataSource>, b: Block, to: int, watchFirst: bool, codec: Codec)
    requires forall d :: d in dss ==> Covers(f, d) && HasSource(d)
    requires WatchFilter(w, f.block) && B.OnePerContract(f.block.contracts) && b.number <= to
    requires IsScanned(r, f, w, b, to, watchFirst)
    ensures Runs(dss, SetOf(r), b.number, codec) == Runs(dss, AllTriggers(b), b.number, codec)
  {
    PathsAgree(f, w, dss, b, to, codec);
    forall t
      ensures t in SetOf(r) <==> t in ScannedTriggers(f, w, b, to)
    {
      ArrivedSet(r, f, w, b, to, watchFirst, t);
    }
    assert SetOf(r) == ScannedTriggers(f, w, b, to);
  }

  lemma ParsedRuns(r: seq<Trigger>, f: Filter, w: C.CallFilter, dss: seq<DataSource>, b: Block, codec: Codec)
    requires forall d :: d in dss ==> Covers(f, d) && HasSource(d)
    requires WatchFilter(w, f.block) && B.OnePerContract(f.block.contracts) && IsParsed(r, f, w, b)
    ensures Runs(dss, SetOf(r), b.number, codec) == Runs(dss, AllTriggers(b), b.number, codec)
  {
    PathsAgree(f, w, dss, b, b.number, codec);
    forall t
      ensures t in SetOf(r) <==> t in ParsedTriggers(f, w, b)
    {
      ParsedSorted(r, f, w, b, t);
    }
    assert SetOf(r) == ParsedTriggers(f, w, b);
  }

  /** Building the filter of a list of validated data sources and scanning a range with it: every
      existing block of the range has the triggers of the scan, sorted and deduplicated, and the
      runs of offering it everything. For every order of arrival it is known exactly when the runs
      also come in the same sequence as when the block is parsed. */
  method ScanDataSources(c: Chain, replies: Replies, dss: seq<DataSource>, from: int, to: int, limits: Limits, arrival: Arrival)
    returns (r: Option<map<int, seq<Trigger>>>, last: int, w: C.CallFilter, ghost f: Filter)
    requires c.Valid() && from <= to <= c.head && forall d :: d in dss ==> HasSource(d)
    requires limits.Valid() && arrival.Valid()
    ensures last == c.Next(to) && BuiltFrom(f, dss) && WatchFilter(w, f.block)
    ensures replies.Cope(f) ==> r.Some?
    ensures r.Some? ==> forall n :: from <= n <= last && c.present(n) ==>
              IsScanned(Lookup(r.value, n), f, w, c.At(n), last, arrival.WatchFirst())
    ensures r.Some? ==> forall n, codec :: from <= n <= last && c.present(n) ==>
              Runs(dss, SetOf(Lookup(r.value, n)), n, codec) == Runs(dss, AllTriggers(c.At(n)), n, codec)
    ensures r.Some? ==> forall n, codec, parsed ::
              from <= n <= last && c.present(n) && IsParsed(parsed, f, w, c.At(n)) ==>
              SameRunsIff(dss, f, w, c.At(n), last, arrival.WatchFirst(), codec, parsed, Lookup(r.value, n))
  {
    var filter := new TriggerFilter.FromDataSources(dss);
    f := filter.Value();
    r, last, w := BlocksWithTriggers(c, replies, filter.Value(), from, to, limits, arrival);
    BuiltCoversAll(f, dss);
    if r.Some? {
      forall n, codec | from <= n <= last && c.present(n)
        ensures Runs(dss, SetOf(Lookup(r.value, n)), n, codec) == Runs(dss, AllTriggers(c.At(n)), n, codec)
      {
        ScannedRuns(Lookup(r.value, n), f, w, dss, c.At(n), last, arrival.WatchFirst(), codec);
      }
      forall n, codec, parsed | from <= n <= last && c.present(n) && IsParsed(parsed, f, w, c.At(n))
        ensures SameRunsIff(dss, f, w, c.At(n), last, arrival.WatchFirst(), codec, parsed, Lookup(r.value, n))
      {
        assert Regular(c.At(n));
        PathRunsAgreeIff(f, w, dss, c.At(n), last, arrival.WatchFirst(), codec, parsed, Lookup(r.value, n));
      }
    }
  }

  ghost predicate SameRunsIff(dss: seq<DataSource>, f: Filter, w: C.CallFilter, b: Block, to: int, watchFirst: bool, codec: Codec,
                              parsed: seq<Trigger>, scanned: seq<Trigger>)
  {
    RunSequence(dss, parsed, b.number, codec) == RunSequence(dss, scanned, b.number, codec) <==>
    NoneMerge(f, w, dss, b, to, codec) && (watchFirst || ArrivalUnnoticed(f, w, dss, b, to, codec))
  }

  lemma BuiltCoversAll(f: Filter, dss: seq<DataSource>)
    requires BuiltFrom(f, dss)
    ensures B.OnePerContract(f.block.contracts) && forall d :: d in dss ==> Covers(f, d)
  {
    B.LeastOne(B.CallWatches(dss));
    forall d | d in dss
      ensures Covers(f, d)
    {
      BuiltCovers(f, dss, d);
    }
  }
}
