/** Scanning a block range for calls: `trace_stream` and `calls_in_block_range`. */
module CallScan {
  import opened Types
  import opened CallFilters
  import opened LogScan

  // The traces of each block of the canonical chain.
  type TraceChain = int -> seq<Trace>

  ghost predicate TracesNumbered(chain: TraceChain) {
    forall b, t :: t in chain(b) ==> t.number == b
  }

  /** `EthereumCall::try_from_trace`: only successful calls with a selector, made by a
      transaction, become calls. */
  function TryFromTrace(t: Trace): Option<Call> {
    if !t.failed && t.isCall && |t.input| >= 4 && t.inTx then Some(Call(t.number, t.to, t.input, t.txOk, t.tx, t.rest)) else None
  }

  // ---------- traces ----------

  /** A `trace_filter` request by callee; no addresses means all traces. */
  function SelectTraces(ts: seq<Trace>, addresses: set<Address>): seq<Trace> {
    if ts == [] then []
    else (if addresses == {} || ts[0].to in addresses then [ts[0]] else []) + SelectTraces(ts[1..], addresses)
  }

  function ScanTraces(chain: TraceChain, addresses: set<Address>, from: int, to: int): seq<Trace>
    decreases (to - from)
  {
    if from > to then [] else SelectTraces(chain(from), addresses) + ScanTraces(chain, addresses, from + 1, to)
  }

  lemma {:induction false} SelectTracesIn(ts: seq<Trace>, addresses: set<Address>, t: Trace)
    ensures t in SelectTraces(ts, addresses) <==> t in ts && (addresses == {} || t.to in addresses)
  {
    if ts != [] {
      SelectTracesIn(ts[1..], addresses, t);
    }
  }

  lemma {:induction false} ScanTracesIn(chain: TraceChain, addresses: set<Address>, from: int, to: int, t: Trace)
    requires TracesNumbered(chain)
    ensures t in ScanTraces(chain, addresses, from, to) <==>
              from <= t.number <= to && t in chain(t.number) && (addresses == {} || t.to in addresses)
    decreases (to - from)
  {
    if from <= to {
      SelectTracesIn(chain(from), addresses, t);
      ScanTracesIn(chain, addresses, from + 1, to, t);
    }
  }

  lemma {:induction false} ScanTracesConcat(chain: TraceChain, addresses: set<Address>, from: int, mid: int, to: int)
    requires from <= mid + 1 && mid <= to
    ensures ScanTraces(chain, addresses, from, to) ==
            ScanTraces(chain, addresses, from, mid) + ScanTraces(chain, addresses, mid + 1, to)
    decreases mid - from
  {
    if from <= mid {
      ScanTracesConcat(chain, addresses, from + 1, mid, to);
    }
  }

  // Whether the node answers the request for the traces of a range.
  type TraceReplies = (int, int) -> bool

  /** Every range has `size` blocks, unless it ends with the whole range. */
  ghost predicate Full(ranges: seq<(int, int)>, size: int, to: int) {
    forall i :: 0 <= i < |ranges| ==>
      ranges[i].1 == if ranges[i].0 + size <= to then ranges[i].0 + size - 1 else to
  }

  /** `trace_stream`: the ranges partition [from, to], each but the last `stepSize` blocks long (one
      block when all traces are wanted), and together they are the simple scan. `None` is an error:
      some range, after ranges that tile what comes before it, was not answered. A backwards range
      panics. */
  method TraceStream(chain: TraceChain, replies: TraceReplies, from: int, to: int, addresses: set<Address>, stepSize: int)
    returns (traces: Option<seq<Trace>>, ghost ranges: seq<(int, int)>)
    requires from <= to && stepSize >= 1
    ensures traces.Some? ==> traces.value == ScanTraces(chain, addresses, from, to)
    ensures (forall i, j :: replies(i, j)) ==> traces.Some?
    ensures traces.Some? ==> Tiles(ranges, from, to + 1)
    ensures Full(ranges, if addresses == {} then 1 else stepSize, to)
    ensures traces.Some? <==> forall i :: 0 <= i < |ranges| ==> replies(ranges[i].0, ranges[i].1)
    ensures traces.None? ==> ranges != [] && ranges[|ranges| - 1].1 <= to && Tiles(ranges, from, ranges[|ranges| - 1].1 + 1)
  {
    var step := if addresses == {} then 1 else stepSize;
    var found: seq<Trace> := [];
    ranges := [];
    var start := from;
    while start <= to
      invariant from <= start <= to + 1
      invariant found == ScanTraces(chain, addresses, from, start - 1)
      invariant Tiles(ranges, from, start) && Full(ranges, step, to)
      invariant forall i :: 0 <= i < |ranges| ==> replies(ranges[i].0, ranges[i].1)
      decreases (to + 1 - start)
    {
      var end := Min(start + step - 1, to);
      TilesSnoc(ranges, from, start, end);
      ranges := ranges + [(start, end)];
      if !replies(start, end) {
        assert ranges[|ranges| - 1] == (start, end);
        return None, ranges;
      }
      found := ExtendTraces(chain, addresses, from, start, end, found);
      start := end + 1;
    }
    traces := Some(found);
  }

  /** The node's answer for [start, end] continues the scan. */
  method ExtendTraces(chain: TraceChain, addresses: set<Address>, from: int, start: int, end: int, traces: seq<Trace>)
    returns (more: seq<Trace>)
    requires from <= start <= end && traces == ScanTraces(chain, addresses, from, start - 1)
    ensures more == ScanTraces(chain, addresses, from, end)
  {
    ScanTracesConcat(chain, addresses, from, start - 1, end);
    more := traces + ScanTraces(chain, addresses, start, end);
  }

  /** A range of a trace stream ends past its start, so that the stream makes progress, if and
      only if the step size is positive; nothing validates the configured step size. */
  lemma TraceProgressNeedsStep(start: int, step: int, to: int)
    requires start <= to
    ensures start < Min(start + step - 1, to) + 1 <==> step >= 1
  {
  }

  // ---------- calls ----------

  function Started(f: CallFilter, to: int): set<Address> {
    set a | a in f.contracts && f.contracts[a].0 <= to
  }

  // Request all traces rather than those to the started contracts.
  predicate Broad(f: CallFilter, to: int) {
    |Started(f, to)| > 100 || f.wildcards != {}
  }

  /** The calls a scan up to `to` brings back: matching ones to contracts that have started, or all
      matching ones if there are wildcards or more than 100 such contracts. */
  predicate Fetches(f: CallFilter, to: int, call: Call) {
    && f.Matches(call)
    && (|| f.wildcards != {}
        || (call.to in f.contracts && f.contracts[call.to].0 <= to)
        || |set a | a in f.contracts && f.contracts[a].0 <= to| > 100)
  }

  lemma FetchesByRequest(f: CallFilter, to: int, call: Call)
    ensures Fetches(f, to, call) <==>
            && (Started(f, to) != {} || f.wildcards != {})
            && (Broad(f, to) || call.to in Started(f, to))
            && f.Matches(call)
  {
    assert Started(f, to) == set a | a in f.contracts && f.contracts[a].0 <= to;
    if Started(f, to) == {} {
      assert |Started(f, to)| == 0;
    }
    assert call.to in f.contracts && f.contracts[call.to].0 <= to <==> call.to in Started(f, to);
  }

  /** The call is made by this trace: a successful call with a selector, made by a transaction. */
  ghost predicate MadeBy(call: Call, t: Trace) {
    && !t.failed && t.isCall && t.inTx && |t.input| >= 4
    && call.number == t.number && call.to == t.to && call.input == t.input
    && call.txOk == t.txOk && call.tx == t.tx && call.rest == t.rest
  }

  /** `try_from_trace` yields exactly the call that the trace makes. */
  lemma TraceMakes(t: Trace, call: Call)
    ensures TryFromTrace(t) == Some(call) <==> MadeBy(call, t)
  {
    if MadeBy(call, t) {
      assert call == Call(t.number, t.to, t.input, t.txOk, t.tx, t.rest);
    }
  }

  ghost predicate IsCall(chain: TraceChain, call: Call) {
    exists t :: t in chain(call.number) && MadeBy(call, t)
  }

  /** The calls among traces that the filter matches, in their order. */
  function MatchingCalls(ts: seq<Trace>, f: CallFilter): seq<Call> {
    if ts == [] then []
    else
      var maybe := TryFromTrace(ts[0]);
      (if maybe.Some? && f.Matches(maybe.value) then [maybe.value] else []) + MatchingCalls(ts[1..], f)
  }

  lemma {:induction false} MatchingCallsConcat(xs: seq<Trace>, ys: seq<Trace>, f: CallFilter)
    ensures MatchingCalls(xs + ys, f) == MatchingCalls(xs, f) + MatchingCalls(ys, f)
  {
    if xs == [] {
      assert xs + ys == ys;
    } else {
      assert (xs + ys)[0] == xs[0] && (xs + ys)[1..] == xs[1..] + ys;
      MatchingCallsConcat(xs[1..], ys, f);
      var maybe := TryFromTrace(xs[0]);
      var first := if maybe.Some? && f.Matches(maybe.value) then [maybe.value] else [];
      assert MatchingCalls(xs + ys, f) == first + (MatchingCalls(xs[1..], f) + MatchingCalls(ys, f));
    }
  }

  lemma {:induction false} MatchingCallsIn(ts: seq<Trace>, f: CallFilter, c: Call)
    ensures c in MatchingCalls(ts, f) <==> f.Matches(c) && exists t :: t in ts && TryFromTrace(t) == Some(c)
  {
    if ts != [] {
      MatchingCallsIn(ts[1..], f, c);
      assert ts[0] in ts;
      if t :| t in ts && TryFromTrace(t) == Some(c) && t != ts[0] {
        assert t in ts[1..];
      }
    }
  }

  /** The contracts to ask for; none means all traces. */
  function Requested(f: CallFilter, to: int): set<Address> {
    if Broad(f, to) then {} else Started(f, to)
  }

  /** What a scan brings back, in the order of the chain. */
  function RangeCalls(chain: TraceChain, f: CallFilter, from: int, to: int): seq<Call> {
    if Started(f, to) == {} && f.wildcards == {} then []
    else MatchingCalls(ScanTraces(chain, Requested(f, to), from, to), f)
  }

  /** `calls_in_block_range`. */
  method CallsInBlockRange(chain: TraceChain, replies: TraceReplies, from: int, to: int, f: CallFilter, stepSize: int)
    returns (calls: Option<seq<Call>>)
    requires from <= to && stepSize >= 1
    ensures calls.Some? ==> calls.value == RangeCalls(chain, f, from, to)
    ensures calls.Some? && TracesNumbered(chain) ==> forall c ::
              c in calls.value <==> from <= c.number <= to && IsCall(chain, c) && Fetches(f, to, c)
    ensures (forall i, j :: replies(i, j)) ==> calls.Some?
  {
    var addresses := Started(f, to);
    if TracesNumbered(chain) {
      forall c
        ensures c in RangeCalls(chain, f, from, to) <==> from <= c.number <= to && IsCall(chain, c) && Fetches(f, to, c)
      {
        RangeCallsIn(chain, f, from, to, c);
      }
    }
    if addresses == {} && f.wildcards == {} {
      return Some([]);
    }
    if |addresses| > 100 || f.wildcards != {} {
      addresses := {};
    }
    var some, _ := TraceStream(chain, replies, from, to, addresses, stepSize);
    if some.None? {
      return None;
    }
    var traces := some.value;
    var found: seq<Call> := [];
    for i := 0 to |traces|
      invariant found == MatchingCalls(traces[..i], f)
    {
      assert traces[..i + 1] == traces[..i] + [traces[i]];
      MatchingCallsConcat(traces[..i], [traces[i]], f);
      var maybe := TryFromTrace(traces[i]);
      if maybe.Some? && f.Matches(maybe.value) {
        found := found + [maybe.value];
      }
    }
    assert traces[..|traces|] == traces;
    calls := Some(found);
  }

  /** A scan brings back exactly the calls of the range that the filter fetches. */
  lemma RangeCallsIn(chain: TraceChain, f: CallFilter, from: int, to: int, c: Call)
    requires TracesNumbered(chain)
    ensures c in RangeCalls(chain, f, from, to) <==> from <= c.number <= to && IsCall(chain, c) && Fetches(f, to, c)
  {
    var addresses := Requested(f, to);
    var traces := ScanTraces(chain, addresses, from, to);
    MatchingCallsIn(traces, f, c);
    FetchesByRequest(f, to, c);
    forall t
      ensures TryFromTrace(t) == Some(c) <==> MadeBy(c, t)
    {
      TraceMakes(t, c);
    }
    forall t | MadeBy(c, t)
      ensures t.number == c.number && t.to == c.to
      ensures t in traces <==> from <= t.number <= to && t in chain(t.number) && (addresses == {} || t.to in addresses)
    {
      ScanTracesIn(chain, addresses, from, to, t);
    }
  }

  /** Every call that a data source started by then would handle is fetched, whether traces
      are asked for by address or not, and nothing that the filter rejects. */
  lemma FetchesStarted(f: CallFilter, dss: seq<DataSource>, d: DataSource, h: CallHandler, to: int, call: Call)
    requires BuiltFrom(f, dss) && d in dss && h in d.calls
    requires d.address == Some(call.to) && d.start <= to && |call.input| >= 4 && h.selector == call.input[..4]
    ensures Fetches(f, to, call)
  {
    var t: Triple := (d.start, call.to, h.selector);
    assert t in Triples(dss);
    assert t.1 in Addresses(Triples(dss)) && t.2 in Selectors(Triples(dss), t.1);
    assert call.to in Started(f, to);
    BuiltFilterExact(f, dss, call);
  }
}
