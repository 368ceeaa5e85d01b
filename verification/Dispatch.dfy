/** From triggers to handler runs: the gates of `match_and_decode`, the final-block path
    (`blocks_with_triggers`) and the in-memory path (`parse_*_triggers`). */
module Dispatch {
  import opened Types
  import opened TriggerFilters
  import L = LogFilters
  import C = CallFilters
  import B = BlockFilters
  import GetLogs
  import LogScan
  import CallScan

  datatype Kind = Start | End | WithCallTo(callee: Address)

  // EthereumTrigger; `BlockTrigger` also stands for its block pointer.
  datatype Trigger = BlockTrigger(number: int, kind: Kind) | CallTrigger(call: Call) | LogTrigger(log: Log)
  {
    function Target(): Option<Address> {
      match this
      case BlockTrigger(_, WithCallTo(a)) => Some(a)
      case BlockTrigger(_, _) => None
      case CallTrigger(c) => Some(c.to)
      case LogTrigger(l) => Some(l.address)
    }
  }

  // ---------- match_and_decode ----------

  // Finding a handler's ABI entry and decoding with it: parameters, values that do not fit
  // (the handler is skipped), or an error that fails the subgraph.
  datatype Decoded = Params | Mismatch | Broken

  datatype Codec = Codec(event: (EventHandler, Log) -> Decoded, call: (CallHandler, Call) -> Decoded)

  datatype Outcome = NoMatch | Run(handler: string) | Error

  function HandlersForLog(hs: seq<EventHandler>, log: Log): seq<EventHandler> {
    if hs == [] then []
    else (if hs[0].Matches(log) then [hs[0]] else []) + HandlersForLog(hs[1..], log)
  }

  function Decodable(hs: seq<EventHandler>, log: Log, codec: Codec): seq<EventHandler> {
    if hs == [] then []
    else (if codec.event(hs[0], log).Params? then [hs[0]] else []) + Decodable(hs[1..], log, codec)
  }

  function MatchLog(d: DataSource, log: Log, codec: Codec): Outcome {
    var potential := HandlersForLog(d.events, log);
    if exists h :: h in potential && codec.event(h, log).Broken? then Error
    else
      var matching := Decodable(potential, log, codec);
      if matching == [] then NoMatch else if |matching| == 1 then Run(matching[0].name) else Error
  }

  function HandlerForCall(hs: seq<CallHandler>, selector: Selector): Option<CallHandler> {
    if hs == [] then None
    else if hs[0].selector == selector then Some(hs[0])
    else HandlerForCall(hs[1..], selector)
  }

  function MatchCall(d: DataSource, call: Call, codec: Codec): Outcome {
    if |call.input| < 4 then Error
    else
      match HandlerForCall(d.calls, call.input[..4])
      case None => NoMatch
      case Some(h) =>
        match codec.call(h, call)
        case Params => Run(h.name)
        case Mismatch => NoMatch
        case Broken => Error
  }

  predicate Fits(filter: Option<BlockHandlerFilter>, start: int, kind: Kind, number: int) {
    match kind
    case Start => filter == Some(Once) && number == start
    case End => filter.None? || (filter.value.Polling? && (number - start) % filter.value.every == 0)
    case WithCallTo(_) => filter == Some(WithCall)
  }

  function HandlerForBlock(hs: seq<BlockHandler>, start: int, kind: Kind, number: int): Option<BlockHandler> {
    if hs == [] then None
    else if Fits(hs[0].filter, start, kind, number) then Some(hs[0])
    else HandlerForBlock(hs[1..], start, kind, number)
  }

  predicate Passes(d: DataSource, t: Trigger, number: int) {
    (d.address.None? || t.Target().None? || d.address == t.Target()) && d.start <= number
  }

  function MatchAndDecode(d: DataSource, t: Trigger, number: int, codec: Codec): Outcome {
    if !Passes(d, t, number) then NoMatch
    else
      match t
      case BlockTrigger(_, kind) =>
        (match HandlerForBlock(d.blocks, d.start, kind, number)
         case None => NoMatch
         case Some(h) => Run(h.name))
      case LogTrigger(log) => MatchLog(d, log, codec)
      case CallTrigger(call) => MatchCall(d, call, codec)
  }

  lemma {:induction false} HandlersForLogIn(hs: seq<EventHandler>, log: Log, h: EventHandler)
    ensures h in HandlersForLog(hs, log) <==> h in hs && h.Matches(log)
  {
    if hs != [] {
      HandlersForLogIn(hs[1..], log, h);
    }
  }

  /** The first handler with the selector, if there is one. */
  lemma {:induction false} HandlerForCallIn(hs: seq<CallHandler>, selector: Selector)
    ensures match HandlerForCall(hs, selector)
            case Some(h) => h in hs && h.selector == selector &&
              exists i :: 0 <= i < |hs| && hs[i] == h && forall j :: 0 <= j < i ==> hs[j].selector != selector
            case None => forall j :: 0 <= j < |hs| ==> hs[j].selector != selector
  {
    if hs != [] {
      if hs[0].selector == selector {
        assert hs[0] in hs;
      } else {
        var rest := hs[1..];
        HandlerForCallIn(rest, selector);
        assert forall j :: 0 < j < |hs| ==> hs[j] == rest[j - 1];
        if HandlerForCall(rest, selector).Some? {
          var i :| 0 <= i < |rest| && rest[i] == HandlerForCall(rest, selector).value &&
                   forall j :: 0 <= j < i ==> rest[j].selector != selector;
          assert hs[i + 1] == rest[i];
        }
      }
    }
  }

  // The handler matches the log and its event's ABI can decode it.
  predicate Runnable(h: EventHandler, log: Log, codec: Codec) {
    h.Matches(log) && codec.event(h, log).Params?
  }

  function RunnableCount(hs: seq<EventHandler>, log: Log, codec: Codec): nat {
    if hs == [] then 0
    else RunnableCount(hs[1..], log, codec) + if Runnable(hs[0], log, codec) then 1 else 0
  }

  lemma {:induction false} DecodableCount(hs: seq<EventHandler>, log: Log, codec: Codec)
    ensures |Decodable(HandlersForLog(hs, log), log, codec)| == RunnableCount(hs, log, codec)
    ensures forall h :: h in Decodable(HandlersForLog(hs, log), log, codec) <==> h in hs && Runnable(h, log, codec)
  {
    if hs != [] {
      DecodableCount(hs[1..], log, codec);
      var rest := HandlersForLog(hs[1..], log);
      if hs[0].Matches(log) {
        assert HandlersForLog(hs, log) == [hs[0]] + rest;
        assert ([hs[0]] + rest)[1..] == rest;
      } else {
        assert HandlersForLog(hs, log) == rest;
      }
    }
  }

  /** The log has the handler's signature, and each topic with a list is there and in the list. */
  ghost predicate Fitting(h: EventHandler, log: Log) {
    && |log.topics| > 0 && log.topics[0] == h.topic0
    && (h.topic1 != AnyTopic ==> |log.topics| > 1 && log.topics[1] in h.topic1.allowed)
    && (h.topic2 != AnyTopic ==> |log.topics| > 2 && log.topics[2] in h.topic2.allowed)
    && (h.topic3 != AnyTopic ==> |log.topics| > 3 && log.topics[3] in h.topic3.allowed)
  }

  lemma {:induction false} CountRunnable(hs: seq<EventHandler>, log: Log, codec: Codec)
    ensures RunnableCount(hs, log, codec) > 1 <==>
            exists i, j :: 0 <= i < j < |hs| && Runnable(hs[i], log, codec) && Runnable(hs[j], log, codec)
    ensures RunnableCount(hs, log, codec) > 0 <==> exists i :: 0 <= i < |hs| && Runnable(hs[i], log, codec)
  {
    if hs != [] {
      var rest := hs[1..];
      CountRunnable(rest, log, codec);
      assert forall i :: 0 < i < |hs| ==> hs[i] == rest[i - 1];
      if i :| 0 <= i < |rest| && Runnable(rest[i], log, codec) {
        assert Runnable(hs[i + 1], log, codec);
      }
      if i, j :| 0 <= i < j < |rest| && Runnable(rest[i], log, codec) && Runnable(rest[j], log, codec) {
        assert Runnable(hs[i + 1], log, codec) && Runnable(hs[j + 1], log, codec);
      }
    }
  }

  /** The gates every trigger passes: the data source has no address or that of the trigger's target,
      and it has started. */
  ghost predicate Open(d: DataSource, target: Address, number: int) {
    (d.address == None || d.address == Some(target)) && d.start <= number
  }

  /** Event handler `i` fits the log and its event's ABI decodes it. */
  ghost predicate Able(d: DataSource, i: int, log: Log, codec: Codec) {
    0 <= i < |d.events| && Fitting(d.events[i], log) && codec.event(d.events[i], log) == Params
  }

  /** A log that passes the gates is an error if a fitting handler has no ABI entry or if several
      handlers can decode it; it runs the only one that can, and without one it does not match. */
  lemma LogOutcome(d: DataSource, log: Log, number: int, codec: Codec)
    ensures var o := MatchAndDecode(d, LogTrigger(log), number, codec);
            if !Open(d, log.address, number) then o == NoMatch
            else
              && (o == Error <==>
                    || (exists i :: 0 <= i < |d.events| && Fitting(d.events[i], log) &&
                                    codec.event(d.events[i], log) == Broken)
                    || (exists i, j :: Able(d, i, log, codec) && Able(d, j, log, codec) && i < j))
              && (o.Run? ==> exists i :: Able(d, i, log, codec) && o == Run(d.events[i].name))
              && (o == NoMatch ==> forall i :: !Able(d, i, log, codec))
  {
    assert forall h: EventHandler :: Fitting(h, log) <==> h.Matches(log);
    MatchLogOutcome(d, log, codec);
    CountRunnable(d.events, log, codec);
    assert forall i :: 0 <= i < |d.events| ==> (Able(d, i, log, codec) <==> Runnable(d.events[i], log, codec));
    if MatchLog(d, log, codec).Run? {
      var h :| h in d.events && Runnable(h, log, codec) && MatchLog(d, log, codec) == Run(h.name);
      var i :| 0 <= i < |d.events| && d.events[i] == h;
      assert Able(d, i, log, codec);
    }
  }

  lemma MatchLogOutcome(d: DataSource, log: Log, codec: Codec)
    ensures MatchLog(d, log, codec) == Error <==>
              || (exists h :: h in d.events && h.Matches(log) && codec.event(h, log).Broken?)
              || RunnableCount(d.events, log, codec) > 1
    ensures MatchLog(d, log, codec).Run? ==>
              exists h :: h in d.events && Runnable(h, log, codec) && MatchLog(d, log, codec) == Run(h.name)
    ensures MatchLog(d, log, codec) == NoMatch ==> forall h :: h in d.events ==> !Runnable(h, log, codec)
  {
    var potential := HandlersForLog(d.events, log);
    forall h
      ensures h in potential <==> h in d.events && h.Matches(log)
    {
      HandlersForLogIn(d.events, log, h);
    }
    DecodableCount(d.events, log, codec);
    var matching := Decodable(potential, log, codec);
    if matching != [] {
      assert matching[0] in matching;
    }
  }

  /** Handler `i` is the first one with the call's selector. */
  ghost predicate FirstForCall(hs: seq<CallHandler>, i: nat, call: Call)
    requires |call.input| >= 4
  {
    i < |hs| && hs[i].selector == call.input[..4] && forall j :: 0 <= j < i ==> hs[j].selector != call.input[..4]
  }

  /** A call that passes the gates runs the first handler with its selector if the input decodes, is
      skipped if it does not or there is no such handler, and is an error without a selector or ABI
      entry. */
  lemma CallOutcome(d: DataSource, call: Call, number: int, codec: Codec)
    ensures var o := MatchAndDecode(d, CallTrigger(call), number, codec);
            if !Open(d, call.to, number) then o == NoMatch
            else if |call.input| < 4 then o == Error
            else
              && (forall i: nat :: FirstForCall(d.calls, i, call) ==>
                    match codec.call(d.calls[i], call)
                    case Params => o == Run(d.calls[i].name)
                    case Mismatch => o == NoMatch
                    case Broken => o == Error)
              && ((forall i: nat :: !FirstForCall(d.calls, i, call)) ==> o == NoMatch)
  {
    if |call.input| >= 4 {
      var selector: Selector := call.input[..4];
      HandlerForCallIn(d.calls, selector);
      if HandlerForCall(d.calls, selector).Some? {
        var h := HandlerForCall(d.calls, selector).value;
        var i :| 0 <= i < |d.calls| && d.calls[i] == h && forall j :: 0 <= j < i ==> d.calls[j].selector != selector;
        assert FirstForCall(d.calls, i, call);
        forall k: nat | FirstForCall(d.calls, k, call)
          ensures k == i
        {
        }
      }
    }
  }

  lemma {:induction false} HandlerForBlockIn(hs: seq<BlockHandler>, start: int, kind: Kind, number: int)
    ensures HandlerForBlock(hs, start, kind, number).Some? ==>
              && HandlerForBlock(hs, start, kind, number).value in hs
              && Fits(HandlerForBlock(hs, start, kind, number).value.filter, start, kind, number)
    ensures HandlerForBlock(hs, start, kind, number).None? ==>
              forall h :: h in hs ==> !Fits(h.filter, start, kind, number)
  {
    if hs != [] && !Fits(hs[0].filter, start, kind, number) {
      HandlerForBlockIn(hs[1..], start, kind, number);
    }
  }

  // ---------- one block, three ways ----------

  datatype Block = Block(number: int, logs: seq<Log>, traces: seq<Trace>)

  function Calls(b: Block): set<Call> {
    set t | t in b.traces && CallScan.TryFromTrace(t).Some? :: CallScan.TryFromTrace(t).value
  }

  /** Exactly the calls that the traces of the block make. */
  lemma CallsExact(b: Block, c: Call)
    ensures c in Calls(b) <==> exists t :: t in b.traces && CallScan.MadeBy(c, t)
  {
    forall t
      ensures CallScan.TryFromTrace(t) == Some(c) <==> CallScan.MadeBy(c, t)
    {
      CallScan.TraceMakes(t, c);
    }
    if t :| t in b.traces && CallScan.MadeBy(c, t) {
      assert CallScan.TryFromTrace(t) == Some(c);
    }
  }

  /** Every trigger there could be, with no filter at all. */
  function AllTriggers(b: Block): set<Trigger> {
    (set l | l in b.logs :: LogTrigger(l)) +
    (set c | c in Calls(b) && c.txOk :: CallTrigger(c)) +
    (set c | c in Calls(b) :: BlockTrigger(b.number, WithCallTo(c.to))) +
    {BlockTrigger(b.number, Start), BlockTrigger(b.number, End)}
  }

  /** `EthereumCallFilter::from(&EthereumBlockFilter)`: any entry of a contract may win. */
  ghost predicate WatchFilter(w: C.CallFilter, f: B.BlockFilter) {
    && w.wildcards == {}
    && (forall p :: p in f.contracts ==> p.1 in w.contracts)
    && (forall a :: a in w.contracts ==> w.contracts[a].1 == {} && (w.contracts[a].0, a) in f.contracts)
  }

  /** `block_trigger_types_from_intervals`. */
  function IntervalKinds(number: int, polling: set<(int, int)>): set<Kind> {
    (if exists p :: p in polling && p.1 == 0 && number == p.0 then {Start} else {}) +
    (if exists p :: p in polling && p.1 > 0 && number >= p.0 && (number - p.0) % p.1 == 0 then {End} else {})
  }

  function ScheduledKinds(number: int, f: B.BlockFilter): set<Kind> {
    if f.everyBlock then {Start, End} else IntervalKinds(number, f.polling)
  }

  function BlockTriggers(number: int, kinds: set<Kind>): set<Trigger> {
    set k | k in kinds :: BlockTrigger(number, k)
  }

  /** `triggers_in_block` of a non-final block: calls are loaded only if traces are needed,
      then everything is parsed out of the block in memory. */
  function ParsedTriggers(f: Filter, w: C.CallFilter, b: Block): set<Trigger> {
    var calls := if !f.call.IsEmpty() || f.block.contracts != {} then Calls(b) else {};
    (if f.log.IsEmpty() then {} else set l | l in b.logs :: LogTrigger(l)) +
    (if f.call.IsEmpty() then {} else set c | c in calls && f.call.Matches(c) && c.txOk :: CallTrigger(c)) +
    (if f.block.IsEmpty() then {}
     else (set c | c in calls && w.Matches(c) :: BlockTrigger(b.number, WithCallTo(c.to))) +
          BlockTriggers(b.number, ScheduledKinds(b.number, f.block)))
  }

  /** What a range scan ending at `to` yields for block `b`. */
  ghost function ScannedTriggers(f: Filter, w: C.CallFilter, b: Block, to: int): set<Trigger> {
    (set l | l in b.logs && LogScan.Fetches(f.log, l) :: LogTrigger(l)) +
    (set c | c in Calls(b) && c.txOk && CallScan.Fetches(f.call, to, c) :: CallTrigger(c)) +
    (set c | c in Calls(b) && CallScan.Fetches(w, to, c) :: BlockTrigger(b.number, WithCallTo(c.to))) +
    BlockTriggers(b.number, ScheduledKinds(b.number, f.block))
  }

  /** `validate` requires an address of data sources with call or block handlers. */
  predicate HasSource(d: DataSource) {
    d.address.None? ==> d.calls == [] && d.blocks == []
  }

  // ---------- the filters only ever drop triggers nobody handles ----------

  /** A covered data source's triggers survive both paths. */
  lemma Survives(f: Filter, w: C.CallFilter, b: Block, to: int, d: DataSource, t: Trigger, codec: Codec)
    requires Covers(f, d) && HasSource(d) && WatchFilter(w, f.block) && B.OnePerContract(f.block.contracts)
    requires t in AllTriggers(b) && b.number <= to
    requires MatchAndDecode(d, t, b.number, codec) != NoMatch
    ensures t in ScannedTriggers(f, w, b, to) && t in ParsedTriggers(f, w, b)
  {
    match t
    case LogTrigger(log) => LogSurvives(f, d, log, b.number, codec);
    case CallTrigger(call) => CallSurvives(f, d, call, b.number, to, codec);
    case BlockTrigger(_, kind) =>
      if kind.WithCallTo? {
        WatchSurvives(f, w, b, to, d, kind.callee, codec);
      } else {
        KindSurvives(f, d, kind, b.number, codec);
      }
  }

  lemma LogSurvives(f: Filter, d: DataSource, log: Log, number: int, codec: Codec)
    requires Covers(f, d) && MatchAndDecode(d, LogTrigger(log), number, codec) != NoMatch
    ensures LogScan.Fetches(f.log, log) && !f.log.IsEmpty()
  {
    var potential := HandlersForLog(d.events, log);
    assert potential != [];
    var h := potential[0];
    HandlersForLogIn(d.events, log, h);
    assert EventCovered(f.log, d, h) && L.Handles(d, h, log);
    L.KeyAccepts(d, h, log);
    var k := if f.log.Has(L.KeyOf(d, h)) then L.KeyOf(d, h) else L.Wildcard(h.topic0);
    assert f.log.Has(k) && k.Accepts(log);
    assert GetLogs.NodeAccepts(k, log);
  }

  lemma CallSurvives(f: Filter, d: DataSource, call: Call, number: int, to: int, codec: Codec)
    requires Covers(f, d) && HasSource(d) && number <= to && |call.input| >= 4
    requires MatchAndDecode(d, CallTrigger(call), number, codec) != NoMatch
    ensures CallScan.Fetches(f.call, to, call) && !f.call.IsEmpty() && f.call.Matches(call)
  {
    HandlerForCallIn(d.calls, call.input[..4]);
    var h := HandlerForCall(d.calls, call.input[..4]).value;
    assert CallCovered(f.call, call.to, d.start, h.selector);
    if h.selector !in f.call.wildcards {
      assert call.to in CallScan.Started(f.call, to);
    }
  }

  lemma WatchSurvives(f: Filter, w: C.CallFilter, b: Block, to: int, d: DataSource, a: Address, codec: Codec)
    requires Covers(f, d) && HasSource(d) && WatchFilter(w, f.block) && B.OnePerContract(f.block.contracts)
    requires b.number <= to && BlockTrigger(b.number, WithCallTo(a)) in AllTriggers(b)
    requires MatchAndDecode(d, BlockTrigger(b.number, WithCallTo(a)), b.number, codec) != NoMatch
    ensures exists c :: c in Calls(b) && c.to == a && CallScan.Fetches(w, to, c) && w.Matches(c)
    ensures f.block.contracts != {}
  {
    HandlerForBlockIn(d.blocks, d.start, WithCallTo(a), b.number);
    var h := HandlerForBlock(d.blocks, d.start, WithCallTo(a), b.number).value;
    assert BlockCovered(f.block, a, d.start, h.filter);
    var p :| p in f.block.contracts && p.1 == a && p.0 <= d.start;
    assert (w.contracts[a].0, a) == p;
    assert a in CallScan.Started(w, to);
    var c :| c in Calls(b) && c.to == a;
    assert |c.input| >= 4;
  }

  lemma KindSurvives(f: Filter, d: DataSource, kind: Kind, number: int, codec: Codec)
    requires Covers(f, d) && HasSource(d) && !kind.WithCallTo?
    requires MatchAndDecode(d, BlockTrigger(number, kind), number, codec) != NoMatch
    ensures kind in ScheduledKinds(number, f.block) && !f.block.IsEmpty()
  {
    HandlerForBlockIn(d.blocks, d.start, kind, number);
    var h := HandlerForBlock(d.blocks, d.start, kind, number).value;
    assert BlockCovered(f.block, d.address.value, d.start, h.filter);
    if !f.block.everyBlock {
      var p := (d.start, if kind.Start? then 0 else h.filter.value.every as int);
      assert p in f.block.polling;
    }
  }

  lemma NothingInvented(f: Filter, w: C.CallFilter, b: Block, to: int)
    ensures ScannedTriggers(f, w, b, to) <= AllTriggers(b)
    ensures ParsedTriggers(f, w, b) <= AllTriggers(b)
  {
  }

  /** What a scan ending at `to` leaves out of the parsed triggers: logs that no request asks for,
      and calls to contracts that have not started, unless all traces are requested anyway. */
  ghost predicate LeftOut(f: Filter, w: C.CallFilter, to: int, t: Trigger) {
    match t
    case LogTrigger(l) => !LogScan.Fetches(f.log, l)
    case CallTrigger(c) => c.to !in CallScan.Started(f.call, to) && !CallScan.Broad(f.call, to)
    case BlockTrigger(_, WithCallTo(a)) => a !in CallScan.Started(w, to) && !CallScan.Broad(w, to)
    case BlockTrigger(_, _) => false
  }

  lemma ScannedCall(f: Filter, w: C.CallFilter, b: Block, to: int, c: Call)
    ensures CallTrigger(c) in ScannedTriggers(f, w, b, to) <==> c in Calls(b) && c.txOk && CallScan.Fetches(f.call, to, c)
  {
  }

  lemma ScannedWatch(f: Filter, w: C.CallFilter, b: Block, to: int, a: Address)
    ensures BlockTrigger(b.number, WithCallTo(a)) in ScannedTriggers(f, w, b, to) <==>
            exists c :: c in Calls(b) && CallScan.Fetches(w, to, c) && c.to == a
  {
  }

  lemma ParsedCall(f: Filter, w: C.CallFilter, b: Block, c: Call)
    ensures CallTrigger(c) in ParsedTriggers(f, w, b) <==> c in Calls(b) && c.txOk && f.call.Matches(c)
  {
  }

  lemma ParsedWatch(f: Filter, w: C.CallFilter, b: Block, a: Address)
    requires WatchFilter(w, f.block)
    ensures BlockTrigger(b.number, WithCallTo(a)) in ParsedTriggers(f, w, b) <==>
            exists c :: c in Calls(b) && w.Matches(c) && c.to == a
  {
  }

  lemma ParsedKind(f: Filter, w: C.CallFilter, b: Block, kind: Kind)
    requires !kind.WithCallTo?
    ensures BlockTrigger(b.number, kind) in ParsedTriggers(f, w, b) <==> kind in ScheduledKinds(b.number, f.block)
  {
  }

  lemma FetchedWatches(w: C.CallFilter, to: int, b: Block, a: Address)
    ensures (exists c :: c in Calls(b) && CallScan.Fetches(w, to, c) && c.to == a) <==>
            (exists c :: c in Calls(b) && w.Matches(c) && c.to == a) && (a in CallScan.Started(w, to) || CallScan.Broad(w, to))
  {
    forall c
      ensures CallScan.Fetches(w, to, c) <==> w.Matches(c) && (c.to in CallScan.Started(w, to) || CallScan.Broad(w, to))
    {
      CallScan.FetchesByRequest(w, to, c);
    }
  }

  lemma CallLeftOut(f: Filter, w: C.CallFilter, b: Block, to: int, c: Call)
    ensures CallTrigger(c) in ScannedTriggers(f, w, b, to) <==>
            CallTrigger(c) in ParsedTriggers(f, w, b) && !LeftOut(f, w, to, CallTrigger(c))
  {
    ScannedCall(f, w, b, to, c);
    ParsedCall(f, w, b, c);
    CallScan.FetchesByRequest(f.call, to, c);
  }

  lemma WatchLeftOut(f: Filter, w: C.CallFilter, b: Block, to: int, a: Address)
    requires WatchFilter(w, f.block)
    ensures var t := BlockTrigger(b.number, WithCallTo(a));
            t in ScannedTriggers(f, w, b, to) <==> t in ParsedTriggers(f, w, b) && !LeftOut(f, w, to, t)
  {
    ScannedWatch(f, w, b, to, a);
    ParsedWatch(f, w, b, a);
    FetchedWatches(w, to, b, a);
  }

  /** Scanning has every parsed trigger except exactly those. */
  lemma ParsedMinusScanned(f: Filter, w: C.CallFilter, b: Block, to: int, t: Trigger)
    requires WatchFilter(w, f.block)
    ensures t in ScannedTriggers(f, w, b, to) <==> t in ParsedTriggers(f, w, b) && !LeftOut(f, w, to, t)
  {
    if t.CallTrigger? {
      CallLeftOut(f, w, b, to, t.call);
    } else if t.BlockTrigger? && t.number == b.number {
      if t.kind.WithCallTo? {
        WatchLeftOut(f, w, b, to, t.kind.callee);
      } else {
        ParsedKind(f, w, b, t.kind);
      }
    }
  }

  /** The handler runs of a list of data sources on a set of triggers: which data source,
      which trigger, and the outcome. */
  ghost function Runs(dss: seq<DataSource>, ts: set<Trigger>, number: int, codec: Codec): set<(int, Trigger, Outcome)> {
    set i, t | 0 <= i < |dss| && t in ts && MatchAndDecode(dss[i], t, number, codec) != NoMatch ::
      (i, t, MatchAndDecode(dss[i], t, number, codec))
  }

  /** Scanning a final block, parsing a non-final block, and offering every trigger of the
      block to every data source all lead to the same runs. */
  lemma PathsAgree(f: Filter, w: C.CallFilter, dss: seq<DataSource>, b: Block, to: int, codec: Codec)
    requires forall d :: d in dss ==> Covers(f, d) && HasSource(d)
    requires WatchFilter(w, f.block) && B.OnePerContract(f.block.contracts) && b.number <= to
    ensures Runs(dss, ScannedTriggers(f, w, b, to), b.number, codec) == Runs(dss, AllTriggers(b), b.number, codec)
    ensures Runs(dss, ParsedTriggers(f, w, b), b.number, codec) == Runs(dss, AllTriggers(b), b.number, codec)
  {
    NothingInvented(f, w, b, to);
    forall i, t | 0 <= i < |dss| && t in AllTriggers(b) && MatchAndDecode(dss[i], t, b.number, codec) != NoMatch
      ensures t in ScannedTriggers(f, w, b, to) && t in ParsedTriggers(f, w, b)
    {
      Survives(f, w, b, to, dss[i], t, codec);
    }
    RunsSame(dss, ScannedTriggers(f, w, b, to), AllTriggers(b), b.number, codec);
    RunsSame(dss, ParsedTriggers(f, w, b), AllTriggers(b), b.number, codec);
  }

  lemma RunsSame(dss: seq<DataSource>, ts: set<Trigger>, us: set<Trigger>, number: int, codec: Codec)
    requires ts <= us
    requires forall i, t :: 0 <= i < |dss| && t in us && MatchAndDecode(dss[i], t, number, codec) != NoMatch ==> t in ts
    ensures Runs(dss, ts, number, codec) == Runs(dss, us, number, codec)
  {
  }

  lemma RunsMember(dss: seq<DataSource>, ts: set<Trigger>, number: int, codec: Codec, i: nat, t: Trigger, o: Outcome)
    requires i < |dss|
    ensures (i, t, o) in Runs(dss, ts, number, codec) <==>
            t in ts && o != NoMatch && o == MatchAndDecode(dss[i], t, number, codec)
  {
  }

  /** With the filter of a whole list of data sources each of them has exactly the runs it has
      with a filter of its own. */
  lemma RunsAlone(f: Filter, w: C.CallFilter, g: Filter, v: C.CallFilter, dss: seq<DataSource>, i: nat, b: Block, to: int, codec: Codec)
    requires i < |dss| && BuiltFrom(f, dss) && BuiltFrom(g, [dss[i]])
    requires (forall d :: d in dss ==> HasSource(d)) && b.number <= to
    requires WatchFilter(w, f.block) && WatchFilter(v, g.block)
    ensures forall t, o :: (i, t, o) in Runs(dss, ScannedTriggers(f, w, b, to), b.number, codec) <==>
                           (0, t, o) in Runs([dss[i]], ParsedTriggers(g, v, b), b.number, codec)
  {
    forall t, o
      ensures (i, t, o) in Runs(dss, ScannedTriggers(f, w, b, to), b.number, codec) <==>
              (0, t, o) in Runs([dss[i]], ParsedTriggers(g, v, b), b.number, codec)
    {
      BuiltAgrees(f, w, dss, b, to, codec);
      BuiltAgrees(g, v, [dss[i]], b, to, codec);
      RunsMember(dss, AllTriggers(b), b.number, codec, i, t, o);
      RunsMember([dss[i]], AllTriggers(b), b.number, codec, 0, t, o);
    }
  }

  lemma BuiltAgrees(f: Filter, w: C.CallFilter, dss: seq<DataSource>, b: Block, to: int, codec: Codec)
    requires BuiltFrom(f, dss) && (forall d :: d in dss ==> HasSource(d)) && WatchFilter(w, f.block) && b.number <= to
    ensures Runs(dss, ScannedTriggers(f, w, b, to), b.number, codec) == Runs(dss, AllTriggers(b), b.number, codec)
    ensures Runs(dss, ParsedTriggers(f, w, b), b.number, codec) == Runs(dss, AllTriggers(b), b.number, codec)
  {
    B.LeastOne(B.CallWatches(dss));
    forall d | d in dss
      ensures Covers(f, d)
    {
      BuiltCovers(f, dss, d);
    }
    PathsAgree(f, w, dss, b, to, codec);
  }
}
