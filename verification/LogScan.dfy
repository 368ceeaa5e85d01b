/** Scanning a block range for logs: the adaptive `log_stream` of one request and the
    union over all requests of a filter in `logs_in_block_range`. */
module LogScan {
  import opened Types
  import opened LogFilters
  import opened GetLogs

  // The logs of each block of the canonical chain.
  type LogChain = int -> seq<Log>

  // A node answers a request correctly, says that it is too heavy, or fails.
  datatype Reply = Answer | TooHeavy | Failure

  // The reply to the n-th request of a stream, which asks for an inclusive block range.
  type Provider = (nat, int, int) -> Reply

  /** The node answers every request for a single block, and rejects wider ranges at worst. */
  ghost predicate Copes(p: Provider) {
    forall n, a, b :: p(n, a, b) != Failure && (a == b ==> p(n, a, b) == Answer)
  }

  ghost predicate Numbered(chain: LogChain) {
    forall b, l :: l in chain(b) ==> l.number == b
  }

  function Select(logs: seq<Log>, r: Request): seq<Log> {
    if logs == [] then []
    else (if r.Accepts(logs[0]) then [logs[0]] else []) + Select(logs[1..], r)
  }

  /** A single pass over [from, to]: the simple scan that `log_stream` refines. */
  function Scan(chain: LogChain, r: Request, from: int, to: int): seq<Log>
    decreases (to - from)
  {
    if from > to then [] else Select(chain(from), r) + Scan(chain, r, from + 1, to)
  }

  lemma {:induction false} SelectIn(logs: seq<Log>, r: Request, l: Log)
    ensures l in Select(logs, r) <==> l in logs && r.Accepts(l)
  {
    if logs != [] {
      SelectIn(logs[1..], r, l);
    }
  }

  lemma {:induction false} ScanIn(chain: LogChain, r: Request, from: int, to: int, l: Log)
    requires Numbered(chain)
    ensures l in Scan(chain, r, from, to) <==> from <= l.number <= to && l in chain(l.number) && r.Accepts(l)
    decreases (to - from)
  {
    if from <= to {
      SelectIn(chain(from), r, l);
      ScanIn(chain, r, from + 1, to, l);
    }
  }

  lemma {:induction false} ScanConcat(chain: LogChain, r: Request, from: int, mid: int, to: int)
    requires from <= mid + 1 && mid <= to
    ensures Scan(chain, r, from, to) == Scan(chain, r, from, mid) + Scan(chain, r, mid + 1, to)
    decreases mid - from
  {
    if from <= mid {
      ScanConcat(chain, r, from + 1, mid, to);
    }
  }

  // ---------- ranges ----------

  /** Consecutive non-empty ranges from `from` up to but excluding `next`. */
  ghost predicate Tiles(tiles: seq<(int, int)>, from: int, next: int) {
    if tiles == [] then from == next
    else tiles[0].0 == from && from <= tiles[0].1 && Tiles(tiles[1..], tiles[0].1 + 1, next)
  }

  // No range is longer than `most` blocks.
  ghost predicate Short(tiles: seq<(int, int)>, most: int) {
    forall i :: 0 <= i < |tiles| ==> tiles[i].1 - tiles[i].0 + 1 <= most
  }

  /** One more range. */
  lemma {:induction false} TilesSnoc(tiles: seq<(int, int)>, from: int, next: int, end: int)
    requires Tiles(tiles, from, next) && next <= end
    ensures Tiles(tiles + [(next, end)], from, end + 1)
  {
    if tiles == [] {
      assert (tiles + [(next, end)])[1..] == [];
    } else {
      assert (tiles + [(next, end)])[1..] == tiles[1..] + [(next, end)];
      TilesSnoc(tiles[1..], tiles[0].1 + 1, next, end);
    }
  }

  /** Tiles overlap nowhere and leave no gap: each block is in exactly one of them. */
  lemma {:induction false} TilesPartition(tiles: seq<(int, int)>, from: int, next: int, b: int)
    requires Tiles(tiles, from, next)
    ensures from <= next
    ensures from <= b < next <==> exists i :: 0 <= i < |tiles| && tiles[i].0 <= b <= tiles[i].1
    ensures forall i, j :: 0 <= i < j < |tiles| && tiles[i].0 <= b <= tiles[i].1 ==> !(tiles[j].0 <= b <= tiles[j].1)
  {
    if tiles != [] {
      var rest := tiles[1..];
      TilesPartition(rest, tiles[0].1 + 1, next, b);
      forall i | 0 <= i < |rest| && rest[i].0 <= b <= rest[i].1
        ensures tiles[0].1 < b && tiles[i + 1] == rest[i]
      {
      }
      forall j | 0 < j < |tiles| && tiles[j].0 <= b <= tiles[j].1
        ensures tiles[0].1 < b
      {
        assert rest[j - 1] == tiles[j];
      }
      forall i, j | 0 <= i < j < |tiles| && tiles[i].0 <= b <= tiles[i].1
        ensures !(tiles[j].0 <= b <= tiles[j].1)
      {
        if 0 < i {
          assert rest[i - 1] == tiles[i] && rest[j - 1] == tiles[j];
        }
      }
    }
  }

  /** The number of decimal digits, none for zero. */
  function Digits(n: int): nat
    decreases n
  {
    if n <= 0 then 0 else 1 + Digits(n / 10)
  }

  function InitialStep(r: Request, from: int, to: int, maxEventOnly: int): int {
    if r.contracts != [] then to - from
    else if to - from < maxEventOnly - 1 then to - from else maxEventOnly - 1
  }

  function Min(x: int, y: int): int {
    if x < y then x else y
  }

  /** Where `log_stream` goes after a reply to the request from `start`; `None` is an error. */
  function NextState(start: int, step: int, to: int, reply: Reply): Option<(int, int)> {
    match reply
    case Answer => Some((Min(start + step, to) + 1, step))
    case TooHeavy => if step > 0 then Some((start, step / 10)) else None
    case Failure => None
  }

  /** From any point at or before `to`, an answered request makes progress if and only if the
      step is not negative, which is what a positive `max_event_only_range` guarantees. */
  lemma ProgressNeedsStep(start: int, step: int, to: int)
    requires start <= to
    ensures start < NextState(start, step, to, Answer).value.0 <==> 0 <= step
    ensures step == -1 ==> NextState(start, step, to, Answer) == Some((start, step))
  {
  }

  // ---- the requests of a stream

  /** Those of the requests that are answered. */
  ghost function Answered(provider: Provider, asks: seq<(int, int)>): seq<(int, int)> {
    if asks == [] then []
    else
      var n := |asks| - 1;
      Answered(provider, asks[..n]) + if provider(n, asks[n].0, asks[n].1) == Answer then [asks[n]] else []
  }

  /** How many of them are too heavy. */
  ghost function Rejected(provider: Provider, asks: seq<(int, int)>): nat {
    if asks == [] then 0
    else
      var n := |asks| - 1;
      Rejected(provider, asks[..n]) + if provider(n, asks[n].0, asks[n].1) == TooHeavy then 1 else 0
  }

  /** `n` divided by ten `k` times. */
  ghost function Tenth(n: int, k: nat): int {
    if k == 0 then n else Tenth(n, k - 1) / 10
  }

  /** Request `i` starts right after everything that was answered before it, and reaches `first` further,
      divided by ten for each rejection so far, or to the end of the range. */
  ghost predicate AdaptiveAt(provider: Provider, asks: seq<(int, int)>, i: nat, from: int, to: int, first: int)
    requires i < |asks|
  {
    && Tiles(Answered(provider, asks[..i]), from, asks[i].0)
    && asks[i].0 <= asks[i].1 <= to
    && var end := asks[i].0 + Tenth(first, Rejected(provider, asks[..i]));
       asks[i].1 == if end < to then end else to
  }

  ghost predicate Adaptive(provider: Provider, asks: seq<(int, int)>, from: int, to: int, first: int) {
    forall i :: 0 <= i < |asks| ==> AdaptiveAt(provider, asks, i, from, to, first)
  }

  ghost predicate NoFailure(provider: Provider, asks: seq<(int, int)>) {
    forall i :: 0 <= i < |asks| ==> provider(i, asks[i].0, asks[i].1) != Failure
  }

  lemma AdaptiveSnoc(provider: Provider, asks: seq<(int, int)>, ask: (int, int), from: int, to: int, first: int)
    requires Adaptive(provider, asks, from, to, first)
    requires Tiles(Answered(provider, asks), from, ask.0) && ask.0 <= ask.1 <= to
    requires ask.1 == Min(ask.0 + Tenth(first, Rejected(provider, asks)), to)
    ensures Adaptive(provider, asks + [ask], from, to, first)
    ensures Answered(provider, asks + [ask]) ==
            if provider(|asks|, ask.0, ask.1) == Answer then Answered(provider, asks) + [ask] else Answered(provider, asks)
    ensures Rejected(provider, asks + [ask]) == Rejected(provider, asks) + if provider(|asks|, ask.0, ask.1) == TooHeavy then 1 else 0
  {
    var more := asks + [ask];
    assert more[..|asks|] == asks;
    forall i | 0 <= i < |more|
      ensures AdaptiveAt(provider, more, i, from, to, first)
    {
      if i < |asks| {
        assert more[..i] == asks[..i];
        assert AdaptiveAt(provider, asks, i, from, to, first);
      }
    }
  }

  /** How far the first request reaches at most: everything, or the limit for requests without an
      address. */
  ghost function Widest(r: Request, from: int, to: int, maxEventOnly: int): int {
    if r.contracts == [] && maxEventOnly <= to - from then maxEventOnly - 1 else to - from
  }

  /** Where a stream is after some requests: what comes next is at `start`, with `step`. */
  ghost predicate Streaming(provider: Provider, asks: seq<(int, int)>, from: int, to: int, first: int, start: int, step: int) {
    && Adaptive(provider, asks, from, to, first) && NoFailure(provider, asks)
    && Tiles(Answered(provider, asks), from, start) && step == Tenth(first, Rejected(provider, asks))
    && Rejected(provider, asks) + Digits(step) <= Digits(first)
  }

  /** It gives up at the first failure, or when it has rejected a single block as too heavy. */
  ghost predicate GaveUp(provider: Provider, asks: seq<(int, int)>, first: int) {
    && asks != []
    && var n := |asks| - 1;
       && NoFailure(provider, asks[..n])
       && (|| provider(n, asks[n].0, asks[n].1) == Failure
           || (&& provider(n, asks[n].0, asks[n].1) == TooHeavy && asks[n].0 == asks[n].1
               && Tenth(first, Rejected(provider, asks[..n])) == 0))
  }

  lemma CopesAlways(provider: Provider, asks: seq<(int, int)>, first: int)
    requires Copes(provider)
    ensures !GaveUp(provider, asks, first)
  {
    if asks != [] {
      var n: nat := |asks| - 1;
      var (a, b) := asks[n];
      assert provider(n, a, b) != Failure && (a == b ==> provider(n, a, b) == Answer);
    }
  }

  /** One more request. */
  lemma StreamStep(provider: Provider, asks: seq<(int, int)>, from: int, to: int, first: int, start: int, step: int)
    requires Streaming(provider, asks, from, to, first, start, step) && from <= start <= to && 0 <= step
    ensures var end := Min(start + step, to);
            var more := asks + [(start, end)];
            && Adaptive(provider, more, from, to, first)
            && match NextState(start, step, to, provider(|asks|, start, end))
               case Some((start', step')) => Streaming(provider, more, from, to, first, start', step')
               case None => GaveUp(provider, more, first)
  {
    var end := Min(start + step, to);
    var more := asks + [(start, end)];
    AdaptiveSnoc(provider, asks, (start, end), from, to, first);
    assert more[..|asks|] == asks;
    TilesSnoc(Answered(provider, asks), from, start, end);
    TenthHasFewerDigits(step);
  }

  /** `log_stream`. A backwards range panics, and `max_event_only_range` is validated to be
      positive (node/src/config.rs:797-800). `None` is an error. */
  method LogStream(chain: LogChain, provider: Provider, r: Request, from: int, to: int, maxEventOnly: int)
    returns (logs: Option<seq<Log>>, ghost asks: seq<(int, int)>)
    requires from <= to
    requires maxEventOnly >= 1
    // a successful stream is the simple scan, whatever was rejected on the way
    ensures logs.Some? ==> logs.value == Scan(chain, r, from, to)
    ensures logs.Some? ==> Tiles(Answered(provider, asks), from, to + 1) && NoFailure(provider, asks)
    ensures logs.Some? ==> Rejected(provider, asks) <= Digits(Widest(r, from, to, maxEventOnly))
    // which requests are made, and when it gives up
    ensures Adaptive(provider, asks, from, to, Widest(r, from, to, maxEventOnly))
    ensures r.contracts == [] ==> Short(asks, maxEventOnly)
    ensures logs.None? ==> GaveUp(provider, asks, Widest(r, from, to, maxEventOnly))
  {
    var start, step := from, InitialStep(r, from, to, maxEventOnly);
    ghost var first := Widest(r, from, to, maxEventOnly);
    var found: seq<Log> := [];
    var n: nat := 0;
    asks := [];
    while start <= to
      invariant from <= start <= to + 1 && 0 <= step && n == |asks|
      invariant Streaming(provider, asks, from, to, first, start, step)
      invariant found == Scan(chain, r, from, start - 1)
      invariant r.contracts == [] ==> step <= maxEventOnly - 1 && Short(asks, maxEventOnly)
      decreases (to + 1 - start), step
    {
      var next;
      next, found, asks := AskOnce(chain, provider, r, from, to, start, step, n, found, asks, first);
      if next.None? {
        return None, asks;
      }
      start, step := next.value.0, next.value.1;
      n := n + 1;
    }
    logs := Some(found);
  }

  /** The n-th request of a stream; the node's answer continues the scan. */
  method AskOnce(chain: LogChain, provider: Provider, r: Request, from: int, to: int, start: int, step: int, n: nat,
                 found: seq<Log>, ghost asks: seq<(int, int)>, ghost first: int)
    returns (next: Option<(int, int)>, more: seq<Log>, ghost longer: seq<(int, int)>)
    requires from <= start <= to && 0 <= step && n == |asks| && Streaming(provider, asks, from, to, first, start, step)
    requires found == Scan(chain, r, from, start - 1)
    ensures |longer| == n + 1 && Adaptive(provider, longer, from, to, first)
    ensures forall most :: Short(asks, most) && step < most ==> Short(longer, most)
    ensures next.None? ==> GaveUp(provider, longer, first)
    ensures next.Some? ==> var (start', step') := next.value;
              && start <= start' <= to + 1 && 0 <= step' <= step && (start == start' ==> step' < step)
              && Streaming(provider, longer, from, to, first, start', step')
              && more == Scan(chain, r, from, start' - 1)
  {
    var end := Min(start + step, to);
    var reply := provider(n, start, end);
    next, more, longer := NextState(start, step, to, reply), found, asks + [(start, end)];
    StreamStep(provider, asks, from, to, first, start, step);
    if reply.Answer? {
      ScanConcat(chain, r, from, start - 1, end);
      more := found + Scan(chain, r, start, end);
    }
  }

  lemma TenthHasFewerDigits(n: int)
    ensures n > 0 ==> Digits(n) == 1 + Digits(n / 10)
  {
  }

  // ---------- all requests of a filter ----------

  /** `logs_in_block_range`: stream every request and concatenate. Each request has its own
      provider replies. `None` is an error, or the assertion of the decomposition failing. */
  method LogsInBlockRange(chain: LogChain, providers: nat -> Provider, f: LogFilter, from: int, to: int,
                          cap: nat, maxEventOnly: int) returns (logs: Option<seq<Log>>)
    requires Numbered(chain) && from <= to && cap >= 1 && maxEventOnly >= 1
    ensures logs.Some? ==> forall l ::
              l in logs.value <==> from <= l.number <= to && l in chain(l.number) && Fetches(f, l)
    // rejected ranges alone never make a scan fail
    ensures (forall i :: Copes(providers(i))) ==> logs.Some?
  {
    var reqs, wild, topics, edges, _ := EthGetLogsFilters(f, cap);
    var found: seq<Log> := [];
    for i := 0 to |reqs.value|
      invariant forall l :: l in found <==> from <= l.number <= to && l in chain(l.number) && SomeAccepts(reqs.value[..i], l)
    {
      var some, asks := LogStream(chain, providers(i), reqs.value[i], from, to, maxEventOnly);
      if some.None? {
        if Copes(providers(i)) {
          CopesAlways(providers(i), asks, Widest(reqs.value[i], from, to, maxEventOnly));
        }
        return None;
      }
      ghost var was := found;
      found := found + some.value;
      forall l
        ensures l in found <==> from <= l.number <= to && l in chain(l.number) && SomeAccepts(reqs.value[..i + 1], l)
      {
        ScanIn(chain, reqs.value[i], from, to, l);
        SomeAcceptsSnoc(reqs.value, i, l);
      }
    }
    assert reqs.value[..|reqs.value|] == reqs.value;
    forall l
      ensures SomeAccepts(reqs.value, l) <==> Fetches(f, l)
    {
      DecompositionMeaning(f, wild, topics, edges, Cap(cap), l);
    }
    logs := Some(found);
  }

  lemma SomeAcceptsSnoc(reqs: seq<Request>, i: nat, l: Log)
    requires i < |reqs|
    ensures SomeAccepts(reqs[..i + 1], l) <==> SomeAccepts(reqs[..i], l) || reqs[i].Accepts(l)
  {
    assert reqs[..i + 1] == reqs[..i] + [reqs[i]];
    if reqs[i].Accepts(l) {
      assert reqs[i] in reqs[..i + 1];
    }
    if SomeAccepts(reqs[..i], l) {
      var q :| q in reqs[..i] && q.Accepts(l);
      assert q in reqs[..i + 1];
    }
  }

  /** The logs a scan with filter `f` brings back. */
  ghost predicate Fetches(f: LogFilter, l: Log) {
    exists k: Key :: f.Has(k) && NodeAccepts(k, l)
  }

  /** What is fetched is what the filter matches, and what an entry with an empty topic list lets
      through. */
  lemma FetchesExact(f: LogFilter, l: Log)
    ensures Fetches(f, l) <==> f.Matches(l) || LetThrough(f, l)
  {
    KeysLetThrough(f, l);
  }
}
