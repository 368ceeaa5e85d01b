/** When block handlers run: the handler rules of `validate`, and the blocks at which a
    handler runs over any sequence of range scans. */
module BlockSchedule {
  import opened Types
  import opened TriggerFilters
  import opened Dispatch
  import opened Intervals
  import opened TriggerOrder
  import TriggerSieve
  import opened TriggerPaths
  import opened RangeScan
  import C = CallFilters
  import B = BlockFilters
  import CallScan

  // ---------- validate ----------

  predicate SameSort(f: Option<BlockHandlerFilter>, g: Option<BlockHandlerFilter>) {
    match (f, g)
    case (None, None) => true
    case (Some(x), Some(y)) => x.WithCall? == y.WithCall? && x.Once? == y.Once?
    case _ => false
  }

  // `every` of a sample polling filter is irrelevant to SameSort.
  function Count(hs: seq<BlockHandler>, sort: Option<BlockHandlerFilter>): nat {
    if hs == [] then 0
    else Count(hs[..|hs| - 1], sort) + if SameSort(hs[|hs| - 1].filter, sort) then 1 else 0
  }

  /** At most one handler of each sort, and an unfiltered one excludes polling and once. */
  ghost predicate WellSorted(hs: seq<BlockHandler>) {
    && (forall i, j :: 0 <= i < j < |hs| ==> !SameSort(hs[i].filter, hs[j].filter))
    && (forall i, j :: 0 <= i < |hs| && 0 <= j < |hs| && hs[i].filter.None? && hs[j].filter.Some? ==> hs[j].filter.value.WithCall?)
  }

  lemma {:induction false} CountPositive(hs: seq<BlockHandler>, sort: Option<BlockHandlerFilter>)
    ensures Count(hs, sort) > 0 <==> exists i :: 0 <= i < |hs| && SameSort(hs[i].filter, sort)
  {
    if hs != [] {
      var n := |hs| - 1;
      CountPositive(hs[..n], sort);
      if i :| 0 <= i < |hs| && SameSort(hs[i].filter, sort) && i != n {
        assert hs[..n][i] == hs[i];
      }
      if Count(hs[..n], sort) > 0 {
        var i :| 0 <= i < n && SameSort(hs[..n][i].filter, sort);
        assert SameSort(hs[i].filter, sort);
      }
    }
  }

  lemma {:induction false} CountTwo(hs: seq<BlockHandler>, sort: Option<BlockHandlerFilter>)
    ensures Count(hs, sort) <= 1 <==>
            forall i, j :: 0 <= i < j < |hs| && SameSort(hs[i].filter, sort) ==> !SameSort(hs[j].filter, sort)
  {
    if hs != [] {
      var n := |hs| - 1;
      CountTwo(hs[..n], sort);
      CountPositive(hs[..n], sort);
      assert forall i :: 0 <= i < n ==> hs[..n][i] == hs[i];
    }
  }

  /** The block-handler part of `validate` together with the source-address check. */
  method Validate(d: DataSource) returns (ok: bool)
    ensures ok <==> HasSource(d) && WellSorted(d.blocks)
  {
    var plain, call, polling, once := 0, 0, 0, 0;
    var hs := d.blocks;
    for i := 0 to |hs|
      invariant plain == Count(hs[..i], None) && call == Count(hs[..i], Some(WithCall))
      invariant polling == Count(hs[..i], Some(Polling(1))) && once == Count(hs[..i], Some(Once))
    {
      assert hs[..i + 1][..i] == hs[..i];
      match hs[i].filter
      case None => plain := plain + 1;
      case Some(WithCall) => call := call + 1;
      case Some(Polling(_)) => polling := polling + 1;
      case Some(Once) => once := once + 1;
    }
    assert hs[..|hs|] == hs;
    var mixed := plain > 0 && (polling > 0 || once > 0);
    var tooMany := plain > 1 || call > 1 || once > 1 || polling > 1;
    CountsMeanWellSorted(hs);
    ok := (d.address.Some? || (d.calls == [] && d.blocks == [])) && !mixed && !tooMany;
  }

  lemma CountsMeanWellSorted(hs: seq<BlockHandler>)
    ensures WellSorted(hs) <==>
              && Count(hs, None) <= 1 && Count(hs, Some(WithCall)) <= 1
              && Count(hs, Some(Polling(1))) <= 1 && Count(hs, Some(Once)) <= 1
              && !(Count(hs, None) > 0 && (Count(hs, Some(Polling(1))) > 0 || Count(hs, Some(Once)) > 0))
  {
    CountTwo(hs, None);
    CountTwo(hs, Some(WithCall));
    CountTwo(hs, Some(Polling(1)));
    CountTwo(hs, Some(Once));
    CountPositive(hs, None);
    CountPositive(hs, Some(Polling(1)));
    CountPositive(hs, Some(Once));
  }

  // ---------- one block ----------

  /** When a handler is meant to run, whatever other data sources there are. */
  ghost predicate Scheduled(d: DataSource, h: BlockHandler, b: Block) {
    && d.start <= b.number
    && match h.filter
       case None => true
       case Some(Polling(every)) => exists k: nat :: b.number == d.start + k * every
       case Some(Once) => b.number == d.start
       case Some(WithCall) => exists call :: call in Calls(b) && d.address == Some(call.to)
  }

  ghost predicate HandlerRuns(d: DataSource, h: BlockHandler, ts: set<Trigger>, number: int) {
    exists t :: t in ts && t.BlockTrigger? && Passes(d, t, number) &&
                HandlerForBlock(d.blocks, d.start, t.kind, number) == Some(h)
  }

  lemma {:induction false} FirstFit(hs: seq<BlockHandler>, start: int, kind: Kind, number: int, h: BlockHandler)
    requires WellSorted(hs) && h in hs && Fits(h.filter, start, kind, number)
    ensures HandlerForBlock(hs, start, kind, number) == Some(h)
  {
    if hs[0] != h {
      var rest := hs[1..];
      var i :| 0 < i < |hs| && hs[i] == h;
      assert rest[i - 1] == h;
      assert !SameSort(hs[0].filter, hs[i].filter);
      assert WellSorted(rest) by {
        forall i, j | 0 <= i < j < |rest|
          ensures !SameSort(rest[i].filter, rest[j].filter)
        {
          assert hs[i + 1] == rest[i] && hs[j + 1] == rest[j];
        }
      }
      FirstFit(rest, start, kind, number, h);
    }
  }

  /** The filter of a block handler answers a trigger of this kind: a start at the start block if it
      is `once`, an end if there is none or at the blocks of its polling interval, and a call if it
      is `call`. */
  ghost predicate Answers(filter: Option<BlockHandlerFilter>, start: int, kind: Kind, number: int) {
    match kind
    case Start => filter == Some(Once) && number == start
    case End => filter == None || (filter.value.Polling? && exists k: nat :: number == start + k * filter.value.every)
    case WithCallTo(_) => filter == Some(WithCall)
  }

  lemma AnswersFits(filter: Option<BlockHandlerFilter>, start: int, kind: Kind, number: int)
    requires start <= number
    ensures Fits(filter, start, kind, number) <==> Answers(filter, start, kind, number)
  {
    if filter.Some? && filter.value.Polling? {
      FiresIff((start, filter.value.every), number);
    }
  }

  lemma {:induction false} HandlerForBlockFirst(hs: seq<BlockHandler>, start: int, kind: Kind, number: int, i: nat)
    requires i < |hs| && Fits(hs[i].filter, start, kind, number)
    requires forall j :: 0 <= j < i ==> !Fits(hs[j].filter, start, kind, number)
    ensures HandlerForBlock(hs, start, kind, number) == Some(hs[i])
  {
    if i > 0 {
      assert forall j :: 0 <= j < |hs| - 1 ==> hs[1..][j] == hs[j + 1];
      HandlerForBlockFirst(hs[1..], start, kind, number, i - 1);
    }
  }

  /** Handler `i` is the first one that answers. */
  ghost predicate FirstForBlock(d: DataSource, i: nat, kind: Kind, number: int) {
    && i < |d.blocks| && Answers(d.blocks[i].filter, d.start, kind, number)
    && forall j :: 0 <= j < i ==> !Answers(d.blocks[j].filter, d.start, kind, number)
  }

  /** A block trigger runs the first handler that answers it; it does not match if none does, before
      the start block, or if it is about calls to another contract. */
  lemma BlockOutcome(d: DataSource, m: int, kind: Kind, number: int, codec: Codec)
    ensures var o := MatchAndDecode(d, BlockTrigger(m, kind), number, codec);
            if number < d.start || (kind.WithCallTo? && d.address != None && d.address != Some(kind.callee)) then o == NoMatch
            else
              && (forall i: nat :: FirstForBlock(d, i, kind, number) ==> o == Run(d.blocks[i].name))
              && ((forall i: nat :: i < |d.blocks| ==> !Answers(d.blocks[i].filter, d.start, kind, number)) ==> o == NoMatch)
  {
    if number >= d.start {
      forall filter
        ensures Fits(filter, d.start, kind, number) <==> Answers(filter, d.start, kind, number)
      {
        AnswersFits(filter, d.start, kind, number);
      }
      forall i: nat | FirstForBlock(d, i, kind, number)
        ensures HandlerForBlock(d.blocks, d.start, kind, number) == Some(d.blocks[i])
      {
        HandlerForBlockFirst(d.blocks, d.start, kind, number, i);
      }
      HandlerForBlockIn(d.blocks, d.start, kind, number);
    }
  }

  /** Offered every trigger of the block, a handler runs exactly when it is scheduled. */
  lemma ScheduleByAllTriggers(d: DataSource, h: BlockHandler, b: Block)
    requires HasSource(d) && WellSorted(d.blocks) && h in d.blocks
    ensures HandlerRuns(d, h, AllTriggers(b), b.number) <==> Scheduled(d, h, b)
  {
    if d.start <= b.number && h.filter.Some? && h.filter.value.Polling? {
      Multiples(b.number - d.start, h.filter.value.every);
      assert forall k: nat :: b.number == d.start + k * h.filter.value.every <==> b.number - d.start == k * h.filter.value.every;
    }
    forall t | t in AllTriggers(b) && t.BlockTrigger? && Passes(d, t, b.number) &&
               HandlerForBlock(d.blocks, d.start, t.kind, b.number) == Some(h)
      ensures Fits(h.filter, d.start, t.kind, b.number)
    {
      HandlerForBlockIn(d.blocks, d.start, t.kind, b.number);
    }
    if Scheduled(d, h, b) {
      var kind := if h.filter == Some(WithCall) then WithCallTo(d.address.value)
                  else if h.filter == Some(Once) then Start else End;
      FirstFit(d.blocks, d.start, kind, b.number, h);
      assert BlockTrigger(b.number, kind) in AllTriggers(b);
    }
  }

  /** With any filter that covers the data source, a scanned or parsed block runs a handler
      exactly when it is scheduled: other data sources in the filter make no difference. */
  lemma ScheduleExact(f: Filter, w: C.CallFilter, b: Block, to: int, d: DataSource, h: BlockHandler)
    requires Covers(f, d) && HasSource(d) && WellSorted(d.blocks) && h in d.blocks
    requires WatchFilter(w, f.block) && B.OnePerContract(f.block.contracts) && b.number <= to
    ensures HandlerRuns(d, h, ScannedTriggers(f, w, b, to), b.number) <==> Scheduled(d, h, b)
    ensures HandlerRuns(d, h, ParsedTriggers(f, w, b), b.number) <==> Scheduled(d, h, b)
  {
    ScheduleByAllTriggers(d, h, b);
    NothingInvented(f, w, b, to);
    var codec := Codec((h, l) => Mismatch, (h, call) => Mismatch);
    forall t | t in AllTriggers(b) && t.BlockTrigger? && Passes(d, t, b.number) &&
               HandlerForBlock(d.blocks, d.start, t.kind, b.number) == Some(h)
      ensures t in ScannedTriggers(f, w, b, to) && t in ParsedTriggers(f, w, b)
    {
      Survives(f, w, b, to, d, t, codec);
    }
  }

  /** With the filter of a list of data sources, a start is scheduled exactly at the blocks at which one
      of their handlers is `once`, and an end at those of a polling handler, or both everywhere if a
      handler has no filter. */
  lemma DueExact(f: Filter, dss: seq<DataSource>, n: int)
    requires BuiltFrom(f, dss)
    ensures StartDue(f.block, n) <==> EveryBlock(dss) || exists a :: B.Declared(dss, a, n, Some(Once))
    ensures EndDue(f.block, n) <==> EveryBlock(dss) || exists a, start, every :: PolledAt(dss, a, start, every, n)
  {
    B.BuiltExact(f.block, dss);
    if p :| p in f.block.polling && Fires(p, n) {
      var a, filter :| B.Declared(dss, a, p.0, Some(filter)) && filter.Polling? && p.1 == filter.every as int;
      assert PolledAt(dss, a, p.0, filter.every, n);
    }
    if a, start, every :| PolledAt(dss, a, start, every, n) {
      assert B.Declared(dss, a, start, Some(Polling(every))) && (start, every as int) in f.block.polling;
    }
  }

  ghost predicate EveryBlock(dss: seq<DataSource>) {
    exists a, start :: B.Declared(dss, a, start, None)
  }

  ghost predicate PolledAt(dss: seq<DataSource>, a: Address, start: int, every: Interval, n: int) {
    B.Declared(dss, a, start, Some(Polling(every))) && Fires((start, every as int), n)
  }

  // ---------- call-filtered handlers whose data source need not be covered ----------

  /** Such a handler runs exactly on the call-filtered trigger of its own contract. */
  lemma CallFilteredRuns(d: DataSource, h: BlockHandler, ts: set<Trigger>, b: Block)
    requires HasSource(d) && WellSorted(d.blocks) && h in d.blocks && h.filter == Some(WithCall) && ts <= AllTriggers(b)
    ensures HandlerRuns(d, h, ts, b.number) <==>
            d.start <= b.number && BlockTrigger(b.number, WithCallTo(d.address.value)) in ts
  {
    var a := d.address.value;
    forall t | t in ts && t.BlockTrigger? && Passes(d, t, b.number) && HandlerForBlock(d.blocks, d.start, t.kind, b.number) == Some(h)
      ensures t == BlockTrigger(b.number, WithCallTo(a))
    {
      HandlerForBlockIn(d.blocks, d.start, t.kind, b.number);
      assert t in AllTriggers(b);
    }
    if d.start <= b.number {
      FirstFit(d.blocks, d.start, WithCallTo(a), b.number, h);
      assert Passes(d, BlockTrigger(b.number, WithCallTo(a)), b.number);
    }
  }

  /** Whether or not the filter covers the data source, and so also for data sources that only a
      template's filter stands for: a parsed block runs the handler exactly if it is scheduled and
      the contract is watched; a scanned one only if the watching has also started by the end of
      the scan, or there are too many contracts to ask for each. */
  lemma CallFilteredRunsIff(f: Filter, w: C.CallFilter, b: Block, to: int, d: DataSource, h: BlockHandler)
    requires HasSource(d) && WellSorted(d.blocks) && h in d.blocks && h.filter == Some(WithCall) && WatchFilter(w, f.block)
    ensures HandlerRuns(d, h, ParsedTriggers(f, w, b), b.number) <==> Scheduled(d, h, b) && d.address.value in w.contracts
    ensures HandlerRuns(d, h, ScannedTriggers(f, w, b, to), b.number) <==> Scheduled(d, h, b) && WatchStarted(w, to, d.address.value)
  {
    var t := BlockTrigger(b.number, WithCallTo(d.address.value));
    NothingInvented(f, w, b, to);
    CallFilteredRuns(d, h, ParsedTriggers(f, w, b), b);
    CallFilteredRuns(d, h, ScannedTriggers(f, w, b, to), b);
    CallFilteredRuns(d, h, AllTriggers(b), b);
    ScheduleByAllTriggers(d, h, b);
    ParsedSet(f, w, b, t);
    ScannedSet(f, w, b, to, t);
  }

  /** A static data source watches a contract from a later block on, and the filter of a template is
      merged in. An instance of the template at that contract has its call-filtered handler run when
      a block before is parsed, and not when the block is scanned. */
  lemma WatchedLater(other: DataSource, template: DataSource, d: DataSource, h: BlockHandler, g: Filter, f: Filter,
                     w: C.CallFilter, b: Block, to: int)
    requires BuiltFrom(g, [other]) && f == Merge(g, FromTemplate(template)) && WatchFilter(w, f.block)
    requires InstanceOf(d, template) && WellSorted(d.blocks) && h in d.blocks && h.filter == Some(WithCall)
    requires other.address == d.address && B.HasFilter(other, Some(WithCall)) && d.start <= b.number <= to < other.start
    requires exists call :: call in Calls(b) && d.address == Some(call.to)
    ensures HandlerRuns(d, h, ParsedTriggers(f, w, b), b.number)
    ensures !HandlerRuns(d, h, ScannedTriggers(f, w, b, to), b.number)
  {
    OnlyWatch(other, template, g, f, w, to);
    CallFilteredRunsIff(f, w, b, to, d, h);
  }

  lemma OnlyWatch(other: DataSource, template: DataSource, g: Filter, f: Filter, w: C.CallFilter, to: int)
    requires BuiltFrom(g, [other]) && f == Merge(g, FromTemplate(template)) && WatchFilter(w, f.block)
    requires other.address.Some? && B.HasFilter(other, Some(WithCall)) && to < other.start
    ensures other.address.value in w.contracts && !WatchStarted(w, to, other.address.value)
  {
    var p := (other.start, other.address.value);
    assert B.CallWatches([other]) == {p};
    assert g.block.contracts == {p};
    assert f.block.contracts == {p};
    assert p.1 in w.contracts && (w.contracts[p.1].0, p.1) in f.block.contracts;
    assert CallScan.Started(w, to) == {};
  }

  // ---------- how often a handler runs in a block ----------

  predicate RunsOnTrigger(d: DataSource, h: BlockHandler, t: Trigger, number: int) {
    t.BlockTrigger? && Passes(d, t, number) && HandlerForBlock(d.blocks, d.start, t.kind, number) == Some(h)
  }

  function TimesRun(d: DataSource, h: BlockHandler, ts: seq<Trigger>, number: int): nat {
    if ts == [] then 0
    else TimesRun(d, h, ts[1..], number) + if RunsOnTrigger(d, h, ts[0], number) then 1 else 0
  }

  /** The one trigger of a block that a handler can run on. */
  function OwnTrigger(d: DataSource, h: BlockHandler, number: int): Trigger
    requires h.filter == Some(WithCall) ==> d.address.Some?
  {
    match h.filter
    case Some(Once) => BlockTrigger(number, Start)
    case Some(WithCall) => BlockTrigger(number, WithCallTo(d.address.value))
    case _ => BlockTrigger(number, End)
  }

  lemma OwnTriggerOnly(d: DataSource, h: BlockHandler, b: Block, t: Trigger)
    requires HasSource(d) && h in d.blocks && t in AllTriggers(b) && RunsOnTrigger(d, h, t, b.number)
    ensures t == OwnTrigger(d, h, b.number)
  {
    HandlerForBlockIn(d.blocks, d.start, t.kind, b.number);
  }

  lemma {:induction false} TimesRunCount(d: DataSource, h: BlockHandler, b: Block, ts: seq<Trigger>)
    requires HasSource(d) && h in d.blocks && forall t :: t in ts ==> t in AllTriggers(b)
    ensures TimesRun(d, h, ts, b.number) ==
            if RunsOnTrigger(d, h, OwnTrigger(d, h, b.number), b.number) then multiset(ts)[OwnTrigger(d, h, b.number)] else 0
  {
    if ts != [] {
      assert ts[0] in ts;
      assert forall t :: t in ts[1..] ==> t in ts;
      TimesRunCount(d, h, b, ts[1..]);
      assert ts == [ts[0]] + ts[1..];
      assert multiset(ts) == multiset([ts[0]]) + multiset(ts[1..]);
      if RunsOnTrigger(d, h, ts[0], b.number) {
        OwnTriggerOnly(d, h, b, ts[0]);
      }
    }
  }

  lemma {:induction false} GroupsBounded(ts: seq<Trigger>, t: Trigger)
    ensures Groups(ts, t) <= multiset(ts)[t] && (Groups(ts, t) > 0 <==> t in ts)
  {
    if ts != [] {
      GroupsBounded(ts[1..], t);
      assert ts == [ts[0]] + ts[1..];
      assert multiset(ts) == multiset([ts[0]]) + multiset(ts[1..]);
    }
  }

  /** How often a handler runs if it is scheduled: once, or for a call-filtered one as often as there
      are runs of its trigger among the listed triggers that tie with it. */
  function TimesDue(listed: seq<Trigger>, d: DataSource, h: BlockHandler, number: int): nat
    requires h.filter == Some(WithCall) ==> d.address.Some?
  {
    var t := OwnTrigger(d, h, number);
    if h.filter == Some(WithCall) then Groups(TiedWith(listed, t), t) else 1
  }

  /** In the processed triggers of a scanned block a scheduled handler runs that often, and not at all
      if it is not scheduled. */
  lemma TimesRunExact(r: seq<Trigger>, f: Filter, w: C.CallFilter, b: Block, to: int, watchFirst: bool, d: DataSource, h: BlockHandler)
    requires Covers(f, d) && HasSource(d) && WellSorted(d.blocks) && h in d.blocks
    requires WatchFilter(w, f.block) && B.OnePerContract(f.block.contracts) && b.number <= to
    requires IsScanned(r, f, w, b, to, watchFirst)
    ensures TimesRun(d, h, r, b.number) ==
            if Scheduled(d, h, b) then TimesDue(ArrivedList(f, w, b, to, watchFirst), d, h, b.number) else 0
  {
    NothingInvented(f, w, b, to);
    ScheduleExact(f, w, b, to, d, h);
    forall u
      ensures u in r <==> u in ScannedTriggers(f, w, b, to)
    {
      ArrivedSet(r, f, w, b, to, watchFirst, u);
    }
    if h.filter != Some(WithCall) {
      ListedOnce(f, w, b, to, watchFirst, OwnTrigger(d, h, b.number));
    }
    TimesRunListed(r, ArrivedList(f, w, b, to, watchFirst), ScannedTriggers(f, w, b, to), b, d, h);
  }

  /** The same in a parsed block. */
  lemma TimesRunParsed(r: seq<Trigger>, f: Filter, w: C.CallFilter, b: Block, d: DataSource, h: BlockHandler)
    requires Covers(f, d) && HasSource(d) && WellSorted(d.blocks) && h in d.blocks
    requires WatchFilter(w, f.block) && B.OnePerContract(f.block.contracts) && IsParsed(r, f, w, b)
    ensures TimesRun(d, h, r, b.number) ==
            if Scheduled(d, h, b) then TimesDue(ParsedList(f, w, b), d, h, b.number) else 0
  {
    NothingInvented(f, w, b, b.number);
    ScheduleExact(f, w, b, b.number, d, h);
    forall u
      ensures u in r <==> u in ParsedTriggers(f, w, b)
    {
      ParsedSorted(r, f, w, b, u);
    }
    if h.filter != Some(WithCall) {
      ParsedOnce(f, w, b, OwnTrigger(d, h, b.number));
    }
    TimesRunListed(r, ParsedList(f, w, b), ParsedTriggers(f, w, b), b, d, h);
  }

  lemma TimesRunListed(r: seq<Trigger>, listed: seq<Trigger>, ts: set<Trigger>, b: Block, d: DataSource, h: BlockHandler)
    requires HasSource(d) && h in d.blocks && SortedDistinct(r, listed, LogsIn(b))
    requires ts <= AllTriggers(b) && (forall u :: u in r <==> u in ts)
    requires h.filter != Some(WithCall) ==> multiset(listed)[OwnTrigger(d, h, b.number)] <= 1
    ensures TimesRun(d, h, r, b.number) == if HandlerRuns(d, h, ts, b.number) then TimesDue(listed, d, h, b.number) else 0
  {
    var t := OwnTrigger(d, h, b.number);
    TimesRunCount(d, h, b, r);
    KeptOncePerRun(r, listed, LogsIn(b), t);
    RunsOnOwn(ts, b, d, h);
    TiedCount(listed, t);
    GroupsBounded(TiedWith(listed, t), t);
    assert t in r <==> multiset(r)[t] > 0;
  }

  lemma RunsOnOwn(ts: set<Trigger>, b: Block, d: DataSource, h: BlockHandler)
    requires HasSource(d) && h in d.blocks && ts <= AllTriggers(b)
    ensures HandlerRuns(d, h, ts, b.number) <==>
            OwnTrigger(d, h, b.number) in ts && RunsOnTrigger(d, h, OwnTrigger(d, h, b.number), b.number)
  {
    forall t | t in ts && RunsOnTrigger(d, h, t, b.number)
      ensures t == OwnTrigger(d, h, b.number)
    {
      OwnTriggerOnly(d, h, b, t);
    }
  }

  /** Block starts and ends are listed at most once. */
  lemma ListedOnce(f: Filter, w: C.CallFilter, b: Block, to: int, watchFirst: bool, t: Trigger)
    requires t.BlockTrigger? && !t.kind.WithCallTo?
    ensures multiset(ArrivedList(f, w, b, to, watchFirst))[t] <= 1
  {
    ArrivedParts(f, w, b, to);
    var front, watches, kinds := ArrivedFront(f, b, to), ArrivedWatches(w, b, to), ArrivedKinds(f, b);
    assert t !in front && t !in watches;
    assert multiset(kinds)[t] <= 1;
    assert multiset(ArrivedList(f, w, b, to, watchFirst)) == multiset(front) + (multiset(watches) + multiset(kinds));
  }

  lemma ParsedOnce(f: Filter, w: C.CallFilter, b: Block, t: Trigger)
    requires WatchFilter(w, f.block) && t.BlockTrigger? && !t.kind.WithCallTo?
    ensures multiset(ParsedList(f, w, b))[t] <= 1
  {
    ParsedIsOnly(f, w, b);
    TriggerSieve.OnlyCount(AllList(b), ParseKeeps(f, w), t);
    AllOnce(b, t);
  }

  lemma AllOnce(b: Block, t: Trigger)
    requires t.BlockTrigger? && !t.kind.WithCallTo?
    ensures multiset(AllList(b))[t] <= 1
  {
    var calls := CallsOf(b.traces);
    LogTriggersIn(b.logs, EveryLog());
    CallTriggersIn(calls, Succeeded());
    WatchTriggersIn(b.number, calls, EveryCall(), t);
    LastPartOnly(LogTriggers(b.logs, EveryLog()), CallTriggers(calls, Succeeded()), WatchTriggers(b.number, calls, EveryCall()),
                 KindTriggers(b.number, {Start, End}), t);
  }

  lemma LastPartOnly(x: seq<Trigger>, y: seq<Trigger>, z: seq<Trigger>, v: seq<Trigger>, t: Trigger)
    requires t !in x && t !in y && t !in z
    ensures multiset(x + y + (z + v))[t] == multiset(v)[t]
  {
    assert multiset(x + y + (z + v)) == multiset(x) + multiset(y) + (multiset(z) + multiset(v));
    assert multiset(x)[t] == 0 && multiset(y)[t] == 0 && multiset(z)[t] == 0;
  }

  /** A data source with an unfiltered and a call-filtered block handler notices the order of arrival
      in every block with a call to its contract. */
  lemma ArrivalNoticed(f: Filter, w: C.CallFilter, d: DataSource, plain: BlockHandler, watching: BlockHandler, b: Block, to: int, codec: Codec)
    requires Covers(f, d) && HasSource(d) && WellSorted(d.blocks)
    requires plain in d.blocks && plain.filter == None && watching in d.blocks && watching.filter == Some(WithCall)
    requires WatchFilter(w, f.block) && B.OnePerContract(f.block.contracts) && d.start <= b.number <= to
    requires exists call :: call in Calls(b) && d.address == Some(call.to)
    ensures !ArrivalUnnoticed(f, w, [d], b, to, codec)
  {
    var end, watch := BlockTrigger(b.number, End), BlockTrigger(b.number, WithCallTo(d.address.value));
    FitIsHandled(d, plain, end, b.number, codec);
    FitIsHandled(d, watching, watch, b.number, codec);
    assert end in AllTriggers(b) && watch in AllTriggers(b);
    KindSurvives(f, d, End, b.number, codec);
    WatchSurvives(f, w, b, to, d, d.address.value, codec);
    WatchArrives(w, b, to, d.address.value);
  }

  lemma FitIsHandled(d: DataSource, h: BlockHandler, t: Trigger, number: int, codec: Codec)
    requires WellSorted(d.blocks) && h in d.blocks && t.BlockTrigger? && Fits(h.filter, d.start, t.kind, number) && Passes(d, t, number)
    ensures MatchAndDecode(d, t, number, codec) != NoMatch && Handled([d], number, codec)(t)
  {
    FirstFit(d.blocks, d.start, t.kind, number, h);
    assert d in [d];
    RunsOnLabels([d], t, number, codec);
  }

  lemma WatchArrives(w: C.CallFilter, b: Block, to: int, a: Address)
    requires exists c :: c in Calls(b) && c.to == a && CallScan.Fetches(w, to, c)
    ensures BlockTrigger(b.number, WithCallTo(a)) in ArrivedWatches(w, b, to)
  {
    var c :| c in Calls(b) && c.to == a && CallScan.Fetches(w, to, c);
    CallsOfIn(b.traces, c);
    WatchTriggersIn(b.number, CallsOf(b.traces), Fetched(w, to), BlockTrigger(b.number, WithCallTo(a)));
    assert Fetched(w, to)(c);
  }

  // ---------- many scans ----------

  /** The numbers of [from, to] that satisfy `p`, in order. */
  ghost function Where(p: int -> bool, from: int, to: int): seq<int>
    decreases (to - from)
  {
    if from > to then [] else (if p(from) then [from] else []) + Where(p, from + 1, to)
  }

  lemma {:induction false} WhereSame(p: int -> bool, q: int -> bool, from: int, to: int)
    requires forall n :: from <= n <= to ==> p(n) == q(n)
    ensures Where(p, from, to) == Where(q, from, to)
    decreases (to - from)
  {
    if from <= to {
      WhereSame(p, q, from + 1, to);
    }
  }

  lemma {:induction false} WhereConcat(p: int -> bool, from: int, mid: int, to: int)
    requires from <= mid + 1 && mid <= to
    ensures Where(p, from, to) == Where(p, from, mid) + Where(p, mid + 1, to)
    decreases mid - from
  {
    if from <= mid {
      WhereConcat(p, from + 1, mid, to);
    }
  }

  lemma {:induction false} WhereMembers(p: int -> bool, from: int, to: int)
    ensures forall n :: n in Where(p, from, to) <==> from <= n <= to && p(n)
    ensures forall i, j :: 0 <= i < j < |Where(p, from, to)| ==> Where(p, from, to)[i] < Where(p, from, to)[j]
    decreases (to - from)
  {
    if from <= to {
      WhereMembers(p, from + 1, to);
      var rest := Where(p, from + 1, to);
      assert forall i :: 0 <= i < |rest| ==> rest[i] in rest;
    }
  }

  /** `h` runs at block `n` in a scan that ends at `to`. */
  ghost predicate RunsAt(c: Chain, f: Filter, w: C.CallFilter, d: DataSource, h: BlockHandler, to: int, n: int) {
    c.present(n) && HandlerRuns(d, h, ScannedTriggers(f, w, c.At(n), to), n)
  }

  ghost predicate ScheduledAt(c: Chain, d: DataSource, h: BlockHandler, n: int) {
    c.present(n) && Scheduled(d, h, c.At(n))
  }

  // A scan up to `to` with its own filter: the runner rebuilds the filter when it restarts.
  datatype Scan = Scan(to: int, filter: Filter, watch: C.CallFilter)

  ghost predicate Suits(s: Scan, d: DataSource) {
    Covers(s.filter, d) && WatchFilter(s.watch, s.filter.block) && B.OnePerContract(s.filter.block.contracts)
  }

  ghost predicate AllSuit(scans: seq<Scan>, d: DataSource) {
    forall s :: s in scans ==> Suits(s, d)
  }

  /** Each scan starts after the block that the previous one ended at. */
  ghost predicate Targets(c: Chain, from: int, scans: seq<Scan>)
    requires c.present(c.head)
    decreases |scans|
  {
    scans == [] || (from <= scans[0].to <= c.head && Targets(c, c.Next(scans[0].to) + 1, scans[1..]))
  }

  ghost function EndOf(c: Chain, from: int, scans: seq<Scan>): (end: int)
    requires c.present(c.head) && Targets(c, from, scans)
    ensures from - 1 <= end
    decreases |scans|
  {
    if scans == [] then from - 1 else EndOf(c, c.Next(scans[0].to) + 1, scans[1..])
  }

  ghost function ScanRuns(c: Chain, s: Scan, d: DataSource, h: BlockHandler, from: int, to: int): seq<int> {
    Where(n => RunsAt(c, s.filter, s.watch, d, h, to, n), from, to)
  }

  ghost function ScheduledRuns(c: Chain, d: DataSource, h: BlockHandler, from: int, to: int): seq<int> {
    Where(n => ScheduledAt(c, d, h, n), from, to)
  }

  /** The blocks at which `h` runs over a sequence of scans. */
  ghost function AllRuns(c: Chain, d: DataSource, h: BlockHandler, from: int, scans: seq<Scan>): seq<int>
    requires c.present(c.head) && Targets(c, from, scans)
    decreases |scans|
  {
    if scans == [] then []
    else
      var end := c.Next(scans[0].to);
      ScanRuns(c, scans[0], d, h, from, end) + AllRuns(c, d, h, end + 1, scans[1..])
  }

  lemma OneScan(c: Chain, s: Scan, d: DataSource, h: BlockHandler, from: int, to: int)
    requires Suits(s, d) && HasSource(d) && WellSorted(d.blocks) && h in d.blocks
    ensures ScanRuns(c, s, d, h, from, to) == ScheduledRuns(c, d, h, from, to)
  {
    forall n | from <= n <= to
      ensures RunsAt(c, s.filter, s.watch, d, h, to, n) == ScheduledAt(c, d, h, n)
    {
      ScheduleExact(s.filter, s.watch, c.At(n), to, d, h);
    }
    WhereSame(n => RunsAt(c, s.filter, s.watch, d, h, to, n), n => ScheduledAt(c, d, h, n), from, to);
  }

  lemma SuitFront(scans: seq<Scan>, d: DataSource)
    requires AllSuit(scans, d) && scans != []
    ensures Suits(scans[0], d) && AllSuit(scans[1..], d)
  {
    assert scans[0] in scans;
  }

  /** However a range is split into scans, and whatever else the filter of each scan holds, a handler
      runs in order at exactly the existing blocks it is scheduled for. */
  lemma {:induction false} RunsOverScans(c: Chain, d: DataSource, h: BlockHandler, from: int, scans: seq<Scan>)
    requires c.present(c.head) && Targets(c, from, scans)
    requires HasSource(d) && WellSorted(d.blocks) && h in d.blocks && AllSuit(scans, d)
    ensures AllRuns(c, d, h, from, scans) == ScheduledRuns(c, d, h, from, EndOf(c, from, scans))
    decreases |scans|
  {
    if scans != [] {
      var end := c.Next(scans[0].to);
      SuitFront(scans, d);
      OneScan(c, scans[0], d, h, from, end);
      RunsOverScans(c, d, h, end + 1, scans[1..]);
      WhereConcat(n => ScheduledAt(c, d, h, n), from, end, EndOf(c, from, scans));
    }
  }

  /** A `once` handler runs exactly once, at its start block, if and only if that block exists
      and lies in the scanned range; if it is a null block the handler never runs. */
  lemma {:induction false} OnceRuns(c: Chain, d: DataSource, h: BlockHandler, from: int, to: int)
    requires h.filter == Some(Once)
    ensures ScheduledRuns(c, d, h, from, to) ==
            if from <= d.start <= to && c.present(d.start) then [d.start] else []
    decreases (to - from)
  {
    if from <= to {
      OnceRuns(c, d, h, from + 1, to);
    }
  }

  /** A polling handler runs exactly at the existing blocks start + k * every of the range, and
      an unfiltered one at every existing block from its start block on, in order, once each. */
  lemma PollingAndPlainRuns(c: Chain, d: DataSource, h: BlockHandler, from: int, to: int, n: int)
    requires h.filter.None? || h.filter.value.Polling?
    ensures n in ScheduledRuns(c, d, h, from, to) <==>
              from <= n <= to && d.start <= n && c.present(n) &&
              (h.filter.None? || exists k: nat :: n == d.start + k * h.filter.value.every)
  {
    WhereMembers(n => ScheduledAt(c, d, h, n), from, to);
  }
}
