/** The blocks at which polling and once rules fire. */
module Intervals {
  import opened Types
  import opened Dispatch
  import B = BlockFilters

  lemma Multiples(n: int, every: int)
    requires n >= 0 && every >= 1
    ensures n % every == 0 <==> exists k: nat :: n == k * every
  {
    if n % every == 0 {
      assert n == (n / every) * every;
    }
    if k: nat :| n == k * every {
      MultipleMod(k, every);
    }
  }

  lemma MultipleMod(k: nat, every: int)
    requires every >= 1
    ensures (k * every) % every == 0
  {
    var q := (k * every) / every;
    assert (k - q) * every == (k * every) % every;
    Scaled(k - q, every);
  }

  lemma Scaled(x: int, every: int)
    requires every >= 1
    ensures x >= 1 ==> x * every >= every
    ensures x <= -1 ==> x * every <= -every
  {
  }

  ghost predicate Fires(p: (int, int), number: int) {
    p.1 > 0 && exists k: nat :: number == p.0 + k * p.1
  }

  /** A set of intervals fires Start at the start blocks of its once rules and End exactly at
      the blocks start + k * interval of its polling rules. */
  lemma IntervalKindsExact(number: int, polling: set<(int, int)>)
    ensures Start in IntervalKinds(number, polling) <==> (number, 0) in polling
    ensures End in IntervalKinds(number, polling) <==> exists p :: p in polling && Fires(p, number)
  {
    forall p | p in polling
      ensures Fires(p, number) <==> p.1 > 0 && number >= p.0 && (number - p.0) % p.1 == 0
    {
      FiresIff(p, number);
    }
  }

  lemma FiresIff(p: (int, int), number: int)
    ensures Fires(p, number) <==> p.1 > 0 && number >= p.0 && (number - p.0) % p.1 == 0
  {
    if p.1 > 0 && number >= p.0 {
      Multiples(number - p.0, p.1);
      assert forall k: nat :: number == p.0 + k * p.1 <==> number - p.0 == k * p.1;
    }
    if Fires(p, number) {
      var k: nat :| number == p.0 + k * p.1;
      Scaled(k, p.1);
    }
  }

  /** With a filter that asks for every block both kinds are scheduled everywhere; otherwise a start
      exactly at the start block of a once rule, and an end exactly where a polling rule fires. */
  ghost predicate StartDue(f: B.BlockFilter, number: int) {
    f.everyBlock || (number, 0) in f.polling
  }

  ghost predicate EndDue(f: B.BlockFilter, number: int) {
    f.everyBlock || exists p :: p in f.polling && Fires(p, number)
  }

  lemma ScheduledKindsExact(number: int, f: B.BlockFilter)
    ensures Start in ScheduledKinds(number, f) <==> StartDue(f, number)
    ensures End in ScheduledKinds(number, f) <==> EndDue(f, number)
    ensures forall k :: k in ScheduledKinds(number, f) ==> !k.WithCallTo?
  {
    IntervalKindsExact(number, f.polling);
  }
}
