/** Re-driving one stale SUBMITTING order. Every broker call is preceded by a durable STARTED record,
    and the cap counts STARTED and DEFERRED records alike. The records carry no dedupe key, so the
    cap is only as good as the count each sweep read. */
module Redrive {
  import opened Writes

  datatype Mark = Started | Deferred

  // One sweep over the order: how many marks it had read, whether the order could be priced, the fate
  // of its durable write, and whether the process survived to make the call.
  datatype Sweep = Sweep(seen: nat, priceable: bool, write: Fault, survives: bool)

  datatype State = State(marks: seq<Mark>, calls: nat)

  function Recorded(marks: seq<Mark>, m: Mark, write: Fault): seq<Mark> {
    if write == Lost then marks else marks + [m]
  }

  // Past the cap the sweep escalates to a recovery record and never calls.
  function Next(s: State, sweep: Sweep, cap: nat): State {
    if sweep.seen >= cap then s
    else if !sweep.priceable then s.(marks := Recorded(s.marks, Deferred, sweep.write))
    else State(Recorded(s.marks, Started, sweep.write),
               if sweep.write == Commit && sweep.survives then s.calls + 1 else s.calls)
  }

  function Run(s: State, sweeps: seq<Sweep>, cap: nat): State
    decreases |sweeps|
  {
    if sweeps == [] then s else Run(Next(s, sweeps[0], cap), sweeps[1..], cap)
  }

  class RedriveLog {
    var marks: seq<Mark>
    var calls: nat

    constructor ()
      ensures marks == [] && calls == 0
    {
      marks, calls := [], 0;
    }

    method AttemptCount() returns (n: nat)
      ensures n == |marks|
    {
      var deferred, started := 0, 0;
      for i := 0 to |marks|
        invariant deferred + started == i
      {
        if marks[i] == Deferred { deferred := deferred + 1; } else { started := started + 1; }
      }
      n := deferred + started;
    }

    /** One uninterrupted sweep: the count it acts on is the count now. */
    method SweepOnce(cap: nat, priceable: bool, write: Fault, survives: bool)
      modifies this
      ensures State(marks, calls)
                == Next(old(State(marks, calls)), Sweep(|old(marks)|, priceable, write, survives), cap)
    {
      var prior := AttemptCount();
      if prior >= cap { return; }
      if !priceable {
        if write != Lost { marks := marks + [Deferred]; }
        return;
      }
      if write != Lost { marks := marks + [Started]; }
      if write != Commit { return; }
      if survives { calls := calls + 1; }
    }
  }

  // Every sweep acted on a count at most `lag` marks out of date.
  ghost predicate Lagging(s: State, sweeps: seq<Sweep>, cap: nat, lag: nat)
    decreases |sweeps|
  {
    sweeps == []
    || (sweeps[0].seen <= |s.marks| <= sweeps[0].seen + lag && Lagging(Next(s, sweeps[0], cap), sweeps[1..], cap, lag))
  }

  // Calls made so far each have their own mark, and marks cannot pass the cap plus the lag.
  ghost predicate Capped(s: State, cap: nat, lag: nat) { s.calls <= |s.marks| <= cap + lag }

  lemma {:induction false} RunStaysCapped(s: State, sweeps: seq<Sweep>, cap: nat, lag: nat)
    requires Lagging(s, sweeps, cap, lag) && Capped(s, cap, lag)
    ensures Capped(Run(s, sweeps, cap), cap, lag)
    decreases |sweeps|
  {
    if sweeps != [] { RunStaysCapped(Next(s, sweeps[0], cap), sweeps[1..], cap, lag); }
  }

  const START := State([], 0)

  /** Lifetime venue calls never exceed the cap when sweeps do not overlap, whatever is lost and
      wherever the process dies; with counts up to `lag` marks old they never exceed cap + lag. */
  lemma CallsBounded(sweeps: seq<Sweep>, cap: nat, lag: nat)
    requires Lagging(START, sweeps, cap, lag)
    ensures Run(START, sweeps, cap).calls <= cap + lag
  {
    RunStaysCapped(START, sweeps, cap, lag);
  }

  lemma {:induction false} RunSplits(s: State, a: seq<Sweep>, b: seq<Sweep>, cap: nat, lag: nat)
    ensures Run(s, a + b, cap) == Run(Run(s, a, cap), b, cap)
    ensures Lagging(s, a, cap, lag) && Lagging(Run(s, a, cap), b, cap, lag) ==> Lagging(s, a + b, cap, lag)
    decreases |a|
  {
    if a == [] {
      assert a + b == b;
    } else {
      assert (a + b)[1..] == a[1..] + b;
      RunSplits(Next(s, a[0], cap), a[1..], b, cap, lag);
    }
  }

  /** Overlapping sweeps do reach cap + lag: the bound on the count's age cannot be dropped. */
  lemma {:induction false} OverlapReachesBound(cap: nat, lag: nat, n: nat) returns (sweeps: seq<Sweep>)
    requires 1 <= cap && n <= cap + lag
    ensures Lagging(START, sweeps, cap, lag)
    ensures Run(START, sweeps, cap).calls == n == |Run(START, sweeps, cap).marks|
    decreases n
  {
    if n == 0 {
      sweeps := [];
    } else {
      var before := OverlapReachesBound(cap, lag, n - 1);
      var s := Run(START, before, cap);
      var last := Sweep(if n <= cap then n - 1 else cap - 1, true, Commit, true);
      sweeps := before + [last];
      assert [last][1..] == [];
      assert Run(Next(s, last, cap), [], cap) == Next(s, last, cap);
      assert Run(s, [last], cap) == Next(s, last, cap);
      assert Lagging(Next(s, last, cap), [], cap, lag);
      assert Lagging(s, [last], cap, lag);
      RunSplits(START, before, [last], cap, lag);
    }
  }

  /** Exactly when a sweep marks and calls: below the cap every sweep leaves one mark unless the write is lost, a
      started one when the order can be priced and a deferred one otherwise; the call is made only after an answered
      mark. */
  lemma SweepExactly(s: State, sweep: Sweep, cap: nat)
    ensures var after := Next(s, sweep, cap);
            && (after.marks != s.marks <==> sweep.seen < cap && sweep.write != Lost)
            && (after.marks != s.marks ==> after.marks == s.marks + [if sweep.priceable then Started else Deferred])
            && (after.calls != s.calls <==>
                sweep.seen < cap && sweep.priceable && sweep.write == Commit && sweep.survives)
            && (after.calls != s.calls ==> after.calls == s.calls + 1)
  {
  }
}
