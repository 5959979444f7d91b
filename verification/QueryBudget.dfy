/** The per-minute token bucket that rations reconciliation queries. Time is a real number of
    seconds supplied by the caller and may run backwards. */
module QueryBudget {
  import opened Wrappers

  datatype Bucket = Bucket(limit: nat, tokens: real, last: Option<real>)

  ghost predicate Sound(b: Bucket) { b.limit >= 1 && 0.0 <= b.tokens <= b.limit as real }

  function Min(a: real, b: real): real { if a <= b then a else b }

  // The refill of `limit` tokens per minute over `seconds`, one token-rate at a time; `CreditIsProduct`
  // gives the closed form the code computes.
  function Credit(seconds: real, limit: nat): real {
    if limit == 0 then 0.0 else seconds / 60.0 + Credit(seconds, limit - 1)
  }

  lemma {:induction false} CreditIsProduct(seconds: real, limit: nat)
    ensures Credit(seconds, limit) == seconds * (limit as real / 60.0)
  {
    if limit != 0 {
      CreditIsProduct(seconds, limit - 1);
      assert limit as real / 60.0 == 1.0 / 60.0 + (limit - 1) as real / 60.0;
    }
  }

  lemma {:induction false} CreditAdds(x: real, y: real, limit: nat)
    ensures Credit(x + y, limit) == Credit(x, limit) + Credit(y, limit)
    ensures Credit(0.0, limit) == 0.0
    ensures x >= 0.0 ==> Credit(x, limit) >= 0.0
  {
    if limit != 0 { CreditAdds(x, y, limit - 1); }
  }

  // Seconds by which `now` moves the high-water mark forward.
  function Elapsed(b: Bucket, now: real): real {
    if b.last.Some? && now > b.last.value then now - b.last.value else 0.0
  }

  function Refill(b: Bucket, now: real): Bucket {
    if b.last.None? then b.(last := Some(now))
    else if now > b.last.value then
      b.(tokens := Min(b.limit as real, b.tokens + Credit(Elapsed(b, now), b.limit)), last := Some(now))
    else b
  }

  datatype Call = Call(now: real, n: int)

  // None: the request is refused as malformed and nothing changes.
  function Consume(b: Bucket, c: Call): (Bucket, Option<bool>) {
    if c.n < 1 then (b, None)
    else
      var r := Refill(b, c.now);
      if r.tokens >= c.n as real then (r.(tokens := r.tokens - c.n as real), Some(true)) else (r, Some(false))
  }

  class ReconcileQueryBudget {
    const limitPerMin: nat
    var tokens: real
    var last: Option<real>

    ghost predicate Valid() reads this { Sound(State()) }

    function State(): Bucket reads this { Bucket(limitPerMin, tokens, last) }

    constructor (limitPerMin: int)
      requires limitPerMin >= 1
      ensures Valid() && State() == Bucket(limitPerMin, limitPerMin as real, None)
    {
      this.limitPerMin := limitPerMin;
      tokens := limitPerMin as real;
      last := None;
    }

    method TryConsume(now: real, n: int) returns (granted: Option<bool>)
      requires Valid()
      modifies this
      ensures Valid() && (State(), granted) == Consume(old(State()), Call(now, n))
    {
      SoundStep(State(), Call(now, n));
      if n < 1 { return None; }
      if last.None? {
        last := Some(now);
      } else {
        var elapsed := now - last.value;
        if elapsed > 0.0 {
          var credit := elapsed * (limitPerMin as real / 60.0);
          assert credit == Credit(elapsed, limitPerMin) by { CreditIsProduct(elapsed, limitPerMin); }
          tokens := Min(limitPerMin as real, tokens + credit);
          last := Some(now);
        }
      }
      if tokens >= n as real {
        tokens := tokens - n as real;
        return Some(true);
      }
      return Some(false);
    }
  }

  // ---- runs ----

  function After(b: Bucket, calls: seq<Call>): Bucket
    decreases |calls|
  {
    if calls == [] then b else After(Consume(b, calls[0]).0, calls[1..])
  }

  // Tokens handed out over the run.
  function Granted(b: Bucket, calls: seq<Call>): int
    decreases |calls|
  {
    if calls == [] then 0
    else (if Consume(b, calls[0]).1 == Some(true) then calls[0].n else 0) + Granted(Consume(b, calls[0]).0, calls[1..])
  }

  // Seconds by which the run moves the high-water mark forward; backward clock readings add nothing.
  function Forward(b: Bucket, calls: seq<Call>): real
    decreases |calls|
  {
    if calls == [] then 0.0
    else (if calls[0].n >= 1 then Elapsed(b, calls[0].now) else 0.0) + Forward(Consume(b, calls[0]).0, calls[1..])
  }

  // Tokens lost because the bucket was already full.
  function Spilled(b: Bucket, calls: seq<Call>): real
    decreases |calls|
  {
    if calls == [] then 0.0
    else (if calls[0].n >= 1 then b.tokens + Credit(Elapsed(b, calls[0].now), b.limit) - Refill(b, calls[0].now).tokens
          else 0.0)
         + Spilled(Consume(b, calls[0]).0, calls[1..])
  }

  lemma SoundStep(b: Bucket, c: Call)
    requires Sound(b)
    ensures Sound(Consume(b, c).0) && Consume(b, c).0.limit == b.limit
    ensures c.n >= 1 ==> b.tokens + Credit(Elapsed(b, c.now), b.limit) >= Refill(b, c.now).tokens
  {
    CreditAdds(Elapsed(b, c.now), 0.0, b.limit);
  }

  /** Exact conservation for every clock sequence: what is left, was granted or overflowed is what
      was there plus the refill of the forward advance. Tokens stay within [0, limit]. */
  lemma {:induction false} TokensConserved(b: Bucket, calls: seq<Call>)
    requires Sound(b)
    ensures Sound(After(b, calls)) && After(b, calls).limit == b.limit
    ensures After(b, calls).tokens + Granted(b, calls) as real + Spilled(b, calls)
         == b.tokens + Credit(Forward(b, calls), b.limit)
    ensures Spilled(b, calls) >= 0.0
    decreases |calls|
  {
    if calls == [] {
      CreditAdds(0.0, 0.0, b.limit);
    } else {
      var next := Consume(b, calls[0]).0;
      SoundStep(b, calls[0]);
      TokensConserved(next, calls[1..]);
      CreditAdds(if calls[0].n >= 1 then Elapsed(b, calls[0].now) else 0.0, Forward(next, calls[1..]), b.limit);
    }
  }

  /** The forward advance telescopes to the movement of the high-water mark, which never rewinds. */
  lemma {:induction false} ForwardIsHighWaterAdvance(b: Bucket, calls: seq<Call>)
    requires b.last.Some?
    ensures After(b, calls).last.Some?
    ensures Forward(b, calls) == After(b, calls).last.value - b.last.value >= 0.0
    ensures forall c <- calls :: c.n >= 1 ==> c.now <= After(b, calls).last.value
    decreases |calls|
  {
    if calls != [] {
      ForwardIsHighWaterAdvance(Consume(b, calls[0]).0, calls[1..]);
    }
  }

  lemma {:induction false} AfterSplits(b: Bucket, a: seq<Call>, c: seq<Call>)
    ensures After(b, a + c) == After(After(b, a), c)
    ensures Granted(b, a + c) == Granted(b, a) + Granted(After(b, a), c)
    decreases |a|
  {
    if a == [] {
      assert a + c == c;
    } else {
      assert (a + c)[1..] == a[1..] + c;
      AfterSplits(Consume(b, a[0]).0, a[1..], c);
    }
  }

  /** In any contiguous run of calls, after any history, the tokens granted are at most the limit
      plus the refill of the run's own forward advance. */
  lemma ContiguousRunIsRateLimited(b: Bucket, history: seq<Call>, run: seq<Call>)
    requires Sound(b)
    ensures (Granted(b, history + run) - Granted(b, history)) as real
         <= b.limit as real + Credit(Forward(After(b, history), run), b.limit)
  {
    AfterSplits(b, history, run);
    TokensConserved(b, history);
    TokensConserved(After(b, history), run);
  }

  /** A call is refused only when granting it would overdraw: refusing is never spurious. */
  lemma RefusedOnlyWhenShort(b: Bucket, history: seq<Call>, c: Call)
    requires Sound(b) && c.n >= 1
    ensures var s := After(b, history);
            Consume(s, c).1 == Some(false) <==>
              Min(b.limit as real, s.tokens + Credit(Elapsed(s, c.now), b.limit)) < c.n as real
  {
    TokensConserved(b, history);
    CreditAdds(0.0, 0.0, b.limit);
  }

  /** A minute after its last reading a bucket is full again, whatever was spent. */
  lemma FullAfterAMinute(b: Bucket, now: real)
    requires Sound(b) && b.last.Some? && now >= b.last.value + 60.0
    ensures Refill(b, now).tokens == b.limit as real && Refill(b, now).last == Some(now)
  {
    CreditIsProduct(now - b.last.value, b.limit);
    var limit, seconds := b.limit as real, now - b.last.value;
    assert seconds * (limit / 60.0) - limit == (seconds - 60.0) * (limit / 60.0);
    assert (seconds - 60.0) * (limit / 60.0) >= 0.0;
  }
}
