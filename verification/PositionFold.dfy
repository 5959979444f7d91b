/** Position is derived by folding fills with the average-cost formula. `ApplyFill` is one step;
    `FoldFills` and `ApplyEvents` are the two loops built on it: the strict long-only fold and the
    event-log projector, which records broker shorts and can resume from a snapshot. */
module PositionFold {
  import opened Wrappers
  import opened Orders

  datatype Fill = Fill(side: Side, quantity: int, price: real, filledAt: real)

  datatype Position = Position(quantity: int, costBasis: real, averagePrice: Option<real>, updatedAt: Option<real>)

  datatype NegativePosition = NegativePosition(current: int, sold: int)

  const FLAT := Position(0, 0.0, None, None)

  function ApplyFill(p: Position, f: Fill, allowShort: bool): Result<Position, NegativePosition> {
    if f.side == Buy then
      var quantity := p.quantity + f.quantity;
      var basis := if p.quantity >= 0 then p.costBasis + f.quantity as real * f.price
                   else if quantity > 0 then quantity as real * f.price
                   else 0.0;
      Ok(Stamped(quantity, basis, f.filledAt))
    else
      var quantity := p.quantity - f.quantity;
      if quantity < 0 && !allowShort then Err(NegativePosition(p.quantity, f.quantity))
      else
        var basis := if quantity > 0 && p.quantity > 0
                     then p.costBasis * (quantity as real / p.quantity as real) else 0.0;
        Ok(Stamped(quantity, basis, f.filledAt))
  }

  function Stamped(quantity: int, basis: real, at: real): Position {
    Position(quantity, basis, if quantity > 0 then Some(basis / quantity as real) else None, Some(at))
  }

  function Fold(p: Position, fills: seq<Fill>, allowShort: bool): Result<Position, NegativePosition>
    decreases |fills|
  {
    if fills == [] then Ok(p)
    else
      var step := ApplyFill(p, fills[0], allowShort);
      if step.Err? then step else Fold(step.value, fills[1..], allowShort)
  }

  /** The strict fold over an ordered fill history, starting flat. */
  method FoldFills(fills: seq<Fill>) returns (r: Result<Position, NegativePosition>)
    ensures r == Fold(FLAT, fills, false)
  {
    var position := FLAT;
    for i := 0 to |fills|
      invariant Fold(FLAT, fills, false) == Fold(position, fills[i..], false)
    {
      assert fills[i..][1..] == fills[i + 1..];
      var step := ApplyFill(position, fills[i], false);
      if step.Err? { return step; }
      position := step.value;
    }
    r := Ok(position);
  }

  // What the store lets into the fill table.
  predicate Valid(f: Fill) { f.quantity > 0 && f.price > 0.0 }

  ghost predicate AllValid(fills: seq<Fill>) { forall f <- fills :: Valid(f) }

  function Signed(f: Fill): int { if f.side == Buy then f.quantity else -f.quantity }

  function Sum(fills: seq<Fill>): int {
    if fills == [] then 0 else Signed(fills[0]) + Sum(fills[1..])
  }

  ghost predicate Consistent(p: Position) {
    && (p.quantity <= 0 ==> p.costBasis == 0.0)
    && p.averagePrice == (if p.quantity > 0 then Some(p.costBasis / p.quantity as real) else None)
  }

  /** Splitting a history anywhere and resuming from the intermediate position changes nothing. */
  lemma {:induction false} FoldSplits(p: Position, a: seq<Fill>, b: seq<Fill>, allowShort: bool)
    ensures var first := Fold(p, a, allowShort);
            Fold(p, a + b, allowShort) == if first.Err? then first else Fold(first.value, b, allowShort)
    decreases |a|
  {
    if a == [] {
      assert a + b == b;
    } else {
      assert (a + b)[1..] == a[1..] + b;
      var step := ApplyFill(p, a[0], allowShort);
      if step.Ok? { FoldSplits(step.value, a[1..], b, allowShort); }
    }
  }

  /** Quantity is the signed sum of every fill; a book that is not long carries no cost basis and
      no average price. Recording shorts never fails. */
  lemma {:induction false} FoldQuantityAndBasis(p: Position, fills: seq<Fill>)
    requires Consistent(p) && AllValid(fills)
    ensures Fold(p, fills, true).Ok?
    ensures var r := Fold(p, fills, true).value;
            r.quantity == p.quantity + Sum(fills) && Consistent(r)
    decreases |fills|
  {
    if fills != [] {
      assert Valid(fills[0]);
      FoldQuantityAndBasis(ApplyFill(p, fills[0], true).value, fills[1..]);
    }
  }

  /** The long-only fold fails exactly when some prefix sells more than it holds, and otherwise it
      is the short-recording fold. */
  lemma {:induction false} StrictFoldFailsExactly(p: Position, fills: seq<Fill>)
    requires p.quantity >= 0 && AllValid(fills)
    ensures Fold(p, fills, false).Err? <==> exists k :: 0 <= k <= |fills| && p.quantity + Sum(fills[..k]) < 0
    ensures Fold(p, fills, false).Ok? ==> Fold(p, fills, false) == Fold(p, fills, true)
    decreases |fills|
  {
    if fills != [] {
      assert Valid(fills[0]);
      var f, rest := fills[0], fills[1..];
      var step := ApplyFill(p, f, false);
      if step.Err? {
        assert fills[..1] == [f];
        assert p.quantity + Sum(fills[..1]) < 0;
      } else {
        StrictFoldFailsExactly(step.value, rest);
        forall k | 0 <= k <= |rest| ensures Sum(fills[..k + 1]) == Signed(f) + Sum(rest[..k]) {
          assert fills[..k + 1][1..] == rest[..k];
        }
        if k :| 0 <= k <= |fills| && p.quantity + Sum(fills[..k]) < 0 {
          assert k > 0 && step.value.quantity + Sum(rest[..k - 1]) < 0;
        }
        if k :| 0 <= k <= |rest| && step.value.quantity + Sum(rest[..k]) < 0 {
          assert p.quantity + Sum(fills[..k + 1]) < 0;
        }
      }
    }
  }

  ghost predicate BuysWithin(fills: seq<Fill>, lo: real, hi: real) {
    forall f <- fills :: f.side == Buy ==> lo <= f.price <= hi
  }

  ghost predicate BasisWithin(p: Position, lo: real, hi: real) {
    p.quantity > 0 ==> lo * p.quantity as real <= p.costBasis <= hi * p.quantity as real
  }

  // Scaling a basis by n/o keeps it on the same side of a per-share bound.
  lemma ScaledDown(c: real, bound: real, o: real, n: real)
    requires 0.0 < n && 0.0 < o
    ensures bound * o <= c ==> bound * n <= c * (n / o)
    ensures c <= bound * o ==> c * (n / o) <= bound * n
  {
    var ratio := n / o;
    var gap := c - bound * o;
    assert bound * n == bound * o * ratio by { assert ratio * o == n; }
    assert gap >= 0.0 ==> gap * ratio >= 0.0;
    assert gap <= 0.0 ==> gap * ratio <= 0.0;
  }

  lemma Accumulated(c: real, bound: real, held: real, q: real, price: real)
    requires 0.0 <= held && 0.0 < q
    ensures bound * held <= c && bound <= price ==> bound * (held + q) <= c + q * price
    ensures c <= bound * held && price <= bound ==> c + q * price <= bound * (held + q)
  {
    assert bound <= price ==> (price - bound) * q >= 0.0;
    assert price <= bound ==> (bound - price) * q >= 0.0;
  }

  lemma BuyKeepsBasisWithin(p: Position, f: Fill, lo: real, hi: real)
    requires Consistent(p) && Valid(f) && BasisWithin(p, lo, hi) && f.side == Buy && lo <= f.price <= hi
    ensures BasisWithin(ApplyFill(p, f, true).value, lo, hi)
  {
    var q, held, basis := f.quantity as real, p.quantity as real, p.costBasis;
    if p.quantity >= 0 {
      Accumulated(basis, lo, held, q, f.price);
      Accumulated(basis, hi, held, q, f.price);
    } else if p.quantity + f.quantity > 0 {
      Accumulated(0.0, lo, 0.0, held + q, f.price);
      Accumulated(0.0, hi, 0.0, held + q, f.price);
    }
  }

  lemma SellKeepsBasisWithin(p: Position, f: Fill, lo: real, hi: real)
    requires Consistent(p) && Valid(f) && BasisWithin(p, lo, hi) && f.side == Sell
    ensures BasisWithin(ApplyFill(p, f, true).value, lo, hi)
  {
    var q, held, basis := f.quantity as real, p.quantity as real, p.costBasis;
    if p.quantity - f.quantity > 0 {
      ScaledDown(basis, lo, held, held - q);
      ScaledDown(basis, hi, held, held - q);
    }
  }

  lemma {:induction false} FoldKeepsBasisWithin(p: Position, fills: seq<Fill>, lo: real, hi: real)
    requires Consistent(p) && AllValid(fills) && BasisWithin(p, lo, hi) && BuysWithin(fills, lo, hi)
    ensures Fold(p, fills, true).Ok? && BasisWithin(Fold(p, fills, true).value, lo, hi)
    decreases |fills|
  {
    if fills != [] {
      assert Valid(fills[0]);
      if fills[0].side == Buy {
        BuyKeepsBasisWithin(p, fills[0], lo, hi);
      } else {
        SellKeepsBasisWithin(p, fills[0], lo, hi);
      }
      FoldKeepsBasisWithin(ApplyFill(p, fills[0], true).value, fills[1..], lo, hi);
    }
  }

  /** While long, the average price lies between the cheapest and dearest buy made since any moment
      the book was flat or short: history before that moment cannot leak into the average. */
  lemma AverageWithinBuysSinceFlat(fills: seq<Fill>, k: nat, lo: real, hi: real)
    requires AllValid(fills) && k <= |fills| && Sum(fills[..k]) <= 0 && BuysWithin(fills[k..], lo, hi)
    ensures Fold(FLAT, fills, true).Ok?
    ensures var r := Fold(FLAT, fills, true).value;
            r.quantity > 0 ==> r.averagePrice.Some? && lo <= r.averagePrice.value <= hi
  {
    FoldQuantityAndBasis(FLAT, fills[..k]);
    var mid := Fold(FLAT, fills[..k], true).value;
    FoldKeepsBasisWithin(mid, fills[k..], lo, hi);
    FoldQuantityAndBasis(mid, fills[k..]);
    FoldSplits(FLAT, fills[..k], fills[k..], true);
    assert fills[..k] + fills[k..] == fills;
    AverageFromBasis(Fold(FLAT, fills, true).value, lo, hi);
  }

  lemma AverageFromBasis(p: Position, lo: real, hi: real)
    requires Consistent(p) && BasisWithin(p, lo, hi)
    ensures p.quantity > 0 ==> p.averagePrice.Some? && lo <= p.averagePrice.value <= hi
  {
    if p.quantity > 0 { QuotientWithin(p.costBasis, p.quantity as real, lo, hi); }
  }

  lemma QuotientWithin(c: real, q: real, lo: real, hi: real)
    requires q > 0.0 && lo * q <= c <= hi * q
    ensures lo <= c / q <= hi
  {
    var avg := c / q;
    assert avg * q == c;
    assert avg < lo ==> (lo - avg) * q > 0.0;
    assert hi < avg ==> (avg - hi) * q > 0.0;
  }

  // ---- the basis is what was paid ----

  // Shares of a fill that are bought into the long book: a buy that covers a short counts its long remainder only.
  function Acquired(held: int, f: Fill): int {
    if f.side == Sell || held + f.quantity <= 0 then 0 else if held >= 0 then f.quantity else held + f.quantity
  }

  // Shares of a fill that leave the long book.
  function Sold(held: int, f: Fill): int {
    if f.side == Buy || held <= 0 then 0 else if f.quantity <= held then f.quantity else held
  }

  function Paid(held: int, fills: seq<Fill>): real
    decreases |fills|
  {
    if fills == [] then 0.0
    else PaidFor(held, fills[0]) + Paid(held + Signed(fills[0]), fills[1..])
  }

  function PaidFor(held: int, f: Fill): real { Acquired(held, f) as real * f.price }

  function Average(p: Position): real { if p.averagePrice.Some? then p.averagePrice.value else 0.0 }

  // Cost that sells take out: the shares sold at the average of that moment.
  function Released(p: Position, fills: seq<Fill>): real
    decreases |fills|
  {
    if fills == [] then 0.0
    else
      var step := ApplyFill(p, fills[0], true);
      ReleasedBy(p, fills[0]) + if step.Err? then 0.0 else Released(step.value, fills[1..])
  }

  function ReleasedBy(p: Position, f: Fill): real { Sold(p.quantity, f) as real * Average(p) }

  lemma SplitAtAverage(c: real, o: real, n: real)
    requires 0.0 < o
    ensures c * (n / o) + (o - n) * (c / o) == c && o * (c / o) == c
  {
    var avg := c / o;
    assert avg * o == c;
    assert c * (n / o) == avg * n by { assert n / o * o == n && avg * o * (n / o) == avg * (o * (n / o)); }
    assert (o - n) * avg == o * avg - n * avg;
  }

  // One fill: the basis grows by what is paid and shrinks by what is released.
  lemma StepAccounts(p: Position, f: Fill)
    requires Consistent(p) && Valid(f)
    ensures var q := ApplyFill(p, f, true).value;
            && q.quantity == p.quantity + Signed(f) && q.updatedAt == Some(f.filledAt) && Consistent(q)
            && q.costBasis + ReleasedBy(p, f) == p.costBasis + PaidFor(p.quantity, f)
  {
    if f.side == Sell && p.quantity > 0 {
      SplitAtAverage(p.costBasis, p.quantity as real, (p.quantity - f.quantity) as real);
      assert Average(p) == p.costBasis / p.quantity as real;
    }
  }

  /** Conservation of cost: over every history, the basis at the end plus all that sells released is the basis at the
      start plus all that was paid for shares bought into the long book. */
  lemma {:induction false} BasisIsWhatWasPaid(p: Position, fills: seq<Fill>)
    requires Consistent(p) && AllValid(fills)
    ensures Fold(p, fills, true).Ok?
    ensures Fold(p, fills, true).value.costBasis + Released(p, fills) == p.costBasis + Paid(p.quantity, fills)
    ensures fills != [] ==> Fold(p, fills, true).value.updatedAt == Some(fills[|fills| - 1].filledAt)
    decreases |fills|
  {
    if fills != [] {
      assert Valid(fills[0]);
      var f, rest, q := fills[0], fills[1..], ApplyFill(p, fills[0], true).value;
      StepAccounts(p, f);
      BasisIsWhatWasPaid(q, rest);
      Joined(p.costBasis, PaidFor(p.quantity, f), ReleasedBy(p, f), q.costBasis, Released(q, rest),
             Paid(q.quantity, rest),
             Fold(q, rest, true).value.costBasis);
    }
  }

  lemma Joined(start: real, paid: real, out: real, middle: real, laterOut: real, laterPaid: real, end: real)
    requires middle + out == start + paid && end + laterOut == middle + laterPaid
    ensures end + (out + laterOut) == start + (paid + laterPaid)
  {
  }

  function Cost(fills: seq<Fill>): real {
    if fills == [] then 0.0 else fills[0].quantity as real * fills[0].price + Cost(fills[1..])
  }

  /** In particular a history of buys alone costs the sum of quantity times price. */
  lemma {:induction false} BuysCostWhatTheyCost(p: Position, fills: seq<Fill>)
    requires Consistent(p) && p.quantity >= 0 && AllValid(fills) && forall f <- fills :: f.side == Buy
    ensures Fold(p, fills, true).Ok? && Fold(p, fills, true).value.costBasis == p.costBasis + Cost(fills)
    decreases |fills|
  {
    if fills != [] {
      assert Valid(fills[0]) && fills[0].side == Buy;
      StepAccounts(p, fills[0]);
      BuysCostWhatTheyCost(ApplyFill(p, fills[0], true).value, fills[1..]);
    }
  }

  /** The strict fold's refusal names the first sell that exceeds what is held, and what was held then. */
  lemma {:induction false} StrictFoldNamesTheSell(p: Position, fills: seq<Fill>, k: nat)
    requires p.quantity >= 0 && AllValid(fills) && k < |fills| && p.quantity + Sum(fills[..k + 1]) < 0
    requires forall j :: 0 <= j <= k ==> p.quantity + Sum(fills[..j]) >= 0
    ensures Fold(p, fills, false) == Err(NegativePosition(p.quantity + Sum(fills[..k]), fills[k].quantity))
    decreases |fills|
  {
    var f, rest := fills[0], fills[1..];
    assert Valid(f);
    forall j | 0 <= j <= |rest| ensures Sum(fills[..j + 1]) == Signed(f) + Sum(rest[..j]) {
      assert fills[..j + 1][1..] == rest[..j];
    }
    if k == 0 {
      assert rest[..0] == [] && fills[..0] == [];
    } else {
      assert p.quantity + Sum(fills[..1]) >= 0 && rest[..0] == [];
      var q := ApplyFill(p, f, false).value;
      forall j | 0 <= j <= k - 1 ensures q.quantity + Sum(rest[..j]) >= 0 {
        assert p.quantity + Sum(fills[..j + 1]) >= 0;
      }
      StrictFoldNamesTheSell(q, rest, k - 1);
    }
  }

  /** A sell that leaves the book long leaves its average price unchanged. */
  lemma SellKeepsAverage(p: Position, f: Fill, allowShort: bool)
    requires Consistent(p) && f.side == Sell && 0 < f.quantity < p.quantity
    ensures ApplyFill(p, f, allowShort).Ok?
    ensures ApplyFill(p, f, allowShort).value.averagePrice == p.averagePrice
  {
    var n := p.quantity - f.quantity;
    RescaledAverage(p.costBasis, p.quantity as real, n as real);
    assert ApplyFill(p, f, allowShort).value == Stamped(n, p.costBasis * (n as real / p.quantity as real), f.filledAt);
  }

  lemma RescaledAverage(c: real, o: real, n: real)
    requires 0.0 < n && 0.0 < o
    ensures c * (n / o) / n == c / o
  {
    var avg := c / o;
    assert avg * o == c;
    assert n / o * o == n;
    assert c * (n / o) == avg * n by { assert avg * o * (n / o) == avg * (o * (n / o)); }
    assert avg * n / n == avg;
  }

  // ---- the event-log projector ----

  datatype Event = Event(sequence: nat, symbol: string, fill: Option<Fill>)

  datatype Projection = Projection(positions: map<string, Position>, upTo: nat)

  const EMPTY := Projection(map[], 0)

  function Held(positions: map<string, Position>, symbol: string): Position {
    if symbol in positions then positions[symbol] else FLAT
  }

  function ApplyEvent(p: Projection, e: Event): Projection {
    var upTo := if e.sequence > p.upTo then e.sequence else p.upTo;
    if e.fill.None? then p.(upTo := upTo)
    else
      var step := ApplyFill(Held(p.positions, e.symbol), e.fill.value, true);
      // Recording shorts cannot fail; the projector has no other branch.
      Projection(if step.Ok? then p.positions[e.symbol := step.value] else p.positions, upTo)
  }

  function ApplyAll(p: Projection, events: seq<Event>): Projection
    decreases |events|
  {
    if events == [] then p else ApplyAll(ApplyEvent(p, events[0]), events[1..])
  }

  function After(events: seq<Event>, sequence: nat): seq<Event> {
    if events == [] then []
    else (if events[0].sequence > sequence then [events[0]] else []) + After(events[1..], sequence)
  }

  function UpTo(events: seq<Event>, sequence: nat): seq<Event> {
    if events == [] then []
    else (if events[0].sequence <= sequence then [events[0]] else []) + UpTo(events[1..], sequence)
  }

  function Project(events: seq<Event>): Projection { ApplyAll(EMPTY, events) }

  function Resume(snapshot: Projection, events: seq<Event>): Projection {
    ApplyAll(snapshot, After(events, snapshot.upTo))
  }

  /** The projector's loop, from scratch or from a snapshot's book. */
  method ApplyEvents(start: Projection, events: seq<Event>) returns (p: Projection)
    ensures p == ApplyAll(start, events)
  {
    p := start;
    for i := 0 to |events|
      invariant ApplyAll(start, events) == ApplyAll(p, events[i..])
    {
      assert events[i..][1..] == events[i + 1..];
      p := ApplyEvent(p, events[i]);
    }
  }

  ghost predicate Ascending(events: seq<Event>) {
    forall i, j :: 0 <= i < j < |events| ==> events[i].sequence < events[j].sequence
  }

  lemma {:induction false} ApplyAllSplits(p: Projection, a: seq<Event>, b: seq<Event>)
    ensures ApplyAll(p, a + b) == ApplyAll(ApplyAll(p, a), b)
    decreases |a|
  {
    if a == [] {
      assert a + b == b;
    } else {
      assert (a + b)[1..] == a[1..] + b;
      ApplyAllSplits(ApplyEvent(p, a[0]), a[1..], b);
    }
  }

  lemma AscendingTail(events: seq<Event>)
    requires Ascending(events) && events != []
    ensures Ascending(events[1..]) && forall e <- events[1..] :: events[0].sequence < e.sequence
  {
    var rest := events[1..];
    assert forall i :: 0 <= i < |rest| ==> rest[i] == events[i + 1];
  }

  lemma FirstIsUpTo(events: seq<Event>, at: nat)
    requires events != [] && events[0].sequence <= at && UpTo(events[1..], at) + After(events[1..], at) == events[1..]
    ensures UpTo(events, at) + After(events, at) == events
  {
    var first, rest := events[0], events[1..];
    var low, high := UpTo(rest, at), After(rest, at);
    assert UpTo(events, at) == [first] + low && After(events, at) == [] + high;
    assert [first] + low + high == [first] + (low + high);
  }

  // On an ascending log the two filters cut it at one place.
  lemma {:induction false} AscendingCuts(events: seq<Event>, at: nat)
    requires Ascending(events)
    ensures UpTo(events, at) + After(events, at) == events
  {
    if events != [] {
      AscendingTail(events);
      if events[0].sequence <= at {
        AscendingCuts(events[1..], at);
        FirstIsUpTo(events, at);
      } else {
        assert forall e <- events :: e == events[0] || e in events[1..];
        AllAbove(events, at);
      }
    }
  }

  // Replaying the lower part leaves its last sequence as the boundary, so the boundary selects the
  // same tail as the cut.
  lemma {:induction false} BoundarySelectsTail(p: Projection, events: seq<Event>, at: nat)
    requires Ascending(events) && p.upTo <= at && forall e <- events :: p.upTo < e.sequence
    ensures After(events, ApplyAll(p, UpTo(events, at)).upTo) == After(events, at)
    decreases |events|
  {
    if events != [] {
      var rest := events[1..];
      AscendingTail(events);
      if events[0].sequence <= at {
        var q := ApplyEvent(p, events[0]);
        BoundarySelectsTail(q, rest, at);
        assert UpTo(events, at)[1..] == UpTo(rest, at);
        BoundaryGrows(q, UpTo(rest, at));
      } else {
        AllAbove(events, at);
        AllAbove(events, p.upTo);
      }
    }
  }

  lemma {:induction false} AllAbove(events: seq<Event>, at: nat)
    requires forall e <- events :: at < e.sequence
    ensures UpTo(events, at) == [] && After(events, at) == events
  {
    if events != [] { AllAbove(events[1..], at); }
  }

  lemma {:induction false} BoundaryGrows(p: Projection, events: seq<Event>)
    ensures p.upTo <= ApplyAll(p, events).upTo
    decreases |events|
  {
    if events != [] { BoundaryGrows(ApplyEvent(p, events[0]), events[1..]); }
  }

  /** Bounded recovery: a snapshot taken at any sequence, resumed over the whole log, is the full
      replay, for every log the store can produce (sequences ascending from one). */
  lemma SnapshotResumeIsFullReplay(events: seq<Event>, at: nat)
    requires Ascending(events) && forall e <- events :: e.sequence >= 1
    ensures Resume(Project(UpTo(events, at)), events) == Project(events)
  {
    AscendingCuts(events, at);
    BoundarySelectsTail(EMPTY, events, at);
    ApplyAllSplits(EMPTY, UpTo(events, at), After(events, at));
  }

  function FillsOf(events: seq<Event>, symbol: string): seq<Fill> {
    if events == [] then []
    else (if events[0].symbol == symbol && events[0].fill.Some? then [events[0].fill.value] else [])
         + FillsOf(events[1..], symbol)
  }

  /** Each symbol's projected position is the fold of that symbol's own fills: events of other
      symbols and of other types cannot touch it. */
  lemma {:induction false} ProjectionIsPerSymbolFold(p: Projection, events: seq<Event>, symbol: string)
    ensures Fold(Held(p.positions, symbol), FillsOf(events, symbol), true)
         == Ok(Held(ApplyAll(p, events).positions, symbol))
    decreases |events|
  {
    if events != [] {
      var q := ApplyEvent(p, events[0]);
      ProjectionIsPerSymbolFold(q, events[1..], symbol);
      if events[0].symbol == symbol && events[0].fill.Some? {
        assert FillsOf(events, symbol)[1..] == FillsOf(events[1..], symbol);
      } else {
        assert FillsOf(events, symbol) == FillsOf(events[1..], symbol);
      }
    }
  }
}
