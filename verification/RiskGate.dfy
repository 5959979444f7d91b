/** The last check before a BUY: exposure so far, plus the new order, against the configured limits. What it admits
    stays under the total limit however the known fills are spread over the accepted legs. */
module RiskGate {
  import opened Wrappers
  import opened Text
  import opened Orders
  import opened Uncertainty
  import opened CheapestFirst
  import opened Exposure
  import opened ExposureTotal

  datatype Limits = Limits(maxShares: Option<real>, maxNotional: Option<real>, maxTotal: Option<real>,
                           allowlist: set<string>)

  datatype Reason = NotOnAllowlist | NonFinite | TooManyShares | TooMuchNotional | TooMuchExposure

  function RiskReason(symbol: string, quantity: int, price: Amount, exposure: Amount, limits: Limits): Option<Reason> {
    if limits.allowlist != {} && symbol !in limits.allowlist then Some(NotOnAllowlist)
    else if exposure == Infinite || price == Infinite then Some(NonFinite)
    else
      var notional := quantity as real * price.value;
      if limits.maxShares.Some? && quantity as real > limits.maxShares.value then Some(TooManyShares)
      else if limits.maxNotional.Some? && notional > limits.maxNotional.value then Some(TooMuchNotional)
      else if limits.maxTotal.Some? && exposure.value + notional > limits.maxTotal.value then Some(TooMuchExposure)
      else None
  }

  // What each limit asks of an order, in the order the gate asks it.
  predicate Allowed(symbol: string, limits: Limits) { limits.allowlist == {} || symbol in limits.allowlist }

  predicate AllFinite(price: Amount, exposure: Amount) { price.Finite? && exposure.Finite? }

  predicate FewShares(quantity: int, limits: Limits) {
    limits.maxShares.Some? ==> quantity as real <= limits.maxShares.value
  }

  predicate SmallOrder(quantity: int, price: real, limits: Limits) {
    limits.maxNotional.Some? ==> quantity as real * price <= limits.maxNotional.value
  }

  predicate UnderTotal(quantity: int, price: real, exposure: real, limits: Limits) {
    limits.maxTotal.Some? ==> exposure + quantity as real * price <= limits.maxTotal.value
  }

  /** An order is admitted if and only if its symbol is allowed, its price and the exposure are finite, and every
      configured cap is respected; otherwise the reason is the first of these that fails. */
  lemma AdmittedExactly(symbol: string, quantity: int, price: Amount, exposure: Amount, limits: Limits)
    ensures var reason := RiskReason(symbol, quantity, price, exposure, limits);
            && (reason == Some(NotOnAllowlist) <==> !Allowed(symbol, limits))
            && (reason == Some(NonFinite) <==> Allowed(symbol, limits) && !AllFinite(price, exposure))
            && (Allowed(symbol, limits) && AllFinite(price, exposure) ==>
                  var few, small := FewShares(quantity, limits), SmallOrder(quantity, price.value, limits);
                  var under := UnderTotal(quantity, price.value, exposure.value, limits);
                  && (reason == Some(TooManyShares) <==> !few)
                  && (reason == Some(TooMuchNotional) <==> few && !small)
                  && (reason == Some(TooMuchExposure) <==> few && small && !under)
                  && (reason == None <==> few && small && under))
  {
  }

  // ---- what the order rows count by themselves ----

  // Shares on record for an order: its fills of either side if there are any, otherwise its own counter.
  function Recorded(fills: seq<Fill>, orderId: string): Option<int> {
    if fills == [] then None
    else
      var rest, f := Recorded(fills[..|fills| - 1], orderId), fills[|fills| - 1];
      if f.orderId != orderId then rest else Some((if rest.Some? then rest.value else 0) + f.quantity)
  }

  function FilledFor(o: Order, fills: seq<Fill>): int {
    var r := Recorded(fills, o.id); if r.Some? then r.value else o.filled
  }

  function RowNotional(o: Order, fills: seq<Fill>): real {
    (o.quantity - FilledFor(o, fills)) as real * Price0(o.limitPrice)
  }

  // Every open BUY row's remaining notional.
  ghost function Rows(orders: map<string, Order>, fills: seq<Fill>, exclude: Option<string>): map<string, real> {
    map id <- orders | Ordinary(orders, id, exclude).Some? :: RowNotional(orders[id], fills)
  }

  ghost function ExposureBefore(costBasis: real, orders: map<string, Order>, fills: seq<Fill>, exclude: Option<string>,
                                extra: Amount): Amount {
    if extra == Infinite then Infinite else Finite(costBasis + Sum(Rows(orders, fills, exclude)) + extra.value)
  }

  // ---- an unbounded leg ----

  lemma UnboundedStays(legs: Legs, row: Option<Order>, out: Legs)
    requires RowAdded(legs, row, out) && !BoundedLegs(legs)
    ensures !BoundedLegs(out)
  {
    var id :| id in legs && (legs[id].quantity == None || legs[id].price == None);
    assert id in out && (out[id].quantity == None || out[id].price == None);
  }

  lemma UnboundedItem(legs: map<string, Legs>, items: set<Item>, item: Item)
    requires Folded(legs, items) && item in items && (item.scope.quantity == None || item.scope.price == None)
    ensures item.orderId in legs && !BoundedLegs(legs[item.orderId])
  {
    var scopes := Exposure.Recorded(items, item.orderId, item.identity);
    assert item.scope in scopes;
    assert LegFits(LegAt(legs, item.orderId, item.identity), scopes);
    assert item.identity in legs[item.orderId];
  }

  /** One accepted leg without a usable quantity or price makes the exposure infinite, and the gate then rejects every
      order under every configuration. */
  lemma UnboundedLegRejectsEverything(r: Amount, orders: map<string, Order>, recoveries: seq<Recovery>,
                                      facts: seq<Fact>, fills: seq<Fill>,
                                      exclude: Option<string>, item: Item, costBasis: real, symbol: string,
                                          quantity: int, price: Amount, limits: Limits)
    requires IsUnrepresented(r, orders, recoveries, facts, fills, exclude)
    requires item in Items(orders, recoveries, facts) && (item.scope.quantity == None || item.scope.price == None)
    ensures r == Infinite
    ensures RiskReason(symbol, quantity, price, ExposureBefore(costBasis, orders, fills, exclude, r), limits).Some?
  {
    var legs :| Folded(legs, Items(orders, recoveries, facts)) &&
        IsTotal(r, legs.Keys, Adding(legs, orders, fills, exclude));
    UnboundedItem(legs, Items(orders, recoveries, facts), item);
    if r.Finite? {
      var parts :| IsParts(parts, legs.Keys, Adding(legs, orders, fills, exclude)) && r.value == Sum(parts);
      UnboundedPart(legs, orders, fills, exclude, item.orderId, Finite(parts[item.orderId]));
    }
  }

  lemma UnboundedPart(legs: map<string, Legs>, orders: map<string, Order>, fills: seq<Fill>, exclude: Option<string>,
                      id: string, v: Amount)
    requires id in legs && !BoundedLegs(legs[id]) && Adding(legs, orders, fills, exclude)(id, v)
    ensures v == Infinite
  {
    var row := Ordinary(orders, id, exclude);
    var out :| RowAdded(legs[id], row, out) && Exceeds(out, row, Bought(fills, id), v);
    UnboundedStays(legs[id], row, out);
  }

  // ---- a leg the row already counts ----

  lemma SingleWorst(legs: Legs, id: Identity, fills: nat, v: real)
    requires legs.Keys == {id} && BoundedLegs(legs) && IsWorst(legs, fills, v)
    ensures v == LeftOf(LegOf(legs[id]), fills)
  {
    var ids :| Enumerates(ids, legs) && Within(ids, legs) && Sorted(Listed(ids, legs)) &&
        v == Remaining(Listed(ids, legs), fills);
    assert Enumerates([id], legs);
    SameIdentities(ids, [id], legs);
    assert |ids| == |multiset(ids)| == |multiset([id])| == 1;
    assert ids[0] in ids;
    assert Listed(ids, legs)[1..] == [];
    RemainingUnfolds(Listed(ids, legs), fills);
  }

  lemma RowCountsItsLeg(quantity: nat, filled: int, price: real)
    requires price >= 0.0
    ensures LeftOf(Leg(quantity, price), Positive0(filled)) <= Positive0(quantity - filled) as real * price
  {
    Scaled(quantity - Min(quantity, Positive0(filled)), Positive0(quantity - filled), price);
  }

  lemma SoleWorst(row: Order, legs: Legs, id: Identity, filled: int, worst: real)
    requires row.quantity > 0 && row.limitPrice.Some? && row.limitPrice.value > 0.0
    requires legs == map[id := Scope(Some(row.quantity), row.limitPrice)] && IsWorst(legs, Positive0(filled), worst)
    ensures worst <= RowRemaining(Some(row), filled)
  {
    SingleWorst(legs, id, Positive0(filled), worst);
    RowCountsItsLeg(row.quantity, filled, row.limitPrice.value);
    assert LegOf(legs[id]) == Leg(row.quantity, row.limitPrice.value);
  }

  lemma SoleLegExceedsNothing(row: Order, legs: Legs, id: Identity, filled: int, v: Amount)
    requires row.quantity > 0 && row.limitPrice.Some? && row.limitPrice.value > 0.0
    requires legs == map[id := Scope(Some(row.quantity), row.limitPrice)] && Exceeds(legs, Some(row), filled, v)
    ensures v == Finite(0.0)
  {
    var worst :| IsWorst(legs, Positive0(filled), worst) && v.value == Excess(worst, Some(row), filled);
    SoleWorst(row, legs, id, filled, worst);
  }

  /** A sole accepted leg with the row's own id and scope adds nothing to what the row counts. */
  lemma SoleMatchingLegAddsZero(row: Order, filled: int, v: Amount)
    requires HasId(row) && row.quantity > 0 && row.limitPrice.Some? && row.limitPrice.value > 0.0
    requires Adds(map[Broker(row.brokerId.value) := OwnScope(row)], Some(row), filled, v)
    ensures v == Finite(0.0)
  {
    var id, own := Broker(row.brokerId.value), OwnScope(row);
    var legs := map[id := own];
    var out :| RowAdded(legs, Some(row), out) && Exceeds(out, Some(row), filled, v);
    assert out == legs;
    SoleLegExceedsNothing(row, legs, id, filled, v);
  }

  // ---- the guarantee ----

  // What accepted legs and order rows may still consume in the worst case: each order with legs by its worst case, each
  // other open row by its own remaining notional.
  lemma {:induction false} PartsMakeUpTheWorst(rows: map<string, real>, parts: map<string, real>,
                                               worst: map<string, real>)
    requires parts.Keys == worst.Keys
    requires forall id <- parts :: parts[id] >= worst[id] - OrZero(rows, id)
    ensures Sum(rows) + Sum(parts) >= Sum(worst) + Sum(rows - parts.Keys)
    decreases parts.Keys
  {
    if parts.Keys == {} {
      assert parts == map[] && worst == map[] && rows - parts.Keys == rows;
    } else {
      var id :| id in parts;
      var rows', parts', worst' := rows - {id}, parts - {id}, worst - {id};
      PartsMakeUpTheWorst(rows', parts', worst');
      assert rows' - parts'.Keys == rows - parts.Keys;
      SumWithout(parts, id);
      SumWithout(worst, id);
      SumOrZero(rows, id);
    }
  }

  function OrZero(m: map<string, real>, id: string): real { if id in m then m[id] else 0.0 }

  lemma SumOrZero(m: map<string, real>, id: string)
    ensures Sum(m) == OrZero(m, id) + Sum(m - {id})
  {
    if id in m { SumWithout(m, id); } else { assert m - {id} == m; }
  }

  // By how much a row's own notional falls short of what the merge deducts for it.
  function Shortfall(o: Order, fills: seq<Fill>): real {
    Max(0.0, RowRemaining(Some(o), Bought(fills, o.id)) - RowNotional(o, fills))
  }

  // The fill ledger agrees with itself: an open BUY row's recorded shares are bought shares and not more than ordered.
  predicate LedgerAgrees(o: Order, fills: seq<Fill>) {
    FilledFor(o, fills) == Bought(fills, o.id) <= o.quantity
  }

  /** With a positive price, a row's own notional is what the merge deducts exactly when the order is not overfilled. */
  lemma RowNotionalAgreesExactly(o: Order, fills: seq<Fill>)
    requires FilledFor(o, fills) == Bought(fills, o.id) && o.limitPrice.Some? && o.limitPrice.value > 0.0
    ensures RowNotional(o, fills) == RowRemaining(Some(o), Bought(fills, o.id)) <==> Bought(fills, o.id) <= o.quantity
  {
    var excess, price := o.quantity - Bought(fills, o.id), o.limitPrice.value;
    if excess < 0 {
      assert excess as real * price < 0.0;
    }
  }

  /** Nothing falls short where the ledger agrees. */
  lemma AgreementHasNoShortfall(o: Order, fills: seq<Fill>)
    requires LedgerAgrees(o, fills)
    ensures Shortfall(o, fills) == 0.0
  {
    assert Positive0(o.quantity - Bought(fills, o.id)) == o.quantity - FilledFor(o, fills);
  }

  const OVERFILLED: Order := Order("a", Some("x"), "S", Buy, 10, Some(100.0), PartiallyFilled, 8, None, None)

  const WORKING: Order := Order("b", Some("y"), "T", Buy, 10, Some(100.0), Submitted, 0, None, None)

  /** An overfilled open BUY hides exposure from the gate. Whatever the cost basis of its shares, the reported exposure
      is only 500 above it where a working order of another symbol alone is worth 1000, and one more order is admitted
      under a limit of basis + 600 that basis, working order and new order exceed. */
  lemma OverfilledRowHidesExposure(basis: real, limits: Limits)
    requires limits == Limits(None, None, Some(basis + 600.0), {})
    ensures var orders, fills := map["a" := OVERFILLED, "b" := WORKING], [Fill("a", Buy, 15)];
            var before := ExposureBefore(basis, orders, fills, None, Finite(0.0));
            && before == Finite(basis + 500.0) && RiskReason("T", 1, Finite(50.0), before, limits) == None
            && basis + RowRemaining(Some(WORKING), Bought(fills, "b")) + 50.0 > limits.maxTotal.value
  {
    var orders, fills := map["a" := OVERFILLED, "b" := WORKING], [Fill("a", Buy, 15)];
    assert fills[..0] == [];
    assert Filled in Next(Submitted) && Filled in Next(PartiallyFilled);
    assert Rows(orders, fills, None) == map["a" := -500.0, "b" := 1000.0];
    SumOfTwo("a", -500.0, "b", 1000.0);
  }

  lemma SumOfTwo(a: string, x: real, b: string, y: real)
    requires a != b
    ensures Sum(map[a := x, b := y]) == x + y
  {
    var m := map[a := x, b := y];
    SumWithout(m, a);
    SumWithout(m - {a}, b);
    assert m - {a} - {b} == map[];
  }

  // The worst case of an order's legs, its own row included.
  ghost predicate WorstFor(legs: Legs, row: Option<Order>, filled: int, worst: real) {
    exists out :: RowAdded(legs, row, out) && BoundedLegs(out) && IsWorst(out, Positive0(filled), worst)
  }

  ghost function WorstOf(legs: Legs, row: Option<Order>, filled: int, v: real): (worst: real)
    requires Adds(legs, row, filled, Finite(v))
    ensures WorstFor(legs, row, filled, worst) && v >= worst - RowRemaining(row, filled)
  {
    var out :| RowAdded(legs, row, out) && Exceeds(out, row, filled, Finite(v));
    var worst :| IsWorst(out, Positive0(filled), worst) && v == Excess(worst, row, filled);
    worst
  }

  // What every open BUY row may still consume, and by how much its own count of that falls short.
  ghost function RowsLeft(orders: map<string, Order>, fills: seq<Fill>, exclude: Option<string>): map<string, real> {
    map id <- orders | Ordinary(orders, id, exclude).Some? :: RowRemaining(Some(orders[id]), Bought(fills, id))
  }

  ghost function Shortfalls(orders: map<string, Order>, fills: seq<Fill>, exclude: Option<string>): map<string, real> {
    map id <- orders | Ordinary(orders, id, exclude).Some? :: Shortfall(orders[id], fills)
  }

  predicate KeyedById(orders: map<string, Order>) { forall id <- orders :: orders[id].id == id }

  lemma {:induction false} SumBelow(m: map<string, real>, a: map<string, real>, b: map<string, real>)
    requires m.Keys == a.Keys == b.Keys && forall id <- m :: m[id] <= a[id] + b[id]
    ensures Sum(m) <= Sum(a) + Sum(b)
    decreases m.Keys
  {
    if m.Keys == {} {
      assert m == map[] && a == map[] && b == map[];
    } else {
      var id :| id in m;
      SumBelow(m - {id}, a - {id}, b - {id});
      SumWithout(m, id);
      SumWithout(a, id);
      SumWithout(b, id);
    }
  }

  lemma RowsFallShort(orders: map<string, Order>, fills: seq<Fill>, exclude: Option<string>)
    requires KeyedById(orders)
    ensures Sum(RowsLeft(orders, fills, exclude))
              <= Sum(Rows(orders, fills, exclude)) + Sum(Shortfalls(orders, fills, exclude))
  {
    SumBelow(RowsLeft(orders, fills, exclude), Rows(orders, fills, exclude), Shortfalls(orders, fills, exclude));
  }

  // Every open BUY row is priced, and its recorded shares are its bought shares.
  ghost predicate Booked(orders: map<string, Order>, fills: seq<Fill>, exclude: Option<string>) {
    forall id <- orders :: Ordinary(orders, id, exclude).Some? ==>
      && FilledFor(orders[id], fills) == Bought(fills, orders[id].id)
      && orders[id].limitPrice.Some? && orders[id].limitPrice.value > 0.0
  }

  ghost predicate Overfilled(orders: map<string, Order>, fills: seq<Fill>, exclude: Option<string>, id: string) {
    id in orders && Ordinary(orders, id, exclude).Some? && Bought(fills, id) > orders[id].quantity
  }

  lemma RowFallsShortExactly(o: Order, fills: seq<Fill>)
    requires FilledFor(o, fills) == Bought(fills, o.id) && o.limitPrice.Some? && o.limitPrice.value > 0.0
    ensures RowRemaining(Some(o), Bought(fills, o.id)) == RowNotional(o, fills) + Shortfall(o, fills)
    ensures Shortfall(o, fills) >= 0.0 && (Shortfall(o, fills) > 0.0 <==> Bought(fills, o.id) > o.quantity)
  {
    var over, price := Bought(fills, o.id) - o.quantity, o.limitPrice.value;
    if over > 0 {
      assert RowNotional(o, fills) == (-over) as real * price;
      assert over as real * price > 0.0;
    } else {
      AgreementHasNoShortfall(o, fills);
    }
  }

  lemma {:induction false} SumSplits(m: map<string, real>, a: map<string, real>, b: map<string, real>)
    requires m.Keys == a.Keys == b.Keys && forall id <- m :: m[id] == a[id] + b[id]
    ensures Sum(m) == Sum(a) + Sum(b)
    decreases m.Keys
  {
    if m.Keys == {} {
      assert m == map[] && a == map[] && b == map[];
    } else {
      var id :| id in m;
      SumSplits(m - {id}, a - {id}, b - {id});
      SumWithout(m, id);
      SumWithout(a, id);
      SumWithout(b, id);
    }
  }

  lemma {:induction false} SumOfNonNegative(m: map<string, real>)
    requires forall id <- m :: m[id] >= 0.0
    ensures Sum(m) >= 0.0 && (Sum(m) > 0.0 <==> exists id <- m :: m[id] > 0.0)
    decreases m.Keys
  {
    if m.Keys == {} {
      assert m == map[];
    } else {
      var id :| id in m;
      SumWithout(m, id);
      SumOfNonNegative(m - {id});
      assert forall x <- m :: x == id || x in m - {id};
    }
  }

  /** For the whole book: what the rows count falls short of what they may still consume by exactly the shortfalls, so
      the gate sees all of it if and only if no open BUY row is overfilled. */
  lemma BookIsSeenWholeExactly(orders: map<string, Order>, fills: seq<Fill>, exclude: Option<string>)
    requires KeyedById(orders) && Booked(orders, fills, exclude)
    ensures Sum(RowsLeft(orders, fills, exclude))
         == Sum(Rows(orders, fills, exclude)) + Sum(Shortfalls(orders, fills, exclude))
    ensures Sum(Rows(orders, fills, exclude)) >= Sum(RowsLeft(orders, fills, exclude))
       <==> !exists id :: Overfilled(orders, fills, exclude, id)
  {
    var left, rows := RowsLeft(orders, fills, exclude), Rows(orders, fills, exclude);
    var short := Shortfalls(orders, fills, exclude);
    forall id <- left ensures left[id] == rows[id] + short[id] && short[id] >= 0.0
                           && (short[id] > 0.0 <==> Overfilled(orders, fills, exclude, id)) {
      RowFallsShortExactly(orders[id], fills);
    }
    SumSplits(left, rows, short);
    SumOfNonNegative(short);
    assert forall id :: Overfilled(orders, fills, exclude, id) ==> id in short;
  }

  lemma RowIsDeducted(orders: map<string, Order>, fills: seq<Fill>, exclude: Option<string>, id: string)
    ensures RowRemaining(Ordinary(orders, id, exclude), Bought(fills, id))
              == OrZero(RowsLeft(orders, fills, exclude), id)
  {
  }

  // The worst case of each order with legs.
  ghost function WorstCases(legs: map<string, Legs>, orders: map<string, Order>, fills: seq<Fill>,
                            exclude: Option<string>): (string, real) -> bool {
    (id: string, worst: real) => id in legs &&
        WorstFor(legs[id], Ordinary(orders, id, exclude), Bought(fills, id), worst)
  }

  ghost predicate HasWorst(id: string, part: real, row: real, cases: (string, real) -> bool) {
    exists worst :: cases(id, worst) && part >= worst - row
  }

  lemma PartHasWorst(legs: map<string, Legs>, orders: map<string, Order>, fills: seq<Fill>, exclude: Option<string>,
                     id: string, v: real)
    requires Adding(legs, orders, fills, exclude)(id, Finite(v))
    ensures HasWorst(id, v, OrZero(RowsLeft(orders, fills, exclude), id), WorstCases(legs, orders, fills, exclude))
  {
    RowIsDeducted(orders, fills, exclude, id);
    var worst := WorstOf(legs[id], Ordinary(orders, id, exclude), Bought(fills, id), v);
    assert WorstCases(legs, orders, fills, exclude)(id, worst);
  }

  lemma PickWorst(rows: map<string, real>, parts: map<string, real>,
                  cases: (string, real) -> bool) returns (worst: map<string, real>)
    requires forall id <- parts :: HasWorst(id, parts[id], OrZero(rows, id), cases)
    ensures worst.Keys == parts.Keys && forall id <- parts :: cases(id, worst[id])
    ensures Sum(rows) + Sum(parts) >= Sum(worst) + Sum(rows - parts.Keys)
  {
    worst := map id <- parts :: var w :| cases(id, w) && parts[id] >= w - OrZero(rows, id); w;
    PartsMakeUpTheWorst(rows, parts, worst);
  }

  lemma PartsGiveWorst(legs: map<string, Legs>, orders: map<string, Order>, fills: seq<Fill>, exclude: Option<string>,
                       parts: map<string, real>)
    returns (worst: map<string, real>)
    requires IsParts(parts, legs.Keys, Adding(legs, orders, fills, exclude))
    ensures worst.Keys == legs.Keys && forall id <- legs :: WorstCases(legs, orders, fills, exclude)(id, worst[id])
    ensures Sum(RowsLeft(orders, fills, exclude)) + Sum(parts)
              >= Sum(worst) + Sum(RowsLeft(orders, fills, exclude) - legs.Keys)
  {
    forall id <- parts ensures HasWorst(id, parts[id], OrZero(RowsLeft(orders, fills, exclude), id),
                                        WorstCases(legs, orders, fills, exclude)) {
      PartHasWorst(legs, orders, fills, exclude, id, parts[id]);
    }
    worst := PickWorst(RowsLeft(orders, fills, exclude), parts, WorstCases(legs, orders, fills, exclude));
  }

  // What may still be consumed besides the new order: the worst case of every order with legs, and the other open rows.
  ghost function AtRisk(orders: map<string, Order>, fills: seq<Fill>, exclude: Option<string>, legs: map<string, Legs>,
                        worst: map<string, real>): real {
    Sum(worst) + Sum(RowsLeft(orders, fills, exclude) - legs.Keys)
  }

  /** For every book: an admitted order keeps cost basis, everything at risk and its own notional within the total limit
      plus what overfilled or disagreeing rows fall short. */
  lemma AdmittedStaysWithinShortfall(r: Amount, orders: map<string, Order>, recoveries: seq<Recovery>,
                                     facts: seq<Fact>, fills: seq<Fill>,
                                     exclude: Option<string>, costBasis: real, symbol: string, quantity: int,
                                         price: Amount, limits: Limits)
    returns (legs: map<string, Legs>, worst: map<string, real>)
    requires IsUnrepresented(r, orders, recoveries, facts, fills, exclude) && KeyedById(orders)
    requires limits.maxTotal.Some? &&
             RiskReason(symbol, quantity, price, ExposureBefore(costBasis, orders, fills, exclude, r), limits) == None
    ensures price.Finite? && Folded(legs, Items(orders, recoveries, facts)) && worst.Keys == legs.Keys
    ensures forall id <- legs :: WorstCases(legs, orders, fills, exclude)(id, worst[id])
    ensures costBasis + AtRisk(orders, fills, exclude, legs, worst) + quantity as real * price.value
            <= limits.maxTotal.value + Sum(Shortfalls(orders, fills, exclude))
  {
    legs :| Folded(legs, Items(orders, recoveries, facts)) &&
        IsTotal(r, legs.Keys, Adding(legs, orders, fills, exclude));
    var parts :| IsParts(parts, legs.Keys, Adding(legs, orders, fills, exclude)) && r.value == Sum(parts);
    worst := PartsGiveWorst(legs, orders, fills, exclude, parts);
    RowsFallShort(orders, fills, exclude);
    Admitted(symbol, quantity, price, ExposureBefore(costBasis, orders, fills, exclude, r), limits);
  }

  lemma {:induction false} SumOfZeros(m: map<string, real>)
    requires forall id <- m :: m[id] == 0.0
    ensures Sum(m) == 0.0
    decreases m.Keys
  {
    if m.Keys == {} {
      assert m == map[];
    } else {
      var id :| id in m;
      SumWithout(m, id);
      SumOfZeros(m - {id});
    }
  }

  /** So where the ledger agrees, an admitted order keeps the account under the total limit in the worst case. */
  lemma AdmittedStaysUnderTheLimit(r: Amount, orders: map<string, Order>, recoveries: seq<Recovery>, facts: seq<Fact>,
                                   fills: seq<Fill>,
                                   exclude: Option<string>, costBasis: real, symbol: string, quantity: int,
                                       price: Amount, limits: Limits)
    returns (legs: map<string, Legs>, worst: map<string, real>)
    requires IsUnrepresented(r, orders, recoveries, facts, fills, exclude) && KeyedById(orders)
    requires forall id <- orders :: Ordinary(orders, id, exclude).Some? ==> LedgerAgrees(orders[id], fills)
    requires limits.maxTotal.Some? &&
             RiskReason(symbol, quantity, price, ExposureBefore(costBasis, orders, fills, exclude, r), limits) == None
    ensures price.Finite? && Folded(legs, Items(orders, recoveries, facts)) && worst.Keys == legs.Keys
    ensures forall id <- legs :: WorstCases(legs, orders, fills, exclude)(id, worst[id])
    ensures costBasis + AtRisk(orders, fills, exclude, legs, worst) + quantity as real * price.value
              <= limits.maxTotal.value
  {
    legs, worst := AdmittedStaysWithinShortfall(r, orders, recoveries, facts, fills, exclude, costBasis, symbol,
                                                quantity, price, limits);
    forall id <- Shortfalls(orders, fills, exclude) ensures Shortfalls(orders, fills, exclude)[id] == 0.0 {
      AgreementHasNoShortfall(orders[id], fills);
    }
    SumOfZeros(Shortfalls(orders, fills, exclude));
  }

  lemma Admitted(symbol: string, quantity: int, price: Amount, exposure: Amount, limits: Limits)
    requires limits.maxTotal.Some? && RiskReason(symbol, quantity, price, exposure, limits) == None
    ensures price.Finite? && exposure.Finite? &&
            exposure.value + quantity as real * price.value <= limits.maxTotal.value
  {
  }

  // ---- identity ----

  // Durable rows hold venue ids without surrounding whitespace; only a fact's payload can carry raw text.

  /** A fact and a recovery that name one venue order share a leg if and only if the fact's text has no stray space. */
  lemma FactSharesALegExactly(f: Fact, r: Recovery, orders: map<string, Order>, pairs: set<(string, string)>)
    requires FactItem(f, orders, pairs).Some? && RecoveryItem(r, orders).Some?
    requires f.named.Some? && !Blank(r.brokerId) && Normal(r.brokerId) && Strip(f.named.value) == r.brokerId
    ensures FactItem(f, orders, pairs).value.identity == RecoveryItem(r, orders).value.identity <==>
            Normal(f.named.value)
  {
    NormalIsFixed(f.named.value);
    NormalIsFixed(r.brokerId);
  }

  /** Likewise a fact and the open row: the row joins the fact's leg if and only if the text has no stray space, and
      otherwise the one venue order has two legs. */
  lemma FactJoinsTheRowExactly(f: Fact, row: Order, orders: map<string, Order>, pairs: set<(string, string)>,
                               legs: Legs, out: Legs)
    requires FactItem(f, orders, pairs).Some? && f.named.Some? && FactItem(f, orders, pairs).value.identity in legs
    requires HasId(row) && Normal(row.brokerId.value) && Strip(f.named.value) == row.brokerId.value
    requires RowAdded(legs, Some(row), out)
    ensures Broker(f.named.value) in out && Broker(row.brokerId.value) in out
    ensures Broker(f.named.value) == Broker(row.brokerId.value) <==> Normal(f.named.value)
  {
    NormalIsFixed(f.named.value);
    NormalIsFixed(row.brokerId.value);
  }

  /** Beside an owner of its venue order only a malformed fact can still be a leg: a canonical one is released. */
  lemma OnlyMalformedFactsStay(f: Fact, orders: map<string, Order>, recoveries: seq<Recovery>)
    requires FactItem(f, orders, Pairs(recoveries)).Some? && f.named.Some?
    requires OwnedPair(f.orderId.value, Strip(f.named.value), orders, Pairs(recoveries))
    ensures CanonicalId(f, Lookup(orders, f.orderId.value)) == None
  {
  }

  // A malformed fact: the engine's text, but not under the engine's key.
  const STRAY: Fact := Fact("e", true, Some("o"), Some(" b"), OtherKey, true, Some("S"), Some(Buy), Some(10),
                            Some(1.0), None, None)

  const ROW: Order := Order("o", Some("b"), "S", Buy, 10, Some(1.0), Submitted, 0, None, None)

  const TEN: Scope := Scope(Some(10), Some(1.0))

  lemma StrayIsOneItem()
    ensures FactItem(STRAY, map["o" := ROW], {}) == Some(Item("o", Broker(" b"), TEN))
    ensures Items(map["o" := ROW], [], [STRAY]) == {Item("o", Broker(" b"), TEN)}
    ensures Strip(" b") == "b" && !Blank("b")
  {
    assert TrimLeft(" b") == TrimLeft(" b"[1..]) && " b"[1..] == "b";
    assert TrimLeft("b") == "b" && TrimRight("b") == "b";
    var orders := map["o" := ROW];
    assert SetOf([STRAY]) == {STRAY};
    assert Pairs([]) == {};
    RecoveryItemsNone(orders);
    FactItemsNext(orders, {}, {}, STRAY);
    assert {} + {STRAY} == {STRAY} && FactItems(orders, {}, {}) == {};
  }

  lemma RecoveryItemsNone(orders: map<string, Order>)
    ensures RecoveryItems(orders, SetOf([])) == {}
  {
  }

  lemma TwoLegsOfTen(legs: Legs)
    requires legs == map[Broker(" b") := TEN, Broker("b") := TEN]
    ensures BoundedLegs(legs) && IsWorst(legs, 0, 20.0)
  {
    var ids := [Broker(" b"), Broker("b")];
    assert |" b"| != |"b"|;
    assert Enumerates(ids, legs) && Within(ids, legs);
    var listed := Listed(ids, legs);
    assert listed == [Leg(10, 1.0), Leg(10, 1.0)];
    assert listed[1..] == [Leg(10, 1.0)] && listed[1..][1..] == [];
    RemainingUnfolds(listed, 0);
    RemainingUnfolds(listed[1..], 0);
  }

  lemma StrayLegs() returns (legs: map<string, Legs>)
    ensures legs == map["o" := map[Broker(" b") := TEN]]
    ensures Folded(legs, Items(map["o" := ROW], [], [STRAY]))
  {
    var leg := Item("o", Broker(" b"), TEN);
    StrayIsOneItem();
    EmptyFolds();
    RetainFolds(map[], {}, leg);
    legs := Retain(map[], leg);
    assert {} + {leg} == {leg};
  }

  lemma StrayAddsTen()
    ensures Adds(map[Broker(" b") := TEN], Some(ROW), 0, Finite(10.0))
  {
    StrayIsOneItem();
    var out := map[Broker(" b") := TEN, Broker("b") := TEN];
    assert |" b"| != |"b"|;
    assert RowAdded(map[Broker(" b") := TEN], Some(ROW), out);
    TwoLegsOfTen(out);
    assert Excess(20.0, Some(ROW), 0) == 10.0;
    assert Exceeds(out, Some(ROW), 0, Finite(10.0));
  }

  lemma OnePart(id: string, v: real, adds: (string, Amount) -> bool)
    requires adds(id, Finite(v))
    ensures IsTotal(Finite(v), {id}, adds)
  {
    var parts := map[id := v];
    assert IsParts(parts, {id}, adds);
    SumWithout(parts, id);
    assert parts - {id} == map[];
  }

  lemma RowIsOrdinary(id: string, row: Order)
    requires row.side == Buy && row.status == Submitted
    ensures Ordinary(map[id := row], id, None) == Some(row) && Bought([], id) == 0
  {
    assert Filled in Next(Submitted);
  }

  // One order whose only legs add v to its row.
  lemma SoleOrderTotal(id: string, row: Order, legs: Legs, v: real)
    requires row.side == Buy && row.status == Submitted && Adds(legs, Some(row), 0, Finite(v))
    ensures IsTotal(Finite(v), map[id := legs].Keys, Adding(map[id := legs], map[id := row], [], None))
  {
    RowIsOrdinary(id, row);
    assert Adding(map[id := legs], map[id := row], [], None)(id, Finite(v));
    OnePart(id, v, Adding(map[id := legs], map[id := row], [], None));
    assert map[id := legs].Keys == {id};
  }

  /** One malformed fact with a stray space beside the row that owns its venue order: the one order of ten shares is
      counted twice. */
  lemma StraySpaceCountsTwice(v: Amount)
    requires IsUnrepresented(v, map["o" := ROW], [], [STRAY], [], None)
    ensures v == Finite(10.0)
  {
    StrayTotal();
    OrderAndRepetitionAreIrrelevant(v, Finite(10.0), map["o" := ROW], [], [], [STRAY], [STRAY], [], None);
  }

  lemma StrayTotal()
    ensures IsUnrepresented(Finite(10.0), map["o" := ROW], [], [STRAY], [], None)
  {
    var legs := StrayLegs();
    StrayAddsTen();
    SoleOrderTotal("o", ROW, map[Broker(" b") := TEN], 10.0);
  }

  lemma EmptyFolds()
    ensures Folded(map[], {})
  {
    forall orderId,
        identity ensures LegFits(LegAt(map[], orderId, identity), Exposure.Recorded({}, orderId, identity)) {
      assert Exposure.Recorded({}, orderId, identity) == {};
    }
  }
}
