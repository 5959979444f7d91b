/** The remaining notional of accepted BUY legs beyond the order rows, in total, and the risk gate that reads it. */
module ExposureTotal {
  import opened Wrappers
  import opened Text
  import opened Orders
  import opened Uncertainty
  import opened CheapestFirst
  import opened Exposure

  // ---- one order's legs as a list ----

  predicate BoundedLegs(legs: Legs) { forall id <- legs :: legs[id].quantity.Some? && legs[id].price.Some? }

  function LegOf(s: Scope): Leg
    requires s.quantity.Some? && s.price.Some?
  {
    Leg(s.quantity.value, s.price.value)
  }

  ghost predicate Enumerates(ids: seq<Identity>, legs: Legs) {
    (forall i, j :: 0 <= i < j < |ids| ==> ids[i] != ids[j]) && forall id :: id in ids <==> id in legs
  }

  ghost predicate Within(ids: seq<Identity>, legs: Legs) { forall i :: 0 <= i < |ids| ==> ids[i] in legs }

  ghost function Listed(ids: seq<Identity>, legs: Legs): (r: seq<Leg>)
    requires Within(ids, legs) && BoundedLegs(legs)
    ensures |r| == |ids| && forall i :: 0 <= i < |ids| ==> r[i] == LegOf(legs[ids[i]])
  {
    seq(|ids|, i requires 0 <= i < |ids| => LegOf(legs[ids[i]]))
  }

  // The notional that remains when the fills are charged cheapest first.
  ghost predicate IsWorst(legs: Legs, fills: nat, v: real)
    requires BoundedLegs(legs)
  {
    exists ids ::
        Enumerates(ids, legs) && Within(ids, legs) && Sorted(Listed(ids, legs)) &&
            v == Remaining(Listed(ids, legs), fills)
  }

  lemma {:induction false} SameElements(a: seq<Identity>, b: seq<Identity>, legs: Legs)
    requires multiset(a) == multiset(b) && BoundedLegs(legs) && Within(a, legs) && Within(b, legs)
    ensures multiset(Listed(a, legs)) == multiset(Listed(b, legs))
    decreases |a|
  {
    if a == [] {
      assert |b| == |multiset(b)| == 0;
      assert Listed(a, legs) == Listed(b, legs);
    } else {
      var before, after := TakeOut(a, b);
      assert Within(before + after, legs) by {
        forall i | 0 <= i < |before + after| ensures (before + after)[i] in legs {
          assert (before + after)[i] == b[if i < |before| then i else i + 1];
        }
      }
      SameElements(a[1..], before + after, legs);
      ListedParts(before, a[0], after, b, legs);
      assert Listed(a, legs) == [LegOf(legs[a[0]])] + Listed(a[1..], legs);
    }
  }

  lemma ListedParts(before: seq<Identity>, id: Identity, after: seq<Identity>, all: seq<Identity>, legs: Legs)
    requires id in legs && all == before + [id] + after && BoundedLegs(legs) && Within(all, legs) &&
             Within(before + after, legs)
    ensures multiset(Listed(all, legs)) == multiset{LegOf(legs[id])} + multiset(Listed(before + after, legs))
  {
    var x, y := Listed(all, legs), Listed(before + after, legs);
    var n := |before|;
    assert x[n] == LegOf(legs[id]);
    assert x[..n] == y[..n];
    assert x[n + 1..] == y[n..];
    Inserted(x, y, n);
  }

  lemma Inserted<T>(x: seq<T>, y: seq<T>, n: nat)
    requires n < |x| && n <= |y| && x[..n] == y[..n] && x[n + 1..] == y[n..]
    ensures multiset(x) == multiset{x[n]} + multiset(y)
  {
    assert x == x[..n] + [x[n]] + x[n + 1..];
    assert y == y[..n] + y[n..];
  }

  lemma {:induction false} SameIdentities(a: seq<Identity>, b: seq<Identity>, legs: Legs)
    requires Enumerates(a, legs) && Enumerates(b, legs)
    ensures multiset(a) == multiset(b)
  {
    forall id ensures multiset(a)[id] == multiset(b)[id] {
      Once(a, id);
      Once(b, id);
    }
  }

  lemma {:induction false} Once(ids: seq<Identity>, id: Identity)
    requires forall i, j :: 0 <= i < j < |ids| ==> ids[i] != ids[j]
    ensures multiset(ids)[id] == if id in ids then 1 else 0
  {
    if ids != [] {
      Once(ids[1..], id);
      assert ids == [ids[0]] + ids[1..];
    }
  }

  lemma ListedPermute(a: seq<Identity>, b: seq<Identity>, legs: Legs)
    requires BoundedLegs(legs) && Enumerates(a, legs) && Enumerates(b, legs) && Within(a, legs) && Within(b, legs)
    ensures multiset(Listed(a, legs)) == multiset(Listed(b, legs))
  {
    SameIdentities(a, b, legs);
    SameElements(a, b, legs);
  }

  lemma WorstIsUnique(legs: Legs, fills: nat, v: real, w: real)
    requires BoundedLegs(legs) && IsWorst(legs, fills, v) && IsWorst(legs, fills, w)
    ensures v == w
  {
    var a :| Enumerates(a, legs) && Within(a, legs) && Sorted(Listed(a, legs)) &&
        v == Remaining(Listed(a, legs), fills);
    var b :| Enumerates(b, legs) && Within(b, legs) && Sorted(Listed(b, legs)) &&
        w == Remaining(Listed(b, legs), fills);
    ListedPermute(a, b, legs);
    SortingIsIrrelevant(Listed(a, legs), Listed(b, legs), fills);
  }

  /** No way of charging the known fills to the legs leaves more than the worst case, however they are listed. */
  lemma WorstIsMaximal(legs: Legs, fills: nat, v: real, ids: seq<Identity>, c: seq<nat>)
    requires BoundedLegs(legs) && IsWorst(legs, fills, v) && Enumerates(ids, legs) && Within(ids, legs)
    requires Allocation(Listed(ids, legs), c) && Charged(c) == Min(fills, Quantity(Listed(ids, legs)))
    ensures Left(Listed(ids, legs), c) <= v
  {
    var b :| Enumerates(b, legs) && Within(b, legs) && Sorted(Listed(b, legs)) &&
        v == Remaining(Listed(b, legs), fills);
    ListedPermute(ids, b, legs);
    AnyOrderLeavesNoMore(Listed(ids, legs), Listed(b, legs), fills, c);
  }

  lemma AnyOrderLeavesNoMore(a: seq<Leg>, b: seq<Leg>, fills: nat, c: seq<nat>)
    requires multiset(a) == multiset(b) && Sorted(b) && Allocation(a, c) && Charged(c) == Min(fills, Quantity(a))
    ensures Left(a, c) <= Remaining(b, fills)
  {
    if b == [] {
      assert |a| == |multiset(a)| == 0;
    } else {
      MetAtMargin(b, fills);
      SumsPermute(a, b, Margin(b, fills));
      Bounded(a, c, Margin(b, fills));
    }
  }

  // ---- charging ----

  // What one leg is worth once it has absorbed what it can of the fills left.
  function LeftOf(leg: Leg, left: nat): real { (leg.quantity - Min(leg.quantity, left)) as real * leg.price }

  function FillsLeft(legs: seq<Leg>, fills: nat): nat { fills - Min(fills, Quantity(legs)) }

  lemma FillsLeftNext(legs: seq<Leg>, leg: Leg, fills: nat)
    ensures FillsLeft(legs + [leg], fills) == FillsLeft(legs, fills) - Min(leg.quantity, FillsLeft(legs, fills))
  {
    QuantitySplits(legs, [leg]);
    assert Quantity([leg]) == leg.quantity by { assert [leg][1..] == []; }
  }

  lemma {:induction false} RemainingNext(legs: seq<Leg>, leg: Leg, fills: nat)
    ensures Remaining(legs + [leg], fills) == Remaining(legs, fills) + LeftOf(leg, FillsLeft(legs, fills))
  {
    if legs == [] {
      assert legs + [leg] == [leg] && [leg][1..] == [];
    } else {
      var consumed := Min(legs[0].quantity, fills);
      RemainingNext(legs[1..], leg, fills - consumed);
      assert (legs + [leg])[1..] == legs[1..] + [leg];
      assert FillsLeft(legs, fills) == FillsLeft(legs[1..], fills - consumed);
      RemainingUnfolds(legs + [leg], fills);
      RemainingUnfolds(legs, fills);
    }
  }

  lemma RemainingUnfolds(legs: seq<Leg>, fills: nat)
    requires legs != []
    ensures Remaining(legs, fills)
              == LeftOf(legs[0], fills) + Remaining(legs[1..], fills - Min(legs[0].quantity, fills))
  {
  }

  lemma {:induction false} CheapestExists(ids: set<Identity>, legs: Legs) returns (id: Identity)
    requires ids != {} && ids <= legs.Keys && BoundedLegs(legs)
    ensures id in ids && forall other <- ids :: legs[id].price.value <= legs[other].price.value
    decreases ids
  {
    var first :| first in ids;
    if ids == {first} { return first; }
    id := CheapestExists(ids - {first}, legs);
    if legs[first].price.value < legs[id].price.value { id := first; }
    assert forall other <- ids :: other == first || other in ids - {first};
  }

  // The listed legs are those no longer to do, each once; and none of those left is cheaper.
  ghost predicate Enumerated(ids: seq<Identity>, legs: Legs, todo: set<Identity>) {
    (forall i, j :: 0 <= i < j < |ids| ==> ids[i] != ids[j]) && forall id :: id in ids <==> id in legs && id !in todo
  }

  ghost predicate Cheaper(ids: seq<Identity>, legs: Legs, todo: set<Identity>)
    requires Within(ids, legs) && todo <= legs.Keys && BoundedLegs(legs)
  {
    forall i, id :: 0 <= i < |ids| && id in todo ==> legs[ids[i]].price.value <= legs[id].price.value
  }

  lemma ListedNext(ids: seq<Identity>, id: Identity, legs: Legs, todo: set<Identity>)
    requires BoundedLegs(legs) && todo <= legs.Keys && Within(ids, legs) && Enumerated(ids, legs, todo) &&
             Sorted(Listed(ids, legs)) && Cheaper(ids, legs, todo)
    requires id in todo && forall other <- todo :: legs[id].price.value <= legs[other].price.value
    ensures Within(ids + [id], legs) && Listed(ids + [id], legs) == Listed(ids, legs) + [LegOf(legs[id])]
    ensures Enumerated(ids + [id], legs, todo - {id}) && Sorted(Listed(ids + [id], legs)) &&
            Cheaper(ids + [id], legs, todo - {id})
  {
  }

  // Progress of the charging loop: some legs listed in order of price, the fills left, the notional so far.
  ghost predicate Charging(ids: seq<Identity>, legs: Legs, todo: set<Identity>, fills: nat, left: nat,
                           remaining: real) {
    && todo <= legs.Keys && BoundedLegs(legs) && Within(ids, legs) && Enumerated(ids, legs, todo)
    && Sorted(Listed(ids, legs)) && Cheaper(ids, legs, todo)
    && left == FillsLeft(Listed(ids, legs), fills) && remaining == Remaining(Listed(ids, legs), fills)
  }

  lemma ChargeOne(ids: seq<Identity>, legs: Legs, todo: set<Identity>, fills: nat, left: nat, remaining: real,
                  id: Identity)
    requires Charging(ids, legs, todo, fills, left, remaining)
    requires id in todo && forall other <- todo :: legs[id].price.value <= legs[other].price.value
    ensures var leg := LegOf(legs[id]);
            Charging(ids + [id], legs, todo - {id}, fills, left - Min(leg.quantity, left),
                     remaining + LeftOf(leg, left))
  {
    ListedNext(ids, id, legs, todo);
    RemainingNext(Listed(ids, legs), LegOf(legs[id]), fills);
    FillsLeftNext(Listed(ids, legs), LegOf(legs[id]), fills);
  }

  lemma AllCharged(ids: seq<Identity>, legs: Legs, fills: nat, left: nat, remaining: real)
    requires Charging(ids, legs, {}, fills, left, remaining)
    ensures IsWorst(legs, fills, remaining)
  {
    assert Enumerates(ids, legs);
  }

  /** Charge the fills to the cheapest leg left, over and over. */
  method ChargeCheapestFirst(legs: Legs, fills: nat) returns (remaining: real)
    requires BoundedLegs(legs)
    ensures IsWorst(legs, fills, remaining)
  {
    var todo, left: nat := legs.Keys, fills;
    remaining := 0.0;
    ghost var ids: seq<Identity> := [];
    while todo != {}
      invariant Charging(ids, legs, todo, fills, left, remaining)
      decreases todo
    {
      ghost var cheapest := CheapestExists(todo, legs);
      var id :| id in todo && forall other <- todo :: legs[id].price.value <= legs[other].price.value;
      ChargeOne(ids, legs, todo, fills, left, remaining, id);
      var leg := LegOf(legs[id]);
      remaining, left := remaining + LeftOf(leg, left), left - Min(leg.quantity, left);
      ids, todo := ids + [id], todo - {id};
    }
    AllCharged(ids, legs, fills, left, remaining);
  }

  // ---- the order row as one more record ----

  datatype Amount = Infinite | Finite(value: real)

  // The row whose own remaining notional is counted elsewhere.
  function Ordinary(orders: map<string, Order>, orderId: string, exclude: Option<string>): Option<Order> {
    var o := Lookup(orders, orderId);
    if o.Some? && Some(o.value.id) != exclude && o.value.side == Buy && !Terminal(o.value.status) then o else None
  }

  function OwnScope(o: Order): Scope { ScopeOf(Some(o), Some(o.quantity), o.limitPrice) }

  predicate HasId(o: Order) { o.brokerId.Some? && !Blank(o.brokerId.value) }

  // The row joins the leg with its own broker id; without an id it joins one of the legs it must stand for.
  ghost predicate RowAdded(legs: Legs, row: Option<Order>, out: Legs) {
    if row == None then out == legs
    else if HasId(row.value) then
      var key, own := Broker(row.value.brokerId.value), OwnScope(row.value);
      out == legs[key := if key in legs then Merge(legs[key], own) else own]
    else exists key <- legs :: out == legs[key := Merge(legs[key], OwnScope(row.value))]
  }

  // The nominal value by which the leg for an id-less row is chosen; unbounded counts as larger than any.
  function Nominal(s: Scope): Amount {
    if s.quantity == None || s.price == None then Infinite else Finite(s.quantity.value as real * s.price.value)
  }

  predicate AtMost(a: Amount, b: Amount) { b == Infinite || (a.Finite? && a.value <= b.value) }

  lemma {:induction false} SmallestExists(ids: set<Identity>, legs: Legs) returns (id: Identity)
    requires ids != {} && ids <= legs.Keys
    ensures id in ids && forall other <- ids :: AtMost(Nominal(legs[id]), Nominal(legs[other]))
    decreases ids
  {
    var first :| first in ids;
    if ids == {first} { return first; }
    id := SmallestExists(ids - {first}, legs);
    if !AtMost(Nominal(legs[id]), Nominal(legs[first])) { id := first; }
    assert forall other <- ids :: other == first || other in ids - {first};
  }

  ghost predicate Smallest(key: Identity, legs: Legs) {
    key in legs && forall other <- legs :: AtMost(Nominal(legs[key]), Nominal(legs[other]))
  }

  /** The row joins the leg of its own id, or without an id the leg of the smallest nominal value. */
  method AddRow(legs: Legs, row: Option<Order>) returns (out: Legs)
    requires legs != map[]
    ensures RowAdded(legs, row, out)
    ensures row.Some? && !HasId(row.value) ==>
              exists key :: Smallest(key, legs) && out == legs[key := Merge(legs[key], OwnScope(row.value))]
  {
    if row == None { return legs; }
    var own := OwnScope(row.value);
    if HasId(row.value) {
      var key := Broker(row.value.brokerId.value);
      return legs[key := if key in legs then Merge(legs[key], own) else own];
    }
    assert legs.Keys == {} ==> legs == map[];
    ghost var smallest := SmallestExists(legs.Keys, legs);
    var key :| key in legs.Keys && forall other <- legs.Keys :: AtMost(Nominal(legs[key]), Nominal(legs[other]));
    assert Smallest(key, legs);
    out := legs[key := Merge(legs[key], own)];
  }

  // ---- what one order adds ----

  function Positive0(n: int): nat { if n >= 0 then n else 0 }

  function Price0(p: Option<real>): real { if p.Some? then p.value else 0.0 }

  function RowRemaining(row: Option<Order>, filled: int): real {
    if row == None then 0.0 else Positive0(row.value.quantity - filled) as real * Price0(row.value.limitPrice)
  }

  // What a worst case adds to what the row itself already counts.
  function Excess(worst: real, row: Option<Order>, filled: int): real { Max(0.0, worst - RowRemaining(row, filled)) }

  ghost predicate Exceeds(legs: Legs, row: Option<Order>, filled: int, v: Amount) {
    if !BoundedLegs(legs) then v == Infinite
    else v.Finite? && exists worst :: IsWorst(legs, Positive0(filled), worst) && v.value == Excess(worst, row, filled)
  }

  ghost predicate Adds(legs: Legs, row: Option<Order>, filled: int, v: Amount) {
    exists out :: RowAdded(legs, row, out) && Exceeds(out, row, filled, v)
  }

  method AdditionalOf(legs: Legs, row: Option<Order>, filled: int) returns (v: Amount)
    requires legs != map[]
    ensures Adds(legs, row, filled, v)
  {
    var out := AddRow(legs, row);
    if !(forall id <- out :: out[id].quantity.Some? && out[id].price.Some?) {
      assert Exceeds(out, row, filled, Infinite);
      return Infinite;
    }
    var accepted := ChargeCheapestFirst(out, Positive0(filled));
    v := Finite(Excess(accepted, row, filled));
    assert Exceeds(out, row, filled, v);
  }

  // Every leg is at least as large as the row it refers to, as far as the row is bounded.
  predicate Covers(s: Scope, own: Scope) {
    && (own.quantity.Some? && s.quantity.Some? ==> s.quantity.value >= own.quantity.value)
    && (own.price.Some? && s.price.Some? ==> s.price.value >= own.price.value)
  }

  /** An id-less row with a price and a quantity merges into any leg without changing it; an unbounded one makes the
      chosen leg unbounded. Either way it does not matter which leg was chosen. */
  lemma WhichLegIsIrrelevant(legs: Legs, row: Order, out: Legs)
    requires RowAdded(legs, Some(row), out) && !HasId(row) && forall id <- legs :: Covers(legs[id], OwnScope(row))
    ensures OwnScope(row).quantity.Some? && OwnScope(row).price.Some? ==> out == legs
    ensures OwnScope(row).quantity == None || OwnScope(row).price == None ==> !BoundedLegs(out)
  {
    var key :| key in legs && out == legs[key := Merge(legs[key], OwnScope(row))];
    assert key in out;
  }

  lemma ExceedsIsUnique(legs: Legs, row: Option<Order>, filled: int, v: Amount, w: Amount)
    requires Exceeds(legs, row, filled, v) && Exceeds(legs, row, filled, w)
    ensures v == w
  {
    if BoundedLegs(legs) {
      var x :| IsWorst(legs, Positive0(filled), x) && v.value == Excess(x, row, filled);
      var y :| IsWorst(legs, Positive0(filled), y) && w.value == Excess(y, row, filled);
      WorstIsUnique(legs, Positive0(filled), x, y);
    }
  }

  lemma AddsIsUnique(legs: Legs, row: Option<Order>, filled: int, v: Amount, w: Amount)
    requires Adds(legs, row, filled, v) && Adds(legs, row, filled, w)
    requires row.Some? ==> forall id <- legs :: Covers(legs[id], OwnScope(row.value))
    ensures v == w
  {
    var a :| RowAdded(legs, row, a) && Exceeds(a, row, filled, v);
    var b :| RowAdded(legs, row, b) && Exceeds(b, row, filled, w);
    if row.Some? && !HasId(row.value) {
      WhichLegIsIrrelevant(legs, row.value, a);
      WhichLegIsIrrelevant(legs, row.value, b);
    }
    if BoundedLegs(a) || BoundedLegs(b) {
      assert a == b;
      ExceedsIsUnique(a, row, filled, v, w);
    }
  }

  // A scope that was raised to the row's own scope, and bounded wherever the row is.
  predicate RaisedTo(s: Scope, own: Scope) {
    Covers(s, own) && (own.quantity.Some? ==> s.quantity.Some?) && (own.price.Some? ==> s.price.Some?)
  }

  lemma JoinCovers(v: Scope, scopes: set<Scope>, own: Scope)
    requires IsJoin(v, scopes) && forall s <- scopes :: RaisedTo(s, own)
    ensures Covers(v, own)
  {
  }

  lemma RecoveryRaised(r: Recovery, orders: map<string, Order>)
    requires RecoveryItem(r, orders).Some? && r.orderId in orders
    ensures RaisedTo(RecoveryItem(r, orders).value.scope, OwnScope(orders[r.orderId]))
  {
  }

  lemma FactRaised(f: Fact, orders: map<string, Order>, pairs: set<(string, string)>)
    requires FactItem(f, orders, pairs).Some? && f.orderId.value in orders
    ensures RaisedTo(FactItem(f, orders, pairs).value.scope, OwnScope(orders[f.orderId.value]))
  {
  }

  lemma ItemRaised(orders: map<string, Order>, recoveries: seq<Recovery>, facts: seq<Fact>, item: Item)
    requires item in Items(orders, recoveries, facts) && item.orderId in orders
    ensures RaisedTo(item.scope, OwnScope(orders[item.orderId]))
  {
    if item in RecoveryItems(orders, SetOf(recoveries)) {
      var r :| r in SetOf(recoveries) && RecoveryItem(r, orders) == Some(item);
      RecoveryRaised(r, orders);
    } else {
      var f :| f in SetOf(facts) && FactItem(f, orders, Pairs(recoveries)) == Some(item);
      FactRaised(f, orders, Pairs(recoveries));
    }
  }

  // Legs of an order are built from records that were each raised to the order's own scope.
  lemma LegsCoverTheirRow(orders: map<string, Order>, recoveries: seq<Recovery>, facts: seq<Fact>,
                          legs: map<string, Legs>, orderId: string, id: Identity)
    requires Folded(legs, Items(orders, recoveries, facts)) && orderId in legs && orderId in orders &&
             id in legs[orderId]
    ensures Covers(legs[orderId][id], OwnScope(orders[orderId]))
  {
    var items := Items(orders, recoveries, facts);
    var scopes := Recorded(items, orderId, id);
    assert LegFits(LegAt(legs, orderId, id), scopes);
    forall s <- scopes ensures RaisedTo(s, OwnScope(orders[orderId])) {
      var item :| item in items && item.orderId == orderId && item.identity == id && item.scope == s;
      ItemRaised(orders, recoveries, facts, item);
    }
    JoinCovers(legs[orderId][id], scopes, OwnScope(orders[orderId]));
  }

  // The scope is at least what the record declares, or is not bounded at all.
  predicate Dominates(s: Scope, quantity: Option<int>, price: Option<real>) {
    && (s.quantity.Some? && quantity.Some? ==> s.quantity.value >= quantity.value)
    && (s.price.Some? && price.Some? ==> s.price.value >= price.value)
  }

  lemma ItemIsCovered(legs: map<string, Legs>, items: set<Item>, item: Item, quantity: Option<int>, price: Option<real>)
    requires Folded(legs, items) && item in items && Dominates(item.scope, quantity, price)
    requires (item.scope.quantity.Some? || quantity == None || quantity.value <= 0) &&
             (item.scope.price.Some? || price == None || price.value <= 0.0)
    ensures item.orderId in legs && item.identity in legs[item.orderId] &&
            Dominates(legs[item.orderId][item.identity], quantity, price)
  {
    var scopes := Recorded(items, item.orderId, item.identity);
    assert item.scope in scopes;
    assert LegFits(LegAt(legs, item.orderId, item.identity), scopes);
  }

  /** Every open BUY recovery is covered by a leg of its order, under its own broker id when it names one, that is at
      least as large and as dear as the recovery says. */
  lemma OpenRecoveryIsCovered(orders: map<string, Order>, recoveries: seq<Recovery>, facts: seq<Fact>,
                              legs: map<string, Legs>, r: Recovery)
    returns (id: Identity)
    requires Folded(legs, Items(orders, recoveries, facts)) && r in recoveries && r.open
    requires r.side == Buy || (r.orderId in orders && orders[r.orderId].side == Buy)
    ensures r.orderId in legs && id in legs[r.orderId] && Dominates(legs[r.orderId][id], Some(r.quantity), r.limitPrice)
    ensures !Blank(r.brokerId) ==> id == Broker(r.brokerId)
  {
    var item := RecoveryItem(r, orders).value;
    assert r in SetOf(recoveries) && item in RecoveryItems(orders, SetOf(recoveries));
    ItemIsCovered(legs, Items(orders, recoveries, facts), item, Some(r.quantity), r.limitPrice);
    id := item.identity;
  }

  /** So is every BUY fact that still counts as uncertainty. */
  lemma UncertainFactIsCovered(orders: map<string, Order>, recoveries: seq<Recovery>, facts: seq<Fact>,
                               legs: map<string, Legs>, f: Fact, symbol: string)
    returns (id: Identity)
    requires Folded(legs, Items(orders, recoveries, facts)) && f in facts &&
             Uncertain(f, orders, Pairs(recoveries), symbol, Buy, None)
    ensures f.orderId.value in legs && id in legs[f.orderId.value] &&
            Dominates(legs[f.orderId.value][id], f.quantity, f.price)
    ensures f.named.Some? && !Blank(f.named.value) ==> id == Broker(f.named.value)
  {
    var item := FactItem(f, orders, Pairs(recoveries)).value;
    assert f in SetOf(facts) && item in FactItems(orders, SetOf(facts), Pairs(recoveries));
    ItemIsCovered(legs, Items(orders, recoveries, facts), item, f.quantity, f.price);
    id := item.identity;
  }

  // What a record may contribute to a leg: its own figure or the row's, whichever is larger, or nothing usable.
  predicate QuantityFrom(q: Option<nat>, declared: Option<int>, row: Option<Order>) {
    match q
    case Some(n) => n > 0 && (declared == Some(n) || (row.Some? && row.value.quantity == n))
    case None => (declared.Some? ==> declared.value <= 0) && (row.Some? ==> row.value.quantity <= 0)
  }

  predicate PriceFrom(p: Option<real>, declared: Option<real>, row: Option<Order>) {
    match p
    case Some(x) => x > 0.0 && (declared == Some(x) || (row.Some? && row.value.limitPrice == Some(x)))
    case None =>
      && (declared.Some? ==> declared.value <= 0.0)
      && (row.Some? && row.value.limitPrice.Some? ==> row.value.limitPrice.value <= 0.0)
  }

  lemma ScopeIsFrom(row: Option<Order>, quantity: Option<int>, price: Option<real>)
    ensures QuantityFrom(ScopeOf(row, quantity, price).quantity, quantity, row)
    ensures PriceFrom(ScopeOf(row, quantity, price).price, price, row)
  {
  }

  // A record that may stand behind a leg: an open BUY recovery, or a BUY fact that is not released.
  ghost predicate RecoveryBehind(r: Recovery, orders: map<string, Order>, orderId: string, id: Identity) {
    && r.orderId == orderId && r.open && (r.side == Buy || (orderId in orders && orders[orderId].side == Buy))
    && id == if Blank(r.brokerId) then RecoveryRow(r.id) else Broker(r.brokerId)
  }

  ghost predicate FactBehind(f: Fact, orders: map<string, Order>, pairs: set<(string, string)>, orderId: string,
                             id: Identity) {
    && Names(f) && f.orderId == Some(orderId) && !Released(f, orders, pairs)
    && (f.side == Some(Buy) || (orderId in orders && orders[orderId].side == Buy))
    && id == if f.named.Some? && !Blank(f.named.value) then Broker(f.named.value) else FactRow(f.id)
  }

  /** Nothing else becomes a leg: behind each there is an open BUY recovery or an unreleased BUY fact, its quantity is
      one that such a record or the row declares, and it is unbounded only if some record and the row give nothing
      usable. */
  lemma LegHasARecord(orders: map<string, Order>, recoveries: seq<Recovery>, facts: seq<Fact>, legs: map<string, Legs>,
                      orderId: string, id: Identity)
    requires Folded(legs, Items(orders, recoveries, facts)) && orderId in legs && id in legs[orderId]
    ensures var leg, row := legs[orderId][id], Lookup(orders, orderId);
            || (exists r <- recoveries ::
                RecoveryBehind(r, orders, orderId, id) && QuantityFrom(leg.quantity, Some(r.quantity), row))
            || (exists f <- facts ::
                FactBehind(f, orders, Pairs(recoveries), orderId, id) && QuantityFrom(leg.quantity, f.quantity, row))
    ensures var leg, row := legs[orderId][id], Lookup(orders, orderId);
            || (exists r <- recoveries ::
                RecoveryBehind(r, orders, orderId, id) && PriceFrom(leg.price, r.limitPrice, row))
            || (exists f <- facts ::
                FactBehind(f, orders, Pairs(recoveries), orderId, id) && PriceFrom(leg.price, f.price, row))
  {
    var items := Items(orders, recoveries, facts);
    var leg, scopes := legs[orderId][id], Recorded(items, orderId, id);
    assert LegFits(LegAt(legs, orderId, id), scopes);
    var s :| s in scopes && s.quantity == leg.quantity;
    var item := ItemOf(items, orderId, id, s);
    RecordBehind(orders, recoveries, facts, item);
    var t :| t in scopes && t.price == leg.price;
    var other := ItemOf(items, orderId, id, t);
    RecordBehind(orders, recoveries, facts, other);
  }

  lemma ItemOf(items: set<Item>, orderId: string, id: Identity, s: Scope) returns (item: Item)
    requires s in Recorded(items, orderId, id)
    ensures item in items && item == Item(orderId, id, s)
  {
    item :| item in items && item.orderId == orderId && item.identity == id && item.scope == s;
  }

  lemma RecordBehind(orders: map<string, Order>, recoveries: seq<Recovery>, facts: seq<Fact>, item: Item)
    requires item in Items(orders, recoveries, facts)
    ensures var row := Lookup(orders, item.orderId);
            || (exists r <- recoveries :: RecoveryBehind(r, orders, item.orderId, item.identity)
                                       && QuantityFrom(item.scope.quantity, Some(r.quantity), row)
                                       && PriceFrom(item.scope.price, r.limitPrice, row))
            || (exists f <- facts :: FactBehind(f, orders, Pairs(recoveries), item.orderId, item.identity)
                                  && QuantityFrom(item.scope.quantity, f.quantity, row)
                                  && PriceFrom(item.scope.price, f.price, row))
  {
    if item in RecoveryItems(orders, SetOf(recoveries)) {
      var r :| r in SetOf(recoveries) && RecoveryItem(r, orders) == Some(item);
      ScopeIsFrom(Lookup(orders, r.orderId), Some(r.quantity), r.limitPrice);
      assert RecoveryBehind(r, orders, item.orderId, item.identity);
    } else {
      var f :| f in SetOf(facts) && FactItem(f, orders, Pairs(recoveries)) == Some(item);
      ScopeIsFrom(Lookup(orders, f.orderId.value), f.quantity, f.price);
      assert FactBehind(f, orders, Pairs(recoveries), item.orderId, item.identity);
    }
  }

  /** A row counts by itself exactly when it is an open BUY other than the excluded order. */
  lemma OrdinaryExactly(orders: map<string, Order>, orderId: string, exclude: Option<string>)
    ensures Ordinary(orders, orderId, exclude).Some?
       <==> orderId in orders && exclude != Some(orders[orderId].id) && orders[orderId].side == Buy
            && orders[orderId].status !in {Filled, Canceled, Rejected}
    ensures Ordinary(orders, orderId, exclude).Some? ==> Ordinary(orders, orderId, exclude).value == orders[orderId]
  {
    if orderId in orders { ReachedFrom(orders[orderId].status); }
  }

  // ---- the total ----

  datatype Fill = Fill(orderId: string, side: Side, quantity: int)

  // Bought shares on record for one order.
  function Bought(fills: seq<Fill>, orderId: string): int {
    if fills == [] then 0
    else
      var f := fills[|fills| - 1];
      Bought(fills[..|fills| - 1], orderId) + if f.side == Buy && f.orderId == orderId then f.quantity else 0
  }

  /** Bought shares add up over a history, and one fill adds its quantity to its own order exactly when it is a buy. */
  lemma {:induction false} BoughtAdds(a: seq<Fill>, b: seq<Fill>, f: Fill, orderId: string)
    ensures Bought(a + b, orderId) == Bought(a, orderId) + Bought(b, orderId)
    ensures Bought([f], orderId) == if f.side == Buy && f.orderId == orderId then f.quantity else 0
    decreases |b|
  {
    assert [f][..0] == [];
    if b == [] {
      assert a + b == a;
    } else {
      assert (a + b)[..|a + b| - 1] == a + b[..|b| - 1];
      BoughtAdds(a, b[..|b| - 1], f, orderId);
    }
  }

  /** What a row may still consume: its unfilled shares at its limit price, nothing once filled or without a price. */
  lemma RowRemainingExactly(row: Option<Order>, filled: int)
    ensures RowRemaining(row, filled)
         == if row == None || filled >= row.value.quantity || row.value.limitPrice == None then 0.0
            else (row.value.quantity - filled) as real * row.value.limitPrice.value
    ensures Positive0(filled) == if filled < 0 then 0 else filled
  {
  }

  method BoughtByOrder(fills: seq<Fill>) returns (bought: map<string, int>)
    ensures forall id :: (if id in bought then bought[id] else 0) == Bought(fills, id)
  {
    bought := map[];
    for i := 0 to |fills|
      invariant forall id :: (if id in bought then bought[id] else 0) == Bought(fills[..i], id)
    {
      var f := fills[i];
      assert fills[..i + 1][..i] == fills[..i];
      if f.side == Buy {
        var before := if f.orderId in bought then bought[f.orderId] else 0;
        bought := bought[f.orderId := before + f.quantity];
      }
    }
    assert fills[..|fills|] == fills;
  }

  ghost function Sum(m: map<string, real>): real
    decreases |m|
  {
    if m == map[] then 0.0
    else
      var k :| k in m;
      m[k] + Sum(m - {k})
  }

  lemma {:induction false} SumWithout(m: map<string, real>, k: string)
    requires k in m
    ensures Sum(m) == m[k] + Sum(m - {k})
    decreases |m|
  {
    var first :| first in m && Sum(m) == m[first] + Sum(m - {first});
    if first != k {
      SumWithout(m - {first}, k);
      SumWithout(m - {k}, first);
      assert m - {first} - {k} == m - {k} - {first};
    }
  }

  ghost predicate IsParts(parts: map<string, real>, keys: set<string>, adds: (string, Amount) -> bool) {
    parts.Keys == keys && forall id <- keys :: adds(id, Finite(parts[id]))
  }

  // A total of what each key adds: infinite if any part is, otherwise the sum of all parts.
  ghost predicate IsTotal(r: Amount, keys: set<string>, adds: (string, Amount) -> bool) {
    match r
    case Infinite => exists id <- keys :: adds(id, Infinite)
    case Finite(v) => exists parts :: IsParts(parts, keys, adds) && v == Sum(parts)
  }

  lemma PartsNext(parts: map<string, real>, keys: set<string>, adds: (string, Amount) -> bool, id: string, v: real)
    requires IsParts(parts, keys, adds) && id !in keys && adds(id, Finite(v))
    ensures IsParts(parts[id := v], keys + {id}, adds) && Sum(parts[id := v]) == Sum(parts) + v
  {
    SumWithout(parts[id := v], id);
    assert parts[id := v] - {id} == parts;
  }

  ghost predicate Functional(keys: set<string>, adds: (string, Amount) -> bool) {
    forall id, x, y :: id in keys && adds(id, x) && adds(id, y) ==> x == y
  }

  lemma PartsAreUnique(a: map<string, real>, b: map<string, real>, keys: set<string>, adds: (string, Amount) -> bool)
    requires IsParts(a, keys, adds) && IsParts(b, keys, adds) && Functional(keys, adds)
    ensures a == b
  {
    forall id <- keys ensures a[id] == b[id] {
      assert adds(id, Finite(a[id])) && adds(id, Finite(b[id]));
    }
  }

  lemma TotalIsUnique(v: Amount, w: Amount, keys: set<string>, adds: (string, Amount) -> bool)
    requires IsTotal(v, keys, adds) && IsTotal(w, keys, adds) && Functional(keys, adds)
    ensures v == w
  {
    if v.Finite? && w.Finite? {
      var a :| IsParts(a, keys, adds) && v.value == Sum(a);
      var b :| IsParts(b, keys, adds) && w.value == Sum(b);
      PartsAreUnique(a, b, keys, adds);
    }
  }

  // What each order with legs adds.
  ghost function Adding(legs: map<string, Legs>, orders: map<string, Order>, fills: seq<Fill>,
                        exclude: Option<string>): (string, Amount) -> bool {
    (id: string, v: Amount) => id in legs && Adds(legs[id], Ordinary(orders, id, exclude), Bought(fills, id), v)
  }

  method TotalOf(legs: map<string, Legs>, orders: map<string, Order>, fills: seq<Fill>,
                 exclude: Option<string>) returns (r: Amount)
    requires forall id <- legs :: legs[id] != map[]
    ensures IsTotal(r, legs.Keys, Adding(legs, orders, fills, exclude))
  {
    ghost var adds := Adding(legs, orders, fills, exclude);
    var bought := BoughtByOrder(fills);
    var total, todo := 0.0, legs.Keys;
    ghost var parts: map<string, real>, done: set<string> := map[], {};
    while todo != {}
      invariant done !! todo && done + todo == legs.Keys && IsParts(parts, done, adds) && total == Sum(parts)
      decreases todo
    {
      var id :| id in todo;
      var v := PartOf(legs, orders, fills, exclude, bought, id);
      if v == Infinite { return Infinite; }
      PartsNext(parts, done, adds, id, v.value);
      total, todo, parts, done := total + v.value, todo - {id}, parts[id := v.value], done + {id};
    }
    assert done == legs.Keys;
    r := Finite(total);
  }

  method PartOf(legs: map<string, Legs>, orders: map<string, Order>, fills: seq<Fill>, exclude: Option<string>,
                bought: map<string, int>, id: string)
    returns (v: Amount)
    requires id in legs && legs[id] != map[] && (if id in bought then bought[id] else 0) == Bought(fills, id)
    ensures Adding(legs, orders, fills, exclude)(id, v)
  {
    v := AdditionalOf(legs[id], Ordinary(orders, id, exclude), if id in bought then bought[id] else 0);
  }

  ghost predicate IsUnrepresented(r: Amount, orders: map<string, Order>, recoveries: seq<Recovery>, facts: seq<Fact>,
                                  fills: seq<Fill>, exclude: Option<string>) {
    exists legs ::
        Folded(legs, Items(orders, recoveries, facts)) && IsTotal(r, legs.Keys, Adding(legs, orders, fills, exclude))
  }

  /** Remaining notional of accepted BUY identities that the order rows do not already count. */
  method UnrepresentedBuyExposure(orders: map<string, Order>, recoveries: seq<Recovery>, facts: seq<Fact>,
                                  fills: seq<Fill>, exclude: Option<string>)
    returns (r: Amount)
    ensures IsUnrepresented(r, orders, recoveries, facts, fills, exclude)
  {
    var legs := CollectLegs(orders, recoveries, facts);
    r := TotalOf(legs, orders, fills, exclude);
  }

  lemma AddingIsUnique(orders: map<string, Order>, recoveries: seq<Recovery>, facts: seq<Fact>,
                       legs: map<string, Legs>, fills: seq<Fill>, exclude: Option<string>, id: string, x: Amount,
                           y: Amount)
    requires Folded(legs, Items(orders, recoveries, facts))
    requires Adding(legs, orders, fills, exclude)(id, x) && Adding(legs, orders, fills, exclude)(id, y)
    ensures x == y
  {
    if id in orders {
      forall k <- legs[id] ensures Covers(legs[id][k], OwnScope(orders[id])) {
        LegsCoverTheirRow(orders, recoveries, facts, legs, id, k);
      }
    }
    AddsIsUnique(legs[id], Ordinary(orders, id, exclude), Bought(fills, id), x, y);
  }

  /** The total does not depend on the order or repetition of recoveries and facts. */
  lemma OrderAndRepetitionAreIrrelevant(v: Amount, w: Amount, orders: map<string, Order>, recoveries: seq<Recovery>,
                                        recoveries': seq<Recovery>,
                                        facts: seq<Fact>, facts': seq<Fact>, fills: seq<Fill>, exclude: Option<string>)
    requires SetOf(recoveries) == SetOf(recoveries') && SetOf(facts) == SetOf(facts')
    requires IsUnrepresented(v, orders, recoveries, facts, fills, exclude) &&
             IsUnrepresented(w, orders, recoveries', facts', fills, exclude)
    ensures v == w
  {
    ItemsAreASet(orders, recoveries, recoveries', facts, facts');
    var a :| Folded(a, Items(orders, recoveries, facts)) && IsTotal(v, a.Keys, Adding(a, orders, fills, exclude));
    var b :| Folded(b, Items(orders, recoveries', facts')) && IsTotal(w, b.Keys, Adding(b, orders, fills, exclude));
    FoldIsDetermined(a, b, Items(orders, recoveries, facts));
    var adds := Adding(a, orders, fills, exclude);
    forall id, x, y | id in a.Keys && adds(id, x) && adds(id, y) ensures x == y {
      AddingIsUnique(orders, recoveries, facts, a, fills, exclude, id, x, y);
    }
    assert Functional(a.Keys, adds);
    TotalIsUnique(v, w, a.Keys, adds);
  }
}
