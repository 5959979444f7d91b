/** When the venue accepted an order and no ordinary record could be written, a fallback fact is the last durable
    trace. It counts as live exposure until the exact order and broker id it names has an owner. */
module Uncertainty {
  import opened Wrappers
  import opened Text
  import opened Orders

  datatype Order = Order(id: string, brokerId: Option<string>, symbol: string, side: Side, quantity: int,
                         limitPrice: Option<real>, status: Status, filled: int, session: Option<string>,
                             correlation: Option<string>)

  datatype Recovery = Recovery(id: string, orderId: string, brokerId: string, side: Side, quantity: int,
                               limitPrice: Option<real>, open: bool, symbol: string, clientId: string,
                                   session: Option<string>)

  datatype Key = FallbackKey(orderId: string, brokerId: string) | OtherKey

  // `reserved` marks the fallback event type and reason; `named` is the broker id in its payload, if a string.
  datatype Fact = Fact(id: string, reserved: bool, orderId: Option<string>, named: Option<string>, key: Key,
                       engineLocal: bool,
                       symbol: Option<string>, side: Option<Side>, quantity: Option<int>, price: Option<real>,
                       session: Option<string>, correlation: Option<string>)

  predicate Names(f: Fact) { f.reserved && f.orderId.Some? && f.orderId.value != [] }

  /** The broker id of a fact in the engine's exact shape for the order it refers to; None for anything malformed. */
  function CanonicalId(f: Fact, referenced: Option<Order>): Option<string> {
    if referenced == None || f.named == None || Blank(f.named.value) then None
    else
      var o, id := referenced.value, Strip(f.named.value);
      if && f.reserved && f.orderId == Some(o.id) && f.engineLocal && f.key == FallbackKey(o.id, id)
         && f.symbol == Some(o.symbol) && f.side == Some(o.side) && f.quantity == Some(o.quantity)
         && f.price == o.limitPrice && f.session == o.session && f.correlation == o.correlation
      then Some(id) else None
  }

  // The engine's own fact for an accepted order.
  function FallbackFact(id: string, o: Order, brokerId: string): Fact {
    Fact(id, true, Some(o.id), Some(brokerId), FallbackKey(o.id, brokerId), true,
         Some(o.symbol), Some(o.side), Some(o.quantity), o.limitPrice, o.session, o.correlation)
  }

  lemma FallbackIsCanonical(id: string, o: Order, brokerId: string)
    ensures CanonicalId(FallbackFact(id, o, brokerId), Some(o)) == if brokerId != [] &&
            Normal(brokerId) then Some(brokerId) else None
  {
    NormalIsFixed(brokerId);
  }

  /** Canonical means exactly the engine's own shape: apart from whitespace around the id, the fact is the one the
      engine would write for that order and id. */
  lemma CanonicalIsTheEngineShape(f: Fact, o: Order, brokerId: string)
    ensures CanonicalId(f, Some(o)) == Some(brokerId)
            <==> (f.named.Some? && brokerId != [] && Strip(f.named.value) == brokerId &&
                  f.(named := Some(brokerId)) == FallbackFact(f.id, o, brokerId))
  {
  }

  // The exact pair has an owner: the order row tracks the id, or a recovery of any state exists.
  predicate OwnedPair(orderId: string, brokerId: string, orders: map<string, Order>,
                      recoveries: set<(string, string)>) {
    (orderId in orders && orders[orderId].brokerId == Some(brokerId)) || (orderId, brokerId) in recoveries
  }

  // Only a canonical fact whose exact pair is owned stops counting.
  predicate Released(f: Fact, orders: map<string, Order>, recoveries: set<(string, string)>)
    requires f.orderId.Some?
  {
    var id := CanonicalId(f, Lookup(orders, f.orderId.value));
    id.Some? && OwnedPair(f.orderId.value, id.value, orders, recoveries)
  }

  predicate InScope(f: Fact, orders: map<string, Order>, symbol: string, side: Side)
    requires f.orderId.Some?
  {
    || (f.symbol == Some(symbol) && f.side == Some(side))
    || (f.orderId.value in orders && orders[f.orderId.value].symbol == symbol && orders[f.orderId.value].side == side)
  }

  ghost predicate Uncertain(f: Fact, orders: map<string, Order>, recoveries: set<(string, string)>, symbol: string,
                            side: Side, exclude: Option<string>) {
    Names(f) && f.orderId != exclude && InScope(f, orders, symbol, side) && !Released(f, orders, recoveries)
  }

  function Pairs(recoveries: seq<Recovery>): set<(string, string)> { set r <- recoveries :: (r.orderId, r.brokerId) }

  /** Orders named by a fact that still lacks an owner, each once. */
  method UncertaintyOrderIds(facts: seq<Fact>, orders: map<string, Order>, recoveries: seq<Recovery>, symbol: string,
                             side: Side, exclude: Option<string>)
    returns (ids: seq<string>)
    ensures Distinct(ids)
    ensures forall id :: id in ids <==> exists k :: 0 <= k < |facts| && facts[k].orderId == Some(id)
                                                 && Uncertain(facts[k], orders, Pairs(recoveries), symbol, side,
                                                              exclude)
  {
    var pairs := Pairs(recoveries);
    ids := [];
    for i := 0 to |facts|
      invariant Distinct(ids)
      invariant forall id :: id in ids <==> exists k :: 0 <= k < i && facts[k].orderId == Some(id)
                                                     && Uncertain(facts[k], orders, pairs, symbol, side, exclude)
    {
      var f := facts[i];
      if !Names(f) || f.orderId == exclude || !InScope(f, orders, symbol, side) || Released(f, orders, pairs) {
        continue;
      }
      if f.orderId.value !in ids { ids := ids + [f.orderId.value]; }
    }
  }

  /** The engine's own fact is in force for its order's symbol and side exactly until its exact pair is owned, whatever
      else the ledgers hold, and never for the excluded order. */
  lemma FactHoldsExactlyUntilOwned(id: string, o: Order, brokerId: string, orders: map<string, Order>,
                                   recoveries: seq<Recovery>, symbol: string, side: Side, exclude: Option<string>)
    requires o.id != [] && brokerId != [] && Normal(brokerId) && o.id in orders && SameScope(orders[o.id], o)
    ensures Uncertain(FallbackFact(id, o, brokerId), orders, Pairs(recoveries), symbol, side, exclude)
            <==> o.symbol == symbol && o.side == side && exclude != Some(o.id)
                 && !OwnedPair(o.id, brokerId, orders, Pairs(recoveries))
  {
    FallbackIsCanonical(id, orders[o.id], brokerId);
  }

  // The immutable part of an order.
  predicate SameScope(a: Order, b: Order) {
    a.id == b.id && a.symbol == b.symbol && a.side == b.side && a.quantity == b.quantity && a.limitPrice == b.limitPrice
    && a.session == b.session && a.correlation == b.correlation
  }

  /** A malformed fact is never released: it counts in the scope it declares and in the scope of its order's row,
      whatever the ledgers own, and in no other scope. */
  lemma MalformedIsNeverReleased(f: Fact, orders: map<string, Order>, recoveries: seq<Recovery>, symbol: string,
                                 side: Side, exclude: Option<string>)
    requires Names(f) && CanonicalId(f, Lookup(orders, f.orderId.value)) == None
    ensures Uncertain(f, orders, Pairs(recoveries), symbol, side, exclude)
            <==> f.orderId != exclude
                 && ((f.symbol, f.side) == (Some(symbol), Some(side))
                     || exists id :: id in orders && f.orderId == Some(id)
                                    && (orders[id].symbol, orders[id].side) == (symbol, side))
  {
  }
}
