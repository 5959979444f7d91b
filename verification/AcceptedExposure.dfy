/** Where ownership meets exposure: an accepted BUY that the finalizer left to the recovery ledger or to a fact is a leg
    with the order's own quantity and price. */
module AcceptedExposure {
  import opened Wrappers
  import opened Text
  import opened Orders
  import opened Uncertainty
  import opened Exposure
  import opened ExposureTotal
  import opened Ownership

  // The order's row, where there still is one, has the order's immutable scope.
  predicate RowAgrees(s: State, o: Order) { o.id in s.orders ==> SameScope(s.orders[o.id], o) }

  /** A pair finished through the recovery ledger is one exposure record under its venue id, with exactly the order's
      own quantity and price. */
  lemma RecoveryCountsTheOrder(s: State, o: Order, brokerId: string)
    requires LedgerOwns(s, o, brokerId) && s.recoveries[(o.id, brokerId)].open && RowAgrees(s, o) && o.side == Buy
    requires o.quantity > 0 && (o.limitPrice.Some? ==> o.limitPrice.value > 0.0) && !Blank(brokerId)
    ensures RecoveryItem(s.recoveries[(o.id, brokerId)], s.orders)
         == Some(Item(o.id, Broker(brokerId), Scope(Some(o.quantity), o.limitPrice)))
  {
  }

  /** So its order has a leg under that id which is at least as large and as dear as the order. */
  lemma RecoveredBuyIsALeg(s: State, o: Order, brokerId: string, recoveries: seq<Recovery>, legs: map<string, Legs>)
    requires LedgerOwns(s, o, brokerId) && s.recoveries[(o.id, brokerId)].open && o.side == Buy && !Blank(brokerId)
    requires s.recoveries[(o.id, brokerId)] in recoveries && Folded(legs, Items(s.orders, recoveries, s.facts))
    ensures o.id in legs && Broker(brokerId) in legs[o.id]
    ensures Dominates(legs[o.id][Broker(brokerId)], Some(o.quantity), o.limitPrice)
  {
    var id := OpenRecoveryIsCovered(s.orders, recoveries, s.facts, legs, s.recoveries[(o.id, brokerId)]);
  }

  /** And while only a fact speaks for it, the fact is such a leg. */
  lemma RecordedBuyIsALeg(s: State, o: Order, brokerId: string, recoveries: seq<Recovery>, legs: map<string, Legs>)
    requires Ownership.Recorded(s, o, brokerId) && o.side == Buy
    requires o.id != [] && o.id in s.orders && SameScope(s.orders[o.id], o)
    requires Pairs(recoveries) == s.recoveries.Keys && !Owned(s, o.id, brokerId)
    requires Folded(legs, Items(s.orders, recoveries, s.facts))
    ensures o.id in legs && exists id <- legs[o.id] :: Dominates(legs[o.id][id], Some(o.quantity), o.limitPrice)
  {
    var k :| 0 <= k < |s.facts| && CanonicalId(s.facts[k], Some(o)) == Some(brokerId);
    CanonicalIsStable(s.facts[k], o, s.orders[o.id]);
    var id := UncertainFactIsCovered(s.orders, recoveries, s.facts, legs, s.facts[k], o.symbol);
  }
}
