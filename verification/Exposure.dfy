/** Capital that accepted BUY orders may still consume beyond what the order rows already count. Order rows, open
    recoveries and unreleased facts are merged into venue identities; known fills are then charged so that the most
    notional remains. */
module Exposure {
  import opened Wrappers
  import opened Text
  import opened Orders
  import opened Uncertainty

  // The venue order a record speaks of: its broker id as written, or the record itself when it names none.
  datatype Identity = Broker(raw: string) | RecoveryRow(id: string) | FactRow(id: string)

  // None: not bounded by anything on record.
  datatype Scope = Scope(quantity: Option<nat>, price: Option<real>)

  datatype Item = Item(orderId: string, identity: Identity, scope: Scope)

  type Legs = map<Identity, Scope>

  // ---- one record's scope ----

  function Positive(q: int): Option<nat> { if q > 0 then Some(q) else None }

  function PositivePrice(p: Option<real>): Option<real> { if p.Some? && p.value > 0.0 then p else None }

  function Larger(a: Option<nat>, b: Option<nat>): Option<nat> {
    if a == None then b else if b == None then a else if a.value >= b.value then a else b
  }

  function Dearer(a: Option<real>, b: Option<real>): Option<real> {
    if a == None then b else if b == None then a else if a.value >= b.value then a else b
  }

  function ScopeOf(referenced: Option<Order>, quantity: Option<int>, price: Option<real>): Scope {
    var declared := if quantity.Some? then Positive(quantity.value) else None;
    if referenced == None then Scope(declared, PositivePrice(price))
    else Scope(Larger(declared, Positive(referenced.value.quantity)),
               Dearer(PositivePrice(price), PositivePrice(referenced.value.limitPrice)))
  }

  /** Two records of one identity: an unbounded side stays unbounded, otherwise the larger counts. */
  function Merge(a: Scope, b: Scope): Scope {
    Scope(if a.quantity == None || b.quantity == None then None else Larger(a.quantity, b.quantity),
          if a.price == None || b.price == None then None else Dearer(a.price, b.price))
  }

  /** Merging is a join: commutative, associative, idempotent, with unbounded on top. */
  lemma MergeIsJoin(a: Scope, b: Scope, c: Scope)
    ensures Merge(a, b) == Merge(b, a) && Merge(Merge(a, b), c) == Merge(a, Merge(b, c)) && Merge(a, a) == a
    ensures (a.quantity == None ==> Merge(a, b).quantity == None) && (a.price == None ==> Merge(a, b).price == None)
  {
  }

  // ---- which records become legs ----

  predicate BuySide(side: Option<Side>, referenced: Option<Order>) {
    side == Some(Buy) || (referenced.Some? && referenced.value.side == Buy)
  }

  function RecoveryItem(r: Recovery, orders: map<string, Order>): Option<Item> {
    var referenced := Lookup(orders, r.orderId);
    if !r.open || !BuySide(Some(r.side), referenced) then None
    else Some(Item(r.orderId, if !Blank(r.brokerId) then Broker(r.brokerId) else RecoveryRow(r.id),
                   ScopeOf(referenced, Some(r.quantity), r.limitPrice)))
  }

  function FactItem(f: Fact, orders: map<string, Order>, recoveries: set<(string, string)>): Option<Item> {
    if !Names(f) then None
    else
      var referenced := Lookup(orders, f.orderId.value);
      if !BuySide(f.side, referenced) || Released(f, orders, recoveries) then None
      else
        var identity := if f.named.Some? && !Blank(f.named.value) then Broker(f.named.value) else FactRow(f.id);
        Some(Item(f.orderId.value, identity, ScopeOf(referenced, f.quantity, f.price)))
  }

  ghost function RecoveryItems(orders: map<string, Order>, recoveries: set<Recovery>): set<Item> {
    set r <- recoveries | RecoveryItem(r, orders).Some? :: RecoveryItem(r, orders).value
  }

  ghost function FactItems(orders: map<string, Order>, facts: set<Fact>, pairs: set<(string, string)>): set<Item> {
    set f <- facts | FactItem(f, orders, pairs).Some? :: FactItem(f, orders, pairs).value
  }

  // ---- the merge, as a property of the set of records ----

  // The scopes recorded for one identity of one order.
  ghost function Recorded(items: set<Item>, orderId: string, identity: Identity): set<Scope> {
    set item <- items | item.orderId == orderId && item.identity == identity :: item.scope
  }

  // The join of a nonempty set: unbounded if any is, otherwise the largest quantity and the largest price.
  ghost predicate IsJoin(v: Scope, scopes: set<Scope>) {
    && (v.quantity == None <==> exists s <- scopes :: s.quantity == None)
    && (v.quantity.Some? ==>
        (exists s <- scopes :: s.quantity == v.quantity) && forall s <- scopes ::
            s.quantity.Some? ==> s.quantity.value <= v.quantity.value)
    && (v.price == None <==> exists s <- scopes :: s.price == None)
    && (v.price.Some? ==>
        (exists s <- scopes :: s.price == v.price) && forall s <- scopes ::
            s.price.Some? ==> s.price.value <= v.price.value)
  }

  lemma JoinIsUnique(v: Scope, w: Scope, scopes: set<Scope>)
    requires IsJoin(v, scopes) && IsJoin(w, scopes)
    ensures v == w
  {
    if v.quantity.Some? { assert v.quantity.value == w.quantity.value; }
    if v.price.Some? { assert v.price.value == w.price.value; }
  }

  lemma JoinOfOne(s: Scope)
    ensures IsJoin(s, {s})
  {
    assert s in {s};
  }

  lemma JoinOfOneMore(v: Scope, scopes: set<Scope>, s: Scope)
    requires IsJoin(v, scopes)
    ensures IsJoin(Merge(v, s), scopes + {s})
  {
    var all := scopes + {s};
    assert s in all && forall t <- scopes :: t in all;
    if v.quantity.Some? {
      var t :| t in scopes && t.quantity == v.quantity;
      assert t in all;
    }
    if v.price.Some? {
      var t :| t in scopes && t.price == v.price;
      assert t in all;
    }
    if v.quantity == None {
      var t :| t in scopes && t.quantity == None;
      assert t in all;
    }
    if v.price == None {
      var t :| t in scopes && t.price == None;
      assert t in all;
    }
  }

  function LegsOf(legs: map<string, Legs>, orderId: string): Legs { if orderId in legs then legs[orderId] else map[] }

  function LegAt(legs: map<string, Legs>, orderId: string, identity: Identity): Option<Scope> {
    Lookup(LegsOf(legs, orderId), identity)
  }

  ghost predicate LegFits(leg: Option<Scope>, scopes: set<Scope>) {
    if scopes == {} then leg == None else leg.Some? && IsJoin(leg.value, scopes)
  }

  /** The table holds one leg per recorded identity: the join of everything recorded for it. */
  ghost predicate Folded(legs: map<string, Legs>, items: set<Item>) {
    && (forall orderId, identity :: LegFits(LegAt(legs, orderId, identity), Recorded(items, orderId, identity)))
    && (forall orderId <- legs :: legs[orderId] != map[])
  }

  function Retain(legs: map<string, Legs>, item: Item): map<string, Legs> {
    var mine := LegsOf(legs, item.orderId);
    var prior := Lookup(mine, item.identity);
    legs[item.orderId := mine[item.identity := if prior == None then item.scope else Merge(prior.value, item.scope)]]
  }

  lemma RecordedNext(items: set<Item>, item: Item, orderId: string, identity: Identity)
    ensures Recorded(items + {item}, orderId, identity) ==
            Recorded(items, orderId, identity)
            + (if item.orderId == orderId && item.identity == identity then {item.scope} else {})
  {
  }

  lemma RetainFolds(legs: map<string, Legs>, items: set<Item>, item: Item)
    requires Folded(legs, items)
    ensures Folded(Retain(legs, item), items + {item})
  {
    var legs', items' := Retain(legs, item), items + {item};
    forall orderId, identity ensures LegFits(LegAt(legs', orderId, identity), Recorded(items', orderId, identity)) {
      RecordedNext(items, item, orderId, identity);
      var leg, scopes := LegAt(legs, orderId, identity), Recorded(items, orderId, identity);
      assert LegFits(leg, scopes);
      if item.orderId == orderId && item.identity == identity {
        JoinOfOne(item.scope);
        if scopes == {} {
          assert scopes + {item.scope} == {item.scope};
        } else {
          JoinOfOneMore(leg.value, scopes, item.scope);
        }
      }
    }
    assert forall orderId <- legs' :: legs'[orderId] != map[] by {
      assert item.identity in legs'[item.orderId];
    }
  }

  /** The table is determined by the set of records alone, so their order and repetition do not matter. */
  lemma FoldIsDetermined(a: map<string, Legs>, b: map<string, Legs>, items: set<Item>)
    requires Folded(a, items) && Folded(b, items)
    ensures a == b
  {
    forall orderId, identity ensures LegAt(a, orderId, identity) == LegAt(b, orderId, identity) {
      var scopes := Recorded(items, orderId, identity);
      assert LegFits(LegAt(a, orderId, identity), scopes) && LegFits(LegAt(b, orderId, identity), scopes);
      if scopes != {} { JoinIsUnique(LegAt(a, orderId, identity).value, LegAt(b, orderId, identity).value, scopes); }
    }
    forall orderId ensures LegsOf(a, orderId) == LegsOf(b, orderId) { SameLegs(a, b, orderId); }
    forall orderId ensures orderId in a <==> orderId in b {
      assert LegsOf(a, orderId) == LegsOf(b, orderId);
    }
    forall orderId | orderId in a ensures a[orderId] == b[orderId] {
      assert LegsOf(a, orderId) == LegsOf(b, orderId);
    }
  }

  lemma SameLegs(a: map<string, Legs>, b: map<string, Legs>, orderId: string)
    requires forall identity :: LegAt(a, orderId, identity) == LegAt(b, orderId, identity)
    ensures LegsOf(a, orderId) == LegsOf(b, orderId)
  {
    var m, n := LegsOf(a, orderId), LegsOf(b, orderId);
    forall identity ensures Lookup(m, identity) == Lookup(n, identity) {
      assert LegAt(a, orderId, identity) == LegAt(b, orderId, identity);
    }
    assert forall identity :: identity in m <==> Lookup(m, identity).Some?;
    assert m.Keys == n.Keys;
    assert forall identity <- m :: m[identity] == Lookup(m, identity).value == n[identity];
  }

  ghost function SetOf<T>(s: seq<T>): set<T> { set x <- s }

  lemma SetOfNext<T>(s: seq<T>, i: nat)
    requires i < |s|
    ensures SetOf(s[..i + 1]) == SetOf(s[..i]) + {s[i]}
  {
    assert s[..i + 1] == s[..i] + [s[i]];
  }

  ghost function Single<T>(x: Option<T>): set<T> { if x.Some? then {x.value} else {} }

  lemma RecoveryItemsNext(orders: map<string, Order>, recoveries: set<Recovery>, r: Recovery)
    ensures RecoveryItems(orders, recoveries + {r})
              == RecoveryItems(orders, recoveries) + Single(RecoveryItem(r, orders))
  {
  }

  lemma FactItemsNext(orders: map<string, Order>, facts: set<Fact>, pairs: set<(string, string)>, f: Fact)
    ensures FactItems(orders, facts + {f}, pairs)
              == FactItems(orders, facts, pairs) + Single(FactItem(f, orders, pairs))
  {
  }

  function RetainIfAny(legs: map<string, Legs>, item: Option<Item>): map<string, Legs> {
    if item.Some? then Retain(legs, item.value) else legs
  }

  lemma RetainIfAnyFolds(legs: map<string, Legs>, items: set<Item>, item: Option<Item>)
    requires Folded(legs, items)
    ensures Folded(RetainIfAny(legs, item), items + Single(item))
  {
    if item.Some? { RetainFolds(legs, items, item.value); } else { assert items + {} == items; }
  }

  method CollectRecoveries(orders: map<string, Order>, recoveries: seq<Recovery>) returns (legs: map<string, Legs>)
    ensures Folded(legs, RecoveryItems(orders, SetOf(recoveries)))
  {
    legs := map[];
    ghost var seen: set<Recovery> := {};
    assert RecoveryItems(orders, seen) == {};
    for i := 0 to |recoveries|
      invariant seen == SetOf(recoveries[..i]) && Folded(legs, RecoveryItems(orders, seen))
    {
      var item := RecoveryItem(recoveries[i], orders);
      SetOfNext(recoveries, i);
      RecoveryItemsNext(orders, seen, recoveries[i]);
      RetainIfAnyFolds(legs, RecoveryItems(orders, seen), item);
      legs := RetainIfAny(legs, item);
      seen := seen + {recoveries[i]};
    }
    assert recoveries[..|recoveries|] == recoveries;
  }

  method CollectFacts(orders: map<string, Order>, facts: seq<Fact>, pairs: set<(string, string)>,
                      before: map<string, Legs>, ghost items: set<Item>)
    returns (legs: map<string, Legs>)
    requires Folded(before, items)
    ensures Folded(legs, items + FactItems(orders, SetOf(facts), pairs))
  {
    legs := before;
    ghost var seen: set<Fact>, all := {}, items;
    for i := 0 to |facts|
      invariant seen == SetOf(facts[..i]) && all == items + FactItems(orders, seen, pairs) && Folded(legs, all)
    {
      var item := FactItem(facts[i], orders, pairs);
      SetOfNext(facts, i);
      FactItemsNext(orders, seen, pairs, facts[i]);
      RetainIfAnyFolds(legs, all, item);
      legs := RetainIfAny(legs, item);
      seen, all := seen + {facts[i]}, all + Single(item);
    }
    assert facts[..|facts|] == facts;
  }

  // Everything that is recorded for an accepted leg.
  ghost function Items(orders: map<string, Order>, recoveries: seq<Recovery>, facts: seq<Fact>): set<Item> {
    RecoveryItems(orders, SetOf(recoveries)) + FactItems(orders, SetOf(facts), Pairs(recoveries))
  }

  /** Collect recoveries, then facts. */
  method CollectLegs(orders: map<string, Order>, recoveries: seq<Recovery>,
                     facts: seq<Fact>) returns (legs: map<string, Legs>)
    ensures Folded(legs, Items(orders, recoveries, facts))
  {
    var first := CollectRecoveries(orders, recoveries);
    legs := CollectFacts(orders, facts, Pairs(recoveries), first, RecoveryItems(orders, SetOf(recoveries)));
  }

  lemma ItemsAreASet(orders: map<string, Order>, recoveries: seq<Recovery>, recoveries': seq<Recovery>,
                     facts: seq<Fact>, facts': seq<Fact>)
    requires SetOf(recoveries) == SetOf(recoveries') && SetOf(facts) == SetOf(facts')
    ensures Items(orders, recoveries, facts) == Items(orders, recoveries', facts')
  {
    assert Pairs(recoveries) == set r <- SetOf(recoveries) :: (r.orderId, r.brokerId);
    assert Pairs(recoveries') == set r <- SetOf(recoveries') :: (r.orderId, r.brokerId);
  }
}
