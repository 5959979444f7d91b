/** One reconciliation pass over a snapshot of local orders and the venue's mass report: who owns which report row,
    what each open order needs, and which rows are nobody's. */
module Planner {
  import opened Wrappers
  import opened Orders
  import opened ScopeEvents

  datatype Order = Order(id: string, brokerId: Option<string>, symbol: string, side: Side, quantity: int, filled: int,
                         orderType: OrderType, limitPrice: Option<real>, status: Status, updatedAt: Option<int>)

  datatype Fill = Fill(id: string, quantity: int, price: Option<real>)

  datatype Report = Report(brokerId: string, clientId: Option<string>, symbol: string, side: Side, status: Status,
                           filled: real, fills: seq<Fill>, quantity: Option<real>, orderType: Option<Word>,
                           limitPrice: Option<real>, timeInForce: Option<Word>, orderClass: Option<Word>,
                           assetClass: Option<Word>, quantityMode: Option<Word>, extendedHours: Option<bool>,
                           hasLegs: Option<bool>, positionIntent: Option<Word>, predecessor: Option<string>,
                               advanced: bool)

  type Scopes = map<string, Scope>

  function ScopeFor(scopes: Scopes, id: string): Option<Scope> { if id in scopes then Some(scopes[id]) else None }

  // ---- does a row describe the order? ----

  predicate MatchesScope(r: Report, o: Order, s: Scope) {
    && r.orderType == Some(TypeWord(s.orderType)) && r.limitPrice == s.limitPrice
    && r.timeInForce == Some(s.timeInForce) && r.orderClass == Some(s.orderClass)
    && r.assetClass == Some(s.assetClass) && r.quantityMode == Some(s.quantityMode)
    && (s.extendedHours == None || r.extendedHours == s.extendedHours)
    && r.hasLegs == Some(false) && !r.advanced && r.predecessor == s.predecessor
    && r.quantity == Some(o.quantity as real)
  }

  predicate MatchesIntent(r: Report, o: Order) {
    && !DynamicType(o.side, o.orderType)
    && (r.orderType == None || r.orderType == Some(TypeWord(o.orderType)))
    && (r.limitPrice == None || r.limitPrice == o.limitPrice)
    && (r.quantity == None || r.quantity == Some(o.quantity as real))
    && (r.timeInForce == None || r.timeInForce == Some(Day)) && (r.orderClass == None || r.orderClass == Some(Simple))
    && (r.assetClass == None || r.assetClass == Some(UsEquity)) &&
        (r.quantityMode == None || r.quantityMode == Some(Qty))
    && r.hasLegs != Some(true) && !r.advanced
    && (r.extendedHours == None || (r.orderType == Some(MarketWord) && r.extendedHours == Some(false)) ||
        r.orderType == Some(LimitWord))
  }

  // The row agrees with the recorded request when there is one, otherwise with the order's own intent.
  predicate Describes(r: Report, o: Order, scope: Option<Scope>) {
    && r.symbol == o.symbol && r.side == o.side
    && (if scope.Some? then MatchesScope(r, o, scope.value) else MatchesIntent(r, o))
    && r.filled >= 0.0 && r.filled == r.filled.Floor as real
    && (r.positionIntent == None || r.positionIntent == Some(if o.side == Buy then BuyToOpen else SellToClose))
  }

  predicate OwnsByBroker(o: Order, r: Report, scope: Option<Scope>) {
    && o.brokerId == Some(r.brokerId)
    && (if scope.Some? then r.clientId == Some(o.id) else r.clientId == None || r.clientId == Some(o.id))
    && Describes(r, o, scope)
  }

  predicate OwnsByClient(o: Order, r: Report, scope: Option<Scope>) {
    r.clientId == Some(o.id) && Describes(r, o, scope)
  }

  /** A known venue id decides alone; only an order without one may be found by its client id. */
  predicate Owns(o: Order, r: Report, scopes: Scopes) {
    if o.brokerId.Some? then OwnsByBroker(o, r, ScopeFor(scopes, o.id)) else OwnsByClient(o, r, ScopeFor(scopes, o.id))
  }

  // ---- identity ----

  predicate UniqueReports(reports: seq<Report>) {
    forall i, j :: 0 <= i < j < |reports| ==>
      reports[i].brokerId != reports[j].brokerId &&
          (reports[i].clientId.Some? ==> reports[i].clientId != reports[j].clientId)
  }

  predicate UniqueOrders(orders: seq<Order>) {
    forall i, j :: 0 <= i < j < |orders| ==>
      orders[i].id != orders[j].id && (orders[i].brokerId.Some? ==> orders[i].brokerId != orders[j].brokerId)
  }

  /** The adapter refuses a report exactly when a venue id repeats or a present client id repeats. */
  method CheckIdentities(rows: seq<Report>) returns (r: Option<seq<Report>>)
    ensures r.Some? <==> UniqueReports(rows)
    ensures r.Some? ==> r.value == rows
  {
    var reports: seq<Report> := [];
    var brokerIds: set<string>, clientIds: set<string> := {}, {};
    for i := 0 to |rows|
      invariant reports == rows[..i] && UniqueReports(reports)
      invariant forall s :: s in brokerIds <==> exists k :: 0 <= k < i && rows[k].brokerId == s
      invariant forall s :: s in clientIds <==> exists k :: 0 <= k < i && rows[k].clientId == Some(s)
    {
      var row := rows[i];
      if row.brokerId in brokerIds || (row.clientId.Some? && row.clientId.value in clientIds) { return None; }
      brokerIds := brokerIds + {row.brokerId};
      if row.clientId.Some? { clientIds := clientIds + {row.clientId.value}; }
      reports := reports + [row];
    }
    r := Some(reports);
  }

  /** No row is owned twice, whichever route each order takes. */
  lemma OwnedAtMostOnce(orders: seq<Order>, i: nat, j: nat, r: Report, scopes: Scopes)
    requires UniqueOrders(orders) && i < |orders| && j < |orders|
    requires Owns(orders[i], r, scopes) && Owns(orders[j], r, scopes)
    ensures i == j
  {
  }

  /** An order owns at most one row. */
  lemma OwnsAtMostOne(reports: seq<Report>, i: nat, j: nat, o: Order, scopes: Scopes)
    requires UniqueReports(reports) && i < |reports| && j < |reports|
    requires Owns(o, reports[i], scopes) && Owns(o, reports[j], scopes)
    ensures i == j
  {
  }

  // The request a row reports, field by field.
  datatype Wire = Wire(symbol: string, side: Side, quantity: Option<real>, orderType: Option<Word>,
                       limitPrice: Option<real>,
                       timeInForce: Option<Word>, orderClass: Option<Word>, assetClass: Option<Word>,
                           quantityMode: Option<Word>,
                       extendedHours: Option<bool>, hasLegs: Option<bool>, predecessor: Option<string>, advanced: bool)

  function WireOf(r: Report): Wire {
    Wire(r.symbol, r.side, r.quantity, r.orderType, r.limitPrice, r.timeInForce, r.orderClass, r.assetClass,
         r.quantityMode,
         r.extendedHours, r.hasLegs, r.predecessor, r.advanced)
  }

  // The row a venue reports for the recorded request of an order.
  function Requested(o: Order, s: Scope, hours: Option<bool>): Wire {
    Wire(o.symbol, o.side, Some(o.quantity as real), Some(TypeWord(s.orderType)), s.limitPrice, Some(s.timeInForce),
         Some(s.orderClass),
         Some(s.assetClass), Some(s.quantityMode), if s.extendedHours.Some? then s.extendedHours else hours,
             Some(false), s.predecessor, false)
  }

  /** An order with a recorded request owns a row exactly when the row's ids name the order, its filled shares are
      whole, its intent fits the side, and it reports that very request. */
  lemma OwnedRowIsTheRequest(o: Order, r: Report, scopes: Scopes)
    requires o.id in scopes
    ensures Owns(o, r, scopes)
            <==> (&& r.clientId == Some(o.id) && (o.brokerId == None || o.brokerId == Some(r.brokerId))
                  && r.filled >= 0.0 && r.filled == r.filled.Floor as real
                  && (r.positionIntent == None ||
                      r.positionIntent == Some(if o.side == Buy then BuyToOpen else SellToClose))
                  && WireOf(r) == Requested(o, scopes[o.id], r.extendedHours))
  {
  }

  // A reported field that is present has this value.
  predicate Fits<T(==)>(reported: Option<T>, value: T) { reported == None || reported == Some(value) }

  /** Without a recorded request an order that is sent as it stands owns a row exactly when the ids name it, its filled
      shares are whole, and every field the row reports is the order's own. */
  lemma OwnedRowFitsTheOrder(o: Order, r: Report, scopes: Scopes)
    requires o.id !in scopes && !(o.side == Sell && o.orderType == Market)
    ensures Owns(o, r, scopes)
            <==> (&& (if o.brokerId.Some? then o.brokerId == Some(r.brokerId) && Fits(r.clientId, o.id)
                      else r.clientId == Some(o.id))
                  && r.symbol == o.symbol && r.side == o.side && r.filled >= 0.0 && r.filled == r.filled.Floor as real
                  && Fits(r.quantity, o.quantity as real) && Fits(r.orderType, TypeWord(o.orderType))
                  && (r.limitPrice == None || r.limitPrice == o.limitPrice)
                  && Fits(r.timeInForce, Day) && Fits(r.orderClass, Simple) && Fits(r.assetClass, UsEquity)
                  && Fits(r.quantityMode, Qty) && r.hasLegs != Some(true) && !r.advanced
                  && Fits(r.positionIntent, if o.side == Buy then BuyToOpen else SellToClose)
                  && (r.extendedHours == None || r.orderType == Some(LimitWord)
                      || (r.orderType == Some(MarketWord) && r.extendedHours == Some(false))))
  {
  }

  /** A protective market sell without a recorded request owns no row at all. */
  lemma UnscopedProtectiveSellOwnsNothing(o: Order, r: Report, scopes: Scopes)
    requires o.id !in scopes && o.side == Sell && o.orderType == Market
    ensures !Owns(o, r, scopes)
  {
  }

  // ---- what an order needs ----

  datatype Inferred = Inferred(orderId: string, symbol: string, side: Side, quantity: int, price: Option<real>,
                               fillId: string)

  datatype Resolution = Resolution(orderId: string, status: Status)

  predicate Priced(f: Fill) { f.price.Some? && f.id != [] }

  function PricedFills(fills: seq<Fill>): (r: seq<Fill>)
    ensures forall k :: 0 <= k < |r| ==> Priced(r[k])
  {
    if fills == [] then []
    else
      var rest, f := PricedFills(fills[..|fills| - 1]), fills[|fills| - 1];
      if Priced(f) then rest + [f] else rest
  }

  function Shares(fills: seq<Fill>): int {
    if fills == [] then 0 else Shares(fills[..|fills| - 1]) + fills[|fills| - 1].quantity
  }

  function Infer(o: Order, fills: seq<Fill>): (r: seq<Inferred>)
    ensures |r| == |fills|
  {
    if fills == [] then []
    else
      var f := fills[|fills| - 1];
      Infer(o, fills[..|fills| - 1]) + [Inferred(o.id, o.symbol, o.side, f.quantity, f.price, f.id)]
  }

  predicate Recent(o: Order, cutoff: int) { o.updatedAt.Some? && o.updatedAt.value > cutoff }

  // The row a lookup table would hand the order: the last one with its venue id, or with its client id.
  function Candidate(o: Order, reports: seq<Report>): Option<Report> {
    if reports == [] then None
    else
      var r := reports[|reports| - 1];
      if (if o.brokerId.Some? then o.brokerId == Some(r.brokerId) else r.clientId == Some(o.id)) then Some(r)
      else Candidate(o, reports[..|reports| - 1])
  }

  datatype Decision = Ignored | SkippedRecent | NeedsQuery(row: Option<Report>)
      | Settled(report: Report, fills: seq<Fill>, resolution: Option<Status>)

  // What an order with an owned row needs.
  function Settle(o: Order, r: Report): Decision {
    var fills := if r.filled > o.filled as real then PricedFills(r.fills) else [];
    var ended := (r.status == Canceled || r.status == Rejected) && o.status != r.status;
    if r.filled > o.filled as real && (fills == [] || (Shares(fills) as real) < r.filled - o.filled as real)
    then NeedsQuery(Some(r))
    else Settled(r, fills, if ended then Some(r.status) else None)
  }

  function Decide(o: Order, reports: seq<Report>, scopes: Scopes, cutoff: int): Decision {
    if !Open(o.status) then Ignored
    else if Recent(o, cutoff) then SkippedRecent
    else
      var row := Candidate(o, reports);
      if row == None || !Owns(o, row.value, scopes) then NeedsQuery(None) else Settle(o, row.value)
  }

  lemma {:induction false} CandidateIs(o: Order, reports: seq<Report>)
    ensures Candidate(o, reports).Some? ==> Candidate(o, reports).value in reports
    ensures Candidate(o, reports) == None ==>
            forall r <- reports :: if o.brokerId.Some? then o.brokerId != Some(r.brokerId) else r.clientId != Some(o.id)
    decreases |reports|
  {
    if reports != [] { CandidateIs(o, reports[..|reports| - 1]); }
  }

  /** The lookup finds the order's row whenever the report holds one, and settles on no row that it does not own. */
  lemma OwnedRowIsFound(o: Order, reports: seq<Report>, r: Report, scopes: Scopes)
    requires UniqueReports(reports) && r in reports && Owns(o, r, scopes)
    ensures Candidate(o, reports) == Some(r)
  {
    CandidateIs(o, reports);
  }

  // ---- the whole pass ----

  datatype Plan = Plan(skipped: seq<string>, queries: seq<string>, inferred: seq<Inferred>,
                       resolutions: seq<Resolution>, matched: set<string>)

  function Extend(p: Plan, o: Order, d: Decision): Plan {
    match d
    case Ignored => p
    case SkippedRecent => p.(skipped := p.skipped + [o.id])
    case NeedsQuery(row) =>
      p.(queries := p.queries + [o.id], matched := p.matched + if row.Some? then {row.value.brokerId} else {})
    case Settled(r, fills, resolution) =>
      p.(inferred := p.inferred + Infer(o, fills), matched := p.matched + {r.brokerId},
         resolutions := p.resolutions + if resolution.Some? then [Resolution(o.id, resolution.value)] else [])
  }

  // The plan that deciding each order in turn adds up to.
  function Accumulate(orders: seq<Order>, decide: Order -> Decision): Plan
    decreases |orders|
  {
    if orders == [] then Plan([], [], [], [], {})
    else
      var o := orders[|orders| - 1];
      Extend(Accumulate(orders[..|orders| - 1], decide), o, decide(o))
  }

  function Deciding(reports: seq<Report>, scopes: Scopes, cutoff: int): Order -> Decision {
    (o: Order) => Decide(o, reports, scopes, cutoff)
  }

  function PlanFor(orders: seq<Order>, reports: seq<Report>, scopes: Scopes, cutoff: int): Plan {
    Accumulate(orders, Deciding(reports, scopes, cutoff))
  }

  ghost predicate Unowned(r: Report, orders: seq<Order>, scopes: Scopes) {
    forall i :: 0 <= i < |orders| ==> !Owns(orders[i], r, scopes)
  }

  ghost function UnownedRows(reports: seq<Report>, orders: seq<Order>, scopes: Scopes): seq<Report>
    decreases |reports|
  {
    if reports == [] then []
    else
      var rest, r := UnownedRows(reports[..|reports| - 1], orders, scopes), reports[|reports| - 1];
      if Unowned(r, orders, scopes) then rest + [r] else rest
  }

  // ---- the pass as it executes ----

  function Found(o: Order, byBroker: map<string, Report>, byClient: map<string, Report>): Option<Report> {
    if o.brokerId.Some? then Lookup(byBroker, o.brokerId.value) else Lookup(byClient, o.id)
  }

  method IndexReports(reports: seq<Report>) returns (byBroker: map<string, Report>, byClient: map<string, Report>)
    ensures forall o :: Found(o, byBroker, byClient) == Candidate(o, reports)
  {
    byBroker, byClient := map[], map[];
    for i := 0 to |reports|
      invariant forall o :: Found(o, byBroker, byClient) == Candidate(o, reports[..i])
    {
      var r := reports[i];
      assert reports[..i + 1][..i] == reports[..i];
      ghost var wasBroker, wasClient := byBroker, byClient;
      byBroker := byBroker[r.brokerId := r];
      if r.clientId.Some? { byClient := byClient[r.clientId.value := r]; }
      assert forall o :: Found(o, wasBroker, wasClient) == Candidate(o, reports[..i]);
      assert forall o :: Found(o, byBroker, byClient) == Candidate(o, reports[..i + 1]);
    }
    assert reports[..|reports|] == reports;
  }

  /** Decide every open order once, in list order. */
  method PlanOrders(orders: seq<Order>, reports: seq<Report>, scopes: Scopes, cutoff: int) returns (plan: Plan)
    ensures plan == PlanFor(orders, reports, scopes, cutoff)
  {
    var byBroker, byClient := IndexReports(reports);
    plan := Plan([], [], [], [], {});
    for i := 0 to |orders|
      invariant plan == PlanFor(orders[..i], reports, scopes, cutoff)
    {
      var o := orders[i];
      assert orders[..i + 1][..i] == orders[..i];
      if !Open(o.status) { continue; }
      if Recent(o, cutoff) {
        plan := plan.(skipped := plan.skipped + [o.id]);
        continue;
      }
      var row := Found(o, byBroker, byClient);
      if row == None || !Owns(o, row.value, scopes) {
        plan := plan.(queries := plan.queries + [o.id]);
        continue;
      }
      plan := PlanOwned(plan, o, row.value);
    }
    assert orders[..|orders|] == orders;
  }

  // The order owns this row: record its missing executions, or ask for a query, or catch up with its end.
  method PlanOwned(before: Plan, o: Order, r: Report) returns (plan: Plan)
    ensures plan == Extend(before, o, Settle(o, r))
  {
    plan := before.(matched := before.matched + {r.brokerId});
    if r.filled > o.filled as real {
      var priced := PricedFills(r.fills);
      if priced != [] && Shares(priced) as real >= r.filled - o.filled as real {
        plan := plan.(inferred := plan.inferred + Infer(o, priced));
      } else {
        plan := plan.(queries := plan.queries + [o.id]);
        return;
      }
    }
    if (r.status == Canceled || r.status == Rejected) && o.status != r.status {
      plan := plan.(resolutions := plan.resolutions + [Resolution(o.id, r.status)]);
    }
  }

  // Every matched id is the id of a row that some listed order owns.
  ghost predicate MatchedRow(id: string, orders: seq<Order>, reports: seq<Report>, scopes: Scopes) {
    exists i, r :: 0 <= i < |orders| && r in reports && r.brokerId == id && Owns(orders[i], r, scopes)
  }

  lemma {:induction false} MatchedAreOwned(orders: seq<Order>, reports: seq<Report>, scopes: Scopes, cutoff: int)
    ensures forall id <- PlanFor(orders, reports, scopes, cutoff).matched :: MatchedRow(id, orders, reports, scopes)
    decreases |orders|
  {
    if orders != [] {
      var rest, o := orders[..|orders| - 1], orders[|orders| - 1];
      MatchedAreOwned(rest, reports, scopes, cutoff);
      CandidateIs(o, reports);
      var matched := PlanFor(rest, reports, scopes, cutoff).matched;
      forall id <- PlanFor(orders, reports, scopes, cutoff).matched ensures MatchedRow(id, orders, reports, scopes) {
        if id in matched {
          var i, r :| 0 <= i < |rest| && r in reports && r.brokerId == id && Owns(rest[i], r, scopes);
          assert orders[i] == rest[i];
        } else {
          var r := Candidate(o, reports).value;
          assert Owns(orders[|orders| - 1], r, scopes) && r.brokerId == id;
        }
      }
    }
  }

  // The last order listed under an id, and under a venue id.
  ghost predicate OrderTables(byId: map<string, Order>, byBroker: map<string, Order>, orders: seq<Order>) {
    && (forall id :: id in byId ==> byId[id] in orders && byId[id].id == id)
    && (forall id :: id in byBroker ==> byBroker[id] in orders && byBroker[id].brokerId == Some(id))
    && (forall i ::
        0 <= i < |orders| ==>
            orders[i].id in byId && (orders[i].brokerId.Some? ==> orders[i].brokerId.value in byBroker))
  }

  method IndexOrders(orders: seq<Order>) returns (byId: map<string, Order>, byBroker: map<string, Order>)
    ensures OrderTables(byId, byBroker, orders)
  {
    byId, byBroker := map[], map[];
    for i := 0 to |orders|
      invariant OrderTables(byId, byBroker, orders[..i])
    {
      var o := orders[i];
      assert orders[..i + 1] == orders[..i] + [o];
      byId := byId[o.id := o];
      if o.brokerId.Some? { byBroker := byBroker[o.brokerId.value := o]; }
    }
    assert orders[..|orders|] == orders;
  }

  // The checks by which the pass leaves a row out of the external list.
  predicate Claimed(r: Report, matched: set<string>, byId: map<string, Order>, byBroker: map<string, Order>,
                    scopes: Scopes) {
    || r.brokerId in matched
    || (r.brokerId in byBroker && OwnsByBroker(byBroker[r.brokerId], r, ScopeFor(scopes, byBroker[r.brokerId].id)))
    || (r.clientId.Some? && r.clientId.value in byId && byId[r.clientId.value].brokerId == None
        && OwnsByClient(byId[r.clientId.value], r, ScopeFor(scopes, byId[r.clientId.value].id)))
  }

  /** Those checks are exact: a row is left out when, and only when, some listed order owns it. */
  lemma ClaimedExactlyWhenOwned(r: Report, matched: set<string>, byId: map<string, Order>, byBroker: map<string, Order>,
                                orders: seq<Order>, reports: seq<Report>, scopes: Scopes)
    requires UniqueOrders(orders) && UniqueReports(reports) && r in reports && OrderTables(byId, byBroker, orders)
    requires forall id <- matched :: MatchedRow(id, orders, reports, scopes)
    ensures Claimed(r, matched, byId, byBroker, scopes) <==> !Unowned(r, orders, scopes)
  {
    if r.brokerId in matched {
      var i, row :| 0 <= i < |orders| && row in reports && row.brokerId == r.brokerId && Owns(orders[i], row, scopes);
      assert row == r;
    }
    if i :| 0 <= i < |orders| && Owns(orders[i], r, scopes) {
      assert orders[i].id in byId && byId[orders[i].id] == orders[i];
      assert orders[i].brokerId.Some? ==> byBroker[orders[i].brokerId.value] == orders[i];
    }
  }

  method ListExternal(orders: seq<Order>, reports: seq<Report>, scopes: Scopes,
                      matched: set<string>) returns (external: seq<Report>)
    requires forall id <- matched :: MatchedRow(id, orders, reports, scopes)
    ensures UniqueOrders(orders) && UniqueReports(reports) ==> external == UnownedRows(reports, orders, scopes)
  {
    var byId, byBroker := IndexOrders(orders);
    external := [];
    for i := 0 to |reports|
      invariant UniqueOrders(orders) && UniqueReports(reports) ==> external == UnownedRows(reports[..i], orders, scopes)
    {
      var r := reports[i];
      assert reports[..i + 1][..i] == reports[..i];
      if UniqueOrders(orders) && UniqueReports(reports) {
        ClaimedExactlyWhenOwned(r, matched, byId, byBroker, orders, reports, scopes);
      }
      if !Claimed(r, matched, byId, byBroker, scopes) { external := external + [r]; }
    }
    assert reports[..|reports|] == reports;
  }

  /** The pass. With unique ids a row is listed as external exactly when no listed order owns it. */
  method PlanReconciliation(orders: seq<Order>, reports: seq<Report>, scopes: Scopes, now: int, threshold: int)
    returns (plan: Plan, external: seq<Report>)
    ensures plan == PlanFor(orders, reports, scopes, now - threshold)
    ensures UniqueOrders(orders) && UniqueReports(reports) ==> external == UnownedRows(reports, orders, scopes)
  {
    plan := PlanOrders(orders, reports, scopes, now - threshold);
    MatchedAreOwned(orders, reports, scopes, now - threshold);
    external := ListExternal(orders, reports, scopes, plan.matched);
  }

  lemma {:induction false} UnownedRowsAre(reports: seq<Report>, orders: seq<Order>, scopes: Scopes, r: Report)
    ensures r in UnownedRows(reports, orders, scopes) <==> r in reports && Unowned(r, orders, scopes)
    decreases |reports|
  {
    if reports != [] {
      UnownedRowsAre(reports[..|reports| - 1], orders, scopes, r);
      assert reports == reports[..|reports| - 1] + [reports[|reports| - 1]];
    }
  }

  /** Every row is either listed as external or owned by exactly one listed order, never both. */
  lemma RowsArePartitioned(orders: seq<Order>, reports: seq<Report>, scopes: Scopes, r: Report)
    requires UniqueOrders(orders) && r in reports
    ensures r in UnownedRows(reports, orders, scopes) <==> !exists i :: 0 <= i < |orders| && Owns(orders[i], r, scopes)
    ensures forall i, j ::
            0 <= i < |orders| && 0 <= j < |orders| && Owns(orders[i], r, scopes) && Owns(orders[j], r, scopes) ==>
                i == j
  {
    UnownedRowsAre(reports, orders, scopes, r);
    forall i, j | 0 <= i < |orders| && 0 <= j < |orders| && Owns(orders[i], r, scopes) &&
        Owns(orders[j], r, scopes) ensures i == j {
      OwnedAtMostOnce(orders, i, j, r, scopes);
    }
  }

  // ---- what the plan promises ----

  // The executions a plan infers for one order.
  function InferredFor(fills: seq<Inferred>, id: string): seq<Inferred> {
    if fills == [] then []
    else
      var rest, f := InferredFor(fills[..|fills| - 1], id), fills[|fills| - 1];
      if f.orderId == id then rest + [f] else rest
  }

  lemma {:induction false} InferredForSplits(a: seq<Inferred>, b: seq<Inferred>, id: string)
    ensures InferredFor(a + b, id) == InferredFor(a, id) + InferredFor(b, id)
    decreases |b|
  {
    if b == [] {
      assert a + b == a;
    } else {
      assert (a + b)[..|a + b| - 1] == a + b[..|b| - 1];
      InferredForSplits(a, b[..|b| - 1], id);
    }
  }

  lemma {:induction false} InferIsFor(o: Order, fills: seq<Fill>, id: string)
    ensures InferredFor(Infer(o, fills), id) == if id == o.id then Infer(o, fills) else []
    decreases |fills|
  {
    if fills != [] {
      InferIsFor(o, fills[..|fills| - 1], id);
      assert Infer(o, fills)[..|fills| - 1] == Infer(o, fills[..|fills| - 1]);
    }
  }

  function ResolutionsFor(rs: seq<Resolution>, id: string): seq<Resolution> {
    if rs == [] then []
    else
      var rest, r := ResolutionsFor(rs[..|rs| - 1], id), rs[|rs| - 1];
      if r.orderId == id then rest + [r] else rest
  }

  lemma ResolutionsForNext(rs: seq<Resolution>, r: Resolution, id: string)
    ensures ResolutionsFor(rs + [r], id) == ResolutionsFor(rs, id) + if r.orderId == id then [r] else []
  {
    assert (rs + [r])[..|rs|] == rs;
  }

  // Everything a plan says about one order: how often it is skipped and queried, and what is recorded for it.
  datatype Share = Share(skipped: nat, queries: nat, inferred: seq<Inferred>, resolutions: seq<Resolution>)

  function ShareOf(p: Plan, id: string): Share {
    Share(multiset(p.skipped)[id], multiset(p.queries)[id], InferredFor(p.inferred, id),
          ResolutionsFor(p.resolutions, id))
  }

  function Due(o: Order, d: Decision): Share {
    match d
    case Ignored => Share(0, 0, [], [])
    case SkippedRecent => Share(1, 0, [], [])
    case NeedsQuery(_) => Share(0, 1, [], [])
    case Settled(_, fills, resolution) =>
      Share(0, 0, Infer(o, fills), if resolution.Some? then [Resolution(o.id, resolution.value)] else [])
  }

  function Plus(a: Share, b: Share): Share {
    Share(a.skipped + b.skipped, a.queries + b.queries, a.inferred + b.inferred, a.resolutions + b.resolutions)
  }

  lemma ExtendShare(p: Plan, o: Order, d: Decision, id: string)
    ensures ShareOf(Extend(p, o, d), id) == if id == o.id then Plus(ShareOf(p, id), Due(o, d)) else ShareOf(p, id)
  {
    var next := Extend(p, o, d);
    match d
    case Ignored =>
    case SkippedRecent => assert multiset(next.skipped) == multiset(p.skipped) + multiset{o.id};
    case NeedsQuery(_) => assert multiset(next.queries) == multiset(p.queries) + multiset{o.id};
    case Settled(_, fills, resolution) => SettledShare(p, o, fills, resolution, id);
  }

  lemma SettledShare(p: Plan, o: Order, fills: seq<Fill>, resolution: Option<Status>, id: string)
    ensures InferredFor(p.inferred + Infer(o, fills), id)
         == InferredFor(p.inferred, id) + if id == o.id then Infer(o, fills) else []
    ensures var more := if resolution.Some? then [Resolution(o.id, resolution.value)] else [];
            ResolutionsFor(p.resolutions + more, id)
            == ResolutionsFor(p.resolutions, id) + if id == o.id then more else []
  {
    InferredForSplits(p.inferred, Infer(o, fills), id);
    InferIsFor(o, fills, id);
    if resolution.Some? {
      ResolutionsForNext(p.resolutions, Resolution(o.id, resolution.value), id);
    } else {
      assert p.resolutions + [] == p.resolutions;
    }
  }

  lemma {:induction false} AbsentHasNoShare(orders: seq<Order>, decide: Order -> Decision, id: string)
    requires forall i :: 0 <= i < |orders| ==> orders[i].id != id
    ensures ShareOf(Accumulate(orders, decide), id) == Share(0, 0, [], [])
    decreases |orders|
  {
    if orders != [] {
      var rest, o := orders[..|orders| - 1], orders[|orders| - 1];
      AbsentHasNoShare(rest, decide, id);
      ExtendShare(Accumulate(rest, decide), o, decide(o), id);
    }
  }

  // One order's share of the whole plan is what its own decision is due, no more and no less.
  lemma {:induction false} ShareIsOwn(orders: seq<Order>, decide: Order -> Decision, i: nat)
    requires UniqueOrders(orders) && i < |orders|
    ensures ShareOf(Accumulate(orders, decide), orders[i].id) == Due(orders[i], decide(orders[i]))
    decreases |orders|
  {
    var rest, o := orders[..|orders| - 1], orders[|orders| - 1];
    ExtendShare(Accumulate(rest, decide), o, decide(o), orders[i].id);
    if i < |orders| - 1 {
      assert rest[i] == orders[i] && orders[i].id != o.id && UniqueOrders(rest);
      ShareIsOwn(rest, decide, i);
    } else {
      AbsentHasNoShare(rest, decide, o.id);
      OwnShareOnly(Accumulate(rest, decide), o, decide(o));
    }
  }

  lemma OwnShareOnly(p: Plan, o: Order, d: Decision)
    requires ShareOf(p, o.id) == Share(0, 0, [], [])
    ensures Plus(ShareOf(p, o.id), Due(o, d)) == Due(o, d)
  {
  }

  // The recorded executions fill the reported gap.
  function InferredShares(fills: seq<Inferred>): int {
    if fills == [] then 0 else InferredShares(fills[..|fills| - 1]) + fills[|fills| - 1].quantity
  }

  lemma {:induction false} InferKeepsShares(o: Order, fills: seq<Fill>)
    ensures InferredShares(Infer(o, fills)) == Shares(fills)
    decreases |fills|
  {
    if fills != [] {
      InferKeepsShares(o, fills[..|fills| - 1]);
      assert Infer(o, fills)[..|fills| - 1] == Infer(o, fills[..|fills| - 1]);
    }
  }

  // What a settled order is promised: an owned row, its gap covered, and only a venue cancel or reject taken over.
  ghost predicate SettledBy(o: Order, r: Report, scopes: Scopes, share: Share) {
    && Owns(o, r, scopes)
    && InferredShares(share.inferred) as real >= r.filled - o.filled as real
    && (r.filled <= o.filled as real ==> share.inferred == [])
    && var ended := r.status in {Canceled, Rejected} && r.status != o.status;
       share.resolutions == if ended then [Resolution(o.id, r.status)] else []
  }

  /** Every open order is in exactly one class: skipped as recent, queried, or settled by a row it owns. The first two
      get no execution and no resolution, so an absent order is never ended; every resolution is a cancel or reject. */
  lemma PlanIsSafe(orders: seq<Order>, reports: seq<Report>, scopes: Scopes, cutoff: int, i: nat)
    requires UniqueOrders(orders) && i < |orders|
    ensures var o, share := orders[i], ShareOf(PlanFor(orders, reports, scopes, cutoff), orders[i].id);
            && share.skipped + share.queries <= 1
            && (share.skipped == 1 <==> Open(o.status) && Recent(o, cutoff))
            && (!Open(o.status) || share.skipped == 1 || share.queries == 1 ==>
                share.inferred == [] && share.resolutions == [])
            && (!Open(o.status) ==> share.queries == 0)
            && (Open(o.status) && share.skipped + share.queries == 0 ==>
                exists r <- reports :: SettledBy(o, r, scopes, share))
  {
    ShareIsOwn(orders, Deciding(reports, scopes, cutoff), i);
    DecisionIsSafe(orders[i], reports, scopes, cutoff);
  }

  // The same, for one order's own decision.
  lemma DecisionIsSafe(o: Order, reports: seq<Report>, scopes: Scopes, cutoff: int)
    ensures var d := Decide(o, reports, scopes, cutoff);
            && (d.Ignored? <==> !Open(o.status)) && (d.SkippedRecent? <==> Open(o.status) && Recent(o, cutoff))
            && (d.Settled? ==> d.report in reports && SettledBy(o, d.report, scopes, Due(o, d)))
  {
    CandidateIs(o, reports);
    var d := Decide(o, reports, scopes, cutoff);
    if d.Settled? { InferKeepsShares(o, d.fills); }
  }

  lemma {:induction false} PricedFillsAre(fills: seq<Fill>, f: Fill)
    ensures multiset(PricedFills(fills))[f] == if f.price.Some? && f.id != [] then multiset(fills)[f] else 0
    decreases |fills|
  {
    if fills != [] {
      var rest, last := fills[..|fills| - 1], fills[|fills| - 1];
      PricedFillsAre(rest, f);
      assert fills == rest + [last];
    }
  }

  lemma {:induction false} InferAt(o: Order, fills: seq<Fill>, k: nat)
    requires k < |fills|
    ensures Infer(o, fills)[k]
         == Inferred(o.id, o.symbol, o.side, fills[k].quantity, fills[k].price, fills[k].id)
    decreases |fills|
  {
    if k < |fills| - 1 { InferAt(o, fills[..|fills| - 1], k); }
  }

  // The executions of a row that carry a price and an id cover what the order is missing.
  predicate Covers(o: Order, r: Report) {
    r.filled <= o.filled as real || Shares(PricedFills(r.fills)) as real >= r.filled - o.filled as real
  }

  // The plan holds for the order exactly the row's priced executions, in the row's order, with the order's own id,
  // symbol
  // and side.
  ghost predicate InfersFrom(inferred: seq<Inferred>, o: Order, r: Report) {
    var priced := PricedFills(r.fills);
    && |inferred| == |priced|
    && forall k :: 0 <= k < |priced| ==>
         inferred[k] == Inferred(o.id, o.symbol, o.side, priced[k].quantity, priced[k].price, priced[k].id)
  }

  // What an order with this row is due: queried if its executions do not cover the gap; otherwise they are inferred if
  // there is a gap, and a cancel or reject that the order has not taken over is resolved.
  ghost predicate DueFor(share: Share, o: Order, r: Report) {
    if !Covers(o, r) then share == Share(0, 1, [], [])
    else
      && share.skipped == 0 && share.queries == 0
      && (if r.filled <= o.filled as real then share.inferred == [] else InfersFrom(share.inferred, o, r))
      && (var ended := r.status in {Canceled, Rejected} && r.status != o.status;
          share.resolutions == if ended then [Resolution(o.id, r.status)] else [])
  }

  lemma SettleExactly(o: Order, r: Report)
    ensures DueFor(Due(o, Settle(o, r)), o, r)
  {
    var priced := PricedFills(r.fills);
    forall k | 0 <= k < |priced|
      ensures Infer(o, priced)[k]
                == Inferred(o.id, o.symbol, o.side, priced[k].quantity, priced[k].price, priced[k].id) {
      InferAt(o, priced, k);
    }
    assert priced == [] ==> Shares(priced) == 0;
  }

  /** Exactly what the plan does with an open order that owns a row of the report and is not recent. */
  lemma OwnedOrderExactly(orders: seq<Order>, reports: seq<Report>, scopes: Scopes, cutoff: int, i: nat, r: Report)
    requires UniqueOrders(orders) && UniqueReports(reports) && i < |orders| && r in reports &&
             Owns(orders[i], r, scopes)
    requires Open(orders[i].status) && !(orders[i].updatedAt.Some? && orders[i].updatedAt.value > cutoff)
    ensures DueFor(ShareOf(PlanFor(orders, reports, scopes, cutoff), orders[i].id), orders[i], r)
  {
    ShareIsOwn(orders, Deciding(reports, scopes, cutoff), i);
    OwnedRowIsFound(orders[i], reports, r, scopes);
    SettleExactly(orders[i], r);
  }

  /** And with one that owns none: skipped while recent, queried otherwise. */
  lemma UnownedOrderExactly(orders: seq<Order>, reports: seq<Report>, scopes: Scopes, cutoff: int, i: nat)
    requires UniqueOrders(orders) && i < |orders| && Open(orders[i].status)
    requires forall r <- reports :: !Owns(orders[i], r, scopes)
    ensures var o := orders[i];
            var recent := o.updatedAt.Some? && o.updatedAt.value > cutoff;
            ShareOf(PlanFor(orders, reports, scopes, cutoff), o.id)
            == Share(if recent then 1 else 0, if recent then 0 else 1, [], [])
  {
    ShareIsOwn(orders, Deciding(reports, scopes, cutoff), i);
    CandidateIs(orders[i], reports);
  }

  /** An order with no owned row in the report is skipped or queried, whatever else the report holds. */
  lemma AbsentIsNeverEnded(orders: seq<Order>, reports: seq<Report>, scopes: Scopes, cutoff: int, i: nat)
    requires UniqueOrders(orders) && i < |orders| && Open(orders[i].status)
    requires forall r <- reports :: !Owns(orders[i], r, scopes)
    ensures var share := ShareOf(PlanFor(orders, reports, scopes, cutoff), orders[i].id);
            share.skipped + share.queries == 1 && share.inferred == [] && share.resolutions == []
  {
    PlanIsSafe(orders, reports, scopes, cutoff, i);
  }

  // ---- applying the inferred executions ----

  // Shares that storing the executions adds, when an id already stored (or stored a moment ago) adds nothing.
  function NewShares(fills: seq<Inferred>, known: set<string>): int
    decreases |fills|
  {
    if fills == [] then 0
    else if fills[0].fillId in known then NewShares(fills[1..], known)
    else fills[0].quantity + NewShares(fills[1..], known + {fills[0].fillId})
  }

  function KnownShares(fills: seq<Inferred>, known: set<string>): int
    decreases |fills|
  {
    if fills == [] then 0
    else if fills[0].fillId in known then fills[0].quantity + KnownShares(fills[1..], known)
    else KnownShares(fills[1..], known + {fills[0].fillId})
  }

  lemma {:induction false} SharesSplitByKnown(fills: seq<Inferred>, known: set<string>)
    ensures NewShares(fills, known) + KnownShares(fills, known) == InferredShares(fills)
    decreases |fills|
  {
    if fills != [] {
      SharesSplitByKnown(fills[1..], known);
      SharesSplitByKnown(fills[1..], known + {fills[0].fillId});
      FirstShare(fills);
    }
  }

  lemma {:induction false} FirstShare(fills: seq<Inferred>)
    requires fills != []
    ensures InferredShares(fills) == fills[0].quantity + InferredShares(fills[1..])
    decreases |fills|
  {
    if |fills| > 1 {
      FirstShare(fills[..|fills| - 1]);
      assert fills[..|fills| - 1][1..] == fills[1..][..|fills| - 2];
    } else {
      assert fills[..0] == [];
    }
  }

  lemma {:induction false} FreshAreAllNew(fills: seq<Inferred>, known: set<string>)
    requires forall k :: 0 <= k < |fills| ==> fills[k].fillId !in known
    requires forall j, k :: 0 <= j < k < |fills| ==> fills[j].fillId != fills[k].fillId
    ensures KnownShares(fills, known) == 0
    decreases |fills|
  {
    if fills != [] { FreshAreAllNew(fills[1..], known + {fills[0].fillId}); }
  }

  // By how much the executions listed for a settled order exceed the gap to the venue's level.
  function Surplus(o: Order, d: Decision): real
    requires d.Settled?
  {
    Shares(d.fills) as real - (d.report.filled - o.filled as real)
  }

  // The recorded shares reach the venue's level once the executions are applied.
  predicate Closes(o: Order, d: Decision, known: set<string>)
    requires d.Settled?
  {
    (o.filled + NewShares(Infer(o, d.fills), known)) as real >= d.report.filled
  }

  /** The gap test settles an order only with enough executions listed, but it counts those stored before as well. So
      for every settled order the gap closes if and only if the surplus is at least the listed shares stored already. */
  lemma GapClosesExactly(o: Order, reports: seq<Report>, scopes: Scopes, cutoff: int, known: set<string>)
    requires Decide(o, reports, scopes, cutoff).Settled?
    ensures var d := Decide(o, reports, scopes, cutoff);
            && Surplus(o, d) >= 0.0
            && (Closes(o, d, known) <==> KnownShares(Infer(o, d.fills), known) as real <= Surplus(o, d))
  {
    var d := Decide(o, reports, scopes, cutoff);
    SharesSplitByKnown(Infer(o, d.fills), known);
    InferKeepsShares(o, d.fills);
  }

  /** In particular it always closes when no listed execution is stored yet and none is listed twice. */
  lemma FreshExecutionsCloseTheGap(o: Order, reports: seq<Report>, scopes: Scopes, cutoff: int, known: set<string>)
    requires Decide(o, reports, scopes, cutoff).Settled?
    requires var fills := Infer(o, Decide(o, reports, scopes, cutoff).fills);
             && (forall k :: 0 <= k < |fills| ==> fills[k].fillId !in known)
             && (forall j, k :: 0 <= j < k < |fills| ==> fills[j].fillId != fills[k].fillId)
    ensures Closes(o, Decide(o, reports, scopes, cutoff), known)
  {
    GapClosesExactly(o, reports, scopes, cutoff, known);
    FreshAreAllNew(Infer(o, Decide(o, reports, scopes, cutoff).fills), known);
  }

  /** A row that lists only an execution stored before passes the test: its owner is settled as canceled at ten shares
      with five recorded, and applying the plan records nothing. */
  lemma OldExecutionPassesTheGapTest() returns (o: Order, r: Report)
    ensures Owns(o, r, map[]) && o.filled == 5 && r.filled == 10.0
    ensures var d := Decide(o, [r], map[], 0);
            && d.Settled? && d.resolution == Some(Canceled)
            && NewShares(Infer(o, d.fills), {"x"}) == 0 && !Closes(o, d, {"x"})
  {
    o := Order("o", Some("b"), "S", Buy, 10, 5, Limit, Some(1.0), PartiallyFilled, None);
    r := Report("b", Some("o"), "S", Buy, Canceled, 10.0, [Fill("x", 5, Some(1.0))], None, None, None, None, None,
                None, None,
                None, None, None, None, false);
    assert Candidate(o, [r]) == Some(r);
    OneFill(o, Fill("x", 5, Some(1.0)), {"x"});
  }

  lemma OneFill(o: Order, f: Fill, known: set<string>)
    requires Priced(f) && f.id in known
    ensures PricedFills([f]) == [f] && Shares([f]) == f.quantity && NewShares(Infer(o, [f]), known) == 0
  {
    assert [f][..0] == [];
    var inferred := Infer(o, [f]);
    assert inferred[0].fillId == f.id && inferred[1..] == [];
  }
}
