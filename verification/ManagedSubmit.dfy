/** Every managed submit first replays or writes the exact request for the current claim. Callers may read stale
    snapshots of the log, race one another, and lose a write or its reply; market data may differ every time. */
module ManagedSubmit {
  import opened Wrappers
  import opened Writes
  import opened Orders
  import opened ScopeEvents
  import opened ScopeLog

  datatype Order = Order(id: string, symbol: string, side: Side, quantity: int, orderType: OrderType,
                         limitPrice: Option<real>, session: Option<string>)

  // One request that reached the venue, and the claim it was sent under.
  datatype Send = Send(orderId: string, occurrence: nat, scope: Scope)

  predicate OwnerAgrees(scope: Scope, o: Order) {
    && scope.clientOrderId == o.id && scope.symbol == o.symbol && scope.side == o.side && scope.quantity == o.quantity
    && if DynamicType(o.side, o.orderType) then
         (scope.orderType == Market && scope.limitPrice == None)
         || (scope.orderType == Limit && scope.limitPrice.Some? && scope.limitPrice.value > 0.0)
       else scope.orderType == o.orderType && scope.limitPrice == o.limitPrice
  }

  function RenderScope(o: Order, extendedHours: Option<bool>, predecessor: Option<string>): Option<Scope> {
    if o.orderType == Market && (o.limitPrice.Some? || extendedHours != Some(false)) then None
    else if o.orderType == Limit && (o.limitPrice == None || o.limitPrice.value <= 0.0) then None
    else if extendedHours == None && predecessor == None then None
    else Some(Scope(o.id, o.symbol, o.side, o.quantity, o.orderType, o.limitPrice, extendedHours, UsEquity, Qty, Day,
                    Simple, predecessor))
  }

  function Views(log: seq<Event>): (r: seq<Entry>)
    ensures |r| == |log|
  {
    if log == [] then [] else Views(log[..|log| - 1]) + [View(log[|log| - 1])]
  }

  lemma {:induction false} ViewsAt(log: seq<Event>, i: nat)
    requires i < |log|
    ensures Views(log)[i] == View(log[i])
    decreases |log|
  {
    if i < |log| - 1 { ViewsAt(log[..|log| - 1], i); }
  }

  // Some stored event records exactly this request for this claim.
  ghost predicate Backed(log: seq<Event>, s: Send) {
    exists i :: 0 <= i < |log| && log[i].key == ScopeKey(s.orderId, s.occurrence) && Decode(log[i]) == Some(s.scope)
  }

  predicate UniqueKeys(log: seq<Event>) {
    forall i, j :: 0 <= i < j < |log| && log[i].key == log[j].key ==> log[i].key == NoKey
  }

  predicate Unkeyed(log: seq<Event>, key: Key) { forall i :: 0 <= i < |log| ==> log[i].key != key }

  lemma {:induction false} OfMembers(log: seq<Entry>, kind: Kind, id: string)
    ensures forall x <- Of(log, kind, id) :: x in log && x.event.kind == kind && x.event.orderId == Some(id)
    decreases |log|
  {
    if log != [] { OfMembers(log[..|log| - 1], kind, id); }
  }

  lemma {:induction false} IndexMembers(log: seq<Entry>, id: string)
    ensures forall x <- Index(log, id) :: x in log
    decreases |log|
  {
    if log != [] { IndexMembers(log[..|log| - 1], id); }
  }

  // What a reader finds in force, some stored event records under the latest claim.
  lemma InForceIsBacked(snapshot: seq<Event>, id: string, scope: Scope)
    requires Accepts(Index(Views(snapshot), id)) && Current(Index(Views(snapshot), id), id) == Some(scope)
    ensures |Claims(Index(Views(snapshot), id), id)| > 0
    ensures Backed(snapshot, Send(id, |Claims(Index(Views(snapshot), id), id)| - 1, scope))
  {
    var views := Views(snapshot);
    var events := Index(views, id);
    ReadersAgree(events, id);
    OfMembers(events, VenueScope, id);
    IndexMembers(views, id);
    var scopes, n := Scopes(events, id), |Claims(events, id)| - 1;
    var k :| 0 <= k < |scopes| && scopes[k].read.scope == Some(scope) && scopes[k].read.occurrence == n;
    var i :| 0 <= i < |views| && views[i] == scopes[k];
    ViewsAt(snapshot, i);
    ReadableIsKeyed(snapshot[i], id);
  }

  // The order's latest claim in a snapshot and the scope in force under it; None when the history is refused.
  datatype Reading = Reading(existing: Option<Scope>, claim: Option<(nat, Event)>)

  method ReadCurrent(snapshot: seq<Event>, id: string) returns (r: Option<Reading>)
    ensures r.Some? && r.value.existing.Some? ==>
              r.value.claim.Some? && Backed(snapshot, Send(id, r.value.claim.value.0, r.value.existing.value))
    ensures r.Some? <==> Accepts(Index(Views(snapshot), id))
    ensures r.Some? ==> r.value.existing == Current(Index(Views(snapshot), id), id)
    ensures r.Some? ==> r.value.claim == Latest(Index(Views(snapshot), id), id)
  {
    var events := Index(Views(snapshot), id);
    var scopes := VenueOrderScopeMap(events);
    if scopes == None { return None; }
    var claim := LatestClaim(events, id);
    r := Some(Reading(Lookup(scopes.value, id), claim));
    if r.value.existing.Some? { InForceIsBacked(snapshot, id, r.value.existing.value); }
  }

  function Latest(events: seq<Entry>, id: string): Option<(nat, Event)> {
    var claims := Claims(events, id);
    if claims == [] then None else Some((|claims| - 1, claims[|claims| - 1].event))
  }

  // The latest claim of an order in an accepted history, with its number.
  method LatestClaim(events: seq<Entry>, id: string) returns (claim: Option<(nat, Event)>)
    requires Accepts(events)
    ensures claim == Latest(events, id)
  {
    ReadersAgree(events, id);
    var current := CurrentClaimOccurrence(events, id);
    if current.value == None { return None; }
    claim := Some((current.value.value, Claims(events, id)[current.value.value].event));
  }

  datatype Session = Regular | PreMarket | AfterHours | Closed

  // How market data renders the order right now; None holds it for this tick.
  function Effective(o: Order, session: Session, price: Option<real>): Option<Order> {
    if !DynamicType(o.side, o.orderType) || session == Regular then Some(o)
    else if price == None then None
    else Some(o.(orderType := Limit, limitPrice := price))
  }

  function Extended(o: Order, session: Session): bool {
    o.orderType == Limit && (session == PreMarket || session == AfterHours)
  }

  class ScopeStore {
    var log: seq<Event>
    ghost var sends: seq<Send>
    ghost var alone: bool   // nobody else has written meanwhile, and every read was current

    ghost predicate Valid() reads this {
      UniqueKeys(log) && forall k :: 0 <= k < |sends| ==> Backed(log, sends[k])
    }

    constructor ()
      ensures Valid() && log == [] && sends == [] && alone
    {
      log, sends, alone := [], [], true;
    }

    /** Append under a dedupe key: a repeat answers with the stored event and writes nothing. None is a failed call. */
    method Append(e: Event, fault: Fault) returns (r: Option<Event>)
      requires Valid() && e.key != NoKey
      modifies this`log
      ensures Valid() && old(log) <= log && |log| <= |old(log)| + 1
      ensures r.Some? <==> fault == Commit
      ensures r.Some? ==> r.value in log && r.value.key == e.key
      ensures fault == Commit && Unkeyed(old(log), e.key) ==> r == Some(e)
    {
      if i :| 0 <= i < |log| && log[i].key == e.key {
        return if fault == Commit then Some(log[i]) else None;
      }
      ghost var before := log;
      if fault != Lost { log := log + [e]; }
      forall k | 0 <= k < |sends| ensures Backed(log, sends[k]) { BackedGrows(before, log, sends[k]); }
      r := if fault == Commit then Some(e) else None;
    }

    // Other actors write, in any way and any number of times, between two calls.
    method Interfere()
      requires Valid()
      modifies this`log, this`alone
      ensures Valid() && old(log) <= log && (alone ==> old(alone) && log == old(log))
    {
      var events: seq<Event> := *;
      alone := alone && events == [];
      for i := 0 to |events|
        invariant Valid() && old(log) <= log && (alone ==> old(alone) && log == old(log) && events == [])
      {
        var fault: Fault := *;
        if events[i].key != NoKey { var _ := Append(events[i], fault); }
      }
    }

    // A read, possibly of an older state of the log.
    method Snapshot() returns (snapshot: seq<Event>)
      modifies this`alone
      ensures snapshot <= log && (alone ==> old(alone) && snapshot == log)
    {
      var n: int := *;
      snapshot := if 0 <= n <= |log| then log[..n] else log;
      alone := alone && snapshot == log;
    }

    /** Replay the request in force for the snapshot's claim, or write this one first. Either way the answer is
        what the log holds for that claim, or nothing is answered. */
    method GetOrRecord(o: Order, rendered: Order, extendedHours: Option<bool>, predecessor: Option<string>,
                       snapshot: seq<Event>, fault: Fault)
      returns (r: Option<Send>)
      requires Valid() && snapshot <= log
      modifies this`log, this`alone
      ensures Valid() && old(log) <= log
      ensures r.Some? ==> r.value.orderId == o.id && Backed(log, r.value) && r.value.scope.predecessor == predecessor
      ensures alone ==> old(alone)
      ensures alone && snapshot == old(log) && fault == Commit && Fresh(old(log), o)
              && RenderScope(rendered, extendedHours, predecessor).Some?
              && Sendable(o.id, RenderScope(rendered, extendedHours, predecessor).value) ==>
                r == Some(Send(o.id, ClaimNumber(old(log), o.id),
                               RenderScope(rendered, extendedHours, predecessor).value))
    {
      var reading := ReadCurrent(snapshot, o.id);
      if reading == None || reading.value.claim == None { return None; }
      var (occurrence, claim) := reading.value.claim.value;
      if !ClaimFits(claim, o) { return None; }
      var existing := reading.value.existing;
      if existing.Some? {
        if !OwnerAgrees(existing.value, o) || existing.value.predecessor != predecessor { return None; }
        r := Some(Send(o.id, occurrence, existing.value));
        BackedGrows(snapshot, log, r.value);
        return;
      }
      Interfere();
      r := Record(o, rendered, extendedHours, predecessor, occurrence, fault);
    }

    // The write-ahead half: what the store answers must read back as the request about to be sent.
    method Record(o: Order, rendered: Order, extendedHours: Option<bool>, predecessor: Option<string>, occurrence: nat,
                  fault: Fault)
      returns (r: Option<Send>)
      requires Valid()
      modifies this`log
      ensures Valid() && old(log) <= log && alone == old(alone)
      ensures r.Some? ==>
              r.value.orderId == o.id && r.value.occurrence == occurrence && Backed(log, r.value) &&
                  r.value.scope.predecessor == predecessor
      ensures var scope := RenderScope(rendered, extendedHours, predecessor);
              fault == Commit && Unkeyed(old(log), ScopeKey(o.id, occurrence)) && scope.Some? &&
                  Sendable(o.id, scope.value) ==>
                r == Some(Send(o.id, occurrence, scope.value))
    {
      var scope := RenderScope(rendered, extendedHours, predecessor);
      if scope == None { return None; }
      RoundTrip(o.id, o.session, occurrence, scope.value);
      var stored := Append(Encode(o.id, o.session, occurrence, scope.value), fault);
      if stored == None { return None; }
      if Decode(stored.value) != scope { return None; }
      r := Some(Send(o.id, occurrence, scope.value));
    }

    // Replay what the first read finds in force, otherwise render the order now and go through the log.
    method Prepare(o: Order, session: Session, price: Option<real>, fault: Fault) returns (r: Option<Send>)
      requires Valid()
      modifies this`log, this`alone
      ensures Valid() && old(log) <= log
      ensures r.Some? ==> r.value.orderId == o.id && Backed(log, r.value)
      ensures alone ==> old(alone)
      ensures alone && InForce(old(log), o.id).Some? ==>
                r == Some(Send(o.id, ClaimNumber(old(log), o.id), InForce(old(log), o.id).value)) && log == old(log)
      ensures alone && fault == Commit && Fresh(old(log), o) && Rendering(o, session, price).Some?
              && Sendable(o.id, Rendering(o, session, price).value) ==>
                r == Some(Send(o.id, ClaimNumber(old(log), o.id), Rendering(o, session, price).value))
    {
      Interfere();
      var first := Snapshot();
      var reading := ReadCurrent(first, o.id);
      if reading == None { return None; }
      if reading.value.existing.Some? {
        r := Some(Send(o.id, reading.value.claim.value.0, reading.value.existing.value));
        BackedGrows(first, log, r.value);
        return;
      }
      var effective := Effective(o, session, price);
      if effective == None { return None; }
      Interfere();
      var second := Snapshot();
      r := GetOrRecord(o, effective.value, Some(Extended(effective.value, session)), None, second, fault);
    }

    /** One managed submit attempt. Whatever the snapshots, faults, other writers and market data, two requests sent
        under one claim are the same request. With nobody else at work it sends the request in force if there is one,
        and otherwise today's rendering of the order. */
    method Submit(o: Order, session: Session, price: Option<real>, fault: Fault) returns (r: Option<Send>)
      requires Valid()
      modifies this
      ensures Valid() && old(log) <= log
      ensures sends == if r.Some? then old(sends) + [r.value] else old(sends)
      ensures r.Some? ==> r.value.orderId == o.id && OwnerAgrees(r.value.scope, o)
      ensures alone && InForce(old(log), o.id).Some? && OwnerAgrees(InForce(old(log), o.id).value, o) ==>
                r == Some(Send(o.id, ClaimNumber(old(log), o.id), InForce(old(log), o.id).value)) && log == old(log)
      ensures alone && fault == Commit && Fresh(old(log), o) && Rendering(o, session, price).Some?
              && Sendable(o.id, Rendering(o, session, price).value) &&
                  OwnerAgrees(Rendering(o, session, price).value, o) ==>
                r == Some(Send(o.id, ClaimNumber(old(log), o.id), Rendering(o, session, price).value))
    {
      r := Prepare(o, session, price, fault);
      if r == None || !OwnerAgrees(r.value.scope, o) { return None; }
      sends := sends + [r.value];
    }
  }

  predicate ClaimFits(claim: Event, o: Order) {
    claim.symbol == Some(o.symbol) && claim.side == Some(o.side) && claim.session == o.session
  }

  function ClaimNumber(log: seq<Event>, id: string): nat {
    var claim := Latest(Index(Views(log), id), id);
    if claim.Some? then claim.value.0 else 0
  }

  // The request in force for an order, where its history is accepted.
  ghost function InForce(log: seq<Event>, id: string): Option<Scope> {
    if Accepts(Index(Views(log), id)) then Current(Index(Views(log), id), id) else None
  }

  // The order has an accepted history whose latest claim fits it, and nothing is recorded under that claim.
  ghost predicate Fresh(log: seq<Event>, o: Order) {
    var events := Index(Views(log), o.id);
    && Accepts(events) && Current(events, o.id) == None && Latest(events, o.id).Some?
    && ClaimFits(Latest(events, o.id).value.1, o) && Unkeyed(log, ScopeKey(o.id, ClaimNumber(log, o.id)))
  }

  // Today's rendering of an order as a request.
  function Rendering(o: Order, session: Session, price: Option<real>): Option<Scope> {
    var effective := Effective(o, session, price);
    if effective == None then None else RenderScope(effective.value, Some(Extended(effective.value, session)), None)
  }

  lemma BackedGrows(before: seq<Event>, log: seq<Event>, s: Send)
    requires Backed(before, s) && before <= log
    ensures Backed(log, s)
  {
    var i :| 0 <= i < |before| && before[i].key == ScopeKey(s.orderId, s.occurrence) &&
        Decode(before[i]) == Some(s.scope);
    assert log[i] == before[i];
  }

  /** Within one claim occurrence every request ever sent has the same type, price, quantity and predecessor. */
  lemma SameClaimSameRequest(log: seq<Event>, s: Send, t: Send)
    requires UniqueKeys(log) && Backed(log, s) && Backed(log, t)
    requires s.orderId == t.orderId && s.occurrence == t.occurrence
    ensures s == t
  {
    var i :| 0 <= i < |log| && log[i].key == ScopeKey(s.orderId, s.occurrence) && Decode(log[i]) == Some(s.scope);
    var j :| 0 <= j < |log| && log[j].key == ScopeKey(t.orderId, t.occurrence) && Decode(log[j]) == Some(t.scope);
    assert i == j;
  }

  /** What a fresh managed submit records and sends: the order as it stands, or for a protective market sell outside
      regular hours a limit at the live price; extended hours exactly for a limit before or after the regular
      session. */
  lemma RenderedExactly(o: Order, session: Session, price: Option<real>)
    requires o.orderType == Market ==> o.limitPrice == None
    requires o.orderType == Limit ==> o.limitPrice.Some? && o.limitPrice.value > 0.0
    requires price.Some? ==> price.value > 0.0
    ensures var protective := o.side == Sell && o.orderType == Market && session != Regular;
            var sent := Rendering(o, session, price);
            && (sent == None <==> protective && price == None)
            && (sent.Some? ==>
                  && sent.value.clientOrderId == o.id && sent.value.symbol == o.symbol
                  && sent.value.side == o.side && sent.value.quantity == o.quantity && sent.value.predecessor == None
                  && sent.value.orderType == (if protective then Limit else o.orderType)
                  && sent.value.limitPrice == (if protective then price else o.limitPrice)
                  && sent.value.extendedHours == Some(sent.value.orderType == Limit &&
                                                      session in {PreMarket, AfterHours})
                  && sent.value.assetClass == UsEquity && sent.value.quantityMode == Qty
                  && sent.value.timeInForce == Day && sent.value.orderClass == Simple)
  {
  }

  /** A request may be sent for an order only if it names it and has its symbol, side and quantity, and its type and
      price: its own, or for a protective market sell a market request without a price or a limit at a positive one. */
  lemma OwnerAgreesExactly(scope: Scope, o: Order)
    ensures OwnerAgrees(scope, o)
       <==> (scope.clientOrderId, scope.symbol, scope.side, scope.quantity) == (o.id, o.symbol, o.side, o.quantity)
            && (if o.side == Sell && o.orderType == Market
                then match scope.orderType
                  case Market => scope.limitPrice == None
                  case Limit => scope.limitPrice.Some? && scope.limitPrice.value > 0.0
                  case TrailingStop => false
                else (scope.orderType, scope.limitPrice) == (o.orderType, o.limitPrice))
  {
  }

  /** Today's rendering of a well-formed order is always one that may be sent for it. */
  lemma RenderingAgrees(o: Order, session: Session, price: Option<real>)
    requires o.orderType == Market ==> o.limitPrice == None
    requires price.Some? ==> price.value > 0.0
    requires Rendering(o, session, price).Some?
    ensures OwnerAgrees(Rendering(o, session, price).value, o)
  {
  }

  /** A request cannot be rendered exactly for a market order with a price or outside regular hours, a limit order
      without a positive price, or hours left open on anything but a replacement. */
  lemma RenderRefusedExactly(o: Order, hours: Option<bool>, predecessor: Option<string>)
    ensures RenderScope(o, hours, predecessor) == None <==>
            || (o.orderType == Market && !(o.limitPrice == None && hours == Some(false)))
            || (o.orderType == Limit && !(o.limitPrice.Some? && o.limitPrice.value > 0.0))
            || (hours == None && predecessor == None)
  {
  }

  /** The store's claim fits exactly the orders with its symbol, side and session. */
  lemma StoreClaimFits(id: string, symbol: string, side: Side, session: Option<string>, n: nat, o: Order)
    ensures ClaimFits(StoreClaim(id, symbol, side, session, n), o) <==>
            (o.symbol, o.side, o.session) == (symbol, side, session)
  {
  }
}
