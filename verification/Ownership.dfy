/** Once the venue has accepted an order, its exact (order, broker id) pair must keep a durable owner: the order row, a
    recovery row, or at the very least a fallback fact that later repair turns into one of those. Every store call may
    be lost, may commit and lose its reply, or may be cancelled, and other actors write between any two calls. */
module Ownership {
  import opened Wrappers
  import opened Text
  import opened Orders
  import opened Uncertainty

  datatype State = State(orders: map<string, Order>, recoveries: map<(string, string), Recovery>, facts: seq<Fact>)

  // How one store call ends. A write that is not answered may or may not have happened.
  datatype Fault = Commit | CommitThenRaise | Lost | CommitThenCancel | LostToCancel

  datatype Reply = Done | Raised | Cancelled

  function ReplyOf(f: Fault): Reply {
    match f
    case Commit => Done
    case CommitThenRaise => Raised
    case Lost => Raised
    case CommitThenCancel => Cancelled
    case LostToCancel => Cancelled
  }

  predicate Commits(f: Fault) { f == Commit || f == CommitThenRaise || f == CommitThenCancel }

  predicate Owned(s: State, orderId: string, brokerId: string) {
    OwnedPair(orderId, brokerId, s.orders, s.recoveries.Keys)
  }

  // Rows are kept under their own id, and hold a venue id without surrounding whitespace.
  predicate WellKept(s: State) {
    forall id <- s.orders ::
        s.orders[id].id == id && (s.orders[id].brokerId.Some? ==> Normal(s.orders[id].brokerId.value))
  }

  // ---- what any actor may do to the store ----

  datatype Update =
    | Open(order: Order)                                                                    // a new order, not sent yet
    | Claim(orderId: string)                                                                // CREATED -> SUBMITTING
    | Move(orderId: string, target: Status, filled: Option<int>, brokerId: Option<string>)  // any other transition
    | Recover(order: Order, venueId: string, rowId: string)
    | Settle(pair: (string, string), open: bool)                                            // its cleanup status
    | Record(fact: Fact)

  function RowOf(o: Order): Row { Row(o.status, o.filled, o.quantity, o.brokerId) }

  function Applied(o: Order, row: Row): Order {
    o.(status := row.status, filled := row.filled, brokerId := row.brokerId)
  }

  function StripId(id: Option<string>): Option<string> { if id.Some? then Some(Strip(id.value)) else None }

  // Another order's row, recovery or canonical fact already holds this venue id.
  predicate Conflict(s: State, orderId: string, brokerId: string) {
    brokerId != [] &&
    (|| (exists id <- s.orders :: id != orderId && s.orders[id].brokerId == Some(brokerId))
     || (exists pair <- s.recoveries :: pair.0 != orderId && pair.1 == brokerId)
     || (exists f <- s.facts :: f.orderId.Some? && f.orderId.value != orderId && f.orderId.value in s.orders
                             && CanonicalId(f, Some(s.orders[f.orderId.value])) == Some(brokerId)))
  }

  function NewRecovery(o: Order, brokerId: string, rowId: string): Recovery {
    Recovery(rowId, o.id, brokerId, o.side, o.quantity, o.limitPrice, true, o.symbol, o.id, o.session)
  }

  // The recovery row speaks for this very order under this very venue id.
  predicate RecoveryOf(r: Recovery, o: Order, brokerId: string) {
    && r.orderId == o.id && r.brokerId == brokerId && r.clientId == o.id && r.symbol == o.symbol && r.side == o.side
    && r.quantity == o.quantity && r.limitPrice == o.limitPrice && r.session == o.session
  }

  /** The store's answer to an update: the next state, or a refusal that changes nothing. */
  function Try(s: State, u: Update): Option<State> {
    match u
    case Open(o) => if o.id in s.orders || o.brokerId.Some? then None else Some(s.(orders := s.orders[o.id := o]))
    case Claim(id) =>
      if id !in s.orders || s.orders[id].status != Created then None
      else Some(s.(orders := s.orders[id := s.orders[id].(status := Submitting)]))
    case Move(id, target, filled, brokerId) =>
      if id !in s.orders || (brokerId.Some? && Conflict(s, id, Strip(brokerId.value))) then None
      else
        var plan := PlanTransition(RowOf(s.orders[id]), target, filled, StripId(brokerId));
        if plan.Err? then None else Some(s.(orders := s.orders[id := Applied(s.orders[id], plan.value)]))
    case Recover(o, brokerId, rowId) =>
      var pair := (o.id, Strip(brokerId));
      if o.id in s.orders && (s.orders[o.id].symbol != o.symbol || s.orders[o.id].side != o.side) then None
      else if Conflict(s, o.id, pair.1) then None
      else if pair in s.recoveries then (if RecoveryOf(s.recoveries[pair], o, pair.1) then Some(s) else None)
      else Some(s.(recoveries := s.recoveries[pair := NewRecovery(o, pair.1, rowId)]))
    case Settle(pair, open) =>
      if pair !in s.recoveries then None
      else Some(s.(recoveries := s.recoveries[pair := s.recoveries[pair].(open := open)]))
    case Record(f) => if Stored(s, f.key).Some? then Some(s) else Some(s.(facts := s.facts + [f]))
  }

  /** A recovery is refused exactly when the order's row has another symbol or side, another order holds the id, or the
      pair's row says something else of the order; a new row speaks for the order and is open. */
  lemma RecoveryRefusedExactly(s: State, o: Order, brokerId: string, rowId: string)
    ensures var pair := (o.id, Strip(brokerId));
            Try(s, Recover(o, brokerId, rowId)) == None <==>
            || (o.id in s.orders && (s.orders[o.id].symbol != o.symbol || s.orders[o.id].side != o.side))
            || Conflict(s, o.id, pair.1)
            || (pair in s.recoveries &&
                var r := s.recoveries[pair];
                || r.orderId != o.id || r.brokerId != pair.1 || r.clientId != o.id
                || r.symbol != o.symbol || r.side != o.side
                || r.quantity != o.quantity || r.limitPrice != o.limitPrice || r.session != o.session)
    ensures var pair, next := (o.id, Strip(brokerId)), Try(s, Recover(o, brokerId, rowId));
            next.Some? ==>
              && next.value.orders == s.orders && next.value.facts == s.facts
              && pair in next.value.recoveries && RecoveryOf(next.value.recoveries[pair], o, pair.1)
              && next.value.recoveries - {pair} == s.recoveries - {pair}
              && (if pair in s.recoveries then next.value == s else next.value.recoveries[pair].open)
  {
  }

  // The fact already stored under a dedupe key.
  function Stored(s: State, key: Key): Option<Fact> { if key == OtherKey then None else FirstKeyed(s.facts, key) }

  function FirstKeyed(facts: seq<Fact>, key: Key): (r: Option<Fact>)
    ensures r.Some? ==> r.value in facts && r.value.key == key
    ensures r == None ==> forall f <- facts :: f.key != key
  {
    if facts == [] then None else if facts[0].key == key then Some(facts[0]) else FirstKeyed(facts[1..], key)
  }

  // A canonical fact speaks for the pair.
  ghost predicate FactNames(s: State, orderId: string, brokerId: string) {
    orderId in s.orders &&
    exists f <- s.facts :: f.orderId == Some(orderId) && CanonicalId(f, Some(s.orders[orderId])) == Some(brokerId)
  }

  /** An id is refused to an order exactly when another order owns it or is named with it by a canonical fact. */
  lemma ConflictExactly(s: State, orderId: string, brokerId: string)
    ensures Conflict(s, orderId, brokerId)
       <==> brokerId != [] && exists other ::
              other != orderId && (Owned(s, other, brokerId) || FactNames(s, other, brokerId))
  {
    if Conflict(s, orderId, brokerId) {
      if id :| id in s.orders && id != orderId && s.orders[id].brokerId == Some(brokerId) {
        assert Owned(s, id, brokerId);
      } else if pair :| pair in s.recoveries && pair.0 != orderId && pair.1 == brokerId {
        assert Owned(s, pair.0, brokerId);
      } else {
        var f :| f in s.facts && f.orderId.Some? && f.orderId.value != orderId && f.orderId.value in s.orders
                 && CanonicalId(f, Some(s.orders[f.orderId.value])) == Some(brokerId);
        assert FactNames(s, f.orderId.value, brokerId);
      }
    }
    if other :| other != orderId && brokerId != [] && (Owned(s, other, brokerId) || FactNames(s, other, brokerId)) {
      assert (other, brokerId) in s.recoveries ==> Conflict(s, orderId, brokerId);
    }
  }

  /** A move is refused exactly for an unknown order, an id held elsewhere, a missing edge, a SUBMITTED without a
      concrete id, another id than the concrete one held, or a filled count that falls or exceeds the order; otherwise
      that row alone takes the status, the count and the stripped id it was given. */
  lemma MoveExactly(s: State, id: string, target: Status, filled: Option<int>, brokerId: Option<string>)
    ensures Try(s, Move(id, target, filled, brokerId)) == None <==>
            || id !in s.orders
            || (brokerId.Some? && Conflict(s, id, Strip(brokerId.value)))
            || var o := s.orders[id];
               || (target != o.status && target !in Next(o.status))
               || (target == Submitted && o.status != Submitted
                   && if brokerId.Some? then Strip(brokerId.value) == [] else !HasConcreteId(o.brokerId))
               || (HasConcreteId(o.brokerId) && brokerId.Some? && o.brokerId.value != Strip(brokerId.value))
               || (filled.Some? && !(0 <= filled.value <= o.quantity && o.filled <= filled.value))
    ensures var next := Try(s, Move(id, target, filled, brokerId));
            next.Some? ==>
              && id in s.orders
              && next.value.recoveries == s.recoveries && next.value.facts == s.facts
              && next.value.orders == s.orders[id := s.orders[id].(
                   status := target,
                   filled := if filled.Some? then filled.value else s.orders[id].filled,
                   brokerId := if brokerId.Some? then Some(Strip(brokerId.value)) else s.orders[id].brokerId)]
  {
    if id in s.orders {
      RefusedExactly(RowOf(s.orders[id]), target, filled, StripId(brokerId));
    }
  }

  /** What the other updates do: only an unknown order without a venue id is opened, only a CREATED order is claimed,
      only an existing recovery changes its cleanup status, and each changes nothing else. */
  lemma UpdatesExactly(s: State, o: Order, id: string, pair: (string, string), open: bool)
    ensures Try(s, Open(o))
         == if o.id !in s.orders && o.brokerId == None then Some(s.(orders := s.orders[o.id := o])) else None
    ensures Try(s, Claim(id)).Some? <==> id in s.orders && s.orders[id].status == Created
    ensures Try(s, Claim(id)).Some? ==>
              Try(s, Claim(id)).value == s.(orders := s.orders[id := s.orders[id].(status := Submitting)])
    ensures Try(s, Settle(pair, open)).Some? <==> pair in s.recoveries
    ensures Try(s, Settle(pair, open)).Some? ==>
              Try(s, Settle(pair, open)).value
              == s.(recoveries := s.recoveries[pair := s.recoveries[pair].(open := open)])
  {
  }

  function Apply(s: State, u: Update): State { if Try(s, u).Some? then Try(s, u).value else s }

  function ApplyAll(s: State, us: seq<Update>): State
    decreases |us|
  {
    if us == [] then s else ApplyAll(Apply(s, us[0]), us[1..])
  }

  // ---- what no actor undoes ----

  /** Rows stay and keep their immutable scope and a concrete venue id; recoveries stay as they are but for their
      cleanup status; facts stay. */
  predicate Evolves(a: State, b: State) {
    && (forall id <- a.orders :: id in b.orders && SameScope(a.orders[id], b.orders[id])
                               && (HasConcreteId(a.orders[id].brokerId) ==>
                                   b.orders[id].brokerId == a.orders[id].brokerId))
    && (forall pair <- a.recoveries ::
          pair in b.recoveries && b.recoveries[pair] == a.recoveries[pair].(open := b.recoveries[pair].open))
    && a.facts <= b.facts
    && (WellKept(a) ==> WellKept(b))
  }

  lemma EvolvesTransitively(a: State, b: State, c: State)
    requires Evolves(a, b) && Evolves(b, c)
    ensures Evolves(a, c)
  {
  }

  lemma MoveEvolves(s: State, u: Update)
    requires u.Move?
    ensures Evolves(s, Apply(s, u))
  {
    if u.brokerId.Some? { NormalIsFixed(u.brokerId.value); }
  }

  /** Every single update of the store keeps all that. */
  lemma UpdateEvolves(s: State, u: Update)
    ensures Evolves(s, Apply(s, u))
  {
    if u.Move? { MoveEvolves(s, u); }
  }

  /** So does every run of updates, by whatever actors. */
  lemma {:induction false} RunEvolves(s: State, us: seq<Update>)
    ensures Evolves(s, ApplyAll(s, us))
    decreases |us|
  {
    if us != [] {
      UpdateEvolves(s, us[0]);
      RunEvolves(Apply(s, us[0]), us[1..]);
      EvolvesTransitively(s, Apply(s, us[0]), ApplyAll(s, us));
    }
  }

  /** A concrete pair once owned stays owned, over every run of updates. */
  lemma OwnershipIsDurable(s: State, us: seq<Update>, orderId: string, brokerId: string)
    requires !Blank(brokerId) && Owned(s, orderId, brokerId)
    ensures Owned(ApplyAll(s, us), orderId, brokerId)
  {
    RunEvolves(s, us);
    OwnedStays(s, ApplyAll(s, us), orderId, brokerId);
  }

  lemma OwnedStays(a: State, b: State, orderId: string, brokerId: string)
    requires Evolves(a, b) && !Blank(brokerId) && Owned(a, orderId, brokerId)
    ensures Owned(b, orderId, brokerId)
  {
  }

  // ---- one order per venue id ----

  /** All owners of a venue id belong to one order. */
  ghost predicate OneOwner(s: State) {
    forall a, b, brokerId :: Owned(s, a, brokerId) && Owned(s, b, brokerId) && brokerId != [] ==> a == b
  }

  // An update makes at most one new owner, of an id that no other order holds.
  lemma NewOwner(s: State, u: Update, orderId: string, brokerId: string)
    requires Owned(Apply(s, u), orderId, brokerId) && !Owned(s, orderId, brokerId) && brokerId != []
    ensures forall other :: other != orderId ==> !Owned(s, other, brokerId) && !Owned(Apply(s, u), other, brokerId)
  {
    assert !Conflict(s, orderId, brokerId);
  }

  /** The store's conflict check keeps it so: over every run of updates no venue id is owned by two orders. */
  lemma UpdateKeepsOneOwner(s: State, u: Update)
    requires OneOwner(s)
    ensures OneOwner(Apply(s, u))
  {
    var next := Apply(s, u);
    forall a, b, brokerId | Owned(next, a, brokerId) && Owned(next, b, brokerId) && brokerId != [] ensures a == b {
      if !Owned(s, a, brokerId) {
        NewOwner(s, u, a, brokerId);
      } else if !Owned(s, b, brokerId) {
        NewOwner(s, u, b, brokerId);
      }
    }
  }

  lemma {:induction false} OneOwnerForEver(s: State, us: seq<Update>)
    requires OneOwner(s)
    ensures OneOwner(ApplyAll(s, us))
    decreases |us|
  {
    if us != [] {
      UpdateKeepsOneOwner(s, us[0]);
      OneOwnerForEver(Apply(s, us[0]), us[1..]);
    }
  }

  // ---- the protocol ----

  ghost predicate Recorded(s: State, o: Order, brokerId: string) {
    exists k :: 0 <= k < |s.facts| && CanonicalId(s.facts[k], Some(o)) == Some(brokerId)
  }

  // Statuses that poll or cancel by the row's own venue id.
  predicate Tracks(o: Option<Order>, brokerId: string) {
    o.Some? && o.value.brokerId == Some(brokerId) &&
        o.value.status in {Submitted, PartiallyFilled, CancelPending, Filled}
  }

  // Nobody else holds the id, no recovery row holds the pair yet, and the caller's copy agrees with the row.
  predicate Unclaimed(s: State, o: Order, brokerId: string) {
    && (o.id, brokerId) !in s.recoveries && !Conflict(s, o.id, brokerId)
    && (o.id in s.orders ==> s.orders[o.id].symbol == o.symbol && s.orders[o.id].side == o.side)
  }

  predicate RowOwns(s: State, orderId: string, brokerId: string) {
    orderId in s.orders && s.orders[orderId].brokerId == Some(brokerId)
  }

  predicate LedgerOwns(s: State, o: Order, brokerId: string) {
    (o.id, brokerId) in s.recoveries && RecoveryOf(s.recoveries[(o.id, brokerId)], o, brokerId)
  }

  // The row already polls or cancels by this very id.
  predicate LiveUnder(s: State, orderId: string, brokerId: string) {
    RowOwns(s, orderId, brokerId) && s.orders[orderId].status in {Submitted, PartiallyFilled, CancelPending, Filled}
  }

  // A claimed row without an id, and nobody else holds this one.
  predicate Adoptable(s: State, orderId: string, brokerId: string) {
    && orderId in s.orders && s.orders[orderId].status == Submitting && s.orders[orderId].brokerId == None
    && brokerId != [] && Normal(brokerId) && !Conflict(s, orderId, brokerId)
  }

  // The row is SUBMITTED under the id, and nothing else is different.
  function Adopted(s: State, orderId: string, brokerId: string): State
    requires orderId in s.orders
  {
    s.(orders := s.orders[orderId := s.orders[orderId].(status := Submitted, brokerId := Some(brokerId))])
  }

  lemma AdoptableIsTaken(s: State, id: string, brokerId: string)
    requires Adoptable(s, id, Strip(brokerId))
    ensures Try(s, Move(id, Submitted, None, Some(brokerId))) == Some(Adopted(s, id, Strip(brokerId)))
  {
    NormalIsFixed(brokerId);
    NormalIsFixed(Strip(brokerId));
    RefusedExactly(RowOf(s.orders[id]), Submitted, None, Some(Strip(brokerId)));
    ReachedFrom(Submitting);
  }

  // A fact in the engine's shape whose pair is owned already or free to be.
  predicate Repairable(s: State, f: Fact) {
    && Names(f) && f.orderId.value in s.orders
    && var o := s.orders[f.orderId.value];
       var id := CanonicalId(f, Some(o));
       id.Some? && (Owned(s, o.id, id.value) || Unclaimed(s, o, id.value))
  }

  predicate IsRecover(u: Update, o: Order, brokerId: string) { u.Recover? && u.order == o && u.venueId == brokerId }

  // The last write attempted is the engine's own fact for the pair.
  predicate EndsInFact(tried: seq<Update>, o: Order, brokerId: string) {
    tried != [] && var u := tried[|tried| - 1]; u.Record? && u.fact == FallbackFact(u.fact.id, o, brokerId)
  }

  // Since `from` a recovery row was attempted, and the fact last of all unless there is no id to put in it.
  ghost predicate TriedBoth(tried: seq<Update>, from: nat, o: Order, brokerId: string) {
    && (exists i :: from <= i < |tried| && IsRecover(tried[i], o, brokerId))
    && (Strip(brokerId) != [] ==> EndsInFact(tried, o, Strip(brokerId)))
  }

  lemma TriedBothLater(tried: seq<Update>, from: nat, earlier: nat, o: Order, brokerId: string)
    requires TriedBoth(tried, from, o, brokerId) && earlier <= from
    ensures TriedBoth(tried, earlier, o, brokerId)
  {
  }

  datatype Outcome = Finished | UncertaintyRecorded | Failed | Interrupted

  class Store {
    var s: State
    ghost var smooth: bool        // no call was lost, raised or cancelled, and nobody interfered
    ghost var stopped: bool       // some call was cancelled
    ghost var tried: seq<Update>  // every write that was attempted

    constructor (s: State)
      ensures this.s == s && smooth && !stopped && tried == []
    {
      this.s, smooth, stopped, tried := s, true, false, [];
    }

    // Other actors update the store, in any way and any number of times, between two calls.
    method Interfere()
      modifies this
      ensures Evolves(old(s), s) && (OneOwner(old(s)) ==> OneOwner(s)) && (smooth ==> old(smooth) && s == old(s))
      ensures stopped == old(stopped) && tried == old(tried)
    {
      var us: seq<Update> := *;
      RunEvolves(s, us);
      if OneOwner(s) { OneOwnerForEver(s, us); }
      s, smooth := ApplyAll(s, us), smooth && ApplyAll(s, us) == s;
    }

    // One write: refused, lost, or done with or without an answer. A refusal is answered at once.
    method Write(u: Update) returns (reply: Reply)
      modifies this
      ensures s == old(s) || Some(s) == Try(old(s), u)
      ensures reply == Done ==> Some(s) == Try(old(s), u)
      ensures Evolves(old(s), s) && (OneOwner(old(s)) ==> OneOwner(s))
      ensures smooth ==>
              old(smooth) && (reply == Done <==> Try(old(s), u).Some?) && reply != Cancelled &&
                  (reply == Raised ==> s == old(s))
      ensures tried == old(tried) + [u] && stopped == (old(stopped) || reply == Cancelled)
    {
      UpdateEvolves(s, u);
      if OneOwner(s) { UpdateKeepsOneOwner(s, u); }
      var fault: Fault := *;
      smooth := smooth && fault == Commit;
      tried := tried + [u];
      reply := ReplyOf(fault);
      if Commits(fault) {
        var next := Try(s, u);
        if next == None { return Raised; }
        s := next.value;
      }
      stopped := stopped || reply == Cancelled;
    }

    /** Mark an order SUBMITTED under a venue id. The recovery ledger and the facts are untouched. */
    method Transition(id: string, brokerId: string) returns (reply: Reply)
      modifies this
      ensures Evolves(old(s), s) && (OneOwner(old(s)) ==> OneOwner(s))
      ensures s.recoveries == old(s).recoveries && s.facts == old(s).facts
      ensures reply == Done ==> RowOwns(s, id, Strip(brokerId)) && !Conflict(old(s), id, Strip(brokerId))
      ensures smooth ==> old(smooth) && reply != Cancelled && (reply == Raised ==> s == old(s))
      ensures smooth && Adoptable(old(s), id, Strip(brokerId)) ==>
              reply == Done && s == Adopted(old(s), id, Strip(brokerId))
      ensures tried == old(tried) + [Move(id, Submitted, None, Some(brokerId))]
      ensures stopped == (old(stopped) || reply == Cancelled)
    {
      if Adoptable(s, id, Strip(brokerId)) { AdoptableIsTaken(s, id, brokerId); }
      reply := Write(Move(id, Submitted, None, Some(brokerId)));
    }

    /** Create a recovery row for a pair, or find the identical one. Rows and facts are untouched. */
    method CreateRecovery(o: Order, brokerId: string) returns (reply: Reply)
      modifies this
      ensures Evolves(old(s), s) && (OneOwner(old(s)) ==> OneOwner(s))
      ensures s.orders == old(s).orders && s.facts == old(s).facts
      ensures reply == Done ==> !Conflict(old(s), o.id, Strip(brokerId))
      ensures reply == Done ==> LedgerOwns(s, o, Strip(brokerId))
      ensures var pair := (o.id, Strip(brokerId));
              && s.recoveries - {pair} == old(s).recoveries - {pair}
              && (pair in old(s).recoveries ==> s == old(s))
              && (reply == Done && pair !in old(s).recoveries ==> s.recoveries[pair].open)
      ensures smooth ==> old(smooth) && (Unclaimed(old(s), o, Strip(brokerId)) ==> reply == Done)
      ensures |tried| == |old(tried)| + 1 && old(tried) <= tried && IsRecover(tried[|old(tried)|], o, brokerId)
      ensures stopped == (old(stopped) || reply == Cancelled)
    {
      var rowId: string := *;
      RecoveryRefusedExactly(s, o, brokerId, rowId);
      reply := Write(Recover(o, brokerId, rowId));
    }

    /** Append under a dedupe key. A repeat answers with the stored fact and writes nothing. */
    method AppendFact(f: Fact) returns (reply: Reply, stored: Option<Fact>)
      requires f.key != OtherKey
      modifies this
      ensures Evolves(old(s), s) && (OneOwner(old(s)) ==> OneOwner(s))
      ensures s.orders == old(s).orders && s.recoveries == old(s).recoveries
      ensures (exists g <- old(s).facts :: g.key == f.key) ==> s == old(s)
      ensures reply == Done <==> stored.Some?
      ensures stored.Some? ==> stored.value in s.facts && stored.value.key == f.key
      ensures stored.Some? && (forall g <- old(s).facts :: g.key != f.key) ==>
                stored == Some(f) && s.facts == old(s).facts + [f]
      ensures smooth ==> old(smooth)
      ensures tried == old(tried) + [Record(f)] && stopped == (old(stopped) || reply == Cancelled)
    {
      var existing := Stored(s, f.key);
      reply := Write(Record(f));
      stored := if reply != Done then None else if existing.Some? then existing else Some(f);
    }

    method GetOrder(id: string) returns (reply: Reply, o: Option<Order>)
      modifies this`smooth, this`stopped
      ensures o == if reply == Done then Lookup(s.orders, id) else None
      ensures smooth ==> old(smooth) && reply == Done
      ensures stopped == (old(stopped) || reply == Cancelled)
    {
      reply := *;
      smooth, stopped := smooth && reply == Done, stopped || reply == Cancelled;
      o := if reply == Done then Lookup(s.orders, id) else None;
    }

    method GetRecovery(orderId: string, brokerId: string) returns (reply: Reply, found: bool)
      modifies this`smooth, this`stopped
      ensures found <==> reply == Done && (orderId, brokerId) in s.recoveries
      ensures smooth ==> old(smooth) && reply == Done
      ensures stopped == (old(stopped) || reply == Cancelled)
    {
      reply := *;
      smooth, stopped := smooth && reply == Done, stopped || reply == Cancelled;
      found := reply == Done && (orderId, brokerId) in s.recoveries;
    }

    // The last resort: one fact in the engine's exact shape. A fact already stored under its key must say the same.
    method RecordUncertainty(o: Order, brokerId: string) returns (reply: Reply)
      modifies this
      ensures Evolves(old(s), s) && (OneOwner(old(s)) ==> OneOwner(s))
      ensures reply == Done ==> Recorded(s, o, Strip(brokerId))
      ensures smooth ==> old(smooth)
      ensures old(tried) <= tried &&
              (Strip(brokerId) != [] ==> |tried| > |old(tried)| && EndsInFact(tried, o, Strip(brokerId)))
      ensures old(stopped) || reply == Cancelled ==> stopped
    {
      var id := Strip(brokerId);
      if id == [] { return Raised; }
      var eventId: string := *;
      var stored;
      reply, stored := AppendFact(FallbackFact(eventId, o, id));
      if reply == Done && CanonicalId(stored.value, Some(o)) != Some(id) { reply := Raised; }
    }

    // Re-read after a lost reply; no answer is no proof.
    method DurablyTracked(id: string, brokerId: string) returns (tracked: bool, interrupted: bool)
      requires WellKept(s)
      modifies this
      ensures Evolves(old(s), s) && (OneOwner(old(s)) ==> OneOwner(s))
      ensures tracked ==> RowOwns(s, id, Strip(brokerId))
      ensures smooth ==> old(smooth) && s == old(s) && !interrupted
      ensures tried == old(tried) && (old(stopped) || interrupted ==> stopped)
    {
      Interfere();
      var reply, current := GetOrder(id);
      tracked, interrupted := Tracks(current, brokerId), reply == Cancelled;
      NormalIsFixed(brokerId);
    }

    // Try once more to adopt the id; None falls through to the recovery ledger.
    method Retry(id: string, brokerId: string) returns (r: Option<Outcome>)
      requires WellKept(s)
      modifies this
      ensures Evolves(old(s), s) && (OneOwner(old(s)) ==> OneOwner(s))
      ensures r.Some? ==> r.value in {Finished, Interrupted}
      ensures r == Some(Finished) ==> RowOwns(s, id, Strip(brokerId))
      ensures old(stopped) || r == Some(Interrupted) ==> stopped
      ensures smooth ==> old(smooth) && r != Some(Interrupted) && (r == None ==> s == old(s))
      ensures smooth && Adoptable(old(s), id, Strip(brokerId)) ==>
                r == Some(Finished) && s == Adopted(old(s), id, Strip(brokerId))
      ensures old(tried) <= tried
    {
      Interfere();
      ghost var s1 := s;
      var reply := Transition(id, brokerId);
      EvolvesTransitively(old(s), s1, s);
      if reply == Done { return Some(Finished); }
      if reply == Cancelled { return Some(Interrupted); }
      ghost var s2 := s;
      var tracked, interrupted := DurablyTracked(id, brokerId);
      EvolvesTransitively(old(s), s2, s);
      r := if interrupted then Some(Interrupted) else if tracked then Some(Finished) else None;
    }

    // Write a recovery row; failing that, the fact. No error is reported without having tried both.
    method InstallRecovery(o: Order, brokerId: string) returns (r: Outcome)
      modifies this
      ensures Evolves(old(s), s) && (OneOwner(old(s)) ==> OneOwner(s))
      ensures r == Finished ==> LedgerOwns(s, o, Strip(brokerId))
      ensures r == UncertaintyRecorded ==> Recorded(s, o, Strip(brokerId))
      ensures old(stopped) || r == Interrupted ==> stopped
      ensures old(tried) <= tried &&
              (r in {UncertaintyRecorded, Failed} ==> TriedBoth(tried, |old(tried)|, o, brokerId))
      ensures smooth ==> old(smooth) && (Unclaimed(old(s), o, Strip(brokerId)) ==> r == Finished)
      ensures smooth && r == Finished ==> s.orders == old(s).orders && s.facts == old(s).facts
    {
      Interfere();
      ghost var s1 := s;
      var reply := CreateRecovery(o, brokerId);
      EvolvesTransitively(old(s), s1, s);
      if reply == Done { return Finished; }
      if reply == Cancelled { return Interrupted; }
      ghost var s2, first := s, |old(tried)|;
      assert IsRecover(tried[first], o, brokerId);
      Interfere();
      EvolvesTransitively(old(s), s2, s);
      ghost var s3, tried3 := s, tried;
      reply := RecordUncertainty(o, brokerId);
      EvolvesTransitively(old(s), s3, s);
      assert tried[first] == tried3[first];
      r := if reply == Done then UncertaintyRecorded else if reply == Cancelled then Interrupted else Failed;
    }

    /** The acceptance could not be recorded: find it recorded after all, retry, install a recovery row, or leave a
        fact. */
    method HandleUnpersisted(o: Order, brokerId: string) returns (r: Outcome)
      requires WellKept(s)
      modifies this
      ensures Evolves(old(s), s) && (OneOwner(old(s)) ==> OneOwner(s))
      ensures r == Finished ==> RowOwns(s, o.id, Strip(brokerId)) || LedgerOwns(s, o, Strip(brokerId))
      ensures r == UncertaintyRecorded ==> Recorded(s, o, Strip(brokerId))
      ensures old(stopped) || r == Interrupted ==> stopped
      ensures old(tried) <= tried &&
              (r in {UncertaintyRecorded, Failed} ==> TriedBoth(tried, |old(tried)|, o, brokerId))
      ensures smooth ==> old(smooth) && (Unclaimed(old(s), o, Strip(brokerId)) ==> r == Finished)
      ensures smooth && LiveUnder(old(s), o.id, brokerId) ==> r == Finished && s == old(s)
      ensures smooth && Adoptable(old(s), o.id, Strip(brokerId)) ==>
              r == Finished && s == Adopted(old(s), o.id, Strip(brokerId))
    {
      var audit: Reply := *;
      smooth, stopped := smooth && audit == Done, stopped || audit == Cancelled;
      if audit == Cancelled { return Interrupted; }
      var found := Recheck(o.id, brokerId);
      if found.Some? { return found.value; }
      ghost var s2, from := s, |tried|;
      r := InstallRecovery(o, brokerId);
      EvolvesTransitively(old(s), s2, s);
      if r in {UncertaintyRecorded, Failed} { TriedBothLater(tried, from, |old(tried)|, o, brokerId); }
    }

    // The row may track the id after all, or take it on a retry; None falls through to the recovery ledger.
    method Recheck(id: string, brokerId: string) returns (r: Option<Outcome>)
      requires WellKept(s)
      modifies this
      ensures Evolves(old(s), s) && (OneOwner(old(s)) ==> OneOwner(s))
      ensures r.Some? ==> r.value in {Finished, Interrupted}
      ensures r == Some(Finished) ==> RowOwns(s, id, Strip(brokerId))
      ensures old(stopped) || r == Some(Interrupted) ==> stopped
      ensures smooth ==> old(smooth) && r != Some(Interrupted) && (r == None ==> s == old(s))
      ensures smooth && LiveUnder(old(s), id, brokerId) ==> r == Some(Finished) && s == old(s)
      ensures smooth && Adoptable(old(s), id, Strip(brokerId)) ==>
                r == Some(Finished) && s == Adopted(old(s), id, Strip(brokerId))
      ensures old(tried) <= tried
    {
      NormalIsFixed(brokerId);
      Interfere();
      ghost var s1 := s;
      var read, current := GetOrder(id);
      if read == Cancelled { return Some(Interrupted); }
      if Tracks(current, brokerId) { return Some(Finished); }
      if current == None || current.value.status != Submitting { return None; }
      r := Retry(id, brokerId);
      EvolvesTransitively(old(s), s1, s);
    }

    /** The finalizer. Whatever is lost or cancelled on the way, reaching the end of the path leaves a durable owner of
        the exact pair: the row, or a recovery row that speaks for this very order. The durable-uncertainty error leaves
        a canonical fact for it, and no error is reported before the recovery and the fact were both tried. A cancelled
        first write walks the same path before the cancellation is passed on. Without any fault the row adopts the id if
        it can, and an unclaimed pair always gets an owner. */
    method Finalize(o: Order, brokerId: string) returns (r: Outcome, cancelled: bool)
      requires WellKept(s)
      modifies this
      ensures Evolves(old(s), s) && (OneOwner(old(s)) ==> OneOwner(s))
      ensures r == Finished ==> RowOwns(s, o.id, Strip(brokerId)) || LedgerOwns(s, o, Strip(brokerId))
      ensures r == UncertaintyRecorded ==> Recorded(s, o, Strip(brokerId))
      ensures r == Interrupted || cancelled ==> stopped
      ensures old(tried) + [Move(o.id, Submitted, None, Some(brokerId))] <= tried
      ensures r in {UncertaintyRecorded, Failed} ==> TriedBoth(tried, |old(tried)|, o, brokerId)
      ensures smooth && Unclaimed(old(s), o, Strip(brokerId)) ==> r == Finished && !cancelled
      ensures smooth && Adoptable(old(s), o.id, Strip(brokerId)) ==>
              r == Finished && s == Adopted(old(s), o.id, Strip(brokerId))
    {
      Interfere();
      ghost var s1 := s;
      var reply := Transition(o.id, brokerId);
      EvolvesTransitively(old(s), s1, s);
      cancelled := reply == Cancelled;
      if reply == Done { return Finished, false; }
      ghost var s2, from, tried2 := s, |tried|, tried;
      r := HandleUnpersisted(o, brokerId);
      EvolvesTransitively(old(s), s2, s);
      assert tried2 <= tried;
      if r in {UncertaintyRecorded, Failed} { TriedBothLater(tried, from, |old(tried)|, o, brokerId); }
    }

    /** Repair one audit row or fallback fact. Success means its exact pair is owned; for a fact it also means the fact
        is released. Without any fault a fact in the engine's shape is always repaired unless another order holds its id
        or a recovery row contradicts the order. */
    method RepairSeed(kind: SeedKind, f: Fact) returns (reply: Reply)
      requires WellKept(s)
      modifies this
      ensures Evolves(old(s), s) && (OneOwner(old(s)) ==> OneOwner(s))
      ensures reply == Done ==> f.orderId.Some? && f.named.Some? && Owned(s, f.orderId.value, Strip(f.named.value))
      ensures reply == Done && kind == Fallback ==> Released(f, s.orders, s.recoveries.Keys)
      ensures reply == Cancelled ==> stopped
      ensures smooth && Repairable(old(s), f) ==> reply == Done
    {
      if f.orderId == None || f.orderId.value == [] || f.named == None || Blank(f.named.value) { return Raised; }
      var orderId, brokerId := f.orderId.value, Strip(f.named.value);
      NormalIsFixed(f.named.value);
      Interfere();
      var represented;
      reply, represented := GetRecovery(orderId, brokerId);
      if reply != Done { return; }
      if kind == Audit && represented { return; }
      ghost var s1 := s;
      reply := RepairNamed(kind, f, orderId, brokerId, represented);
      EvolvesTransitively(old(s), s1, s);
    }

    // The seed names a pair: read its order, and for a fact require the engine's exact shape.
    method RepairNamed(kind: SeedKind, f: Fact, orderId: string, brokerId: string,
                       represented: bool) returns (reply: Reply)
      requires WellKept(s) && f.orderId == Some(orderId) && f.named.Some? && brokerId == Strip(f.named.value)
      requires brokerId != [] && brokerId == Strip(brokerId)
      requires represented ==> (orderId, brokerId) in s.recoveries
      modifies this
      ensures Evolves(old(s), s) && (OneOwner(old(s)) ==> OneOwner(s))
      ensures reply == Done ==> Owned(s, orderId, brokerId)
      ensures reply == Done && kind == Fallback ==> Released(f, s.orders, s.recoveries.Keys)
      ensures reply == Cancelled ==> stopped
      ensures smooth ==> old(smooth)
      ensures smooth && orderId in old(s).orders && CanonicalId(f, Some(old(s).orders[orderId])) == Some(brokerId)
              && ((kind == Fallback && represented) || RowOwns(old(s), orderId, brokerId)
                  || Unclaimed(old(s), old(s).orders[orderId], brokerId)) ==>
                reply == Done
    {
      Interfere();
      var order;
      reply, order := GetOrder(orderId);
      if reply != Done { return; }
      if order == None { return Raised; }
      if kind == Fallback && CanonicalId(f, order) != Some(brokerId) { return Raised; }
      ghost var s2 := s;
      reply := Adopt(order.value, brokerId, kind == Fallback && represented);
      EvolvesTransitively(old(s), s2, s);
      if reply == Done && kind == Fallback { CanonicalIsStable(f, order.value, s.orders[orderId]); }
    }

    // Leave the pair with an owner: as found, by a retried transition, or through the recovery ledger.
    method Adopt(o: Order, brokerId: string, represented: bool) returns (reply: Reply)
      requires WellKept(s) && brokerId == Strip(brokerId) && brokerId != [] && Lookup(s.orders, o.id) == Some(o)
      requires represented ==> (o.id, brokerId) in s.recoveries
      modifies this
      ensures Evolves(old(s), s) && (OneOwner(old(s)) ==> OneOwner(s))
      ensures reply == Done ==> Owned(s, o.id, brokerId)
      ensures reply == Cancelled ==> stopped
      ensures smooth ==> old(smooth)
      ensures smooth && (represented || o.brokerId == Some(brokerId) || Unclaimed(old(s), o, brokerId)) ==>
              reply == Done
      ensures smooth && (represented || o.brokerId == Some(brokerId)) ==> s == old(s)
      ensures smooth && !represented && Adoptable(old(s), o.id, brokerId) ==> s == Adopted(old(s), o.id, brokerId)
    {
      if represented || o.brokerId == Some(brokerId) { return Done; }
      if o.status == Submitting {
        var retry := Retry(o.id, brokerId);
        if retry.Some? { return if retry.value == Finished then Done else Cancelled; }
      }
      ghost var s1 := s;
      Interfere();
      EvolvesTransitively(old(s), s1, s);
      ghost var s2 := s;
      reply := CreateRecovery(o, brokerId);
      EvolvesTransitively(old(s), s2, s);
    }
  }

  datatype SeedKind = Audit | Fallback

  // The exact shape is judged by the immutable part of the order only.
  lemma CanonicalIsStable(f: Fact, a: Order, b: Order)
    requires SameScope(a, b)
    ensures CanonicalId(f, Some(a)) == CanonicalId(f, Some(b))
  {
  }

  /** From any state, whatever happens next: a recorded fact for a concrete pair stays recorded, it counts as
      uncertainty exactly while the pair has no owner, and once released it never counts again. */
  lemma FactUntilOwner(a: State, b: State, f: Fact, o: Order, brokerId: string)
    requires Evolves(a, b) && f in a.facts && o.id != [] && Lookup(a.orders, o.id) == Some(o) &&
             CanonicalId(f, Some(o)) == Some(brokerId)
    ensures f in b.facts
    ensures Uncertain(f, b.orders, b.recoveries.Keys, o.symbol, o.side, None) <==> !Owned(b, o.id, brokerId)
    ensures Owned(a, o.id, brokerId) ==> !Uncertain(f, b.orders, b.recoveries.Keys, o.symbol, o.side, None)
  {
    CanonicalIsStable(f, o, b.orders[o.id]);
    NormalIsFixed(f.named.value);
    if Owned(a, o.id, brokerId) { OwnedStays(a, b, o.id, brokerId); }
  }

  /** An accepted order that the finalizer left owned or recorded is visible in every later state: owned, or in force as
      uncertainty for its symbol and side. */
  lemma AcceptedIsNeverInvisible(a: State, b: State, o: Order, brokerId: string)
    requires Evolves(a, b) && o.id != [] && o.id in a.orders && SameScope(a.orders[o.id], o) && !Blank(brokerId)
    requires Owned(a, o.id, brokerId) || Recorded(a, o, brokerId)
    ensures Owned(b, o.id, brokerId)
         || exists k ::
             0 <= k < |b.facts| && b.facts[k].orderId == Some(o.id) &&
                 Uncertain(b.facts[k], b.orders, b.recoveries.Keys, o.symbol, o.side, None)
  {
    if Owned(a, o.id, brokerId) {
      OwnedStays(a, b, o.id, brokerId);
    } else {
      var k :| 0 <= k < |a.facts| && CanonicalId(a.facts[k], Some(o)) == Some(brokerId);
      CanonicalIsStable(a.facts[k], o, a.orders[o.id]);
      FactUntilOwner(a, b, a.facts[k], a.orders[o.id], brokerId);
      assert b.facts[k] == a.facts[k];
    }
  }
}
