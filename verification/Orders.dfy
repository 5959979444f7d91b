/** The order lifecycle table, the store's transition planner over one order row, and what
    every run of the table (plus the submission claim) must satisfy. */
module Orders {
  import opened Wrappers
  import opened Text

  datatype Side = Buy | Sell

  datatype Status =
    | Created | Submitting | Submitted | PartiallyFilled | CancelPending
    | Filled | Canceled | Rejected | TimeoutQuarantine

  // The edges the generic transition may take. Created -> Submitting is not one of them.
  function Next(s: Status): set<Status> {
    match s
    case Created => {Canceled, Rejected}
    case Submitting => {Submitted, Created, Canceled, Rejected, TimeoutQuarantine}
    case TimeoutQuarantine => {Submitted, Rejected, Canceled}
    case Submitted => {PartiallyFilled, Filled, CancelPending, Canceled, Rejected}
    case PartiallyFilled => {PartiallyFilled, Filled, CancelPending, Canceled}
    case CancelPending => {CancelPending, Filled, Canceled, Rejected}
    case Filled => {}
    case Canceled => {}
    case Rejected => {}
  }

  predicate Terminal(s: Status) { Next(s) == {} }

  // The statuses reconciliation polls.
  predicate Open(s: Status) { s == Submitted || s == PartiallyFilled || s == CancelPending }

  // Every way a row's status may change: a table edge, or the atomic submission claim.
  predicate Edge(s: Status, t: Status) { t in Next(s) || (s == Created && t == Submitting) }

  // ---- the store's transition planner on one row ----

  datatype Row = Row(status: Status, filled: int, quantity: int, brokerId: Option<string>)

  datatype Refusal = IllegalEdge | NoBrokerId | BrokerIdImmutable | BadFilledQuantity

  predicate HasConcreteId(id: Option<string>) { id.Some? && !Blank(id.value) }

  /** A committed transition follows the table, never enters SUBMITTING, keeps the venue identity
      write-once, never lowers the filled quantity, and never marks SUBMITTED without an id. */
  function PlanTransition(row: Row, target: Status, filled: Option<int>,
                          brokerId: Option<string>): (r: Result<Row, Refusal>)
    ensures r.Ok? ==> r.value.status == target && (target == row.status || target in Next(row.status))
    ensures r.Ok? && target == Submitting ==> row.status == Submitting
    ensures r.Ok? && HasConcreteId(row.brokerId) ==> r.value.brokerId == row.brokerId
    ensures r.Ok? ==> r.value.brokerId == if brokerId.Some? then brokerId else row.brokerId
    ensures r.Ok? ==> r.value.filled == if filled.Some? then filled.value else row.filled
    ensures r.Ok? ==> r.value.quantity == row.quantity
    ensures r.Ok? && 0 <= row.filled <= row.quantity ==>
            row.filled <= r.value.filled <= r.value.quantity == row.quantity
    ensures r.Ok? && target == Submitted && row.status != Submitted ==> HasConcreteId(r.value.brokerId)
  {
    var changed := target != row.status;
    if changed && target !in Next(row.status) then Err(IllegalEdge)
    else if changed && target == Submitted
            && !HasConcreteId(if brokerId.Some? then brokerId else row.brokerId) then Err(NoBrokerId)
    else if HasConcreteId(row.brokerId) && brokerId.Some? && brokerId != row.brokerId then Err(BrokerIdImmutable)
    else if filled.Some? && !(0 <= filled.value <= row.quantity && row.filled <= filled.value)
    then Err(BadFilledQuantity)
    else Ok(row.(status := target,
                 filled := if filled.Some? then filled.value else row.filled,
                 brokerId := if brokerId.Some? then brokerId else row.brokerId))
  }

  /** A transition is refused exactly for a status the table does not lead to, a SUBMITTED without a concrete id,
      another id than the concrete one held, or a filled count that falls or leaves the order's range. */
  lemma RefusedExactly(row: Row, target: Status, filled: Option<int>, brokerId: Option<string>)
    ensures PlanTransition(row, target, filled, brokerId).Err? <==>
            || (target != row.status && target !in Next(row.status))
            || (target == Submitted && row.status != Submitted
                && !HasConcreteId(brokerId) && (brokerId.Some? || !HasConcreteId(row.brokerId)))
            || (HasConcreteId(row.brokerId) && brokerId.Some? && brokerId != row.brokerId)
            || (filled.Some? && (filled.value < 0 || filled.value > row.quantity || filled.value < row.filled))
  {
  }

  /** The table read backwards: which statuses lead to each one. */
  lemma ReachedFrom(s: Status)
    ensures Terminal(s) <==> s in {Filled, Canceled, Rejected}
    ensures Submitting !in Next(s) && (Created in Next(s) <==> s == Submitting)
    ensures TimeoutQuarantine in Next(s) <==> s == Submitting
    ensures Submitted in Next(s) <==> s in {Submitting, TimeoutQuarantine}
    ensures PartiallyFilled in Next(s) <==> s in {Submitted, PartiallyFilled}
    ensures CancelPending in Next(s) <==> Open(s)
    ensures Filled in Next(s) <==> Open(s)
    ensures Canceled in Next(s) <==> !Terminal(s)
    ensures Rejected in Next(s) <==> !Terminal(s) && s != PartiallyFilled
    ensures Open(s) <==> s in {Submitted, PartiallyFilled, CancelPending}
  {
    assert s.Created? || s.Submitting? || s.TimeoutQuarantine? || Open(s) ==> Canceled in Next(s);
  }

  // ---- runs ----

  ghost predicate Run(run: seq<Status>) {
    |run| > 0 && forall i :: 0 <= i < |run| - 1 ==> Edge(run[i], run[i + 1]) || run[i] == run[i + 1]
  }

  predicate Unsent(s: Status) { s == Created || s == Submitting }

  // How many more status changes an order past the claim can still make.
  function Rank(s: Status): nat {
    match s
    case Created => 5
    case Submitting => 5
    case TimeoutQuarantine => 4
    case Submitted => 3
    case PartiallyFilled => 2
    case CancelPending => 1
    case Filled => 0
    case Canceled => 0
    case Rejected => 0
  }

  function Changes(run: seq<Status>): nat {
    if |run| < 2 then 0
    else (if run[0] == run[1] then 0 else 1) + Changes(run[1..])
  }

  /** No submit or redrive sweep can ever select an order that once left {CREATED, SUBMITTING}. */
  lemma {:induction false} NeverReentersUnsent(run: seq<Status>, i: nat, j: nat)
    requires Run(run) && i <= j < |run| && !Unsent(run[i])
    ensures !Unsent(run[j])
    decreases j - i
  {
    if i < j {
      assert Edge(run[i], run[i + 1]) || run[i] == run[i + 1];
      NeverReentersUnsent(run, i + 1, j);
    }
  }

  /** Past the claim the lifecycle is a strictly decreasing rank, so at most four changes remain. */
  lemma {:induction false} ChangesBoundedAfterClaim(run: seq<Status>)
    requires Run(run) && !Unsent(run[0])
    ensures Changes(run) + Rank(run[|run| - 1]) <= Rank(run[0])
    ensures Changes(run) <= 4
  {
    if |run| >= 2 {
      assert Edge(run[0], run[1]) || run[0] == run[1];
      var rest := run[1..];
      forall i | 0 <= i < |rest| - 1 ensures Edge(rest[i], rest[i + 1]) || rest[i] == rest[i + 1] {
        assert rest[i] == run[i + 1] && rest[i + 1] == run[i + 2];
      }
      ChangesBoundedAfterClaim(rest);
    }
  }

  /** The bound four is reached, and a terminal order changes nothing at all. */
  lemma ChangesBoundIsTight() returns (run: seq<Status>)
    ensures Run(run) && run[0] == TimeoutQuarantine && Changes(run) == 4
  {
    run := [TimeoutQuarantine, Submitted, PartiallyFilled, CancelPending, Filled];
    assert Changes(run[3..]) == 1;
    assert Changes(run[2..]) == 2 by { assert run[2..][1..] == run[3..]; }
    assert Changes(run[1..]) == 3 by { assert run[1..][1..] == run[2..]; }
  }

  /** Before the claim settles there is no such bound: claim and release can alternate for ever. */
  lemma {:induction false} ClaimReleaseUnbounded(n: nat) returns (run: seq<Status>)
    ensures Run(run) && run[0] == Created && Changes(run) >= n
    ensures forall s <- run :: Unsent(s)
  {
    if n == 0 {
      run := [Created];
    } else {
      var rest := ClaimReleaseUnbounded(n - 1);
      run := [Created, Submitting] + rest;
      assert run[1..] == [Submitting] + rest;
      assert run[1..][1..] == rest;
      forall i | 0 <= i < |run| - 1 ensures Edge(run[i], run[i + 1]) || run[i] == run[i + 1] {
        if i >= 2 { assert run[i] == rest[i - 2] && run[i + 1] == rest[i - 1]; }
      }
    }
  }
}
