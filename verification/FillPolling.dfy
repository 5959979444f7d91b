/** Turning the broker's cumulative fill count into recorded executions, and the recorded
    executions into an order status. One fill is recorded per cumulative level; its identity is the
    level itself, so a level can be counted once only. */
module FillPolling {
  import opened Wrappers
  import opened Orders

  // ---- price resolution ----

  datatype Quote = Missing | NotNumeric | NonFinite | Value(v: real)

  predicate Usable(q: Quote) { q.Value? && q.v > 0.0 }

  /** The first trustworthy price among the execution average, the limit and the fallback; never a
      fabricated one. */
  method ResolveFillPrice(average: Quote, limit: Quote, fallback: Quote) returns (price: Option<real>)
    ensures price.None? <==> !Usable(average) && !Usable(limit) && !Usable(fallback)
    ensures price.Some? ==> price.value > 0.0
    ensures Usable(average) ==> price == Some(average.v)
    ensures !Usable(average) && Usable(limit) ==> price == Some(limit.v)
    ensures !Usable(average) && !Usable(limit) && Usable(fallback) ==> price == Some(fallback.v)
  {
    var candidates := [average, limit, fallback];
    for i := 0 to 3
      invariant forall j :: 0 <= j < i ==> !Usable(candidates[j])
    {
      assert i > 0 ==> !Usable(candidates[0]);
      assert i > 1 ==> !Usable(candidates[1]);
      if Usable(candidates[i]) { return Some(candidates[i].v); }
    }
    assert !Usable(candidates[0]) && !Usable(candidates[1]) && !Usable(candidates[2]);
    price := None;
  }

  // ---- one poll ----

  // A recorded execution: the cumulative level that identifies it, and its share count.
  datatype Fill = Fill(level: int, quantity: int, price: real)

  datatype Book = Book(fills: seq<Fill>, row: Row)

  // `seen` is the row status the poll started from, which may be out of date by the time the result
  // is applied; `accepted` is the store's verdict on a fill it has not seen before.
  datatype Poll = Poll(cumulative: int, price: Option<real>, status: Status, seen: Status, accepted: bool)

  function Shares(fills: seq<Fill>): int {
    if fills == [] then 0 else Shares(fills[..|fills| - 1]) + fills[|fills| - 1].quantity
  }

  function DeltaFill(cumulative: int, recorded: int, price: Option<real>): Option<Fill> {
    if cumulative <= recorded || price.None? then None else Some(Fill(cumulative, cumulative - recorded, price.value))
  }

  datatype Append = Recorded | Duplicate | Conflict | Refused

  function AppendOutcome(fills: seq<Fill>, f: Fill, accepted: bool): Append {
    if f in fills then Duplicate
    else if exists g <- fills :: g.level == f.level then Conflict
    else if accepted then Recorded else Refused
  }

  function DivergenceSafeStatus(seen: Status, recorded: int): (t: Status)
    ensures !Terminal(t)
    ensures seen == CancelPending ==> t == CancelPending
  {
    if seen == CancelPending then CancelPending else if recorded > 0 then PartiallyFilled else Submitted
  }

  function ReconciledStatus(seen: Status, quantity: int, broker: Status, recorded: int): (t: Status)
    ensures t == Filled <==> recorded >= quantity
    ensures seen == CancelPending ==> t in Next(CancelPending)
    ensures Terminal(t) && t != Filled ==> t == broker
  {
    if recorded >= quantity then Filled
    else if broker == Canceled || broker == Rejected then broker
    else if broker == CancelPending || seen == CancelPending then CancelPending
    else if recorded > 0 then PartiallyFilled
    else Submitted
  }

  function Min(a: int, b: int): int { if a <= b then a else b }

  // The fill the poll brings, given how many shares it believed were recorded.
  function Ingest(fills: seq<Fill>, p: Poll, believed: int): (seq<Fill>, bool) {
    var fill := DeltaFill(p.cumulative, believed, p.price);
    if fill.None? then (fills, false)
    else
      match AppendOutcome(fills, fill.value, p.accepted)
      case Recorded => (fills + [fill.value], false)
      case Conflict => (fills, true)
      case _ => (fills, false)
  }

  function Target(fills: seq<Fill>, conflict: bool, quantity: int, p: Poll): Status {
    var recorded := Shares(fills);
    if p.cumulative > recorded || conflict then DivergenceSafeStatus(p.seen, Min(recorded, quantity))
    else ReconciledStatus(p.seen, quantity, p.status, Min(recorded, quantity))
  }

  // One poll: ask with the current recorded count, append, then move the row to what the recorded
  // fills support. A refused transition leaves the row alone.
  function Step(b: Book, p: Poll): Book {
    var (fills, conflict) := Ingest(b.fills, p, Shares(b.fills));
    var planned := PlanTransition(b.row, Target(fills, conflict, b.row.quantity, p),
                                  Some(Min(Shares(fills), b.row.quantity)), None);
    Book(fills, if planned.Ok? then planned.value else b.row)
  }

  class OrderLedger {
    var fills: seq<Fill>
    var row: Row

    function View(): Book reads this { Book(fills, row) }

    constructor (row: Row)
      ensures View() == Book([], row)
    {
      fills := [];
      this.row := row;
    }

    method RecordedShares() returns (n: int)
      ensures n == Shares(fills)
    {
      n := 0;
      for i := 0 to |fills|
        invariant n == Shares(fills[..i])
      {
        assert fills[..i + 1][..i] == fills[..i];
        n := n + fills[i].quantity;
      }
      assert fills[..|fills|] == fills;
    }

    method PollOnce(p: Poll)
      modifies this
      ensures View() == Step(old(View()), p)
    {
      var recorded := RecordedShares();
      var fill := DeltaFill(p.cumulative, recorded, p.price);
      var conflict := false;
      if fill.Some? {
        var outcome := AppendOutcome(fills, fill.value, p.accepted);
        if outcome == Recorded { fills := fills + [fill.value]; }
        conflict := outcome == Conflict;
      }
      recorded := RecordedShares();
      var capped := Min(recorded, row.quantity);
      var target := if p.cumulative > recorded || conflict then DivergenceSafeStatus(p.seen, capped)
                    else ReconciledStatus(p.seen, row.quantity, p.status, capped);
      var planned := PlanTransition(row, target, Some(capped), None);
      if planned.Ok? { row := planned.value; }
    }
  }

  // ---- runs ----

  function Polled(b: Book, polls: seq<Poll>): Book
    decreases |polls|
  {
    if polls == [] then b else Polled(Step(b, polls[0]), polls[1..])
  }

  // The highest cumulative count among the polls that could be priced and were accepted.
  function Recordable(start: int, polls: seq<Poll>): int
    decreases |polls|
  {
    if polls == [] then start
    else Recordable(if polls[0].price.Some? && polls[0].accepted && polls[0].cumulative > start
                    then polls[0].cumulative else start,
                    polls[1..])
  }

  // Each fill is exactly the climb from the shares below it to its own level.
  ghost predicate Ladder(fills: seq<Fill>) {
    fills == []
    || (var below, top := fills[..|fills| - 1], fills[|fills| - 1];
        Ladder(below) && top.level > Shares(below) && top.quantity == top.level - Shares(below))
  }

  lemma {:induction false} LadderTop(fills: seq<Fill>)
    requires Ladder(fills)
    ensures 0 <= Shares(fills)
    ensures forall f <- fills :: 0 < f.level <= Shares(fills)
  {
    if fills != [] { LadderTop(fills[..|fills| - 1]); }
  }

  /** Fill identities on a ladder are distinct, in strictly increasing order. */
  lemma {:induction false} LevelsIncrease(fills: seq<Fill>, i: nat, j: nat)
    requires Ladder(fills) && i < j < |fills|
    ensures fills[i].level < fills[j].level
  {
    var below := fills[..|fills| - 1];
    if j < |below| {
      LevelsIncrease(below, i, j);
    } else {
      LadderTop(below);
      assert below[i] in below;
    }
  }

  lemma StepClimbs(b: Book, p: Poll)
    requires Ladder(b.fills)
    ensures Ladder(Step(b, p).fills) && !Ingest(b.fills, p, Shares(b.fills)).1
    ensures Shares(Step(b, p).fills)
         == if p.price.Some? && p.accepted && p.cumulative > Shares(b.fills) then p.cumulative else Shares(b.fills)
  {
    LadderTop(b.fills);
    var fill := DeltaFill(p.cumulative, Shares(b.fills), p.price);
    if fill.Some? {
      assert (b.fills + [fill.value])[..|b.fills|] == b.fills;
      assert forall g <- b.fills :: g.level != fill.value.level;
    }
  }

  /** For every feed whatsoever, rising, falling or repeating, priced or not, accepted or refused:
      the recorded shares are the highest accepted, priced cumulative count. Levels are strictly
      increasing, so no identity is ever recorded twice and none ever conflicts. */
  lemma {:induction false} RecordedIsHighestRecordable(b: Book, polls: seq<Poll>)
    requires Ladder(b.fills)
    ensures Ladder(Polled(b, polls).fills)
    ensures Shares(Polled(b, polls).fills) == Recordable(Shares(b.fills), polls)
    decreases |polls|
  {
    if polls != [] {
      StepClimbs(b, polls[0]);
      RecordedIsHighestRecordable(Step(b, polls[0]), polls[1..]);
    }
  }

  // Recordable is the least bound on the start and on every accepted priced count.
  lemma {:induction false} RecordableIsLeastBound(start: int, polls: seq<Poll>, bound: int)
    requires start <= bound
    requires forall i :: 0 <= i < |polls| ==> polls[i].price.Some? && polls[i].accepted ==> polls[i].cumulative <= bound
    ensures start <= Recordable(start, polls) <= bound
    ensures forall i ::
            0 <= i < |polls| ==>
                polls[i].price.Some? && polls[i].accepted ==> polls[i].cumulative <= Recordable(start, polls)
    decreases |polls|
  {
    if polls != [] {
      var p := polls[0];
      var next := if p.price.Some? && p.accepted && p.cumulative > start then p.cumulative else start;
      RecordableIsLeastBound(next, polls[1..], bound);
    }
  }

  /** On a non-decreasing feed from an empty ledger the recorded shares are exactly the last accepted
      priced poll's count, and never exceed what the broker last reported. */
  lemma RisingFeedIsTracked(row: Row, polls: seq<Poll>, k: nat)
    requires forall i, j :: 0 <= i <= j < |polls| ==> polls[i].cumulative <= polls[j].cumulative
    requires k < |polls| && polls[k].price.Some? && polls[k].accepted && polls[k].cumulative >= 0
    requires forall i :: k < i < |polls| ==> polls[i].price.None? || !polls[i].accepted
    ensures Shares(Polled(Book([], row), polls).fills) == polls[k].cumulative <= polls[|polls| - 1].cumulative
  {
    RecordedIsHighestRecordable(Book([], row), polls);
    RecordableIsLeastBound(0, polls, polls[k].cumulative);
  }

  /** The delta rule needs the count it was given to be current. A poll that appends lands on the
      broker's count if and only if it asked with the true recorded count. */
  lemma DeltaExactlyWhenCountIsCurrent(fills: seq<Fill>, p: Poll, believed: int)
    requires Ingest(fills, p, believed).0 != fills
    ensures Shares(Ingest(fills, p, believed).0) == p.cumulative <==> believed == Shares(fills)
  {
    var f := DeltaFill(p.cumulative, believed, p.price).value;
    assert (fills + [f])[..|fills|] == fills;
  }

  /** Two overlapping polls that both asked with zero recorded count the first five shares twice. */
  lemma OverlappingPollsDoubleCount()
    ensures var first := Poll(5, Some(1.0), Submitted, Submitted, true);
            var second := Poll(8, Some(1.0), Submitted, Submitted, true);
            Shares(Ingest(Ingest([], first, 0).0, second, 0).0) == 13
  {
    var first := Poll(5, Some(1.0), Submitted, Submitted, true);
    var second := Poll(8, Some(1.0), Submitted, Submitted, true);
    var one := Ingest([], first, 0).0;
    assert one == [Fill(5, 5, 1.0)] && Shares(one[..0]) == 0;
    var two := Ingest(one, second, 0).0;
    assert two == one + [Fill(8, 8, 1.0)] && two[..1] == one;
  }

  // ---- what a poll may do to the row ----

  ghost predicate Settled(b: Book) {
    && Ladder(b.fills) && 0 <= b.row.filled <= Min(Shares(b.fills), b.row.quantity)
    && Open(b.row.status) && HasConcreteId(b.row.brokerId)
    && (b.row.status == PartiallyFilled ==> Shares(b.fills) > 0) && b.row.quantity > 0
  }

  /** FILLED only with the recorded fills to back it, and no terminal status while the broker has
      executed shares that are not recorded, whatever status the poll started from. */
  lemma TerminalOnlyWhenCovered(b: Book, p: Poll)
    requires Settled(b)
    ensures var after := Step(b, p);
            && (after.row.status == Filled ==> Shares(after.fills) >= b.row.quantity)
            && (Terminal(after.row.status) ==> p.cumulative <= Shares(after.fills))
            && after.row.filled <= Shares(after.fills)
  {
    StepClimbs(b, p);
    LadderTop(b.fills);
  }

  /** A CANCEL_PENDING row never reopens, even when the poll acts on an older view of it. */
  lemma CancelPendingNeverReopens(b: Book, p: Poll)
    requires b.row.status == CancelPending
    ensures Step(b, p).row.status in {CancelPending, Filled, Canceled, Rejected}
  {
  }

  // The statuses a poll can target from a current view of an open order, against the table.
  lemma TargetHasEdgeExcept(now: Status, broker: Status, quantity: int, recorded: int, gap: bool)
    requires Open(now) && quantity > 0 && recorded >= 0 && (now == PartiallyFilled ==> recorded > 0)
    ensures var target := if gap then DivergenceSafeStatus(now, Min(recorded, quantity))
                          else ReconciledStatus(now, quantity, broker, Min(recorded, quantity));
            target != now && target !in Next(now)
            <==> now == PartiallyFilled && broker == Rejected && !gap && recorded < quantity
  {
  }

  /** From a current view, the row always follows the recorded fills, with one exception: a broker
      REJECTED on a partly filled order has no edge, and the row keeps its status. */
  lemma TransitionRefusedExactly(b: Book, p: Poll)
    requires Settled(b) && p.seen == b.row.status
    ensures var fills := Step(b, p).fills;
            PlanTransition(b.row, Target(fills, false, b.row.quantity, p), Some(Min(Shares(fills), b.row.quantity)),
                           None).Err?
            <==> b.row.status == PartiallyFilled && p.status == Rejected
                 && p.cumulative <= Shares(fills) < b.row.quantity
  {
    StepClimbs(b, p);
    LadderTop(b.fills);
    var recorded := Shares(Step(b, p).fills);
    TargetHasEdgeExcept(b.row.status, p.status, b.row.quantity, recorded, p.cumulative > recorded);
  }

  /** So an order the broker rejected after a partial fill stays PARTIALLY_FILLED, poll after poll. */
  lemma {:induction false} RejectedPartialIsStuck(b: Book, polls: seq<Poll>)
    requires Settled(b) && b.row.status == PartiallyFilled && Shares(b.fills) < b.row.quantity
    requires forall i :: 0 <= i < |polls| ==>
               polls[i].status == Rejected && polls[i].seen == PartiallyFilled && polls[i].cumulative == Shares(b.fills)
    ensures Polled(b, polls) == b
    decreases |polls|
  {
    if polls != [] {
      TransitionRefusedExactly(b, polls[0]);
      assert Step(b, polls[0]) == b;
      RejectedPartialIsStuck(b, polls[1..]);
    }
  }

  // ---- the exact outcome of one poll ----

  /** A poll records one execution exactly when it is priced, accepted and above the recorded count: at the broker's
      level, for the missing shares, at the price it brought. Otherwise it records nothing. */
  lemma PollRecordsExactly(b: Book, p: Poll)
    requires Ladder(b.fills)
    ensures var recorded := Shares(b.fills);
            Step(b, p).fills == if p.price.Some? && p.accepted && p.cumulative > recorded
                                then b.fills + [Fill(p.cumulative, p.cumulative - recorded, p.price.value)] else b.fills
  {
    LadderTop(b.fills);
  }

  /** An execution at a recorded level that is not the recorded one is a conflict: nothing is added, and the order is
      held open whatever the broker reports. */
  lemma ConflictHoldsOpen(fills: seq<Fill>, p: Poll, believed: int, quantity: int)
    requires p.price.Some? && p.cumulative > believed && exists g <- fills :: g.level == p.cumulative
    requires Fill(p.cumulative, p.cumulative - believed, p.price.value) !in fills
    ensures Ingest(fills, p, believed) == (fills, true) && !Terminal(Target(fills, true, quantity, p))
  {
  }

  // The status that the recorded shares and the broker's answer support, once nothing is missing.
  predicate Supported(row: Row, broker: Status, recorded: int, status: Status) {
    if recorded >= row.quantity then status == Filled
    else if broker == Canceled then status == Canceled
    else if broker == Rejected && row.status != PartiallyFilled then status == Rejected
    else if row.status == CancelPending || broker == CancelPending then status == CancelPending
    else status == if recorded > 0 then PartiallyFilled else Submitted
  }

  /** On a current view the row ends exactly where the recorded shares and the broker's answer put it, and carries the
      recorded count capped at the order's quantity. A broker cancel ends it from every open status, a broker reject
      from every one but PARTIALLY_FILLED, which then keeps its row. With shares missing it stays open. */
  lemma PollOutcomeExactly(b: Book, p: Poll)
    requires Settled(b) && p.seen == b.row.status
    ensures var after, row := Step(b, p), b.row;
            var recorded := Shares(after.fills);
            var stuck := row.status == PartiallyFilled && p.status == Rejected &&
                p.cumulative <= recorded < row.quantity;
            && (stuck ==> after.row == row)
            && (!stuck ==> after.row == row.(status := after.row.status, filled := Min(recorded, row.quantity)))
            && (p.cumulative <= recorded && !stuck ==> Supported(row, p.status, recorded, after.row.status))
            && (p.cumulative > recorded ==>
                  after.row.status == if row.status == CancelPending then CancelPending
                                      else if recorded > 0 then PartiallyFilled else Submitted)
  {
    StepClimbs(b, p);
    LadderTop(b.fills);
    TransitionRefusedExactly(b, p);
    ReachedFrom(b.row.status);
  }
}
