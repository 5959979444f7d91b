/** An open order missing from the venue's report is queried by client id, and only a sustained run
    of confirmed absences may end it. The run is counted from durable deferral records, each of
    which is a best-effort write. */
module NotFound {
  import opened Wrappers
  import opened Writes
  import opened Text
  import opened Orders

  datatype Reason = NotFoundYet | QueryError | ClearedPresent | PresentUnusable

  datatype Deferral = Deferral(orderId: string, reason: Reason)

  datatype Query = Failed | Absent | Present(brokerId: string)

  // One targeted query. `race` is a status change another actor makes while the query is in flight;
  // `write` is the fate of the deferral record, `adopt` that of the identity adoption.
  datatype Obs = Obs(query: Query, race: Option<Status>, write: Fault, adopt: Fault)

  datatype State = State(row: Row, log: seq<Deferral>)

  predicate Resolvable(s: Status) { s == Submitted || s == PartiallyFilled }

  // Trailing run of not-found deferrals of one order, reset by a cleared-present marker.
  function Streak(log: seq<Deferral>, id: string): nat {
    if log == [] then 0
    else
      var d, before := log[|log| - 1], Streak(log[..|log| - 1], id);
      if d.orderId != id then before
      else if d.reason == NotFoundYet then before + 1
      else if d.reason == ClearedPresent then 0
      else before
  }

  method NotFoundStreak(log: seq<Deferral>, id: string) returns (streak: nat)
    ensures streak == Streak(log, id)
  {
    streak := 0;
    for i := 0 to |log|
      invariant streak == Streak(log[..i], id)
    {
      assert log[..i + 1][..i] == log[..i];
      if log[i].orderId != id { continue; }
      if log[i].reason == NotFoundYet {
        streak := streak + 1;
      } else if log[i].reason == ClearedPresent {
        streak := 0;
      }
    }
    assert log[..|log|] == log;
  }

  function Count(log: seq<Deferral>, d: Deferral): nat { multiset(log)[d] }

  function Record(log: seq<Deferral>, id: string, reason: Reason, write: Fault): seq<Deferral> {
    if write == Lost then log else log + [Deferral(id, reason)]
  }

  function Raced(row: Row, race: Option<Status>): Row {
    if race.Some? && Edge(row.status, race.value) then row.(status := race.value) else row
  }

  function ResolveTarget(seen: Status): Status { if seen == Submitted then Rejected else Canceled }

  function Resolve(row: Row, target: Status): Row {
    var planned := PlanTransition(row, target, None, None);
    if planned.Ok? then planned.value else row
  }

  // The identity a present answer lets the order adopt, if it is usable at all.
  predicate Usable(row: Row, brokerId: string) {
    !Blank(brokerId) && (row.brokerId.None? || row.brokerId.value == Strip(brokerId))
  }

  // Adoption is a compare-and-swap on the status the query started from.
  predicate Adopts(row: Row, o: Obs) {
    row.brokerId.Some? || (Raced(row, o.race).status == row.status && o.adopt == Commit)
  }

  function Step(s: State, o: Obs, id: string, retries: nat): State {
    var row := Raced(s.row, o.race);
    if !Resolvable(s.row.status) then s.(row := row)
    else match o.query
      case Failed =>
        State(row,
              if Count(s.log, Deferral(id, QueryError)) < retries then Record(s.log, id, QueryError, o.write)
              else s.log)
      case Present(brokerId) =>
        if !Usable(s.row, brokerId) then State(row, Record(s.log, id, PresentUnusable, o.write))
        else if !Adopts(s.row, o) then
          var adopted := row.status == s.row.status && o.adopt == LostReply;
          State(if adopted then row.(brokerId := Some(Strip(brokerId))) else row, s.log)
        else
          State(if s.row.brokerId.None? then row.(brokerId := Some(Strip(brokerId))) else row,
                if Streak(s.log, id) > 0 then Record(s.log, id, ClearedPresent, o.write) else s.log)
      case Absent =>
        if Streak(s.log, id) + 1 >= retries then State(Resolve(row, ResolveTarget(s.row.status)), s.log)
        else State(row, Record(s.log, id, NotFoundYet, o.write))
  }

  class Resolver {
    const id: string
    const retries: nat
    var row: Row
    var log: seq<Deferral>

    function View(): State reads this { State(row, log) }

    constructor (id: string, retries: nat, row: Row, log: seq<Deferral>)
      ensures View() == State(row, log) && this.id == id && this.retries == retries
    {
      this.id, this.retries, this.row, this.log := id, retries, row, log;
    }

    method Defer(reason: Reason, write: Fault)
      modifies this`log
      ensures log == Record(old(log), id, reason, write)
    {
      if write != Lost { log := log + [Deferral(id, reason)]; }
    }

    /** One targeted query and what is done with its answer. */
    method ResolveOne(o: Obs)
      modifies this
      ensures View() == Step(old(View()), o, id, retries)
    {
      var seen := row;
      row := Raced(row, o.race);
      if !Resolvable(seen.status) { return; }
      if o.query.Failed? {
        if Count(log, Deferral(id, QueryError)) < retries { Defer(QueryError, o.write); }
        return;
      }
      if o.query.Present? {
        if !Usable(seen, o.query.brokerId) {
          Defer(PresentUnusable, o.write);
          return;
        }
        if seen.brokerId.None? {
          if row.status != seen.status || o.adopt == Lost { return; }
          row := row.(brokerId := Some(Strip(o.query.brokerId)));
          if o.adopt == LostReply { return; }
        }
        var present := NotFoundStreak(log, id);
        if present > 0 { Defer(ClearedPresent, o.write); }
        return;
      }
      var streak := NotFoundStreak(log, id);
      if streak + 1 >= retries {
        row := Resolve(row, ResolveTarget(seen.status));
      } else {
        Defer(NotFoundYet, o.write);
      }
    }
  }

  // ---- runs ----

  function After(s: State, run: seq<Obs>, id: string, retries: nat): State {
    if run == [] then s else Step(After(s, run[..|run| - 1], id, retries), run[|run| - 1], id, retries)
  }

  predicate Queried(s: State) { Resolvable(s.row.status) }

  // Whether this observation writes a cleared-present marker.
  predicate Clears(s: State, o: Obs, id: string) {
    Queried(s) && o.query.Present? && Usable(s.row, o.query.brokerId) && Adopts(s.row, o)
    && Streak(s.log, id) > 0 && o.write != Lost
  }

  // Confirmed absences observed since the last cleared-present marker.
  function AbsencesSinceCleared(s: State, run: seq<Obs>, id: string, retries: nat): nat {
    if run == [] then 0
    else
      var init, o := run[..|run| - 1], run[|run| - 1];
      var mid := After(s, init, id, retries);
      if Clears(mid, o, id) then 0
      else AbsencesSinceCleared(s, init, id, retries) + (if Queried(mid) && o.query.Absent? then 1 else 0)
  }

  // Confirmed absences observed since the venue last answered that it has the order.
  function AbsencesSincePresent(s: State, run: seq<Obs>, id: string, retries: nat): nat {
    if run == [] then 0
    else
      var init, o := run[..|run| - 1], run[|run| - 1];
      var mid := After(s, init, id, retries);
      if Queried(mid) && o.query.Present? then 0
      else AbsencesSincePresent(s, init, id, retries) + (if Queried(mid) && o.query.Absent? then 1 else 0)
  }

  lemma StreakAfter(log: seq<Deferral>, id: string, reason: Reason, write: Fault)
    ensures Streak(Record(log, id, reason, write), id) ==
      if write == Lost then Streak(log, id)
      else if reason == NotFoundYet then Streak(log, id) + 1
      else if reason == ClearedPresent then 0
      else Streak(log, id)
  {
    var d := Deferral(id, reason);
    assert (log + [d])[..|log|] == log;
  }

  // How one observation moves the durable streak.
  lemma StreakStep(s: State, o: Obs, id: string, retries: nat)
    ensures var after := Streak(Step(s, o, id, retries).log, id);
            && (Clears(s, o, id) ==> after == 0)
            && (!Clears(s, o, id) ==> after <= Streak(s.log, id) + (if Queried(s) && o.query.Absent? then 1 else 0))
            && (!(Queried(s) && o.query.Absent?) && !Clears(s, o, id) ==> after == Streak(s.log, id))
  {
    StreakAfter(s.log, id, NotFoundYet, o.write);
    StreakAfter(s.log, id, ClearedPresent, o.write);
    StreakAfter(s.log, id, QueryError, o.write);
    StreakAfter(s.log, id, PresentUnusable, o.write);
  }

  lemma {:induction false} StreakNeverOvercounts(s: State, run: seq<Obs>, id: string, retries: nat)
    requires Streak(s.log, id) == 0
    ensures Streak(After(s, run, id, retries).log, id) <= AbsencesSinceCleared(s, run, id, retries)
  {
    if run != [] {
      var init := run[..|run| - 1];
      StreakNeverOvercounts(s, init, id, retries);
      StreakStep(After(s, init, id, retries), run[|run| - 1], id, retries);
    }
  }

  // The observation ends the order: the row was live when the query began and the resolution
  // committed on whatever the row had become.
  predicate Flips(s: State, o: Obs, id: string, retries: nat) {
    Resolvable(s.row.status) && o.query.Absent? && Streak(s.log, id) + 1 >= retries
    && Step(s, o, id, retries).row.status != Raced(s.row, o.race).status
  }

  /** Over every run of query outcomes, lost writes and races, an order is ended only by a confirmed
      absence that is at least the `retries`-th since the last cleared-present marker. */
  lemma FlipNeedsSustainedAbsence(s: State, run: seq<Obs>, o: Obs, id: string, retries: nat)
    requires Streak(s.log, id) == 0
    requires Flips(After(s, run, id, retries), o, id, retries)
    ensures o.query.Absent? && AbsencesSinceCleared(s, run + [o], id, retries) >= retries
  {
    StreakNeverOvercounts(s, run, id, retries);
    assert (run + [o])[..|run|] == run;
  }

  /** A failed query changes neither the streak nor the order, however often it happens. */
  lemma FailedQueryNeverCounts(s: State, o: Obs, id: string, retries: nat)
    requires o.query.Failed?
    ensures Streak(Step(s, o, id, retries).log, id) == Streak(s.log, id)
    ensures Step(s, o, id, retries).row == Raced(s.row, o.race)
  {
    StreakAfter(s.log, id, QueryError, o.write);
  }

  /** A present answer resets a running streak if and only if it is usable, adopted and its marker is
      not lost. */
  lemma PresentResetsExactly(s: State, o: Obs, id: string, retries: nat)
    requires Resolvable(s.row.status) && o.query.Present? && Streak(s.log, id) > 0
    ensures Streak(Step(s, o, id, retries).log, id) == 0
       <==> Usable(s.row, o.query.brokerId) && Adopts(s.row, o) && o.write != Lost
  {
    StreakStep(s, o, id, retries);
  }

  // Every present answer of the run is one that resets a running streak.
  predicate PresentsReset(s: State, run: seq<Obs>, id: string, retries: nat) {
    run == []
    || (var init, o := run[..|run| - 1], run[|run| - 1];
        var mid := After(s, init, id, retries);
        PresentsReset(s, init, id, retries)
        && (Queried(mid) && o.query.Present? ==>
            Usable(mid.row, o.query.brokerId) && Adopts(mid.row, o) && o.write != Lost))
  }

  lemma {:induction false} StreakIsConsecutive(s: State, run: seq<Obs>, id: string, retries: nat)
    requires Streak(s.log, id) == 0 && PresentsReset(s, run, id, retries)
    ensures Streak(After(s, run, id, retries).log, id) <= AbsencesSincePresent(s, run, id, retries)
  {
    if run != [] {
      var init := run[..|run| - 1];
      StreakIsConsecutive(s, init, id, retries);
      StreakStep(After(s, init, id, retries), run[|run| - 1], id, retries);
    }
  }

  /** The absences are consecutive, with no present answer among them, on every run whose present
      answers reset. */
  lemma FlipNeedsConsecutiveAbsence(s: State, run: seq<Obs>, o: Obs, id: string, retries: nat)
    requires Streak(s.log, id) == 0 && PresentsReset(s, run, id, retries)
    requires Flips(After(s, run, id, retries), o, id, retries)
    ensures AbsencesSincePresent(s, run + [o], id, retries) >= retries
  {
    StreakIsConsecutive(s, run, id, retries);
    assert (run + [o])[..|run|] == run;
  }

  const WORKING := Row(Submitted, 0, 10, Some("b1"))
  const ABSENT := Obs(Absent, None, Commit, Commit)
  const CONFLICTING := Obs(Present("b2"), None, Commit, Commit)

  lemma ConflictingPresenceKeepsStreak(log: seq<Deferral>)
    ensures var after := Step(State(WORKING, log), CONFLICTING, "o", 2);
            after.row == WORKING && Streak(after.log, "o") == Streak(log, "o")
  {
    StreakAfter(log, "o", PresentUnusable, Commit);
    NormalIsFixed("b2");
  }

  /** Otherwise they need not be: a present answer under a conflicting identity does not reset, so
      absent, present, absent ends an order that needed two absences in a row. */
  lemma ConflictingPresenceDoesNotReset()
    ensures var s, run := State(WORKING, []), [ABSENT, CONFLICTING];
            && Flips(After(s, run, "o", 2), ABSENT, "o", 2)
            && AbsencesSincePresent(s, run + [ABSENT], "o", 2) == 1
  {
    var s, run := State(WORKING, []), [ABSENT, CONFLICTING];
    var s2 := ThenConflicting();
    LastAbsenceEnds(s2);
    var s1 := AbsentOnce();
    assert run[..1] == [ABSENT];
    OneMoreAbsence(s, run, ABSENT, CONFLICTING);
  }

  lemma AbsentOnce() returns (s1: State)
    ensures s1 == After(State(WORKING, []), [ABSENT], "o", 2) && s1.row == WORKING && Streak(s1.log, "o") == 1
  {
    StreakAfter([], "o", NotFoundYet, Commit);
    assert [ABSENT][..0] == [];
    s1 := Step(State(WORKING, []), ABSENT, "o", 2);
  }

  lemma ThenConflicting() returns (s2: State)
    ensures s2 == After(State(WORKING, []), [ABSENT, CONFLICTING], "o", 2) && s2.row == WORKING &&
            Streak(s2.log, "o") == 1
  {
    var s1 := AbsentOnce();
    ConflictingPresenceKeepsStreak(s1.log);
    assert [ABSENT, CONFLICTING][..1] == [ABSENT];
    s2 := Step(s1, CONFLICTING, "o", 2);
  }

  lemma LastAbsenceEnds(s: State)
    requires s.row == WORKING && Streak(s.log, "o") == 1
    ensures Flips(s, ABSENT, "o", 2)
  {
    assert Rejected in Next(Submitted);
  }

  // Right after a present answer, one absence is one absence.
  lemma OneMoreAbsence(s: State, run: seq<Obs>, absent: Obs, present: Obs)
    requires |run| == 2 && run[1] == present && present.query.Present? && absent.query.Absent?
    requires Queried(After(s, run[..1], "o", 2)) && Queried(After(s, run, "o", 2))
    ensures AbsencesSincePresent(s, run + [absent], "o", 2) == 1
  {
    assert (run + [absent])[..2] == run;
  }

  const ONCE_ABSENT: seq<Deferral> := [Deferral("o", NotFoundYet)]

  /** Nor does a present answer with a blank id, ... */
  lemma BlankPresenceDoesNotReset()
    ensures Streak(ONCE_ABSENT, "o") == 1
    ensures Streak(Step(State(WORKING, ONCE_ABSENT), Obs(Present(" "), None, Commit, Commit), "o", 2).log, "o") == 1
  {
    assert ONCE_ABSENT[..0] == [] && " "[1..] == [];
    assert TrimLeft(" ") == [];
    StreakAfter(ONCE_ABSENT, "o", PresentUnusable, Commit);
  }

  /** ... a usable one whose marker is lost, ... */
  lemma LostMarkerDoesNotReset()
    ensures var o := Obs(Present("b1"), None, Lost, Commit);
            Usable(WORKING, "b1") && Streak(Step(State(WORKING, ONCE_ABSENT), o, "o", 2).log, "o") == 1
  {
    assert ONCE_ABSENT[..0] == [];
    NormalIsFixed("b1");
  }

  const NAMELESS := Row(Submitted, 0, 10, None)

  /** ... or, for a row without an id, a usable one whose adoption is lost or raced by a status change. */
  lemma UnadoptedPresenceDoesNotReset(o: Obs)
    requires o == Obs(Present("b1"), None, Commit, Lost) || o == Obs(Present("b1"), Some(CancelPending), Commit, Commit)
    ensures Usable(NAMELESS, "b1") && Streak(Step(State(NAMELESS, ONCE_ABSENT), o, "o", 2).log, "o") == 1
  {
    assert ONCE_ABSENT[..0] == [];
    NormalIsFixed("b1");
    assert CancelPending in Next(Submitted);
  }

  // ---- what the flip may do to the row ----

  /** A committed flip ends PARTIALLY_FILLED only as CANCELED, and never touches a terminal row. */
  lemma FlipTargets(s: State, o: Obs, id: string, retries: nat)
    requires Flips(s, o, id, retries)
    ensures var held, after := Raced(s.row, o.race).status, Step(s, o, id, retries).row.status;
            && (after == Canceled || after == Rejected) && !Terminal(held)
            && (held == PartiallyFilled ==> after == Canceled)
            && (s.row.status == PartiallyFilled ==> after == Canceled)
  {
  }

  /** A CANCEL_PENDING row is ended here exactly when the cancel landed while the query was in flight:
      the resolution is not conditional on the status the query started from. */
  lemma CancelPendingFlippedExactlyByRace(s: State, o: Obs, id: string, retries: nat)
    ensures (Raced(s.row, o.race).status == CancelPending && Step(s, o, id, retries).row.status != CancelPending)
       <==> (Resolvable(s.row.status) && o.race == Some(CancelPending)
             && o.query.Absent? && Streak(s.log, id) + 1 >= retries)
  {
  }

  /** For example: the cancel lands during the query, and the absence ends the order as rejected. */
  lemma RacedCancelIsEnded()
    ensures var o := Obs(Absent, Some(CancelPending), Commit, Commit);
            && Raced(WORKING, o.race).status == CancelPending
            && Step(State(WORKING, []), o, "o", 1).row.status == Rejected
  {
    assert CancelPending in Next(Submitted) && Rejected in Next(CancelPending);
  }

  // ---- the exact outcome of one query ----

  // The log with one more deferral, unless the write was lost.
  predicate Deferred(before: seq<Deferral>, after: seq<Deferral>, id: string, reason: Reason, write: Fault) {
    after == if write == Lost then before else before + [Deferral(id, reason)]
  }

  /** A confirmed absence below the bound is deferred and leaves the row; at the bound it ends the order, as REJECTED
      when the query started from SUBMITTED and as CANCELED otherwise, wherever the row held by then still allows it. */
  lemma AbsentExactly(s: State, o: Obs, id: string, retries: nat)
    requires Resolvable(s.row.status) && o.query.Absent?
    ensures var held, after := Raced(s.row, o.race), Step(s, o, id, retries);
            if Streak(s.log, id) + 1 < retries then after.row == held &&
                Deferred(s.log, after.log, id, NotFoundYet, o.write)
            else
              var target := if s.row.status == Submitted then Rejected else Canceled;
              && after.log == s.log
              && after.row == if target in Next(held.status) then held.(status := target) else held
  {
    var held := Raced(s.row, o.race);
    RefusedExactly(held, if s.row.status == Submitted then Rejected else Canceled, None, None);
    ReachedFrom(held.status);
  }

  /** A present answer under an unusable id is deferred as such and leaves the row. A usable one leaves the row with the
      stripped id, taking it on exactly when the row had none and the adoption was stored; and clears a running streak
      exactly when the row holds the id for certain. */
  lemma PresentExactly(s: State, o: Obs, id: string, retries: nat)
    requires Resolvable(s.row.status) && o.query.Present?
    ensures var name, held, after := o.query.brokerId, Raced(s.row, o.race), Step(s, o, id, retries);
            if Blank(name) || (s.row.brokerId.Some? && s.row.brokerId != Some(Strip(name)))
            then after.row == held && Deferred(s.log, after.log, id, PresentUnusable, o.write)
            else
              var nameless, raced := s.row.brokerId == None, held.status != s.row.status;
              && after.row == (if nameless && !raced && o.adopt != Lost then held.(brokerId := Some(Strip(name)))
                               else held)
              && (if Streak(s.log, id) > 0 && (!nameless || (!raced && o.adopt == Commit))
                  then Deferred(s.log, after.log, id, ClearedPresent, o.write) else after.log == s.log)
  {
  }

  /** A failed query leaves a record until there are as many as the bound allows, and an order that is no longer open
      for this is left alone. */
  lemma OtherwiseExactly(s: State, o: Obs, id: string, retries: nat)
    ensures var held, after := Raced(s.row, o.race), Step(s, o, id, retries);
            && (!Resolvable(s.row.status) ==> after == State(held, s.log))
            && (Resolvable(s.row.status) && o.query.Failed? ==>
                  && after.row == held
                  && (if multiset(s.log)[Deferral(id, QueryError)] < retries
                      then Deferred(s.log, after.log, id, QueryError, o.write) else after.log == s.log))
    ensures Resolvable(s.row.status) <==> s.row.status in {Submitted, PartiallyFilled}
  {
  }
}
