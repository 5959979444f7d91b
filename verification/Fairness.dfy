/** The round-robin cursor that spreads a limited query budget over the quarantined orders. */
module Fairness {
  import opened Wrappers

  function IndexOf(ids: seq<string>, id: string): (i: nat)
    requires id in ids
    ensures i < |ids| && ids[i] == id && id !in ids[..i]
  {
    if ids[0] == id then 0 else 1 + IndexOf(ids[1..], id)
  }

  // Where the next tick resumes: just after the last order served, or at the front.
  function Start(last: Option<string>, ids: seq<string>): (s: nat)
    ensures s <= |ids|
  {
    if last.None? || last.value !in ids then 0 else IndexOf(ids, last.value) + 1
  }

  function Rotated(last: Option<string>, ids: seq<string>): (r: seq<string>)
    ensures |r| == |ids|
  {
    var s := Start(last, ids);
    ids[s..] + ids[..s]
  }

  /** Rotation only reorders the list. */
  lemma RotationIsPermutation(last: Option<string>, ids: seq<string>)
    ensures multiset(Rotated(last, ids)) == multiset(ids)
  {
    var s := Start(last, ids);
    assert ids == ids[..s] + ids[s..];
  }

  function Min(a: nat, b: nat): nat { if a <= b then a else b }

  // The orders one tick serves with `tokens` queries to spend.
  function Served(last: Option<string>, ids: seq<string>, tokens: nat): seq<string> {
    Rotated(last, ids)[..Min(tokens, |ids|)]
  }

  function LastAfter(last: Option<string>, ids: seq<string>, tokens: nat): Option<string> {
    var served := Served(last, ids, tokens);
    if served == [] then last else Some(served[|served| - 1])
  }

  class ReconcileFairnessCursor {
    var lastServedId: Option<string>

    constructor ()
      ensures lastServedId == None
    {
      lastServedId := None;
    }

    method Rotate(ids: seq<string>) returns (r: seq<string>)
      ensures r == Rotated(lastServedId, ids)
    {
      if lastServedId.None? || lastServedId.value !in ids { return ids; }
      var i := IndexOf(ids, lastServedId.value) + 1;
      return ids[i..] + ids[..i];
    }

    method Record(id: string)
      modifies this
      ensures lastServedId == Some(id)
    {
      lastServedId := Some(id);
    }

    /** One resolver tick: each order served costs a token and moves the cursor; an exhausted
        budget ends the tick. */
    method ServeTick(ids: seq<string>, tokens: nat) returns (served: seq<string>)
      modifies this
      ensures served == Served(old(lastServedId), ids, tokens)
      ensures lastServedId == LastAfter(old(lastServedId), ids, tokens)
    {
      var rotated := Rotate(ids);
      served := [];
      var i := 0;
      while i < |rotated|
        invariant 0 <= i <= |rotated| && i <= tokens
        invariant served == rotated[..i]
        invariant lastServedId == if i == 0 then old(lastServedId) else Some(rotated[i - 1])
      {
        if i == tokens { break; }
        Record(rotated[i]);
        served := served + [rotated[i]];
        i := i + 1;
      }
    }
  }

  // ---- service over many ticks of a stable quarantine list ----

  function Services(last: Option<string>, ids: seq<string>, ticks: seq<nat>): seq<string>
    decreases |ticks|
  {
    if ticks == [] then []
    else Served(last, ids, ticks[0]) + Services(LastAfter(last, ids, ticks[0]), ids, ticks[1..])
  }

  // The i-th entry of the endless repetition of `ids`.
  function At(ids: seq<string>, i: nat): string
    requires ids != []
    decreases i
  {
    if i < |ids| then ids[i] else At(ids, i - |ids|)
  }

  lemma DistinctIndex(ids: seq<string>, i: nat)
    requires Distinct(ids) && i < |ids|
    ensures IndexOf(ids, ids[i]) == i
  {
    assert ids[IndexOf(ids, ids[i])] == ids[i];
  }

  lemma RotatedAt(last: Option<string>, ids: seq<string>, i: nat)
    requires i < |ids|
    ensures Rotated(last, ids)[i] == At(ids, Start(last, ids) + i)
  {
    var s := Start(last, ids);
    if s + i >= |ids| { assert At(ids, s + i) == At(ids, s + i - |ids|); }
  }

  // A tick that served m orders leaves the cursor m places further round the cycle.
  lemma ResumesAfter(last: Option<string>, ids: seq<string>, tokens: nat)
    requires Distinct(ids)
    ensures var s, m, next := Start(last, ids), Min(tokens, |ids|), Start(LastAfter(last, ids, tokens), ids);
            next == s + m || next + |ids| == s + m
  {
    var s, m := Start(last, ids), Min(tokens, |ids|);
    if m > 0 {
      var p := if s + m - 1 < |ids| then s + m - 1 else s + m - 1 - |ids|;
      assert Rotated(last, ids)[m - 1] == ids[p];
      DistinctIndex(ids, p);
    }
  }

  // A stretch of the endless repetition of the list, from place s on.
  ghost predicate Cyclic(all: seq<string>, ids: seq<string>, s: nat)
    requires ids != []
  {
    forall i :: 0 <= i < |all| ==> all[i] == At(ids, s + i)
  }

  lemma CyclicConcat(a: seq<string>, b: seq<string>, ids: seq<string>, s: nat, from: nat)
    requires ids != [] && Cyclic(a, ids, s) && Cyclic(b, ids, from)
    requires from == s + |a| || from + |ids| == s + |a|
    ensures Cyclic(a + b, ids, s)
  {
    forall i | 0 <= i < |a + b| ensures (a + b)[i] == At(ids, s + i) {
      if i >= |a| { assert b[i - |a|] == At(ids, from + (i - |a|)); }
    }
  }

  lemma ServedIsCyclic(last: Option<string>, ids: seq<string>, tokens: nat)
    requires ids != []
    ensures Cyclic(Served(last, ids, tokens), ids, Start(last, ids))
  {
    forall i | 0 <= i < |Served(last, ids, tokens)| ensures Served(last, ids, tokens)[i]
          == At(ids, Start(last, ids) + i) {
      RotatedAt(last, ids, i);
    }
  }

  /** Whatever budgets the ticks had, the concatenated service is the cyclic order of the list. */
  lemma {:induction false} ServiceIsCyclic(last: Option<string>, ids: seq<string>, ticks: seq<nat>)
    requires Distinct(ids) && ids != []
    ensures Cyclic(Services(last, ids, ticks), ids, Start(last, ids))
    decreases |ticks|
  {
    if ticks != [] {
      var next := LastAfter(last, ids, ticks[0]);
      ServedIsCyclic(last, ids, ticks[0]);
      ServiceIsCyclic(next, ids, ticks[1..]);
      ResumesAfter(last, ids, ticks[0]);
      CyclicConcat(Served(last, ids, ticks[0]), Services(next, ids, ticks[1..]), ids, Start(last, ids),
                   Start(next, ids));
    }
  }

  // Any |ids| consecutive entries of the repetition are distinct and cover the list.
  lemma {:induction false} CycleDistinct(ids: seq<string>, i: nat, j: nat)
    requires Distinct(ids) && i < j < i + |ids|
    ensures At(ids, i) != At(ids, j)
  {
    if i >= |ids| { CycleDistinct(ids, i - |ids|, j - |ids|); }
  }

  lemma {:induction false} CycleCovers(ids: seq<string>, a: nat, id: string) returns (i: nat)
    requires id in ids
    ensures a <= i < a + |ids| && At(ids, i) == id
    decreases a
  {
    if a >= |ids| {
      i := CycleCovers(ids, a - |ids|, id);
      i := i + |ids|;
    } else {
      var k := IndexOf(ids, id);
      i := if k >= a then k else k + |ids|;
    }
  }

  lemma CycleWindow(all: seq<string>, ids: seq<string>, s: nat, w: nat)
    requires Distinct(ids) && ids != [] && w + |ids| <= |all|
    requires Cyclic(all, ids, s)
    ensures Distinct(all[w..w + |ids|]) && forall id <- ids :: id in all[w..w + |ids|]
  {
    var window := all[w..w + |ids|];
    forall i, j | 0 <= i < j < |window| ensures window[i] != window[j] {
      CycleDistinct(ids, s + w + i, s + w + j);
    }
    forall id | id in ids ensures id in window {
      var i := CycleCovers(ids, s + w, id);
      assert window[i - s - w] == all[i - s];
    }
  }

  /** Any n consecutive budgeted queries, across any tick boundaries, serve every one of the n
      quarantined orders exactly once. */
  lemma EveryWindowServesAllOnce(last: Option<string>, ids: seq<string>, ticks: seq<nat>, w: nat)
    requires Distinct(ids) && ids != [] && w + |ids| <= |Services(last, ids, ticks)|
    ensures var window := Services(last, ids, ticks)[w..w + |ids|];
            Distinct(window) && forall id <- ids :: id in window
  {
    ServiceIsCyclic(last, ids, ticks);
    CycleWindow(Services(last, ids, ticks), ids, Start(last, ids), w);
  }

  lemma ServicesLength(last: Option<string>, ids: seq<string>, ticks: seq<nat>)
    requires ticks != []
    ensures |Services(last, ids, ticks)|
         == Min(ticks[0], |ids|) + |Services(LastAfter(last, ids, ticks[0]), ids, ticks[1..])|
  {
  }

  lemma {:induction false} ServiceCount(last: Option<string>, ids: seq<string>, ticks: seq<nat>, k: nat)
    requires forall i :: 0 <= i < |ticks| ==> ticks[i] >= k
    ensures |Services(last, ids, ticks)| >= Min(|ids|, |ticks| * k)
    decreases |ticks|
  {
    if ticks != [] {
      var next, rest := LastAfter(last, ids, ticks[0]), ticks[1..];
      ServiceCount(next, ids, rest, k);
      ServicesLength(last, ids, ticks);
      AddTick(|Services(next, ids, rest)|, Min(ticks[0], |ids|), |ids|, |rest|, k);
      assert |ticks| == |rest| + 1;
    }
  }

  lemma AddTick(before: nat, served: nat, n: nat, ticks: nat, k: nat)
    requires before >= Min(n, ticks * k) && served >= Min(k, n)
    ensures served + before >= Min(n, (ticks + 1) * k)
  {
    assert (ticks + 1) * k == ticks * k + k;
  }

  /** With at least k tokens per tick, every order has been queried once n <= T * k, that is within
      ceil(n/k) ticks. */
  lemma ServedWithinCeiling(last: Option<string>, ids: seq<string>, ticks: seq<nat>, k: nat, id: string)
    requires Distinct(ids) && id in ids
    requires forall i :: 0 <= i < |ticks| ==> ticks[i] >= k
    requires |ticks| * k >= |ids|
    ensures id in Services(last, ids, ticks)
  {
    ServiceCount(last, ids, ticks, k);
    EveryWindowServesAllOnce(last, ids, ticks, 0);
    assert id in Services(last, ids, ticks)[0..|ids|];
  }

  // ---- a list that changes between ticks ----

  datatype Tick = Tick(ids: seq<string>, tokens: nat)

  function ServicesOver(last: Option<string>, ticks: seq<Tick>): seq<string>
    decreases |ticks|
  {
    if ticks == [] then []
    else Served(last, ticks[0].ids, ticks[0].tokens)
         + ServicesOver(LastAfter(last, ticks[0].ids, ticks[0].tokens), ticks[1..])
  }

  // How many orders are served before `id` from where the cursor stands.
  function Rank(last: Option<string>, ids: seq<string>, id: string): (r: nat)
    requires id in ids
    ensures r < |ids| && Rotated(last, ids)[r] == id
  {
    var s, j := Start(last, ids), IndexOf(ids, id);
    if j >= s then j - s else |ids| - s + j
  }

  lemma RankIsIndex(last: Option<string>, ids: seq<string>, id: string, i: nat)
    requires Distinct(ids) && id in ids && i < |ids| && Rotated(last, ids)[i] == id
    ensures i == Rank(last, ids, id)
  {
    var s := Start(last, ids);
    DistinctIndex(ids, if s + i < |ids| then s + i else s + i - |ids|);
  }

  /** In one tick an order is served if and only if fewer orders than tokens stand before it. */
  lemma ServedExactlyWhenInReach(last: Option<string>, ids: seq<string>, tokens: nat, id: string)
    requires Distinct(ids) && id in ids
    ensures id in Served(last, ids, tokens) <==> Rank(last, ids, id) < tokens
  {
    var served := Served(last, ids, tokens);
    if id in served {
      var i :| 0 <= i < |served| && served[i] == id;
      RankIsIndex(last, ids, id, i);
    }
    if Rank(last, ids, id) < tokens { assert served[Rank(last, ids, id)] == id; }
  }

  // What the cursor remembers after some ticks.
  function LastOver(last: Option<string>, ticks: seq<Tick>): Option<string>
    decreases |ticks|
  {
    if ticks == [] then last else LastOver(LastAfter(last, ticks[0].ids, ticks[0].tokens), ticks[1..])
  }

  // The order is listed at every tick.
  ghost predicate Waits(ticks: seq<Tick>, id: string) {
    forall t :: 0 <= t < |ticks| ==> Distinct(ticks[t].ids) && id in ticks[t].ids
  }

  // At tick t at least as many orders as tokens stand before `id`.
  ghost predicate OutOfReach(last: Option<string>, ticks: seq<Tick>, t: nat, id: string)
    requires t < |ticks| && Waits(ticks, id)
  {
    Rank(LastOver(last, ticks[..t]), ticks[t].ids, id) >= ticks[t].tokens
  }

  lemma OutOfReachLater(last: Option<string>, ticks: seq<Tick>, t: nat, id: string)
    requires t + 1 < |ticks| && Waits(ticks, id)
    ensures Waits(ticks[1..], id)
    ensures OutOfReach(last, ticks, t + 1, id) <==>
            OutOfReach(LastAfter(last, ticks[0].ids, ticks[0].tokens), ticks[1..], t, id)
  {
    assert ticks[..t + 1][1..] == ticks[1..][..t];
  }

  /** Over any changing list, an order is never served if and only if at every tick it stands out of reach. */
  lemma {:induction false} StarvedExactlyWhenOutOfReach(last: Option<string>, ticks: seq<Tick>, id: string)
    requires Waits(ticks, id)
    ensures id !in ServicesOver(last, ticks) <==> forall t :: 0 <= t < |ticks| ==> OutOfReach(last, ticks, t, id)
    decreases |ticks|
  {
    if ticks != [] {
      var first, rest := ticks[0], ticks[1..];
      var next := LastAfter(last, first.ids, first.tokens);
      assert OutOfReach(last, ticks, 0, id) <==> id !in Served(last, first.ids, first.tokens) by {
        assert ticks[..0] == [];
        ServedExactlyWhenInReach(last, first.ids, first.tokens, id);
      }
      StarvedExactlyWhenOutOfReach(next, rest, id);
      forall t | 0 <= t < |rest| ensures OutOfReach(last, ticks, t + 1, id) <==> OutOfReach(next, rest, t, id) {
        OutOfReachLater(last, ticks, t, id);
      }
      assert (forall t :: 0 <= t < |rest| ==> OutOfReach(next, rest, t, id))
             <==> (forall t :: 0 < t < |ticks| ==> OutOfReach(last, ticks, t, id)) by {
        assert forall t :: 0 < t < |ticks| ==> (OutOfReach(last, ticks, t, id) <==> OutOfReach(next, rest, t - 1, id));
      }
    }
  }

  // The order in which the store lists ids.
  predicate Before(a: string, b: string) {
    b != [] && (a == [] || a[0] < b[0] || (a[0] == b[0] && Before(a[1..], b[1..])))
  }

  lemma {:induction false} BeforeIsAsymmetric(a: string, b: string)
    requires Before(a, b)
    ensures a != b && !Before(b, a)
  {
    if a != [] && a[0] == b[0] { BeforeIsAsymmetric(a[1..], b[1..]); }
  }

  lemma {:induction false} BeforeIsIrreflexive(a: string)
    ensures !Before(a, a)
  {
    if a != [] { BeforeIsIrreflexive(a[1..]); }
  }

  ghost predicate Ascending(ids: seq<string>) { forall i, j :: 0 <= i < j < |ids| ==> Before(ids[i], ids[j]) }

  lemma AscendingPlaces(ids: seq<string>, i: nat, j: nat)
    requires Ascending(ids) && i < |ids| && j < |ids|
    ensures Before(ids[i], ids[j]) <==> i < j
    ensures ids[i] == ids[j] <==> i == j
  {
    if i < j {
      BeforeIsAsymmetric(ids[i], ids[j]);
    } else if j < i {
      BeforeIsAsymmetric(ids[j], ids[i]);
    } else {
      BeforeIsIrreflexive(ids[i]);
    }
  }

  lemma AscendingIsDistinct(ids: seq<string>)
    requires Ascending(ids)
    ensures Distinct(ids)
  {
    forall i, j | 0 <= i < j < |ids| ensures ids[i] != ids[j] { AscendingPlaces(ids, i, j); }
  }

  // x comes after `last` and before `id` on the way round.
  predicate Between(last: string, x: string, id: string) {
    if Before(last, id) then Before(last, x) && Before(x, id) else Before(last, x) || Before(x, id)
  }

  // The orders served before `id`.
  function Ahead(last: Option<string>, ids: seq<string>, id: string): seq<string>
    requires id in ids
  {
    Rotated(last, ids)[..Rank(last, ids, id)]
  }

  // With the last served order listed, they are the listed ids on the stretch between it and `id`.
  lemma AheadIsTheStretch(last: string, ids: seq<string>, id: string, x: string)
    requires Ascending(ids) && id in ids && last in ids
    ensures x in Ahead(Some(last), ids, id) <==> x in ids && Between(last, x, id)
  {
    var i, j := IndexOf(ids, last), IndexOf(ids, id);
    AscendingPlaces(ids, i, j);
    var ahead := if j > i then ids[i + 1..j] else ids[i + 1..] + ids[..j];
    assert Ahead(Some(last), ids, id) == ahead;
    if x in ids {
      var k := IndexOf(ids, x);
      AscendingPlaces(ids, i, k);
      AscendingPlaces(ids, k, j);
      StretchHas(ids, i, j, k);
    }
  }

  lemma StretchHas(ids: seq<string>, i: nat, j: nat, k: nat)
    requires Ascending(ids) && i < |ids| && j < |ids| && k < |ids|
    ensures ids[k] in (if j > i then ids[i + 1..j] else ids[i + 1..] + ids[..j]) <==>
            (if j > i then i < k < j else i < k || k < j)
  {
    AscendingIsDistinct(ids);
    if j > i {
      assert i < k < j ==> ids[i + 1..j][k - (i + 1)] == ids[k];
    } else {
      assert i < k ==> ids[i + 1..][k - (i + 1)] == ids[k];
      assert k < j ==> ids[..j][k] == ids[k];
    }
  }

  lemma {:induction false} DistinctWithin(a: seq<string>, b: seq<string>)
    requires Distinct(a) && forall x <- a :: x in b
    ensures |a| <= |b|
    decreases |a|
  {
    if a != [] {
      var last := |a| - 1;
      assert a[last] in b;
      var i :| 0 <= i < |b| && b[i] == a[last];
      var rest := b[..i] + b[i + 1..];
      forall x <- a[..last] ensures x in rest {
        assert x in a;
        var k :| 0 <= k < |b| && b[k] == x;
        assert x != a[last];
        assert k < i ==> rest[k] == x;
        assert k > i ==> rest[k - 1] == x;
      }
      DistinctWithin(a[..last], rest);
    }
  }

  // An unserved order moves up by as many places as were served.
  lemma MovesUp(last: Option<string>, ids: seq<string>, tokens: nat, id: string)
    requires Distinct(ids) && id in ids && Rank(last, ids, id) >= tokens
    ensures Rank(LastAfter(last, ids, tokens), ids, id) == Rank(last, ids, id) - tokens
  {
    ResumesAfter(last, ids, tokens);
  }

  /** The list changes without harm to `id`: the last served order stays listed, and no new id enters the stretch
      between it and `id`. Orders may leave, and arrive elsewhere. */
  ghost predicate Harmless(last: Option<string>, ids: seq<string>, ids': seq<string>, id: string) {
    last.Some? && last.value in ids' && forall x <- ids' :: Between(last.value, x, id) ==> x in ids
  }

  lemma HarmlessKeepsRank(last: string, ids: seq<string>, ids': seq<string>, id: string)
    requires Ascending(ids) && Ascending(ids') && id in ids && id in ids' && last in ids &&
             Harmless(Some(last), ids, ids', id)
    ensures Rank(Some(last), ids', id) <= Rank(Some(last), ids, id)
  {
    var was, now := Ahead(Some(last), ids, id), Ahead(Some(last), ids', id);
    forall x <- now ensures x in was {
      AheadIsTheStretch(last, ids', id, x);
      AheadIsTheStretch(last, ids, id, x);
    }
    AscendingIsDistinct(ids');
    RotatedIsDistinct(Some(last), ids');
    DistinctWithin(now, was);
  }

  lemma RotatedIsDistinct(last: Option<string>, ids: seq<string>)
    requires Distinct(ids)
    ensures Distinct(Rotated(last, ids))
  {
  }

  ghost predicate Steady(last: Option<string>, ticks: seq<Tick>, id: string)
    decreases |ticks|
  {
    |ticks| > 1 ==>
      var next := LastAfter(last, ticks[0].ids, ticks[0].tokens);
      Harmless(next, ticks[0].ids, ticks[1].ids, id) && Steady(next, ticks[1..], id)
  }

  function Tokens(ticks: seq<Tick>): nat { if ticks == [] then 0 else ticks[0].tokens + Tokens(ticks[1..]) }

  ghost predicate Funded(ticks: seq<Tick>, id: string, k: nat) {
    forall t :: 0 <= t < |ticks| ==> Ascending(ticks[t].ids) && id in ticks[t].ids && ticks[t].tokens >= k
  }

  // Passed over in one tick and harmlessly changed, the order is nearer by the tokens spent.
  lemma RankFalls(last: Option<string>, tick: Tick, ids': seq<string>, id: string)
    requires Ascending(tick.ids) && Ascending(ids') && id in tick.ids && id in ids'
    requires 1 <= tick.tokens <= Rank(last, tick.ids, id)
    requires Harmless(LastAfter(last, tick.ids, tick.tokens), tick.ids, ids', id)
    ensures Rank(LastAfter(last, tick.ids, tick.tokens), ids', id) <= Rank(last, tick.ids, id) - tick.tokens
  {
    var next := LastAfter(last, tick.ids, tick.tokens);
    AscendingIsDistinct(tick.ids);
    MovesUp(last, tick.ids, tick.tokens, id);
    assert next.value == Rotated(last, tick.ids)[tick.tokens - 1];
    assert next.value in Rotated(last, tick.ids);
    HarmlessKeepsRank(next.value, tick.ids, ids', id);
  }

  /** While the list changes only harmlessly, a waiting order is served once the tokens spent exceed its rank. */
  lemma {:induction false} ServedUnderHarmlessChange(last: Option<string>, ticks: seq<Tick>, id: string)
    requires ticks != [] && Steady(last, ticks, id) && Funded(ticks, id, 1) &&
             Tokens(ticks) > Rank(last, ticks[0].ids, id)
    ensures id in ServicesOver(last, ticks)
    decreases |ticks|
  {
    var tick, rest := ticks[0], ticks[1..];
    AscendingIsDistinct(tick.ids);
    ServedExactlyWhenInReach(last, tick.ids, tick.tokens, id);
    if Rank(last, tick.ids, id) >= tick.tokens {
      assert rest != [] && rest[0] == ticks[1];
      RankFalls(last, tick, rest[0].ids, id);
      ServedUnderHarmlessChange(LastAfter(last, tick.ids, tick.tokens), rest, id);
    }
  }

  lemma {:induction false} TokensAtLeast(ticks: seq<Tick>, id: string, k: nat)
    requires Funded(ticks, id, k)
    ensures Tokens(ticks) >= |ticks| * k
  {
    if ticks != [] {
      TokensAtLeast(ticks[1..], id, k);
      assert |ticks| * k == |ticks[1..]| * k + k;
    }
  }

  /** So with k >= 1 tokens a tick every order of a list of n is served within ceil(n/k) ticks. */
  lemma ServedWithinCeilingUnderChange(last: Option<string>, ticks: seq<Tick>, id: string, k: nat)
    requires ticks != [] && Steady(last, ticks, id) && k >= 1 && Funded(ticks, id, k) && |ticks| * k >= |ticks[0].ids|
    ensures id in ServicesOver(last, ticks)
  {
    TokensAtLeast(ticks, id, k);
    ServedUnderHarmlessChange(last, ticks, id);
  }

  // ---- neither half of the condition can be dropped ----

  function Fresh(n: nat): (s: string)
    ensures |s| == n + 2 && s[0] == 'a'
  {
    if n == 0 then "aa" else Fresh(n - 1) + "a"
  }

  lemma {:induction false} FreshPrefix(i: nat, j: nat)
    requires i <= j
    ensures Fresh(i) <= Fresh(j)
    decreases j
  {
    if i < j { FreshPrefix(i, j - 1); }
  }

  lemma {:induction false} PrefixIsBefore(a: string, b: string)
    requires a <= b && a != b
    ensures Before(a, b)
  {
    if a != [] { PrefixIsBefore(a[1..], b[1..]); }
  }

  // The first m fresh ids in front of "b".
  function Crowd(m: nat): (ids: seq<string>)
    ensures |ids| == m + 1 && ids[m] == "b" && forall i :: 0 <= i < m ==> ids[i] == Fresh(i)
  {
    seq(m, (i: nat) => Fresh(i)) + ["b"]
  }

  lemma CrowdAscends(m: nat)
    ensures Ascending(Crowd(m))
  {
    forall i, j | 0 <= i < j < |Crowd(m)| ensures Before(Crowd(m)[i], Crowd(m)[j]) {
      if j < m {
        FreshPrefix(i, j);
        PrefixIsBefore(Fresh(i), Fresh(j));
      }
    }
  }

  // Every tick has one token, an ascending list and the waiting order "b" in it.
  ghost predicate OneTokenEach(ticks: seq<Tick>) {
    forall t :: 0 <= t < |ticks| ==> ticks[t].tokens == 1 && Ascending(ticks[t].ids) && "b" in ticks[t].ids
  }

  // At every change the order served last leaves, and no new id enters the stretch between it and `id`.
  ghost predicate OnlyTheServedLeaves(last: Option<string>, ticks: seq<Tick>, id: string)
    decreases |ticks|
  {
    |ticks| > 1 ==>
      var next := LastAfter(last, ticks[0].ids, ticks[0].tokens);
      && next.Some? && next.value !in ticks[1].ids
      && (forall x <- ticks[1].ids :: Between(next.value, x, id) ==> x in ticks[0].ids)
      && OnlyTheServedLeaves(next, ticks[1..], id)
  }

  /** The last served order must stay listed: if it always resolves, a waiting order can be passed over for any number
      of ticks although nobody ever enters the stretch before it. */
  lemma {:induction false} ChurnStarves(n: nat, last: Option<string>) returns (ticks: seq<Tick>)
    requires last.Some? ==> last.value == Fresh(n)
    ensures |ticks| == n && OneTokenEach(ticks) && "b" !in ServicesOver(last, ticks)
    ensures OnlyTheServedLeaves(last, ticks, "b")
    ensures n > 0 ==> ticks[0].ids == [Fresh(n - 1), "b"]
  {
    if n == 0 {
      ticks := [];
    } else {
      var tick := Tick([Fresh(n - 1), "b"], 1);
      PairTick(n, last);
      var rest := ChurnStarves(n - 1, Some(Fresh(n - 1)));
      ticks := [tick] + rest;
      assert ticks[1..] == rest;
      if n > 1 { NothingBetween(n - 1); }
    }
  }

  // A cursor whose last served order is gone starts at the front.
  lemma PairTick(n: nat, last: Option<string>)
    requires n > 0 && (last.Some? ==> last.value == Fresh(n))
    ensures var ids := [Fresh(n - 1), "b"];
            && Ascending(ids) && Served(last, ids, 1) == [Fresh(n - 1)] && LastAfter(last, ids, 1) == Some(Fresh(n - 1))
  {
    var ids := [Fresh(n - 1), "b"];
    assert last.Some? ==> |last.value| != |ids[0]| && |last.value| != |ids[1]|;
    assert Rotated(last, ids) == ids;
  }

  // The next pair has no id on the stretch from the order just served to "b".
  lemma NothingBetween(n: nat)
    requires n > 0
    ensures Fresh(n) !in [Fresh(n - 1), "b"] && forall x <- [Fresh(n - 1), "b"] :: !Between(Fresh(n), x, "b")
  {
    FreshPrefix(n - 1, n);
    PrefixIsBefore(Fresh(n - 1), Fresh(n));
    BeforeIsAsymmetric(Fresh(n - 1), Fresh(n));
    BeforeIsIrreflexive("b");
    assert |Fresh(n)| != |Fresh(n - 1)| && |Fresh(n)| != |"b"|;
  }

  // Nobody leaves: each list holds the one before, and the order served last.
  ghost predicate NobodyLeaves(last: Option<string>, ticks: seq<Tick>)
    decreases |ticks|
  {
    ticks != [] ==>
      && (last.Some? ==> last.value in ticks[0].ids)
      && (|ticks| > 1 ==> forall x <- ticks[0].ids :: x in ticks[1].ids)
      && NobodyLeaves(LastAfter(last, ticks[0].ids, ticks[0].tokens), ticks[1..])
  }

  /** Nor may new orders enter the stretch: if one arrives there before every tick, a waiting order is passed over for
      any number of ticks although nobody ever leaves. */
  lemma {:induction false} ArrivalsStarve(n: nat, first: nat, last: Option<string>) returns (ticks: seq<Tick>)
    requires last == if first == 0 then None else Some(Fresh(first - 1))
    ensures |ticks| == n && OneTokenEach(ticks) && NobodyLeaves(last, ticks) && "b" !in ServicesOver(last, ticks)
    ensures n > 0 ==> ticks[0].ids == Crowd(first + 1)
  {
    if n == 0 {
      ticks := [];
    } else {
      var tick := Tick(Crowd(first + 1), 1);
      ArrivalTick(first, last);
      var rest := ArrivalsStarve(n - 1, first + 1, Some(Fresh(first)));
      CrowdGrows(first + 1);
      OneMoreTick(tick, rest, last);
      ticks := [tick] + rest;
    }
  }

  lemma ArrivalTick(first: nat, last: Option<string>)
    requires last == if first == 0 then None else Some(Fresh(first - 1))
    ensures var ids := Crowd(first + 1);
            && Ascending(ids) && "b" in ids && "b" !in Served(last, ids, 1) && (last.Some? ==> last.value in ids)
            && LastAfter(last, ids, 1) == Some(Fresh(first))
  {
    var ids := Crowd(first + 1);
    CrowdAscends(first + 1);
    NewestIsServed(first, last);
    assert ids[first + 1] == "b";
    assert last.Some? ==> last.value == ids[first - 1];
  }

  lemma CrowdGrows(m: nat)
    ensures forall x <- Crowd(m) :: x in Crowd(m + 1)
  {
    forall x <- Crowd(m) ensures x in Crowd(m + 1) {
      var i :| 0 <= i <= m && Crowd(m)[i] == x;
      assert Crowd(m + 1)[if i == m then m + 1 else i] == x;
    }
  }

  lemma OneMoreTick(tick: Tick, rest: seq<Tick>, last: Option<string>)
    requires tick.tokens == 1 && Ascending(tick.ids) && "b" in tick.ids && "b" !in Served(last, tick.ids, 1) &&
             OneTokenEach(rest)
    requires var next := LastAfter(last, tick.ids, 1); NobodyLeaves(next, rest) && "b" !in ServicesOver(next, rest)
    requires (last.Some? ==> last.value in tick.ids) && (rest != [] ==> forall x <- tick.ids :: x in rest[0].ids)
    ensures OneTokenEach([tick] + rest) && NobodyLeaves(last, [tick] + rest) &&
            "b" !in ServicesOver(last, [tick] + rest)
  {
    var ticks := [tick] + rest;
    assert ticks[0] == tick && ticks[1..] == rest;
    assert |ticks| > 1 ==> ticks[1] == rest[0];
  }

  lemma NewestIsServed(first: nat, last: Option<string>)
    requires last == if first == 0 then None else Some(Fresh(first - 1))
    ensures Served(last, Crowd(first + 1), 1) == [Fresh(first)] &&
            LastAfter(last, Crowd(first + 1), 1) == Some(Fresh(first))
    ensures Fresh(first) != "b"
  {
    var ids := Crowd(first + 1);
    CrowdAscends(first + 1);
    AscendingIsDistinct(ids);
    if first > 0 { DistinctIndex(ids, first - 1); }
    assert Rotated(last, ids)[0] == ids[first];
  }
}
