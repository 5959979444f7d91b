/** Known fills are charged to accepted legs cheapest first. No other way of charging them leaves a larger remaining
    notional: the proof prices every share at a marginal price, which bounds all allocations and is met by this one. */
module CheapestFirst {

  datatype Leg = Leg(quantity: nat, price: real)

  predicate Sorted(legs: seq<Leg>) { forall i, j :: 0 <= i < j < |legs| ==> legs[i].price <= legs[j].price }

  predicate Priced(legs: seq<Leg>) { forall i :: 0 <= i < |legs| ==> legs[i].price >= 0.0 }

  function Min(a: nat, b: nat): nat { if a <= b then a else b }

  function Quantity(legs: seq<Leg>): nat { if legs == [] then 0 else legs[0].quantity + Quantity(legs[1..]) }

  // Notional left after charging the fills leg by leg in list order.
  function Remaining(legs: seq<Leg>, fills: nat): real {
    if legs == [] then 0.0
    else
      var consumed := Min(legs[0].quantity, fills);
      (legs[0].quantity - consumed) as real * legs[0].price + Remaining(legs[1..], fills - consumed)
  }

  // Any other way of charging: c[i] shares to leg i.
  ghost predicate Allocation(legs: seq<Leg>, c: seq<nat>) {
    |c| == |legs| && forall i :: 0 <= i < |legs| ==> c[i] <= legs[i].quantity
  }

  function Charged(c: seq<nat>): nat { if c == [] then 0 else c[0] + Charged(c[1..]) }

  ghost function Left(legs: seq<Leg>, c: seq<nat>): real
    requires Allocation(legs, c)
  {
    if legs == [] then 0.0 else (legs[0].quantity - c[0]) as real * legs[0].price + Left(legs[1..], c[1..])
  }

  // ---- the marginal price bound ----

  function Max(a: real, b: real): real { if a >= b then a else b }

  // The value of all legs when no share is worth less than the marginal price.
  function Propped(legs: seq<Leg>, margin: real): real {
    if legs == [] then 0.0 else legs[0].quantity as real * Max(legs[0].price, margin) + Propped(legs[1..], margin)
  }

  // The marginal price, once per charged share.
  function Charge(margin: real, shares: nat): real { if shares == 0 then 0.0 else margin + Charge(margin, shares - 1) }

  lemma {:induction false} ChargeIsProduct(margin: real, shares: nat)
    ensures Charge(margin, shares) == margin * shares as real
  {
    if shares > 0 { ChargeIsProduct(margin, shares - 1); }
  }

  lemma ChargeAdds(margin: real, a: nat, b: nat)
    ensures Charge(margin, a + b) == Charge(margin, a) + Charge(margin, b)
  {
    ChargeIsProduct(margin, a);
    ChargeIsProduct(margin, b);
    ChargeIsProduct(margin, a + b);
    assert margin * (a + b) as real == margin * a as real + margin * b as real;
  }

  lemma OneLeg(q: real, c: real, p: real, margin: real)
    requires 0.0 <= c <= q
    ensures (q - c) * p <= q * Max(p, margin) - margin * c
  {
    var m := Max(p, margin);
    assert (q - c) * (m - p) >= 0.0;
    assert c * (m - margin) >= 0.0;
    assert (q - c) * p + (q - c) * (m - p) + c * (m - margin) == q * m - margin * c;
  }

  // One leg at the propped price.
  function ProppedLeg(leg: Leg, margin: real): real { leg.quantity as real * Max(leg.price, margin) }

  lemma ProppedUnfolds(legs: seq<Leg>, margin: real)
    requires legs != []
    ensures Propped(legs, margin) == ProppedLeg(legs[0], margin) + Propped(legs[1..], margin)
  {
  }

  // One leg after some shares are charged to it.
  function LeftLeg(leg: Leg, c: nat): real { (leg.quantity - c) as real * leg.price }

  lemma LeftUnfolds(legs: seq<Leg>, c: seq<nat>)
    requires legs != [] && Allocation(legs, c)
    ensures Left(legs, c) == LeftLeg(legs[0], c[0]) + Left(legs[1..], c[1..])
  {
  }

  lemma OneLegBounded(leg: Leg, c: nat, margin: real)
    requires c <= leg.quantity
    ensures LeftLeg(leg, c) <= ProppedLeg(leg, margin) - Charge(margin, c)
  {
    ChargeIsProduct(margin, c);
    OneLeg(leg.quantity as real, c as real, leg.price, margin);
  }

  lemma {:induction false} Bounded(legs: seq<Leg>, c: seq<nat>, margin: real)
    requires Allocation(legs, c)
    ensures Left(legs, c) <= Propped(legs, margin) - Charge(margin, Charged(c))
  {
    if legs != [] {
      Bounded(legs[1..], c[1..], margin);
      LeftUnfolds(legs, c);
      ProppedUnfolds(legs, margin);
      OneLegBounded(legs[0], c[0], margin);
      ChargeAdds(margin, c[0], Charged(c[1..]));
    }
  }

  // The price of the leg at which the fills run out, or of the dearest leg when they never do.
  function Margin(legs: seq<Leg>, fills: nat): real
    requires legs != []
  {
    if fills < legs[0].quantity || |legs| == 1 then legs[0].price else Margin(legs[1..], fills - legs[0].quantity)
  }

  lemma {:induction false} MarginIsAPrice(legs: seq<Leg>, fills: nat)
    requires legs != [] && Sorted(legs)
    ensures legs[0].price <= Margin(legs, fills)
  {
    if fills >= legs[0].quantity && |legs| > 1 { MarginIsAPrice(legs[1..], fills - legs[0].quantity); }
  }

  lemma {:induction false} NoFills(legs: seq<Leg>, margin: real)
    requires forall i :: 0 <= i < |legs| ==> margin <= legs[i].price
    ensures Remaining(legs, 0) == Propped(legs, margin)
  {
    if legs != [] { NoFills(legs[1..], margin); }
  }

  // At the marginal price the bound is met.
  lemma {:induction false} MetAtMargin(legs: seq<Leg>, fills: nat)
    requires legs != [] && Sorted(legs)
    ensures Remaining(legs, fills)
              == Propped(legs, Margin(legs, fills)) - Charge(Margin(legs, fills), Min(fills, Quantity(legs)))
  {
    var first, rest, margin := legs[0], legs[1..], Margin(legs, fills);
    if fills < first.quantity {
      NoFills(rest, margin);
      assert Min(fills, Quantity(legs)) == fills;
      ChargeIsProduct(margin, fills);
      assert (first.quantity - fills) as real * margin == first.quantity as real * margin - margin * fills as real;
    } else if |legs| == 1 {
      assert rest == [];
      ChargeIsProduct(margin, first.quantity);
    } else {
      MetAtMargin(rest, fills - first.quantity);
      MarginIsAPrice(rest, fills - first.quantity);
      var later := Min(fills - first.quantity, Quantity(rest));
      assert Min(fills, Quantity(legs)) == first.quantity + later;
      ChargeIsProduct(margin, first.quantity);
      ChargeAdds(margin, first.quantity, later);
      assert Max(first.price, margin) == margin;
    }
  }

  /** Cheapest first is the worst case: no allocation of the same number of fills leaves more notional. */
  lemma CheapestFirstIsMaximal(legs: seq<Leg>, fills: nat, c: seq<nat>)
    requires Sorted(legs) && Allocation(legs, c) && Charged(c) == Min(fills, Quantity(legs))
    ensures Left(legs, c) <= Remaining(legs, fills)
  {
    if legs != [] {
      Bounded(legs, c, Margin(legs, fills));
      MetAtMargin(legs, fills);
    }
  }

  // The allocation that cheapest-first makes.
  ghost function Greedy(legs: seq<Leg>, fills: nat): (c: seq<nat>)
    ensures Allocation(legs, c)
  {
    if legs == [] then []
    else
      var consumed := Min(legs[0].quantity, fills);
      var rest := Greedy(legs[1..], fills - consumed);
      assert forall i :: 0 < i < |legs| ==> ([consumed] + rest)[i] == rest[i - 1] <= legs[1..][i - 1].quantity;
      [consumed] + rest
  }

  /** ... and the maximum is reached by an allocation of exactly those fills. */
  lemma {:induction false} CheapestFirstIsReached(legs: seq<Leg>, fills: nat)
    ensures Charged(Greedy(legs, fills)) == Min(fills, Quantity(legs))
    ensures Left(legs, Greedy(legs, fills)) == Remaining(legs, fills)
  {
    if legs != [] {
      var consumed := Min(legs[0].quantity, fills);
      CheapestFirstIsReached(legs[1..], fills - consumed);
      assert Greedy(legs, fills)[1..] == Greedy(legs[1..], fills - consumed);
    }
  }

  // ---- consequences ----

  lemma {:induction false} QuantitySplits(a: seq<Leg>, b: seq<Leg>)
    ensures Quantity(a + b) == Quantity(a) + Quantity(b)
  {
    if a == [] {
      assert a + b == b;
    } else {
      assert (a + b)[1..] == a[1..] + b;
      QuantitySplits(a[1..], b);
    }
  }

  lemma {:induction false} QuantityMoves(before: seq<Leg>, leg: Leg, after: seq<Leg>)
    ensures Quantity(before + [leg] + after) == leg.quantity + Quantity(before + after)
  {
    var all := before + [leg] + after;
    if before == [] {
      assert all[0] == leg && all[1..] == after && before + after == after;
    } else {
      QuantityMoves(before[1..], leg, after);
      assert all[0] == before[0] && all[1..] == before[1..] + [leg] + after;
      assert (before + after)[0] == before[0] && (before + after)[1..] == before[1..] + after;
    }
  }

  lemma {:induction false} ProppedMoves(before: seq<Leg>, leg: Leg, after: seq<Leg>, margin: real)
    ensures Propped(before + [leg] + after, margin) == ProppedLeg(leg, margin) + Propped(before + after, margin)
  {
    var all := before + [leg] + after;
    ProppedUnfolds(all, margin);
    if before == [] {
      assert all[1..] == after && before + after == after;
    } else {
      ProppedMoves(before[1..], leg, after, margin);
      ProppedUnfolds(before + after, margin);
      assert all[1..] == before[1..] + [leg] + after;
      assert (before + after)[1..] == before[1..] + after;
    }
  }

  lemma TakeOut<T>(a: seq<T>, b: seq<T>) returns (before: seq<T>, after: seq<T>)
    requires multiset(a) == multiset(b) && a != []
    ensures b == before + [a[0]] + after && multiset(a[1..]) == multiset(before + after)
  {
    assert a[0] in multiset(b);
    var i :| 0 <= i < |b| && b[i] == a[0];
    before, after := b[..i], b[i + 1..];
    assert b == before + [a[0]] + after;
    assert a == [a[0]] + a[1..];
    assert multiset(a) == multiset{a[0]} + multiset(a[1..]);
    assert multiset(b) == multiset{a[0]} + multiset(before + after);
    assert multiset(a) - multiset{a[0]} == multiset(a[1..]);
  }

  lemma {:induction false} SumsPermute(a: seq<Leg>, b: seq<Leg>, margin: real)
    requires multiset(a) == multiset(b)
    ensures Quantity(a) == Quantity(b) && Propped(a, margin) == Propped(b, margin)
    decreases |a|
  {
    if a == [] {
      assert |b| == |multiset(b)| == 0;
    } else {
      var before, after := TakeOut(a, b);
      SumsPermute(a[1..], before + after, margin);
      QuantityMoves(before, a[0], after);
      ProppedMoves(before, a[0], after, margin);
      ProppedUnfolds(a, margin);
    }
  }

  lemma {:induction false} UnderAnyMargin(legs: seq<Leg>, fills: nat, margin: real)
    ensures Remaining(legs, fills) <= Propped(legs, margin) - Charge(margin, Min(fills, Quantity(legs)))
  {
    CheapestFirstIsReached(legs, fills);
    Bounded(legs, Greedy(legs, fills), margin);
  }

  lemma SortedAlikeLeavesNoMore(a: seq<Leg>, b: seq<Leg>, fills: nat)
    requires b != [] && Sorted(b) && multiset(a) == multiset(b)
    ensures Remaining(a, fills) <= Remaining(b, fills)
  {
    MetAtMargin(b, fills);
    SumsPermute(a, b, Margin(b, fills));
    UnderAnyMargin(a, fills, Margin(b, fills));
  }

  /** How equal prices are ordered does not matter. */
  lemma SortingIsIrrelevant(a: seq<Leg>, b: seq<Leg>, fills: nat)
    requires Sorted(a) && Sorted(b) && multiset(a) == multiset(b)
    ensures Remaining(a, fills) == Remaining(b, fills)
  {
    assert |a| == |multiset(a)| == |multiset(b)| == |b|;
    if a != [] {
      SortedAlikeLeavesNoMore(a, b, fills);
      SortedAlikeLeavesNoMore(b, a, fills);
    }
  }

  lemma Scaled(q: int, r: int, p: real)
    requires q <= r && p >= 0.0
    ensures q as real * p <= r as real * p
  {
  }

  /** One more fill never raises the remaining notional. */
  lemma {:induction false} MoreFillsLeaveLess(legs: seq<Leg>, fills: nat, more: nat)
    requires Priced(legs) && fills <= more
    ensures 0.0 <= Remaining(legs, more) <= Remaining(legs, fills)
  {
    if legs != [] {
      var first := legs[0];
      var few, many := Min(first.quantity, fills), Min(first.quantity, more);
      MoreFillsLeaveLess(legs[1..], fills - few, more - many);
      Scaled(first.quantity - many, first.quantity - few, first.price);
      Scaled(0, first.quantity - many, first.price);
    }
  }

  // An allocation with some leg taken out.
  lemma {:induction false} LeftSplits(a: seq<Leg>, b: seq<Leg>, c: seq<nat>, d: seq<nat>)
    requires Allocation(a, c) && Allocation(b, d)
    ensures Allocation(a + b, c + d) && Left(a + b, c + d) == Left(a, c) + Left(b, d) &&
            Charged(c + d) == Charged(c) + Charged(d)
  {
    if a == [] {
      assert a + b == b && c + d == d;
    } else {
      assert (a + b)[1..] == a[1..] + b && (c + d)[1..] == c[1..] + d;
      LeftSplits(a[1..], b, c[1..], d);
    }
  }

  // The same charges, and some to the leg put between.
  lemma ChargeOneMore(a: seq<Leg>, leg: Leg, b: seq<Leg>, c: seq<nat>, extra: nat) returns (d: seq<nat>)
    requires Allocation(a + b, c) && extra <= leg.quantity && leg.price >= 0.0
    ensures Allocation(a + [leg] + b, d) && Charged(d) == Charged(c) + extra && Left(a + b, c) <= Left(a + [leg] + b, d)
  {
    var left, right := c[..|a|], c[|a|..];
    assert c == left + right;
    assert Allocation(a, left) by { assert forall i :: 0 <= i < |a| ==> left[i] == c[i] && (a + b)[i] == a[i]; }
    assert Allocation(b, right) by {
      assert forall i :: 0 <= i < |b| ==> right[i] == c[|a| + i] && (a + b)[|a| + i] == b[i];
    }
    LeftSplits(a, b, left, right);
    SingleLeg(leg, extra);
    LeftSplits(a, [leg], left, [extra]);
    LeftSplits(a + [leg], b, left + [extra], right);
    d := left + [extra] + right;
  }

  lemma SingleLeg(leg: Leg, extra: nat)
    requires extra <= leg.quantity && leg.price >= 0.0
    ensures Allocation([leg], [extra]) && Left([leg], [extra]) >= 0.0 && Charged([extra]) == extra &&
            Quantity([leg]) == leg.quantity
  {
    assert [leg][1..] == [] && [extra][1..] == [];
    Scaled(0, leg.quantity - extra, leg.price);
  }

  /** One more accepted leg, wherever its price puts it, never lowers the remaining notional. */
  lemma MoreLegsLeaveMore(a: seq<Leg>, leg: Leg, b: seq<Leg>, fills: nat)
    requires Sorted(a + [leg] + b) && leg.price >= 0.0
    ensures Remaining(a + b, fills) <= Remaining(a + [leg] + b, fills)
  {
    CheapestFirstIsReached(a + b, fills);
    QuantitySplits(a, b);
    QuantitySplits(a + [leg], b);
    QuantitySplits(a, [leg]);
    SingleLeg(leg, 0);
    var few := Quantity(a + b);
    var extra := Min(fills, few + leg.quantity) - Min(fills, few);
    var d := ChargeOneMore(a, leg, b, Greedy(a + b, fills), extra);
    CheapestFirstIsMaximal(a + [leg] + b, fills, d);
  }
}
