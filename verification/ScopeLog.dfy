/** Before a managed order is sent, the exact request is written to the execution log under the current
    submission claim, and every retry under that claim replays it. The log is read back by a map that
    refuses poisoned history. */
module ScopeLog {
  import opened Wrappers
  import opened Orders
  import opened ScopeEvents

  // ---- the log, order by order ----

  // The events of one kind that belong to one order, in log order.
  function Of(log: seq<Entry>, kind: Kind, id: string): (r: seq<Entry>)
    ensures |r| <= |log|
  {
    if log == [] then []
    else
      var rest, e := Of(log[..|log| - 1], kind, id), log[|log| - 1];
      if e.event.kind == kind && e.event.orderId == Some(id) then rest + [e] else rest
  }

  lemma {:induction false} OfSplits(a: seq<Entry>, b: seq<Entry>, kind: Kind, id: string)
    ensures Of(a + b, kind, id) == Of(a, kind, id) + Of(b, kind, id)
    decreases |b|
  {
    if b == [] {
      assert a + b == a;
    } else {
      assert (a + b)[..|a + b| - 1] == a + b[..|b| - 1];
      OfSplits(a, b[..|b| - 1], kind, id);
    }
  }

  lemma OfStep(log: seq<Entry>, i: nat, kind: Kind, id: string)
    requires i < |log|
    ensures Of(log[..i + 1], kind, id)
              == Of(log[..i], kind, id) + (if log[i].event.kind == kind &&
                                           log[i].event.orderId == Some(id) then [log[i]] else [])
  {
    assert log[..i + 1][..i] == log[..i];
  }

  // The claims are numbered 0, 1, 2, ... and each is well formed.
  predicate ClaimsOk(claims: seq<Entry>, id: string) {
    forall k :: 0 <= k < |claims| ==> ClaimOk(claims[k].event, k, id)
  }

  function Claims(log: seq<Entry>, id: string): seq<Entry> { Of(log, SubmitPending, id) }

  function Scopes(log: seq<Entry>, id: string): seq<Entry> { Of(log, VenueScope, id) }

  predicate FitsClaim(r: Entry, claims: seq<Entry>) {
    && r.read.scope.Some? && r.read.occurrence < |claims|
    && var claim := claims[r.read.occurrence];
       r.read.symbol == claim.event.symbol && r.read.side == claim.event.side && r.read.session == claim.event.session
  }

  // Each scope names a claim it agrees with, and no claim has two.
  predicate ScopesOk(scopes: seq<Entry>, claims: seq<Entry>) {
    && (forall k :: 0 <= k < |scopes| ==> FitsClaim(scopes[k], claims))
    && (forall j, k :: 0 <= j < k < |scopes| ==> scopes[j].read.occurrence != scopes[k].read.occurrence)
  }

  predicate OrderOk(log: seq<Entry>, id: string) {
    ClaimsOk(Claims(log, id), id) && ScopesOk(Scopes(log, id), Claims(log, id))
  }

  predicate Owned(log: seq<Entry>) {
    forall e <- log :: e.event.kind != OtherKind ==> e.event.orderId.Some?
  }

  /** The history the reader accepts: every order's own claims and scopes are sound. */
  ghost predicate Accepts(log: seq<Entry>) { Owned(log) && forall id :: OrderOk(log, id) }

  // The last recorded scope that names an occurrence.
  function ScopeAt(scopes: seq<Entry>, occurrence: nat): Option<Scope> {
    if scopes == [] then None
    else
      var r := scopes[|scopes| - 1];
      if r.read.occurrence == occurrence then r.read.scope else ScopeAt(scopes[..|scopes| - 1], occurrence)
  }

  /** The scope in force for an order: the one recorded under its latest claim, if any. */
  function Current(log: seq<Entry>, id: string): Option<Scope> {
    var claims := Claims(log, id);
    if claims == [] then None else ScopeAt(Scopes(log, id), |claims| - 1)
  }

  ghost predicate IsScopeMap(m: map<string, Scope>, log: seq<Entry>) {
    forall id :: Lookup(m, id) == Current(log, id)
  }

  // ---- the readers ----

  datatype Tables = Tables(claims: map<(string, nat), Entry>, current: map<string, nat>, expected: map<string, nat>)

  // What the claim tables hold of one order after a prefix of the log.
  ghost predicate ClaimRows(t: Tables, claims: seq<Entry>, id: string) {
    && (id in t.current <==> claims != []) && (id in t.expected <==> claims != [])
    && (claims != [] ==> t.current[id] == |claims| - 1 && t.expected[id] == |claims|)
    && (forall n: nat :: (id, n) in t.claims <==> n < |claims|)
    && (forall n: nat :: n < |claims| ==> t.claims[(id, n)] == claims[n])
    && ClaimsOk(claims, id)
  }

  ghost predicate ClaimTables(t: Tables, log: seq<Entry>) {
    forall id :: ClaimRows(t, Claims(log, id), id)
  }

  function Claimed(t: Tables, id: string, e: Entry, n: nat): Tables {
    Tables(t.claims[(id, n) := e], t.current[id := n], t.expected[id := n + 1])
  }

  lemma ClaimStep(t: Tables, log: seq<Entry>, i: nat, id: string)
    requires i < |log| && log[i].event.kind == SubmitPending && log[i].event.orderId == Some(id)
    requires ClaimTables(t, log[..i]) && ClaimOk(log[i].event, |Claims(log[..i], id)|, id)
    ensures ClaimTables(Claimed(t, id, log[i], |Claims(log[..i], id)|), log[..i + 1])
  {
    var t' := Claimed(t, id, log[i], |Claims(log[..i], id)|);
    var now := log[..i + 1];
    forall other ensures ClaimRows(t', Claims(now, other), other) {
      OfStep(log, i, SubmitPending, other);
      assert ClaimRows(t, Claims(log[..i], other), other);
    }
  }

  lemma NoClaimStep(t: Tables, log: seq<Entry>, i: nat)
    requires i < |log| && log[i].event.kind != SubmitPending && ClaimTables(t, log[..i])
    ensures ClaimTables(t, log[..i + 1])
  {
    var now := log[..i + 1];
    forall id ensures ClaimRows(t, Claims(now, id), id) {
      OfStep(log, i, SubmitPending, id);
      assert ClaimRows(t, Claims(log[..i], id), id);
    }
  }

  // Events of an order seen in a prefix stay where they are.
  lemma OfPrefix(log: seq<Entry>, i: nat, kind: Kind, id: string)
    requires i <= |log|
    ensures Of(log[..i], kind, id) <= Of(log, kind, id)
  {
    assert log == log[..i] + log[i..];
    OfSplits(log[..i], log[i..], kind, id);
  }

  method ReadClaims(log: seq<Entry>) returns (r: Option<Tables>)
    ensures r.Some? ==>
            ClaimTables(r.value, log) && forall e <- log :: e.event.kind == SubmitPending ==> e.event.orderId.Some?
    ensures r == None ==> !Accepts(log)
  {
    var t := Tables(map[], map[], map[]);
    for i := 0 to |log|
      invariant forall k :: 0 <= k < i && log[k].event.kind == SubmitPending ==> log[k].event.orderId.Some?
      invariant ClaimTables(t, log[..i])
    {
      var e := log[i];
      if e.event.kind != SubmitPending {
        NoClaimStep(t, log, i);
        continue;
      }
      if e.event.orderId == None { return None; }
      var id := e.event.orderId.value;
      assert ClaimRows(t, Claims(log[..i], id), id);
      var expected: nat := if id in t.expected then t.expected[id] else 0;
      if !ClaimOk(e.event, expected, id) {
        OfStep(log, i, SubmitPending, id);
        OfPrefix(log, i + 1, SubmitPending, id);
        assert Claims(log, id)[expected] == e;
        assert !OrderOk(log, id);
        return None;
      }
      ClaimStep(t, log, i, id);
      t := Claimed(t, id, e, expected);
    }
    assert log[..|log|] == log;
    r := Some(t);
  }

  ghost predicate ScopeRows(found: map<(string, nat), Scope>, scopes: seq<Entry>, claims: seq<Entry>, id: string) {
    ScopesOk(scopes, claims) && forall n: nat :: Lookup(found, (id, n)) == ScopeAt(scopes, n)
  }

  ghost predicate ScopeTable(found: map<(string, nat), Scope>, prefix: seq<Entry>, log: seq<Entry>) {
    forall id :: ScopeRows(found, Scopes(prefix, id), Claims(log, id), id)
  }

  // A lookup finds a scope exactly when one names the occurrence, and then it is that one.
  lemma {:induction false} ScopeAtFinds(scopes: seq<Entry>, n: nat)
    requires forall k :: 0 <= k < |scopes| ==> scopes[k].read.scope.Some?
    ensures ScopeAt(scopes, n) == None ==> forall k :: 0 <= k < |scopes| ==> scopes[k].read.occurrence != n
    ensures ScopeAt(scopes, n).Some? ==>
            exists k :: 0 <= k < |scopes| && scopes[k].read.occurrence == n && scopes[k].read.scope == ScopeAt(scopes,
                    n)
    decreases |scopes|
  {
    if scopes != [] {
      var last := |scopes| - 1;
      if scopes[last].read.occurrence != n {
        ScopeAtFinds(scopes[..last], n);
      }
    }
  }

  lemma ScopesStep(found: map<(string, nat), Scope>, scopes: seq<Entry>, r: Entry, claims: seq<Entry>, id: string)
    requires ScopeRows(found, scopes, claims, id) && FitsClaim(r, claims) && (id, r.read.occurrence) !in found
    ensures ScopeRows(found[(id, r.read.occurrence) := r.read.scope.value], scopes + [r], claims, id)
  {
    var found', scopes' := found[(id, r.read.occurrence) := r.read.scope.value], scopes + [r];
    assert Lookup(found, (id, r.read.occurrence)) == ScopeAt(scopes, r.read.occurrence);
    ScopeAtFinds(scopes, r.read.occurrence);
    assert scopes'[..|scopes|] == scopes;
    forall n: nat ensures Lookup(found', (id, n)) == ScopeAt(scopes', n) {
      assert Lookup(found, (id, n)) == ScopeAt(scopes, n);
    }
  }

  // The rows of other orders do not notice.
  lemma ScopesKept(found: map<(string, nat), Scope>, scopes: seq<Entry>, claims: seq<Entry>, id: string,
                   other: (string, nat), scope: Scope)
    requires ScopeRows(found, scopes, claims, id) && other.0 != id
    ensures ScopeRows(found[other := scope], scopes, claims, id)
  {
    forall n: nat ensures Lookup(found[other := scope], (id, n)) == ScopeAt(scopes, n) {
      assert Lookup(found, (id, n)) == ScopeAt(scopes, n);
    }
  }

  lemma ScopesOfNext(prefix: seq<Entry>, e: Entry, id: string)
    ensures Scopes(prefix + [e], id)
              == Scopes(prefix, id) + (if e.event.kind == VenueScope && e.event.orderId == Some(id) then [e] else [])
  {
    assert (prefix + [e])[..|prefix|] == prefix;
  }

  lemma ScopeStep(found: map<(string, nat), Scope>, prefix: seq<Entry>, e: Entry, log: seq<Entry>, id: string)
    requires e.event.kind == VenueScope && e.event.orderId == Some(id) && ScopeTable(found, prefix, log)
    requires FitsClaim(e, Claims(log, id)) && (id, e.read.occurrence) !in found
    ensures ScopeTable(found[(id, e.read.occurrence) := e.read.scope.value], prefix + [e], log)
  {
    var now := prefix + [e];
    var found' := found[(id, e.read.occurrence) := e.read.scope.value];
    forall other ensures ScopeRows(found', Scopes(now, other), Claims(log, other), other) {
      ScopesOfNext(prefix, e, other);
      var scopes, claims := Scopes(prefix, other), Claims(log, other);
      assert ScopeRows(found, scopes, claims, other);
      if other == id {
        ScopesStep(found, scopes, e, claims, id);
      } else {
        ScopesKept(found, scopes, claims, other, (id, e.read.occurrence), e.read.scope.value);
      }
    }
  }

  lemma NoScopeStep(found: map<(string, nat), Scope>, prefix: seq<Entry>, e: Entry, log: seq<Entry>)
    requires e.event.kind != VenueScope && ScopeTable(found, prefix, log)
    ensures ScopeTable(found, prefix + [e], log)
  {
    var now := prefix + [e];
    forall id ensures ScopeRows(found, Scopes(now, id), Claims(log, id), id) {
      ScopesOfNext(prefix, e, id);
      assert ScopeRows(found, Scopes(prefix, id), Claims(log, id), id);
    }
  }

  // A scope that fits no claim, or repeats an occurrence, spoils its order.
  lemma BadScope(found: map<(string, nat), Scope>, log: seq<Entry>, i: nat, id: string)
    requires i < |log| && log[i].event.kind == VenueScope && log[i].event.orderId == Some(id) &&
             ScopeTable(found, log[..i], log)
    requires !FitsClaim(log[i], Claims(log, id)) || (id, log[i].read.occurrence) in found
    ensures !OrderOk(log, id)
  {
    var before, scopes := Scopes(log[..i], id), Scopes(log, id);
    ScopesOfNext(log[..i], log[i], id);
    OfSplits(log[..i] + [log[i]], log[i + 1..], VenueScope, id);
    assert log == log[..i] + [log[i]] + log[i + 1..];
    assert scopes[|before|] == log[i] && before <= scopes;
    assert ScopeRows(found, before, Claims(log, id), id);
    if (id, log[i].read.occurrence) in found {
      assert Lookup(found, (id, log[i].read.occurrence)) == ScopeAt(before, log[i].read.occurrence);
      ScopeAtFinds(before, log[i].read.occurrence);
    }
  }

  predicate Contradicts(r: Entry, claim: Entry) {
    r.read.symbol != claim.event.symbol || r.read.side != claim.event.side || r.read.session != claim.event.session
  }

  // Unreadable, without a claim, at odds with its claim, or the second for it.
  predicate Refused(e: Entry, id: string, t: Tables, found: map<(string, nat), Scope>) {
    var key := (id, e.read.occurrence);
    e.read.scope == None || key !in t.claims || Contradicts(e, t.claims[key]) || key in found
  }

  lemma ScopeRead(t: Tables, found: map<(string, nat), Scope>, log: seq<Entry>, i: nat, id: string)
    requires i < |log| && log[i].event.kind == VenueScope && log[i].event.orderId == Some(id)
    requires ClaimTables(t, log) && ScopeTable(found, log[..i], log)
    ensures Refused(log[i], id, t, found) ==> !OrderOk(log, id)
    ensures !Refused(log[i], id, t, found) ==>
              ScopeTable(found[(id, log[i].read.occurrence) := log[i].read.scope.value], log[..i + 1], log)
  {
    assert ClaimRows(t, Claims(log, id), id);
    assert log[..i + 1] == log[..i] + [log[i]];
    if Refused(log[i], id, t, found) {
      BadScope(found, log, i, id);
    } else {
      ScopeStep(found, log[..i], log[i], log, id);
    }
  }

  method ReadScopes(log: seq<Entry>, t: Tables) returns (res: Option<map<(string, nat), Scope>>)
    requires ClaimTables(t, log)
    ensures res.Some? ==>
            ScopeTable(res.value, log, log) && forall e <- log :: e.event.kind == VenueScope ==> e.event.orderId.Some?
    ensures res == None ==> !Accepts(log)
  {
    var found: map<(string, nat), Scope> := map[];
    for i := 0 to |log|
      invariant forall k :: 0 <= k < i && log[k].event.kind == VenueScope ==> log[k].event.orderId.Some?
      invariant ScopeTable(found, log[..i], log)
    {
      var e := log[i];
      assert log[..i + 1] == log[..i] + [e];
      if e.event.kind != VenueScope {
        NoScopeStep(found, log[..i], e, log);
        continue;
      }
      if e.event.orderId == None { return None; }
      var id := e.event.orderId.value;
      ScopeRead(t, found, log, i, id);
      if Refused(e, id, t, found) { return None; }
      found := found[(id, e.read.occurrence) := e.read.scope.value];
    }
    assert log[..|log|] == log;
    res := Some(found);
  }

  // Keep, of each order, the scope recorded under its current claim.
  method CurrentScopes(current: map<string, nat>, found: map<(string, nat), Scope>) returns (scopes: map<string, Scope>)
    ensures forall id :: Lookup(scopes, id) == if id in current then Lookup(found, (id, current[id])) else None
  {
    scopes := map[];
    var todo := current.Keys;
    while todo != {}
      invariant todo <= current.Keys
      invariant forall id :: id in scopes ==> id in current && id !in todo
      invariant forall id :: id in current && id !in todo ==> Lookup(scopes, id) == Lookup(found, (id, current[id]))
      decreases todo
    {
      var id :| id in todo;
      if (id, current[id]) in found { scopes := scopes[id := found[(id, current[id])]]; }
      todo := todo - {id};
    }
  }

  /** The scope in force per order. It answers exactly on accepted histories, and then holds for each order the
      scope recorded under that order's latest claim. */
  method VenueOrderScopeMap(log: seq<Entry>) returns (r: Option<map<string, Scope>>)
    ensures r.Some? <==> Accepts(log)
    ensures r.Some? ==> IsScopeMap(r.value, log)
  {
    var tables := ReadClaims(log);
    if tables == None { return None; }
    var t := tables.value;
    var table := ReadScopes(log, t);
    if table == None { return None; }
    var found := table.value;
    TablesAccept(t, found, log);
    var scopes := CurrentScopes(t.current, found);
    forall id ensures Lookup(scopes, id) == Current(log, id) {
      assert ClaimRows(t, Claims(log, id), id);
      assert ScopeRows(found, Scopes(log, id), Claims(log, id), id);
      assert id in t.current ==> Lookup(found, (id, t.current[id])) == ScopeAt(Scopes(log, id), t.current[id]);
    }
    r := Some(scopes);
  }

  lemma TablesAccept(t: Tables, found: map<(string, nat), Scope>, log: seq<Entry>)
    requires ClaimTables(t, log) && ScopeTable(found, log, log) && Owned(log)
    ensures Accepts(log)
  {
    forall id ensures OrderOk(log, id) {
      assert ClaimRows(t, Claims(log, id), id);
      assert ScopeRows(found, Scopes(log, id), Claims(log, id), id);
    }
  }

  /** The number of an order's latest claim; it fails exactly when that order's claims are not sound. */
  method CurrentClaimOccurrence(log: seq<Entry>, id: string) returns (r: Result<Option<nat>, ()>)
    ensures r.Ok? <==> ClaimsOk(Claims(log, id), id)
    ensures r.Ok? ==> r.value == var n := |Claims(log, id)|; if n == 0 then None else Some(n - 1)
  {
    var current: Option<nat>, expected: nat := None, 0;
    for i := 0 to |log|
      invariant expected == |Claims(log[..i], id)| && ClaimsOk(Claims(log[..i], id), id)
      invariant current == if expected == 0 then None else Some(expected - 1)
    {
      var e := log[i];
      OfStep(log, i, SubmitPending, id);
      if e.event.kind != SubmitPending || e.event.orderId != Some(id) { continue; }
      if !ClaimOk(e.event, expected, id) {
        OfPrefix(log, i + 1, SubmitPending, id);
        assert Claims(log, id)[expected] == e;
        return Err(());
      }
      current, expected := Some(expected), expected + 1;
    }
    assert log[..|log|] == log;
    r := Ok(current);
  }

  /** Both readers agree: where the map answers for an order, the claim reader answers too, and the map's scope
      is the one recorded scope that names the claim reader's occurrence. */
  lemma ReadersAgree(log: seq<Entry>, id: string)
    requires Accepts(log)
    ensures ClaimsOk(Claims(log, id), id)
    ensures Current(log, id).Some? ==>
              exists k :: 0 <= k < |Scopes(log, id)| && Scopes(log, id)[k].read.scope == Current(log, id)
                       && Scopes(log, id)[k].read.occurrence == |Claims(log, id)| - 1
    ensures Current(log, id) == None ==>
              forall k :: 0 <= k < |Scopes(log, id)| ==> Scopes(log, id)[k].read.occurrence != |Claims(log, id)| - 1
  {
    assert OrderOk(log, id);
    if Claims(log, id) != [] { ScopeAtFinds(Scopes(log, id), |Claims(log, id)| - 1); }
  }

  // ---- per-order indexes ----

  // The store's index of one order's events.
  function Index(log: seq<Entry>, id: string): seq<Entry> {
    if log == [] then []
    else
      var rest, e := Index(log[..|log| - 1], id), log[|log| - 1];
      if e.event.orderId == Some(id) then rest + [e] else rest
  }

  function Gather(log: seq<Entry>, ids: seq<string>): seq<Entry> {
    if ids == [] then [] else Gather(log, ids[..|ids| - 1]) + Index(log, ids[|ids| - 1])
  }

  lemma {:induction false} OfIndex(log: seq<Entry>, kind: Kind, owner: string, id: string)
    ensures Of(Index(log, owner), kind, id) == if owner == id then Of(log, kind, id) else []
    decreases |log|
  {
    if log != [] {
      var rest, e := log[..|log| - 1], log[|log| - 1];
      OfIndex(rest, kind, owner, id);
      if e.event.orderId == Some(owner) {
        assert (Index(rest, owner) + [e])[..|Index(rest, owner)|] == Index(rest, owner);
      }
    }
  }

  lemma {:induction false} OfGather(log: seq<Entry>, kind: Kind, ids: seq<string>, id: string)
    requires Distinct(ids)
    ensures Of(Gather(log, ids), kind, id) == if id in ids then Of(log, kind, id) else []
    decreases |ids|
  {
    if ids != [] {
      var rest, last := ids[..|ids| - 1], ids[|ids| - 1];
      LastIsNew(ids, id);
      OfGather(log, kind, rest, id);
      OfIndex(log, kind, last, id);
      OfSplits(Gather(log, rest), Index(log, last), kind, id);
    }
  }

  lemma LastIsNew(ids: seq<string>, id: string)
    requires Distinct(ids) && ids != []
    ensures var rest, last := ids[..|ids| - 1], ids[|ids| - 1];
            Distinct(rest) && last !in rest && (id in ids <==> id in rest || id == last)
  {
    var rest, last := ids[..|ids| - 1], ids[|ids| - 1];
    assert ids == rest + [last];
  }

  lemma {:induction false} GatherOwned(log: seq<Entry>, ids: seq<string>)
    ensures Owned(Gather(log, ids))
    decreases |ids|
  {
    if ids != [] {
      GatherOwned(log, ids[..|ids| - 1]);
      IndexOwned(log, ids[|ids| - 1]);
    }
  }

  lemma {:induction false} IndexOwned(log: seq<Entry>, id: string)
    ensures forall e <- Index(log, id) :: e.event.orderId == Some(id)
    decreases |log|
  {
    if log != [] { IndexOwned(log[..|log| - 1], id); }
  }

  /** Reading some orders' indexes one after another says of each exactly what the interleaved log says, and
      nothing of any other order; it is accepted when and only when each of those orders is sound. */
  lemma IndexesSufficeForTheMap(log: seq<Entry>, ids: seq<string>)
    requires Distinct(ids)
    ensures Accepts(Gather(log, ids)) <==> forall id <- ids :: OrderOk(log, id)
    ensures Accepts(log) ==> Accepts(Gather(log, ids))
    ensures forall id :: Current(Gather(log, ids), id) == if id in ids then Current(log, id) else None
  {
    GatherOwned(log, ids);
    forall id ensures OrderOk(Gather(log, ids), id) <==> (id in ids ==> OrderOk(log, id))
    {
      GatheredOrder(log, ids, id);
    }
    forall id ensures Current(Gather(log, ids), id) == if id in ids then Current(log, id) else None
    {
      GatheredOrder(log, ids, id);
    }
  }

  lemma GatheredOrder(log: seq<Entry>, ids: seq<string>, id: string)
    requires Distinct(ids)
    ensures OrderOk(Gather(log, ids), id) <==> (id in ids ==> OrderOk(log, id))
    ensures Current(Gather(log, ids), id) == if id in ids then Current(log, id) else None
  {
    OfGather(log, SubmitPending, ids, id);
    OfGather(log, VenueScope, ids, id);
    assert Scopes(Gather(log, ids), id) == if id in ids then Scopes(log, id) else [];
  }

  // ---- how the log grows ----

  lemma OfNext(log: seq<Entry>, e: Entry, kind: Kind, id: string)
    ensures Of(log + [e], kind, id)
              == Of(log, kind, id) + (if e.event.kind == kind && e.event.orderId == Some(id) then [e] else [])
  {
    assert (log + [e])[..|log|] == log;
  }

  /** A later claim without a scope hides the older request, and disturbs no other order. */
  lemma LaterClaimHides(log: seq<Entry>, e: Entry, id: string)
    requires Accepts(log) && e.event.kind == SubmitPending && e.event.orderId == Some(id) &&
             ClaimOk(e.event, |Claims(log, id)|, id)
    ensures Accepts(log + [e]) && Current(log + [e], id) == None
    ensures forall other :: other != id ==> Current(log + [e], other) == Current(log, other)
  {
    var log' := log + [e];
    forall other ensures OrderOk(log', other) {
      assert OrderOk(log, other);
      ClaimAppended(log, e, id, other);
    }
    forall other ensures Current(log', other) == if other == id then None else Current(log, other) {
      assert OrderOk(log, other);
      ClaimAppended(log, e, id, other);
    }
  }

  lemma ClaimAppended(log: seq<Entry>, e: Entry, id: string, other: string)
    requires OrderOk(log, other) && e.event.kind == SubmitPending && e.event.orderId == Some(id) &&
             ClaimOk(e.event, |Claims(log, id)|, id)
    ensures OrderOk(log + [e], other) && Current(log + [e], other) == if other == id then None else Current(log, other)
  {
    OfNext(log, e, SubmitPending, other);
    ScopesOfNext(log, e, other);
    if other == id { ScopeAtFinds(Scopes(log, id), |Claims(log, id)|); }
  }

  // A scope may be added for a claim that it agrees with and that has none.
  predicate Addable(log: seq<Entry>, id: string, occurrence: nat, symbol: Option<string>, side: Option<Side>,
                    session: Option<string>) {
    && occurrence < |Claims(log, id)| && ScopeAt(Scopes(log, id), occurrence) == None
    && var claim := Claims(log, id)[occurrence].event;
       claim.symbol == symbol && claim.side == side && claim.session == session
  }

  lemma ScopesGrow(scopes: seq<Entry>, e: Entry, claims: seq<Entry>)
    requires ScopesOk(scopes, claims) && ScopeAt(scopes, e.read.occurrence) == None &&
             (e.read.scope.Some? ==> FitsClaim(e, claims))
    ensures ScopesOk(scopes + [e], claims) <==> e.read.scope.Some?
    ensures forall n: nat ::
            ScopeAt(scopes + [e], n) == if n == e.read.occurrence then e.read.scope else ScopeAt(scopes, n)
  {
    ScopeAtFinds(scopes, e.read.occurrence);
    assert (scopes + [e])[..|scopes|] == scopes;
    assert (scopes + [e])[|scopes|] == e;
  }

  lemma OtherUntouched(log: seq<Entry>, e: Entry, other: string)
    requires e.event.orderId != Some(other)
    ensures (OrderOk(log + [e], other) <==> OrderOk(log, other)) && Current(log + [e], other) == Current(log, other)
  {
    OfNext(log, e, SubmitPending, other);
    OfNext(log, e, VenueScope, other);
  }

  lemma ScopeAppended(log: seq<Entry>, e: Entry, id: string)
    requires OrderOk(log, id) && e.event.kind == VenueScope && e.event.orderId == Some(id)
    requires Addable(log, id, e.read.occurrence, e.read.symbol, e.read.side, e.read.session)
    ensures OrderOk(log + [e], id) <==> e.read.scope.Some?
    ensures Current(log + [e], id)
         == if e.read.occurrence == |Claims(log, id)| - 1 then e.read.scope else Current(log, id)
  {
    OfNext(log, e, SubmitPending, id);
    ScopesOfNext(log, e, id);
    ScopesGrow(Scopes(log, id), e, Claims(log, id));
  }

  lemma ScopeWritten(log: seq<Entry>, e: Entry, id: string)
    requires Accepts(log) && e.event.kind == VenueScope && e.event.orderId == Some(id)
    requires Addable(log, id, e.read.occurrence, e.read.symbol, e.read.side, e.read.session)
    ensures Accepts(log + [e]) <==> e.read.scope.Some?
    ensures e.read.occurrence == |Claims(log, id)| - 1 ==> Current(log + [e], id) == e.read.scope
    ensures forall other :: other != id ==> Current(log + [e], other) == Current(log, other)
  {
    var log' := log + [e];
    assert OrderOk(log, id);
    ScopeAppended(log, e, id);
    forall other | other != id ensures OrderOk(log', other) && Current(log', other) == Current(log, other) {
      assert OrderOk(log, other);
      OtherUntouched(log, e, other);
    }
  }

  /** The write-ahead record keeps the history readable exactly when the written request is readable, and under the
      latest claim it becomes the scope in force. Nothing else moves. */
  lemma WriteThenReplay(log: seq<Entry>, id: string, session: Option<string>, occurrence: nat, scope: Scope)
    requires Accepts(log) && Addable(log, id, occurrence, Some(scope.symbol), Some(scope.side), session)
    ensures var log' := log + [View(Encode(id, session, occurrence, scope))];
            && (Accepts(log') <==> Readable(id, scope))
            && (Sendable(id, scope) && occurrence == |Claims(log, id)| - 1 ==> Current(log', id) == Some(scope))
            && (forall other :: other != id ==> Current(log', other) == Current(log, other))
  {
    Reads(id, session, occurrence, scope);
    RoundTrip(id, session, occurrence, scope);
    ScopeWritten(log, View(Encode(id, session, occurrence, scope)), id);
  }

  /** On an accepted history every recorded scope is readable, names a claim of its order, says the same symbol, side
      and session as that claim, and is the only one for it; and the claims are numbered without a gap. */
  lemma AcceptedHistoryIsSound(log: seq<Entry>, id: string, k: nat)
    requires Accepts(log) && k < |Scopes(log, id)|
    ensures var r, claims := Scopes(log, id)[k].read, Claims(log, id);
            && r.scope.Some? && r.occurrence < |claims|
            && var claim := claims[r.occurrence].event;
               && r.symbol == claim.symbol && r.side == claim.side && r.session == claim.session
               && ClaimOk(claim, r.occurrence, id)
    ensures forall j ::
            0 <= j < |Scopes(log, id)| && j != k ==>
                Scopes(log, id)[j].read.occurrence != Scopes(log, id)[k].read.occurrence
  {
    assert OrderOk(log, id);
    assert FitsClaim(Scopes(log, id)[k], Claims(log, id));
  }
}
