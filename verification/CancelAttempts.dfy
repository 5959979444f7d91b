/** Disposition cancels of one envelope child. Each venue cancel is reserved by a durable attempt
    whose dedupe key is (disposition, number); the number is counted from the caller's own, possibly
    old, copy of the log. Only the caller whose draft was stored may call the venue. */
module CancelAttempts {
  import opened Wrappers
  import opened Writes

  const RETRY_LIMIT: nat := 3

  datatype Key = Key(disposition: string, number: nat)

  // What the log holds that matters to one child; everything else is Other.
  datatype Event = Attempt(key: Key) | Request(disposition: string) | Other

  function Keys(log: seq<Event>): seq<Key> {
    if log == [] then []
    else Keys(log[..|log| - 1]) + (if log[|log| - 1].Attempt? then [log[|log| - 1].key] else [])
  }

  function FirstRequest(log: seq<Event>): Option<string> {
    if log == [] then None
    else if log[0].Request? then Some(log[0].disposition)
    else FirstRequest(log[1..])
  }

  // The attempt a caller holding `snapshot` drafts, if its retries are not exhausted.
  function Draft(snapshot: seq<Event>, disposition: string): Option<Key> {
    var existing, request := Keys(snapshot), FirstRequest(snapshot);
    var effective := if existing != [] then existing[0].disposition
                     else if request.Some? then request.value else disposition;
    if |existing| + 1 > RETRY_LIMIT then None else Some(Key(effective, |existing| + 1))
  }

  class CancelLog {
    var log: seq<Event>

    constructor ()
      ensures log == []
    {
      log := [];
    }

    /** Reserve the next attempt. Some(n) only for the caller whose draft was newly stored and who saw
        the reply; None when the limit is reached, when another caller holds the key, or on a fault. */
    method PersistAttempt(snapshot: seq<Event>, disposition: string, fault: Fault) returns (won: Option<Key>)
      modifies this
      ensures (log, won) == Persist(old(log), snapshot, disposition, fault)
      ensures won.Some? ==> won.value !in Keys(old(log)) && log == old(log) + [Attempt(won.value)] && fault == Commit
    {
      var draft := Draft(snapshot, disposition);
      if draft.None? { return None; }
      if draft.value in Keys(log) || fault == Lost { return None; }
      log := log + [Attempt(draft.value)];
      won := if fault == Commit then draft else None;
    }
  }

  function Persist(log: seq<Event>, snapshot: seq<Event>, disposition: string,
                   fault: Fault): (seq<Event>, Option<Key>) {
    var draft := Draft(snapshot, disposition);
    if draft.None? || draft.value in Keys(log) || fault == Lost then (log, None)
    else (log + [Attempt(draft.value)], if fault == Commit then draft else None)
  }

  // ---- every interleaving of callers, crashes and unrelated writers ----

  // `prepared` are reservations won but not yet called; a crash forgets them, the log does not.
  datatype State = State(log: seq<Event>, prepared: seq<Key>, calls: seq<Key>)

  datatype Step =
    | Reserve(seen: nat, disposition: string, fault: Fault)  // a caller whose log copy is `seen` events long
    | CallVenue(i: nat)
    | Crash
    | Write(event: Event)                                    // an unrelated event, or a cancel request

  function Next(s: State, step: Step): State {
    match step
    case Reserve(seen, disposition, fault) =>
      if seen > |s.log| then s
      else
        var (log, won) := Persist(s.log, s.log[..seen], disposition, fault);
        State(log, if won.Some? then s.prepared + [won.value] else s.prepared, s.calls)
    case CallVenue(i) =>
      if i >= |s.prepared| then s
      else State(s.log, s.prepared[..i] + s.prepared[i + 1..], s.calls + [s.prepared[i]])
    case Crash => s.(prepared := [])
    case Write(event) => if event.Attempt? then s else s.(log := s.log + [event])
  }

  function Run(s: State, steps: seq<Step>): State
    decreases |steps|
  {
    if steps == [] then s else Run(Next(s, steps[0]), steps[1..])
  }

  const START := State([], [], [])

  function Dispositions(keys: seq<Key>): set<string> { set k <- keys :: k.disposition }

  // Attempt keys are unique; a disposition other than the first attempt's only ever wins number one.
  ghost predicate Numbered(keys: seq<Key>) {
    && (forall k <- keys :: multiset(keys)[k] == 1 && 1 <= k.number <= RETRY_LIMIT)
    && (forall k <- keys :: k.disposition != keys[0].disposition ==> k.number == 1)
  }

  // Every reservation in hand and every call made has its own durable attempt.
  ghost predicate Reserved(s: State) {
    multiset(s.calls) + multiset(s.prepared) <= multiset(Keys(s.log))
  }

  lemma KeysAfter(log: seq<Event>, e: Event)
    ensures Keys(log + [e]) == Keys(log) + (if e.Attempt? then [e.key] else [])
  {
    assert (log + [e])[..|log|] == log;
  }

  lemma {:induction false} KeysOfPrefix(log: seq<Event>, n: nat)
    requires n <= |log|
    ensures Keys(log[..n]) <= Keys(log)
  {
    if n < |log| {
      assert log[..|log| - 1][..n] == log[..n];
      KeysOfPrefix(log[..|log| - 1], n);
    } else {
      assert log[..n] == log;
    }
  }

  // A caller's draft extends the numbering of the full log whenever its key is free.
  lemma ReserveKeepsNumbered(log: seq<Event>, seen: nat, disposition: string, key: Key)
    requires Numbered(Keys(log)) && seen <= |log| && Draft(log[..seen], disposition) == Some(key) && key !in Keys(log)
    ensures Numbered(Keys(log) + [key])
  {
    var keys := Keys(log);
    KeysOfPrefix(log, seen);
    var all := keys + [key];
    forall k | k in all ensures multiset(all)[k] == 1 && 1 <= k.number <= RETRY_LIMIT {
      assert multiset(all)[k] == multiset(keys)[k] + multiset([key])[k];
    }
    if keys != [] { assert all[0] == keys[0]; }
  }

  lemma ReserveKeepsInvariant(s: State, seen: nat, disposition: string, fault: Fault)
    requires Numbered(Keys(s.log)) && Reserved(s) && seen <= |s.log|
    ensures var next := Next(s, Reserve(seen, disposition, fault));
            Numbered(Keys(next.log)) && Reserved(next)
  {
    var draft := Draft(s.log[..seen], disposition);
    var next := Next(s, Reserve(seen, disposition, fault));
    if draft.None? || draft.value in Keys(s.log) || fault == Lost {
      assert next == s;
    } else {
      var key := draft.value;
      KeysAfter(s.log, Attempt(key));
      ReserveKeepsNumbered(s.log, seen, disposition, key);
      assert Keys(next.log) == Keys(s.log) + [key];
      OneMore(s.calls, s.prepared, Keys(s.log), key);
      assert next.prepared == if fault == Commit then s.prepared + [key] else s.prepared;
    }
  }

  lemma OneMore(calls: seq<Key>, prepared: seq<Key>, keys: seq<Key>, key: Key)
    requires multiset(calls) + multiset(prepared) <= multiset(keys)
    ensures multiset(calls) + multiset(prepared) <= multiset(keys + [key])
    ensures multiset(calls) + multiset(prepared + [key]) <= multiset(keys + [key])
  {
    assert multiset(keys + [key]) == multiset(keys) + multiset{key};
    assert multiset(prepared + [key]) == multiset(prepared) + multiset{key};
  }

  lemma CallKeepsReserved(s: State, i: nat)
    requires Reserved(s) && i < |s.prepared|
    ensures Reserved(Next(s, CallVenue(i)))
  {
    assert s.prepared == s.prepared[..i] + [s.prepared[i]] + s.prepared[i + 1..];
  }

  lemma WriteKeepsInvariant(s: State, event: Event)
    requires Numbered(Keys(s.log)) && Reserved(s)
    ensures var next := Next(s, Write(event)); Numbered(Keys(next.log)) && Reserved(next)
  {
    KeysAfter(s.log, event);
    if !event.Attempt? { assert Keys(Next(s, Write(event)).log) == Keys(s.log); }
  }

  lemma CrashKeepsReserved(s: State)
    requires Reserved(s)
    ensures Reserved(Next(s, Crash))
  {
    assert multiset(s.calls) <= multiset(s.calls) + multiset(s.prepared);
  }

  lemma NextKeepsInvariant(s: State, step: Step)
    requires Numbered(Keys(s.log)) && Reserved(s)
    ensures Numbered(Keys(Next(s, step).log)) && Reserved(Next(s, step))
  {
    match step {
      case Reserve(seen, disposition, fault) =>
        if seen <= |s.log| { ReserveKeepsInvariant(s, seen, disposition, fault); } else { assert Next(s, step) == s; }
      case CallVenue(i) =>
        if i < |s.prepared| { CallKeepsReserved(s, i); } else { assert Next(s, step) == s; }
        assert Next(s, step).log == s.log;
      case Crash =>
        CrashKeepsReserved(s);
        assert Next(s, step).log == s.log;
      case Write(event) => WriteKeepsInvariant(s, event);
    }
  }

  lemma {:induction false} RunKeepsInvariant(s: State, steps: seq<Step>)
    requires Numbered(Keys(s.log)) && Reserved(s)
    ensures Numbered(Keys(Run(s, steps).log)) && Reserved(Run(s, steps))
    decreases |steps|
  {
    if steps != [] {
      NextKeepsInvariant(s, steps[0]);
      RunKeepsInvariant(Next(s, steps[0]), steps[1..]);
    }
  }

  function KeySet(keys: seq<Key>): set<Key> { set k <- keys }

  function FirstNumbers(ds: set<string>): set<Key> { set d <- ds :: Key(d, 1) }

  lemma {:induction false} UniqueKeysCount(keys: seq<Key>)
    requires forall k <- keys :: multiset(keys)[k] == 1
    ensures |KeySet(keys)| == |keys|
  {
    if keys != [] {
      var init, last := keys[..|keys| - 1], keys[|keys| - 1];
      assert keys == init + [last];
      assert last !in init by {
        assert multiset(keys)[last] == multiset(init)[last] + 1;
      }
      forall k | k in init ensures multiset(init)[k] == 1 {
        assert multiset(keys)[k] == multiset(init)[k] + multiset([last])[k];
      }
      UniqueKeysCount(init);
      assert KeySet(keys) == KeySet(init) + {last};
    }
  }

  lemma {:induction false} FirstNumbersCount(ds: set<string>)
    ensures |FirstNumbers(ds)| <= |ds|
  {
    if ds != {} {
      var d :| d in ds;
      FirstNumbersCount(ds - {d});
      assert FirstNumbers(ds) == FirstNumbers(ds - {d}) + {Key(d, 1)};
    }
  }

  lemma KeysAreOwnOrFirst(keys: seq<Key>, d: string)
    requires Numbered(keys) && keys != [] && d == keys[0].disposition
    ensures KeySet(keys) <= {Key(d, 1), Key(d, 2), Key(d, 3)} + FirstNumbers(Dispositions(keys) - {d})
  {
  }

  lemma NumberedCount(keys: seq<Key>)
    requires Numbered(keys) && keys != []
    ensures |keys| <= 2 + |Dispositions(keys)|
  {
    var d, ds := keys[0].disposition, Dispositions(keys);
    var own := {Key(d, 1), Key(d, 2), Key(d, 3)};
    UniqueKeysCount(keys);
    FirstNumbersCount(ds - {d});
    KeysAreOwnOrFirst(keys, d);
    UnionCount(KeySet(keys), own, FirstNumbers(ds - {d}));
    assert d in ds && |ds - {d}| == |ds| - 1;
  }

  lemma UnionCount<T>(all: set<T>, a: set<T>, b: set<T>)
    requires all <= a + b
    ensures |all| <= |a| + |b|
  {
    Subset(all, a + b);
  }

  lemma Subset<T>(a: set<T>, b: set<T>)
    requires a <= b
    ensures |a| <= |b|
  {
    assert b == a + (b - a);
  }

  /** Over every interleaving with stale log copies, crashes and restarts: every venue cancel has its
      own durable attempt, no (disposition, number) is called twice, and the calls of a child's whole
      lifetime are at most two plus the number of dispositions that ever won an attempt. */
  lemma CallsAreReservedAndBounded(steps: seq<Step>)
    ensures var s := Run(START, steps);
            && (forall k <- s.calls :: Attempt(k) in s.log && multiset(s.calls)[k] == 1)
            && |s.calls| <= 2 + |Dispositions(Keys(s.log))|
  {
    RunKeepsInvariant(START, steps);
    var s := Run(START, steps);
    var keys := Keys(s.log);
    forall k | k in s.calls ensures Attempt(k) in s.log && multiset(s.calls)[k] == 1 {
      assert k in multiset(s.calls);
      assert multiset(s.calls)[k] <= multiset(keys)[k];
      assert k in keys;
      KeyIsLogged(s.log, k);
    }
    CallsAreFewer(s.calls, s.prepared, keys);
    if keys != [] { NumberedCount(keys); }
  }

  lemma CallsAreFewer(calls: seq<Key>, prepared: seq<Key>, keys: seq<Key>)
    requires multiset(calls) + multiset(prepared) <= multiset(keys)
    ensures |calls| <= |keys|
  {
    var rest := multiset(keys) - multiset(calls);
    assert multiset(keys) == multiset(calls) + rest;
    assert |multiset(keys)| == |keys| && |multiset(calls)| == |calls|;
  }

  lemma {:induction false} KeyIsLogged(log: seq<Event>, k: Key)
    requires k in Keys(log)
    ensures Attempt(k) in log
  {
    if log[|log| - 1] != Attempt(k) { KeyIsLogged(log[..|log| - 1], k); }
  }

  // Every disposition that callers and requests bring is one of D.
  ghost predicate Over(steps: seq<Step>, D: set<string>) {
    forall i :: 0 <= i < |steps| ==> StepOver(steps[i], D)
  }

  predicate StepOver(step: Step, D: set<string>) {
    match step
    case Reserve(_, disposition, _) => disposition in D
    case Write(event) => event.Request? ==> event.disposition in D
    case _ => true
  }

  ghost predicate Only(log: seq<Event>, D: set<string>) {
    forall e <- log :: (e.Attempt? ==> e.key.disposition in D) && (e.Request? ==> e.disposition in D)
  }

  lemma {:induction false} RequestIsLogged(log: seq<Event>)
    requires FirstRequest(log).Some?
    ensures Request(FirstRequest(log).value) in log
  {
    if !log[0].Request? { RequestIsLogged(log[1..]); }
  }

  lemma {:induction false} DispositionsStay(s: State, steps: seq<Step>, D: set<string>)
    requires Over(steps, D) && Only(s.log, D)
    ensures Only(Run(s, steps).log, D)
    decreases |steps|
  {
    if steps != [] {
      DispositionsStep(s, steps[0], D);
      DispositionsStay(Next(s, steps[0]), steps[1..], D);
    }
  }

  lemma DispositionsStep(s: State, step: Step, D: set<string>)
    requires StepOver(step, D) && Only(s.log, D)
    ensures Only(Next(s, step).log, D)
  {
    if step.Reserve? && step.seen <= |s.log| {
      var snapshot := s.log[..step.seen];
      if Keys(snapshot) != [] { KeyIsLogged(snapshot, Keys(snapshot)[0]); }
      if FirstRequest(snapshot).Some? { RequestIsLogged(snapshot); }
      assert forall e <- snapshot :: e in s.log;
    }
  }

  lemma {:induction false} NoDispositionNoKey(log: seq<Event>)
    requires Only(log, {})
    ensures Keys(log) == []
  {
    if log != [] {
      assert log[|log| - 1] in log;
      NoDispositionNoKey(log[..|log| - 1]);
    }
  }

  /** Callers that bring dispositions from a set D cancel a child at most 2 + |D| times, ever, and without any
      disposition never. */
  lemma CallsBoundedByDispositions(steps: seq<Step>, D: set<string>)
    requires Over(steps, D)
    ensures |Run(START, steps).calls| <= if D == {} then 0 else 2 + |D|
  {
    CallsAreReservedAndBounded(steps);
    DispositionsStay(START, steps, D);
    var s := Run(START, steps);
    var keys := Keys(s.log);
    forall k | k in keys ensures k.disposition in D { KeyIsLogged(s.log, k); }
    Subset(Dispositions(keys), D);
    if D == {} {
      RunKeepsInvariant(START, steps);
      NoDispositionNoKey(s.log);
      CallsAreFewer(s.calls, s.prepared, keys);
    }
  }

  /** With one fixed disposition a child is cancelled at the venue at most three times, ever. */
  lemma OneDispositionCancelsAtMostThrice(steps: seq<Step>, d: string)
    requires Over(steps, {d})
    ensures |Run(START, steps).calls| <= RETRY_LIMIT
  {
    CallsBoundedByDispositions(steps, {d});
  }

  // One fresh reservation from a copy that is `seen` events long.
  lemma Reserves(s: State, seen: nat, disposition: string, key: Key, steps: seq<Step>)
    requires Run(START, steps) == s && seen <= |s.log|
    requires Draft(s.log[..seen], disposition) == Some(key) && key !in Keys(s.log)
    ensures Run(START, steps + [Reserve(seen, disposition, Commit)])
         == State(s.log + [Attempt(key)], s.prepared + [key], s.calls)
    ensures Keys(s.log + [Attempt(key)]) == Keys(s.log) + [key]
  {
    KeysAfter(s.log, Attempt(key));
    RunSplits(START, steps, [Reserve(seen, disposition, Commit)]);
  }

  lemma {:induction false} RunSplits(s: State, a: seq<Step>, b: seq<Step>)
    ensures Run(s, a + b) == Run(Run(s, a), b)
    decreases |a|
  {
    if a == [] {
      assert a + b == b;
    } else {
      assert (a + b)[1..] == a[1..] + b;
      RunSplits(Next(s, a[0]), a[1..], b);
    }
  }

  lemma {:induction false} CallAll(s: State, steps: seq<Step>)
    requires |steps| <= |s.prepared| && forall i :: 0 <= i < |steps| ==> steps[i] == CallVenue(0)
    ensures |Run(s, steps).calls| == |s.calls| + |steps|
    decreases |steps|
  {
    if steps != [] { CallAll(Next(s, steps[0]), steps[1..]); }
  }

  function Named(ds: seq<string>): set<string> { set d <- ds }

  // The attempts logged when the first disposition has used its three numbers and j - 1 others their first.
  function Won(ds: seq<string>, j: nat): (keys: seq<Key>)
    requires 1 <= j <= |ds|
    ensures |keys| == j + 2 && forall k <- keys :: k.disposition in ds[..j]
  {
    if j == 1 then [Key(ds[0], 1), Key(ds[0], 2), Key(ds[0], 3)] else Won(ds, j - 1) + [Key(ds[j - 1], 1)]
  }

  // A run that only reserves: nothing called yet, and as many reservations in hand as attempts logged.
  ghost predicate Reserving(steps: seq<Step>, D: set<string>, keys: seq<Key>) {
    var s := Run(START, steps);
    Over(steps, D) && Keys(s.log) == keys && |s.prepared| == |keys| && s.calls == [] && |s.log| == |keys|
  }

  lemma ReserveOne(steps: seq<Step>, D: set<string>, keys: seq<Key>, seen: nat, disposition: string, key: Key)
    requires Reserving(steps, D, keys) && disposition in D && seen <= |keys| && key !in keys
    requires Draft(Run(START, steps).log[..seen], disposition) == Some(key)
    ensures Reserving(steps + [Reserve(seen, disposition, Commit)], D, keys + [key])
  {
    Reserves(Run(START, steps), seen, disposition, key, steps);
  }

  lemma FirstUsesThree(d: string, D: set<string>) returns (steps: seq<Step>)
    requires d in D
    ensures Reserving(steps, D, [Key(d, 1), Key(d, 2), Key(d, 3)])
  {
    steps := [];
    for n := 0 to 3
      invariant Reserving(steps, D, Firsts(d, n))
    {
      var log := Run(START, steps).log;
      assert log[..|log|] == log;
      ReserveOne(steps, D, Firsts(d, n), |log|, d, Key(d, n + 1));
      steps := steps + [Reserve(|log|, d, Commit)];
    }
    assert Firsts(d, 3) == [Key(d, 1), Key(d, 2), Key(d, 3)];
  }

  function Firsts(d: string, n: nat): (keys: seq<Key>)
    requires n <= 3
    ensures |keys| == n && forall i :: 0 <= i < n ==> keys[i] == Key(d, i + 1)
  {
    if n == 0 then [] else Firsts(d, n - 1) + [Key(d, n)]
  }

  lemma {:induction false} OthersWinOne(ds: seq<string>, j: nat) returns (steps: seq<Step>)
    requires Distinct(ds) && 1 <= j <= |ds|
    ensures Reserving(steps, Named(ds), Won(ds, j))
  {
    var D := Named(ds);
    if j == 1 {
      steps := FirstUsesThree(ds[0], D);
    } else {
      steps := OthersWinOne(ds, j - 1);
      assert ds[j - 1] !in ds[..j - 1];
      assert Run(START, steps).log[..0] == [];
      ReserveOne(steps, D, Won(ds, j - 1), 0, ds[j - 1], Key(ds[j - 1], 1));
      steps := steps + [Reserve(0, ds[j - 1], Commit)];
    }
  }

  /** That bound is reached for every number of dispositions: with the first one's three attempts made, each other
      disposition still wins its own number one from an old copy of the log. */
  lemma BoundIsReached(ds: seq<string>) returns (steps: seq<Step>)
    requires Distinct(ds) && ds != []
    ensures Over(steps, Named(ds)) && |Run(START, steps).calls| == 2 + |ds|
  {
    steps := OthersWinOne(ds, |ds|);
    var calls := seq(2 + |ds|, _ => CallVenue(0));
    CallAll(Run(START, steps), calls);
    RunSplits(START, steps, calls);
    steps := steps + calls;
  }

  /** Any two dispositions reach a fourth call. */
  lemma TwoDispositionsCancelFourTimes(d: string, e: string) returns (steps: seq<Step>)
    requires d != e
    ensures Over(steps, {d, e}) && |Run(START, steps).calls| == 4
  {
    steps := BoundIsReached([d, e]);
    assert Named([d, e]) == {d, e};
  }

  /** So the limit of three holds on every run if and only if callers bring at most one disposition. */
  lemma AtMostThriceExactly(D: set<string>)
    ensures (forall steps :: Over(steps, D) ==> |Run(START, steps).calls| <= RETRY_LIMIT) <==> |D| <= 1
  {
    if |D| <= 1 {
      forall steps | Over(steps, D) ensures |Run(START, steps).calls| <= RETRY_LIMIT {
        CallsBoundedByDispositions(steps, D);
      }
    } else {
      var d :| d in D;
      assert |D - {d}| == |D| - 1;
      var e :| e in D - {d};
      var steps := TwoDispositionsCancelFourTimes(d, e);
      OverGrows(steps, {d, e}, D);
    }
  }

  lemma OverGrows(steps: seq<Step>, D: set<string>, E: set<string>)
    requires Over(steps, D) && D <= E
    ensures Over(steps, E)
  {
  }

  /** The draft a caller makes: none once its copy shows three attempts; otherwise the next number, under the
      disposition of the earliest attempt it sees, else of the earliest request, else its own. */
  lemma DraftExactly(snapshot: seq<Event>, disposition: string)
    ensures Draft(snapshot, disposition) == None <==> |Keys(snapshot)| >= 3
    ensures Draft(snapshot, disposition).Some? ==>
              var key := Draft(snapshot, disposition).value;
              && key.number == |Keys(snapshot)| + 1
              && (Keys(snapshot) != [] ==> key.disposition == Keys(snapshot)[0].disposition)
              && (Keys(snapshot) == [] && FirstRequest(snapshot).Some? ==>
                  key.disposition == FirstRequest(snapshot).value)
              && (Keys(snapshot) == [] && FirstRequest(snapshot) == None ==> key.disposition == disposition)
  {
  }

  /** The earliest request is the one no other precedes. */
  lemma {:induction false} FirstRequestIs(log: seq<Event>)
    ensures FirstRequest(log) == None <==> forall i :: 0 <= i < |log| ==> !log[i].Request?
    ensures FirstRequest(log).Some? ==>
              exists i :: 0 <= i < |log| && log[i] == Request(FirstRequest(log).value)
                       && forall j :: 0 <= j < i ==> !log[j].Request?
  {
    if log != [] {
      FirstRequestIs(log[1..]);
      assert forall i :: 0 < i < |log| ==> log[i] == log[1..][i - 1];
      if !log[0].Request? && FirstRequest(log).Some? {
        var i :| 0 <= i < |log[1..]| && log[1..][i] == Request(FirstRequest(log).value)
                 && forall j :: 0 <= j < i ==> !log[1..][j].Request?;
        assert log[i + 1] == log[1..][i];
      }
    }
  }
}
