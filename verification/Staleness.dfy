/** Market-data staleness is announced on transitions only. The pass may read the prior state from
    the durable log every time, or from an in-memory cache seeded once per symbol. An append can
    commit, be lost, or commit and lose its reply; the last two abort the pass. */
module Staleness {
  import opened Wrappers
  import opened Writes

  datatype Event = Stale(symbol: string) | Recovered(symbol: string) | Unrelated

  datatype Snapshot = Snapshot(symbol: string, stale: bool)

  datatype State = State(log: seq<Event>, cache: map<string, bool>)

  function Symbols(snaps: seq<Snapshot>): set<string> { set s <- snaps :: s.symbol }

  // The most recently recorded state of a symbol; false when nothing was ever recorded.
  function LastState(log: seq<Event>, symbol: string): bool {
    if log == [] then false
    else
      var e := log[|log| - 1];
      if e.Stale? && e.symbol == symbol then true
      else if e.Recovered? && e.symbol == symbol then false
      else LastState(log[..|log| - 1], symbol)
  }

  function Get(cache: map<string, bool>, symbol: string): bool { symbol in cache && cache[symbol] }

  function Announcement(s: Snapshot): Event { if s.stale then Stale(s.symbol) else Recovered(s.symbol) }

  // ---- the announcing loop, over whichever prior-state map the pass uses ----

  function Announce(s: State, snaps: seq<Snapshot>, faults: seq<Fault>): State
    requires |faults| == |snaps|
    decreases |snaps|
  {
    if snaps == [] then s
    else if snaps[0].stale == Get(s.cache, snaps[0].symbol) then Announce(s, snaps[1..], faults[1..])
    else
      var logged := s.log + [Announcement(snaps[0])];
      match faults[0]
      case Lost => s
      case LostReply => s.(log := logged)
      case Commit => Announce(State(logged, s.cache[snaps[0].symbol := snaps[0].stale]), snaps[1..], faults[1..])
  }

  // What the cache holds when the loop starts: departed symbols pruned, new ones seeded from the log.
  function Seeded(s: State, snaps: seq<Snapshot>): map<string, bool> {
    map x | x in Symbols(snaps) :: if x in s.cache then s.cache[x] else LastState(s.log, x)
  }

  function CachedPass(s: State, snaps: seq<Snapshot>, faults: seq<Fault>): State
    requires |faults| == |snaps|
  {
    Announce(State(s.log, Seeded(s, snaps)), snaps, faults)
  }

  // The reference: no memory at all, the prior state is read off the log at every snapshot.
  function Reference(log: seq<Event>, snaps: seq<Snapshot>, faults: seq<Fault>): seq<Event>
    requires |faults| == |snaps|
    decreases |snaps|
  {
    if snaps == [] then log
    else if snaps[0].stale == LastState(log, snaps[0].symbol) then Reference(log, snaps[1..], faults[1..])
    else
      var logged := log + [Announcement(snaps[0])];
      match faults[0]
      case Lost => log
      case LostReply => logged
      case Commit => Reference(logged, snaps[1..], faults[1..])
  }

  class Surface {
    var log: seq<Event>
    var cache: map<string, bool>

    function View(): State reads this { State(log, cache) }

    constructor ()
      ensures View() == State([], map[])
    {
      log, cache := [], map[];
    }

    method Append(e: Event, fault: Fault) returns (raised: bool)
      modifies this`log
      ensures log == if fault == Lost then old(log) else old(log) + [e]
      ensures raised <==> fault != Commit
    {
      if fault != Lost { log := log + [e]; }
      raised := fault != Commit;
    }

    method LastKnownStaleState(symbols: set<string>) returns (state: map<string, bool>)
      ensures state.Keys <= symbols
      ensures forall x <- symbols :: Get(state, x) == LastState(log, x)
    {
      state := map[];
      for i := 0 to |log|
        invariant state.Keys <= symbols
        invariant forall x <- symbols :: Get(state, x) == LastState(log[..i], x)
      {
        assert log[..i + 1][..i] == log[..i];
        var e := log[i];
        if e.Unrelated? || e.symbol !in symbols { continue; }
        state := state[e.symbol := e.Stale?];
      }
      assert log[..|log|] == log;
    }

    /** The pass without a cache. */
    method ScanPass(snaps: seq<Snapshot>, faults: seq<Fault>)
      requires |faults| == |snaps|
      modifies this`log
      ensures log == Reference(old(log), snaps, faults)
    {
      if snaps == [] { return; }
      var previously := LastKnownStaleState(Symbols(snaps));
      PriorStateSuffices(State(log, previously), snaps, faults);
      ghost var whole := Announce(State(log, previously), snaps, faults);
      for i := 0 to |snaps|
        invariant whole == Announce(State(log, previously), snaps[i..], faults[i..])
      {
        assert snaps[i..][1..] == snaps[i + 1..] && faults[i..][1..] == faults[i + 1..];
        if snaps[i].stale != Get(previously, snaps[i].symbol) {
          var raised := Append(Announcement(snaps[i]), faults[i]);
          if raised { return; }
          previously := previously[snaps[i].symbol := snaps[i].stale];
        }
      }
    }

    // Forget every symbol that is no longer subscribed.
    method Prune(symbols: set<string>)
      modifies this`cache
      ensures cache == map x | x in symbols && x in old(cache) :: old(cache)[x]
    {
      var todo := cache.Keys;
      while todo != {}
        invariant todo <= cache.Keys <= old(cache).Keys
        invariant forall x <- cache.Keys :: cache[x] == old(cache)[x] && (x in todo || x in symbols)
        invariant forall x <- old(cache).Keys :: x in symbols ==> x in cache
        decreases todo
      {
        var x :| x in todo;
        todo := todo - {x};
        if x !in symbols { cache := cache - {x}; }
      }
    }

    // Seed every listed symbol the cache does not know, healthy ones included.
    method Seed(symbols: set<string>)
      requires cache.Keys <= symbols
      modifies this`cache
      ensures cache == map x | x in symbols :: if x in old(cache) then old(cache)[x] else LastState(log, x)
    {
      ghost var want := map x | x in symbols :: if x in cache then cache[x] else LastState(log, x);
      var unknown := symbols - cache.Keys;
      if unknown != {} {
        var seeded := LastKnownStaleState(unknown);
        cache := Extended(cache, seeded, symbols, want);
      }
      assert cache.Keys == symbols by { assert unknown == {} ==> symbols <= unknown + cache.Keys; }
      assert cache == want;
    }

    static method Extended(known: map<string, bool>, seeded: map<string, bool>, symbols: set<string>,
                           ghost want: map<string, bool>)
      returns (c: map<string, bool>)
      requires known.Keys <= symbols == want.Keys
      requires forall x <- symbols :: want[x] == if x in known then known[x] else Get(seeded, x)
      ensures c == want
    {
      c := known;
      var todo := symbols - known.Keys;
      while todo != {}
        invariant todo <= symbols && c.Keys == symbols - todo
        invariant forall x <- c.Keys :: c[x] == want[x]
        invariant todo !! known.Keys
        decreases todo
      {
        var x :| x in todo;
        todo := todo - {x};
        c := c[x := Get(seeded, x)];
      }
    }

    /** The pass with the in-memory cache, pruned and seeded in place. */
    method Pass(snaps: seq<Snapshot>, faults: seq<Fault>)
      requires |faults| == |snaps|
      modifies this
      ensures View() == CachedPass(old(View()), snaps, faults)
    {
      Prune(Symbols(snaps));
      if snaps == [] { return; }
      Seed(Symbols(snaps));
      assert cache == Seeded(old(View()), snaps);
      ghost var whole := Announce(View(), snaps, faults);
      for i := 0 to |snaps|
        invariant whole == Announce(View(), snaps[i..], faults[i..])
      {
        assert snaps[i..][1..] == snaps[i + 1..] && faults[i..][1..] == faults[i + 1..];
        if snaps[i].stale != Get(cache, snaps[i].symbol) {
          var raised := Append(Announcement(snaps[i]), faults[i]);
          if raised { return; }
          cache := cache[snaps[i].symbol := snaps[i].stale];
        }
      }
    }
  }

  // ---- the cached pass is the reference ----

  lemma LastStateAfter(log: seq<Event>, e: Event, symbol: string)
    ensures LastState(log + [e], symbol) ==
      if e.Stale? && e.symbol == symbol then true
      else if e.Recovered? && e.symbol == symbol then false
      else LastState(log, symbol)
  {
    assert (log + [e])[..|log|] == log;
  }

  // The symbol whose announcement in this pass committed and lost its reply, if any: it aborts the pass.
  function LostSymbol(log: seq<Event>, snaps: seq<Snapshot>, faults: seq<Fault>): Option<string>
    requires |faults| == |snaps|
    decreases |snaps|
  {
    if snaps == [] then None
    else if snaps[0].stale == LastState(log, snaps[0].symbol) then LostSymbol(log, snaps[1..], faults[1..])
    else match faults[0]
      case Lost => None
      case LostReply => Some(snaps[0].symbol)
      case Commit => LostSymbol(log + [Announcement(snaps[0])], snaps[1..], faults[1..])
  }

  ghost predicate Agrees(s: State) { forall x <- s.cache.Keys :: s.cache[x] == LastState(s.log, x) }

  // The cache is right about every symbol it remembers but the doubtful one, and wrong about that.
  ghost predicate Doubts(s: State, doubt: Option<string>) {
    && (forall x <- s.cache.Keys :: s.cache[x] == LastState(s.log, x) <==> doubt != Some(x))
    && (doubt.Some? ==> doubt.value in s.cache)
  }

  lemma LogStates(log: seq<Event>, snap: Snapshot)
    ensures forall x ::
            LastState(log + [Announcement(snap)], x) == if x == snap.symbol then snap.stale else LastState(log, x)
  {
    var e := Announcement(snap);
    forall x ensures LastState(log + [e], x) == if x == snap.symbol then snap.stale else LastState(log, x) {
      LastStateAfter(log, e, x);
    }
  }

  // A prior-state map that is right about the listed symbols announces exactly what the log says.
  lemma {:induction false} PriorStateSuffices(s: State, snaps: seq<Snapshot>, faults: seq<Fault>)
    requires |faults| == |snaps|
    requires forall x <- Symbols(snaps) :: Get(s.cache, x) == LastState(s.log, x)
    ensures Announce(s, snaps, faults).log == Reference(s.log, snaps, faults)
    decreases |snaps|
  {
    if snaps != [] {
      var snap, rest := snaps[0], snaps[1..];
      assert snap.symbol in Symbols(snaps);
      assert forall x <- Symbols(rest) :: x in Symbols(snaps);
      if snap.stale == Get(s.cache, snap.symbol) {
        PriorStateSuffices(s, rest, faults[1..]);
      } else if faults[0] == Commit {
        LogStates(s.log, snap);
        PriorStateSuffices(State(s.log + [Announcement(snap)], s.cache[snap.symbol := snap.stale]), rest, faults[1..]);
      }
    }
  }

  // The loop keeps the cache truthful but for the symbol whose reply was lost.
  lemma {:induction false} AnnounceKeepsAgreement(s: State, snaps: seq<Snapshot>, faults: seq<Fault>)
    requires |faults| == |snaps| && Agrees(s) && Symbols(snaps) <= s.cache.Keys
    ensures Doubts(Announce(s, snaps, faults), LostSymbol(s.log, snaps, faults))
    decreases |snaps|
  {
    if snaps != [] {
      var snap, rest := snaps[0], snaps[1..];
      assert snap.symbol in Symbols(snaps);
      assert forall x <- Symbols(rest) :: x in Symbols(snaps);
      if snap.stale == Get(s.cache, snap.symbol) {
        AnnounceKeepsAgreement(s, rest, faults[1..]);
      } else {
        LogStates(s.log, snap);
        if faults[0] == Commit {
          AnnounceKeepsAgreement(State(s.log + [Announcement(snap)], s.cache[snap.symbol := snap.stale]), rest,
                                 faults[1..]);
        }
      }
    }
  }

  /** One pass from a cache that is right about every listed symbol: the log is the reference log, and afterwards the
      cache is right about everything but the symbol whose reply was lost. */
  lemma PassIsReference(s: State, snaps: seq<Snapshot>, faults: seq<Fault>)
    requires |faults| == |snaps|
    requires forall x <- Symbols(snaps) * s.cache.Keys :: s.cache[x] == LastState(s.log, x)
    ensures CachedPass(s, snaps, faults).log == Reference(s.log, snaps, faults)
    ensures Doubts(CachedPass(s, snaps, faults), LostSymbol(s.log, snaps, faults))
  {
    var start := State(s.log, Seeded(s, snaps));
    PriorStateSuffices(start, snaps, faults);
    AnnounceKeepsAgreement(start, snaps, faults);
  }

  // ---- runs, with restarts ----

  // One cadence, optionally followed by a process restart that empties the cache.
  datatype Step = Step(snaps: seq<Snapshot>, faults: seq<Fault>, restart: bool)

  ghost predicate WellFormed(steps: seq<Step>) {
    forall i :: 0 <= i < |steps| ==> |steps[i].faults| == |steps[i].snaps|
  }

  function CachedRun(s: State, steps: seq<Step>): State
    requires WellFormed(steps)
    decreases |steps|
  {
    if steps == [] then s
    else
      var next := CachedPass(s, steps[0].snaps, steps[0].faults);
      CachedRun(if steps[0].restart then next.(cache := map[]) else next, steps[1..])
  }

  function ReferenceRun(log: seq<Event>, steps: seq<Step>): seq<Event>
    requires WellFormed(steps)
    decreases |steps|
  {
    if steps == [] then log else ReferenceRun(Reference(log, steps[0].snaps, steps[0].faults), steps[1..])
  }

  // After a lost reply the process restarts, or the next cadence does not list the doubtful symbol, which prunes it.
  predicate Recovers(log: seq<Event>, doubt: Option<string>, steps: seq<Step>)
    requires WellFormed(steps)
    decreases |steps|
  {
    steps == []
    || ((doubt.Some? ==> doubt.value !in Symbols(steps[0].snaps))
        && Recovers(Reference(log, steps[0].snaps, steps[0].faults), DoubtAfter(log, steps[0]), steps[1..]))
  }

  function DoubtAfter(log: seq<Event>, step: Step): Option<string>
    requires |step.faults| == |step.snaps|
  {
    if step.restart then None else LostSymbol(log, step.snaps, step.faults)
  }

  /** Over every run, with symbols leaving and returning, lost writes and restarts anywhere, the
      cached surface writes exactly the log of the log-scanning one. */
  lemma {:induction false} CachedRunIsReferenceRun(s: State, doubt: Option<string>, steps: seq<Step>)
    requires WellFormed(steps) && Doubts(s, doubt) && Recovers(s.log, doubt, steps)
    ensures CachedRun(s, steps).log == ReferenceRun(s.log, steps)
    decreases |steps|
  {
    if steps != [] {
      var next := CachedPass(s, steps[0].snaps, steps[0].faults);
      PassIsReference(s, steps[0].snaps, steps[0].faults);
      CachedRunIsReferenceRun(if steps[0].restart then next.(cache := map[])
                              else next, DoubtAfter(s.log, steps[0]), steps[1..]);
    }
  }

  /** That condition cannot be weakened: after a lost reply and no restart, the next fault-free pass is right if and
      only if it does not list the doubtful symbol. */
  lemma NextPassRightExactlyWhenUnlisted(s: State, symbol: string, snaps: seq<Snapshot>, faults: seq<Fault>)
    requires Doubts(s, Some(symbol)) && |faults| == |snaps| && AllCommit(faults)
    ensures CachedPass(s, snaps, faults).log == Reference(s.log, snaps, faults) <==> symbol !in Symbols(snaps)
  {
    PassCorrectExactlyWhenCacheAgrees(s, snaps, faults);
  }

  /** For example: with the symbol still listed the announcement is repeated, while the reference
      stays silent. */
  lemma LostReplyDuplicates()
    ensures var snaps := [Snapshot("A", true)];
            var steps := [Step(snaps, [LostReply], false), Step(snaps, [Commit], false)];
            && CachedRun(State([], map[]), steps).log == [Stale("A"), Stale("A")]
            && ReferenceRun([], steps) == [Stale("A")]
  {
    var snaps := [Snapshot("A", true)];
    var s0 := State([], map[]);
    assert Seeded(s0, snaps) == map["A" := false];
    var s1 := CachedPass(s0, snaps, [LostReply]);
    assert s1.log == [Stale("A")] && s1.cache == map["A" := false];
    assert Seeded(s1, snaps) == map["A" := false];
    var s2 := CachedPass(s1, snaps, [Commit]);
    assert s2.log == s1.log + [Stale("A")];
    var steps := [Step(snaps, [LostReply], false), Step(snaps, [Commit], false)];
    assert steps[1..] == [steps[1]];
    assert CachedRun(s1, steps[1..]) == s2;
    assert Reference([], snaps, [LostReply]) == [Stale("A")];
    assert LastState([Stale("A")], "A");
    assert Reference([Stale("A")], snaps, [Commit]) == [Stale("A")];
    assert ReferenceRun([Stale("A")], steps[1..]) == [Stale("A")];
  }

  // ---- exactly when a cached pass announces the right events ----

  function Kinds(log: seq<Event>, symbol: string): seq<bool> {
    if log == [] then []
    else
      var e := log[|log| - 1];
      Kinds(log[..|log| - 1], symbol) + (if !e.Unrelated? && e.symbol == symbol then [e.Stale?] else [])
  }

  lemma KindsAfter(log: seq<Event>, e: Event, symbol: string)
    ensures Kinds(log + [e], symbol)
              == Kinds(log, symbol) + (if !e.Unrelated? && e.symbol == symbol then [e.Stale?] else [])
  {
    assert (log + [e])[..|log|] == log;
  }

  function Readings(snaps: seq<Snapshot>, symbol: string): seq<bool> {
    if snaps == [] then []
    else (if snaps[0].symbol == symbol then [snaps[0].stale] else []) + Readings(snaps[1..], symbol)
  }

  function Flips(was: bool, readings: seq<bool>): nat
    decreases |readings|
  {
    if readings == [] then 0 else (if readings[0] == was then 0 else 1) + Flips(readings[0], readings[1..])
  }

  ghost predicate AllCommit(faults: seq<Fault>) { forall i :: 0 <= i < |faults| ==> faults[i] == Commit }

  // Changes of state a symbol goes through in a list of snapshots, from what was known before.
  function Turns(was: bool, snaps: seq<Snapshot>, symbol: string): nat { Flips(was, Readings(snaps, symbol)) }

  lemma TurnsUnfold(was: bool, snaps: seq<Snapshot>, symbol: string)
    requires snaps != []
    ensures Turns(was, snaps, symbol) == if snaps[0].symbol != symbol then Turns(was, snaps[1..], symbol)
                                         else (if snaps[0].stale == was then 0 else 1) + Turns(snaps[0].stale,
                                                 snaps[1..], symbol)
  {
    if snaps[0].symbol == symbol {
      assert Readings(snaps, symbol)[1..] == Readings(snaps[1..], symbol);
    } else {
      assert Readings(snaps, symbol) == Readings(snaps[1..], symbol);
    }
  }

  lemma {:induction false} AnnouncementsPerSymbol(s: State, snaps: seq<Snapshot>, faults: seq<Fault>, symbol: string)
    requires |faults| == |snaps| && AllCommit(faults)
    ensures |Kinds(Announce(s, snaps, faults).log, symbol)|
              == |Kinds(s.log, symbol)| + Turns(Get(s.cache, symbol), snaps, symbol)
    decreases |snaps|
  {
    if snaps != [] {
      var snap := snaps[0];
      TurnsUnfold(Get(s.cache, symbol), snaps, symbol);
      if snap.stale == Get(s.cache, snap.symbol) {
        AnnouncementsPerSymbol(s, snaps[1..], faults[1..], symbol);
      } else {
        assert faults[0] == Commit;
        KindsAfter(s.log, Announcement(snap), symbol);
        AnnouncementsPerSymbol(State(s.log + [Announcement(snap)], s.cache[snap.symbol := snap.stale]), snaps[1..],
                               faults[1..], symbol);
      }
    }
  }

  /** A fault-free cached pass writes the reference log if and only if its cache agrees with the
      log on every listed symbol it remembers. */
  lemma PassCorrectExactlyWhenCacheAgrees(s: State, snaps: seq<Snapshot>, faults: seq<Fault>)
    requires |faults| == |snaps| && AllCommit(faults)
    ensures CachedPass(s, snaps, faults).log == Reference(s.log, snaps, faults)
       <==> forall x <- Symbols(snaps) * s.cache.Keys :: s.cache[x] == LastState(s.log, x)
  {
    var start := State(s.log, Seeded(s, snaps));
    var truth := State(s.log, map x | x in Symbols(snaps) :: LastState(s.log, x));
    PriorStateSuffices(truth, snaps, faults);
    if forall x <- Symbols(snaps) * s.cache.Keys :: s.cache[x] == LastState(s.log, x) {
      PriorStateSuffices(start, snaps, faults);
    } else {
      var x :| x in Symbols(snaps) * s.cache.Keys && s.cache[x] != LastState(s.log, x);
      AnnouncementsPerSymbol(start, snaps, faults, x);
      AnnouncementsPerSymbol(truth, snaps, faults, x);
      ReadingsOfListed(snaps, x);
      var r := Readings(snaps, x);
      assert Flips(true, r) != Flips(false, r);
    }
  }

  lemma {:induction false} ReadingsOfListed(snaps: seq<Snapshot>, symbol: string)
    requires symbol in Symbols(snaps)
    ensures Readings(snaps, symbol) != []
  {
    if snaps[0].symbol != symbol { ReadingsOfListed(snaps[1..], symbol); }
  }

  // ---- alternation ----

  ghost predicate Alternating(kinds: seq<bool>) { forall i :: 0 <= i < |kinds| ==> kinds[i] == (i % 2 == 0) }

  lemma {:induction false} LastStateIsLastKind(log: seq<Event>, symbol: string)
    ensures var k := Kinds(log, symbol);
            LastState(log, symbol) == (k != [] && k[|k| - 1])
  {
    if log != [] { LastStateIsLastKind(log[..|log| - 1], symbol); }
  }

  // One announcement keeps the alternation: it says the opposite of the last one.
  lemma AnnouncementAlternates(log: seq<Event>, snap: Snapshot, symbol: string)
    requires Alternating(Kinds(log, symbol)) && snap.stale != LastState(log, snap.symbol)
    ensures Alternating(Kinds(log + [Announcement(snap)], symbol))
  {
    LastStateIsLastKind(log, symbol);
    KindsAfter(log, Announcement(snap), symbol);
  }

  lemma {:induction false} ReferenceAlternates(log: seq<Event>, snaps: seq<Snapshot>, faults: seq<Fault>,
                                               symbol: string)
    requires |faults| == |snaps| && Alternating(Kinds(log, symbol))
    ensures Alternating(Kinds(Reference(log, snaps, faults), symbol))
    decreases |snaps|
  {
    if snaps != [] {
      var snap := snaps[0];
      if snap.stale == LastState(log, snap.symbol) {
        ReferenceAlternates(log, snaps[1..], faults[1..], symbol);
      } else {
        AnnouncementAlternates(log, snap, symbol);
        if faults[0] == Commit { ReferenceAlternates(log + [Announcement(snap)], snaps[1..], faults[1..], symbol); }
      }
    }
  }

  /** In every such run each symbol's announcements strictly alternate, starting with stale. */
  lemma {:induction false} RunAlternates(s: State, doubt: Option<string>, steps: seq<Step>, symbol: string)
    requires WellFormed(steps) && Doubts(s, doubt) && Recovers(s.log, doubt, steps)
    requires Alternating(Kinds(s.log, symbol))
    ensures Alternating(Kinds(CachedRun(s, steps).log, symbol))
    decreases |steps|
  {
    if steps != [] {
      var next := CachedPass(s, steps[0].snaps, steps[0].faults);
      PassIsReference(s, steps[0].snaps, steps[0].faults);
      ReferenceAlternates(s.log, steps[0].snaps, steps[0].faults, symbol);
      RunAlternates(if steps[0].restart then next.(cache := map[])
                    else next, DoubtAfter(s.log, steps[0]), steps[1..], symbol);
    }
  }

  // The last reading of a symbol in a list, or what was known before.
  function LastReading(was: bool, snaps: seq<Snapshot>, symbol: string): bool
    decreases |snaps|
  {
    if snaps == [] then was else LastReading(if snaps[0].symbol == symbol then snaps[0].stale
                                             else was, snaps[1..], symbol)
  }

  /** A fault-free reference pass leaves every symbol recorded as last read, and announces exactly its changes of
      state. */
  lemma {:induction false} ReferenceTracks(log: seq<Event>, snaps: seq<Snapshot>, faults: seq<Fault>, symbol: string)
    requires |faults| == |snaps| && AllCommit(faults)
    ensures LastState(Reference(log, snaps, faults), symbol) == LastReading(LastState(log, symbol), snaps, symbol)
    ensures |Kinds(Reference(log, snaps, faults), symbol)|
              == |Kinds(log, symbol)| + Turns(LastState(log, symbol), snaps, symbol)
    decreases |snaps|
  {
    if snaps != [] {
      TurnsUnfold(LastState(log, symbol), snaps, symbol);
      if snaps[0].stale == LastState(log, snaps[0].symbol) {
        ReferenceTracks(log, snaps[1..], faults[1..], symbol);
      } else {
        assert faults[0] == Commit;
        var e := Announcement(snaps[0]);
        LastStateAfter(log, e, symbol);
        KindsAfter(log, e, symbol);
        ReferenceTracks(log + [e], snaps[1..], faults[1..], symbol);
      }
    }
  }
}
