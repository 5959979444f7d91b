/** Two repair consumers share one gapless execution log and keep their cursors in it as checkpoint
    events. An event's sequence number is its index plus one. Checkpoints are transport metadata: a
    page that holds nothing else is skipped. Inspecting an event may fail, may repair (which appends
    inert facts), and any checkpoint write may be lost or lose its reply. */
module RepairCursor {
  import opened Wrappers
  import opened Writes

  datatype Consumer = Attribution | AcceptedSubmit

  // A Seed is repair work for one consumer; an Inert fact is inspected and needs nothing.
  datatype Event = Checkpoint(owner: Consumer, upTo: nat, audit: nat) | Seed(worker: Consumer) | Inert

  datatype Audit = AuditSeed | AuditInert

  const BATCH: nat := 256

  // The latest checkpoint of a consumer decides where it resumes.
  function HighWater(log: seq<Event>, c: Consumer): nat {
    if log == [] then 0
    else
      var e := log[|log| - 1];
      if e.Checkpoint? && e.owner == c then e.upTo else HighWater(log[..|log| - 1], c)
  }

  function Cursor(log: seq<Event>, c: Consumer): nat {
    if log == [] then 0
    else
      var e := log[|log| - 1];
      if e.Checkpoint? && e.owner == c then e.audit else Cursor(log[..|log| - 1], c)
  }

  lemma AfterAppend(log: seq<Event>, e: Event, c: Consumer)
    ensures HighWater(log + [e], c) == if e.Checkpoint? && e.owner == c then e.upTo else HighWater(log, c)
    ensures Cursor(log + [e], c) == if e.Checkpoint? && e.owner == c then e.audit else Cursor(log, c)
  {
    assert (log + [e])[..|log|] == log;
  }

  // Repair work, and facts of any kind, in a stretch of log.
  function Seeds(s: seq<Event>, c: Consumer): nat {
    if s == [] then 0 else (if s[0] == Seed(c) then 1 else 0) + Seeds(s[1..], c)
  }

  function Facts(s: seq<Event>): nat {
    if s == [] then 0 else (if s[0].Checkpoint? then 0 else 1) + Facts(s[1..])
  }

  function AuditSeeds(s: seq<Audit>): nat {
    if s == [] then 0 else (if s[0] == AuditSeed then 1 else 0) + AuditSeeds(s[1..])
  }

  lemma {:induction false} CountsAdd(a: seq<Event>, b: seq<Event>, c: Consumer)
    ensures Seeds(a + b, c) == Seeds(a, c) + Seeds(b, c)
    ensures Facts(a + b) == Facts(a) + Facts(b)
  {
    if a == [] {
      assert a + b == b;
    } else {
      assert (a + b)[1..] == a[1..] + b;
      CountsAdd(a[1..], b, c);
    }
  }

  lemma {:induction false} CountsAre(s: seq<Event>, c: Consumer)
    ensures Facts(s) == 0 <==> forall i :: 0 <= i < |s| ==> s[i].Checkpoint?
    ensures Seeds(s, c) == 0 <==> forall i :: 0 <= i < |s| ==> s[i] != Seed(c)
    ensures Seeds(s, c) <= Facts(s)
  {
    if s != [] {
      CountsAre(s[1..], c);
      assert forall i :: 0 < i < |s| ==> s[i] == s[1..][i - 1];
    }
  }

  // Nothing but checkpoints lies beyond the consumer's high-water mark.
  ghost predicate Idle(log: seq<Event>, c: Consumer) {
    forall i :: HighWater(log, c) <= i < |log| ==> log[i].Checkpoint?
  }

  // A durable append keyed by the checkpoint's own content: a repeat stores nothing.
  function Store(log: seq<Event>, cp: Event): seq<Event> { if cp in log then log else log + [cp] }

  predicate HasFact(page: seq<Event>) { exists k :: 0 <= k < |page| && !page[k].Checkpoint? }

  // One bounded page from a position on.
  function PageAt(log: seq<Event>, start: nat): (page: seq<Event>)
    requires start <= |log|
    ensures |page| <= BATCH && start + |page| <= |log| && page == log[start..start + |page|]
    ensures |page| < BATCH ==> start + |page| == |log|
  {
    log[start..if start + BATCH <= |log| then start + BATCH else |log|]
  }

  // Where the next page with a fact in it starts, skipping full pages of checkpoints; None when there is none.
  function NextPage(log: seq<Event>, from: nat): Option<nat>
    requires from <= |log|
    decreases |log| - from
  {
    var page := PageAt(log, from);
    if HasFact(page) then Some(from) else if |page| < BATCH then None else NextPage(log, from + |page|)
  }

  lemma PageHolds(log: seq<Event>, start: nat)
    requires start <= |log|
    ensures HasFact(PageAt(log, start)) <==>
            exists i :: start <= i < start + |PageAt(log, start)| && !log[i].Checkpoint?
  {
    var page := PageAt(log, start);
    assert forall k :: 0 <= k < |page| ==> page[k] == log[start + k];
    if i :| start <= i < start + |page| && !log[i].Checkpoint? { assert page[i - start] == log[i]; }
  }

  // Between the high-water mark and `start` there are only checkpoints.
  ghost predicate Scanned(log: seq<Event>, c: Consumer, start: nat) {
    HighWater(log, c) <= start <= |log| && forall i :: HighWater(log, c) <= i < start ==> log[i].Checkpoint?
  }

  // A page with a fact in it, the first beyond the mark; or none, and nothing but checkpoints beyond the mark.
  ghost predicate TailFound(log: seq<Event>, c: Consumer, start: nat, page: seq<Event>) {
    && Scanned(log, c, start) && start + |page| <= |log| && page == log[start..start + |page|] && |page| <= BATCH
    && (page == [] <==> Idle(log, c))
    && (page != [] ==> exists i :: start <= i < start + |page| && !log[i].Checkpoint?)
    && (page != [] && |page| < BATCH ==> start + |page| == |log|)
  }

  lemma PageFound(log: seq<Event>, c: Consumer, start: nat)
    requires Scanned(log, c, start)
    ensures var page := PageAt(log, start);
            && (HasFact(page) ==> TailFound(log, c, start, page))
            && (!HasFact(page) && |page| < BATCH ==> TailFound(log, c, start, []))
            && (!HasFact(page) ==> Scanned(log, c, start + |page|))
  {
    PageHolds(log, start);
  }

  // Only facts were appended, of any kind.
  ghost predicate GrewFacts(before: seq<Event>, log: seq<Event>) {
    before <= log && forall i :: |before| <= i < |log| ==> !log[i].Checkpoint?
  }

  // A repair appends only facts that need no further repair, as many as it likes.
  ghost predicate GrewInert(before: seq<Event>, log: seq<Event>) {
    before <= log && forall i :: |before| <= i < |log| ==> log[i] == Inert
  }

  ghost predicate AuditsGrew(before: seq<Audit>, audits: seq<Audit>) {
    before <= audits && forall i :: |before| <= i < |audits| ==> audits[i] == AuditInert
  }

  // What the cursors promise: every fact at or below a high-water mark was inspected without error by
  // its consumer, likewise every audit row, and no older checkpoint reaches past the latest one.
  ghost predicate Sound(log: seq<Event>, audits: seq<Audit>, seen: set<(Consumer, nat)>, audited: set<nat>,
                        c: Consumer) {
    var high, cursor := HighWater(log, c), Cursor(log, c);
    && high <= |log| && cursor <= |audits|
    && (forall j :: 0 <= j < high && !log[j].Checkpoint? ==> (c, j) in seen)
    && (forall j :: 0 <= j < cursor ==> j in audited)
    && (forall e <- log :: e.Checkpoint? && e.owner == c ==> e.upTo <= high && e.audit <= cursor)
  }

  lemma {:induction false} FactsMoveNoMark(before: seq<Event>, log: seq<Event>, c: Consumer)
    requires GrewFacts(before, log)
    ensures HighWater(log, c) == HighWater(before, c) && Cursor(log, c) == Cursor(before, c)
    decreases |log|
  {
    if |log| > |before| {
      FactsMoveNoMark(before, log[..|log| - 1], c);
    } else {
      assert log == before;
    }
  }

  // New facts and audit rows move no cursor and break no promise, and inspecting only adds to what was seen.
  lemma SoundGrows(log: seq<Event>, audits: seq<Audit>, seen: set<(Consumer, nat)>, audited: set<nat>,
                   log': seq<Event>, audits': seq<Audit>, c: Consumer)
    requires Sound(log, audits, seen, audited, c) && GrewFacts(log, log') && audits <= audits'
    ensures Sound(log', audits', seen, audited, c)
  {
    FactsMoveNoMark(log, log', c);
    forall e <- log' | e.Checkpoint? && e.owner == c ensures e in log {
      var i :| 0 <= i < |log'| && log'[i] == e;
      assert log[i] == e;
    }
    assert forall j :: 0 <= j < |log| ==> log'[j] == log[j];
  }

  // A new checkpoint over inspected ground keeps every cursor's promise.
  lemma SoundAdvances(log: seq<Event>, audits: seq<Audit>, seen: set<(Consumer, nat)>, audited: set<nat>, cp: Event,
                      c: Consumer)
    requires Sound(log, audits, seen, audited, c) && cp.Checkpoint?
    requires cp.owner == c ==>
               && HighWater(log, c) <= cp.upTo <= |log| && Cursor(log, c) <= cp.audit <= |audits|
               && (forall j :: 0 <= j < cp.upTo && !log[j].Checkpoint? ==> (c, j) in seen)
               && (forall j :: 0 <= j < cp.audit ==> j in audited)
    ensures Sound(log + [cp], audits, seen, audited, c)
  {
    AfterAppend(log, cp, c);
    var log' := log + [cp];
    assert forall e <- log' :: e in log || e == cp;
    assert forall j :: 0 <= j < |log| ==> log'[j] == log[j];
  }

  function Beyond(log: seq<Event>, c: Consumer): seq<Event> {
    if HighWater(log, c) <= |log| then log[HighWater(log, c)..] else []
  }

  // Only this consumer's checkpoints and facts of any kind were appended since `before`.
  ghost predicate Extends(before: seq<Event>, log: seq<Event>, c: Consumer) {
    before <= log && forall i :: |before| <= i < |log| ==> log[i].Checkpoint? ==> log[i].owner == c
  }

  // Only this consumer's checkpoints and inert facts were appended since `before`.
  ghost predicate Grew(before: seq<Event>, log: seq<Event>, c: Consumer) {
    before <= log && forall i :: |before| <= i < |log| ==> log[i] == Inert || (log[i].Checkpoint? && log[i].owner == c)
  }

  // Every audit row that was there before was inspected without error.
  ghost predicate AllAudited(before: seq<Audit>, audited: set<nat>) { forall j :: 0 <= j < |before| ==> j in audited }

  // No repair work for the consumer lies beyond its high-water mark.
  ghost predicate Quiet(log: seq<Event>, c: Consumer) { Seeds(Beyond(log, c), c) == 0 }

  // Every fact that was in the log before lies below the mark and was inspected without error.
  ghost predicate Covered(before: seq<Event>, log: seq<Event>, seen: set<(Consumer, nat)>, c: Consumer) {
    forall i :: 0 <= i < |before| && !before[i].Checkpoint? ==> i < HighWater(log, c) && (c, i) in seen
  }

  ghost predicate CheckpointsOnly(before: seq<Event>, log: seq<Event>) {
    before <= log && forall i :: |before| <= i < |log| ==> log[i].Checkpoint?
  }

  // Progress of the page loop: less repair work beyond the cursor, or as much and fewer facts.
  ghost predicate Less(log: seq<Event>, before: seq<Event>, c: Consumer) {
    var now, was := Beyond(log, c), Beyond(before, c);
    Seeds(now, c) < Seeds(was, c) || (Seeds(now, c) == Seeds(was, c) && Facts(now) < Facts(was))
  }

  // A page was cleared up to `end`: repair work shrank, or no repairs were made and facts shrank.
  lemma PageProgress(before: seq<Event>, log: seq<Event>, c: Consumer, high: nat, end: nat)
    requires Grew(before, log, c) && high < end <= |before|
    requires exists i :: high <= i < end && !before[i].Checkpoint?
    requires Seeds(before[high..end], c) == 0 ==> forall i :: |before| <= i < |log| ==> log[i].Checkpoint?
    ensures Seeds(log[end..], c) < Seeds(before[high..], c)
         || (Seeds(log[end..], c) == Seeds(before[high..], c) && Facts(log[end..]) < Facts(before[high..]))
  {
    var page, rest, added := before[high..end], before[end..], log[|before|..];
    assert before[high..] == page + rest;
    assert log[end..] == rest + added;
    CountsAdd(page, rest, c);
    CountsAdd(rest, added, c);
    CountsAre(page, c);
    CountsAre(added, c);
    var i :| high <= i < end && !before[i].Checkpoint?;
    assert page[i - high] == before[i];
    assert forall k :: 0 <= k < |added| ==> added[k] == log[|before| + k];
  }

  datatype Outcome = NothingToDo | Failed | Advanced(full: bool)

  class RepairLog {
    var log: seq<Event>
    var audits: seq<Audit>
    var toCome: nat   // how many facts and audit rows other actors will still append
    ghost var seen: set<(Consumer, nat)>
    ghost var audited: set<nat>
    ghost var smooth: bool   // every inspection succeeded and every checkpoint was stored and answered

    ghost predicate Valid() reads this {
      forall c :: Sound(log, audits, seen, audited, c)
    }

    constructor (toCome: nat)
      ensures Valid() && log == [] && audits == [] && this.toCome == toCome && smooth
    {
      log, audits, seen, audited, smooth := [], [], {}, {}, true;
      this.toCome := toCome;
    }

    /** Other actors append facts and audit rows of any kind, repair work included. */
    method Arrive()
      requires Valid()
      modifies this`log, this`audits, this`toCome
      ensures Valid() && GrewFacts(old(log), log) && old(audits) <= audits
      ensures |log| + |audits| + toCome == |old(log)| + |old(audits)| + old(toCome)
      ensures toCome == old(toCome) ==> log == old(log) && audits == old(audits)
    {
      ghost var log0, audits0 := log, audits;
      var facts: seq<Event>, rows: seq<Audit> := *, *;
      if |facts| + |rows| <= toCome && forall e <- facts :: !e.Checkpoint? {
        log, audits, toCome := log + facts, audits + rows, toCome - |facts| - |rows|;
      }
      forall d ensures Sound(log, audits, seen, audited, d) {
        assert Sound(log0, audits0, seen, audited, d);
        SoundGrows(log0, audits0, seen, audited, log, audits, d);
      }
    }

    // The writes of one repair: any number of inert facts and audit rows.
    method Repair()
      requires Valid()
      modifies this`log, this`audits
      ensures Valid() && GrewInert(old(log), log) && AuditsGrew(old(audits), audits)
    {
      ghost var log0, audits0 := log, audits;
      var facts: nat, rows: nat := *, *;
      log := log + seq(facts, _ => Inert);
      audits := audits + seq(rows, _ => AuditInert);
      forall d ensures Sound(log, audits, seen, audited, d) {
        assert Sound(log0, audits0, seen, audited, d);
        SoundGrows(log0, audits0, seen, audited, log, audits, d);
      }
    }

    /** Look at one fact. Only a seed of this consumer can cause repairs; a failure marks nothing. */
    method Inspect(c: Consumer, j: nat) returns (ok: bool)
      requires Valid() && j < |log|
      modifies this
      ensures Valid() && old(seen) <= seen && audited == old(audited) && toCome <= old(toCome)
      ensures GrewFacts(old(log), log) && old(audits) <= audits
      ensures ok ==> (c, j) in seen
      ensures smooth == (old(smooth) && ok)
      ensures toCome == old(toCome) ==> GrewInert(old(log), log) && AuditsGrew(old(audits), audits)
      ensures toCome == old(toCome) && old(log[j]) != Seed(c) ==> log == old(log) && audits == old(audits)
    {
      Arrive();
      if log[j] == Seed(c) { Repair(); }
      ok := *;
      smooth := smooth && ok;
      if ok {
        ghost var seen0 := seen;
        seen := seen + {(c, j)};
        assert forall d :: Sound(log, audits, seen0, audited, d) ==> Sound(log, audits, seen, audited, d);
      }
    }

    /** Store the next checkpoint of `c`. The caller must already have inspected everything it covers. */
    method Advance(c: Consumer, upTo: nat, audit: nat, fault: Fault) returns (ok: bool)
      requires Valid() && upTo <= |log| && audit <= |audits|
      requires HighWater(log, c) <= upTo && Cursor(log, c) <= audit
      requires HighWater(log, c) < upTo || Cursor(log, c) < audit
      requires forall j :: 0 <= j < upTo && !log[j].Checkpoint? ==> (c, j) in seen
      requires forall j :: 0 <= j < audit ==> j in audited
      modifies this`log, this`smooth
      ensures Valid() && ok == (fault == Commit) && smooth == (old(smooth) && ok)
      ensures log == if fault == Lost then old(log) else old(log) + [Checkpoint(c, upTo, audit)]
      ensures ok ==> HighWater(log, c) == upTo && Cursor(log, c) == audit
      ensures forall d :: d != c ==> HighWater(log, d) == HighWater(old(log), d)
    {
      var cp := Checkpoint(c, upTo, audit);
      ghost var before := log;
      assert Sound(log, audits, seen, audited, c);
      assert cp !in log;
      if fault != Lost { log := Store(log, cp); }
      forall d ensures Sound(log, audits, seen, audited, d) && (d != c ==> HighWater(log, d) == HighWater(before, d)) {
        assert Sound(before, audits, seen, audited, d);
        SoundAdvances(before, audits, seen, audited, cp, d);
        AfterAppend(before, cp, d);
      }
      AfterAppend(before, cp, c);
      ok := fault == Commit;
      smooth := smooth && ok;
    }

    // Read the page at one position, after whatever has arrived.
    method ReadPage(c: Consumer, start: nat) returns (page: seq<Event>)
      requires Valid() && Scanned(log, c, start)
      modifies this`log, this`audits, this`toCome
      ensures Valid() && GrewFacts(old(log), log) && old(audits) <= audits && toCome <= old(toCome)
      ensures toCome == old(toCome) ==> log == old(log) && audits == old(audits)
      ensures start <= |log| && page == PageAt(log, start)
      ensures HasFact(page) ==> TailFound(log, c, start, page)
      ensures !HasFact(page) && |page| < BATCH ==> TailFound(log, c, start, [])
      ensures !HasFact(page) ==> Scanned(log, c, start + |page|)
    {
      Arrive();
      FactsMoveNoMark(old(log), log, c);
      page := PageAt(log, start);
      PageFound(log, c, start);
    }

    /** One bounded page beyond the cursor, checkpoint-only pages skipped. An empty answer means only
        checkpoints remain. */
    method Tail(c: Consumer) returns (start: nat, page: seq<Event>)
      requires Valid()
      modifies this`log, this`audits, this`toCome
      ensures Valid() && GrewFacts(old(log), log) && old(audits) <= audits && toCome <= old(toCome)
      ensures toCome == old(toCome) ==> log == old(log) && audits == old(audits)
      ensures TailFound(log, c, start, page)
    {
      assert Sound(log, audits, seen, audited, c);
      start := HighWater(log, c);
      while true
        invariant Valid() && GrewFacts(old(log), log) && old(audits) <= audits && toCome <= old(toCome)
        invariant toCome == old(toCome) ==> log == old(log) && audits == old(audits)
        invariant Scanned(log, c, start)
        decreases toCome, |log| - start
      {
        page := ReadPage(c, start);
        if HasFact(page) { return; }
        if |page| < BATCH {
          page := [];
          return;
        }
        start := start + |page|;
      }
    }

    // Inspect every fact of a page; stop at the first that fails.
    method InspectPage(c: Consumer, start: nat, end: nat) returns (ok: bool)
      requires Valid() && start <= end <= |log|
      modifies this
      ensures Valid() && old(seen) <= seen && audited == old(audited) && toCome <= old(toCome)
      ensures smooth == (old(smooth) && ok)
      ensures GrewFacts(old(log), log) && old(audits) <= audits
      ensures ok ==> forall j :: start <= j < end && !log[j].Checkpoint? ==> (c, j) in seen
      ensures toCome == old(toCome) ==> GrewInert(old(log), log) && AuditsGrew(old(audits), audits)
      ensures toCome == old(toCome) && Seeds(old(log)[start..end], c) == 0 ==> log == old(log) && audits == old(audits)
    {
      CountsAre(log[start..end], c);
      for j := start to end
        invariant Valid() && old(seen) <= seen && audited == old(audited) && toCome <= old(toCome)
        invariant smooth == old(smooth)
        invariant GrewFacts(old(log), log) && old(audits) <= audits
        invariant forall i :: start <= i < j && !log[i].Checkpoint? ==> (c, i) in seen
        invariant toCome == old(toCome) ==> GrewInert(old(log), log) && AuditsGrew(old(audits), audits)
        invariant toCome == old(toCome) && Seeds(old(log)[start..end], c) == 0 ==>
                  log == old(log) && audits == old(audits)
      {
        if log[j].Checkpoint? { continue; }
        assert old(log)[start..end][j - start] == log[j];
        var clean := Inspect(c, j);
        if !clean { return false; }
      }
      ok := true;
    }

    // Inspect the whole page, then store a checkpoint at its end.
    method ClearPage(c: Consumer, start: nat, end: nat, fault: Fault) returns (ok: bool)
      requires Valid() && HighWater(log, c) <= start < end <= |log|
      requires forall i :: HighWater(log, c) <= i < start ==> log[i].Checkpoint?
      modifies this
      ensures Valid() && old(seen) <= seen && audited == old(audited) && toCome <= old(toCome)
      ensures smooth == (old(smooth) && ok)
      ensures Extends(old(log), log, c) && old(audits) <= audits
      ensures ok ==> HighWater(log, c) == end && Cursor(log, c) == Cursor(old(log), c)
      ensures toCome == old(toCome) ==> Grew(old(log), log, c) && AuditsGrew(old(audits), audits)
      ensures toCome == old(toCome) && Seeds(old(log)[start..end], c) == 0 ==>
                audits == old(audits) && CheckpointsOnly(old(log), log)
    {
      ok := InspectPage(c, start, end);
      if ok {
        Arrive();
        FactsMoveNoMark(old(log), log, c);
        assert Sound(log, audits, seen, audited, c);
        ok := Advance(c, end, Cursor(log, c), fault);
      }
    }

    /** Clear one page: inspect it whole, then move the cursor. The cursor moves strictly forward, and
        only over facts that were all inspected without error. */
    method ProcessPage(c: Consumer, fault: Fault) returns (r: Outcome)
      requires Valid()
      modifies this
      ensures Valid() && old(seen) <= seen && audited == old(audited) && toCome <= old(toCome)
      ensures smooth == (old(smooth) && r != Failed)
      ensures Extends(old(log), log, c) && old(audits) <= audits
      ensures r == NothingToDo ==> Idle(log, c) && Cursor(log, c) == Cursor(old(log), c)
      ensures r.Advanced? ==>
              HighWater(old(log), c) < HighWater(log, c) <= |log| && Cursor(log, c) == Cursor(old(log), c)
      ensures r == Advanced(false) ==> |old(log)| <= HighWater(log, c)
      ensures toCome == old(toCome) ==> Grew(old(log), log, c) && AuditsGrew(old(audits), audits)
      ensures toCome == old(toCome) ==>
              (r == NothingToDo <==> Idle(old(log), c)) && (r.Advanced? ==> Less(log, old(log), c))
      ensures toCome == old(toCome) && r == NothingToDo ==> log == old(log) && audits == old(audits)
      ensures toCome == old(toCome) && Quiet(old(log), c) ==> audits == old(audits) && CheckpointsOnly(old(log), log)
    {
      var start, page := Tail(c);
      FactsMoveNoMark(old(log), log, c);
      if page == [] { return NothingToDo; }
      var end := start + |page|;
      QuietPage(log, c, HighWater(log, c), start, end);
      ghost var before := log;
      var ok := ClearPage(c, start, end, fault);
      if !ok { return Failed; }
      if toCome == old(toCome) { PageProgress(before, log, c, HighWater(before, c), end); }
      assert Sound(log, audits, seen, audited, c);
      r := Advanced(|page| == BATCH);
    }

    /** Page after page until the tail is checkpoint-only or a short page was cleared. Every earlier fact is covered,
        whatever arrives meanwhile. The loop terminates: arrivals are finite, and without one each page leaves less
        repair work, or as much and fewer facts. */
    method DrainExecution(c: Consumer) returns (clean: bool)
      requires Valid()
      modifies this
      ensures Valid() && old(seen) <= seen && audited == old(audited) && toCome <= old(toCome)
      ensures smooth == (old(smooth) && clean)
      ensures Extends(old(log), log, c) && old(audits) <= audits
      ensures clean ==> Covered(old(log), log, seen, c) && Cursor(log, c) == Cursor(old(log), c)
      ensures toCome == old(toCome) ==> Drained(old(log), old(audits), log, audits, c, clean)
    {
      while true
        invariant Valid() && old(seen) <= seen && audited == old(audited) && toCome <= old(toCome)
        invariant smooth == old(smooth)
        invariant Extends(old(log), log, c) && old(audits) <= audits && Cursor(log, c) == Cursor(old(log), c)
        invariant toCome == old(toCome) ==> Draining(old(log), old(audits), log, audits, c)
        decreases toCome, Seeds(Beyond(log, c), c), Facts(Beyond(log, c))
      {
        var fault: Fault := *;
        var r := ProcessPage(c, fault);
        if r == Failed { return false; }
        if r == NothingToDo || !r.full {
          assert Sound(log, audits, seen, audited, c);
          if toCome == old(toCome) { QuietWhenCovered(old(log), log, c); }
          return true;
        }
      }
    }

    // Inspect one audit row.
    method InspectAudit(j: nat) returns (ok: bool)
      requires Valid() && j < |audits|
      modifies this
      ensures Valid() && seen == old(seen) && old(audited) <= audited && toCome <= old(toCome)
      ensures GrewFacts(old(log), log) && old(audits) <= audits
      ensures ok ==> j in audited
      ensures smooth == (old(smooth) && ok)
      ensures toCome == old(toCome) ==> GrewInert(old(log), log) && AuditsGrew(old(audits), audits)
      ensures toCome == old(toCome) && old(audits[j]) != AuditSeed ==> log == old(log) && audits == old(audits)
    {
      Arrive();
      if audits[j] == AuditSeed { Repair(); }
      ok := *;
      smooth := smooth && ok;
      if ok {
        ghost var audited0 := audited;
        audited := audited + {j};
        assert forall d :: Sound(log, audits, seen, audited0, d) ==> Sound(log, audits, seen, audited, d);
      }
    }

    // Inspect a page of audit rows; stop at the first that fails.
    method InspectAudits(start: nat, end: nat) returns (ok: bool)
      requires Valid() && start <= end <= |audits|
      modifies this
      ensures Valid() && seen == old(seen) && old(audited) <= audited && toCome <= old(toCome)
      ensures smooth == (old(smooth) && ok)
      ensures GrewFacts(old(log), log) && old(audits) <= audits
      ensures ok ==> forall j :: start <= j < end ==> j in audited
      ensures toCome == old(toCome) ==> GrewInert(old(log), log) && AuditsGrew(old(audits), audits)
      ensures toCome == old(toCome) && AuditSeeds(old(audits)[start..end]) == 0 ==>
              log == old(log) && audits == old(audits)
    {
      AuditCountIs(audits[start..end]);
      for j := start to end
        invariant Valid() && seen == old(seen) && old(audited) <= audited && toCome <= old(toCome)
        invariant smooth == old(smooth)
        invariant GrewFacts(old(log), log) && old(audits) <= audits
        invariant forall i :: start <= i < j ==> i in audited
        invariant toCome == old(toCome) ==> GrewInert(old(log), log) && AuditsGrew(old(audits), audits)
        invariant toCome == old(toCome) && AuditSeeds(old(audits)[start..end]) == 0 ==>
                  log == old(log) && audits == old(audits)
      {
        assert old(audits)[start..end][j - start] == audits[j];
        var clean := InspectAudit(j);
        if !clean { return false; }
      }
      ok := true;
    }

    // One page of audit rows: inspect all of it, then store the moved cursor beside the unmoved high-water mark.
    method ClearAudits(end: nat, fault: Fault) returns (ok: bool)
      requires Valid() && Cursor(log, AcceptedSubmit) < end <= |audits|
      modifies this
      ensures Valid() && seen == old(seen) && old(audited) <= audited && toCome <= old(toCome)
      ensures smooth == (old(smooth) && ok)
      ensures Extends(old(log), log, AcceptedSubmit) && old(audits) <= audits
      ensures HighWater(log, AcceptedSubmit) == HighWater(old(log), AcceptedSubmit)
      ensures ok ==> Cursor(log, AcceptedSubmit) == end
      ensures toCome == old(toCome) ==> Grew(old(log), log, AcceptedSubmit) && AuditsGrew(old(audits), audits)
      ensures toCome == old(toCome) && AuditSeeds(old(audits)[Cursor(old(log), AcceptedSubmit)..end]) == 0 ==>
                audits == old(audits) && CheckpointsOnly(old(log), log)
    {
      var start, high := Cursor(log, AcceptedSubmit), HighWater(log, AcceptedSubmit);
      ok := InspectAudits(start, end);
      FactsMoveNoMark(old(log), log, AcceptedSubmit);
      if ok {
        ghost var middle := log;
        Arrive();
        FactsMoveNoMark(middle, log, AcceptedSubmit);
        assert Sound(log, audits, seen, audited, AcceptedSubmit);
        ghost var before := log;
        ok := Advance(AcceptedSubmit, high, end, fault);
        AfterAppend(before, Checkpoint(AcceptedSubmit, high, end), AcceptedSubmit);
      }
    }

    // One page of audit rows beyond the cursor, if there is one.
    method ProcessAudits(cursor: nat, fault: Fault) returns (r: Outcome, next: nat)
      requires Valid() && cursor == Cursor(log, AcceptedSubmit) <= |audits|
      modifies this
      ensures Valid() && seen == old(seen) && toCome <= old(toCome)
      ensures smooth == (old(smooth) && r != Failed)
      ensures Extends(old(log), log, AcceptedSubmit) && old(audits) <= audits
      ensures HighWater(log, AcceptedSubmit) == HighWater(old(log), AcceptedSubmit)
      ensures r == NothingToDo ==> cursor == Cursor(log, AcceptedSubmit) == |audits|
      ensures r.Advanced? ==> cursor < next == Cursor(log, AcceptedSubmit) <= |audits|
      ensures r == Advanced(false) ==> |old(audits)| <= next
      ensures toCome == old(toCome) ==> AuditPageDone(old(log), old(audits), log, audits, cursor, r, next)
    {
      Arrive();
      FactsMoveNoMark(old(log), log, AcceptedSubmit);
      assert Sound(log, audits, seen, audited, AcceptedSubmit);
      next := cursor;
      if cursor == |audits| { return NothingToDo, cursor; }
      var end := if cursor + BATCH <= |audits| then cursor + BATCH else |audits|;
      ghost var was, coming := audits, toCome;
      var ok := ClearAudits(end, fault);
      if toCome == coming { AuditPageProgress(was, audits, cursor, end); }
      if !ok { return Failed, cursor; }
      assert Sound(log, audits, seen, audited, AcceptedSubmit);
      if toCome == coming && end == |was| { NoAuditWorkWhenCovered(was, audits, log); }
      return Advanced(end - cursor == BATCH), end;
    }

    /** Every audit row, page by page; repairs and other actors may add rows, which later pages inspect too. */
    method DrainAudits() returns (clean: bool)
      requires Valid()
      modifies this
      ensures Valid() && seen == old(seen) && toCome <= old(toCome)
      ensures smooth == (old(smooth) && clean)
      ensures Extends(old(log), log, AcceptedSubmit) && old(audits) <= audits
      ensures HighWater(log, AcceptedSubmit) == HighWater(old(log), AcceptedSubmit)
      ensures clean ==>
              |old(audits)| <= Cursor(log, AcceptedSubmit) && forall j :: 0 <= j < |old(audits)| ==> j in audited
      ensures toCome == old(toCome) ==> AuditsDrained(old(log), old(audits), log, audits, clean)
    {
      var cursor := Cursor(log, AcceptedSubmit);
      assert Sound(log, audits, seen, audited, AcceptedSubmit);
      while true
        invariant Valid() && seen == old(seen) && toCome <= old(toCome)
        invariant smooth == old(smooth)
        invariant Extends(old(log), log, AcceptedSubmit) && old(audits) <= audits
        invariant HighWater(log, AcceptedSubmit) == HighWater(old(log), AcceptedSubmit)
        invariant cursor == Cursor(log, AcceptedSubmit) <= |audits|
        invariant toCome == old(toCome) ==> AuditsDraining(old(log), old(audits), log, audits)
        decreases toCome, AuditSeeds(audits[cursor..]), |audits| - cursor
      {
        var fault: Fault := *;
        var r, next := ProcessAudits(cursor, fault);
        if r == Failed { return false; }
        if r == NothingToDo || !r.full {
          assert Sound(log, audits, seen, audited, AcceptedSubmit);
          return true;
        }
        cursor := next;
      }
    }

    /** The accepted-submit consumer: audit rows first, then the execution log. */
    method RepairSubmits() returns (clean: bool)
      requires Valid()
      modifies this
      ensures Valid() && old(seen) <= seen && toCome <= old(toCome)
      ensures smooth == (old(smooth) && clean)
      ensures Extends(old(log), log, AcceptedSubmit) && old(audits) <= audits
      ensures clean ==> Covered(old(log), log, seen, AcceptedSubmit) && AllAudited(old(audits), audited)
      ensures toCome == old(toCome) ==> SubmitsDrained(old(log), old(audits), log, audits, clean)
    {
      assert Sound(log, audits, seen, audited, AcceptedSubmit);
      clean := DrainAudits();
      if !clean { return; }
      ghost var log1, audits1, coming := log, audits, toCome;
      assert Sound(log, audits, seen, audited, AcceptedSubmit);
      clean := DrainExecution(AcceptedSubmit);
      if toCome == old(toCome) {
        Undisturbed(old(log), log1, AcceptedSubmit, AcceptedSubmit);
        if clean { NoAuditWorkStays(audits1, audits, log1, log); }
      }
    }

    /** The repair part of one tick. A clean round covers every fact it began with, for both consumers, whatever
        arrives. Unless something arrived it leaves no repair work; without repair work it settles both cursors; and a
        settled log is not written to. */
    method Round() returns (clean: bool)
      requires Valid()
      modifies this
      ensures Valid() && old(log) <= log && old(audits) <= audits && toCome <= old(toCome)
      ensures smooth == (old(smooth) && clean)
      ensures clean ==> Covered(old(log), log, seen, AcceptedSubmit) && Covered(old(log), log, seen, Attribution)
      ensures clean ==> AllAudited(old(audits), audited)
      ensures toCome == old(toCome) && clean ==> NoWork(log, audits)
      ensures toCome == old(toCome) && NoWork(old(log), old(audits)) ==>
              CheckpointsOnly(old(log), log) && audits == old(audits)
      ensures toCome == old(toCome) && clean && NoWork(old(log), old(audits)) ==> Settled(log, audits)
      ensures toCome == old(toCome) && Settled(old(log), old(audits)) ==>
              clean && log == old(log) && audits == old(audits)
    {
      assert Sound(log, audits, seen, audited, Attribution);
      clean := RepairSubmits();
      if !clean { return; }
      ghost var log1, audits1 := log, audits;
      assert Sound(log, audits, seen, audited, AcceptedSubmit);
      clean := DrainExecution(Attribution);
      OtherUnmoved(log1, log, Attribution, AcceptedSubmit);
      if toCome == old(toCome) {
        AttributionUndisturbed(old(log), log1);
        if clean { SubmitsUndisturbed(log1, log, audits1, audits); }
      }
    }
  }

  // The accepted-submit consumer leaves the other one's standing alone, and the other way round.
  lemma AttributionUndisturbed(before: seq<Event>, log: seq<Event>)
    requires Grew(before, log, AcceptedSubmit) && HighWater(before, Attribution) <= |before|
    ensures Quiet(before, Attribution) ==> Quiet(log, Attribution)
    ensures CheckpointsOnly(before, log) && Idle(before, Attribution) ==> Idle(log, Attribution)
  {
    OtherUnmoved(before, log, AcceptedSubmit, Attribution);
    Undisturbed(before, log, AcceptedSubmit, Attribution);
  }

  lemma SubmitsUndisturbed(before: seq<Event>, log: seq<Event>, audits0: seq<Audit>, audits: seq<Audit>)
    requires Grew(before, log, Attribution) && HighWater(before, AcceptedSubmit) <= |before| &&
             AuditsGrew(audits0, audits)
    ensures HighWater(log, AcceptedSubmit) == HighWater(before, AcceptedSubmit)
    ensures NoSubmitWork(before, audits0) ==> NoSubmitWork(log, audits)
    ensures CheckpointsOnly(before, log) && audits == audits0 && SubmitsSettled(before, audits0) ==>
            SubmitsSettled(log, audits)
  {
    OtherUnmoved(before, log, Attribution, AcceptedSubmit);
    Undisturbed(before, log, Attribution, AcceptedSubmit);
    if NoAuditWork(before, audits0) { NoAuditWorkStays(audits0, audits, before, log); }
  }

  // One consumer's pages, with nothing arriving: what they append, and where they leave the consumer.
  ghost predicate Draining(log0: seq<Event>, audits0: seq<Audit>, log: seq<Event>, audits: seq<Audit>, c: Consumer) {
    && Grew(log0, log, c) && AuditsGrew(audits0, audits)
    && (Idle(log0, c) ==> log == log0 && audits == audits0)
    && (Quiet(log0, c) ==> Quiet(log, c) && CheckpointsOnly(log0, log) && audits == audits0)
  }

  ghost predicate Drained(log0: seq<Event>, audits0: seq<Audit>, log: seq<Event>, audits: seq<Audit>, c: Consumer,
                          clean: bool) {
    && Grew(log0, log, c) && AuditsGrew(audits0, audits)
    && (clean ==> Quiet(log, c))
    && (Idle(log0, c) ==> clean && log == log0 && audits == audits0)
    && (Quiet(log0, c) ==> CheckpointsOnly(log0, log) && audits == audits0)
    && (Quiet(log0, c) && clean ==> Idle(log, c))
  }

  // One audit page, with nothing arriving.
  ghost predicate AuditPageDone(log0: seq<Event>, audits0: seq<Audit>, log: seq<Event>, audits: seq<Audit>,
                                cursor: nat, r: Outcome, next: nat)
    requires cursor <= |audits0| && (r.Advanced? ==> next <= |audits|)
  {
    && Grew(log0, log, AcceptedSubmit) && AuditsGrew(audits0, audits)
    && (AuditSeeds(audits0[cursor..]) == 0 ==> CheckpointsOnly(log0, log) && audits == audits0)
    && (r == NothingToDo <==> cursor == |audits0|)
    && (r == NothingToDo ==> log == log0 && audits == audits0)
    && (r == NothingToDo || r == Advanced(false) ==> NoAuditWork(log, audits))
    && (r.Advanced? ==>
          || AuditSeeds(audits[next..]) < AuditSeeds(audits0[cursor..])
          || (AuditSeeds(audits[next..]) == AuditSeeds(audits0[cursor..]) && audits == audits0))
  }

  ghost predicate AuditsDraining(log0: seq<Event>, audits0: seq<Audit>, log: seq<Event>, audits: seq<Audit>) {
    && Grew(log0, log, AcceptedSubmit) && AuditsGrew(audits0, audits)
    && (Cursor(log0, AcceptedSubmit) == |audits0| ==> log == log0 && audits == audits0)
    && (NoAuditWork(log0, audits0) ==> NoAuditWork(log, audits) && CheckpointsOnly(log0, log) && audits == audits0)
  }

  ghost predicate AuditsDrained(log0: seq<Event>, audits0: seq<Audit>, log: seq<Event>, audits: seq<Audit>,
                                clean: bool) {
    && Grew(log0, log, AcceptedSubmit) && AuditsGrew(audits0, audits)
    && (clean ==> NoAuditWork(log, audits))
    && (Cursor(log0, AcceptedSubmit) == |audits0| ==> clean && log == log0 && audits == audits0)
    && (NoAuditWork(log0, audits0) ==> CheckpointsOnly(log0, log) && audits == audits0)
  }

  ghost predicate SubmitsDrained(log0: seq<Event>, audits0: seq<Audit>, log: seq<Event>, audits: seq<Audit>,
                                 clean: bool) {
    && Grew(log0, log, AcceptedSubmit) && AuditsGrew(audits0, audits)
    && (clean ==> NoSubmitWork(log, audits))
    && (NoSubmitWork(log0, audits0) ==> CheckpointsOnly(log0, log) && audits == audits0)
    && (clean && NoSubmitWork(log0, audits0) ==> SubmitsSettled(log, audits))
    && (SubmitsSettled(log0, audits0) ==> clean && log == log0 && audits == audits0)
  }

  lemma {:induction false} OtherUnmoved(before: seq<Event>, log: seq<Event>, c: Consumer, d: Consumer)
    requires Extends(before, log, c) && d != c
    ensures HighWater(log, d) == HighWater(before, d) && Cursor(log, d) == Cursor(before, d)
    decreases |log|
  {
    if |log| > |before| {
      OtherUnmoved(before, log[..|log| - 1], c, d);
    } else {
      assert log == before;
    }
  }

  // One consumer's appends give a consumer whose own cursor stands still no repair work, and checkpoints keep it idle.
  lemma Undisturbed(before: seq<Event>, log: seq<Event>, c: Consumer, d: Consumer)
    requires Grew(before, log, c) && HighWater(log, d) == HighWater(before, d) <= |before|
    ensures Quiet(before, d) ==> Quiet(log, d)
    ensures CheckpointsOnly(before, log) && Idle(before, d) ==> Idle(log, d)
  {
    CountsAre(Beyond(before, d), d);
    CountsAre(Beyond(log, d), d);
    var high := HighWater(log, d);
    if Quiet(before, d) {
      forall i | 0 <= i < |Beyond(log, d)| ensures Beyond(log, d)[i] != Seed(d) {
        assert high + i < |before| ==> Beyond(before, d)[i] == before[high + i];
      }
    }
  }

  // Once every older fact is covered, what the consumer appended itself is no work.
  lemma QuietWhenCovered(before: seq<Event>, log: seq<Event>, c: Consumer)
    requires Grew(before, log, c) && HighWater(log, c) <= |log|
    requires forall i :: 0 <= i < |before| && !log[i].Checkpoint? ==> i < HighWater(log, c)
    ensures Quiet(log, c)
    ensures CheckpointsOnly(before, log) ==> Idle(log, c)
  {
    CountsAre(Beyond(log, c), c);
    forall i | 0 <= i < |Beyond(log, c)| ensures Beyond(log, c)[i] != Seed(c) {
      assert Beyond(log, c)[i] == log[HighWater(log, c) + i];
    }
  }

  lemma NoAuditWorkWhenCovered(before: seq<Audit>, audits: seq<Audit>, log: seq<Event>)
    requires AuditsGrew(before, audits) && |before| <= Cursor(log, AcceptedSubmit) <= |audits|
    ensures NoAuditWork(log, audits)
  {
    var cursor := Cursor(log, AcceptedSubmit);
    AuditCountIs(audits[cursor..]);
    assert forall i :: 0 <= i < |audits[cursor..]| ==> audits[cursor..][i] == audits[cursor + i];
  }

  lemma NoAuditWorkStays(before: seq<Audit>, audits: seq<Audit>, log0: seq<Event>, log: seq<Event>)
    requires AuditsGrew(before, audits) && NoAuditWork(log0, before) &&
             Cursor(log, AcceptedSubmit) == Cursor(log0, AcceptedSubmit)
    ensures NoAuditWork(log, audits)
  {
    var cursor := Cursor(log, AcceptedSubmit);
    AuditCountsAdd(before[cursor..], audits[|before|..]);
    assert audits[cursor..] == before[cursor..] + audits[|before|..];
    AuditCountIs(audits[|before|..]);
    assert forall i :: 0 <= i < |audits[|before|..]| ==> audits[|before|..][i] == audits[|before| + i];
  }

  lemma {:induction false} AuditCountIs(s: seq<Audit>)
    ensures AuditSeeds(s) == 0 <==> forall i :: 0 <= i < |s| ==> s[i] != AuditSeed
  {
    if s != [] {
      AuditCountIs(s[1..]);
      assert forall i :: 0 < i < |s| ==> s[i] == s[1..][i - 1];
    }
  }

  lemma {:induction false} AuditCountsAdd(a: seq<Audit>, b: seq<Audit>)
    ensures AuditSeeds(a + b) == AuditSeeds(a) + AuditSeeds(b)
  {
    if a == [] {
      assert a + b == b;
    } else {
      assert (a + b)[1..] == a[1..] + b;
      AuditCountsAdd(a[1..], b);
    }
  }

  // Appended rows hold no work, so clearing a page leaves less work, or as much over fewer rows.
  lemma AuditPageProgress(before: seq<Audit>, audits: seq<Audit>, cursor: nat, end: nat)
    requires AuditsGrew(before, audits) && cursor < end <= |before|
    requires AuditSeeds(before[cursor..end]) == 0 ==> audits == before
    ensures AuditSeeds(before[cursor..end]) <= AuditSeeds(before[cursor..])
    ensures AuditSeeds(audits[end..]) < AuditSeeds(before[cursor..])
         || (AuditSeeds(audits[end..]) == AuditSeeds(before[cursor..]) && audits == before)
  {
    var page, rest, added := before[cursor..end], before[end..], audits[|before|..];
    assert before[cursor..] == page + rest;
    assert audits[end..] == rest + added;
    AuditCountsAdd(page, rest);
    AuditCountsAdd(rest, added);
    AuditCountIs(added);
    assert forall k :: 0 <= k < |added| ==> added[k] == audits[|before| + k];
  }

  // No unrepaired audit row lies beyond the audit cursor.
  ghost predicate NoAuditWork(log: seq<Event>, audits: seq<Audit>) {
    Cursor(log, AcceptedSubmit) <= |audits| && AuditSeeds(audits[Cursor(log, AcceptedSubmit)..]) == 0
  }

  ghost predicate NoSubmitWork(log: seq<Event>, audits: seq<Audit>) {
    NoAuditWork(log, audits) && Quiet(log, AcceptedSubmit)
  }

  // No repair work anywhere beyond a cursor.
  ghost predicate NoWork(log: seq<Event>, audits: seq<Audit>) { NoSubmitWork(log, audits) && Quiet(log, Attribution) }

  ghost predicate SubmitsSettled(log: seq<Event>, audits: seq<Audit>) {
    Idle(log, AcceptedSubmit) && Cursor(log, AcceptedSubmit) == |audits|
  }

  // Nothing but checkpoints beyond either high-water mark, and every audit row behind the audit cursor.
  ghost predicate Settled(log: seq<Event>, audits: seq<Audit>) {
    SubmitsSettled(log, audits) && Idle(log, Attribution)
  }

  // The checkpoints skipped before a page hold no repair work, and a page holds no more than the tail.
  lemma QuietPage(log: seq<Event>, c: Consumer, high: nat, start: nat, end: nat)
    requires high <= start <= end <= |log| && forall i :: high <= i < start ==> log[i].Checkpoint?
    ensures Seeds(log[high..end], c) == Seeds(log[start..end], c) <= Seeds(log[high..], c)
  {
    assert log[high..end] == log[high..start] + log[start..end];
    assert log[high..] == log[high..end] + log[end..];
    CountsAdd(log[high..start], log[start..end], c);
    CountsAdd(log[high..end], log[end..], c);
    CountsAre(log[high..start], c);
  }

  /** A checkpoint write moves the cursor exactly when its content is new, or the latest one already says the
      same. Within one consumer's sequential ticks it is always new, since the marks only rise. */
  lemma AdvancesExactlyWhenNew(log: seq<Event>, cp: Event)
    requires cp.Checkpoint?
    ensures HighWater(Store(log, cp), cp.owner) == cp.upTo <==> cp !in log || HighWater(log, cp.owner) == cp.upTo
  {
    AfterAppend(log, cp, cp.owner);
  }

  /** The page scan on a log that stands still: it finds the first page with a fact, or there is none. */
  lemma {:induction false} ScanFinds(log: seq<Event>, c: Consumer, from: nat)
    requires Scanned(log, c, from)
    ensures var start := NextPage(log, from);
            if start == None then Idle(log, c)
            else (start.value <= |log| && TailFound(log, c, start.value, PageAt(log, start.value)))
    decreases |log| - from
  {
    PageFound(log, c, from);
    var page := PageAt(log, from);
    if !HasFact(page) && |page| == BATCH { ScanFinds(log, c, from + |page|); }
  }

  // The checkpoint a tick will store for the page it has just read.
  function Mark(log: seq<Event>, c: Consumer): Option<Event> {
    if HighWater(log, c) > |log| then None
    else
      var start := NextPage(log, HighWater(log, c));
      if start == None then None else Some(Checkpoint(c, PageEnd(log, start.value), Cursor(log, c)))
  }

  function PageEnd(log: seq<Event>, start: nat): nat { if start + BATCH <= |log| then start + BATCH else |log| }

  // ---- overlapping ticks of one consumer: each reads a page, and stores its mark some time later ----

  datatype Race = Race(log: seq<Event>, marks: seq<Event>)

  datatype Move = Append(facts: nat) | Read | Write(i: nat)

  function Next(s: Race, m: Move, c: Consumer): Race {
    match m
    case Append(n) => s.(log := s.log + seq(n, _ => Inert))
    case Read =>
      if Mark(s.log, c).Some? then s.(marks := s.marks + [Mark(s.log, c).value]) else s
    case Write(i) => if i < |s.marks| then Race(Store(s.log, s.marks[i]), s.marks[..i] + s.marks[i + 1..]) else s
  }

  function Raced(s: Race, moves: seq<Move>, c: Consumer): Race
    decreases |moves|
  {
    if moves == [] then s else Raced(Next(s, moves[0], c), moves[1..], c)
  }

  // The page loop of one tick with nobody else at work: read, inspect, store, and again while the page was full.
  function Looped(log: seq<Event>, c: Consumer, n: nat): seq<Event>
    decreases n
  {
    if n == 0 || Mark(log, c) == None then log
    else Looped(Store(log, Mark(log, c).value), c, n - 1)
  }

  // The page is full, so the loop goes on, and its mark is stored already, so it goes nowhere.
  predicate Spins(log: seq<Event>, c: Consumer) {
    && Mark(log, c).Some? && Mark(log, c).value in log
    && var start := NextPage(log, HighWater(log, c)).value; start + BATCH <= |log|
  }

  /** Then it never ends: after any number of pages the log is the same and the next page is full again. */
  lemma {:induction false} SpinsForEver(log: seq<Event>, c: Consumer, n: nat)
    requires Spins(log, c)
    ensures Looped(log, c, n) == log
  {
    if n > 0 { SpinsForEver(log, c, n - 1); }
  }

  // A full page with a fact in it stays the next page, whatever is appended.
  lemma {:induction false} NextPageStays(log: seq<Event>, log': seq<Event>, from: nat)
    requires from <= |log| && log <= log' && NextPage(log, from).Some? && NextPage(log, from).value + BATCH <= |log|
    ensures NextPage(log', from) == NextPage(log, from)
    decreases |log| - from
  {
    var page := PageAt(log, from);
    if |page| == BATCH { assert PageAt(log', from) == page; }
    if !HasFact(page) { NextPageStays(log, log', from + |page|); }
  }

  /** Nor do other actors' facts end it: they arrive behind the page that is read over and over. */
  lemma ArrivalsKeepItSpinning(log: seq<Event>, log': seq<Event>, c: Consumer)
    requires Spins(log, c) && GrewFacts(log, log')
    ensures Spins(log', c) && Mark(log', c) == Mark(log, c)
  {
    FactsMoveNoMark(log, log', c);
    NextPageStays(log, log', HighWater(log, c));
    var k :| 0 <= k < |log| && log[k] == Mark(log, c).value;
    assert log'[k] == log[k];
  }

  // One page of the loop, read after some facts were appended.
  function PageAmid(log: seq<Event>, facts: seq<Event>, c: Consumer): seq<Event> {
    var now := log + facts;
    if Mark(now, c) == None then now else Store(now, Mark(now, c).value)
  }

  // The page loop amid arrivals, with some facts appended before each page.
  function LoopedAmid(log: seq<Event>, page: (seq<Event>, seq<Event>) -> seq<Event>,
                      arrivals: seq<seq<Event>>): seq<Event>
    decreases |arrivals|
  {
    if arrivals == [] then log else LoopedAmid(page(log, arrivals[0]), page, arrivals[1..])
  }

  predicate FactsOnly(facts: seq<Event>) { forall i :: 0 <= i < |facts| ==> !facts[i].Checkpoint? }

  function Flatten(arrivals: seq<seq<Event>>): seq<Event> {
    if arrivals == [] then [] else arrivals[0] + Flatten(arrivals[1..])
  }

  lemma OnePageAmid(log: seq<Event>, c: Consumer, facts: seq<Event>)
    requires Spins(log, c) && FactsOnly(facts)
    ensures Spins(log + facts, c) && PageAmid(log, facts, c) == log + facts
  {
    ArrivalsKeepItSpinning(log, log + facts, c);
  }

  lemma {:induction false} NothingElseAppended(log: seq<Event>, page: (seq<Event>, seq<Event>) -> seq<Event>,
                                               stuck: seq<Event> -> bool, arrivals: seq<seq<Event>>)
    requires forall l, f :: stuck(l) && FactsOnly(f) ==> page(l, f) == l + f && stuck(page(l, f))
    requires stuck(log) && forall i :: 0 <= i < |arrivals| ==> FactsOnly(arrivals[i])
    ensures LoopedAmid(log, page, arrivals) == log + Flatten(arrivals) && stuck(log + Flatten(arrivals))
    decreases |arrivals|
  {
    if arrivals == [] {
      assert log + Flatten(arrivals) == log;
    } else {
      var now, rest := page(log, arrivals[0]), arrivals[1..];
      NothingElseAppended(now, page, stuck, rest);
      assert log + Flatten(arrivals) == log + arrivals[0] + Flatten(rest);
    }
  }

  /** So over any number of pages and arrivals nothing but the arrivals is appended, and the loop still spins. */
  lemma SpinsAmidArrivals(log: seq<Event>, c: Consumer, arrivals: seq<seq<Event>>)
    requires Spins(log, c) && forall i :: 0 <= i < |arrivals| ==> FactsOnly(arrivals[i])
    ensures LoopedAmid(log, (l, f) => PageAmid(l, f, c), arrivals) == log + Flatten(arrivals)
    ensures Spins(log + Flatten(arrivals), c)
  {
    var page := (l, f) => PageAmid(l, f, c);
    var stuck := l => Spins(l, c);
    forall l, f | stuck(l) && FactsOnly(f) ensures page(l, f) == l + f && stuck(page(l, f)) {
      OnePageAmid(l, c, f);
    }
    NothingElseAppended(log, page, stuck, arrivals);
    assert stuck(log + Flatten(arrivals));
  }

  /** While no stored mark of the consumer exceeds its latest, every page moves the cursor: the loop cannot spin. */
  lemma RisingMarksNeverSpin(log: seq<Event>, c: Consumer)
    requires Mark(log, c).Some?
    requires forall e <- log :: e.Checkpoint? && e.owner == c ==> e.upTo <= HighWater(log, c)
    ensures !Spins(log, c) && HighWater(Store(log, Mark(log, c).value), c) > HighWater(log, c)
  {
    ScanFinds(log, c, HighWater(log, c));
    AfterAppend(log, Mark(log, c).value, c);
  }

  lemma MarkAt(log: seq<Event>, c: Consumer, high: nat)
    requires HighWater(log, c) == high < |log| && log[high] == Inert && Cursor(log, c) == 0
    ensures NextPage(log, high) == Some(high) && Mark(log, c) == Some(Checkpoint(c, PageEnd(log, high), 0))
  {
    assert PageAt(log, high)[0] == log[high];
  }

  function Inerts(n: nat): seq<Event> { seq(n, _ => Inert) }

  // Facts appended after a checkpoint of the consumer, or after nothing.
  lemma MarkAfter(log: seq<Event>, n: nat, c: Consumer)
    ensures HighWater(log + Inerts(n), c) == HighWater(log, c) && Cursor(log + Inerts(n), c) == Cursor(log, c)
  {
    FactsMoveNoMark(log, log + Inerts(n), c);
  }

  lemma FirstMark(c: Consumer, n: nat)
    requires n > 0
    ensures Mark(Inerts(n), c) == Some(Checkpoint(c, if n <= BATCH then n else BATCH, 0))
  {
    MarkAfter([], n, c);
    assert [] + Inerts(n) == Inerts(n);
    MarkAt(Inerts(n), c, 0);
  }

  lemma SecondMark(c: Consumer, n: nat, m: nat)
    requires BATCH < n && n + 1 + m <= BATCH + BATCH
    ensures Mark(Inerts(n) + [Checkpoint(c, BATCH, 0)] + Inerts(m), c) == Some(Checkpoint(c, n + 1 + m, 0))
  {
    var one := Inerts(n) + [Checkpoint(c, BATCH, 0)];
    AfterAppend(Inerts(n), Checkpoint(c, BATCH, 0), c);
    MarkAfter(one, m, c);
    MarkAt(one + Inerts(m), c, BATCH);
  }

  // A slow tick read the first hundred facts; a fast one stored 256 and, with more facts there, 356.
  lemma FastTick(c: Consumer)
    ensures Mark(Inerts(100), c) == Some(Checkpoint(c, 100, 0)) && Mark(Inerts(300), c) == Some(Checkpoint(c, 256, 0))
    ensures Mark(Inerts(300) + [Checkpoint(c, 256, 0)] + Inerts(55), c) == Some(Checkpoint(c, 356, 0))
  {
    FirstMark(c, 100);
    FirstMark(c, 300);
    SecondMark(c, 300, 55);
  }

  function Stuck(c: Consumer): seq<Event> {
    Inerts(300) + [Checkpoint(c, 256, 0)] + Inerts(55) + [Checkpoint(c, 356, 0)] + [Checkpoint(c, 100, 0)]
  }

  lemma StuckSpins(c: Consumer)
    ensures Spins(Stuck(c), c)
  {
    var log := Stuck(c);
    AfterAppend(Inerts(300) + [Checkpoint(c, 256, 0)] + Inerts(55) + [Checkpoint(c, 356, 0)], Checkpoint(c, 100, 0), c);
    MarkAt(log, c, 100);
    assert log[356] == Checkpoint(c, 356, 0);
  }

  lemma {:induction false} RacedNext(s: Race, moves: seq<Move>, m: Move, c: Consumer)
    ensures Raced(s, moves + [m], c) == Next(Raced(s, moves, c), m, c)
    decreases |moves|
  {
    if moves == [] {
      assert [m][1..] == [];
    } else {
      assert (moves + [m])[1..] == moves[1..] + [m];
      RacedNext(Next(s, moves[0], c), moves[1..], m, c);
    }
  }

  // From a log of 300 facts with both ticks under way, to the stuck log.
  lemma LateWrite(c: Consumer)
    ensures var slow, fast := Checkpoint(c, 100, 0), Checkpoint(c, 256, 0);
            var s4 := Race(Inerts(300), [slow, fast]);
            var s6 := Next(Next(s4, Write(1), c), Append(55), c);
            Next(Next(Next(s6, Read, c), Write(1), c), Write(0), c).log == Stuck(c)
  {
    FastTick(c);
    var slow, fast, later := Checkpoint(c, 100, 0), Checkpoint(c, 256, 0), Checkpoint(c, 356, 0);
    var s4 := Race(Inerts(300), [slow, fast]);
    assert Next(s4, Write(1), c) == Race(Inerts(300) + [fast], [slow]);
    var s6 := Race(Inerts(300) + [fast] + Inerts(55), [slow]);
    assert Next(Next(s4, Write(1), c), Append(55), c) == s6;
    var s7 := Race(s6.log, [slow, later]);
    assert Next(s6, Read, c) == s7;
    var s8 := Race(s6.log + [later], [slow]);
    assert Next(s7, Write(1), c) == s8;
  }

  /** Overlapping ticks of one consumer can bring this about: a slow tick read a short page, faster ones stored two
      later marks meanwhile, and its older mark is stored last. From then on the page loop of every tick runs for
      ever. */
  lemma OverlapSpinsForEver(c: Consumer) returns (moves: seq<Move>)
    ensures Spins(Raced(Race([], []), moves, c).log, c)
    ensures forall n :: Looped(Raced(Race([], []), moves, c).log, c, n) == Raced(Race([], []), moves, c).log
  {
    var s := Race([], []);
    moves := EarlyMoves(c);
    moves := LateMoves(s, moves, c);
    LateWrite(c);
    StuckSpins(c);
    forall n ensures Looped(Stuck(c), c, n) == Stuck(c) { SpinsForEver(Stuck(c), c, n); }
  }

  // Both ticks have read their page, and stored nothing yet.
  lemma EarlyMoves(c: Consumer) returns (moves: seq<Move>)
    ensures Raced(Race([], []), moves, c) == Race(Inerts(300), [Checkpoint(c, 100, 0), Checkpoint(c, 256, 0)])
  {
    var s, slow := Race([], []), Checkpoint(c, 100, 0);
    FastTick(c);
    assert Inerts(100) + Inerts(200) == Inerts(300) && [] + Inerts(100) == Inerts(100);
    moves := [];
    RacedNext(s, moves, Append(100), c);
    moves := moves + [Append(100)];
    RacedNext(s, moves, Read, c);
    moves := moves + [Read];
    assert Raced(s, moves, c) == Race(Inerts(100), [slow]);
    RacedNext(s, moves, Append(200), c);
    moves := moves + [Append(200)];
    RacedNext(s, moves, Read, c);
    moves := moves + [Read];
  }

  lemma LateMoves(s: Race, before: seq<Move>, c: Consumer) returns (moves: seq<Move>)
    ensures var s6 := Next(Next(Raced(s, before, c), Write(1), c), Append(55), c);
            Raced(s, moves, c) == Next(Next(Next(s6, Read, c), Write(1), c), Write(0), c)
  {
    moves := before;
    RacedNext(s, moves, Write(1), c);
    moves := moves + [Write(1)];
    RacedNext(s, moves, Append(55), c);
    moves := moves + [Append(55)];
    RacedNext(s, moves, Read, c);
    moves := moves + [Read];
    RacedNext(s, moves, Write(1), c);
    moves := moves + [Write(1)];
    RacedNext(s, moves, Write(0), c);
    moves := moves + [Write(0)];
  }
}
