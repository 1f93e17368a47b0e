/**
 * The bounded maintenance pass (src/cache/service.rs:301-385) over the ordered eviction queues: one
 * candidate budget and one byte budget shared by all active channels, no other task mutating.
 */
module Maintenance {
  import opened Words
  import opened Bytes
  import opened Identity
  import opened Sorting
  import opened Sums
  import opened Store
  import opened StoreKeys
  import opened RecentUse
  import opened SpaceLedger

  /** What a pass sees of the world: the mode, the clock and the recency filter. */
  datatype View = View(mode: Mode, now: U64, seen: ArtifactKey -> bool)

  datatype Reclaimed = Reclaimed(row: QueueRow, storedLen: U64)

  datatype Pass = Pass(
    tables: Tables, files: set<ArtifactKey>, candidates: nat, bytes: U64, reclaimed: seq<Reclaimed>,
    requeued: seq<QueueRow>)

  predicate Exhausted(p: Pass) {
    p.candidates == 0 || p.bytes == 0
  }

  function Row(c: ChannelId, x: Candidate): QueueRow {
    QueueRow(c, x.eligibleAt, x.artifact)
  }

  function KeyOf(r: QueueRow): ArtifactKey {
    ArtifactKey(r.channel, r.artifact)
  }

  predicate Current(t: Tables, r: QueueRow) {
    KeyOf(r) in t.artifacts && t.artifacts[KeyOf(r)].eligibleAt == r.eligibleAt
  }

  predicate Requeues(v: View, r: QueueRow) {
    v.mode.Normal? && v.seen(KeyOf(r))
  }

  /** One candidate: extended when recently used in Normal mode, otherwise unlinked and evicted. */
  function Examine(v: View, p: Pass, r: QueueRow, expiry: U64): Pass
    requires p.candidates > 0
  {
    if Requeues(v, r) then
      p.(candidates := p.candidates - 1, requeued := p.requeued + [r],
         tables := Perform(p.tables, Requeue(r.channel, r.artifact, r.eligibleAt, SatAdd(v.now, expiry))))
    else
      var evicted := p.(candidates := p.candidates - 1,
                        tables := Perform(p.tables, Evict(r.channel, r.artifact, r.eligibleAt)));
      if !Current(p.tables, r) then evicted
      else
        var storedLen := p.tables.artifacts[KeyOf(r)].storedLen;
        evicted.(files := p.files - {KeyOf(r)}, bytes := SatSub(p.bytes, storedLen),
                 reclaimed := p.reclaimed + [Reclaimed(r, storedLen)])
  }

  predicate Stops(v: View, p: Pass, cs: seq<Candidate>) {
    cs == [] || Exhausted(p) || (v.mode.Normal? && cs[0].eligibleAt > v.now)
  }

  function ChannelPass(v: View, p: Pass, c: ChannelId, expiry: U64, cs: seq<Candidate>): Pass
    decreases |cs|
  {
    if Stops(v, p, cs) then p
    else ChannelPass(v, Examine(v, p, Row(c, cs[0]), expiry), c, expiry, cs[1..])
  }

  function ExpiryOf(t: Tables, c: ChannelId): U64 {
    if c in t.channels then t.channels[c].expirySeconds else 0
  }

  ghost function FullPass(v: View, p: Pass, channels: seq<ChannelId>): Pass
    decreases |channels|
  {
    if channels == [] || Exhausted(p) then p
    else
      var c := channels[0];
      FullPass(v, ChannelPass(v, p, c, ExpiryOf(p.tables, c), Heads(p.tables.eviction, c, p.candidates)), channels[1..])
  }

  // ----- one candidate -----

  /** Candidates that are rows of the channel, in queue order. */
  ghost predicate Queued(t: Tables, c: ChannelId, cs: seq<Candidate>) {
    StrictlySorted(cs, CandidateLeq) && forall i :: 0 <= i < |cs| ==> Row(c, cs[i]) in t.eviction
  }

  function AfterEvict(t: Tables, r: QueueRow): Tables {
    t.(artifacts := t.artifacts - {KeyOf(r)}, eviction := t.eviction - {r})
  }

  function AfterRequeue(t: Tables, r: QueueRow, deadline: U64): Tables
    requires KeyOf(r) in t.artifacts
  {
    t.(artifacts := t.artifacts[KeyOf(r) := t.artifacts[KeyOf(r)].(eligibleAt := deadline)],
       eviction := t.eviction - {r} + {r.(eligibleAt := deadline)})
  }

  /** On an exact queue a queued row is never stale, so examining it requeues or removes it. */
  lemma ExamineQueued(v: View, p: Pass, r: QueueRow, expiry: U64)
    requires QueueExact(p.tables) && r in p.tables.eviction && p.candidates > 0
    ensures Current(p.tables, r)
    ensures Requeues(v, r) ==>
              Examine(v, p, r, expiry) ==
              p.(candidates := p.candidates - 1, requeued := p.requeued + [r],
                 tables := AfterRequeue(p.tables, r, SatAdd(v.now, expiry)))
    ensures !Requeues(v, r) ==>
              Examine(v, p, r, expiry) ==
              Pass(AfterEvict(p.tables, r), p.files - {KeyOf(r)}, p.candidates - 1,
                   SatSub(p.bytes, p.tables.artifacts[KeyOf(r)].storedLen),
                   p.reclaimed + [Reclaimed(r, p.tables.artifacts[KeyOf(r)].storedLen)], p.requeued)
    ensures QueueExact(Examine(v, p, r, expiry).tables)
  {
    var requeue := Requeue(r.channel, r.artifact, r.eligibleAt, SatAdd(v.now, expiry));
    var evict := Evict(r.channel, r.artifact, r.eligibleAt);
    BatchUnrolled(p.tables, BatchOf(p.tables, requeue));
    BatchUnrolled(p.tables, BatchOf(p.tables, evict));
    PerformKeepsQueue(p.tables, requeue);
    PerformKeepsQueue(p.tables, evict);
  }

  /** The later candidates stay queued: only the examined row is removed or moved. */
  lemma ExamineKeepsQueued(v: View, p: Pass, c: ChannelId, expiry: U64, cs: seq<Candidate>)
    requires QueueExact(p.tables) && Queued(p.tables, c, cs) && cs != [] && p.candidates > 0
    ensures Queued(Examine(v, p, Row(c, cs[0]), expiry).tables, c, cs[1..])
    ensures QueueExact(Examine(v, p, Row(c, cs[0]), expiry).tables)
  {
    ExamineQueued(v, p, Row(c, cs[0]), expiry);
  }

  // ----- the frame of a channel pass -----

  /** A pass over one channel leaves every other channel, and the registry, as they were. */
  ghost predicate OnlyChannel(before: Tables, after: Tables, c: ChannelId) {
    && after.channels == before.channels
    && (forall r: QueueRow :: r.channel != c ==> (r in after.eviction <==> r in before.eviction))
    && (forall k: ArtifactKey :: k.channel != c ==>
          (k in after.artifacts <==> k in before.artifacts) &&
          (k in before.artifacts ==> after.artifacts[k] == before.artifacts[k]))
  }

  lemma {:induction false} ChannelPassFrame(v: View, p: Pass, c: ChannelId, expiry: U64, cs: seq<Candidate>)
    requires QueueExact(p.tables) && Queued(p.tables, c, cs)
    ensures QueueExact(ChannelPass(v, p, c, expiry, cs).tables)
    ensures OnlyChannel(p.tables, ChannelPass(v, p, c, expiry, cs).tables, c)
    decreases |cs|
  {
    if !Stops(v, p, cs) {
      ExamineQueued(v, p, Row(c, cs[0]), expiry);
      ExamineKeepsQueued(v, p, c, expiry, cs);
      ChannelPassFrame(v, Examine(v, p, Row(c, cs[0]), expiry), c, expiry, cs[1..]);
    }
  }

  lemma HeadsQueued(t: Tables, c: ChannelId, limit: nat)
    ensures Queued(t, c, Heads(t.eviction, c, limit))
  {
    var cs := Heads(t.eviction, c, limit);
    var all := Listing(QueueOf(t.eviction, c));
    forall i | 0 <= i < |cs| ensures Row(c, cs[i]) in t.eviction {
      assert cs[i] == all[i] && all[i] in all;
    }
  }

  // ----- budgets and conservation -----

  function Stored(e: Reclaimed): int { e.storedLen }

  /** Both budgets: bytes left are the limit less what was reclaimed, and each eviction started in budget. */
  ghost predicate InBudget(p: Pass, limit: nat, byteLimit: U64) {
    && p.candidates + |p.reclaimed| + |p.requeued| <= limit
    && p.bytes == Max(0, byteLimit - Sum(p.reclaimed, Stored))
    && forall k :: 0 <= k < |p.reclaimed| ==> Sum(p.reclaimed[..k], Stored) < byteLimit
  }

  /** One candidate is spent: it is logged with its length, requeued, or was stale. */
  ghost predicate Spent(p: Pass, next: Pass) {
    && next.candidates == p.candidates - 1
    && if next.reclaimed == p.reclaimed then next.bytes == p.bytes && |next.requeued| <= |p.requeued| + 1
       else
         && |next.reclaimed| == |p.reclaimed| + 1 && p.reclaimed <= next.reclaimed && next.requeued == p.requeued
         && next.bytes == SatSub(p.bytes, next.reclaimed[|p.reclaimed|].storedLen)
  }

  lemma ExamineSpends(v: View, p: Pass, r: QueueRow, expiry: U64)
    requires p.candidates > 0
    ensures Spent(p, Examine(v, p, r, expiry))
  {
  }

  lemma SpentInBudget(p: Pass, next: Pass, limit: nat, byteLimit: U64)
    requires InBudget(p, limit, byteLimit) && !Exhausted(p) && Spent(p, next)
    ensures InBudget(next, limit, byteLimit)
  {
    if next.reclaimed != p.reclaimed {
      var e := next.reclaimed[|p.reclaimed|];
      assert next.reclaimed == p.reclaimed + [e];
      LogGrows(p.reclaimed, e, byteLimit);
    }
  }

  lemma ExamineInBudget(v: View, p: Pass, r: QueueRow, expiry: U64, limit: nat, byteLimit: U64)
    requires InBudget(p, limit, byteLimit) && !Exhausted(p)
    ensures InBudget(Examine(v, p, r, expiry), limit, byteLimit)
  {
    ExamineSpends(v, p, r, expiry);
    SpentInBudget(p, Examine(v, p, r, expiry), limit, byteLimit);
  }

  lemma LogGrows(log: seq<Reclaimed>, e: Reclaimed, byteLimit: U64)
    requires Sum(log, Stored) < byteLimit
    requires forall k :: 0 <= k < |log| ==> Sum(log[..k], Stored) < byteLimit
    ensures Sum(log + [e], Stored) == Sum(log, Stored) + e.storedLen
    ensures forall k :: 0 <= k < |log + [e]| ==> Sum((log + [e])[..k], Stored) < byteLimit
  {
    SumAppend(log, e, Stored);
    forall k | 0 <= k < |log + [e]| ensures Sum((log + [e])[..k], Stored) < byteLimit {
      assert (log + [e])[..k] == log[..k];
      assert k == |log| ==> log[..k] == log;
    }
  }

  lemma {:induction false} ChannelInBudget(
    v: View, p: Pass, c: ChannelId, expiry: U64, cs: seq<Candidate>, limit: nat, byteLimit: U64)
    requires InBudget(p, limit, byteLimit)
    ensures InBudget(ChannelPass(v, p, c, expiry, cs), limit, byteLimit)
    decreases |cs|
  {
    if !Stops(v, p, cs) {
      ExamineInBudget(v, p, Row(c, cs[0]), expiry, limit, byteLimit);
      ChannelInBudget(v, Examine(v, p, Row(c, cs[0]), expiry), c, expiry, cs[1..], limit, byteLimit);
    }
  }

  /**
   * At most `limit` candidates are reclaimed or requeued, and the byte budget is overshot by less than the last
   * body: everything reclaimed before it fits strictly within the limit.
   */
  lemma {:induction false} PassInBudget(
    v: View, p: Pass, channels: seq<ChannelId>, limit: nat, byteLimit: U64)
    requires InBudget(p, limit, byteLimit)
    ensures InBudget(FullPass(v, p, channels), limit, byteLimit)
    decreases |channels|
  {
    if channels != [] && !Exhausted(p) {
      var c := channels[0];
      var cs, expiry := Heads(p.tables.eviction, c, p.candidates), ExpiryOf(p.tables, c);
      ChannelInBudget(v, p, c, expiry, cs, limit, byteLimit);
      PassInBudget(v, ChannelPass(v, p, c, expiry, cs), channels[1..], limit, byteLimit);
    }
  }

  function ReclaimedKeys(reclaimed: seq<Reclaimed>): set<ArtifactKey> {
    set e | e in reclaimed :: KeyOf(e.row)
  }

  /** The keys a stretch of a pass has added to the log. */
  function TakenOut(before: Pass, after: Pass): set<ArtifactKey>
    requires |before.reclaimed| <= |after.reclaimed|
  {
    ReclaimedKeys(after.reclaimed[|before.reclaimed|..])
  }

  /** Exactly the records and files of `gone` are missing afterwards. */
  ghost predicate Shrinks(before: Pass, after: Pass, gone: set<ArtifactKey>) {
    && gone <= before.tables.artifacts.Keys
    && after.tables.artifacts.Keys == before.tables.artifacts.Keys - gone
    && after.files == before.files - gone
  }

  /**
   * What a pass keeps: the queue, the registry and the references. The records and the files that
   * are gone are exactly those of the log, each once.
   */
  ghost predicate Conserves(before: Pass, after: Pass) {
    && QueueExact(after.tables)
    && after.tables.channels == before.tables.channels && after.tables.references == before.tables.references
    && before.reclaimed <= after.reclaimed
    && Shrinks(before, after, TakenOut(before, after))
    && |after.tables.artifacts| + |after.reclaimed| == |before.tables.artifacts| + |before.reclaimed|
  }

  lemma NothingEvicted(p: Pass)
    requires QueueExact(p.tables)
    ensures Conserves(p, p)
  {
    assert TakenOut(p, p) == {};
  }

  lemma ConservesTransitive(a: Pass, b: Pass, c: Pass)
    requires Conserves(a, b) && Conserves(b, c)
    ensures Conserves(a, c)
  {
    assert TakenOut(a, c) == TakenOut(a, b) + TakenOut(b, c) by {
      TakenTogether(a.reclaimed, b.reclaimed, c.reclaimed);
    }
    assert Shrinks(a, c, TakenOut(a, b) + TakenOut(b, c));
  }

  lemma TakenTogether(a: seq<Reclaimed>, b: seq<Reclaimed>, c: seq<Reclaimed>)
    requires a <= b <= c
    ensures ReclaimedKeys(c[|a|..]) == ReclaimedKeys(b[|a|..]) + ReclaimedKeys(c[|b|..])
  {
    assert c[|a|..] == b[|a|..] + c[|b|..];
    KeysTogether(b[|a|..], c[|b|..]);
  }

  lemma KeysTogether(x: seq<Reclaimed>, y: seq<Reclaimed>)
    ensures ReclaimedKeys(x + y) == ReclaimedKeys(x) + ReclaimedKeys(y)
  {
  }

  lemma ExamineConserves(v: View, p: Pass, r: QueueRow, expiry: U64)
    requires QueueExact(p.tables) && r in p.tables.eviction && p.candidates > 0
    ensures Conserves(p, Examine(v, p, r, expiry))
  {
    ExamineQueued(v, p, r, expiry);
    var next := Examine(v, p, r, expiry);
    if Requeues(v, r) {
      KeepingConserves(p, next);
    } else {
      RemovingConserves(p, next, KeyOf(r));
    }
  }

  lemma KeepingConserves(p: Pass, next: Pass)
    requires QueueExact(next.tables) && next.reclaimed == p.reclaimed && next.files == p.files
    requires next.tables.channels == p.tables.channels && next.tables.references == p.tables.references
    requires next.tables.artifacts.Keys == p.tables.artifacts.Keys
    ensures Conserves(p, next)
  {
    assert TakenOut(p, next) == {};
    CountsAgree(p.tables.artifacts, next.tables.artifacts);
  }

  lemma RemovingConserves(p: Pass, next: Pass, key: ArtifactKey)
    requires QueueExact(next.tables) && next.files == p.files - {key} && key in p.tables.artifacts
    requires |next.reclaimed| == |p.reclaimed| + 1 && p.reclaimed <= next.reclaimed
    requires KeyOf(next.reclaimed[|p.reclaimed|].row) == key
    requires next.tables.channels == p.tables.channels && next.tables.references == p.tables.references
    requires next.tables.artifacts.Keys == p.tables.artifacts.Keys - {key}
    ensures Conserves(p, next)
  {
    assert next.reclaimed[|p.reclaimed|..] == [next.reclaimed[|p.reclaimed|]];
    assert TakenOut(p, next) == {key};
    CountsAgree(p.tables.artifacts, next.tables.artifacts);
  }

  lemma CountsAgree(a: map<ArtifactKey, ArtifactMetadata>, b: map<ArtifactKey, ArtifactMetadata>)
    ensures a.Keys == b.Keys ==> |a| == |b|
    ensures forall k :: k in a && b.Keys == a.Keys - {k} ==> |b| == |a| - 1
  {
    assert |a| == |a.Keys| && |b| == |b.Keys|;
  }

  lemma {:induction false} ChannelConserves(v: View, p: Pass, c: ChannelId, expiry: U64, cs: seq<Candidate>)
    requires QueueExact(p.tables) && Queued(p.tables, c, cs)
    ensures Conserves(p, ChannelPass(v, p, c, expiry, cs))
    decreases |cs|
  {
    if Stops(v, p, cs) {
      NothingEvicted(p);
    } else {
      var next := Examine(v, p, Row(c, cs[0]), expiry);
      ExamineConserves(v, p, Row(c, cs[0]), expiry);
      ExamineKeepsQueued(v, p, c, expiry, cs);
      ChannelConserves(v, next, c, expiry, cs[1..]);
      ConservesTransitive(p, next, ChannelPass(v, next, c, expiry, cs[1..]));
    }
  }

  lemma {:induction false} PassConserves(v: View, p: Pass, channels: seq<ChannelId>)
    requires QueueExact(p.tables)
    ensures Conserves(p, FullPass(v, p, channels))
    decreases |channels|
  {
    if channels == [] || Exhausted(p) {
      NothingEvicted(p);
    } else {
      var c := channels[0];
      var cs, expiry := Heads(p.tables.eviction, c, p.candidates), ExpiryOf(p.tables, c);
      var next := ChannelPass(v, p, c, expiry, cs);
      assert Conserves(p, next) by {
        HeadsQueued(p.tables, c, p.candidates);
        ChannelConserves(v, p, c, expiry, cs);
      }
      PassConserves(v, next, channels[1..]);
      ConservesTransitive(p, next, FullPass(v, next, channels[1..]));
    }
  }

  // ----- Normal mode -----

  ghost predicate ColdAndDue(v: View, key: ArtifactKey, m: ArtifactMetadata) {
    m.eligibleAt <= v.now && !v.seen(key)
  }

  /**
   * How a Normal pass may change the records of a store: a missing one was due and not seen, a kept
   * one is unchanged or was seen and has only its deadline moved.
   */
  ghost predicate NormalChange(v: View, before: Tables, after: Tables) {
    && (forall k :: k in before.artifacts && k !in after.artifacts ==> ColdAndDue(v, k, before.artifacts[k]))
    && (forall k :: k in after.artifacts ==>
          && k in before.artifacts
          && (after.artifacts[k] == before.artifacts[k] ||
              (v.seen(k) && after.artifacts[k] == before.artifacts[k].(eligibleAt := after.artifacts[k].eligibleAt))))
  }

  lemma ExamineChange(v: View, start: Tables, p: Pass, r: QueueRow, expiry: U64)
    requires v.mode.Normal? && NormalChange(v, start, p.tables) && p.candidates > 0
    requires QueueExact(p.tables) && r in p.tables.eviction && r.eligibleAt <= v.now
    ensures NormalChange(v, start, Examine(v, p, r, expiry).tables)
  {
    ExamineQueued(v, p, r, expiry);
  }

  lemma {:induction false} ChannelChange(
    v: View, start: Tables, p: Pass, c: ChannelId, expiry: U64, cs: seq<Candidate>)
    requires v.mode.Normal? && NormalChange(v, start, p.tables)
    requires QueueExact(p.tables) && Queued(p.tables, c, cs)
    ensures NormalChange(v, start, ChannelPass(v, p, c, expiry, cs).tables)
    decreases |cs|
  {
    if !Stops(v, p, cs) {
      ExamineChange(v, start, p, Row(c, cs[0]), expiry);
      ExamineKeepsQueued(v, p, c, expiry, cs);
      ChannelChange(v, start, Examine(v, p, Row(c, cs[0]), expiry), c, expiry, cs[1..]);
    }
  }

  lemma {:induction false} PassChange(v: View, start: Tables, p: Pass, channels: seq<ChannelId>)
    requires v.mode.Normal? && NormalChange(v, start, p.tables) && QueueExact(p.tables)
    ensures NormalChange(v, start, FullPass(v, p, channels).tables)
    decreases |channels|
  {
    if channels != [] && !Exhausted(p) {
      var c := channels[0];
      var cs, expiry := Heads(p.tables.eviction, c, p.candidates), ExpiryOf(p.tables, c);
      HeadsQueued(p.tables, c, p.candidates);
      ChannelChange(v, start, p, c, expiry, cs);
      ChannelPassFrame(v, p, c, expiry, cs);
      PassChange(v, start, ChannelPass(v, p, c, expiry, cs), channels[1..]);
    }
  }

  /**
   * A Normal pass takes a record or a file out of the store only when its deadline has passed and
   * the filter has not seen it; every other record stays, with at most its deadline moved.
   */
  lemma NormalEvictsColdAndDue(v: View, p: Pass, channels: seq<ChannelId>)
    requires v.mode.Normal? && QueueExact(p.tables)
    ensures NormalChange(v, p.tables, FullPass(v, p, channels).tables)
    ensures forall k :: k in p.files && k !in FullPass(v, p, channels).files ==>
              k in p.tables.artifacts && ColdAndDue(v, k, p.tables.artifacts[k])
  {
    PassChange(v, p.tables, p, channels);
    PassConserves(v, p, channels);
  }

  lemma {:induction false} ChannelKeepsSeen(
    v: View, p: Pass, c: ChannelId, expiry: U64, cs: seq<Candidate>, key: ArtifactKey)
    requires v.mode.Normal? && v.seen(key) && key in p.tables.artifacts
    requires QueueExact(p.tables) && Queued(p.tables, c, cs)
    ensures key in ChannelPass(v, p, c, expiry, cs).tables.artifacts
    decreases |cs|
  {
    if !Stops(v, p, cs) {
      ExamineQueued(v, p, Row(c, cs[0]), expiry);
      ExamineKeepsQueued(v, p, c, expiry, cs);
      ChannelKeepsSeen(v, Examine(v, p, Row(c, cs[0]), expiry), c, expiry, cs[1..], key);
    }
  }

  /** An artifact the filter has seen survives a Normal-mode pass. */
  lemma {:induction false} NormalKeepsSeen(v: View, p: Pass, channels: seq<ChannelId>, key: ArtifactKey)
    requires v.mode.Normal? && v.seen(key) && key in p.tables.artifacts && QueueExact(p.tables)
    ensures key in FullPass(v, p, channels).tables.artifacts
    decreases |channels|
  {
    if channels != [] && !Exhausted(p) {
      var c := channels[0];
      var cs, expiry := Heads(p.tables.eviction, c, p.candidates), ExpiryOf(p.tables, c);
      HeadsQueued(p.tables, c, p.candidates);
      ChannelKeepsSeen(v, p, c, expiry, cs, key);
      ChannelPassFrame(v, p, c, expiry, cs);
      NormalKeepsSeen(v, ChannelPass(v, p, c, expiry, cs), channels[1..], key);
    }
  }

  /** No row of the channel is past its deadline. */
  ghost predicate NothingDue(t: Tables, c: ChannelId, now: U64) {
    forall r :: r in t.eviction && r.channel == c ==> r.eligibleAt > now
  }

  /** Due rows not among the candidates come after all of them, and the candidates fill the budget. */
  ghost predicate Covers(p: Pass, c: ChannelId, cs: seq<Candidate>, now: U64) {
    forall r :: r in p.tables.eviction && r.channel == c && r.eligibleAt <= now ==>
      var x := Candidate(r.eligibleAt, r.artifact);
      x in cs || (cs != [] && |cs| >= p.candidates && CandidateLeq(cs[|cs| - 1], x))
  }

  lemma {:induction false} ChannelCleansDue(v: View, p: Pass, c: ChannelId, expiry: U64, cs: seq<Candidate>)
    requires v.mode.Normal? && expiry >= 1 && v.now < U64_MAX
    requires QueueExact(p.tables) && Queued(p.tables, c, cs) && Covers(p, c, cs, v.now)
    ensures !Exhausted(ChannelPass(v, p, c, expiry, cs)) ==>
              NothingDue(ChannelPass(v, p, c, expiry, cs).tables, c, v.now)
    decreases |cs|
  {
    if !Stops(v, p, cs) {
      var r := Row(c, cs[0]);
      var next := Examine(v, p, r, expiry);
      ExamineQueued(v, p, r, expiry);
      ExamineKeepsQueued(v, p, c, expiry, cs);
      if next.candidates > 0 {
        CoversNext(v, p, c, expiry, cs);
        ChannelCleansDue(v, next, c, expiry, cs[1..]);
      }
    } else if cs != [] && !Exhausted(p) {
      HeadNotDue(cs, v.now);
    }
  }

  lemma HeadNotDue(cs: seq<Candidate>, now: U64)
    requires StrictlySorted(cs, CandidateLeq) && cs != [] && cs[0].eligibleAt > now
    ensures forall x :: x in cs || CandidateLeq(cs[|cs| - 1], x) ==> x.eligibleAt > now
  {
    assert forall i :: 0 < i < |cs| ==> CandidateLeq(cs[0], cs[i]);
    assert cs[|cs| - 1].eligibleAt > now;
  }

  lemma CoversNext(v: View, p: Pass, c: ChannelId, expiry: U64, cs: seq<Candidate>)
    requires v.mode.Normal? && expiry >= 1 && v.now < U64_MAX && p.candidates > 1
    requires QueueExact(p.tables) && Queued(p.tables, c, cs) && Covers(p, c, cs, v.now) && cs != []
    ensures Covers(Examine(v, p, Row(c, cs[0]), expiry), c, cs[1..], v.now)
  {
    ExamineQueued(v, p, Row(c, cs[0]), expiry);
    var next := Examine(v, p, Row(c, cs[0]), expiry);
    forall r | r in next.tables.eviction && r.channel == c && r.eligibleAt <= v.now
      ensures var x := Candidate(r.eligibleAt, r.artifact);
              x in cs[1..] || (cs[1..] != [] && |cs[1..]| >= next.candidates && CandidateLeq(cs[1..][|cs[1..]| - 1], x))
    {
      var x := Candidate(r.eligibleAt, r.artifact);
      assert r in p.tables.eviction && r != Row(c, cs[0]);
      assert x in cs <==> x == cs[0] || x in cs[1..];
    }
  }

  lemma HeadsCover(p: Pass, c: ChannelId, now: U64)
    requires !Exhausted(p)
    ensures Covers(p, c, Heads(p.tables.eviction, c, p.candidates), now)
  {
    var all := Listing(QueueOf(p.tables.eviction, c));
    var cs := Heads(p.tables.eviction, c, p.candidates);
    forall r | r in p.tables.eviction && r.channel == c
      ensures var x := Candidate(r.eligibleAt, r.artifact);
              x in cs || (cs != [] && |cs| >= p.candidates && CandidateLeq(cs[|cs| - 1], x))
    {
      var x := Candidate(r.eligibleAt, r.artifact);
      assert x in QueueOf(p.tables.eviction, c);
      var i :| 0 <= i < |all| && all[i] == x;
      if i < |cs| {
        assert cs[i] == x;
      } else {
        assert cs[|cs| - 1] == all[|cs| - 1];
      }
    }
  }

  ghost predicate Distinct(channels: seq<ChannelId>) {
    forall i, j :: 0 <= i < j < |channels| ==> channels[i] != channels[j]
  }

  ghost predicate ExpiriesPositive(t: Tables, channels: seq<ChannelId>) {
    forall c :: c in channels ==> ExpiryOf(t, c) >= 1
  }

  lemma {:induction false} PassFrame(v: View, p: Pass, channels: seq<ChannelId>, c: ChannelId)
    requires QueueExact(p.tables) && c !in channels
    ensures forall r: QueueRow :: r.channel == c ==>
              (r in FullPass(v, p, channels).tables.eviction <==> r in p.tables.eviction)
    decreases |channels|
  {
    if channels != [] && !Exhausted(p) {
      var d := channels[0];
      var cs, expiry := Heads(p.tables.eviction, d, p.candidates), ExpiryOf(p.tables, d);
      HeadsQueued(p.tables, d, p.candidates);
      ChannelPassFrame(v, p, d, expiry, cs);
      PassFrame(v, ChannelPass(v, p, d, expiry, cs), channels[1..], c);
    }
  }

  /** If neither budget runs out, a Normal-mode pass leaves no due row in any channel it was given. */
  lemma {:induction false} NormalLeavesNothingDue(v: View, p: Pass, channels: seq<ChannelId>, c: ChannelId)
    requires v.mode.Normal? && v.now < U64_MAX && QueueExact(p.tables)
    requires Distinct(channels) && ExpiriesPositive(p.tables, channels) && c in channels
    requires !Exhausted(FullPass(v, p, channels))
    ensures NothingDue(FullPass(v, p, channels).tables, c, v.now)
    decreases |channels|
  {
    var d, rest := channels[0], channels[1..];
    var cs, expiry := Heads(p.tables.eviction, d, p.candidates), ExpiryOf(p.tables, d);
    var next := ChannelPass(v, p, d, expiry, cs);
    assert FullPass(v, p, channels) == FullPass(v, next, rest);
    assert QueueExact(next.tables) && next.tables.channels == p.tables.channels by {
      HeadsQueued(p.tables, d, p.candidates);
      ChannelPassFrame(v, p, d, expiry, cs);
    }
    if c == d {
      NotAgain(channels);
      assert !Exhausted(next);
      assert NothingDue(next.tables, c, v.now) by {
        assert d in channels;
        HeadsQueued(p.tables, d, p.candidates);
        HeadsCover(p, d, v.now);
        ChannelCleansDue(v, p, d, expiry, cs);
      }
      PassFrame(v, next, rest, c);
    } else {
      RestPositive(p.tables, next.tables, channels);
      NormalLeavesNothingDue(v, next, rest, c);
    }
  }

  lemma NotAgain(channels: seq<ChannelId>)
    requires Distinct(channels) && channels != []
    ensures channels[0] !in channels[1..]
  {
  }

  lemma RestPositive(before: Tables, after: Tables, channels: seq<ChannelId>)
    requires before.channels == after.channels && ExpiriesPositive(before, channels) && channels != []
    ensures ExpiriesPositive(after, channels[1..])
  {
    assert forall c :: c in channels[1..] ==> c in channels;
  }

  // ----- Reclaiming mode -----

  /** What is gone from a channel's queue is downward closed in (deadline, digest) order. */
  ghost predicate PrefixGone(before: Tables, after: Tables, c: ChannelId) {
    && QueueOf(after.eviction, c) <= QueueOf(before.eviction, c)
    && forall x, y ::
         (x in QueueOf(before.eviction, c) && y in QueueOf(before.eviction, c) - QueueOf(after.eviction, c)
          && CandidateLeq(x, y)) ==> x !in QueueOf(after.eviction, c)
  }

  /** Under Reclaiming every candidate is evicted until a budget runs out. */
  lemma {:induction false} ChannelReclaims(v: View, p: Pass, c: ChannelId, expiry: U64, cs: seq<Candidate>)
    returns (k: nat)
    requires v.mode.Reclaiming? && QueueExact(p.tables) && Queued(p.tables, c, cs)
    ensures k <= |cs| && (k < |cs| ==> Exhausted(ChannelPass(v, p, c, expiry, cs)))
    ensures cs != [] && !Exhausted(p) ==> k > 0
    ensures |ChannelPass(v, p, c, expiry, cs).reclaimed| == |p.reclaimed| + k
    ensures QueueOf(ChannelPass(v, p, c, expiry, cs).tables.eviction, c)
         == QueueOf(p.tables.eviction, c) - Elements(cs[..k])
    decreases |cs|
  {
    if Stops(v, p, cs) {
      k := 0;
      assert Elements(cs[..0]) == {};
    } else {
      var next := Examine(v, p, Row(c, cs[0]), expiry);
      ExamineQueued(v, p, Row(c, cs[0]), expiry);
      ExamineKeepsQueued(v, p, c, expiry, cs);
      assert QueueOf(next.tables.eviction, c) == QueueOf(p.tables.eviction, c) - {cs[0]};
      var rest := ChannelReclaims(v, next, c, expiry, cs[1..]);
      k := rest + 1;
      ElementsSplit(cs, k);
    }
  }

  function Elements(cs: seq<Candidate>): set<Candidate> {
    set x | x in cs
  }

  lemma ElementsSplit(cs: seq<Candidate>, k: nat)
    requires 0 < k <= |cs|
    ensures Elements(cs[..k]) == {cs[0]} + Elements(cs[1..][..k - 1])
  {
    assert cs[..k] == [cs[0]] + cs[1..][..k - 1];
  }

  lemma PrefixDownClosed(all: seq<Candidate>, k: nat, x: Candidate, y: Candidate)
    requires StrictlySorted(all, CandidateLeq) && k <= |all|
    requires x in all && y in all[..k] && CandidateLeq(x, y)
    ensures x in all[..k]
  {
    CandidateOrder();
    var i :| 0 <= i < |all| && all[i] == x;
    var j :| 0 <= j < k && all[..k][j] == y;
    assert i <= j;
    assert all[..k][i] == x;
  }

  lemma ChannelReclaimsPrefix(v: View, p: Pass, c: ChannelId, expiry: U64, limit: nat)
    requires v.mode.Reclaiming? && QueueExact(p.tables)
    ensures PrefixGone(p.tables, ChannelPass(v, p, c, expiry, Heads(p.tables.eviction, c, limit)).tables, c)
  {
    var queue := QueueOf(p.tables.eviction, c);
    var cs, all := Heads(p.tables.eviction, c, limit), Listing(queue);
    HeadsQueued(p.tables, c, limit);
    var k := ChannelReclaims(v, p, c, expiry, cs);
    assert cs[..k] == all[..k];
    RemovedPrefix(queue, all, k);
  }

  lemma RemovedPrefix(queue: set<Candidate>, all: seq<Candidate>, k: nat)
    requires StrictlySorted(all, CandidateLeq) && k <= |all| && forall x :: x in all <==> x in queue
    ensures forall x, y :: x in queue && y in queue - (queue - Elements(all[..k])) && CandidateLeq(x, y) ==>
              x !in queue - Elements(all[..k])
  {
    forall x, y | x in queue && y in queue - (queue - Elements(all[..k])) && CandidateLeq(x, y)
      ensures x !in queue - Elements(all[..k])
    {
      PrefixDownClosed(all, k, x, y);
    }
  }

  /** A Reclaiming pass removes from each channel exactly a prefix of its (deadline, digest) order. */
  lemma {:induction false} ReclaimingEvictsPrefixes(v: View, p: Pass, channels: seq<ChannelId>, c: ChannelId)
    requires v.mode.Reclaiming? && QueueExact(p.tables) && Distinct(channels)
    ensures PrefixGone(p.tables, FullPass(v, p, channels).tables, c)
    decreases |channels|
  {
    if channels != [] && !Exhausted(p) {
      var d := channels[0];
      var cs, expiry := Heads(p.tables.eviction, d, p.candidates), ExpiryOf(p.tables, d);
      var next := ChannelPass(v, p, d, expiry, cs);
      HeadsQueued(p.tables, d, p.candidates);
      ChannelPassFrame(v, p, d, expiry, cs);
      if c == d {
        ChannelReclaimsPrefix(v, p, d, expiry, p.candidates);
        PassFrame(v, next, channels[1..], c);
        assert QueueOf(FullPass(v, next, channels[1..]).tables.eviction, c) == QueueOf(next.tables.eviction, c);
      } else {
        ReclaimingEvictsPrefixes(v, next, channels[1..], c);
        assert QueueOf(next.tables.eviction, c) == QueueOf(p.tables.eviction, c);
      }
    }
  }

  /** With both budgets positive, a Reclaiming pass removes something whenever there is anything to remove. */
  lemma {:induction false} ReclaimingMakesProgress(v: View, p: Pass, channels: seq<ChannelId>, r: QueueRow)
    requires v.mode.Reclaiming? && QueueExact(p.tables) && !Exhausted(p)
    requires r in p.tables.eviction && r.channel in channels
    ensures |FullPass(v, p, channels).reclaimed| > |p.reclaimed|
    decreases |channels|
  {
    var d := channels[0];
    var cs, expiry := Heads(p.tables.eviction, d, p.candidates), ExpiryOf(p.tables, d);
    var next := ChannelPass(v, p, d, expiry, cs);
    HeadsQueued(p.tables, d, p.candidates);
    ChannelPassFrame(v, p, d, expiry, cs);
    if cs == [] {
      assert next == p;
      assert r.channel == d ==> Candidate(r.eligibleAt, r.artifact) in QueueOf(p.tables.eviction, d);
      ReclaimingMakesProgress(v, next, channels[1..], r);
    } else {
      var k := ChannelReclaims(v, p, d, expiry, cs);
      PassConserves(v, next, channels[1..]);
    }
  }

  // ----- bursts -----

  /** Passes back to back, each starting with fresh budgets where the previous one left the tables. */
  ghost predicate IsBurst(views: seq<View>, orders: seq<seq<ChannelId>>, starts: seq<Pass>, ends: seq<Pass>) {
    && |views| == |orders| == |starts| == |ends|
    && (forall i :: 0 <= i < |starts| ==>
          starts[i].reclaimed == [] && ends[i] == FullPass(views[i], starts[i], orders[i]))
    && (forall i :: 0 < i < |starts| ==> starts[i].tables == ends[i - 1].tables)
  }

  /** How many of the first `n` passes reclaimed something. */
  ghost function Productive(ends: seq<Pass>, n: nat): nat
    requires n <= |ends|
  {
    if n == 0 then 0 else Productive(ends, n - 1) + if ends[n - 1].reclaimed != [] then 1 else 0
  }

  lemma BurstStep(views: seq<View>, orders: seq<seq<ChannelId>>, starts: seq<Pass>, ends: seq<Pass>, i: nat)
    requires IsBurst(views, orders, starts, ends) && i < |starts| && QueueExact(starts[i].tables)
    ensures QueueExact(ends[i].tables)
    ensures |ends[i].tables.artifacts| + |ends[i].reclaimed| == |starts[i].tables.artifacts|
  {
    PassConserves(views[i], starts[i], orders[i]);
  }

  /** Without publications, the artifact count bounds the productive passes of a burst. */
  lemma {:induction false} BurstBounded(
    views: seq<View>, orders: seq<seq<ChannelId>>, starts: seq<Pass>, ends: seq<Pass>, n: nat)
    requires IsBurst(views, orders, starts, ends) && 0 < n <= |starts| && QueueExact(starts[0].tables)
    ensures QueueExact(ends[n - 1].tables)
    ensures Productive(ends, n) + |ends[n - 1].tables.artifacts| <= |starts[0].tables.artifacts|
  {
    if n > 1 {
      BurstBounded(views, orders, starts, ends, n - 1);
    }
    BurstStep(views, orders, starts, ends, n - 1);
  }

  // ----- recency across passes -----

  ghost function NormalView(now: U64, seed: Seed, bits: nat, w: Windows): View
    requires bits > 0
  {
    View(Normal, now, (k: ArtifactKey) => Seen(seed, bits, w, k))
  }

  /**
   * An artifact located before a pass survives that Normal-mode pass and the next one, with the
   * filters rotated in between and any other marks placed meanwhile. The second pass starts with
   * its own budgets where the first one left the tables.
   */
  lemma LocatedSurvivesTwoPasses(
    seed: Seed, bits: nat, w: Windows, key: ArtifactKey, others: set<ArtifactKey>, later: set<ArtifactKey>,
    first: Pass, order1: seq<ChannelId>, now1: U64, next: Pass, order2: seq<ChannelId>, now2: U64)
    requires bits > 0 && QueueExact(first.tables) && key in first.tables.artifacts
    ensures var marked := MarkAll(Mark(w, key), others);
            var end := FullPass(NormalView(now1, seed, bits, marked), first, order1);
            var view2 := NormalView(now2, seed, bits, MarkAll(Rotate(marked), later));
            && key in end.tables.artifacts
            && key in FullPass(view2, next.(tables := end.tables), order2).tables.artifacts
  {
    var marked := MarkAll(Mark(w, key), others);
    var view1 := NormalView(now1, seed, bits, marked);
    var view2 := NormalView(now2, seed, bits, MarkAll(Rotate(marked), later));
    assert view1.seen(key) && view2.seen(key) by {
      MarkSurvivesOneRotation(seed, bits, w, key, others, later);
    }
    NormalKeepsSeen(view1, first, order1, key);
    PassConserves(view1, first, order1);
    NormalKeepsSeen(view2, next.(tables := FullPass(view1, first, order1).tables), order2, key);
  }

  // ----- the service -----

  ghost predicate InKeyOrder(channels: seq<ChannelId>) {
    forall i, j :: 0 <= i < j < |channels| ==> Less(channels[i], channels[j])
  }

  /** The registry in key order, keeping active channels. */
  method ActiveChannels(t: Tables) returns (channels: seq<ChannelId>)
    ensures InKeyOrder(channels)
    ensures forall c :: c in channels <==> c in t.channels && t.channels[c].state.Active?
  {
    var keys: set<Text> := set c: ChannelId | c in t.channels && t.channels[c].state.Active? :: c;
    var listing := Iterate(keys, []);
    channels := [];
    for i := 0 to |listing|
      invariant |channels| == i && forall k :: 0 <= k < i ==> channels[k] == listing[k]
    {
      assert listing[i] in listing;
      channels := channels + [listing[i]];
    }
    forall c ensures c in channels <==> c in t.channels && t.channels[c].state.Active? {
      assert c in listing <==> c in keys;
    }
  }

  function RotateLeft(s: seq<ChannelId>, start: nat): (r: seq<ChannelId>)
    requires start <= |s|
    ensures forall c :: c in r <==> c in s
    ensures Distinct(s) ==> Distinct(r)
    ensures start < |s| ==> r != [] && r[0] == s[start]
    ensures |r| == |s|
    ensures forall i :: 0 <= i < |s| ==> r[i] == if start + i < |s| then s[start + i] else s[start + i - |s|]
  {
    assert s == s[..start] + s[start..];
    s[start..] + s[..start]
  }

  // ----- rotation keeps the tail from starving -----

  lemma MultipleBounds(n: nat, d: int)
    ensures d >= 1 ==> n * d >= n
    ensures d <= -1 ==> n * d + n <= 0
  {
  }

  lemma DivisionUnique(n: nat, q: int, r: nat, q': int, r': nat)
    requires r < n && r' < n && n * q + r == n * q' + r'
    ensures r == r'
  {
    MultipleBounds(n, q - q');
    assert n * (q - q') == n * q - n * q';
  }

  lemma RemainderOf(q: nat, n: nat, i: nat, a: nat)
    requires i < n && a == n * q + i
    ensures a % n == i
  {
    var q', r' := a / n, a % n;
    assert a == n * q' + r';
    DivisionUnique(n, q, i, q', r');
  }

  /** Within as many passes as there are channels, every channel is the first one visited. */
  lemma EveryChannelLeads(registry: seq<ChannelId>, cursor: nat, c: ChannelId) returns (pass: nat)
    requires c in registry
    ensures pass < |registry| && RotateLeft(registry, (cursor + pass) % |registry|)[0] == c
  {
    var i :| 0 <= i < |registry| && registry[i] == c;
    pass := Reaches(|registry|, cursor, i);
  }

  lemma Reaches(n: nat, cursor: nat, i: nat) returns (pass: nat)
    requires i < n
    ensures pass < n && (cursor + pass) % n == i
  {
    var q, start := cursor / n, cursor % n;
    assert cursor == n * q + start;
    if i >= start {
      pass := i - start;
      RemainderOf(q, n, i, cursor + pass);
    } else {
      pass := i - start + n;
      assert n * (q + 1) == n * q + n;
      RemainderOf(q + 1, n, i, cursor + pass);
    }
  }

  /** The channel visited first loses the head of its queue, whatever the other channels hold. */
  lemma LeaderReclaims(v: View, p: Pass, channels: seq<ChannelId>)
    requires v.mode.Reclaiming? && QueueExact(p.tables) && !Exhausted(p) && Distinct(channels) && channels != []
    requires QueueOf(p.tables.eviction, channels[0]) != {}
    ensures Listing(QueueOf(p.tables.eviction, channels[0]))[0] !in
              QueueOf(FullPass(v, p, channels).tables.eviction, channels[0])
  {
    var c, rest := channels[0], channels[1..];
    var cs, expiry := Heads(p.tables.eviction, c, p.candidates), ExpiryOf(p.tables, c);
    var next := ChannelPass(v, p, c, expiry, cs);
    var head := Listing(QueueOf(p.tables.eviction, c))[0];
    assert cs != [] && cs[0] == head;
    HeadsQueued(p.tables, c, p.candidates);
    ChannelPassFrame(v, p, c, expiry, cs);
    var k := ChannelReclaims(v, p, c, expiry, cs);
    assert head in cs[..k];
    NotAgain(channels);
    PassFrame(v, next, rest, c);
    assert QueueOf(FullPass(v, next, rest).tables.eviction, c) == QueueOf(next.tables.eviction, c);
  }

  class CacheService {
    const store: RocksMetadata
    const space: SharedLedger
    const recent: Filters
    const reclaimByteLimit: U64
    var files: set<ArtifactKey>
    var cursor: nat

    constructor (
      store: RocksMetadata, space: SharedLedger, recent: Filters, reclaimByteLimit: U64, files: set<ArtifactKey>)
      requires QueueExact(store.tables) && recent.Valid()
      ensures Valid() && this.store == store && this.space == space && this.recent == recent
      ensures this.reclaimByteLimit == reclaimByteLimit && this.files == files && cursor == 0
    {
      this.store, this.space, this.recent := store, space, recent;
      this.reclaimByteLimit, this.files, cursor := reclaimByteLimit, files, 0;
    }

    ghost predicate Valid()
      reads this, store, recent, recent.filter0, recent.filter1
    {
      QueueExact(store.tables) && recent.Valid()
    }

    ghost function Start(limit: nat): Pass
      reads this, store
    {
      Pass(store.tables, files, limit, reclaimByteLimit, [], [])
    }

    /** The view reports this service's recency filter. */
    ghost predicate Agrees(v: View)
      reads this, recent, recent.filter0, recent.filter1
    {
      recent.Valid() && forall k :: v.seen(k) <==> Seen(recent.seed, recent.bits, recent.windows, k)
    }

    ghost predicate Mirrors(p: Pass)
      reads this, store
    {
      p.tables == store.tables && p.files == files
    }

    /** Unlinks the body before the metadata, and only when the row is current. */
    method ExamineOne(mode: Mode, now: U64, ghost v: View, ghost p: Pass, r: QueueRow, expiry: U64)
      returns (outcome: Evicted)
      requires Valid() && Agrees(v) && v.mode == mode && v.now == now && Mirrors(p) && p.candidates > 0
      modifies this`files, store
      ensures Valid() && Agrees(v)
      ensures var next := Examine(v, p, r, expiry);
              && Mirrors(next)
              && |next.reclaimed| == |p.reclaimed| + (if outcome.Removed? then 1 else 0)
              && next.bytes == if outcome.Removed? then SatSub(p.bytes, outcome.storedLen) else p.bytes
    {
      if mode.Normal? {
        var seen := recent.SeenRecently(KeyOf(r));
        if seen {
          store.MoveDeadline(r.channel, r.artifact, r.eligibleAt, SatAdd(now, expiry));
          return Stale;
        }
      }
      if Current(store.tables, r) {
        files := files - {KeyOf(r)};
      }
      outcome := store.EvictRow(r.channel, r.artifact, r.eligibleAt);
    }

    /** Works through the candidates of one channel until a budget or the due rows run out. */
    method SweepChannel(
      mode: Mode, now: U64, ghost v: View, ghost p: Pass, c: ChannelId, expiry: U64, candidates: seq<Candidate>,
      remainingCandidates: nat, remainingBytes: U64)
      returns (candidatesLeft: nat, bytesLeft: U64, reclaimed: nat)
      requires Valid() && Agrees(v) && v.mode == mode && v.now == now
      requires Mirrors(p) && p.candidates == remainingCandidates && p.bytes == remainingBytes
      modifies this`files, store
      ensures Valid() && Agrees(v)
      ensures var after := ChannelPass(v, p, c, expiry, candidates);
              && Mirrors(after) && after.candidates == candidatesLeft && after.bytes == bytesLeft
              && |after.reclaimed| == |p.reclaimed| + reclaimed
    {
      candidatesLeft, bytesLeft, reclaimed := remainingCandidates, remainingBytes, 0;
      ghost var after := ChannelPass(v, p, c, expiry, candidates);
      ghost var q := p;
      var j := 0;
      assert candidates[0..] == candidates;
      while j < |candidates|
        invariant j <= |candidates| && Valid() && Agrees(v)
        invariant ChannelPass(v, q, c, expiry, candidates[j..]) == after
        invariant Mirrors(q) && q.candidates == candidatesLeft && q.bytes == bytesLeft
        invariant |q.reclaimed| == |p.reclaimed| + reclaimed
      {
        if candidatesLeft == 0 || bytesLeft == 0 {
          break;
        }
        var due := candidates[j].eligibleAt <= now;
        if mode.Normal? && !due {
          break;
        }
        assert candidates[j..][0] == candidates[j] && candidates[j..][1..] == candidates[j + 1..];
        var outcome := ExamineOne(mode, now, v, q, Row(c, candidates[j]), expiry);
        candidatesLeft := candidatesLeft - 1;
        if outcome.Removed? {
          bytesLeft := SatSub(bytesLeft, outcome.storedLen);
          reclaimed := reclaimed + 1;
        }
        q := Examine(v, q, Row(c, candidates[j]), expiry);
        j := j + 1;
      }
      assert Stops(v, q, candidates[j..]);
    }

    /** Spends one global budget over the channels in the given order. */
    method SweepChannels(mode: Mode, now: U64, ghost v: View, channels: seq<ChannelId>, limit: nat)
      returns (reclaimed: nat)
      requires Valid() && Agrees(v) && v.mode == mode && v.now == now
      modifies this`files, store
      ensures Valid() && Agrees(v)
      ensures var end := FullPass(v, old(Start(limit)), channels);
              Mirrors(end) && reclaimed == |end.reclaimed|
    {
      ghost var p := Start(limit);
      ghost var end := FullPass(v, p, channels);
      var remainingCandidates, remainingBytes := limit, reclaimByteLimit;
      reclaimed := 0;
      var i := 0;
      assert channels[0..] == channels;
      while i < |channels|
        invariant i <= |channels| && Valid() && Agrees(v)
        invariant FullPass(v, p, channels[i..]) == end
        invariant Mirrors(p) && p.candidates == remainingCandidates && p.bytes == remainingBytes
        invariant |p.reclaimed| == reclaimed
      {
        if remainingCandidates == 0 || remainingBytes == 0 {
          break;
        }
        var c := channels[i];
        var expiry := ExpiryOf(store.tables, c);
        var candidates := ReclaimCandidates(store.tables.eviction, c, remainingCandidates);
        var removed;
        assert channels[i..][0] == c && channels[i..][1..] == channels[i + 1..];
        ghost var next := ChannelPass(v, p, c, expiry, candidates);
        assert FullPass(v, next, channels[i + 1..]) == end;
        remainingCandidates, remainingBytes, removed :=
          SweepChannel(mode, now, v, p, c, expiry, candidates, remainingCandidates, remainingBytes);
        p := next;
        reclaimed := reclaimed + removed;
        i := i + 1;
      }
    }

    /** Refreshes the ledger, derives the mode and runs one pass from the next channel in rotation. */
    method RunMaintenanceOnce(limit: nat, observation: Option<U64>, now: U64, ghost seen: ArtifactKey -> bool)
      returns (reclaimed: nat, registry: seq<ChannelId>, order: seq<ChannelId>, mode: Mode)
      requires Valid() && Agrees(View(Normal, now, seen))
      modifies this`files, this`cursor, store, space
      ensures Valid()
      ensures mode == ModeOf(space.policy, Refreshed(old(space.State()), observation))
      ensures InKeyOrder(registry) && Distinct(order)
      ensures order == if registry == [] then [] else RotateLeft(registry, old(cursor) % |registry|)
      ensures cursor == if registry == [] then old(cursor) else old(cursor) + 1
      ensures forall c :: c in registry <==>
                c in old(store.tables).channels && old(store.tables).channels[c].state.Active?
      ensures var end := FullPass(View(mode, now, seen), old(Start(limit)), order);
              Mirrors(end) && reclaimed == |end.reclaimed|
    {
      space.Refresh(observation);
      mode := space.CurrentMode();
      registry := ActiveChannels(store.tables);
      order := registry;
      if order != [] {
        var start := cursor % |order|;
        cursor := cursor + 1;
        order := RotateLeft(order, start);
      }
      reclaimed := SweepChannels(mode, now, View(mode, now, seen), order, limit);
    }
  }
}
