/**
 * Where a maintenance pass moves deadlines to (src/cache/service.rs:324-353): told from the registry
 * and the records at the start of the pass, with the pass's clock.
 */
module Deadlines {
  import opened Words
  import opened Identity
  import opened Store
  import opened Maintenance

  /** The record is due a full expiry of its own channel after the pass, or never if that overflows. */
  ghost predicate DueLater(t: Tables, now: U64, key: ArtifactKey, m: ArtifactMetadata) {
    && key.channel in t.channels
    && m.eligibleAt == Min(now + t.channels[key.channel].expirySeconds, U64_MAX)
  }

  /** Only the deadline of the record differs. */
  predicate SameButDeadline(a: ArtifactMetadata, b: ArtifactMetadata) {
    && a.contentLen == b.contentLen && a.createdAt == b.createdAt
    && a.storedLen == b.storedLen && a.encoding == b.encoding
  }

  /**
   * What became of the records of `start`. A kept one is as it was, or was seen in Normal mode and is
   * due later; those moved by the pass are its log from `base` on, each due and seen.
   */
  ghost predicate Moves(v: View, start: Tables, base: nat, p: Pass) {
    && p.tables.channels == start.channels && base <= |p.requeued|
    && (forall k :: k in p.tables.artifacts ==>
          && k in start.artifacts && SameButDeadline(p.tables.artifacts[k], start.artifacts[k])
          && (p.tables.artifacts[k].eligibleAt != start.artifacts[k].eligibleAt ==>
                v.mode.Normal? && v.seen(k) && DueLater(start, v.now, k, p.tables.artifacts[k])))
    && (forall i :: base <= i < |p.requeued| ==> MovedBy(v, start, p, p.requeued[i]))
  }

  ghost predicate MovedBy(v: View, start: Tables, p: Pass, row: QueueRow) {
    var k := ArtifactKey(row.channel, row.artifact);
    && v.mode.Normal? && v.seen(k) && row.eligibleAt <= v.now
    && k in p.tables.artifacts && DueLater(start, v.now, k, p.tables.artifacts[k])
  }

  lemma ExamineMoves(v: View, start: Tables, base: nat, p: Pass, r: QueueRow, expiry: U64)
    requires Moves(v, start, base, p) && QueueExact(p.tables) && r in p.tables.eviction && p.candidates > 0
    requires r.channel in start.channels && expiry == start.channels[r.channel].expirySeconds
    requires v.mode.Normal? ==> r.eligibleAt <= v.now
    ensures Moves(v, start, base, Examine(v, p, r, expiry))
    ensures SpendsOne(p, Examine(v, p, r, expiry))
  {
    ExamineQueued(v, p, r, expiry);
    var next := Examine(v, p, r, expiry);
    forall i | base <= i < |next.requeued| ensures MovedBy(v, start, next, next.requeued[i]) {
      if i < |p.requeued| {
        var row := p.requeued[i];
        assert next.requeued[i] == row && MovedBy(v, start, p, row);
        assert !Requeues(v, r) ==> KeyOf(r) != ArtifactKey(row.channel, row.artifact);
      } else {
        assert Requeues(v, r) && next.requeued[i] == r;
      }
    }
  }

  /** One candidate: reclaimed or moved, never passed over. */
  ghost predicate SpendsOne(p: Pass, q: Pass) {
    q.candidates == p.candidates - 1 && |q.reclaimed| + |q.requeued| == |p.reclaimed| + |p.requeued| + 1
  }

  ghost predicate Spends(p: Pass, q: Pass) {
    && q.candidates + |q.reclaimed| + |q.requeued| == p.candidates + |p.reclaimed| + |p.requeued|
    && |q.requeued| >= |p.requeued| && |q.reclaimed| >= |p.reclaimed|
  }

  lemma {:induction false} ChannelMoves(
    v: View, start: Tables, base: nat, p: Pass, c: ChannelId, expiry: U64, cs: seq<StoreKeys.Candidate>)
    requires Moves(v, start, base, p) && QueueExact(p.tables) && Queued(p.tables, c, cs)
    requires c in start.channels && expiry == start.channels[c].expirySeconds
    ensures Moves(v, start, base, ChannelPass(v, p, c, expiry, cs)) && Spends(p, ChannelPass(v, p, c, expiry, cs))
    decreases |cs|
  {
    if !Stops(v, p, cs) {
      var r, next := Row(c, cs[0]), Examine(v, p, Row(c, cs[0]), expiry);
      ExamineMoves(v, start, base, p, r, expiry);
      ExamineGrows(v, p, r, expiry);
      ExamineKeepsQueued(v, p, c, expiry, cs);
      ChannelMoves(v, start, base, next, c, expiry, cs[1..]);
    }
  }

  lemma ExamineGrows(v: View, p: Pass, r: QueueRow, expiry: U64)
    requires p.candidates > 0
    ensures |Examine(v, p, r, expiry).requeued| >= |p.requeued| && |Examine(v, p, r, expiry).reclaimed| >= |p.reclaimed|
  {
  }

  lemma {:induction false} PassMovesOn(v: View, start: Tables, base: nat, p: Pass, channels: seq<ChannelId>)
    requires Moves(v, start, base, p) && QueueExact(p.tables) && forall c :: c in channels ==> c in start.channels
    ensures Moves(v, start, base, FullPass(v, p, channels)) && Spends(p, FullPass(v, p, channels))
    decreases |channels|
  {
    if channels != [] && !Exhausted(p) {
      var c := channels[0];
      var cs, expiry := StoreKeys.Heads(p.tables.eviction, c, p.candidates), ExpiryOf(p.tables, c);
      HeadsQueued(p.tables, c, p.candidates);
      ChannelMoves(v, start, base, p, c, expiry, cs);
      ChannelPassFrame(v, p, c, expiry, cs);
      PassMovesOn(v, start, base, ChannelPass(v, p, c, expiry, cs), channels[1..]);
    }
  }

  /**
   * Every surviving record whose deadline a pass has moved was seen, and is due one expiry of its own
   * channel after the pass began. Every candidate examined was either reclaimed or so moved.
   */
  lemma PassMovesDeadlines(v: View, p: Pass, channels: seq<ChannelId>)
    requires QueueExact(p.tables) && p.requeued == [] && p.reclaimed == []
    requires forall c :: c in channels ==> c in p.tables.channels
    ensures var end := FullPass(v, p, channels);
            && p.candidates - end.candidates == |end.reclaimed| + |end.requeued|
            && (forall k :: k in end.tables.artifacts ==>
                  && k in p.tables.artifacts && SameButDeadline(end.tables.artifacts[k], p.tables.artifacts[k])
                  && (end.tables.artifacts[k].eligibleAt != p.tables.artifacts[k].eligibleAt ==>
                        v.mode.Normal? && v.seen(k) && DueLater(p.tables, v.now, k, end.tables.artifacts[k])))
            && (forall r :: r in end.requeued ==>
                  && v.mode.Normal? && v.seen(KeyOf(r)) && r.eligibleAt <= v.now
                  && KeyOf(r) in end.tables.artifacts
                  && DueLater(p.tables, v.now, KeyOf(r), end.tables.artifacts[KeyOf(r)]))
  {
    PassMovesOn(v, p.tables, 0, p, channels);
  }

  /** If neither budget runs out, every seen artifact that was due in a visited channel has been moved. */
  lemma SeenDueMoves(v: View, p: Pass, channels: seq<ChannelId>, key: ArtifactKey)
    requires v.mode.Normal? && v.now < U64_MAX && QueueExact(p.tables) && p.requeued == [] && p.reclaimed == []
    requires Distinct(channels) && ExpiriesPositive(p.tables, channels) && key.channel in channels
    requires forall c :: c in channels ==> c in p.tables.channels
    requires key in p.tables.artifacts && v.seen(key) && p.tables.artifacts[key].eligibleAt <= v.now
    requires !Exhausted(FullPass(v, p, channels))
    ensures var end := FullPass(v, p, channels);
            key in end.tables.artifacts && DueLater(p.tables, v.now, key, end.tables.artifacts[key])
  {
    var end := FullPass(v, p, channels);
    NormalKeepsSeen(v, p, channels, key);
    NormalLeavesNothingDue(v, p, channels, key.channel);
    PassConserves(v, p, channels);
    PassMovesDeadlines(v, p, channels);
    var row := QueueRow(key.channel, end.tables.artifacts[key].eligibleAt, key.artifact);
    assert row in end.tables.eviction;
  }
}
