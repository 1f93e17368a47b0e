/**
 * A maintenance pass among other tasks (src/cache/service.rs:329-379). A candidate scanned earlier is
 * looked at, its body unlinked and its row evicted in three steps. Any store or file operation of
 * other tasks may fall between any two steps: channel deletion does not take the stripe.
 */
module SharedPass {
  import opened Words
  import opened Store
  import opened Maintenance

  /** The candidate in hand: how the pass saw it, and whether its row was current when it was looked at. */
  datatype Hand = Hand(view: View, row: QueueRow, confirmed: bool, unlinked: bool)

  datatype Shared = Shared(pass: Pass, hand: Option<Hand>)

  datatype Event =
    | Look(view: View, row: QueueRow, expiry: U64)
    | UnlinkBody
    | EvictCandidate
    | Other(op: Operation)
    | AddBody(key: ArtifactKey)
    | RemoveBody(key: ArtifactKey)

  predicate Possible(s: Shared, e: Event) {
    match e
    case Look(view, row, _) =>
      s.hand.None? && !Exhausted(s.pass) && (view.mode.Normal? ==> row.eligibleAt <= view.now)
    case UnlinkBody => s.hand.Some? && s.hand.value.confirmed && !s.hand.value.unlinked
    case EvictCandidate => s.hand.Some? && s.hand.value.unlinked == s.hand.value.confirmed
    case _ => true
  }

  /** Requeues a candidate that was seen; otherwise takes it in hand and reads whether its row is current. */
  function Looked(p: Pass, view: View, row: QueueRow, expiry: U64): Shared
    requires p.candidates > 0
  {
    var spent := p.(candidates := p.candidates - 1);
    if Requeues(view, row) then
      Shared(spent.(requeued := p.requeued + [row],
                    tables := Perform(p.tables, Requeue(row.channel, row.artifact, row.eligibleAt,
                                                        SatAdd(view.now, expiry)))), None)
    else Shared(spent, Some(Hand(view, row, Current(p.tables, row), false)))
  }

  function EvictedRow(p: Pass, r: QueueRow): Pass {
    var evicted := p.(tables := Perform(p.tables, Evict(r.channel, r.artifact, r.eligibleAt)));
    if !Current(p.tables, r) then evicted
    else
      var storedLen := p.tables.artifacts[KeyOf(r)].storedLen;
      evicted.(bytes := SatSub(p.bytes, storedLen), reclaimed := p.reclaimed + [Reclaimed(r, storedLen)])
  }

  function React(s: Shared, e: Event): Shared
    requires Possible(s, e)
  {
    match e
    case Look(view, row, expiry) => Looked(s.pass, view, row, expiry)
    case UnlinkBody =>
      Shared(s.pass.(files := s.pass.files - {KeyOf(s.hand.value.row)}), Some(s.hand.value.(unlinked := true)))
    case EvictCandidate => Shared(EvictedRow(s.pass, s.hand.value.row), None)
    case Other(op) => s.(pass := s.pass.(tables := Perform(s.pass.tables, op)))
    case AddBody(key) => s.(pass := s.pass.(files := s.pass.files + {key}))
    case RemoveBody(key) => s.(pass := s.pass.(files := s.pass.files - {key}))
  }

  /** Without interruption the three steps are the examination that a pass by itself makes. */
  lemma UninterruptedIsExamine(p: Pass, view: View, row: QueueRow, expiry: U64)
    requires !Exhausted(p) && (view.mode.Normal? ==> row.eligibleAt <= view.now)
    ensures var s1 := React(Shared(p, None), Look(view, row, expiry));
            && (Requeues(view, row) ==> s1 == Shared(Examine(view, p, row, expiry), None))
            && (!Requeues(view, row) && Current(p.tables, row) ==>
                  React(React(s1, UnlinkBody), EvictCandidate) == Shared(Examine(view, p, row, expiry), None))
            && (!Requeues(view, row) && !Current(p.tables, row) ==>
                  React(s1, EvictCandidate) == Shared(Examine(view, p, row, expiry), None))
  {
  }

  // ----- what every event keeps -----

  ghost predicate HandOk(s: Shared, limit: nat) {
    s.hand.Some? ==>
      && s.pass.candidates + |s.pass.reclaimed| + |s.pass.requeued| < limit && s.pass.bytes > 0
      && !Requeues(s.hand.value.view, s.hand.value.row)
      && (s.hand.value.view.mode.Normal? ==> s.hand.value.row.eligibleAt <= s.hand.value.view.now)
  }

  ghost predicate Inv(s: Shared, limit: nat, byteLimit: U64) {
    QueueExact(s.pass.tables) && InBudget(s.pass, limit, byteLimit) && HandOk(s, limit)
  }

  lemma LookKeeps(p: Pass, view: View, row: QueueRow, expiry: U64, limit: nat, byteLimit: U64)
    requires QueueExact(p.tables) && InBudget(p, limit, byteLimit) && !Exhausted(p)
    requires view.mode.Normal? ==> row.eligibleAt <= view.now
    ensures Inv(Looked(p, view, row, expiry), limit, byteLimit)
  {
    PerformKeepsQueue(p.tables, Requeue(row.channel, row.artifact, row.eligibleAt, SatAdd(view.now, expiry)));
  }

  lemma EvictKeeps(p: Pass, r: QueueRow, limit: nat, byteLimit: U64)
    requires QueueExact(p.tables) && InBudget(p, limit, byteLimit)
    requires p.candidates + |p.reclaimed| + |p.requeued| < limit && p.bytes > 0
    ensures QueueExact(EvictedRow(p, r).tables) && InBudget(EvictedRow(p, r), limit, byteLimit)
  {
    assert QueueExact(EvictedRow(p, r).tables) by {
      PerformKeepsQueue(p.tables, Evict(r.channel, r.artifact, r.eligibleAt));
    }
    if Current(p.tables, r) {
      BudgetGrows(p, EvictedRow(p, r), Reclaimed(r, p.tables.artifacts[KeyOf(r)].storedLen), limit, byteLimit);
    }
  }

  lemma BudgetGrows(p: Pass, q: Pass, e: Reclaimed, limit: nat, byteLimit: U64)
    requires InBudget(p, limit, byteLimit) && p.candidates + |p.reclaimed| + |p.requeued| < limit && p.bytes > 0
    requires q.candidates == p.candidates && q.requeued == p.requeued
    requires q.reclaimed == p.reclaimed + [e] && q.bytes == SatSub(p.bytes, e.storedLen)
    ensures InBudget(q, limit, byteLimit)
  {
    LogGrows(p.reclaimed, e, byteLimit);
  }

  lemma EventKeeps(s: Shared, e: Event, limit: nat, byteLimit: U64)
    requires Inv(s, limit, byteLimit) && Possible(s, e)
    ensures Inv(React(s, e), limit, byteLimit)
  {
    match e {
      case Look(view, row, expiry) => LookKeeps(s.pass, view, row, expiry, limit, byteLimit);
      case UnlinkBody =>
      case EvictCandidate => EvictKeeps(s.pass, s.hand.value.row, limit, byteLimit);
      case Other(op) => PerformKeepsQueue(s.pass.tables, op);
      case AddBody(key) =>
      case RemoveBody(key) =>
    }
  }

  ghost predicate IsSharedPass(passes: seq<Shared>, events: seq<Event>, limit: nat, byteLimit: U64) {
    && |passes| == |events| + 1 && passes[0].hand.None?
    && QueueExact(passes[0].pass.tables) && InBudget(passes[0].pass, limit, byteLimit)
    && forall i :: 0 <= i < |events| ==> EventAt(passes, events, i)
  }

  ghost predicate EventAt(passes: seq<Shared>, events: seq<Event>, i: nat)
    requires i < |events| < |passes|
  {
    Possible(passes[i], events[i]) && passes[i + 1] == React(passes[i], events[i])
  }

  /** The queue stays exact and the pass within both budgets, whatever happens in between. */
  lemma {:induction false} SharedPassKeeps(
    passes: seq<Shared>, events: seq<Event>, i: nat, limit: nat, byteLimit: U64)
    requires IsSharedPass(passes, events, limit, byteLimit) && i < |passes|
    ensures Inv(passes[i], limit, byteLimit)
  {
    if i > 0 {
      SharedPassKeeps(passes, events, i - 1, limit, byteLimit);
      assert EventAt(passes, events, i - 1);
      EventKeeps(passes[i - 1], events[i - 1], limit, byteLimit);
    }
  }

  // ----- what a pass takes away -----

  /** The candidate in hand was looked at by step `j` of the pass, which read whether its row was current. */
  ghost predicate LookedAt(passes: seq<Shared>, events: seq<Event>, j: nat, h: Hand)
    requires j < |events| < |passes|
  {
    && events[j].Look? && events[j].view == h.view && events[j].row == h.row
    && (h.confirmed <==> Current(passes[j].pass.tables, h.row))
  }

  lemma {:induction false} HandOrigin(
    passes: seq<Shared>, events: seq<Event>, i: nat, limit: nat, byteLimit: U64) returns (j: nat)
    requires IsSharedPass(passes, events, limit, byteLimit) && i < |passes| && passes[i].hand.Some?
    ensures j < i && LookedAt(passes, events, j, passes[i].hand.value)
    ensures forall q :: j < q < i ==> !events[q].Look?
  {
    assert i > 0;
    assert EventAt(passes, events, i - 1);
    if events[i - 1].Look? {
      j := i - 1;
    } else {
      j := HandOrigin(passes, events, i - 1, limit, byteLimit);
    }
  }

  lemma RequeueMoves(p: Pass, view: View, row: QueueRow, expiry: U64)
    requires QueueExact(p.tables) && p.candidates > 0 && view.mode.Normal?
    ensures NormalChange(view, p.tables, Looked(p, view, row, expiry).pass.tables)
    ensures Looked(p, view, row, expiry).pass.tables.artifacts.Keys == p.tables.artifacts.Keys
  {
    var requeue := Requeue(row.channel, row.artifact, row.eligibleAt, SatAdd(view.now, expiry));
    BatchUnrolled(p.tables, BatchOf(p.tables, requeue));
  }

  /** An eviction takes the record of a row that is current now, and nothing else. */
  lemma EvictTakes(p: Pass, r: QueueRow)
    requires QueueExact(p.tables)
    ensures !Current(p.tables, r) ==> EvictedRow(p, r) == p
    ensures Current(p.tables, r) ==>
              EvictedRow(p, r) == p.(tables := AfterEvict(p.tables, r),
                                     bytes := SatSub(p.bytes, p.tables.artifacts[KeyOf(r)].storedLen),
                                     reclaimed := p.reclaimed + [Reclaimed(r, p.tables.artifacts[KeyOf(r)].storedLen)])
  {
    assert r in p.tables.eviction <==> Current(p.tables, r);
    BatchUnrolled(p.tables, BatchOf(p.tables, Evict(r.channel, r.artifact, r.eligibleAt)));
  }

  /**
   * What a pass takes away, step by step. Looking takes nothing and moves at most the deadline of a
   * record that was seen. Only the body of a row that was current when looked at is unlinked. Evicting
   * takes a record exactly when the row is current at that very step: if a deletion or a requeue came
   * in between it takes nothing and counts nothing. In Normal mode the record is then due and unseen.
   */
  lemma SharedPassEvicts(
    passes: seq<Shared>, events: seq<Event>, i: nat, limit: nat, byteLimit: U64) returns (j: nat)
    requires IsSharedPass(passes, events, limit, byteLimit) && i < |events|
    requires events[i].Look? || events[i].UnlinkBody? || events[i].EvictCandidate?
    ensures var p, q := passes[i].pass, passes[i + 1].pass;
            && (events[i].Look? ==>
                  && q.files == p.files && q.reclaimed == p.reclaimed
                  && if events[i].view.mode.Normal? then NormalChange(events[i].view, p.tables, q.tables)
                     else q.tables == p.tables)
            && (!events[i].Look? ==>
                  passes[i].hand.Some? && j < i && LookedAt(passes, events, j, passes[i].hand.value))
            && (events[i].UnlinkBody? ==>
                  && q == p.(files := p.files - {KeyOf(events[j].row)})
                  && Current(passes[j].pass.tables, events[j].row))
            && (events[i].EvictCandidate? ==>
                  && q.files == p.files
                  && (if Current(p.tables, events[j].row)
                      then q.tables == AfterEvict(p.tables, events[j].row) && |q.reclaimed| == |p.reclaimed| + 1
                      else q == p)
                  && (events[j].view.mode.Normal? ==> NormalChange(events[j].view, p.tables, q.tables)))
  {
    SharedPassKeeps(passes, events, i, limit, byteLimit);
    assert EventAt(passes, events, i);
    j := 0;
    if events[i].Look? {
      LookTakesNothing(passes[i].pass, events[i].view, events[i].row, events[i].expiry);
    } else {
      j := HandOrigin(passes, events, i, limit, byteLimit);
      if events[i].EvictCandidate? {
        EvictTakes(passes[i].pass, events[j].row);
        EvictIsNormal(passes[i].pass, events[j].view, events[j].row);
      }
    }
  }

  lemma LookTakesNothing(p: Pass, view: View, row: QueueRow, expiry: U64)
    requires QueueExact(p.tables) && p.candidates > 0
    ensures var q := Looked(p, view, row, expiry).pass;
            && q.files == p.files && q.reclaimed == p.reclaimed
            && if view.mode.Normal? then NormalChange(view, p.tables, q.tables) else q.tables == p.tables
  {
    if view.mode.Normal? {
      RequeueMoves(p, view, row, expiry);
    }
  }

  lemma EvictIsNormal(p: Pass, view: View, r: QueueRow)
    requires QueueExact(p.tables) && !Requeues(view, r) && (view.mode.Normal? ==> r.eligibleAt <= view.now)
    ensures view.mode.Normal? ==> NormalChange(view, p.tables, EvictedRow(p, r).tables)
  {
    EvictTakes(p, r);
  }
}
