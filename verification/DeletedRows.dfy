/**
 * What stays of a deleted channel, in every run of the machine in module ChannelDeletion
 * (src/channel/service.rs:169-205, src/storage/metadata/rocksdb.rs:254-285, src/cache/service.rs:342-353).
 * The registry record and the final files never come back. Rows do, exactly when a requeue that read
 * its record before the wipe writes it back afterwards: it holds the artifact's stripe but no gate.
 */
module DeletedRows {
  import opened Words
  import opened Identity
  import opened Store
  import opened ChannelDeletion

  // ----- the wipe of a deletion -----

  predicate Wipes(s: State, a: Action, id: nat) {
    a == Move(id) && id < |s.tasks| && s.tasks[id].point == Exclusive(0)
  }

  /** Task `id` is inside `finish_deletion`, past its wipe. */
  predicate Wiped(s: State, id: nat) {
    id < |s.tasks| && s.tasks[id].point.Exclusive? && s.tasks[id].point.stage >= 1
  }

  /** The deletion that step `f` completes wiped the rows at step `w` and has held the gate since. */
  ghost predicate Deletes(states: seq<State>, actions: seq<Action>, w: nat, f: nat)
    requires |states| == |actions| + 1
  {
    && w < f < |actions| && CompletesDeletion(states[f], actions[f]) && Wipes(states[w], actions[w], actions[f].id)
    && forall m :: w < m <= f ==> Wiped(states[m], actions[f].id)
  }

  lemma WipedBefore(c: ChannelId, s: State, a: Action, id: nat)
    requires Enabled(c, s, a) && Wiped(Step(c, s, a), id)
    ensures Wiped(s, id) || Wipes(s, a, id)
  {
    if a.Move? {
      MoveOthers(c, s, a.id, id);
      if a.id == id {
        MoveStage(c, s, id);
      }
    }
  }

  lemma MoveOthers(c: ChannelId, s: State, id: nat, j: nat)
    requires id < |s.tasks|
    ensures OnlyMoves(s, MoveTask(c, s, id), id, j)
  {
    if Fences(s.tasks[id]) {
      MutateOthers(c, s, id, j);
    } else if s.tasks[id].point.Exclusive? {
      FinishOthers(c, s, id, j);
    }
  }

  ghost predicate OnlyMoves(s: State, r: State, id: nat, j: nat) {
    |r.tasks| == |s.tasks| && (j < |s.tasks| && j != id ==> r.tasks[j] == s.tasks[j])
  }

  lemma MutateOthers(c: ChannelId, s: State, id: nat, j: nat)
    requires id < |s.tasks| && Fences(s.tasks[id])
    ensures OnlyMoves(s, Mutate(c, s, id), id, j)
  {
  }

  lemma FinishOthers(c: ChannelId, s: State, id: nat, j: nat)
    requires id < |s.tasks| && s.tasks[id].point.Exclusive?
    ensures OnlyMoves(s, Finish(c, s, id, s.tasks[id].point.stage), id, j)
  {
  }

  lemma MoveStage(c: ChannelId, s: State, id: nat)
    requires id < |s.tasks| && Wiped(MoveTask(c, s, id), id)
    ensures s.tasks[id].point.Exclusive?
  {
  }

  lemma {:induction false} WipeOrigin(c: ChannelId, states: seq<State>, actions: seq<Action>, n: nat, id: nat)
    returns (w: nat)
    requires IsRun(c, states, actions) && n < |states| && Wiped(states[n], id)
    ensures w < n && Wipes(states[w], actions[w], id) && forall m :: w < m <= n ==> Wiped(states[m], id)
  {
    assert n > 0;
    assert StepAt(c, states, actions, n - 1);
    WipedBefore(c, states[n - 1], actions[n - 1], id);
    if Wiped(states[n - 1], id) {
      w := WipeOrigin(c, states, actions, n - 1, id);
    } else {
      w := n - 1;
    }
  }

  /** Every completed deletion has its wipe. */
  lemma DeletionHasWipe(c: ChannelId, states: seq<State>, actions: seq<Action>, f: nat) returns (w: nat)
    requires IsRun(c, states, actions) && f < |actions| && CompletesDeletion(states[f], actions[f])
    ensures Deletes(states, actions, w, f)
  {
    w := WipeOrigin(c, states, actions, f, actions[f].id);
  }

  lemma FinishedAfter(c: ChannelId, states: seq<State>, actions: seq<Action>, f: nat, j: nat)
    requires IsRun(c, states, actions) && f < j < |states| && CompletesDeletion(states[f], actions[f])
    ensures states[j].finished
  {
    assert StepAt(c, states, actions, f) && states[f + 1].finished;
    FinishedForever(c, states, actions, f + 1, j);
  }

  /** From the wipe on, no task is behind the shared gate with the record rechecked. */
  lemma NoneFenced(c: ChannelId, states: seq<State>, actions: seq<Action>, w: nat, f: nat, m: nat)
    requires IsRun(c, states, actions) && Deletes(states, actions, w, f) && w < m < |states|
    ensures forall i :: 0 <= i < |states[m].tasks| ==> !Fences(states[m].tasks[i])
  {
    RunKeeps(c, states, actions, m);
    if m > f {
      FinishedAfter(c, states, actions, f, m);
    } else if !states[m].finished {
      assert Wiped(states[m], actions[f].id);
      AloneInside(c, states[m], actions[f].id);
    }
  }

  // ----- requeues from read to write -----

  predicate Ends(a: Action, artifact: Digest) {
    a == WriteRequeue(artifact) || a == FailRequeue(artifact) || a.Restart?
  }

  /** The requeue that step `r` began for `artifact` is still under way before step `n`. */
  ghost predicate ReadAt(states: seq<State>, actions: seq<Action>, r: nat, n: nat, artifact: Digest)
    requires |states| == |actions| + 1
  {
    && r < n <= |actions| && actions[r].ReadRequeue? && actions[r].artifact == artifact
    && forall q :: r < q < n ==> !Ends(actions[q], artifact)
  }

  function ReadBy(c: ChannelId, s: State, a: Action): Pending
    requires a.ReadRequeue?
  {
    Read(c, s.tables, a.artifact, a.oldEligibleAt, a.newEligibleAt)
  }

  lemma PendingStep(c: ChannelId, s: State, a: Action, artifact: Digest)
    requires Enabled(c, s, a)
    ensures var r := Step(c, s, a).pending;
            && (a.ReadRequeue? && a.artifact == artifact ==> artifact in r && r[artifact] == ReadBy(c, s, a))
            && (!(a.ReadRequeue? && a.artifact == artifact) ==>
                  && (artifact in r <==> artifact in s.pending && !Ends(a, artifact))
                  && (artifact in r ==> r[artifact] == s.pending[artifact]))
            && (a.ReadRequeue? && a.artifact == artifact ==> artifact !in s.pending)
  {
    if a.Move? {
      MoveKeepsPending(c, s, a.id);
    }
  }

  lemma MoveKeepsPending(c: ChannelId, s: State, id: nat)
    requires id < |s.tasks|
    ensures MoveTask(c, s, id).pending == s.pending
  {
  }

  lemma {:induction false} ReadOrigin(
    c: ChannelId, states: seq<State>, actions: seq<Action>, n: nat, artifact: Digest) returns (r: nat)
    requires IsRun(c, states, actions) && n < |states| && artifact in states[n].pending
    ensures ReadAt(states, actions, r, n, artifact)
    ensures states[n].pending[artifact] == ReadBy(c, states[r], actions[r])
  {
    assert n > 0;
    assert StepAt(c, states, actions, n - 1);
    PendingStep(c, states[n - 1], actions[n - 1], artifact);
    if actions[n - 1].ReadRequeue? && actions[n - 1].artifact == artifact {
      r := n - 1;
    } else {
      r := ReadOrigin(c, states, actions, n - 1, artifact);
    }
  }

  lemma {:induction false} ReadStays(
    c: ChannelId, states: seq<State>, actions: seq<Action>, r: nat, n: nat, artifact: Digest)
    requires IsRun(c, states, actions) && ReadAt(states, actions, r, n, artifact)
    ensures artifact in states[n].pending && states[n].pending[artifact] == ReadBy(c, states[r], actions[r])
    decreases n
  {
    assert StepAt(c, states, actions, n - 1);
    PendingStep(c, states[n - 1], actions[n - 1], artifact);
    if r < n - 1 {
      ReadStays(c, states, actions, r, n - 1, artifact);
    }
  }

  /** Step `v` writes back a record that its requeue found before the wipe at step `w`. */
  ghost predicate Straddles(c: ChannelId, states: seq<State>, actions: seq<Action>, w: nat, v: nat)
    requires |states| == |actions| + 1
  {
    && v < |actions| && actions[v].WriteRequeue?
    && exists r: nat :: r < w && ReadAt(states, actions, r, v, actions[v].artifact) &&
                        ReadBy(c, states[r], actions[r]).found.Some?
  }

  // ----- rows -----

  lemma MoveKeepsTables(c: ChannelId, s: State, id: nat)
    requires id < |s.tasks| && !Fences(s.tasks[id]) && !s.tasks[id].point.Exclusive?
    ensures MoveTask(c, s, id).tables == s.tables
  {
  }

  lemma FinishRows(c: ChannelId, s: State, id: nat, stage: nat)
    requires id < |s.tasks| && NoRows(c, s.tables)
    ensures NoRows(c, Finish(c, s, id, stage).tables)
  {
    RegistryWrites(c, s.tables, ChannelRecord(0, Active));
  }

  lemma MoveRows(c: ChannelId, s: State, id: nat)
    requires id < |s.tasks| && NoRows(c, s.tables) && !Fences(s.tasks[id])
    ensures NoRows(c, MoveTask(c, s, id).tables)
  {
    if s.tasks[id].point.Exclusive? {
      FinishRows(c, s, id, s.tasks[id].point.stage);
    } else {
      MoveKeepsTables(c, s, id);
    }
  }

  predicate Restores(s: State, a: Action) {
    a.WriteRequeue? && a.artifact in s.pending && s.pending[a.artifact].found.Some?
  }

  /** With nobody fenced, rows come back by the write of a requeue that found its record, and by nothing else. */
  lemma RowsStep(c: ChannelId, s: State, a: Action)
    requires Inv(c, s) && Enabled(c, s, a) && NoRows(c, s.tables)
    requires forall i :: 0 <= i < |s.tasks| ==> !Fences(s.tasks[i])
    ensures NoRows(c, Step(c, s, a).tables) <==> !Restores(s, a)
  {
    match a {
      case Move(id) => MoveRows(c, s, id);
      case Elsewhere(op) => RowsStayAbsent(c, s.tables, op);
      case WriteRequeue(artifact) => WriteRestores(c, s.tables, artifact, s.pending[artifact]);
      case _ =>
    }
  }

  lemma WriteRestores(c: ChannelId, t: Tables, artifact: Digest, p: Pending)
    requires NoRows(c, t)
    ensures NoRows(c, Written(c, t, artifact, p)) <==> p.found.None?
  {
    WrittenIs(c, t, artifact, p);
    if p.found.Some? {
      assert ArtifactKey(c, artifact) in Written(c, t, artifact, p).artifacts;
    }
  }

  ghost predicate RowsGone(c: ChannelId, states: seq<State>, w: nat, n: nat)
    requires n < |states|
  {
    forall m :: w < m <= n ==> NoRows(c, states[m].tables)
  }

  ghost predicate NoneStraddles(c: ChannelId, states: seq<State>, actions: seq<Action>, w: nat, n: nat)
    requires |states| == |actions| + 1
  {
    forall v :: w < v < n ==> !Straddles(c, states, actions, w, v)
  }

  lemma WipeClears(c: ChannelId, states: seq<State>, actions: seq<Action>, w: nat, id: nat)
    requires IsRun(c, states, actions) && w < |actions| && Wipes(states[w], actions[w], id)
    ensures NoRows(c, states[w + 1].tables)
  {
    assert StepAt(c, states, actions, w);
    RegistryWrites(c, states[w].tables, ChannelRecord(0, Active));
  }

  lemma FoundIsRow(c: ChannelId, s: State, a: Action)
    requires a.ReadRequeue? && ReadBy(c, s, a).found.Some?
    ensures !NoRows(c, s.tables)
  {
    assert ArtifactKey(c, a.artifact) in s.tables.artifacts;
  }

  /** After the wipe, while rows are gone, a requeue finds its record only if it read before the wipe. */
  lemma RestoringStraddles(c: ChannelId, states: seq<State>, actions: seq<Action>, w: nat, n: nat)
    requires IsRun(c, states, actions) && w < n < |actions| && actions[w].Move? && RowsGone(c, states, w, n)
    ensures Restores(states[n], actions[n]) <==> Straddles(c, states, actions, w, n)
  {
    assert StepAt(c, states, actions, n);
    if Restores(states[n], actions[n]) {
      var artifact := actions[n].artifact;
      var r := ReadOrigin(c, states, actions, n, artifact);
      FoundIsRow(c, states[r], actions[r]);
      assert r <= w;
      assert r < w && ReadAt(states, actions, r, n, artifact);
    }
    if Straddles(c, states, actions, w, n) {
      var artifact := actions[n].artifact;
      var r: nat :| r < w && ReadAt(states, actions, r, n, artifact) &&
                    ReadBy(c, states[r], actions[r]).found.Some?;
      ReadStays(c, states, actions, r, n, artifact);
    }
  }

  lemma RowsAt(c: ChannelId, states: seq<State>, actions: seq<Action>, w: nat, f: nat, n: nat)
    requires IsRun(c, states, actions) && Deletes(states, actions, w, f) && w < n < |actions|
    requires RowsGone(c, states, w, n)
    ensures NoRows(c, states[n + 1].tables) <==> !Straddles(c, states, actions, w, n)
  {
    assert NoRows(c, states[n].tables);
    assert StepAt(c, states, actions, n);
    RunKeeps(c, states, actions, n);
    NoneFenced(c, states, actions, w, f, n);
    RowsStep(c, states[n], actions[n]);
    RestoringStraddles(c, states, actions, w, n);
  }

  /**
   * For every completed deletion: the channel's artifact, reference and queue rows are absent in every
   * state from its wipe on exactly as long as no requeue that read its record before the wipe has
   * written it back since.
   */
  lemma {:induction false} RowsGoneExactly(
    c: ChannelId, states: seq<State>, actions: seq<Action>, w: nat, f: nat, n: nat)
    requires IsRun(c, states, actions) && Deletes(states, actions, w, f) && w < n < |states|
    ensures RowsGone(c, states, w, n) <==> NoneStraddles(c, states, actions, w, n)
    decreases n
  {
    if n == w + 1 {
      WipeClears(c, states, actions, w, actions[f].id);
    } else {
      RowsGoneExactly(c, states, actions, w, f, n - 1);
      if RowsGone(c, states, w, n - 1) {
        RowsAt(c, states, actions, w, f, n - 1);
      }
      GoneUnrolled(c, states, actions, w, n - 1);
    }
  }

  lemma GoneUnrolled(c: ChannelId, states: seq<State>, actions: seq<Action>, w: nat, n: nat)
    requires |states| == |actions| + 1 && w < n < |actions|
    ensures RowsGone(c, states, w, n + 1) <==> RowsGone(c, states, w, n) && NoRows(c, states[n + 1].tables)
    ensures NoneStraddles(c, states, actions, w, n + 1) <==>
            NoneStraddles(c, states, actions, w, n) && !Straddles(c, states, actions, w, n)
  {
  }

  /**
   * In every interleaving, with cancelled tasks, forgotten gates and restarts: once a deletion has
   * completed, the registry record and the final files of the channel are absent forever. Its rows
   * have been absent ever since its wipe exactly when no requeue straddles that wipe.
   */
  lemma DeletedForever(c: ChannelId, states: seq<State>, actions: seq<Action>, f: nat, n: nat) returns (w: nat)
    requires IsRun(c, states, actions) && f < n < |states| && CompletesDeletion(states[f], actions[f])
    ensures c !in states[n].tables.channels && NoFiles(c, states[n].files)
    ensures Deletes(states, actions, w, f)
    ensures RowsGone(c, states, w, n) <==> NoneStraddles(c, states, actions, w, n)
  {
    w := DeletionHasWipe(c, states, actions, f);
    FinishedAfter(c, states, actions, f, n);
    RunKeeps(c, states, actions, n);
    RowsGoneExactly(c, states, actions, w, f, n);
  }

  // ----- a requeue that straddles the wipe -----

  function StraddlingActions(artifact: Digest, m: ArtifactMetadata, next: U64): seq<Action> {
    [ReadRequeue(artifact, m.eligibleAt, next), Spawn(Delete),
     Move(0), Move(0), Move(0), Move(0), Move(0), Move(0), Move(0), Move(0), Move(0), Move(0), Move(0),
     WriteRequeue(artifact)]
  }

  /** One record and its row, under a registry entry. */
  function OneRow(
    c: ChannelId, artifact: Digest, m: ArtifactMetadata, channels: map<ChannelId, ChannelRecord>): Tables
  {
    Tables(map[ArtifactKey(c, artifact) := m], map[], {QueueRow(c, m.eligibleAt, artifact)}, channels)
  }

  /** One delete task. */
  function Solo(t: Tables, point: Point, entry: Option<nat>, finished: bool, pending: map<Digest, Pending>): State {
    State(t, {}, [Task(Delete, point, 0)], entry, if entry.None? && !finished then 0 else 1, finished, false, pending)
  }

  function StraddlingState(
    c: ChannelId, artifact: Digest, m: ArtifactMetadata, next: U64, expiry: U64, k: nat): State
    requires k <= 14
  {
    var seen, marked := ChannelRecord(expiry, Active), ChannelRecord(expiry, Lifecycle.Deleting);
    var full, condemned := OneRow(c, artifact, m, map[c := seen]), OneRow(c, artifact, m, map[c := marked]);
    var wiped := Tables(map[], map[], {}, map[c := marked]);
    var pending := map[artifact := Pending(m.eligibleAt, next, Some(m))];
    match k
    case 0 => State(full, {}, [], None, 0, false, false, map[])
    case 1 => State(full, {}, [], None, 0, false, false, pending)
    case 2 => Solo(full, Begin, None, false, pending)
    case 3 => Solo(full, Authorized, None, false, pending)
    case 4 => Solo(full, HasGate, Some(0), false, pending)
    case 5 => Solo(full, Locked, Some(0), false, pending)
    case 6 => Solo(full, Fenced(seen), Some(0), false, pending)
    case 7 => Solo(condemned, Condemned, Some(0), false, pending)
    case 8 => Solo(condemned, HasWriteGate, Some(0), false, pending)
    case 9 => Solo(condemned, Exclusive(0), Some(0), false, pending)
    case 10 => Solo(wiped, Exclusive(1), Some(0), false, pending)
    case 11 => Solo(wiped, Exclusive(2), Some(0), false, pending)
    case 12 => Solo(EMPTY, Exclusive(3), Some(0), true, pending)
    case 13 => Solo(EMPTY, Done, None, true, pending)
    case 14 => Solo(OneRow(c, artifact, m.(eligibleAt := next), map[]), Done, None, true, map[])
  }

  ghost predicate StraddlingStep(
    c: ChannelId, artifact: Digest, m: ArtifactMetadata, next: U64, expiry: U64, k: nat)
    requires k < 14
  {
    && Enabled(c, StraddlingState(c, artifact, m, next, expiry, k), StraddlingActions(artifact, m, next)[k])
    && StraddlingState(c, artifact, m, next, expiry, k + 1)
       == Step(c, StraddlingState(c, artifact, m, next, expiry, k), StraddlingActions(artifact, m, next)[k])
  }

  lemma StraddlingStarts(c: ChannelId, artifact: Digest, m: ArtifactMetadata, next: U64, expiry: U64, k: nat)
    requires c != NIL && k < 6
    ensures StraddlingStep(c, artifact, m, next, expiry, k)
  {
  }

  lemma StraddlingMarks(c: ChannelId, artifact: Digest, m: ArtifactMetadata, next: U64, expiry: U64)
    ensures StraddlingStep(c, artifact, m, next, expiry, 6)
  {
    RegistryWrites(c, OneRow(c, artifact, m, map[c := ChannelRecord(expiry, Active)]),
                   ChannelRecord(expiry, Lifecycle.Deleting));
  }

  lemma StraddlingEnters(c: ChannelId, artifact: Digest, m: ArtifactMetadata, next: U64, expiry: U64, k: nat)
    requires 7 <= k < 9
    ensures StraddlingStep(c, artifact, m, next, expiry, k)
  {
  }

  lemma StraddlingWipes(c: ChannelId, artifact: Digest, m: ArtifactMetadata, next: U64, expiry: U64)
    ensures StraddlingStep(c, artifact, m, next, expiry, 9)
  {
    var t := OneRow(c, artifact, m, map[c := ChannelRecord(expiry, Lifecycle.Deleting)]);
    RegistryWrites(c, t, ChannelRecord(expiry, Active));
    assert WithoutChannel(t, c) == Tables(map[], map[], {}, t.channels);
  }

  lemma StraddlingFinishes(c: ChannelId, artifact: Digest, m: ArtifactMetadata, next: U64, expiry: U64, k: nat)
    requires 10 <= k < 13
    ensures StraddlingStep(c, artifact, m, next, expiry, k)
  {
    var t := Tables(map[], map[], {}, map[c := ChannelRecord(expiry, Lifecycle.Deleting)]);
    RegistryWrites(c, t, ChannelRecord(expiry, Active));
    assert t.channels - {c} == map[];
  }

  lemma StraddlingWrites(c: ChannelId, artifact: Digest, m: ArtifactMetadata, next: U64, expiry: U64)
    ensures StraddlingStep(c, artifact, m, next, expiry, 13)
  {
    WrittenIs(c, EMPTY, artifact, Pending(m.eligibleAt, next, Some(m)));
  }

  lemma StraddlingAt(c: ChannelId, artifact: Digest, m: ArtifactMetadata, next: U64, expiry: U64, k: nat)
    requires c != NIL && k < 14
    ensures StraddlingStep(c, artifact, m, next, expiry, k)
  {
    if k < 6 {
      StraddlingStarts(c, artifact, m, next, expiry, k);
    } else if k == 6 {
      StraddlingMarks(c, artifact, m, next, expiry);
    } else if k < 9 {
      StraddlingEnters(c, artifact, m, next, expiry, k);
    } else if k == 9 {
      StraddlingWipes(c, artifact, m, next, expiry);
    } else if k < 13 {
      StraddlingFinishes(c, artifact, m, next, expiry, k);
    } else {
      StraddlingWrites(c, artifact, m, next, expiry);
    }
  }

  lemma StraddlingIsInitial(c: ChannelId, artifact: Digest, m: ArtifactMetadata, next: U64, expiry: U64)
    ensures Initial(c, StraddlingState(c, artifact, m, next, expiry, 0))
  {
  }

  /**
   * For any artifact of any channel: a requeue reads, the channel is deleted completely, and the
   * requeue's write puts a record and a queue row of the deleted channel back.
   */
  lemma StraddlingRun(c: ChannelId, artifact: Digest, m: ArtifactMetadata, next: U64, expiry: U64)
    returns (states: seq<State>)
    requires c != NIL
    ensures IsRun(c, states, StraddlingActions(artifact, m, next))
    ensures CompletesDeletion(states[11], Move(0)) && c !in states[14].tables.channels
    ensures ArtifactKey(c, artifact) in states[14].tables.artifacts
    ensures QueueRow(c, next, artifact) in states[14].tables.eviction
  {
    states := seq(15, k requires 0 <= k < 15 => StraddlingState(c, artifact, m, next, expiry, k));
    forall k | 0 <= k < 14 ensures StepAt(c, states, StraddlingActions(artifact, m, next), k) {
      StraddlingAt(c, artifact, m, next, expiry, k);
    }
    StraddlingIsInitial(c, artifact, m, next, expiry);
  }
}
