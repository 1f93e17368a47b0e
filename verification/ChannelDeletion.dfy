/**
 * Channel deletion against every other task (src/channel/service.rs, src/cache/service.rs:424-527).
 * The machine follows one channel `c`; other channels appear only as steps that touch other keys.
 * One step is one metadata call, one file operation or one gate operation; a requeue, which reads a
 * record and writes it back without gate or transaction, is two. A gate or an artifact's stripe is
 * held exactly while some task stands at a program point that holds it.
 */
module ChannelDeletion {
  import opened Words
  import opened Bytes
  import opened Identity
  import opened Store

  datatype Goal =
    | Publish(artifact: Digest, metadata: ArtifactMetadata, reference: Option<(Text, ReferenceRecord)>)
    | Bind(name: Text, record: ReferenceRecord)
    | Unbind(unbound: Text)
    | UpdateExpiry(expirySeconds: U64)
    | Delete

  datatype Point =
    | Begin
    | Authorized                     // passed the check made before the gate is looked up
    | HasGate                        // holds a clone of the gate
    | Locked                         // holds the gate shared, not rechecked yet
    | Fenced(seen: ChannelRecord)    // holds the gate shared and has rechecked the record
    | FilePublished                  // fenced, body renamed into place, metadata not written
    | Condemned                      // stored Deleting and dropped the lease
    | HasWriteGate                   // looked the gate up again
    | Exclusive(stage: nat)          // holds the gate exclusively, inside `finish_deletion`
    | Done

  datatype Task = Task(goal: Goal, point: Point, gate: nat)

  /** A requeue between its read and its write: the record it found, if it had the expected deadline. */
  datatype Pending = Pending(oldEligibleAt: U64, newEligibleAt: U64, found: Option<ArtifactMetadata>)

  /**
   * `entry` is the gate registered for the channel, `finished` records that the channel's registry
   * row has been deleted, `overwritten` that an expiry update came after the last Deleting mark;
   * `pending` holds the requeues under way, by artifact.
   */
  datatype State = State(
    tables: Tables, files: set<ArtifactKey>, tasks: seq<Task>, entry: Option<nat>, nextGate: nat,
    finished: bool, overwritten: bool, pending: map<Digest, Pending>)

  datatype Action =
    | Spawn(goal: Goal)
    | Move(id: nat)
    | Cancel(id: nat)
    | Elsewhere(op: Operation)       // other channels, and the unfenced eviction and self-heal calls
    | ReadRequeue(artifact: Digest, oldEligibleAt: U64, newEligibleAt: U64)
    | WriteRequeue(artifact: Digest)
    | FailRequeue(artifact: Digest)
    | AddFile(key: ArtifactKey)
    | RemoveFile(key: ArtifactKey)
    | Restart                        // process crash and startup

  predicate Shares(t: Task) {
    t.point.Locked? || t.point.Fenced? || t.point.FilePublished?
  }

  predicate Fences(t: Task) {
    t.point.Fenced? || t.point.FilePublished?
  }

  predicate UsesGate(t: Task) {
    t.point.HasGate? || Shares(t) || t.point.HasWriteGate? || t.point.Exclusive?
  }

  predicate Leases(g: Goal) {
    g.UpdateExpiry? || g.Delete?
  }

  predicate IsActive(c: ChannelId, t: Tables) {
    c in t.channels && t.channels[c].state.Active?
  }

  predicate IsDeleting(c: ChannelId, t: Tables) {
    c in t.channels && t.channels[c].state.Deleting?
  }

  /**
   * Eviction and self-heal run without the gate, under the stripe. They read and write separately
   * too, but their batches only delete, so it makes no difference when the read happened.
   */
  predicate Unfenced(op: Operation) {
    op.Evict? || op.RemoveArtifact?
  }

  predicate Publishes(t: Task, artifact: Digest) {
    t.point.FilePublished? && t.goal.Publish? && t.goal.artifact == artifact
  }

  predicate StripeFree(s: State, artifact: Digest) {
    artifact !in s.pending && forall i :: 0 <= i < |s.tasks| ==> !Publishes(s.tasks[i], artifact)
  }

  predicate Enabled(c: ChannelId, s: State, a: Action) {
    match a
    case Spawn(goal) => goal.Delete? ==> c != NIL
    case Cancel(id) => id < |s.tasks|
    case Elsewhere(op) => op.channel != c || (Unfenced(op) && StripeFree(s, op.artifact))
    case ReadRequeue(artifact, _, _) => StripeFree(s, artifact)
    case WriteRequeue(artifact) => artifact in s.pending
    case FailRequeue(artifact) => artifact in s.pending
    case AddFile(key) => key.channel != c
    case RemoveFile(key) => true
    case Restart => true
    case Move(id) =>
      && id < |s.tasks| && !s.tasks[id].point.Done?
      && (s.tasks[id].point.HasGate? ==>
            forall i :: 0 <= i < |s.tasks| && s.tasks[i].gate == s.tasks[id].gate ==> !s.tasks[i].point.Exclusive?)
      && (s.tasks[id].point.HasWriteGate? ==>
            forall i :: 0 <= i < |s.tasks| && s.tasks[i].gate == s.tasks[id].gate ==>
              !s.tasks[i].point.Exclusive? && !Shares(s.tasks[i]))
      && (s.tasks[id].point.Fenced? && s.tasks[id].goal.Publish? ==> StripeFree(s, s.tasks[id].goal.artifact))
  }

  function At(s: State, id: nat, point: Point): State
    requires id < |s.tasks|
  {
    s.(tasks := s.tasks[id := s.tasks[id].(point := point)])
  }

  function With(s: State, op: Operation): State {
    s.(tables := Perform(s.tables, op))
  }

  /** What `requeue` reads, and the batch it then writes. */
  function Read(c: ChannelId, t: Tables, artifact: Digest, oldEligibleAt: U64, newEligibleAt: U64): Pending {
    var key := ArtifactKey(c, artifact);
    var current := key in t.artifacts && t.artifacts[key].eligibleAt == oldEligibleAt;
    Pending(oldEligibleAt, newEligibleAt, if current then Some(t.artifacts[key]) else None)
  }

  function BatchFrom(c: ChannelId, artifact: Digest, p: Pending): seq<Write> {
    if p.found.None? then []
    else
      [DeleteRow(QueueRow(c, p.oldEligibleAt, artifact)), PutRow(QueueRow(c, p.newEligibleAt, artifact)),
       PutArtifact(ArtifactKey(c, artifact), p.found.value.(eligibleAt := p.newEligibleAt))]
  }

  /** The batch is the one that the store's requeue computes from the tables that were read. */
  lemma BatchIsRequeue(c: ChannelId, t: Tables, artifact: Digest, oldEligibleAt: U64, newEligibleAt: U64)
    ensures BatchFrom(c, artifact, Read(c, t, artifact, oldEligibleAt, newEligibleAt))
         == BatchOf(t, Requeue(c, artifact, oldEligibleAt, newEligibleAt))
  {
  }

  function Written(c: ChannelId, t: Tables, artifact: Digest, p: Pending): Tables {
    ApplyBatch(t, BatchFrom(c, artifact, p))
  }

  /** Looks the gate up, creating it when the channel has none. */
  function TakeGate(s: State, id: nat, point: Point): State
    requires id < |s.tasks|
  {
    var gate := if s.entry.Some? then s.entry.value else s.nextGate;
    s.(tasks := s.tasks[id := Task(s.tasks[id].goal, point, gate)],
       entry := Some(gate),
       nextGate := if s.entry.Some? then s.nextGate else s.nextGate + 1)
  }

  /** The final mutation of a task that has rechecked the record under the shared gate. */
  function Mutate(c: ChannelId, s: State, id: nat): State
    requires id < |s.tasks| && Fences(s.tasks[id])
  {
    match s.tasks[id].goal
    case Publish(artifact, metadata, reference) =>
      if s.tasks[id].point.Fenced?
      then At(s, id, FilePublished).(files := s.files + {ArtifactKey(c, artifact)})
      else At(With(s, CommitPublication(c, artifact, metadata, reference)), id, Done)
    case Bind(name, record) => At(With(s, BindReference(c, name, record)), id, Done)
    case Unbind(name) => At(With(s, UnbindReference(c, name)), id, Done)
    case UpdateExpiry(expirySeconds) =>
      // Writes back the whole record it read, with the new expiry.
      if s.tasks[id].point.Fenced? then
        var updated := s.tasks[id].point.seen.(expirySeconds := expirySeconds);
        At(With(s, StoreChannel(c, updated)), id, Done).(overwritten := true)
      else At(s, id, Done)
    case Delete =>
      if s.tasks[id].point.Fenced? then
        var deleting := s.tasks[id].point.seen.(state := Deleting);
        At(With(s, StoreChannel(c, deleting)), id, Condemned).(overwritten := false)
      else At(s, id, Done)
  }

  /** The steps of `finish_deletion`, under the exclusive gate. */
  function Finish(c: ChannelId, s: State, id: nat, stage: nat): State
    requires id < |s.tasks|
  {
    match stage
    case 0 => At(With(s, DeleteChannelData(c)), id, Exclusive(1))
    case 1 => At(s, id, Exclusive(2)).(files := set k | k in s.files && k.channel != c)
    case 2 => At(With(s, FinishChannelDeletion(c)), id, Exclusive(3)).(finished := true)
    case _ => At(s, id, Done).(entry := None)
  }

  function MoveTask(c: ChannelId, s: State, id: nat): State
    requires id < |s.tasks|
  {
    match s.tasks[id].point
    case Begin =>
      if !Leases(s.tasks[id].goal) then TakeGate(s, id, HasGate)
      else if IsActive(c, s.tables) then At(s, id, Authorized)
      else At(s, id, Done)
    case Authorized => TakeGate(s, id, HasGate)
    case HasGate => At(s, id, Locked)
    case Locked => if IsActive(c, s.tables) then At(s, id, Fenced(s.tables.channels[c])) else At(s, id, Done)
    case Fenced(_) => Mutate(c, s, id)
    case FilePublished => Mutate(c, s, id)
    case Condemned => TakeGate(s, id, HasWriteGate)
    case HasWriteGate => At(s, id, Exclusive(0))
    case Exclusive(stage) => Finish(c, s, id, stage)
    case Done => s
  }

  function Step(c: ChannelId, s: State, a: Action): State
    requires Enabled(c, s, a)
  {
    match a
    case Spawn(goal) => s.(tasks := s.tasks + [Task(goal, Begin, 0)])
    case Move(id) => MoveTask(c, s, id)
    case Cancel(id) => At(s, id, Done)
    case Elsewhere(op) => With(s, op)
    case ReadRequeue(artifact, oldEligibleAt, newEligibleAt) =>
      s.(pending := s.pending[artifact := Read(c, s.tables, artifact, oldEligibleAt, newEligibleAt)])
    case WriteRequeue(artifact) =>
      s.(tables := Written(c, s.tables, artifact, s.pending[artifact]), pending := s.pending - {artifact})
    case FailRequeue(artifact) => s.(pending := s.pending - {artifact})
    case AddFile(key) => s.(files := s.files + {key})
    case RemoveFile(key) => s.(files := s.files - {key})
    case Restart =>
      // Gates, tasks and requeues are gone; a channel persisted as Deleting is resumed.
      if IsDeleting(c, s.tables)
      then s.(tasks := [Task(Delete, Condemned, 0)], entry := None, overwritten := false, pending := map[])
      else s.(tasks := [], entry := None, pending := map[])
  }

  // ----- absence -----

  ghost predicate NoRows(c: ChannelId, t: Tables) {
    && (forall k :: k in t.artifacts ==> k.channel != c)
    && (forall k :: k in t.references ==> k.channel != c)
    && (forall r :: r in t.eviction ==> r.channel != c)
  }

  ghost predicate NoFiles(c: ChannelId, files: set<ArtifactKey>) {
    forall k :: k in files ==> k.channel != c
  }

  /** Registry record, artifact, reference and queue rows and final files are all absent. */
  ghost predicate Gone(c: ChannelId, s: State) {
    c !in s.tables.channels && NoRows(c, s.tables) && NoFiles(c, s.files)
  }

  lemma UnfencedStaysAbsent(c: ChannelId, t: Tables, op: Operation)
    requires QueueExact(t) && NoRows(c, t) && Unfenced(op)
    ensures NoRows(c, Perform(t, op))
  {
    BatchUnrolled(t, BatchOf(t, op));
  }

  lemma WritesStayAbsent(c: ChannelId, t: Tables, op: Operation)
    requires NoRows(c, t) && op.channel != c && (op.CommitPublication? || op.Requeue?)
    ensures NoRows(c, Perform(t, op))
  {
    BatchUnrolled(t, BatchOf(t, op));
  }

  lemma RowsStayAbsent(c: ChannelId, t: Tables, op: Operation)
    requires QueueExact(t) && NoRows(c, t) && (op.channel != c || Unfenced(op))
    ensures NoRows(c, Perform(t, op))
  {
    if Unfenced(op) {
      UnfencedStaysAbsent(c, t, op);
    } else if op.CommitPublication? || op.Requeue? {
      WritesStayAbsent(c, t, op);
    } else {
      SmallStaysAbsent(c, t, op);
    }
  }

  lemma SmallStaysAbsent(c: ChannelId, t: Tables, op: Operation)
    requires NoRows(c, t) && op.channel != c && !op.CommitPublication? && !op.Requeue? && !Unfenced(op)
    ensures NoRows(c, Perform(t, op))
  {
    BatchUnrolled(t, BatchOf(t, op));
  }

  lemma RecordStays(c: ChannelId, t: Tables, op: Operation)
    requires op.channel != c || !(op.StoreChannel? || op.FinishChannelDeletion?)
    ensures c in Perform(t, op).channels <==> c in t.channels
    ensures c in t.channels ==> Perform(t, op).channels[c] == t.channels[c]
  {
    BatchUnrolled(t, BatchOf(t, op));
  }

  predicate NamesArtifact(op: Operation) {
    op.CommitPublication? || op.RemoveArtifact? || op.Requeue? || op.Evict?
  }

  /** An operation on another channel or artifact leaves an artifact's record as it is, or wipes it. */
  lemma ArtifactStays(c: ChannelId, t: Tables, op: Operation, artifact: Digest)
    requires op.channel != c || !NamesArtifact(op) || op.artifact != artifact
    ensures var key := ArtifactKey(c, artifact);
            key in Perform(t, op).artifacts ==> key in t.artifacts && Perform(t, op).artifacts[key] == t.artifacts[key]
  {
    BatchUnrolled(t, BatchOf(t, op));
  }

  lemma RegistryWrites(c: ChannelId, t: Tables, record: ChannelRecord)
    ensures Perform(t, StoreChannel(c, record)) == t.(channels := t.channels[c := record])
    ensures Perform(t, FinishChannelDeletion(c)) == t.(channels := t.channels - {c})
    ensures Perform(t, DeleteChannelData(c)) == WithoutChannel(t, c)
  {
    BatchUnrolled(t, BatchOf(t, StoreChannel(c, record)));
    BatchUnrolled(t, BatchOf(t, FinishChannelDeletion(c)));
    BatchUnrolled(t, BatchOf(t, DeleteChannelData(c)));
  }

  // ----- the invariant -----

  /** The exclusive gate excludes every other holder of the same gate. */
  ghost predicate GatesHold(tasks: seq<Task>) {
    forall i, j ::
      0 <= i < |tasks| && 0 <= j < |tasks| && i != j && tasks[i].point.Exclusive? && tasks[i].gate == tasks[j].gate ==>
        !Shares(tasks[j]) && !tasks[j].point.Exclusive?
  }

  /** Until the deletion finishes nobody forgets the gate, so all tasks use the registered one. */
  ghost predicate OneGate(s: State) {
    !s.finished ==> forall i :: 0 <= i < |s.tasks| && UsesGate(s.tasks[i]) ==> s.entry == Some(s.tasks[i].gate)
  }

  /** Behind the exclusive gate no file comes back, and the record stays condemned unless overwritten. */
  ghost predicate Progress(c: ChannelId, s: State) {
    !s.finished ==>
      && (forall i :: 0 <= i < |s.tasks| && s.tasks[i].point.Exclusive? ==>
            (s.tasks[i].point.stage >= 2 ==> NoFiles(c, s.files)) && s.tasks[i].point.stage <= 2)
      && (!s.overwritten && (exists i :: 0 <= i < |s.tasks| && Convicted(s.tasks[i])) ==> IsDeleting(c, s.tables))
      && (s.overwritten ==> IsActive(c, s.tables))
  }

  predicate Convicted(t: Task) {
    t.point.Condemned? || t.point.HasWriteGate? || t.point.Exclusive?
  }

  ghost predicate Settled(c: ChannelId, s: State) {
    s.finished ==>
      && c !in s.tables.channels && NoFiles(c, s.files)
      && forall i :: 0 <= i < |s.tasks| ==> !Fences(s.tasks[i])
  }

  /** A requeue still finds the record it read, unless the record has been wiped. */
  ghost predicate PendingOk(c: ChannelId, t: Tables, pending: map<Digest, Pending>) {
    forall a :: a in pending && pending[a].found.Some? ==>
      && pending[a].found.value.eligibleAt == pending[a].oldEligibleAt
      && (ArtifactKey(c, a) in t.artifacts ==> t.artifacts[ArtifactKey(c, a)] == pending[a].found.value)
  }

  /** Stripes keep requeues and publications of one artifact apart. */
  ghost predicate StripesApart(s: State) {
    forall i :: 0 <= i < |s.tasks| && s.tasks[i].point.FilePublished? && s.tasks[i].goal.Publish? ==>
      s.tasks[i].goal.artifact !in s.pending
  }

  /** A fenced record is what the recheck read: active. */
  ghost predicate FencedActive(tasks: seq<Task>) {
    forall i :: 0 <= i < |tasks| && tasks[i].point.Fenced? ==> tasks[i].point.seen.state.Active?
  }

  ghost predicate Inv(c: ChannelId, s: State) {
    && QueueExact(s.tables) && GatesHold(s.tasks) && OneGate(s)
    && Progress(c, s) && Settled(c, s) && FencedActive(s.tasks)
    && PendingOk(c, s.tables, s.pending) && StripesApart(s)
  }

  /** While a deletion is inside `finish_deletion`, before it finishes, nobody else is fenced. */
  lemma ExclusiveAlone(c: ChannelId, s: State, id: nat, other: nat)
    requires Inv(c, s) && !s.finished && id < |s.tasks| && other < |s.tasks|
    requires s.tasks[id].point.Exclusive?
    ensures !Shares(s.tasks[other]) && (other != id ==> !s.tasks[other].point.Exclusive?)
  {
    if other != id && (Shares(s.tasks[other]) || s.tasks[other].point.Exclusive?) {
      assert UsesGate(s.tasks[other]) && UsesGate(s.tasks[id]);
    }
  }

  // ----- steps that only move one task -----

  lemma RelabelKeeps(c: ChannelId, s: State, id: nat, point: Point)
    requires Inv(c, s) && id < |s.tasks|
    requires
      || point.Done? || point.Authorized?
      || (point.Locked? && s.tasks[id].point.HasGate? && Enabled(c, s, Move(id)))
      || (point.Fenced? && s.tasks[id].point.Locked? && IsActive(c, s.tables) && point.seen == s.tables.channels[c])
      || (point == Exclusive(0) && s.tasks[id].point.HasWriteGate? && Enabled(c, s, Move(id)))
    ensures Inv(c, At(s, id, point))
  {
    var next := At(s, id, point);
    assert forall i :: 0 <= i < |s.tasks| && i != id ==> next.tasks[i] == s.tasks[i];
    if Convicted(next.tasks[id]) {
      assert Convicted(s.tasks[id]);
    }
  }

  lemma TakeGateKeeps(c: ChannelId, s: State, id: nat, point: Point)
    requires Inv(c, s) && id < |s.tasks| && !UsesGate(s.tasks[id])
    requires point.HasGate? || (point.HasWriteGate? && s.tasks[id].point.Condemned?)
    ensures Inv(c, TakeGate(s, id, point))
  {
    var next := TakeGate(s, id, point);
    assert forall i :: 0 <= i < |s.tasks| && i != id ==> next.tasks[i] == s.tasks[i];
    if Convicted(next.tasks[id]) {
      assert Convicted(s.tasks[id]);
    }
  }

  // ----- fenced mutations -----

  lemma FencedMeansOpen(c: ChannelId, s: State, id: nat)
    requires Inv(c, s) && id < |s.tasks| && Fences(s.tasks[id])
    ensures !s.finished && forall i :: 0 <= i < |s.tasks| ==> !s.tasks[i].point.Exclusive?
  {
    if i :| 0 <= i < |s.tasks| && s.tasks[i].point.Exclusive? {
      ExclusiveAlone(c, s, i, id);
    }
  }

  lemma PendingStays(c: ChannelId, t: Tables, op: Operation, pending: map<Digest, Pending>)
    requires PendingOk(c, t, pending)
    requires op.channel != c || !NamesArtifact(op) || op.artifact !in pending
    ensures PendingOk(c, Perform(t, op), pending)
  {
    forall a | a in pending && pending[a].found.Some?
      ensures ArtifactKey(c, a) in Perform(t, op).artifacts ==>
                Perform(t, op).artifacts[ArtifactKey(c, a)] == pending[a].found.value
    {
      ArtifactStays(c, t, op, a);
    }
  }

  lemma WriteKeeps(c: ChannelId, s: State, op: Operation)
    requires Inv(c, s) && !s.finished && !op.StoreChannel? && !op.FinishChannelDeletion?
    requires op.channel != c || !NamesArtifact(op) || op.artifact !in s.pending
    requires forall i :: 0 <= i < |s.tasks| ==> !s.tasks[i].point.Exclusive?
    ensures Inv(c, With(s, op))
  {
    RecordStays(c, s.tables, op);
    PerformKeepsQueue(s.tables, op);
    PendingStays(c, s.tables, op, s.pending);
  }

  lemma StoreActiveKeeps(c: ChannelId, s: State, id: nat, record: ChannelRecord)
    requires Inv(c, s) && id < |s.tasks| && Fences(s.tasks[id]) && record.state.Active?
    ensures Inv(c, At(With(s, StoreChannel(c, record)), id, Done).(overwritten := true))
  {
    FencedMeansOpen(c, s, id);
    RegistryWrites(c, s.tables, record);
    PendingStays(c, s.tables, StoreChannel(c, record), s.pending);
    PerformKeepsQueue(s.tables, StoreChannel(c, record));
  }

  lemma StoreDeletingKeeps(c: ChannelId, s: State, id: nat, record: ChannelRecord)
    requires Inv(c, s) && id < |s.tasks| && Fences(s.tasks[id]) && record.state.Deleting?
    ensures Inv(c, At(With(s, StoreChannel(c, record)), id, Condemned).(overwritten := false))
  {
    FencedMeansOpen(c, s, id);
    RegistryWrites(c, s.tables, record);
    PendingStays(c, s.tables, StoreChannel(c, record), s.pending);
    PerformKeepsQueue(s.tables, StoreChannel(c, record));
  }

  lemma PublishFileKeeps(c: ChannelId, s: State, id: nat, key: ArtifactKey)
    requires Inv(c, s) && id < |s.tasks| && s.tasks[id].point.Fenced?
    requires s.tasks[id].goal.Publish? ==> s.tasks[id].goal.artifact !in s.pending
    ensures Inv(c, At(s, id, FilePublished).(files := s.files + {key}))
  {
    FencedMeansOpen(c, s, id);
    var next := At(s, id, FilePublished).(files := s.files + {key});
    assert forall i :: 0 <= i < |s.tasks| && i != id ==> next.tasks[i] == s.tasks[i];
  }

  lemma MutateKeeps(c: ChannelId, s: State, id: nat)
    requires Inv(c, s) && id < |s.tasks| && Fences(s.tasks[id]) && Enabled(c, s, Move(id))
    ensures Inv(c, Mutate(c, s, id))
  {
    FencedMeansOpen(c, s, id);
    var t := s.tasks[id];
    match t.goal
    case Publish(artifact, metadata, reference) =>
      if t.point.Fenced? {
        PublishFileKeeps(c, s, id, ArtifactKey(c, artifact));
      } else {
        WriteKeeps(c, s, CommitPublication(c, artifact, metadata, reference));
        RelabelKeeps(c, With(s, CommitPublication(c, artifact, metadata, reference)), id, Done);
      }
    case Bind(name, record) =>
      WriteKeeps(c, s, BindReference(c, name, record));
      RelabelKeeps(c, With(s, BindReference(c, name, record)), id, Done);
    case Unbind(name) =>
      WriteKeeps(c, s, UnbindReference(c, name));
      RelabelKeeps(c, With(s, UnbindReference(c, name)), id, Done);
    case UpdateExpiry(expirySeconds) =>
      if t.point.Fenced? {
        StoreActiveKeeps(c, s, id, t.point.seen.(expirySeconds := expirySeconds));
      } else {
        RelabelKeeps(c, s, id, Done);
      }
    case Delete =>
      if t.point.Fenced? {
        StoreDeletingKeeps(c, s, id, t.point.seen.(state := Deleting));
      } else {
        RelabelKeeps(c, s, id, Done);
      }
  }

  // ----- the deletion itself -----

  lemma AloneInside(c: ChannelId, s: State, id: nat)
    requires Inv(c, s) && id < |s.tasks| && s.tasks[id].point.Exclusive? && !s.finished
    ensures Convicted(s.tasks[id])
    ensures forall i :: 0 <= i < |s.tasks| ==> !Shares(s.tasks[i]) && (i != id ==> !s.tasks[i].point.Exclusive?)
  {
    forall i | 0 <= i < |s.tasks| ensures !Shares(s.tasks[i]) && (i != id ==> !s.tasks[i].point.Exclusive?) {
      ExclusiveAlone(c, s, id, i);
    }
  }

  lemma WipeKeeps(c: ChannelId, s: State, id: nat)
    requires Inv(c, s) && id < |s.tasks| && s.tasks[id].point == Exclusive(0)
    ensures Inv(c, Finish(c, s, id, 0))
  {
    if !s.finished {
      AloneInside(c, s, id);
    }
    RegistryWrites(c, s.tables, ChannelRecord(0, Active));
    PendingStays(c, s.tables, DeleteChannelData(c), s.pending);
    PerformKeepsQueue(s.tables, DeleteChannelData(c));
  }

  lemma RemoveFilesKeeps(c: ChannelId, s: State, id: nat)
    requires Inv(c, s) && id < |s.tasks| && s.tasks[id].point == Exclusive(1)
    ensures Inv(c, Finish(c, s, id, 1))
  {
    if !s.finished {
      AloneInside(c, s, id);
    }
  }

  lemma DeleteRecordKeeps(c: ChannelId, s: State, id: nat)
    requires Inv(c, s) && id < |s.tasks| && s.tasks[id].point == Exclusive(2)
    ensures Inv(c, Finish(c, s, id, 2))
  {
    if !s.finished {
      AloneInside(c, s, id);
    }
    RegistryWrites(c, s.tables, ChannelRecord(0, Active));
    PendingStays(c, s.tables, FinishChannelDeletion(c), s.pending);
    PerformKeepsQueue(s.tables, FinishChannelDeletion(c));
  }

  lemma ForgetKeeps(c: ChannelId, s: State, id: nat)
    requires Inv(c, s) && id < |s.tasks| && s.tasks[id].point.Exclusive? && s.tasks[id].point.stage > 2
    ensures Inv(c, At(s, id, Done).(entry := None))
  {
  }

  lemma FinishKeeps(c: ChannelId, s: State, id: nat)
    requires Inv(c, s) && id < |s.tasks| && s.tasks[id].point.Exclusive?
    ensures Inv(c, Finish(c, s, id, s.tasks[id].point.stage))
  {
    var stage := s.tasks[id].point.stage;
    if stage == 0 {
      WipeKeeps(c, s, id);
    } else if stage == 1 {
      RemoveFilesKeeps(c, s, id);
    } else if stage == 2 {
      DeleteRecordKeeps(c, s, id);
    } else {
      ForgetKeeps(c, s, id);
    }
  }

  lemma MoveKeeps(c: ChannelId, s: State, id: nat)
    requires Inv(c, s) && Enabled(c, s, Move(id))
    ensures Inv(c, MoveTask(c, s, id))
  {
    match s.tasks[id].point
    case Begin =>
      if !Leases(s.tasks[id].goal) {
        TakeGateKeeps(c, s, id, HasGate);
      } else if IsActive(c, s.tables) {
        RelabelKeeps(c, s, id, Authorized);
      } else {
        RelabelKeeps(c, s, id, Done);
      }
    case Authorized => TakeGateKeeps(c, s, id, HasGate);
    case HasGate => RelabelKeeps(c, s, id, Locked);
    case Locked =>
      if IsActive(c, s.tables) {
        RelabelKeeps(c, s, id, Fenced(s.tables.channels[c]));
      } else {
        RelabelKeeps(c, s, id, Done);
      }
    case Fenced(_) => MutateKeeps(c, s, id);
    case FilePublished => MutateKeeps(c, s, id);
    case Condemned => TakeGateKeeps(c, s, id, HasWriteGate);
    case HasWriteGate => RelabelKeeps(c, s, id, Exclusive(0));
    case Exclusive(stage) => FinishKeeps(c, s, id);
    case Done =>
  }

  lemma ElsewhereKeeps(c: ChannelId, s: State, op: Operation)
    requires Inv(c, s) && Enabled(c, s, Elsewhere(op))
    ensures Inv(c, With(s, op))
  {
    RecordStays(c, s.tables, op);
    PerformKeepsQueue(s.tables, op);
    PendingStays(c, s.tables, op, s.pending);
  }

  // ----- the two halves of a requeue -----

  lemma ReadKeeps(c: ChannelId, s: State, artifact: Digest, oldEligibleAt: U64, newEligibleAt: U64)
    requires Inv(c, s) && Enabled(c, s, ReadRequeue(artifact, oldEligibleAt, newEligibleAt))
    ensures Inv(c, Step(c, s, ReadRequeue(artifact, oldEligibleAt, newEligibleAt)))
  {
    var r := Step(c, s, ReadRequeue(artifact, oldEligibleAt, newEligibleAt));
    assert StripesApart(r) by {
      forall i | 0 <= i < |s.tasks| && s.tasks[i].point.FilePublished? && s.tasks[i].goal.Publish?
        ensures s.tasks[i].goal.artifact !in r.pending
      {
        assert !Publishes(s.tasks[i], artifact);
      }
    }
  }

  /** What the late write leaves: the record and its row at the new deadline, nothing else changed. */
  lemma WrittenIs(c: ChannelId, t: Tables, artifact: Digest, p: Pending)
    ensures p.found.None? ==> Written(c, t, artifact, p) == t
    ensures p.found.Some? ==>
              Written(c, t, artifact, p) ==
              t.(eviction := t.eviction - {QueueRow(c, p.oldEligibleAt, artifact)}
                             + {QueueRow(c, p.newEligibleAt, artifact)},
                 artifacts := t.artifacts[ArtifactKey(c, artifact) := p.found.value.(eligibleAt := p.newEligibleAt)])
  {
    BatchUnrolled(t, BatchFrom(c, artifact, p));
  }

  lemma WrittenKeepsQueue(c: ChannelId, t: Tables, artifact: Digest, p: Pending)
    requires QueueExact(t)
    requires p.found.Some? ==>
               && p.found.value.eligibleAt == p.oldEligibleAt
               && (ArtifactKey(c, artifact) in t.artifacts ==> t.artifacts[ArtifactKey(c, artifact)] == p.found.value)
    ensures QueueExact(Written(c, t, artifact, p))
  {
    WrittenIs(c, t, artifact, p);
    var u := Written(c, t, artifact, p);
    forall r: QueueRow
      ensures r in u.eviction <==>
              ArtifactKey(r.channel, r.artifact) in u.artifacts &&
              u.artifacts[ArtifactKey(r.channel, r.artifact)].eligibleAt == r.eligibleAt
    {
      var key := ArtifactKey(r.channel, r.artifact);
      assert r in t.eviction <==> key in t.artifacts && t.artifacts[key].eligibleAt == r.eligibleAt;
    }
  }

  lemma WriteRequeueKeeps(c: ChannelId, s: State, artifact: Digest)
    requires Inv(c, s) && artifact in s.pending
    ensures Inv(c, Step(c, s, WriteRequeue(artifact)))
  {
    WrittenIs(c, s.tables, artifact, s.pending[artifact]);
    WrittenKeepsQueue(c, s.tables, artifact, s.pending[artifact]);
  }

  lemma SpawnKeeps(c: ChannelId, s: State, goal: Goal)
    requires Inv(c, s)
    ensures Inv(c, s.(tasks := s.tasks + [Task(goal, Begin, 0)]))
  {
    var next := s.(tasks := s.tasks + [Task(goal, Begin, 0)]);
    assert next.tasks[..|s.tasks|] == s.tasks && next.tasks[|s.tasks|].point == Begin;
    assert forall i :: 0 <= i < |s.tasks| ==> next.tasks[i] == s.tasks[i];
    assert GatesHold(next.tasks);
    assert OneGate(next);
    assert Settled(c, next) && FencedActive(next.tasks);
    assert Progress(c, next) by {
      if i :| 0 <= i < |next.tasks| && Convicted(next.tasks[i]) {
        assert i < |s.tasks| && Convicted(s.tasks[i]);
      }
    }
  }

  lemma RestartKeeps(c: ChannelId, s: State)
    requires Inv(c, s)
    ensures Inv(c, Step(c, s, Restart))
  {
  }

  lemma StepKeeps(c: ChannelId, s: State, a: Action)
    requires Inv(c, s) && Enabled(c, s, a)
    ensures Inv(c, Step(c, s, a))
  {
    match a
    case Spawn(goal) => SpawnKeeps(c, s, goal);
    case Move(id) => MoveKeeps(c, s, id);
    case Cancel(id) => RelabelKeeps(c, s, id, Done);
    case Elsewhere(op) => ElsewhereKeeps(c, s, op);
    case ReadRequeue(artifact, oldEligibleAt, newEligibleAt) =>
      ReadKeeps(c, s, artifact, oldEligibleAt, newEligibleAt);
    case WriteRequeue(artifact) => WriteRequeueKeeps(c, s, artifact);
    case FailRequeue(artifact) =>
    case AddFile(key) =>
    case RemoveFile(key) =>
    case Restart => RestartKeeps(c, s);
  }

  // ----- runs -----

  /** Any store in which the channel is registered and active, with no task running. */
  ghost predicate Initial(c: ChannelId, s: State) {
    && QueueExact(s.tables) && IsActive(c, s.tables)
    && s.tasks == [] && s.pending == map[] && !s.finished && !s.overwritten
  }

  ghost predicate IsRun(c: ChannelId, states: seq<State>, actions: seq<Action>) {
    && |states| == |actions| + 1 && Initial(c, states[0])
    && forall i :: 0 <= i < |actions| ==> StepAt(c, states, actions, i)
  }

  ghost predicate StepAt(c: ChannelId, states: seq<State>, actions: seq<Action>, i: nat)
    requires i < |actions| < |states|
  {
    Enabled(c, states[i], actions[i]) && states[i + 1] == Step(c, states[i], actions[i])
  }

  lemma {:induction false} RunKeeps(c: ChannelId, states: seq<State>, actions: seq<Action>, i: nat)
    requires IsRun(c, states, actions) && i < |states|
    ensures Inv(c, states[i])
  {
    if i > 0 {
      RunKeeps(c, states, actions, i - 1);
      assert StepAt(c, states, actions, i - 1);
      StepKeeps(c, states[i - 1], actions[i - 1]);
    }
  }

  lemma StepStaysFinished(c: ChannelId, s: State, a: Action)
    requires Enabled(c, s, a) && s.finished
    ensures Step(c, s, a).finished
  {
  }

  lemma {:induction false} FinishedForever(c: ChannelId, states: seq<State>, actions: seq<Action>, i: nat, j: nat)
    requires IsRun(c, states, actions) && i <= j < |states| && states[i].finished
    ensures states[j].finished
  {
    if i < j {
      FinishedForever(c, states, actions, i, j - 1);
      assert StepAt(c, states, actions, j - 1);
      StepStaysFinished(c, states[j - 1], actions[j - 1]);
    }
  }

  predicate CompletesDeletion(s: State, a: Action) {
    a.Move? && a.id < |s.tasks| && s.tasks[a.id].point == Exclusive(2)
  }

  // ----- expiry updates written back over a Deleting mark -----

  /** An expiry update stores the record it read under its shared lease. */
  predicate WritesBack(s: State, a: Action) {
    a.Move? && a.id < |s.tasks| && s.tasks[a.id].point.Fenced? && s.tasks[a.id].goal.UpdateExpiry?
  }

  /** A delete marks the channel, or startup picks up a channel that is marked. */
  predicate Marks(c: ChannelId, s: State, a: Action) {
    || (a.Move? && a.id < |s.tasks| && s.tasks[a.id].point.Fenced? && s.tasks[a.id].goal.Delete?)
    || (a.Restart? && IsDeleting(c, s.tables))
  }

  /** Some expiry update was written back before step `n` and no mark followed it. */
  ghost predicate WrittenBack(c: ChannelId, states: seq<State>, actions: seq<Action>, n: nat)
    requires n <= |states| && n <= |actions|
  {
    exists j :: 0 <= j < n && WritesBack(states[j], actions[j]) &&
                forall k :: j < k < n ==> !Marks(c, states[k], actions[k])
  }

  lemma WrittenBackUnrolled(c: ChannelId, states: seq<State>, actions: seq<Action>, n: nat)
    requires n < |states| && n < |actions|
    ensures WrittenBack(c, states, actions, n + 1) <==>
            WritesBack(states[n], actions[n]) ||
            (WrittenBack(c, states, actions, n) && !Marks(c, states[n], actions[n]))
  {
    if WrittenBack(c, states, actions, n) && !Marks(c, states[n], actions[n]) {
      var j :| 0 <= j < n && WritesBack(states[j], actions[j]) &&
               forall k :: j < k < n ==> !Marks(c, states[k], actions[k]);
      assert forall k :: j < k < n + 1 ==> !Marks(c, states[k], actions[k]);
    }
  }

  lemma OverwrittenStep(c: ChannelId, s: State, a: Action)
    requires Enabled(c, s, a)
    ensures Step(c, s, a).overwritten <==> WritesBack(s, a) || (s.overwritten && !Marks(c, s, a))
  {
  }

  lemma {:induction false} OverwrittenExactly(c: ChannelId, states: seq<State>, actions: seq<Action>, n: nat)
    requires IsRun(c, states, actions) && n < |states|
    ensures states[n].overwritten <==> WrittenBack(c, states, actions, n)
  {
    if n > 0 {
      var s, a, was := states[n - 1], actions[n - 1], WrittenBack(c, states, actions, n - 1);
      assert s.overwritten <==> was by { OverwrittenExactly(c, states, actions, n - 1); }
      assert states[n].overwritten <==> WritesBack(s, a) || (was && !Marks(c, s, a)) by {
        assert StepAt(c, states, actions, n - 1);
        OverwrittenStep(c, s, a);
      }
      WrittenBackUnrolled(c, states, actions, n - 1);
    }
  }

  // ----- crash and resume -----

  ghost predicate InsideFinish(s: State) {
    !s.finished && exists i :: 0 <= i < |s.tasks| && s.tasks[i].point.Exclusive?
  }

  /** Two moves of the only task. */
  ghost function MovedTwice(c: ChannelId, s: State): State
    requires |s.tasks| > 0
  {
    var s1 := MoveTask(c, s, 0);
    if |s1.tasks| > 0 then MoveTask(c, s1, 0) else s1
  }

  /** Startup resumes the deletion and nothing else runs until it is over. */
  ghost function Resumed(c: ChannelId, s: State): State {
    var s0 := Step(c, s, Restart);
    if |s0.tasks| == 0 then s0
    else
      var s2 := MovedTwice(c, s0);
      if |s2.tasks| == 0 then s2
      else
        var s4 := MovedTwice(c, s2);
        if |s4.tasks| == 0 then s4 else MovedTwice(c, s4)
  }

  /** The two gate steps and the three stages of a resumed deletion. */
  lemma ResumedEnters(c: ChannelId, s: State)
    requires IsDeleting(c, s.tables)
    ensures |Step(c, s, Restart).tasks| == 1
    ensures var s2 := MovedTwice(c, Step(c, s, Restart));
            s2.tasks == [Task(Delete, Exclusive(0), s2.tasks[0].gate)] && s2.tables == s.tables
  {
  }

  lemma FinishWipes(c: ChannelId, s: State)
    requires |s.tasks| == 1 && s.tasks[0].point == Exclusive(0)
    ensures var s2 := MovedTwice(c, s);
            |s2.tasks| == 1 && s2.tasks[0].point == Exclusive(2) && NoRows(c, s2.tables) && NoFiles(c, s2.files)
  {
    RegistryWrites(c, s.tables, ChannelRecord(0, Active));
  }

  lemma FinishEnds(c: ChannelId, s: State)
    requires |s.tasks| == 1 && s.tasks[0].point == Exclusive(2) && NoRows(c, s.tables) && NoFiles(c, s.files)
    ensures var s2 := MovedTwice(c, s); Gone(c, s2) && s2.finished
  {
    RegistryWrites(c, s.tables, ChannelRecord(0, Active));
    var s1 := MoveTask(c, s, 0);
    assert s1.tasks[0].point == Exclusive(3) && Gone(c, s1) && s1.finished;
  }

  lemma ResumesNothing(c: ChannelId, s: State)
    requires !IsDeleting(c, s.tables)
    ensures Resumed(c, s) == Step(c, s, Restart) && Resumed(c, s).tables == s.tables
  {
  }

  lemma ResumeFinishes(c: ChannelId, s: State)
    requires IsDeleting(c, s.tables)
    ensures Gone(c, Resumed(c, s)) && Resumed(c, s).finished
  {
    ResumedEnters(c, s);
    var s2 := MovedTwice(c, Step(c, s, Restart));
    FinishWipes(c, s2);
    FinishEnds(c, MovedTwice(c, s2));
  }

  /**
   * A crash inside `finish_deletion` followed by startup completes the deletion exactly when the run
   * has no expiry update written back after the last mark; otherwise startup changes nothing.
   */
  lemma CrashInsideFinishResumes(c: ChannelId, states: seq<State>, actions: seq<Action>, i: nat)
    requires IsRun(c, states, actions) && i < |states| && InsideFinish(states[i])
    ensures !WrittenBack(c, states, actions, i) <==> Gone(c, Resumed(c, states[i]))
    ensures !WrittenBack(c, states, actions, i) <==> IsDeleting(c, states[i].tables)
    ensures !WrittenBack(c, states, actions, i) ==> Resumed(c, states[i]).finished
    ensures WrittenBack(c, states, actions, i) ==> Resumed(c, states[i]).tables == states[i].tables
  {
    OverwrittenExactly(c, states, actions, i);
    RunKeeps(c, states, actions, i);
    var k :| 0 <= k < |states[i].tasks| && states[i].tasks[k].point.Exclusive?;
    assert Convicted(states[i].tasks[k]);
    if IsDeleting(c, states[i].tables) {
      ResumeFinishes(c, states[i]);
    }
  }

  // ----- an overlapping expiry update undoes the mark -----

  function OverwriteActions(expirySeconds: U64): seq<Action> {
    [Spawn(UpdateExpiry(expirySeconds)), Spawn(Delete),
     Move(0), Move(0), Move(0), Move(0),
     Move(1), Move(1), Move(1), Move(1),
     Move(1), Move(0),
     Move(1), Move(1), Move(1)]
  }

  /** A store that knows one channel and nothing else. */
  function Registry(c: ChannelId, record: ChannelRecord): Tables {
    Tables(map[], map[], {}, map[c := record])
  }

  /** An expiry update and a delete that both know gate 0. */
  function Pair(c: ChannelId, record: ChannelRecord, after: U64, update: Point, delete: Point, late: bool): State {
    var tasks := [Task(UpdateExpiry(after), update, 0), Task(Delete, delete, 0)];
    State(Registry(c, record), {}, tasks, Some(0), 1, false, late, map[])
  }

  /** Both tasks hold the shared gate; the update writes its record back after the Deleting mark. */
  function OverwriteState(c: ChannelId, before: U64, after: U64, k: nat): State
    requires k <= 15
  {
    var seen, marked := ChannelRecord(before, Active), ChannelRecord(before, Deleting);
    var back := ChannelRecord(after, Active);
    var update, delete := Task(UpdateExpiry(after), Begin, 0), Task(Delete, Begin, 0);
    match k
    case 0 => State(Registry(c, seen), {}, [], None, 0, false, false, map[])
    case 1 => State(Registry(c, seen), {}, [update], None, 0, false, false, map[])
    case 2 => State(Registry(c, seen), {}, [update, delete], None, 0, false, false, map[])
    case 3 => State(Registry(c, seen), {}, [update.(point := Authorized), delete], None, 0, false, false, map[])
    case 4 => Pair(c, seen, after, HasGate, Begin, false)
    case 5 => Pair(c, seen, after, Locked, Begin, false)
    case 6 => Pair(c, seen, after, Fenced(seen), Begin, false)
    case 7 => Pair(c, seen, after, Fenced(seen), Authorized, false)
    case 8 => Pair(c, seen, after, Fenced(seen), HasGate, false)
    case 9 => Pair(c, seen, after, Fenced(seen), Locked, false)
    case 10 => Pair(c, seen, after, Fenced(seen), Fenced(seen), false)
    case 11 => Pair(c, marked, after, Fenced(seen), Condemned, false)
    case 12 => Pair(c, back, after, Done, Condemned, true)
    case 13 => Pair(c, back, after, Done, HasWriteGate, true)
    case 14 => Pair(c, back, after, Done, Exclusive(0), true)
    case 15 => Pair(c, back, after, Done, Exclusive(1), true)
  }

  ghost predicate OverwriteStep(c: ChannelId, before: U64, after: U64, k: nat)
    requires k < 15
  {
    && Enabled(c, OverwriteState(c, before, after, k), OverwriteActions(after)[k])
    && OverwriteState(c, before, after, k + 1)
       == Step(c, OverwriteState(c, before, after, k), OverwriteActions(after)[k])
  }

  lemma OverwriteStarts(c: ChannelId, before: U64, after: U64, k: nat)
    requires c != NIL && k < 5
    ensures OverwriteStep(c, before, after, k)
  {
  }

  lemma OverwriteFences(c: ChannelId, before: U64, after: U64, k: nat)
    requires c != NIL && 5 <= k < 10
    ensures OverwriteStep(c, before, after, k)
  {
  }

  lemma OverwriteMarks(c: ChannelId, before: U64, after: U64)
    ensures OverwriteStep(c, before, after, 10)
  {
    RegistryWrites(c, Registry(c, ChannelRecord(before, Active)), ChannelRecord(before, Deleting));
  }

  lemma OverwriteReturns(c: ChannelId, before: U64, after: U64)
    ensures OverwriteStep(c, before, after, 11)
  {
    RegistryWrites(c, Registry(c, ChannelRecord(before, Deleting)), ChannelRecord(after, Active));
  }

  lemma OverwriteEnters(c: ChannelId, before: U64, after: U64, k: nat)
    requires 12 <= k < 14
    ensures OverwriteStep(c, before, after, k)
  {
  }

  lemma OverwriteWipes(c: ChannelId, before: U64, after: U64)
    ensures OverwriteStep(c, before, after, 14)
  {
    RegistryWrites(c, Registry(c, ChannelRecord(after, Active)), ChannelRecord(after, Active));
  }

  /**
   * With an overlapping update the property fails: after a crash inside `finish_deletion` startup
   * finds the channel active, resumes nothing and leaves it registered.
   */
  lemma OverwriteRun(c: ChannelId, before: U64, after: U64) returns (states: seq<State>)
    requires c != NIL
    ensures IsRun(c, states, OverwriteActions(after))
    ensures InsideFinish(states[15]) && IsActive(c, states[15].tables)
    ensures IsActive(c, Resumed(c, states[15]).tables)
  {
    states := seq(16, k requires 0 <= k < 16 => OverwriteState(c, before, after, k));
    forall k | 0 <= k < 15 ensures StepAt(c, states, OverwriteActions(after), k) {
      OverwriteAt(c, before, after, k);
    }
    OverwriteEnds(c, before, after);
  }

  lemma OverwriteEnds(c: ChannelId, before: U64, after: U64)
    ensures var s := OverwriteState(c, before, after, 15);
            InsideFinish(s) && IsActive(c, s.tables) && IsActive(c, Resumed(c, s).tables)
  {
    var s := OverwriteState(c, before, after, 15);
    assert s.tasks[1].point.Exclusive? && IsActive(c, s.tables);
    ResumesNothing(c, s);
  }

  lemma OverwriteAt(c: ChannelId, before: U64, after: U64, k: nat)
    requires c != NIL && k < 15
    ensures OverwriteStep(c, before, after, k)
  {
    if k < 5 {
      OverwriteStarts(c, before, after, k);
    } else if k < 10 {
      OverwriteFences(c, before, after, k);
    } else if k == 10 {
      OverwriteMarks(c, before, after);
    } else if k == 11 {
      OverwriteReturns(c, before, after);
    } else if k < 14 {
      OverwriteEnters(c, before, after, k);
    } else {
      OverwriteWipes(c, before, after);
    }
  }
}
