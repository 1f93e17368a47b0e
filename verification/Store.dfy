/**
 * The metadata store (src/storage/metadata/rocksdb.rs). Every operation reads the tables and writes
 * one atomic, ordered batch; a crash keeps a prefix of the batches.
 */
module Store {
  import opened Words
  import opened Bytes
  import opened Identity
  import opened Encodings

  datatype ArtifactMetadata = ArtifactMetadata(
    contentLen: U64, createdAt: U64, eligibleAt: U64, storedLen: U64, encoding: Encoding)

  datatype Lifecycle = Active | Deleting

  datatype ChannelRecord = ChannelRecord(expirySeconds: U64, state: Lifecycle)

  datatype ReferenceRecord = ReferenceRecord(artifact: Digest, updatedAt: U64)

  datatype ArtifactKey = ArtifactKey(channel: ChannelId, artifact: Digest)
  datatype ReferenceKey = ReferenceKey(channel: ChannelId, name: Text)
  datatype QueueRow = QueueRow(channel: ChannelId, eligibleAt: U64, artifact: Digest)

  datatype Tables = Tables(
    artifacts: map<ArtifactKey, ArtifactMetadata>,
    references: map<ReferenceKey, ReferenceRecord>,
    eviction: set<QueueRow>,
    channels: map<ChannelId, ChannelRecord>)

  const EMPTY: Tables := Tables(map[], map[], {}, map[])

  // ----- batches -----

  datatype Write =
    | PutArtifact(artifactKey: ArtifactKey, metadata: ArtifactMetadata)
    | DeleteArtifact(artifactKey: ArtifactKey)
    | PutRow(row: QueueRow)
    | DeleteRow(row: QueueRow)
    | PutReference(referenceKey: ReferenceKey, reference: ReferenceRecord)
    | DeleteReference(referenceKey: ReferenceKey)
    | PutChannel(channel: ChannelId, record: ChannelRecord)
    | DeleteChannel(channel: ChannelId)
    | DeleteRange(channel: ChannelId)

  function WithoutChannel(t: Tables, channel: ChannelId): Tables {
    Tables(
      map k | k in t.artifacts && k.channel != channel :: t.artifacts[k],
      map k | k in t.references && k.channel != channel :: t.references[k],
      (set r | r in t.eviction && r.channel != channel),
      t.channels)
  }

  function ApplyWrite(t: Tables, w: Write): Tables {
    match w
    case PutArtifact(k, m) => t.(artifacts := t.artifacts[k := m])
    case DeleteArtifact(k) => t.(artifacts := t.artifacts - {k})
    case PutRow(r) => t.(eviction := t.eviction + {r})
    case DeleteRow(r) => t.(eviction := t.eviction - {r})
    case PutReference(k, r) => t.(references := t.references[k := r])
    case DeleteReference(k) => t.(references := t.references - {k})
    case PutChannel(c, r) => t.(channels := t.channels[c := r])
    case DeleteChannel(c) => t.(channels := t.channels - {c})
    case DeleteRange(c) => WithoutChannel(t, c)
  }

  /** Writes take effect in order, so a later write to the same key wins. */
  function ApplyBatch(t: Tables, batch: seq<Write>): Tables
    decreases |batch|
  {
    if batch == [] then t else ApplyBatch(ApplyWrite(t, batch[0]), batch[1..])
  }

  // ----- operations -----

  datatype Operation =
    | CommitPublication(
        channel: ChannelId, artifact: Digest, metadata: ArtifactMetadata,
        reference: Option<(Text, ReferenceRecord)>)
    | RemoveArtifact(channel: ChannelId, artifact: Digest)
    | BindReference(channel: ChannelId, name: Text, record: ReferenceRecord)
    | UnbindReference(channel: ChannelId, name: Text)
    | Requeue(channel: ChannelId, artifact: Digest, oldEligibleAt: U64, newEligibleAt: U64)
    | Evict(channel: ChannelId, artifact: Digest, eligibleAt: U64)
    | StoreChannel(channel: ChannelId, channelRecord: ChannelRecord)
    | DeleteChannelData(channel: ChannelId)
    | FinishChannelDeletion(channel: ChannelId)

  function RowOf(t: Tables, key: ArtifactKey): QueueRow
    requires key in t.artifacts
  {
    QueueRow(key.channel, t.artifacts[key].eligibleAt, key.artifact)
  }

  function BatchOf(t: Tables, op: Operation): seq<Write> {
    match op
    case CommitPublication(channel, artifact, metadata, reference) =>
      var key := ArtifactKey(channel, artifact);
      var publication :=
        if key in t.artifacts then []
        else [PutArtifact(key, metadata), PutRow(QueueRow(channel, metadata.eligibleAt, artifact))];
      var binding :=
        if reference.None? then []
        else [PutReference(ReferenceKey(channel, reference.value.0), reference.value.1)];
      publication + binding
    case RemoveArtifact(channel, artifact) =>
      var key := ArtifactKey(channel, artifact);
      (if key in t.artifacts then [DeleteRow(RowOf(t, key))] else []) + [DeleteArtifact(key)]
    case BindReference(channel, name, record) => [PutReference(ReferenceKey(channel, name), record)]
    case UnbindReference(channel, name) => [DeleteReference(ReferenceKey(channel, name))]
    case Requeue(channel, artifact, oldEligibleAt, newEligibleAt) =>
      var key := ArtifactKey(channel, artifact);
      if key !in t.artifacts || t.artifacts[key].eligibleAt != oldEligibleAt then []
      else
        [DeleteRow(QueueRow(channel, oldEligibleAt, artifact)),
         PutRow(QueueRow(channel, newEligibleAt, artifact)),
         PutArtifact(key, t.artifacts[key].(eligibleAt := newEligibleAt))]
    case Evict(channel, artifact, eligibleAt) =>
      var key := ArtifactKey(channel, artifact);
      if key in t.artifacts && t.artifacts[key].eligibleAt == eligibleAt
      then [DeleteArtifact(key), DeleteRow(QueueRow(channel, eligibleAt, artifact))]
      else [DeleteRow(QueueRow(channel, eligibleAt, artifact))]
    case StoreChannel(channel, record) => [PutChannel(channel, record)]
    case DeleteChannelData(channel) => [DeleteRange(channel)]
    case FinishChannelDeletion(channel) => [DeleteChannel(channel)]
  }

  function Perform(t: Tables, op: Operation): Tables {
    ApplyBatch(t, BatchOf(t, op))
  }

  /** Unrolled effect of a batch; none of the operations writes more than three entries. */
  lemma BatchUnrolled(t: Tables, batch: seq<Write>)
    ensures |batch| == 0 ==> ApplyBatch(t, batch) == t
    ensures |batch| == 1 ==> ApplyBatch(t, batch) == ApplyWrite(t, batch[0])
    ensures |batch| == 2 ==> ApplyBatch(t, batch) == ApplyWrite(ApplyWrite(t, batch[0]), batch[1])
    ensures |batch| == 3 ==>
              ApplyBatch(t, batch) == ApplyWrite(ApplyWrite(ApplyWrite(t, batch[0]), batch[1]), batch[2])
  {
    if |batch| >= 1 {
      var t1, b1 := ApplyWrite(t, batch[0]), batch[1..];
      assert ApplyBatch(t, batch) == ApplyBatch(t1, b1);
      if |b1| >= 1 {
        var t2, b2 := ApplyWrite(t1, b1[0]), b1[1..];
        assert ApplyBatch(t1, b1) == ApplyBatch(t2, b2);
        if |b2| >= 1 {
          assert ApplyBatch(t2, b2) == ApplyBatch(ApplyWrite(t2, b2[0]), b2[1..]);
        }
      }
    }
  }

  // ----- the queue mirrors the artifact table -----

  /** The queue holds exactly one row per artifact record, at the record's deadline. */
  ghost predicate QueueExact(t: Tables) {
    forall r: QueueRow :: r in t.eviction <==>
      ArtifactKey(r.channel, r.artifact) in t.artifacts &&
      t.artifacts[ArtifactKey(r.channel, r.artifact)].eligibleAt == r.eligibleAt
  }

  lemma PerformKeepsQueue(t: Tables, op: Operation)
    requires QueueExact(t)
    ensures QueueExact(Perform(t, op))
  {
    var batch := BatchOf(t, op);
    BatchUnrolled(t, batch);
    var u := Perform(t, op);
    forall r: QueueRow
      ensures r in u.eviction <==>
              ArtifactKey(r.channel, r.artifact) in u.artifacts &&
              u.artifacts[ArtifactKey(r.channel, r.artifact)].eligibleAt == r.eligibleAt
    {
      var key := ArtifactKey(r.channel, r.artifact);
      assert r in t.eviction <==> key in t.artifacts && t.artifacts[key].eligibleAt == r.eligibleAt;
    }
  }

  /** The tables after a history of operations, from an empty store. */
  function After(history: seq<Operation>): Tables {
    if history == [] then EMPTY else Perform(After(history[..|history| - 1]), history[|history| - 1])
  }

  lemma {:induction false} HistoryKeepsQueue(history: seq<Operation>)
    ensures QueueExact(After(history))
  {
    if history != [] {
      HistoryKeepsQueue(history[..|history| - 1]);
      PerformKeepsQueue(After(history[..|history| - 1]), history[|history| - 1]);
    }
  }

  // ----- the write-ahead log -----

  /** The batches a history has written, each computed from the tables of its own time. */
  function Log(history: seq<Operation>): seq<seq<Write>> {
    if history == [] then []
    else
      var earlier := history[..|history| - 1];
      Log(earlier) + [BatchOf(After(earlier), history[|history| - 1])]
  }

  /** Recovery applies the surviving batches without reading what they were computed from. */
  function Replay(log: seq<seq<Write>>): Tables {
    if log == [] then EMPTY else ApplyBatch(Replay(log[..|log| - 1]), log[|log| - 1])
  }

  lemma {:induction false} LogPrefix(history: seq<Operation>, kept: nat)
    requires kept <= |history|
    ensures |Log(history)| == |history| && Log(history)[..kept] == Log(history[..kept])
    decreases |history|
  {
    if history != [] {
      var n := |history| - 1;
      LogPrefix(history[..n], if kept < n then kept else n);
      if kept <= n {
        assert history[..n][..kept] == history[..kept];
      } else {
        assert history[..kept] == history;
      }
    }
  }

  lemma {:induction false} LogReplays(history: seq<Operation>)
    ensures Replay(Log(history)) == After(history)
  {
    if history != [] {
      var earlier, op := history[..|history| - 1], history[|history| - 1];
      LogReplays(earlier);
      ReplayLast(Log(earlier), BatchOf(After(earlier), op));
    }
  }

  lemma ReplayLast(log: seq<seq<Write>>, batch: seq<Write>)
    ensures Replay(log + [batch]) == ApplyBatch(Replay(log), batch)
  {
    assert (log + [batch])[..|log|] == log;
  }

  /** The tables after more operations on a recovered store. */
  function Resumed(t: Tables, later: seq<Operation>): Tables {
    if later == [] then t else Perform(Resumed(t, later[..|later| - 1]), later[|later| - 1])
  }

  lemma {:induction false} ResumedKeepsQueue(t: Tables, later: seq<Operation>)
    requires QueueExact(t)
    ensures QueueExact(Resumed(t, later))
  {
    if later != [] {
      ResumedKeepsQueue(t, later[..|later| - 1]);
      PerformKeepsQueue(Resumed(t, later[..|later| - 1]), later[|later| - 1]);
    }
  }

  /** Replaying any prefix of the log leaves an exact queue, and so does working on from there. */
  lemma CrashKeepsQueue(history: seq<Operation>, kept: nat, later: seq<Operation>)
    requires kept <= |history|
    ensures |Log(history)| == |history|
    ensures QueueExact(Replay(Log(history)[..kept]))
    ensures QueueExact(Resumed(Replay(Log(history)[..kept]), later))
  {
    LogPrefix(history, kept);
    LogReplays(history[..kept]);
    HistoryKeepsQueue(history[..kept]);
    ResumedKeepsQueue(Replay(Log(history)[..kept]), later);
  }

  datatype Evicted = Removed(storedLen: U64) | Stale

  class RocksMetadata {
    var tables: Tables

    constructor ()
      ensures tables == EMPTY && QueueExact(tables)
    {
      tables := EMPTY;
    }

    method Write(op: Operation)
      requires QueueExact(tables)
      modifies this
      ensures tables == Perform(old(tables), op) && QueueExact(tables)
    {
      PerformKeepsQueue(tables, op);
      tables := ApplyBatch(tables, BatchOf(tables, op));
    }

    /** An existing record is kept as it is; only the reference is written then. */
    method Commit(
      channel: ChannelId, artifact: Digest, metadata: ArtifactMetadata, reference: Option<(Text, ReferenceRecord)>)
      returns (created: bool)
      requires QueueExact(tables)
      modifies this
      ensures QueueExact(tables)
      ensures tables == Perform(old(tables), CommitPublication(channel, artifact, metadata, reference))
      ensures created <==> ArtifactKey(channel, artifact) !in old(tables).artifacts
      ensures tables.artifacts == if created then old(tables).artifacts[ArtifactKey(channel, artifact) := metadata]
                                  else old(tables).artifacts
      ensures tables.references ==
                if reference.None? then old(tables).references
                else old(tables).references[ReferenceKey(channel, reference.value.0) := reference.value.1]
      ensures tables.channels == old(tables).channels
    {
      var op := CommitPublication(channel, artifact, metadata, reference);
      created := ArtifactKey(channel, artifact) !in tables.artifacts;
      BatchUnrolled(tables, BatchOf(tables, op));
      Write(op);
    }

    /** Moves the row and the record together, or does nothing when the deadline is not the expected one. */
    method MoveDeadline(channel: ChannelId, artifact: Digest, oldEligibleAt: U64, newEligibleAt: U64)
      requires QueueExact(tables)
      modifies this
      ensures QueueExact(tables)
      ensures tables == Perform(old(tables), Requeue(channel, artifact, oldEligibleAt, newEligibleAt))
      ensures var key := ArtifactKey(channel, artifact);
              tables.artifacts ==
                if key in old(tables).artifacts && old(tables).artifacts[key].eligibleAt == oldEligibleAt
                then old(tables).artifacts[key := old(tables).artifacts[key].(eligibleAt := newEligibleAt)]
                else old(tables).artifacts
    {
      var op := Requeue(channel, artifact, oldEligibleAt, newEligibleAt);
      BatchUnrolled(tables, BatchOf(tables, op));
      Write(op);
    }

    /** Removes the artifact only when the row is current; a stale row is dropped alone. */
    method EvictRow(channel: ChannelId, artifact: Digest, eligibleAt: U64) returns (outcome: Evicted)
      requires QueueExact(tables)
      modifies this
      ensures QueueExact(tables) && tables == Perform(old(tables), Evict(channel, artifact, eligibleAt))
      ensures var key := ArtifactKey(channel, artifact);
              if key in old(tables).artifacts && old(tables).artifacts[key].eligibleAt == eligibleAt
              then
                && outcome == Removed(old(tables).artifacts[key].storedLen)
                && tables.artifacts == old(tables).artifacts - {key}
              else outcome == Stale && tables.artifacts == old(tables).artifacts
    {
      var op := Evict(channel, artifact, eligibleAt);
      var key := ArtifactKey(channel, artifact);
      BatchUnrolled(tables, BatchOf(tables, op));
      outcome := if key in tables.artifacts && tables.artifacts[key].eligibleAt == eligibleAt
                 then Removed(tables.artifacts[key].storedLen) else Stale;
      Write(op);
    }
  }
}
