/**
 * What the metadata store reads back (src/storage/metadata/rocksdb.rs), told from the operations
 * alone: which of them wrote the record that a key holds, and which have happened to it since.
 */
module ReadBack {
  import opened Words
  import opened Store
  import opened Identity

  // ----- references -----

  /** The operation gives the name this record: a publication that names it, or a binding. */
  predicate Binds(op: Operation, key: ReferenceKey, record: ReferenceRecord) {
    || (op.CommitPublication? && op.channel == key.channel && op.reference == Some((key.name, record)))
    || op == BindReference(key.channel, key.name, record)
  }

  /** The operation takes the name away, alone or with its whole channel. */
  predicate Unbinds(op: Operation, key: ReferenceKey) {
    op == UnbindReference(key.channel, key.name) || op == DeleteChannelData(key.channel)
  }

  ghost predicate TouchesName(op: Operation, key: ReferenceKey) {
    Unbinds(op, key) || exists record :: Binds(op, key, record)
  }

  ghost predicate LastBoundAt(history: seq<Operation>, i: int, key: ReferenceKey, record: ReferenceRecord) {
    && 0 <= i < |history| && Binds(history[i], key, record)
    && forall j :: i < j < |history| ==> !TouchesName(history[j], key)
  }

  /** A name reads back the record of its last binding, unless it was taken away since. */
  lemma {:induction false} NameReadsBack(history: seq<Operation>, key: ReferenceKey, record: ReferenceRecord)
    ensures key in After(history).references && After(history).references[key] == record <==>
            exists i :: LastBoundAt(history, i, key, record)
  {
    if history != [] {
      var earlier, op := history[..|history| - 1], history[|history| - 1];
      NameReadsBack(earlier, key, record);
      NameStep(After(earlier), op, key);
      assert history == earlier + [op];
      LastBoundStep(earlier, op, key, record);
    }
  }

  lemma LastBoundStep(earlier: seq<Operation>, op: Operation, key: ReferenceKey, record: ReferenceRecord)
    ensures (exists i :: LastBoundAt(earlier + [op], i, key, record)) <==>
            if TouchesName(op, key) then Binds(op, key, record)
            else exists i :: LastBoundAt(earlier, i, key, record)
  {
    var history, n := earlier + [op], |earlier|;
    assert history[n] == op;
    if TouchesName(op, key) {
      if i :| LastBoundAt(history, i, key, record) {
        assert i == n || !TouchesName(op, key);
      }
      if Binds(op, key, record) {
        assert LastBoundAt(history, n, key, record);
      }
    } else {
      if i :| LastBoundAt(history, i, key, record) {
        assert LastBoundAt(earlier, i, key, record) by {
          assert forall j :: i < j < n ==> history[j] == earlier[j];
        }
      }
      if i :| LastBoundAt(earlier, i, key, record) {
        assert LastBoundAt(history, i, key, record);
      }
    }
  }

  lemma NameStep(t: Tables, op: Operation, key: ReferenceKey)
    ensures
      var u := Perform(t, op).references;
      && (Unbinds(op, key) ==> key !in u)
      && (forall record :: Binds(op, key, record) ==> key in u && u[key] == record)
      && (!TouchesName(op, key) ==>
            (key in u <==> key in t.references) && (key in u ==> u[key] == t.references[key]))
  {
    BatchUnrolled(t, BatchOf(t, op));
    if op.CommitPublication? && op.reference.Some? {
      if op.channel == key.channel && op.reference.value.0 == key.name {
        assert Binds(op, key, op.reference.value.1);
      }
    }
    if op.BindReference? && ReferenceKey(op.channel, op.name) == key {
      assert Binds(op, key, op.record);
    }
  }

  // ----- channel records -----

  predicate TouchesChannel(op: Operation, channel: ChannelId) {
    op == FinishChannelDeletion(channel) || (op.StoreChannel? && op.channel == channel)
  }

  ghost predicate LastStoredAt(history: seq<Operation>, i: int, channel: ChannelId, record: ChannelRecord) {
    && 0 <= i < |history| && history[i] == StoreChannel(channel, record)
    && forall j :: i < j < |history| ==> !TouchesChannel(history[j], channel)
  }

  /** A channel reads back the record stored last, unless its deletion was finished since. */
  lemma {:induction false} ChannelReadsBack(history: seq<Operation>, channel: ChannelId, record: ChannelRecord)
    ensures channel in After(history).channels && After(history).channels[channel] == record <==>
            exists i :: LastStoredAt(history, i, channel, record)
  {
    if history != [] {
      var earlier, op := history[..|history| - 1], history[|history| - 1];
      ChannelReadsBack(earlier, channel, record);
      ChannelStep(After(earlier), op, channel);
      assert history == earlier + [op];
      LastStoredStep(earlier, op, channel, record);
    }
  }

  lemma LastStoredStep(earlier: seq<Operation>, op: Operation, channel: ChannelId, record: ChannelRecord)
    ensures (exists i :: LastStoredAt(earlier + [op], i, channel, record)) <==>
            if TouchesChannel(op, channel) then op == StoreChannel(channel, record)
            else exists i :: LastStoredAt(earlier, i, channel, record)
  {
    var history, n := earlier + [op], |earlier|;
    assert history[n] == op;
    if TouchesChannel(op, channel) {
      if i :| LastStoredAt(history, i, channel, record) {
        assert i == n || !TouchesChannel(op, channel);
      }
      if op == StoreChannel(channel, record) {
        assert LastStoredAt(history, n, channel, record);
      }
    } else {
      if i :| LastStoredAt(history, i, channel, record) {
        assert LastStoredAt(earlier, i, channel, record) by {
          assert forall j :: i < j < n ==> history[j] == earlier[j];
        }
      }
      if i :| LastStoredAt(earlier, i, channel, record) {
        assert LastStoredAt(history, i, channel, record);
      }
    }
  }

  lemma ChannelStep(t: Tables, op: Operation, channel: ChannelId)
    ensures
      var u := Perform(t, op).channels;
      && (op == FinishChannelDeletion(channel) ==> channel !in u)
      && (op.StoreChannel? && op.channel == channel ==> channel in u && u[channel] == op.channelRecord)
      && (!TouchesChannel(op, channel) ==>
            (channel in u <==> channel in t.channels) && (channel in u ==> u[channel] == t.channels[channel]))
  {
    BatchUnrolled(t, BatchOf(t, op));
  }

  // ----- artifact records -----

  predicate Commits(op: Operation, key: ArtifactKey, metadata: ArtifactMetadata) {
    op.CommitPublication? && op.channel == key.channel && op.artifact == key.artifact && op.metadata == metadata
  }

  /** The operation takes away a record that is due at `deadline`. */
  predicate Removes(op: Operation, key: ArtifactKey, deadline: U64) {
    || op == RemoveArtifact(key.channel, key.artifact)
    || op == Evict(key.channel, key.artifact, deadline)
    || op == DeleteChannelData(key.channel)
  }

  /** The deadline that a record due at `deadline` has after `later`: each requeue that expects it moves it. */
  function DueAfter(later: seq<Operation>, key: ArtifactKey, deadline: U64): U64 {
    if later == [] then deadline
    else
      var due := DueAfter(later[..|later| - 1], key, deadline);
      var op := later[|later| - 1];
      if op.Requeue? && op.channel == key.channel && op.artifact == key.artifact && op.oldEligibleAt == due
      then op.newEligibleAt else due
  }

  /** The commit at `i` found no record of the key, and nothing has removed the one it made. */
  ghost predicate StandsFrom(history: seq<Operation>, i: int, key: ArtifactKey, metadata: ArtifactMetadata) {
    && 0 <= i < |history| && Commits(history[i], key, metadata)
    && key !in After(history[..i]).artifacts
    && forall j :: i < j < |history| ==>
         !Removes(history[j], key, DueAfter(history[i + 1..j], key, metadata.eligibleAt))
  }

  /** What a record committed at `i` reads back: the metadata of that commit at the deadline it has by now. */
  ghost predicate CommittedAs(history: seq<Operation>, i: int, key: ArtifactKey, record: ArtifactMetadata) {
    exists metadata: ArtifactMetadata ::
      && StandsFrom(history, i, key, metadata)
      && record == ArtifactMetadata(
                     metadata.contentLen, metadata.createdAt, DueAfter(history[i + 1..], key, metadata.eligibleAt),
                     metadata.storedLen, metadata.encoding)
  }

  /**
   * A key reads back what the commit that found it absent wrote, at the deadline the requeues since
   * have left, unless a removal, an eviction at that deadline or a channel deletion came since.
   * Later commits of the same key change nothing.
   */
  lemma {:induction false} RecordReadsBack(history: seq<Operation>, key: ArtifactKey, record: ArtifactMetadata)
    ensures key in After(history).artifacts && After(history).artifacts[key] == record <==>
            exists i :: CommittedAs(history, i, key, record)
  {
    RecordOrigin(history, key);
    if i :| CommittedAs(history, i, key, record) {
      var metadata: ArtifactMetadata :| StandsFrom(history, i, key, metadata) &&
        record == ArtifactMetadata(
                    metadata.contentLen, metadata.createdAt, DueAfter(history[i + 1..], key, metadata.eligibleAt),
                    metadata.storedLen, metadata.encoding);
      RecordStands(history, i, key, metadata);
    }
  }

  function At(metadata: ArtifactMetadata, deadline: U64): ArtifactMetadata {
    metadata.(eligibleAt := deadline)
  }

  /** What one operation does to the record of one key. */
  ghost predicate StepsTo(t: Tables, op: Operation, key: ArtifactKey, u: Tables) {
    if key in t.artifacts then
      var due := t.artifacts[key].eligibleAt;
      if Removes(op, key, due) then key !in u.artifacts
      else key in u.artifacts && u.artifacts[key] == At(t.artifacts[key], DueAfter([op], key, due))
    else if op.CommitPublication? && ArtifactKey(op.channel, op.artifact) == key then
      key in u.artifacts && u.artifacts[key] == op.metadata
    else key !in u.artifacts
  }

  lemma RecordStep(t: Tables, op: Operation, key: ArtifactKey)
    ensures StepsTo(t, op, key, Perform(t, op))
  {
    BatchUnrolled(t, BatchOf(t, op));
    if key in t.artifacts {
      DueStep([], op, key, t.artifacts[key].eligibleAt);
    }
  }

  lemma DueStep(later: seq<Operation>, op: Operation, key: ArtifactKey, deadline: U64)
    ensures DueAfter(later + [op], key, deadline) == DueAfter([op], key, DueAfter(later, key, deadline))
  {
    assert (later + [op])[..|later|] == later;
    assert [op][..0] == [];
  }

  lemma {:induction false} RecordStands(history: seq<Operation>, i: int, key: ArtifactKey, metadata: ArtifactMetadata)
    requires StandsFrom(history, i, key, metadata)
    ensures key in After(history).artifacts
    ensures After(history).artifacts[key] == At(metadata, DueAfter(history[i + 1..], key, metadata.eligibleAt))
    decreases |history|
  {
    var n := |history| - 1;
    var earlier, op := history[..n], history[n];
    assert history == earlier + [op];
    assert StepsTo(After(earlier), op, key, After(history)) by {
      RecordStep(After(earlier), op, key);
    }
    if i == n {
      assert history[i + 1..] == [];
    } else {
      Shrinks(earlier, op, i, key, metadata);
      RecordStands(earlier, i, key, metadata);
    }
  }

  lemma Shrinks(earlier: seq<Operation>, op: Operation, i: int, key: ArtifactKey, metadata: ArtifactMetadata)
    requires StandsFrom(earlier + [op], i, key, metadata) && i < |earlier|
    ensures StandsFrom(earlier, i, key, metadata)
    ensures !Removes(op, key, DueAfter(earlier[i + 1..], key, metadata.eligibleAt))
    ensures DueAfter((earlier + [op])[i + 1..], key, metadata.eligibleAt)
            == DueAfter([op], key, DueAfter(earlier[i + 1..], key, metadata.eligibleAt))
  {
    var history, n := earlier + [op], |earlier|;
    assert history[..i] == earlier[..i];
    forall j | i < j < n ensures !Removes(earlier[j], key, DueAfter(earlier[i + 1..j], key, metadata.eligibleAt)) {
      assert earlier[j] == history[j] && history[i + 1..j] == earlier[i + 1..j];
    }
    assert history[n] == op && history[i + 1..n] == earlier[i + 1..];
    assert history[i + 1..] == earlier[i + 1..] + [op];
    DueStep(earlier[i + 1..], op, key, metadata.eligibleAt);
  }

  lemma {:induction false} RecordOrigin(history: seq<Operation>, key: ArtifactKey)
    ensures key in After(history).artifacts ==>
              exists i :: CommittedAs(history, i, key, After(history).artifacts[key])
  {
    if history != [] {
      var earlier, op := history[..|history| - 1], history[|history| - 1];
      var t, u := After(earlier), After(history);
      assert StepsTo(t, op, key, u) by {
        RecordStep(t, op, key);
      }
      RecordOrigin(earlier, key);
      assert history == earlier + [op];
      if key in u.artifacts {
        OriginStep(earlier, op, key, t, u);
      }
    }
  }

  lemma OriginStep(earlier: seq<Operation>, op: Operation, key: ArtifactKey, t: Tables, u: Tables)
    requires t == After(earlier) && StepsTo(t, op, key, u) && key in u.artifacts
    requires key in t.artifacts ==> exists i :: CommittedAs(earlier, i, key, t.artifacts[key])
    ensures exists i :: CommittedAs(earlier + [op], i, key, u.artifacts[key])
  {
    if key in t.artifacts {
      var i :| CommittedAs(earlier, i, key, t.artifacts[key]);
      Continues(earlier, op, i, key, t.artifacts[key]);
    } else {
      var history := earlier + [op];
      assert history[..|earlier|] == earlier && history[|earlier| + 1..] == [];
      assert StandsFrom(history, |earlier|, key, op.metadata);
      assert CommittedAs(history, |earlier|, key, op.metadata);
    }
  }

  lemma Continues(earlier: seq<Operation>, op: Operation, i: int, key: ArtifactKey, record: ArtifactMetadata)
    requires CommittedAs(earlier, i, key, record) && !Removes(op, key, record.eligibleAt)
    ensures CommittedAs(earlier + [op], i, key, At(record, DueAfter([op], key, record.eligibleAt)))
  {
    var metadata: ArtifactMetadata :| StandsFrom(earlier, i, key, metadata) &&
      record == At(metadata, DueAfter(earlier[i + 1..], key, metadata.eligibleAt));
    Extends(earlier, op, i, key, metadata);
  }

  lemma Extends(earlier: seq<Operation>, op: Operation, i: int, key: ArtifactKey, metadata: ArtifactMetadata)
    requires StandsFrom(earlier, i, key, metadata)
    requires !Removes(op, key, DueAfter(earlier[i + 1..], key, metadata.eligibleAt))
    ensures StandsFrom(earlier + [op], i, key, metadata)
    ensures DueAfter((earlier + [op])[i + 1..], key, metadata.eligibleAt)
            == DueAfter([op], key, DueAfter(earlier[i + 1..], key, metadata.eligibleAt))
  {
    var history, n := earlier + [op], |earlier|;
    assert history[..i] == earlier[..i];
    forall j | i < j < |history|
      ensures !Removes(history[j], key, DueAfter(history[i + 1..j], key, metadata.eligibleAt))
    {
      assert history[i + 1..j] == earlier[i + 1..j];
      if j == n {
        assert earlier[i + 1..n] == earlier[i + 1..];
      }
    }
    assert history[i + 1..] == earlier[i + 1..] + [op];
    DueStep(earlier[i + 1..], op, key, metadata.eligibleAt);
  }
}
