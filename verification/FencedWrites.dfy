/**
 * What the tasks behind a channel's gate leave in the store and on disk (src/cache/service.rs,
 * src/channel/service.rs), told on the tables themselves, and the default channel, which stays.
 */
module FencedWrites {
  import opened Identity
  import opened Store
  import opened ChannelDeletion

  /** A fenced task's last step does what it was asked for, and nothing to any other row or file. */
  lemma BindLands(c: ChannelId, s: State, id: nat)
    requires id < |s.tasks| && s.tasks[id].point.Fenced? && s.tasks[id].goal.Bind? && Enabled(c, s, Move(id))
    ensures
      var u := Step(c, s, Move(id));
      && u.tables == s.tables.(references :=
           s.tables.references[ReferenceKey(c, s.tasks[id].goal.name) := s.tasks[id].goal.record])
      && u.files == s.files && u.tasks[id].point.Done?
  {
    BatchUnrolled(s.tables, BatchOf(s.tables, BindReference(c, s.tasks[id].goal.name, s.tasks[id].goal.record)));
  }

  lemma UnbindLands(c: ChannelId, s: State, id: nat)
    requires id < |s.tasks| && s.tasks[id].point.Fenced? && s.tasks[id].goal.Unbind? && Enabled(c, s, Move(id))
    ensures
      var u := Step(c, s, Move(id));
      && u.tables == s.tables.(references := s.tables.references - {ReferenceKey(c, s.tasks[id].goal.unbound)})
      && u.files == s.files && u.tasks[id].point.Done?
  {
    BatchUnrolled(s.tables, BatchOf(s.tables, UnbindReference(c, s.tasks[id].goal.unbound)));
  }

  /** The file comes first and alone; only the next step writes the record, its row and the name. */
  lemma PublishLands(c: ChannelId, s: State, id: nat)
    requires id < |s.tasks| && s.tasks[id].goal.Publish? && Enabled(c, s, Move(id))
    requires s.tasks[id].point.Fenced? || s.tasks[id].point.FilePublished?
    ensures
      var goal, u := s.tasks[id].goal, Step(c, s, Move(id));
      var key := ArtifactKey(c, goal.artifact);
      if s.tasks[id].point.Fenced? then
        u.tables == s.tables && u.files == s.files + {key} && u.tasks[id].point.FilePublished?
      else
        && u.files == s.files && u.tasks[id].point.Done? && u.tables.channels == s.tables.channels
        && u.tables.artifacts ==
             (if key in s.tables.artifacts then s.tables.artifacts else s.tables.artifacts[key := goal.metadata])
        && u.tables.eviction ==
             (if key in s.tables.artifacts then s.tables.eviction
              else s.tables.eviction + {QueueRow(c, goal.metadata.eligibleAt, goal.artifact)})
        && u.tables.references ==
             (if goal.reference.None? then s.tables.references
              else s.tables.references[ReferenceKey(c, goal.reference.value.0) := goal.reference.value.1])
  {
    if s.tasks[id].point.FilePublished? {
      var goal := s.tasks[id].goal;
      BatchUnrolled(s.tables, BatchOf(s.tables, CommitPublication(c, goal.artifact, goal.metadata, goal.reference)));
    }
  }

  /** A new expiry leaves the channel active, a deletion leaves it Deleting at the expiry that was read. */
  lemma RecordLands(c: ChannelId, s: State, id: nat)
    requires Inv(c, s) && id < |s.tasks| && s.tasks[id].point.Fenced? && Enabled(c, s, Move(id))
    requires s.tasks[id].goal.UpdateExpiry? || s.tasks[id].goal.Delete?
    ensures
      var goal, u := s.tasks[id].goal, Step(c, s, Move(id));
      && c in u.tables.channels && u.files == s.files
      && u.tables == s.tables.(channels := s.tables.channels[c := u.tables.channels[c]])
      && u.tables.channels[c] ==
           (if goal.UpdateExpiry? then ChannelRecord(goal.expirySeconds, Active)
            else ChannelRecord(s.tasks[id].point.seen.expirySeconds, Deleting))
      && (goal.Delete? <==> !u.tasks[id].point.Done?)
  {
    var goal, seen := s.tasks[id].goal, s.tasks[id].point.seen;
    var record := if goal.UpdateExpiry? then ChannelRecord(goal.expirySeconds, Active)
                  else ChannelRecord(seen.expirySeconds, Deleting);
    RegistryWrites(c, s.tables, record);
  }

  /** Whoever rechecks a channel that is not active ends there, and has changed nothing. */
  lemma InactiveRefuses(c: ChannelId, s: State, id: nat)
    requires id < |s.tasks| && s.tasks[id].point.Locked? && Enabled(c, s, Move(id))
    requires c in s.tables.channels ==> s.tables.channels[c].state == Deleting
    ensures
      var u := Step(c, s, Move(id));
      u.tasks[id].point.Done? && u.tables == s.tables && u.files == s.files && u.entry == s.entry
  {
  }

  /** An expiry update or deletion of a channel that is not active ends before it has looked up a gate. */
  lemma RefusedLeaseTakesNoGate(c: ChannelId, s: State, id: nat)
    requires id < |s.tasks| && s.tasks[id].point.Begin? && Enabled(c, s, Move(id))
    requires s.tasks[id].goal.UpdateExpiry? || s.tasks[id].goal.Delete?
    requires c in s.tables.channels ==> s.tables.channels[c].state == Deleting
    ensures Step(c, s, Move(id)) == s.(tasks := s.tasks[id := s.tasks[id].(point := Done)])
  {
  }

  // ----- the default channel -----

  /** No deletion is under way, and the record is active. */
  ghost predicate Standing(c: ChannelId, s: State) {
    && c in s.tables.channels && s.tables.channels[c].state == Active && !s.finished
    && forall i :: 0 <= i < |s.tasks| ==> !s.tasks[i].goal.Delete? && !Convicted(s.tasks[i])
  }

  lemma StepStands(s: State, a: Action)
    requires Inv(NIL, s) && Standing(NIL, s) && Enabled(NIL, s, a)
    ensures Standing(NIL, Step(NIL, s, a))
  {
    match a
    case Move(id) => MoveStands(s, id);
    case Elsewhere(op) => RecordStays(NIL, s.tables, op);
    case WriteRequeue(artifact) => WrittenIs(NIL, s.tables, artifact, s.pending[artifact]);
    case _ =>
  }

  lemma MoveStands(s: State, id: nat)
    requires Inv(NIL, s) && Standing(NIL, s) && Enabled(NIL, s, Move(id))
    ensures Standing(NIL, Step(NIL, s, Move(id)))
  {
    var task := s.tasks[id];
    assert !task.goal.Delete? && !Convicted(task);
    if Fences(task) {
      MutateStands(s, id);
    }
  }

  lemma MutateStands(s: State, id: nat)
    requires FencedActive(s.tasks) && Standing(NIL, s) && id < |s.tasks| && Fences(s.tasks[id])
    ensures Standing(NIL, Mutate(NIL, s, id))
  {
    var task := s.tasks[id];
    match task.goal
    case Publish(artifact, metadata, reference) =>
      RecordStays(NIL, s.tables, CommitPublication(NIL, artifact, metadata, reference));
    case Bind(name, record) => RecordStays(NIL, s.tables, BindReference(NIL, name, record));
    case Unbind(name) => RecordStays(NIL, s.tables, UnbindReference(NIL, name));
    case UpdateExpiry(expirySeconds) =>
      if task.point.Fenced? {
        RegistryWrites(NIL, s.tables, task.point.seen.(expirySeconds := expirySeconds));
      }
    case _ =>
  }

  /** In every run, restarts included, the default channel stays registered and active. */
  lemma {:induction false} DefaultStays(states: seq<State>, actions: seq<Action>, i: nat)
    requires IsRun(NIL, states, actions) && i < |states|
    ensures NIL in states[i].tables.channels && states[i].tables.channels[NIL].state == Active
    ensures Standing(NIL, states[i])
  {
    if i > 0 {
      DefaultStays(states, actions, i - 1);
      RunKeeps(NIL, states, actions, i - 1);
      assert StepAt(NIL, states, actions, i - 1);
      StepStands(states[i - 1], actions[i - 1]);
    }
  }
}
