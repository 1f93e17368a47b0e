/**
 * What an upload is published as (src/cache/service.rs:157-176 and, for the digest test,
 * src/storage/local/artifact_files.rs:428-439), told from its own actions: the digest it was started
 * for, if any, and the chunks it fed to the hasher.
 */
module Targets {
  import opened Bytes
  import opened Encodings
  import opened Publication

  /** The bytes that task `id` hashed in the steps from `u` to before `n`. */
  function HashedBy(actions: seq<Action>, u: nat, n: nat, id: nat): Text
    requires u <= n <= |actions|
    decreases n
  {
    if u == n then []
    else
      var a := actions[n - 1];
      HashedBy(actions, u, n - 1, id) + if a.Hash? && a.id == id then a.chunk else []
  }

  /** Step `u` started the upload that is task `id` before step `n`. */
  ghost predicate StartedAt(states: seq<State>, actions: seq<Action>, u: nat, n: nat, id: nat)
    requires |states| == |actions| + 1
  {
    && u < n <= |actions| && actions[u].Upload? && id == |states[u].tasks|
    && forall q :: u < q < n ==> !actions[q].Crash?
  }

  /** The upload has not been given up, and is past its rename in the last two phases. */
  predicate InUpload(t: Task) {
    t.Writing? || t.Closing? || t.Staged? || t.Striped? || t.Renamed? || t.Acknowledged?
  }

  /**
   * How the task of an upload stands that has hashed `hashed`: the digest it carries is
   * that of its bytes, the artifact whose stripe it takes is the one it was started for, and once it
   * has renamed its file the two are the same.
   */
  ghost predicate Traces(k: Codec, upload: Action, hashed: Text, t: Task)
    requires upload.Upload?
  {
    match t
    case Writing(_, e, named, fed, _, _, _) => e == upload.encoding && named == upload.target && fed == hashed
    case Closing(_, e, fed, named, _, _) => e == upload.encoding && named == upload.target && fed == hashed
    case Staged(_, e, named, digest, len) =>
      e == upload.encoding && named == upload.target && digest == k.sha(hashed) && len == |hashed|
    case Striped(_, e, artifact, digest, len) =>
      && e == upload.encoding && digest == k.sha(hashed) && len == |hashed|
      && (upload.target.Some? ==> artifact == upload.target.value)
      && (upload.target.None? ==> artifact == k.sha(hashed))
    case Renamed(e, digest, len) =>
      && e == upload.encoding && digest == k.sha(hashed) && len == |hashed|
      && (upload.target.Some? ==> digest == upload.target.value)
    case Acknowledged(digest) =>
      digest == k.sha(hashed) && (upload.target.Some? ==> digest == upload.target.value)
    case Ended => true
    case _ => false
  }

  lemma OwnStep(k: Codec, s: State, a: Action, id: nat, upload: Action, hashed: Text)
    requires upload.Upload? && Enabled(k, s, a) && At(s, id) && Traces(k, upload, hashed, s.tasks[id])
    requires Stages(a) && a.id == id
    ensures At(Step(k, s, a), id)
    ensures Traces(k, upload, hashed + (if a.Hash? then a.chunk else []), Step(k, s, a).tasks[id])
  {
    assert hashed + [] == hashed;
  }

  lemma OtherStep(k: Codec, s: State, a: Action, id: nat)
    requires Enabled(k, s, a) && At(s, id) && !a.Crash? && (Stages(a) ==> a.id != id)
    ensures At(Step(k, s, a), id)
    ensures var t, r := s.tasks[id], Step(k, s, a).tasks[id];
            InUpload(t) || t.Ended? ==> r == t || r.Ended? || (t.Renamed? && r == Acknowledged(t.digest))
  {
  }

  lemma TraceStep(k: Codec, s: State, a: Action, id: nat, upload: Action, hashed: Text)
    requires upload.Upload? && Enabled(k, s, a) && At(s, id) && Traces(k, upload, hashed, s.tasks[id]) && !a.Crash?
    ensures At(Step(k, s, a), id)
    ensures Traces(k, upload, hashed + (if a.Hash? && a.id == id then a.chunk else []), Step(k, s, a).tasks[id])
  {
    if Stages(a) && a.id == id {
      OwnStep(k, s, a, id, upload, hashed);
    } else {
      OtherStep(k, s, a, id);
      assert hashed + [] == hashed;
    }
  }

  /** From its start on, every upload stands as its own actions say. */
  lemma {:induction false} UploadTraced(
    k: Codec, states: seq<State>, actions: seq<Action>, u: nat, n: nat, id: nat)
    requires IsRun(k, states, actions) && StartedAt(states, actions, u, n, id)
    ensures At(states[n], id)
    ensures Traces(k, actions[u], HashedBy(actions, u, n, id), states[n].tasks[id])
    decreases n
  {
    assert StepAt(k, states, actions, n - 1);
    if u == n - 1 {
      assert HashedBy(actions, u, u, id) == [];
    } else {
      UploadTraced(k, states, actions, u, n - 1, id);
      TraceStep(k, states[n - 1], actions[n - 1], id, actions[u], HashedBy(actions, u, n - 1, id));
    }
  }

  lemma UploadBefore(k: Codec, s: State, a: Action, id: nat)
    requires Enabled(k, s, a) && At(Step(k, s, a), id) && InUpload(Step(k, s, a).tasks[id])
    ensures !a.Crash?
    ensures (At(s, id) && InUpload(s.tasks[id])) || (a.Upload? && id == |s.tasks|)
  {
    if Plain(a) {
      PlainUploadBefore(k, s, a, id);
    }
  }

  lemma PlainUploadBefore(k: Codec, s: State, a: Action, id: nat)
    requires Enabled(k, s, a) && Plain(a) && At(Step(k, s, a), id) && InUpload(Step(k, s, a).tasks[id])
    ensures !a.Crash? && At(s, id) && InUpload(s.tasks[id])
  {
  }

  lemma {:induction false} UploadOrigin(k: Codec, states: seq<State>, actions: seq<Action>, n: nat, id: nat)
    returns (u: nat)
    requires IsRun(k, states, actions) && n < |states| && At(states[n], id) && InUpload(states[n].tasks[id])
    ensures StartedAt(states, actions, u, n, id)
  {
    assert n > 0;
    assert StepAt(k, states, actions, n - 1);
    UploadBefore(k, states[n - 1], actions[n - 1], id);
    if At(states[n - 1], id) && InUpload(states[n - 1].tasks[id]) {
      u := UploadOrigin(k, states, actions, n - 1, id);
    } else {
      u := n - 1;
    }
  }

  /**
   * Whatever is under a stripe, renamed or acknowledged goes back to the upload that started it. One
   * that named an artifact is striped, renamed and acknowledged under that artifact and no other; and
   * what is renamed or acknowledged is the digest of the very bytes that the upload hashed.
   */
  lemma PublishedAsNamed(k: Codec, states: seq<State>, actions: seq<Action>, n: nat, id: nat) returns (u: nat)
    requires IsRun(k, states, actions) && n < |states| && At(states[n], id)
    requires states[n].tasks[id].Striped? || states[n].tasks[id].Renamed? || states[n].tasks[id].Acknowledged?
    ensures StartedAt(states, actions, u, n, id)
    ensures var t := states[n].tasks[id];
            var under := if t.Striped? then t.artifact else t.digest;
            && (actions[u].target.Some? ==> under == actions[u].target.value)
            && (actions[u].target.None? || !t.Striped? ==> under == k.sha(HashedBy(actions, u, n, id)))
  {
    u := UploadOrigin(k, states, actions, n, id);
    UploadTraced(k, states, actions, u, n, id);
  }

  /**
   * An upload whose bytes have another digest than the one it named changes no file and no row when it
   * comes to publish: that step ends it, and it never comes to write a row.
   */
  lemma MismatchChangesNothing(k: Codec, states: seq<State>, actions: seq<Action>, u: nat, n: nat, id: nat)
    requires IsRun(k, states, actions) && StartedAt(states, actions, u, n, id) && n < |actions|
    requires actions[u].target.Some? && k.sha(HashedBy(actions, u, n, id)) != actions[u].target.value
    requires actions[n] == PublishFile(id) || actions[n] == CommitRow(id)
    ensures actions[n] == PublishFile(id)
    ensures states[n + 1].files == states[n].files && states[n + 1].rows == states[n].rows
    ensures At(states[n + 1], id) && states[n + 1].tasks[id] == Ended
  {
    UploadTraced(k, states, actions, u, n, id);
    assert StepAt(k, states, actions, n);
  }

  /** An upload whose bytes are the ones it named, or that named none, is published and acknowledged. */
  lemma MatchPublishes(k: Codec, states: seq<State>, actions: seq<Action>, u: nat, n: nat, id: nat)
    requires Sound(k) && IsRun(k, states, actions) && StartedAt(states, actions, u, n, id) && n < |actions|
    requires var digest := k.sha(HashedBy(actions, u, n, id));
             actions[u].target.None? || actions[u].target.value == digest
    ensures actions[n] == PublishFile(id) ==>
              && k.sha(HashedBy(actions, u, n, id)) in states[n + 1].files
              && At(states[n + 1], id) && states[n + 1].tasks[id].Renamed?
    ensures actions[n] == CommitRow(id) ==>
              && k.sha(HashedBy(actions, u, n, id)) in states[n + 1].rows
              && (k.sha(HashedBy(actions, u, n, id)) !in states[n].rows ==>
                    states[n + 1].rows[k.sha(HashedBy(actions, u, n, id))]
                    == RowInfo(actions[u].encoding, |HashedBy(actions, u, n, id)|))
              && At(states[n + 1], id) && states[n + 1].tasks[id] == Acknowledged(k.sha(HashedBy(actions, u, n, id)))
  {
    UploadTraced(k, states, actions, u, n, id);
    RunKeeps(k, states, actions, n);
    assert StepAt(k, states, actions, n);
    assert TaskOk(k, states[n].temporaries, states[n].tasks[id]);
  }
}
