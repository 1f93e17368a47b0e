/**
 * What a lookup serves (src/cache/service.rs:399-422), in every run of the machine in module
 * Publication.
 */
module Lookups {
  import opened Words
  import opened Bytes
  import opened Identity
  import opened Encodings
  import opened Publication

  /** The stored bytes, decoded as the row says, are the staged body of that digest, with the row's length. */
  ghost predicate Serves(k: Codec, t: Task)
    requires t.Hit?
  {
    Contains(k, t.row.encoding, t.file.bytes, t.digest, t.row.contentLen)
  }

  /** Nothing expands to itself. */
  ghost predicate FramesDiffer(k: Codec) {
    forall b: Text :: k.expand(b) != Some(b)
  }

  lemma HitServes(k: Codec, t: Task)
    requires Sound(k) && t.Hit? && Complete(k, t.digest, t.file) && Truthful(k, t.digest, t.row)
    ensures t.file.encoding == t.row.encoding ==> Serves(k, t)
    ensures FramesDiffer(k) && Serves(k, t) ==> t.file.encoding == t.row.encoding
  {
    var body := Decode(k, t.file.encoding, t.file.bytes).value;
    var known: Text :| k.corpus(known) && k.sha(known) == t.digest && |known| == t.row.contentLen;
    assert known == body;
  }

  // ----- where a hit comes from -----

  /** Step `p` renamed the file of `digest` into place, and nothing took it before step `n`. */
  ghost predicate InstalledAt(states: seq<State>, actions: seq<Action>, p: nat, n: nat, digest: Digest)
    requires |states| == |actions| + 1
  {
    && p < n <= |actions| && Installs(states[p], actions[p], digest)
    && forall q :: p < q < n ==> !TakesFile(states[q], actions[q], digest)
  }

  /** Step `c` wrote the row of `digest`, and nothing dropped it before step `n`. */
  ghost predicate RecordedAt(states: seq<State>, actions: seq<Action>, c: nat, n: nat, digest: Digest)
    requires |states| == |actions| + 1
  {
    && c < n <= |actions| && Records(states[c], actions[c], digest)
    && forall q :: c < q < n ==> !DropsRow(states[q], actions[q], digest)
  }

  /** The encoding in which the publication that takes this step staged its body. */
  function StagedAs(s: State, a: Action): Encoding
    requires (a.PublishFile? || a.CommitRow?) && At(s, a.id)
    requires if a.PublishFile? then s.tasks[a.id].Striped? else s.tasks[a.id].Renamed?
  {
    s.tasks[a.id].encoding
  }

  lemma {:induction false} FileOrigin(k: Codec, states: seq<State>, actions: seq<Action>, n: nat, digest: Digest)
    returns (p: nat)
    requires IsRun(k, states, actions) && n < |states| && digest in states[n].files
    ensures InstalledAt(states, actions, p, n, digest)
    ensures states[n].files[digest].encoding == StagedAs(states[p], actions[p])
  {
    assert n > 0;
    var s, a := states[n - 1], actions[n - 1];
    assert StepAt(k, states, actions, n - 1);
    FileStep(k, s, a, digest);
    if digest in s.files {
      p := FileOrigin(k, states, actions, n - 1, digest);
      FileSame(k, s, a, digest);
    } else {
      p := n - 1;
      StageStoreShapeOf(k, s, a, digest);
    }
  }

  lemma FileSame(k: Codec, s: State, a: Action, digest: Digest)
    requires Enabled(k, s, a) && digest in s.files && digest in Step(k, s, a).files
    ensures Step(k, s, a).files[digest] == s.files[digest]
  {
    if Plain(a) {
      PlainStoreShape(k, s, a);
    } else {
      StageStoreShape(k, s, a);
    }
  }

  lemma StageStoreShapeOf(k: Codec, s: State, a: Action, digest: Digest)
    requires Enabled(k, s, a) && Installs(s, a, digest) && digest in Step(k, s, a).files
    ensures Step(k, s, a).files[digest].encoding == s.tasks[a.id].encoding
  {
    StageStoreShape(k, s, a);
  }

  lemma {:induction false} RowOrigin(k: Codec, states: seq<State>, actions: seq<Action>, n: nat, digest: Digest)
    returns (c: nat)
    requires IsRun(k, states, actions) && n < |states| && digest in states[n].rows
    ensures RecordedAt(states, actions, c, n, digest)
    ensures states[n].rows[digest].encoding == StagedAs(states[c], actions[c])
  {
    assert n > 0;
    var s, a := states[n - 1], actions[n - 1];
    assert StepAt(k, states, actions, n - 1);
    RowStep(k, s, a, digest);
    RowSame(k, s, a, digest);
    if digest in s.rows {
      c := RowOrigin(k, states, actions, n - 1, digest);
    } else {
      c := n - 1;
    }
  }

  lemma RowSame(k: Codec, s: State, a: Action, digest: Digest)
    requires Enabled(k, s, a) && digest in Step(k, s, a).rows
    ensures digest in s.rows ==> Step(k, s, a).rows[digest] == s.rows[digest]
    ensures digest !in s.rows ==> Records(s, a, digest) && Step(k, s, a).rows[digest].encoding == s.tasks[a.id].encoding
  {
    if Plain(a) {
      PlainStoreShape(k, s, a);
    } else {
      StageStoreShape(k, s, a);
    }
  }

  lemma ReadBefore(k: Codec, s: State, a: Action, id: nat)
    requires Enabled(k, s, a) && At(Step(k, s, a), id) && Step(k, s, a).tasks[id].RowRead?
    ensures var t := Step(k, s, a).tasks[id];
            && !a.Crash?
            && ((At(s, id) && s.tasks[id] == t)
                || (a == Locate(t.digest) && id == |s.tasks| && t.digest in s.rows && t.row == s.rows[t.digest]))
  {
  }

  lemma HitBefore(k: Codec, s: State, a: Action, id: nat)
    requires Enabled(k, s, a) && At(Step(k, s, a), id) && Step(k, s, a).tasks[id].Hit?
    ensures var t := Step(k, s, a).tasks[id];
            && !a.Crash? && At(s, id)
            && (s.tasks[id] == t
                || (a == OpenFile(id) && s.tasks[id] == RowRead(t.digest, t.row) &&
                    t.digest in s.files && t.file == s.files[t.digest]))
  {
  }

  /** Task `id` was started by the lookup of step `l` and has not been lost to a crash before step `n`. */
  ghost predicate LookedUpAt(states: seq<State>, actions: seq<Action>, l: nat, n: nat, id: nat, digest: Digest)
    requires |states| == |actions| + 1
  {
    l < n <= |actions| && actions[l] == Locate(digest) && id == |states[l].tasks| && digest in states[l].rows &&
    forall q :: l < q < n ==> !actions[q].Crash?
  }

  lemma {:induction false} ReadOrigin(k: Codec, states: seq<State>, actions: seq<Action>, n: nat, id: nat)
    returns (l: nat)
    requires IsRun(k, states, actions) && n < |states| && At(states[n], id) && states[n].tasks[id].RowRead?
    ensures LookedUpAt(states, actions, l, n, id, states[n].tasks[id].digest)
    ensures states[n].tasks[id].row == states[l].rows[states[n].tasks[id].digest]
  {
    assert n > 0;
    assert StepAt(k, states, actions, n - 1);
    ReadBefore(k, states[n - 1], actions[n - 1], id);
    if At(states[n - 1], id) && states[n - 1].tasks[id] == states[n].tasks[id] {
      l := ReadOrigin(k, states, actions, n - 1, id);
    } else {
      l := n - 1;
    }
  }

  lemma {:induction false} HitOrigin(k: Codec, states: seq<State>, actions: seq<Action>, n: nat, id: nat)
    returns (l: nat, o: nat)
    requires IsRun(k, states, actions) && n < |states| && At(states[n], id) && states[n].tasks[id].Hit?
    ensures l < o < n && actions[o] == OpenFile(id)
    ensures LookedUpAt(states, actions, l, n, id, states[n].tasks[id].digest)
    ensures states[n].tasks[id].row == states[l].rows[states[n].tasks[id].digest]
    ensures states[n].tasks[id].digest in states[o].files
    ensures states[n].tasks[id].file == states[o].files[states[n].tasks[id].digest]
  {
    assert n > 0;
    assert StepAt(k, states, actions, n - 1);
    HitBefore(k, states[n - 1], actions[n - 1], id);
    if states[n - 1].tasks[id] == states[n].tasks[id] {
      l, o := HitOrigin(k, states, actions, n - 1, id);
    } else {
      o := n - 1;
      l := ReadOrigin(k, states, actions, n - 1, id);
    }
  }

  /**
   * Every hit goes back to the lookup that read its row at `l` and opened its file at `o`, to the
   * publication that renamed that file into place at `p`, and to the one that wrote that row at `c`.
   * It serves the right body exactly when those two publications staged it in the same encoding.
   */
  lemma HitServesExactly(k: Codec, states: seq<State>, actions: seq<Action>, n: nat, id: nat)
    returns (l: nat, o: nat, p: nat, c: nat)
    requires Sound(k) && FramesDiffer(k) && IsRun(k, states, actions) && n < |states|
    requires At(states[n], id) && states[n].tasks[id].Hit?
    ensures l < o < n && actions[o] == OpenFile(id)
    ensures LookedUpAt(states, actions, l, n, id, states[n].tasks[id].digest)
    ensures InstalledAt(states, actions, p, o, states[n].tasks[id].digest)
    ensures RecordedAt(states, actions, c, l, states[n].tasks[id].digest)
    ensures Serves(k, states[n].tasks[id]) <==> StagedAs(states[p], actions[p]) == StagedAs(states[c], actions[c])
  {
    l, o := HitOrigin(k, states, actions, n, id);
    p := FileOrigin(k, states, actions, o, states[n].tasks[id].digest);
    c := RowOrigin(k, states, actions, l, states[n].tasks[id].digest);
    RunKeeps(k, states, actions, n);
    assert TaskOk(k, states[n].temporaries, states[n].tasks[id]);
    HitServes(k, states[n].tasks[id]);
  }

  // ----- one encoding per digest -----

  /** Publications use one encoding per digest. */
  ghost predicate SingleEncoding(choice: Digest -> Encoding, states: seq<State>, actions: seq<Action>)
    requires |states| == |actions| + 1
  {
    forall i :: 0 <= i < |actions| && actions[i].PublishFile? && At(states[i], actions[i].id) &&
                states[i].tasks[actions[i].id].Striped? && !Mismatched(states[i].tasks[actions[i].id]) ==>
      states[i].tasks[actions[i].id].encoding == choice(states[i].tasks[actions[i].id].digest)
  }

  ghost predicate Agreed(choice: Digest -> Encoding, s: State) {
    && (forall d :: d in s.files ==> s.files[d].encoding == choice(d))
    && (forall d :: d in s.rows ==> s.rows[d].encoding == choice(d))
    && (forall i :: 0 <= i < |s.tasks| ==> TaskAgreed(choice, s.tasks[i]))
  }

  ghost predicate TaskAgreed(choice: Digest -> Encoding, t: Task) {
    && (t.Renamed? ==> t.encoding == choice(t.digest))
    && (t.RowRead? ==> t.row.encoding == choice(t.digest))
    && (t.Hit? ==> t.row.encoding == choice(t.digest) && t.file.encoding == choice(t.digest))
  }

  lemma StepAgreesTask(k: Codec, choice: Digest -> Encoding, s: State, a: Action, i: nat)
    requires Agreed(choice, s) && Enabled(k, s, a) && i < |Step(k, s, a).tasks|
    requires a.PublishFile? && !Mismatched(s.tasks[a.id]) ==> s.tasks[a.id].encoding == choice(s.tasks[a.id].digest)
    ensures TaskAgreed(choice, Step(k, s, a).tasks[i])
  {
    if Plain(a) {
      PlainStepShape(k, s, a, i);
    } else {
      StageStepShape(k, s, a, i);
    }
    if i < |s.tasks| {
      assert TaskAgreed(choice, s.tasks[i]);
    }
  }

  lemma StepAgrees(k: Codec, choice: Digest -> Encoding, s: State, a: Action)
    requires Agreed(choice, s) && Enabled(k, s, a)
    requires a.PublishFile? && !Mismatched(s.tasks[a.id]) ==> s.tasks[a.id].encoding == choice(s.tasks[a.id].digest)
    ensures Agreed(choice, Step(k, s, a))
  {
    var next := Step(k, s, a);
    forall i | 0 <= i < |next.tasks| ensures TaskAgreed(choice, next.tasks[i]) {
      StepAgreesTask(k, choice, s, a, i);
    }
    if Plain(a) {
      PlainStoreShape(k, s, a);
      if a.CommitRow? {
        assert TaskAgreed(choice, s.tasks[a.id]);
      }
    } else {
      StageStoreShape(k, s, a);
    }
  }

  lemma {:induction false} RunAgrees(
    k: Codec, choice: Digest -> Encoding, states: seq<State>, actions: seq<Action>, i: nat)
    requires IsRun(k, states, actions) && SingleEncoding(choice, states, actions) && i < |states|
    ensures Agreed(choice, states[i])
  {
    if i > 0 {
      RunAgrees(k, choice, states, actions, i - 1);
      assert StepAt(k, states, actions, i - 1);
      StepAgrees(k, choice, states[i - 1], actions[i - 1]);
    }
  }

  /**
   * With one encoding per digest, every hit of every run serves the whole body its digest names,
   * whatever crashed, was evicted, republished or healed in between; anything else is a miss.
   */
  lemma LookupServesBodyOrMisses(
    k: Codec, choice: Digest -> Encoding, states: seq<State>, actions: seq<Action>, i: nat, id: nat)
    requires Sound(k) && IsRun(k, states, actions) && SingleEncoding(choice, states, actions) && i < |states|
    requires At(states[i], id) && states[i].tasks[id].Hit?
    ensures Serves(k, states[i].tasks[id])
  {
    RunKeeps(k, states, actions, i);
    RunAgrees(k, choice, states, actions, i);
    var t := states[i].tasks[id];
    assert TaskOk(k, states[i].temporaries, t) && TaskAgreed(choice, t);
    HitServes(k, t);
  }
}
