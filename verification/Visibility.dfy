/**
 * How long a publication can be found (src/cache/service.rs:274-489): what the transition stripes
 * keep, where files without a row come from, and what the missing recheck of a heal costs.
 */
module Visibility {
  import opened Identity
  import opened Encodings
  import opened Publication

  // ----- what the stripes keep -----

  /** One holder per stripe; what each holder has done to its artifact is still so. */
  ghost predicate Striping(s: State) {
    && (forall i, j, d ::
          0 <= i < |s.tasks| && 0 <= j < |s.tasks| && Holds(s.tasks[i], d) && Holds(s.tasks[j], d) ==> i == j)
    && (forall i :: 0 <= i < |s.tasks| ==> HolderOk(s, s.tasks[i]))
  }

  ghost predicate HolderOk(s: State, t: Task) {
    && (t.Renamed? ==> t.digest in s.files)
    && (t.Unlinked? ==> t.digest !in s.files)
  }

  lemma HolderKept(k: Codec, s: State, a: Action, j: nat)
    requires Striping(s) && Enabled(k, s, a) && j < |s.tasks| && j < |Step(k, s, a).tasks|
    requires Step(k, s, a).tasks[j] == s.tasks[j]
    ensures HolderOk(Step(k, s, a), s.tasks[j])
  {
    var t := s.tasks[j];
    assert HolderOk(s, t);
    if t.Renamed? || t.Unlinked? {
      assert Holds(t, t.digest);
      if Plain(a) {
        PlainStoreShape(k, s, a);
        if a.Unlink? || a.RemoveRow? {
          assert Holds(s.tasks[a.id], s.tasks[a.id].digest);
        }
      } else {
        StageStoreShape(k, s, a);
        if a.PublishFile? && !Mismatched(s.tasks[a.id]) {
          assert Holds(s.tasks[a.id], s.tasks[a.id].digest);
        }
      }
    }
  }

  lemma HolderAfter(k: Codec, s: State, a: Action, j: nat)
    requires Striping(s) && Enabled(k, s, a) && j < |Step(k, s, a).tasks|
    ensures HolderOk(Step(k, s, a), Step(k, s, a).tasks[j])
  {
    if j < |s.tasks| && Step(k, s, a).tasks[j] == s.tasks[j] {
      HolderKept(k, s, a, j);
    } else if Plain(a) {
      PlainStepShape(k, s, a, j);
    } else {
      StageStepShape(k, s, a, j);
    }
  }

  /** A step lets its own task take at most one stripe, and only one that was free or its own. */
  lemma StripeTaken(k: Codec, s: State, a: Action, j: nat, d: Digest)
    requires Enabled(k, s, a) && j < |Step(k, s, a).tasks| && Holds(Step(k, s, a).tasks[j], d)
    ensures (j < |s.tasks| && Holds(s.tasks[j], d)) || (StripeFree(s, d) && Takes(s, a, j))
  {
    if Plain(a) {
      PlainStepShape(k, s, a, j);
    } else {
      StageStepShape(k, s, a, j);
    }
  }

  predicate Takes(s: State, a: Action, j: nat) {
    (a.TakeStripe? && j == a.id) || (a.BeginEviction? && j == |s.tasks|)
  }

  lemma StripeStep(k: Codec, s: State, a: Action)
    requires Striping(s) && Enabled(k, s, a)
    ensures Striping(Step(k, s, a))
  {
    var r := Step(k, s, a);
    forall i, j, d | 0 <= i < |r.tasks| && 0 <= j < |r.tasks| && Holds(r.tasks[i], d) && Holds(r.tasks[j], d)
      ensures i == j
    {
      StripeTaken(k, s, a, i, d);
      StripeTaken(k, s, a, j, d);
    }
    forall j | 0 <= j < |r.tasks| ensures HolderOk(r, r.tasks[j]) {
      HolderAfter(k, s, a, j);
    }
  }

  lemma {:induction false} RunStripes(k: Codec, states: seq<State>, actions: seq<Action>, i: nat)
    requires IsRun(k, states, actions) && i < |states|
    ensures Striping(states[i])
  {
    if i > 0 {
      RunStripes(k, states, actions, i - 1);
      assert StepAt(k, states, actions, i - 1);
      StripeStep(k, states[i - 1], actions[i - 1]);
    }
  }

  // ----- files without a row -----

  predicate Publishing(t: Task, digest: Digest) {
    t.Renamed? && t.digest == digest
  }

  /** A file with no row, and no publication about to write one. */
  ghost predicate Orphan(s: State, digest: Digest) {
    digest in s.files && digest !in s.rows && forall i :: 0 <= i < |s.tasks| ==> !Publishing(s.tasks[i], digest)
  }

  /**
   * A publication is cut off between its rename and its row, a lookup heals a file that is there, or
   * the rows of the channel are wiped before its files.
   */
  ghost predicate CutsOff(s: State, a: Action, digest: Digest) {
    && digest in s.files
    && ((a.Drop? && At(s, a.id) && Publishing(s.tasks[a.id], digest) && digest !in s.rows)
        || (a.Crash? && digest !in s.rows && exists i :: 0 <= i < |s.tasks| && Publishing(s.tasks[i], digest))
        || (a.Heal? && At(s, a.id) && s.tasks[a.id] == Healing(digest))
        || a.WipeChannel?)
  }

  /** Something takes the file away, or another publication of the body finds it. */
  predicate Adopts(s: State, a: Action, digest: Digest) {
    || TakesFile(s, a, digest)
    || (a.PublishFile? && At(s, a.id) && s.tasks[a.id].Striped? && s.tasks[a.id].digest == digest &&
        !Mismatched(s.tasks[a.id]) && s.tasks[a.id].path in s.temporaries)
  }

  ghost predicate Busy(s: State, digest: Digest) {
    exists i :: 0 <= i < |s.tasks| && Publishing(s.tasks[i], digest)
  }

  /** Only a step of the publishing task itself, or a crash, ends a publication under way. */
  lemma BusyStep(k: Codec, s: State, a: Action, digest: Digest)
    requires Striping(s) && Enabled(k, s, a)
    ensures Busy(Step(k, s, a), digest) <==>
            (Adopts(s, a, digest) && a.PublishFile?) || (Busy(s, digest) && !EndsPublishing(s, a, digest))
  {
    var r := Step(k, s, a);
    if i :| 0 <= i < |s.tasks| && Publishing(s.tasks[i], digest) {
      PublisherAlone(s, i, digest);
      if EndsPublishing(s, a, digest) {
        PublisherEnds(k, s, a, digest);
      } else {
        PublisherStays(k, s, a, i, digest);
      }
    }
    forall j | 0 <= j < |r.tasks| && Publishing(r.tasks[j], digest)
      ensures (j < |s.tasks| && r.tasks[j] == s.tasks[j]) || (a == PublishFile(j) && Adopts(s, a, digest))
    {
      PublisherBefore(k, s, a, j, digest);
    }
    if Adopts(s, a, digest) && a.PublishFile? {
      assert Publishing(r.tasks[a.id], digest);
    }
  }

  lemma PublisherAlone(s: State, i: nat, digest: Digest)
    requires Striping(s) && i < |s.tasks| && Publishing(s.tasks[i], digest)
    ensures forall j :: 0 <= j < |s.tasks| && Publishing(s.tasks[j], digest) ==> j == i
  {
    assert Holds(s.tasks[i], digest);
    assert forall j :: 0 <= j < |s.tasks| && Publishing(s.tasks[j], digest) ==> Holds(s.tasks[j], digest);
  }

  lemma PublisherStays(k: Codec, s: State, a: Action, i: nat, digest: Digest)
    requires Enabled(k, s, a) && i < |s.tasks| && Publishing(s.tasks[i], digest) && !EndsPublishing(s, a, digest)
    ensures i < |Step(k, s, a).tasks| && Step(k, s, a).tasks[i] == s.tasks[i]
  {
  }

  lemma PublisherEnds(k: Codec, s: State, a: Action, digest: Digest)
    requires Enabled(k, s, a) && EndsPublishing(s, a, digest)
    ensures a.Crash? ==> Step(k, s, a).tasks == []
    ensures !a.Crash? ==> At(Step(k, s, a), a.id) && !Publishing(Step(k, s, a).tasks[a.id], digest)
  {
  }

  lemma PublisherBefore(k: Codec, s: State, a: Action, j: nat, digest: Digest)
    requires Enabled(k, s, a) && j < |Step(k, s, a).tasks| && Publishing(Step(k, s, a).tasks[j], digest)
    ensures (j < |s.tasks| && Step(k, s, a).tasks[j] == s.tasks[j]) || (a == PublishFile(j) && Adopts(s, a, digest))
  {
    if Plain(a) {
      PlainStepShape(k, s, a, j);
    } else {
      StageStepShape(k, s, a, j);
    }
  }

  predicate EndsPublishing(s: State, a: Action, digest: Digest) {
    a.Crash? || ((a.Drop? || a.CommitRow?) && At(s, a.id) && Publishing(s.tasks[a.id], digest))
  }

  lemma OrphanStep(k: Codec, s: State, a: Action, digest: Digest)
    requires Striping(s) && Enabled(k, s, a)
    ensures Orphan(Step(k, s, a), digest) <==>
            (Orphan(s, digest) && !Adopts(s, a, digest)) || CutsOff(s, a, digest)
  {
    BusyStep(k, s, a, digest);
    if Plain(a) {
      OrphanPlain(k, s, a, digest);
    } else {
      OrphanStaging(k, s, a, digest);
    }
  }

  lemma OrphanStaging(k: Codec, s: State, a: Action, digest: Digest)
    requires Enabled(k, s, a) && !Plain(a)
    requires Busy(Step(k, s, a), digest) <==> (Adopts(s, a, digest) && a.PublishFile?) || Busy(s, digest)
    ensures Orphan(Step(k, s, a), digest) <==> Orphan(s, digest) && !Adopts(s, a, digest)
  {
    var r := Step(k, s, a);
    assert r.rows == s.rows && (digest in r.files <==> digest in s.files || Installs(s, a, digest)) by {
      StageStoreShape(k, s, a);
      FileStep(k, s, a, digest);
    }
    assert Orphan(r, digest) <==> digest in r.files && digest !in r.rows && !Busy(r, digest);
    assert Orphan(s, digest) <==> digest in s.files && digest !in s.rows && !Busy(s, digest);
  }

  lemma OrphanPlain(k: Codec, s: State, a: Action, digest: Digest)
    requires Striping(s) && Enabled(k, s, a) && Plain(a)
    requires Busy(Step(k, s, a), digest) <==> Busy(s, digest) && !EndsPublishing(s, a, digest)
    ensures Orphan(Step(k, s, a), digest) <==>
            (Orphan(s, digest) && !Adopts(s, a, digest)) || CutsOff(s, a, digest)
  {
    PlainStoreShape(k, s, a);
    if a.Unlink? || a.RemoveRow? || a.CommitRow? || a.Drop? || a.Heal? {
      assert HolderOk(s, s.tasks[a.id]);
    }
    if a.Heal? && s.tasks[a.id] == Healing(digest) {
      assert !Busy(s, digest);
    }
  }

  /** Some step cut a file off from its row and nothing has adopted the file since. */
  ghost predicate Abandoned(states: seq<State>, actions: seq<Action>, n: nat, digest: Digest)
    requires n <= |states| && n <= |actions|
  {
    exists i :: 0 <= i < n && CutsOff(states[i], actions[i], digest) &&
                forall j :: i < j < n ==> !Adopts(states[j], actions[j], digest)
  }

  lemma AbandonedUnrolled(states: seq<State>, actions: seq<Action>, n: nat, digest: Digest)
    requires n < |states| && n < |actions|
    ensures Abandoned(states, actions, n + 1, digest) <==>
            (Abandoned(states, actions, n, digest) && !Adopts(states[n], actions[n], digest))
            || CutsOff(states[n], actions[n], digest)
  {
    if Abandoned(states, actions, n, digest) && !Adopts(states[n], actions[n], digest) {
      var i :| 0 <= i < n && CutsOff(states[i], actions[i], digest) &&
               forall j :: i < j < n ==> !Adopts(states[j], actions[j], digest);
      assert forall j :: i < j < n + 1 ==> !Adopts(states[j], actions[j], digest);
    }
  }

  /**
   * A file without a row comes from a publication cut off between rename and row, from a heal, or
   * from a channel deletion between its two stages, and from nothing else: an eviction, stopped
   * anywhere, never leaves one.
   */
  lemma {:induction false} OrphanExactly(
    k: Codec, states: seq<State>, actions: seq<Action>, n: nat, digest: Digest)
    requires IsRun(k, states, actions) && n < |states|
    ensures Orphan(states[n], digest) <==> Abandoned(states, actions, n, digest)
  {
    if n > 0 {
      OrphanExactly(k, states, actions, n - 1, digest);
      RunStripes(k, states, actions, n - 1);
      assert StepAt(k, states, actions, n - 1);
      OrphanStep(k, states[n - 1], actions[n - 1], digest);
      AbandonedUnrolled(states, actions, n - 1, digest);
    }
  }

  // ----- what the missing recheck of a heal costs -----

  /** The lookup of one task opens at step `o`, finds no file, and heals at step `h`. */
  ghost predicate Misses(states: seq<State>, actions: seq<Action>, o: nat, h: nat, digest: Digest)
    requires |states| == |actions| + 1
  {
    && o < h < |actions| && actions[o].OpenFile? && actions[h] == Heal(actions[o].id)
    && At(states[o], actions[o].id) && states[o].tasks[actions[o].id].RowRead?
    && states[o].tasks[actions[o].id].digest == digest && digest !in states[o].files
    && At(states[h], actions[o].id) && states[h].tasks[actions[o].id] == Healing(digest)
    && forall j :: o < j < h ==> !actions[j].Crash?
  }

  lemma HealingBefore(k: Codec, s: State, a: Action, id: nat)
    requires Enabled(k, s, a) && At(Step(k, s, a), id) && Step(k, s, a).tasks[id].Healing?
    ensures var d := Step(k, s, a).tasks[id].digest;
            && At(s, id) && !a.Crash?
            && (s.tasks[id] == Healing(d) ||
                (a == OpenFile(id) && s.tasks[id].RowRead? && s.tasks[id].digest == d && d !in s.files))
  {
  }

  /** A healing task was healing before, or its open has just missed. */
  ghost predicate HealingFollows(states: seq<State>, actions: seq<Action>, id: nat) {
    && |states| == |actions| + 1 && states[0].tasks == []
    && forall i :: 0 <= i < |actions| && At(states[i + 1], id) && states[i + 1].tasks[id].Healing? ==>
         && At(states[i], id) && !actions[i].Crash?
         && var d := states[i + 1].tasks[id].digest;
            || states[i].tasks[id] == Healing(d)
            || (actions[i] == OpenFile(id) && states[i].tasks[id].RowRead? && states[i].tasks[id].digest == d &&
                d !in states[i].files)
  }

  lemma RunHealingFollows(k: Codec, states: seq<State>, actions: seq<Action>, id: nat)
    requires IsRun(k, states, actions)
    ensures HealingFollows(states, actions, id)
  {
    forall i | 0 <= i < |actions| && At(states[i + 1], id) && states[i + 1].tasks[id].Healing?
      ensures At(states[i], id) && !actions[i].Crash?
      ensures var d := states[i + 1].tasks[id].digest;
              || states[i].tasks[id] == Healing(d)
              || (actions[i] == OpenFile(id) && states[i].tasks[id].RowRead? && states[i].tasks[id].digest == d &&
                  d !in states[i].files)
    {
      assert StepAt(k, states, actions, i);
      HealingBefore(k, states[i], actions[i], id);
    }
  }

  lemma {:induction false} HealingOrigin(states: seq<State>, actions: seq<Action>, i: nat, id: nat) returns (o: nat)
    requires HealingFollows(states, actions, id) && i < |states|
    requires At(states[i], id) && states[i].tasks[id].Healing?
    ensures o < i && actions[o] == OpenFile(id) && At(states[o], id) && states[o].tasks[id].RowRead?
    ensures states[o].tasks[id].digest == states[i].tasks[id].digest
    ensures states[i].tasks[id].digest !in states[o].files && forall j :: o < j < i ==> !actions[j].Crash?
  {
    var before := states[i - 1];
    if before.tasks[id].Healing? {
      o := HealingOrigin(states, actions, i - 1, id);
    } else {
      o := i - 1;
    }
  }

  /** A rename put the file in place since step `o`, and nothing has taken it away. */
  ghost predicate InstalledSince(states: seq<State>, actions: seq<Action>, o: nat, n: nat, digest: Digest)
    requires n <= |states| && n <= |actions|
  {
    exists p :: o <= p < n && Installs(states[p], actions[p], digest) &&
                forall q :: p < q < n ==> !TakesFile(states[q], actions[q], digest)
  }

  lemma InstalledUnrolled(states: seq<State>, actions: seq<Action>, o: nat, n: nat, digest: Digest)
    requires o <= n < |states| && n < |actions|
    ensures InstalledSince(states, actions, o, n + 1, digest) <==>
            Installs(states[n], actions[n], digest)
            || (InstalledSince(states, actions, o, n, digest) && !TakesFile(states[n], actions[n], digest))
  {
    if InstalledSince(states, actions, o, n, digest) && !TakesFile(states[n], actions[n], digest) {
      var p :| o <= p < n && Installs(states[p], actions[p], digest) &&
               forall q :: p < q < n ==> !TakesFile(states[q], actions[q], digest);
      assert forall q :: p < q < n + 1 ==> !TakesFile(states[q], actions[q], digest);
    }
  }

  /** How the presence of one file develops over a run. */
  ghost predicate FileFollows(states: seq<State>, actions: seq<Action>, digest: Digest) {
    && |states| == |actions| + 1
    && forall i :: 0 <= i < |actions| ==>
         (digest in states[i + 1].files <==>
          Installs(states[i], actions[i], digest)
          || (digest in states[i].files && !TakesFile(states[i], actions[i], digest)))
  }

  lemma RunFileFollows(k: Codec, states: seq<State>, actions: seq<Action>, digest: Digest)
    requires IsRun(k, states, actions)
    ensures FileFollows(states, actions, digest)
  {
    forall i | 0 <= i < |actions|
      ensures digest in states[i + 1].files <==>
              Installs(states[i], actions[i], digest)
              || (digest in states[i].files && !TakesFile(states[i], actions[i], digest))
    {
      assert StepAt(k, states, actions, i);
      FileStep(k, states[i], actions[i], digest);
    }
  }

  lemma {:induction false} FilePresent(
    states: seq<State>, actions: seq<Action>, o: nat, n: nat, digest: Digest)
    requires FileFollows(states, actions, digest) && o <= n < |states| && digest !in states[o].files
    ensures digest in states[n].files <==> InstalledSince(states, actions, o, n, digest)
    decreases n
  {
    if o < n {
      FilePresent(states, actions, o, n - 1, digest);
      InstalledUnrolled(states, actions, o, n - 1, digest);
    }
  }

  /**
   * Every heal goes back to an open that missed, and it removes the row of a file that is there
   * exactly when a publication renamed the file into place between the two and no eviction followed.
   */
  lemma HealIsLateExactly(k: Codec, states: seq<State>, actions: seq<Action>, h: nat) returns (o: nat)
    requires IsRun(k, states, actions) && h < |actions| && actions[h].Heal?
    ensures At(states[h], actions[h].id) && states[h].tasks[actions[h].id].Healing?
    ensures Misses(states, actions, o, h, states[h].tasks[actions[h].id].digest)
    ensures var d := states[h].tasks[actions[h].id].digest;
            d in states[h].files <==> InstalledSince(states, actions, o, h, d)
  {
    assert StepAt(k, states, actions, h);
    RunHealingFollows(k, states, actions, actions[h].id);
    o := HealingOrigin(states, actions, h, actions[h].id);
    RunFileFollows(k, states, actions, states[h].tasks[actions[h].id].digest);
    FilePresent(states, actions, o, h, states[h].tasks[actions[h].id].digest);
  }

  predicate Visible(s: State, digest: Digest) {
    digest in s.files && digest in s.rows
  }

  lemma VisibleStep(k: Codec, s: State, a: Action, digest: Digest)
    requires Striping(s) && Enabled(k, s, a) && Visible(s, digest)
    ensures Visible(Step(k, s, a), digest) <==>
            !Removes(s, a, digest) && !(a.Heal? && s.tasks[a.id] == Healing(digest))
  {
    FileStep(k, s, a, digest);
    if Plain(a) {
      PlainStoreShape(k, s, a);
      if a.RemoveRow? {
        assert HolderOk(s, s.tasks[a.id]);
      }
    } else {
      StageStoreShape(k, s, a);
    }
  }

  /** An eviction unlinks the body, or the channel is being deleted. */
  predicate Removes(s: State, a: Action, digest: Digest) {
    a.WipeChannel? || a.RemoveChannel? || (a.Unlink? && At(s, a.id) && s.tasks[a.id] == Evicting(digest))
  }

  /** A lookup that opened before step `r`, when the file was missing, heals between `c` and `n`. */
  ghost predicate LateHeal(states: seq<State>, actions: seq<Action>, r: nat, c: nat, n: nat, digest: Digest)
    requires |states| == |actions| + 1
  {
    exists o: nat, h: nat :: o < r && c < h < n && Misses(states, actions, o, h, digest)
  }

  /** Step `c` acknowledges a publication whose file step `r` renamed into place. */
  ghost predicate Acknowledges(states: seq<State>, actions: seq<Action>, r: nat, c: nat, digest: Digest)
    requires |states| == |actions| + 1
  {
    && r < c < |actions| && actions[c].CommitRow? && At(states[c], actions[c].id)
    && Publishing(states[c].tasks[actions[c].id], digest) && Installs(states[r], actions[r], digest)
    && forall q :: r < q < c ==> !TakesFile(states[q], actions[q], digest)
  }

  /** Every acknowledgement has the rename that put its file in place, its own or an earlier one. */
  lemma AcknowledgedInstalled(k: Codec, states: seq<State>, actions: seq<Action>, c: nat) returns (r: nat)
    requires IsRun(k, states, actions) && c < |actions| && actions[c].CommitRow?
    ensures At(states[c], actions[c].id) && states[c].tasks[actions[c].id].Renamed?
    ensures Acknowledges(states, actions, r, c, states[c].tasks[actions[c].id].digest)
  {
    assert StepAt(k, states, actions, c);
    var digest := states[c].tasks[actions[c].id].digest;
    RunStripes(k, states, actions, c);
    assert HolderOk(states[c], states[c].tasks[actions[c].id]);
    RunFileFollows(k, states, actions, digest);
    FilePresent(states, actions, 0, c, digest);
    r :| 0 <= r < c && Installs(states[r], actions[r], digest) &&
         forall q :: r < q < c ==> !TakesFile(states[q], actions[q], digest);
  }

  lemma AcknowledgedVisible(k: Codec, states: seq<State>, actions: seq<Action>, r: nat, c: nat, digest: Digest)
    requires IsRun(k, states, actions) && Acknowledges(states, actions, r, c, digest)
    ensures Visible(states[c + 1], digest)
  {
    RunStripes(k, states, actions, c);
    assert StepAt(k, states, actions, c);
    assert HolderOk(states[c], states[c].tasks[actions[c].id]);
  }

  predicate Heals(s: State, a: Action, digest: Digest) {
    a.Heal? && At(s, a.id) && s.tasks[a.id] == Healing(digest)
  }

  lemma VisibleAt(k: Codec, states: seq<State>, actions: seq<Action>, n: nat, digest: Digest)
    requires IsRun(k, states, actions) && n < |actions| && Visible(states[n], digest)
    ensures Visible(states[n + 1], digest) <==>
            !Removes(states[n], actions[n], digest) && !Heals(states[n], actions[n], digest)
  {
    RunStripes(k, states, actions, n);
    assert StepAt(k, states, actions, n);
    VisibleStep(k, states[n], actions[n], digest);
  }

  ghost predicate VisibleThrough(states: seq<State>, c: nat, n: nat, digest: Digest)
    requires n < |states|
  {
    forall m :: c < m <= n ==> Visible(states[m], digest)
  }

  ghost predicate NotRemoved(states: seq<State>, actions: seq<Action>, c: nat, n: nat, digest: Digest)
    requires n <= |states| && n <= |actions|
  {
    forall q :: c < q < n ==> !Removes(states[q], actions[q], digest)
  }

  lemma ThroughUnrolled(states: seq<State>, actions: seq<Action>, r: nat, c: nat, n: nat, digest: Digest)
    requires |states| == |actions| + 1 && c < n < |actions|
    ensures VisibleThrough(states, c, n + 1, digest) <==>
            VisibleThrough(states, c, n, digest) && Visible(states[n + 1], digest)
    ensures NotRemoved(states, actions, c, n + 1, digest) <==>
            NotRemoved(states, actions, c, n, digest) && !Removes(states[n], actions[n], digest)
    ensures LateHeal(states, actions, r, c, n, digest) ==> LateHeal(states, actions, r, c, n + 1, digest)
  {
  }

  /**
   * An acknowledged publication stays visible exactly until it is evicted or its channel deleted, or
   * until a lookup that missed the file before it was renamed into place heals its row away.
   */
  lemma {:induction false} VisibleExactly(
    k: Codec, states: seq<State>, actions: seq<Action>, r: nat, c: nat, n: nat, digest: Digest)
    requires IsRun(k, states, actions) && Acknowledges(states, actions, r, c, digest) && c < n < |states|
    ensures VisibleThrough(states, c, n, digest) <==>
            NotRemoved(states, actions, c, n, digest) && !LateHeal(states, actions, r, c, n, digest)
    decreases n
  {
    if n == c + 1 {
      AcknowledgedVisible(k, states, actions, r, c, digest);
    } else {
      VisibleExactly(k, states, actions, r, c, n - 1, digest);
      ThroughUnrolled(states, actions, r, c, n - 1, digest);
      if VisibleThrough(states, c, n - 1, digest) {
        VisibleAt(k, states, actions, n - 1, digest);
        LastHeal(k, states, actions, r, c, n, digest);
      }
    }
  }

  lemma FileStays(k: Codec, states: seq<State>, actions: seq<Action>, r: nat, n: nat, digest: Digest)
    requires IsRun(k, states, actions) && r < n < |states| && Installs(states[r], actions[r], digest)
    requires forall q :: r < q < n ==> !TakesFile(states[q], actions[q], digest)
    ensures digest in states[n].files
  {
    RunFileFollows(k, states, actions, digest);
    FilePresent(states, actions, r, n, digest);
  }

  /** While the publication is visible, a heal of its digest at the last step is a late one. */
  lemma LastHeal(k: Codec, states: seq<State>, actions: seq<Action>, r: nat, c: nat, n: nat, digest: Digest)
    requires IsRun(k, states, actions) && Acknowledges(states, actions, r, c, digest) && c + 1 < n < |states|
    requires VisibleThrough(states, c, n - 1, digest)
    ensures LateHeal(states, actions, r, c, n, digest) <==>
            LateHeal(states, actions, r, c, n - 1, digest) || Heals(states[n - 1], actions[n - 1], digest)
  {
    var h := n - 1;
    if Heals(states[h], actions[h], digest) {
      var o := HealIsLateExactly(k, states, actions, h);
      if o >= r {
        assert o != r;
        if o <= c {
          FileStays(k, states, actions, r, o, digest);
        }
      }
      assert o < r && c < h < n && Misses(states, actions, o, h, digest);
    }
  }
}
