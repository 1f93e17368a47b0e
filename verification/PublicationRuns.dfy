/**
 * Runs of the machine in module Publication: a partial temporary file, a hit that does not serve its
 * body (src/storage/local/artifact_files.rs:443-447), and a heal that hides a publication
 * (src/cache/service.rs:414-417).
 */
module PublicationRuns {
  import opened Words
  import opened Bytes
  import opened Identity
  import opened Encodings
  import opened Publication
  import opened Lookups
  import opened Visibility

  /** The state after some actions from an empty cache, if all of them are possible. */
  function After(k: Codec, actions: seq<Action>): Option<State> {
    if actions == [] then Some(EMPTY_STATE)
    else
      var before, a := After(k, actions[..|actions| - 1]), actions[|actions| - 1];
      if before.Some? && Enabled(k, before.value, a) then Some(Step(k, before.value, a)) else None
  }

  lemma {:induction false} AfterIsRun(k: Codec, actions: seq<Action>) returns (states: seq<State>)
    requires After(k, actions).Some?
    ensures IsRun(k, states, actions) && states[|actions|] == After(k, actions).value
  {
    if actions == [] {
      states := [EMPTY_STATE];
    } else {
      var n := |actions| - 1;
      var earlier := AfterIsRun(k, actions[..n]);
      states := earlier + [After(k, actions).value];
      forall i | 0 <= i < |actions| ensures StepAt(k, states, actions, i) {
        if i < n {
          assert StepAt(k, earlier, actions[..n], i);
        }
      }
    }
  }

  lemma RunThen(k: Codec, states: seq<State>, actions: seq<Action>, a: Action, next: State)
    requires IsRun(k, states, actions) && Enabled(k, states[|actions|], a) && next == Step(k, states[|actions|], a)
    ensures IsRun(k, states + [next], actions + [a])
  {
    forall i | 0 <= i < |actions + [a]| ensures StepAt(k, states + [next], actions + [a], i) {
      if i < |actions| {
        assert StepAt(k, states, actions, i);
      }
    }
  }

  lemma Then(k: Codec, actions: seq<Action>, s: State, a: Action) returns (longer: seq<Action>)
    requires After(k, actions) == Some(s) && Enabled(k, s, a)
    ensures longer == actions + [a] && After(k, longer) == Some(Step(k, s, a))
  {
    longer := actions + [a];
    assert longer[..|actions|] == actions;
  }

  function WithTask(s: State, t: Task): State {
    s.(tasks := s.tasks + [t])
  }

  function Writer(
    path: nat, e: Encoding, hashed: Text, unwritten: Option<Text>, accepted: seq<Text>, pending: Text): Task
  {
    Writing(path, e, None, hashed, unwritten, accepted, pending)
  }

  lemma HashAndAccept(k: Codec, base: State, path: nat, e: Encoding, body: Text)
    requires Sound(k)
    ensures var id, s1 := |base.tasks|, WithTask(base, Writer(path, e, [], None, [], []));
            var s2 := WithTask(base, Writer(path, e, body, Some(body), [], []));
            && Enabled(k, s1, Hash(id, body)) && Step(k, s1, Hash(id, body)) == s2
            && Enabled(k, s2, Accept(id))
            && Step(k, s2, Accept(id)) == WithTask(base, Writer(path, e, body, None, [body], Output(k, e, [body])))
  {
    OneChunk(k, e, body);
    var t := Writer(path, e, body, Some(body), [], []);
    assert t.accepted + [body] == [body];
    assert Gain(k, e, [], body) == Output(k, e, [body]) == [] + Output(k, e, [body]);
  }

  lemma CloseOne(k: Codec, base: State, path: nat, e: Encoding, body: Text)
    requires Sound(k)
    ensures var id := |base.tasks|;
            var s3 := WithTask(base, Writer(path, e, body, None, [body], Output(k, e, [body])));
            && Enabled(k, s3, Close(id))
            && Step(k, s3, Close(id)) == WithTask(base, Closing(path, e, body, None, [body], Frame(k, e, [body])))
  {
    OneChunk(k, e, body);
  }

  /** An upload up to its closed writer: one chunk hashed and accepted, nothing on disk yet. */
  lemma UploadRun(k: Codec, actions: seq<Action>, s: State, path: nat, e: Encoding, body: Text)
    returns (longer: seq<Action>)
    requires Sound(k) && After(k, actions) == Some(s) && path !in s.temporaries
    ensures After(k, longer) ==
            Some(WithTask(s.(temporaries := s.temporaries[path := []]),
                          Closing(path, e, body, None, [body], Frame(k, e, [body]))))
  {
    var id, base := |s.tasks|, s.(temporaries := s.temporaries[path := []]);
    HashAndAccept(k, base, path, e, body);
    CloseOne(k, base, path, e, body);
    longer := Then(k, actions, s, Upload(path, e, None));
    longer := Then(k, longer, WithTask(base, Writer(path, e, [], None, [], [])), Hash(id, body));
    longer := Then(k, longer, WithTask(base, Writer(path, e, body, Some(body), [], [])), Accept(id));
    longer := Then(k, longer, WithTask(base, Writer(path, e, body, None, [body], Output(k, e, [body]))), Close(id));
  }

  lemma OneChunk(k: Codec, e: Encoding, body: Text)
    requires Sound(k)
    ensures [] + body == body && [] + [body] == [body] && Output(k, e, []) == []
    ensures Output(k, e, [body])[0..] == Output(k, e, [body]) <= Frame(k, e, [body])
    ensures Output(k, e, [body]) + Frame(k, e, [body])[|Output(k, e, [body])|..] == Frame(k, e, [body])
  {
    assert [] + [body] == [body];
    FrameDecodes(k, e, [body]);
  }

  /** A crash before the flush leaves a temporary file empty that should hold a frame. */
  lemma PartialTemporaryRun(k: Codec, e: Encoding, body: Text) returns (states: seq<State>, actions: seq<Action>)
    requires Sound(k) && Frame(k, e, [body]) != []
    ensures IsRun(k, states, actions)
    ensures states[|actions|] == State(map[0 := []], map[], map[], [])
    ensures |actions| > 0 && states[|actions| - 1].tasks == [Closing(0, e, body, None, [body], Frame(k, e, [body]))]
  {
    actions := UploadRun(k, [], EMPTY_STATE, 0, e, body);
    var temporaries: map<nat, Text>, t := map[], Closing(0, e, body, None, [body], Frame(k, e, [body]));
    assert temporaries[0 := []] == map[0 := []] && [] + [t] == [t];
    states := AfterIsRun(k, actions);
    var next := State(map[0 := []], map[], map[], []);
    RunThen(k, states, actions, Crash, next);
    states, actions := states + [next], actions + [Crash];
  }

  /** From the closed writer to the staged file. */
  lemma StageRun(k: Codec, actions: seq<Action>, s: State, path: nat, e: Encoding, body: Text)
    returns (longer: seq<Action>)
    requires Sound(k) && After(k, actions) == Some(s) && path !in s.temporaries && k.corpus(body)
    ensures After(k, longer) ==
            Some(WithTask(s.(temporaries := s.temporaries[path := Frame(k, e, [body])]),
                          Staged(path, e, None, k.sha(body), |body|)))
  {
    var id, frame := |s.tasks|, Frame(k, e, [body]);
    longer := UploadRun(k, actions, s, path, e, body);
    FlushSteps(k, s, path, e, body, frame);
    var s1 := WithTask(s.(temporaries := s.temporaries[path := []]), Closing(path, e, body, None, [body], frame));
    longer := Then(k, longer, s1, Drain(id, |frame|));
    var s2 := WithTask(s.(temporaries := s.temporaries[path := frame]), Closing(path, e, body, None, [body], []));
    longer := Then(k, longer, s2, FinishStaging(id));
  }

  lemma FlushSteps(k: Codec, s: State, path: nat, e: Encoding, body: Text, frame: Text)
    requires k.corpus(body)
    ensures var id, staged := |s.tasks|, s.(temporaries := s.temporaries[path := frame]);
            var started := s.(temporaries := s.temporaries[path := []]);
            var s1 := WithTask(started, Closing(path, e, body, None, [body], frame));
            var s2 := WithTask(staged, Closing(path, e, body, None, [body], []));
            && Enabled(k, s1, Drain(id, |frame|)) && Step(k, s1, Drain(id, |frame|)) == s2
            && Enabled(k, s2, FinishStaging(id))
            && Step(k, s2, FinishStaging(id)) == WithTask(staged, Staged(path, e, None, k.sha(body), |body|))
  {
    assert frame[|frame|..] == [] && [] + frame[..|frame|] == frame;
    assert s.temporaries[path := []][path := frame] == s.temporaries[path := frame];
  }

  /** A staged body renamed into an empty place. */
  lemma RenameRun(k: Codec, actions: seq<Action>, s: State, path: nat, e: Encoding, body: Text)
    returns (longer: seq<Action>)
    requires Sound(k) && After(k, actions) == Some(s) && path !in s.temporaries && k.corpus(body)
    requires StripeFree(s, k.sha(body)) && k.sha(body) !in s.files
    ensures After(k, longer) ==
            Some(WithTask(s.(files := s.files[k.sha(body) := File(e, Frame(k, e, [body]))]),
                          Renamed(e, k.sha(body), |body|)))
  {
    var id, d, frame := |s.tasks|, k.sha(body), Frame(k, e, [body]);
    var staged := s.(temporaries := s.temporaries[path := frame]);
    longer := StageRun(k, actions, s, path, e, body);
    RenameSteps(k, s, path, e, frame, d, |body|);
    longer := Then(k, longer, WithTask(staged, Staged(path, e, None, d, |body|)), TakeStripe(id));
    longer := Then(k, longer, WithTask(staged, Striped(path, e, d, d, |body|)), PublishFile(id));
  }

  lemma RenameSteps(k: Codec, s: State, path: nat, e: Encoding, frame: Text, d: Digest, n: nat)
    requires path !in s.temporaries && StripeFree(s, d) && d !in s.files
    ensures var id, staged := |s.tasks|, s.(temporaries := s.temporaries[path := frame]);
            var s1, s2 := WithTask(staged, Staged(path, e, None, d, n)), WithTask(staged, Striped(path, e, d, d, n));
            && Enabled(k, s1, TakeStripe(id)) && Step(k, s1, TakeStripe(id)) == s2
            && Enabled(k, s2, PublishFile(id))
            && Step(k, s2, PublishFile(id)) == WithTask(s.(files := s.files[d := File(e, frame)]), Renamed(e, d, n))
  {
    assert s.temporaries[path := frame] - {path} == s.temporaries;
  }

  /**
   * A crash between the unlink and the metadata of an eviction leaves a row without a file, which
   * recovery does not touch. Publishing the same body in the other encoding installs the new file and
   * keeps the old row; the hit is then undecodable.
   */
  lemma MixedEncodingRun(k: Codec, body: Text) returns (states: seq<State>, actions: seq<Action>)
    requires Sound(k) && FramesDiffer(k) && k.corpus(body)
    ensures IsRun(k, states, actions) && At(states[|actions|], 1)
    ensures states[|actions|].tasks[1].Hit? && states[|actions|].tasks[1].digest == k.sha(body)
    ensures !Serves(k, states[|actions|].tasks[1])
  {
    var d, n := k.sha(body), |body|;
    var file := File(Zstd, Frame(k, Zstd, [body]));
    actions := RowWithoutFile(k, body);
    actions := RenameRun(k, actions, State(map[], map[], map[d := RowInfo(Identity, n)], []), 0, Zstd, body);
    var none: map<Digest, File>, t := map[], Renamed(Zstd, d, n);
    assert none[d := file] == OnlyFile(d, file) && [] + [t] == [t];
    MixedSteps(k, file, d, n);
    var files, rows := OnlyFile(d, file), map[d := RowInfo(Identity, n)];
    actions := Then(k, actions, State(map[], files, rows, [t]), CommitRow(0));
    actions := Then(k, actions, State(map[], files, rows, [Acknowledged(d)]), Locate(d));
    var read := RowRead(d, RowInfo(Identity, n));
    actions := Then(k, actions, State(map[], files, rows, [Acknowledged(d), read]), OpenFile(1));
    states := AfterIsRun(k, actions);
    MixedHit(k, states, actions, d, file, n);
  }

  lemma MixedHit(k: Codec, states: seq<State>, actions: seq<Action>, d: Digest, file: File, n: nat)
    requires Sound(k) && FramesDiffer(k) && IsRun(k, states, actions) && file.encoding == Zstd
    requires states[|actions|].tasks == [Acknowledged(d), Hit(d, file, RowInfo(Identity, n))]
    ensures !Serves(k, states[|actions|].tasks[1])
  {
    RunKeeps(k, states, actions, |actions|);
    assert TaskOk(k, states[|actions|].temporaries, states[|actions|].tasks[1]);
    HitServes(k, states[|actions|].tasks[1]);
  }

  lemma MixedSteps(k: Codec, file: File, d: Digest, n: nat)
    ensures var files, row := OnlyFile(d, file), RowInfo(Identity, n);
            var rows, read := map[d := row], RowRead(d, row);
            var s1 := State(map[], files, rows, [Renamed(Zstd, d, n)]);
            var s2 := State(map[], files, rows, [Acknowledged(d)]);
            var s3 := State(map[], files, rows, [Acknowledged(d), read]);
            && Enabled(k, s1, CommitRow(0)) && Step(k, s1, CommitRow(0)) == s2
            && Enabled(k, s2, Locate(d)) && Step(k, s2, Locate(d)) == s3
            && Enabled(k, s3, OpenFile(1))
            && Step(k, s3, OpenFile(1)).tasks == [Acknowledged(d), Hit(d, file, RowInfo(Identity, n))]
  {
  }

  /** A published artifact whose eviction is stopped by a crash after the unlink. */
  lemma RowWithoutFile(k: Codec, body: Text) returns (actions: seq<Action>)
    requires Sound(k) && k.corpus(body)
    ensures After(k, actions) == Some(State(map[], map[], map[k.sha(body) := RowInfo(Identity, |body|)], []))
  {
    var d, files := k.sha(body), OnlyFile(k.sha(body), File(Identity, Frame(k, Identity, [body])));
    var row := RowInfo(Identity, |body|);
    actions := FirstRecorded(k, body);
    StoppedEviction(k, files, d, row);
    actions := Then(k, actions, State(map[], files, map[d := row], [Acknowledged(d)]), BeginEviction(d));
    actions := Then(k, actions, State(map[], files, map[d := row], [Acknowledged(d), Evicting(d)]), Unlink(1));
    actions := Then(k, actions, State(map[], map[], map[d := row], [Acknowledged(d), Unlinked(d)]), Crash);
  }

  lemma StoppedEviction(k: Codec, files: map<Digest, File>, d: Digest, row: RowInfo)
    requires files.Keys == {d}
    ensures var rows, t := map[d := row], Acknowledged(d);
            var s1, s2 := State(map[], files, rows, [t]), State(map[], files, rows, [t, Evicting(d)]);
            && Enabled(k, s1, BeginEviction(d)) && Step(k, s1, BeginEviction(d)) == s2
            && Enabled(k, s2, Unlink(1))
            && Step(k, s2, Unlink(1)) == State(map[], map[], rows, [t, Unlinked(d)])
  {
    assert files - {d} == map[];
  }

  function OnlyFile(d: Digest, file: File): map<Digest, File> {
    map[d := file]
  }

  /** The first publication of a body into an empty cache, up to its rename. */
  lemma FirstRename(k: Codec, body: Text) returns (actions: seq<Action>)
    requires Sound(k) && k.corpus(body)
    ensures After(k, actions) ==
            Some(State(map[], OnlyFile(k.sha(body), File(Identity, Frame(k, Identity, [body]))), map[],
                       [Renamed(Identity, k.sha(body), |body|)]))
  {
    actions := RenameRun(k, [], EMPTY_STATE, 0, Identity, body);
    var d, file, t := k.sha(body), File(Identity, Frame(k, Identity, [body])), Renamed(Identity, k.sha(body), |body|);
    assert EMPTY_STATE.files[d := file] == OnlyFile(d, file) && EMPTY_STATE.tasks + [t] == [t];
  }

  /** The first publication of a body, acknowledged. */
  lemma FirstRecorded(k: Codec, body: Text) returns (actions: seq<Action>)
    requires Sound(k) && k.corpus(body)
    ensures After(k, actions) ==
            Some(State(map[], OnlyFile(k.sha(body), File(Identity, Frame(k, Identity, [body]))),
                       map[k.sha(body) := RowInfo(Identity, |body|)], [Acknowledged(k.sha(body))]))
  {
    var d, files := k.sha(body), OnlyFile(k.sha(body), File(Identity, Frame(k, Identity, [body])));
    actions := FirstRename(k, body);
    RecordStep(k, files, d, |body|);
    actions := Then(k, actions, State(map[], files, map[], [Renamed(Identity, d, |body|)]), CommitRow(0));
  }

  lemma RecordStep(k: Codec, files: map<Digest, File>, d: Digest, n: nat)
    ensures var s := State(map[], files, map[], [Renamed(Identity, d, n)]);
            && Enabled(k, s, CommitRow(0))
            && Step(k, s, CommitRow(0)) == State(map[], files, map[d := RowInfo(Identity, n)], [Acknowledged(d)])
  {
  }

  /**
   * A lookup reads the row, an eviction completes, the lookup's open misses, and the artifact is
   * published again and acknowledged. The lookup's heal then hides the new publication.
   */
  lemma HealHidesRepublication(k: Codec, body: Text) returns (states: seq<State>, actions: seq<Action>)
    requires Sound(k) && k.corpus(body)
    ensures IsRun(k, states, actions) && |actions| >= 2
    ensures actions[|actions| - 2].CommitRow? && actions[|actions| - 1].Heal?
    ensures Visible(states[|actions| - 1], k.sha(body))
    ensures k.sha(body) in states[|actions|].files && k.sha(body) !in states[|actions|].rows
  {
    var earlier := Republished(k, body);
    var before := AfterIsRun(k, earlier);
    var s := Found(k, body);
    assert before[|earlier|] == s;
    HideSteps(k, s.files[k.sha(body)], k.sha(body), |body|);
    var next := Step(k, s, Heal(1));
    RunThen(k, before, earlier, Heal(1), next);
    states, actions := before + [next], earlier + [Heal(1)];
  }

  /** The republished artifact, with the lookup of its evicted predecessor still about to heal. */
  function Found(k: Codec, body: Text): State {
    var d := k.sha(body);
    State(map[], OnlyFile(d, File(Identity, Frame(k, Identity, [body]))), map[d := RowInfo(Identity, |body|)],
          [Acknowledged(d), Healing(d), Ended] + [Acknowledged(d)])
  }

  lemma Republished(k: Codec, body: Text) returns (actions: seq<Action>)
    requires Sound(k) && k.corpus(body)
    ensures After(k, actions) == Some(Found(k, body)) && actions != [] && actions[|actions| - 1].CommitRow?
  {
    var d, raw := k.sha(body), File(Identity, Frame(k, Identity, [body]));
    var tasks := [Acknowledged(d), Healing(d), Ended];
    actions := EvictedUnderLookup(k, body);
    actions := RenameRun(k, actions, State(map[], map[], map[], tasks), 0, Identity, body);
    var none: map<Digest, File> := map[];
    assert none[d := raw] == OnlyFile(d, raw);
    HideSteps(k, raw, d, |body|);
    var renamed := State(map[], OnlyFile(d, raw), map[], tasks + [Renamed(Identity, d, |body|)]);
    actions := Then(k, actions, renamed, CommitRow(3));
  }

  lemma HideSteps(k: Codec, raw: File, d: Digest, n: nat)
    ensures var tasks := [Acknowledged(d), Healing(d), Ended];
            var s1 := State(map[], OnlyFile(d, raw), map[], tasks + [Renamed(Identity, d, n)]);
            var s2 := State(map[], OnlyFile(d, raw), map[d := RowInfo(Identity, n)], tasks + [Acknowledged(d)]);
            && Enabled(k, s1, CommitRow(3)) && Step(k, s1, CommitRow(3)) == s2
            && Enabled(k, s2, Heal(1)) && Visible(s2, d)
            && d in Step(k, s2, Heal(1)).files && d !in Step(k, s2, Heal(1)).rows
  {
  }

  lemma EvictedUnderLookup(k: Codec, body: Text) returns (actions: seq<Action>)
    requires Sound(k) && k.corpus(body)
    ensures After(k, actions) ==
            Some(State(map[], map[], map[], [Acknowledged(k.sha(body)), Healing(k.sha(body)), Ended]))
  {
    var d, row := k.sha(body), RowInfo(Identity, |body|);
    var files, rows := OnlyFile(d, File(Identity, Frame(k, Identity, [body]))), map[d := row];
    var t, u := Acknowledged(d), RowRead(d, row);
    actions := FirstRecorded(k, body);
    EvictionStarts(k, files, d, row);
    actions := Then(k, actions, State(map[], files, rows, [t]), Locate(d));
    actions := Then(k, actions, State(map[], files, rows, [t, u]), BeginEviction(d));
    EvictionEnds(k, files, d, row);
    actions := Then(k, actions, State(map[], files, rows, [t, u, Evicting(d)]), Unlink(2));
    actions := Then(k, actions, State(map[], map[], rows, [t, u, Unlinked(d)]), RemoveRow(2));
    actions := Then(k, actions, State(map[], map[], map[], [t, u, Ended]), OpenFile(1));
  }

  lemma EvictionStarts(k: Codec, files: map<Digest, File>, d: Digest, row: RowInfo)
    requires files.Keys == {d}
    ensures var rows, t, u := map[d := row], Acknowledged(d), RowRead(d, row);
            var s1, s2 := State(map[], files, rows, [t]), State(map[], files, rows, [t, u]);
            && Enabled(k, s1, Locate(d)) && Step(k, s1, Locate(d)) == s2
            && Enabled(k, s2, BeginEviction(d))
            && Step(k, s2, BeginEviction(d)) == State(map[], files, rows, [t, u, Evicting(d)])
  {
  }

  lemma EvictionEnds(k: Codec, files: map<Digest, File>, d: Digest, row: RowInfo)
    requires files.Keys == {d}
    ensures var rows, t, u := map[d := row], Acknowledged(d), RowRead(d, row);
            var s3 := State(map[], files, rows, [t, u, Evicting(d)]);
            var s4 := State(map[], map[], rows, [t, u, Unlinked(d)]);
            var s5 := State(map[], map[], map[], [t, u, Ended]);
            && Enabled(k, s3, Unlink(2)) && Step(k, s3, Unlink(2)) == s4
            && Enabled(k, s4, RemoveRow(2)) && Step(k, s4, RemoveRow(2)) == s5
            && Enabled(k, s5, OpenFile(1))
            && Step(k, s5, OpenFile(1)) == State(map[], map[], map[], [t, Healing(d), Ended])
  {
    assert files - {d} == map[];
    assert map[d := row] - {d} == map[];
  }
}
