/**
 * Publication, lookup and eviction of the artifacts of one channel, interleaved step by step
 * (src/storage/local/artifact_files.rs:201-473, src/cache/service.rs:274-489). A step is one call on
 * the hasher, the writer, the filesystem or the metadata, except that the test for an existing file
 * and the rename or removal after it are one step; a process crash may fall between any two steps
 * and keeps what is on disk. Every artifact has its own transition stripe, held exactly while some
 * task stands at a program point that holds it.
 */
module Publication {
  import opened Words
  import opened Bytes
  import opened Identity
  import opened Encodings

  /** A stored body; the encoding it was written in is not on disk. */
  datatype File = File(encoding: Encoding, bytes: Text)

  datatype RowInfo = RowInfo(encoding: Encoding, contentLen: nat)

  datatype Task =
    // Staging: the hasher has been fed `hashed`, the writer `accepted`; `pending` is buffered output.
    | Writing(path: nat, encoding: Encoding, target: Option<Digest>, hashed: Text, unwritten: Option<Text>,
              accepted: seq<Text>, pending: Text)
    | Closing(path: nat, encoding: Encoding, hashed: Text, target: Option<Digest>, accepted: seq<Text>, pending: Text)
    | Staged(path: nat, encoding: Encoding, target: Option<Digest>, digest: Digest, len: nat)
    // Publishing, under the stripe of `artifact`.
    | Striped(path: nat, encoding: Encoding, artifact: Digest, digest: Digest, len: nat)
    | Renamed(encoding: Encoding, digest: Digest, len: nat)
    | Acknowledged(digest: Digest)
    // Looking up.
    | RowRead(digest: Digest, row: RowInfo)
    | Healing(digest: Digest)
    | Hit(digest: Digest, file: File, row: RowInfo)
    // Evicting, under the stripe: the row was current, then the body is unlinked.
    | Evicting(digest: Digest)
    | Unlinked(digest: Digest)
    | Ended

  datatype State = State(
    temporaries: map<nat, Text>, files: map<Digest, File>, rows: map<Digest, RowInfo>, tasks: seq<Task>)

  datatype Action =
    | Upload(path: nat, encoding: Encoding, target: Option<Digest>)
    | Hash(id: nat, chunk: Text)
    | Accept(id: nat)
    | Drain(id: nat, count: nat)
    | Close(id: nat)
    | FinishStaging(id: nat)
    | TakeStripe(id: nat)
    | PublishFile(id: nat)
    | CommitRow(id: nat)
    | Locate(digest: Digest)
    | OpenFile(id: nat)
    | Heal(id: nat)
    | BeginEviction(digest: Digest)
    | Unlink(id: nat)
    | RemoveRow(id: nat)
    | Reconcile(digest: Digest)
    | WipeChannel
    | RemoveChannel
    | RemoveTemporary(path: nat)
    | Drop(id: nat)
    | Crash

  const EMPTY_STATE: State := State(map[], map[], map[], [])

  predicate At(s: State, id: nat) {
    id < |s.tasks|
  }

  predicate Owns(t: Task) {
    t.Writing? || t.Closing? || t.Staged? || t.Striped?
  }

  predicate Holds(t: Task, digest: Digest) {
    || (t.Striped? && t.artifact == digest) || (t.Renamed? && t.digest == digest)
    || (t.Evicting? && t.digest == digest) || (t.Unlinked? && t.digest == digest)
  }

  predicate StripeFree(s: State, digest: Digest) {
    forall i :: 0 <= i < |s.tasks| ==> !Holds(s.tasks[i], digest)
  }

  /** Deletion of the channel holds the gate exclusively; a publication under its stripe holds it shared. */
  predicate GateFree(s: State) {
    forall i :: 0 <= i < |s.tasks| ==> !s.tasks[i].Striped? && !s.tasks[i].Renamed?
  }

  function ArtifactOf(t: Task): Digest
    requires t.Staged?
  {
    if t.target.Some? then t.target.value else t.digest
  }

  predicate Enabled(k: Codec, s: State, a: Action) {
    match a
    case Upload(path, _, _) => path !in s.temporaries
    case Hash(id, _) => At(s, id) && s.tasks[id].Writing? && s.tasks[id].unwritten.None?
    case Accept(id) => At(s, id) && s.tasks[id].Writing? && s.tasks[id].unwritten.Some?
    case Drain(id, count) =>
      At(s, id) && (s.tasks[id].Writing? || s.tasks[id].Closing?) && count <= |s.tasks[id].pending|
    case Close(id) => At(s, id) && s.tasks[id].Writing? && s.tasks[id].unwritten.None?
    case FinishStaging(id) =>
      At(s, id) && s.tasks[id].Closing? && s.tasks[id].pending == [] && k.corpus(s.tasks[id].hashed)
    case TakeStripe(id) => At(s, id) && s.tasks[id].Staged? && StripeFree(s, ArtifactOf(s.tasks[id]))
    case PublishFile(id) => At(s, id) && s.tasks[id].Striped?
    case CommitRow(id) => At(s, id) && s.tasks[id].Renamed?
    case Locate(_) => true
    case OpenFile(id) => At(s, id) && s.tasks[id].RowRead?
    case Heal(id) => At(s, id) && s.tasks[id].Healing? && StripeFree(s, s.tasks[id].digest)
    case BeginEviction(digest) => digest in s.rows && StripeFree(s, digest)
    case Unlink(id) => At(s, id) && s.tasks[id].Evicting?
    case RemoveRow(id) => At(s, id) && s.tasks[id].Unlinked?
    case Reconcile(digest) => digest !in s.rows && StripeFree(s, digest)
    case WipeChannel => GateFree(s)
    case RemoveChannel => GateFree(s)
    case RemoveTemporary(path) =>
      forall i :: 0 <= i < |s.tasks| && Owns(s.tasks[i]) ==> s.tasks[i].path != path
    case Drop(id) => At(s, id)
    case Crash => true
  }

  function To(s: State, id: nat, t: Task): State
    requires At(s, id)
  {
    s.(tasks := s.tasks[id := t])
  }

  /** Bytes leave the buffer of a writer and reach its temporary file. */
  function Drained(s: State, id: nat, count: nat): State
    requires At(s, id) && (s.tasks[id].Writing? || s.tasks[id].Closing?) && count <= |s.tasks[id].pending|
  {
    var t := s.tasks[id];
    var bytes := (if t.path in s.temporaries then s.temporaries[t.path] else []) + t.pending[..count];
    To(s, id, t.(pending := t.pending[count..])).(temporaries := s.temporaries[t.path := bytes])
  }

  /** The upload named a digest that its body does not have. */
  predicate Mismatched(t: Task)
    requires t.Striped?
  {
    t.artifact != t.digest
  }

  /** Renames the temporary file, whatever it holds, unless the artifact is already there. */
  function Published(s: State, id: nat): State
    requires At(s, id) && s.tasks[id].Striped?
  {
    var t := s.tasks[id];
    var moved := s.(temporaries := s.temporaries - {t.path});
    if Mismatched(t) || t.path !in s.temporaries then To(moved, id, Ended)
    else if t.digest in s.files then To(moved, id, Renamed(t.encoding, t.digest, t.len))
    else
      To(moved, id, Renamed(t.encoding, t.digest, t.len))
        .(files := s.files[t.digest := File(t.encoding, s.temporaries[t.path])])
  }

  function Committed(s: State, id: nat): State
    requires At(s, id) && s.tasks[id].Renamed?
  {
    var t := s.tasks[id];
    var acknowledged := To(s, id, Acknowledged(t.digest));
    if t.digest in s.rows then acknowledged
    else acknowledged.(rows := s.rows[t.digest := RowInfo(t.encoding, t.len)])
  }

  function Step(k: Codec, s: State, a: Action): State
    requires Enabled(k, s, a)
  {
    match a
    case Upload(path, encoding, target) =>
      s.(temporaries := s.temporaries[path := []],
         tasks := s.tasks + [Writing(path, encoding, target, [], None, [], [])])
    case Hash(id, chunk) =>
      var t := s.tasks[id];
      To(s, id, t.(hashed := t.hashed + chunk, unwritten := Some(chunk)))
    case Accept(id) =>
      var t := s.tasks[id];
      var chunk := t.unwritten.value;
      var output := t.pending + Gain(k, t.encoding, t.accepted, chunk);
      To(s, id, t.(unwritten := None, accepted := t.accepted + [chunk], pending := output))
    case Drain(id, count) => Drained(s, id, count)
    case Close(id) =>
      var t := s.tasks[id];
      var output := t.pending + Trailer(k, t.encoding, t.accepted);
      To(s, id, Closing(t.path, t.encoding, t.hashed, t.target, t.accepted, output))
    case FinishStaging(id) =>
      var t := s.tasks[id];
      To(s, id, Staged(t.path, t.encoding, t.target, k.sha(t.hashed), |t.hashed|))
    case TakeStripe(id) =>
      var t := s.tasks[id];
      To(s, id, Striped(t.path, t.encoding, ArtifactOf(t), t.digest, t.len))
    case PublishFile(id) => Published(s, id)
    case CommitRow(id) => Committed(s, id)
    case Locate(digest) =>
      s.(tasks := s.tasks + [if digest in s.rows then RowRead(digest, s.rows[digest]) else Ended])
    case OpenFile(id) =>
      var t := s.tasks[id];
      if t.digest in s.files then To(s, id, Hit(t.digest, s.files[t.digest], t.row)) else To(s, id, Healing(t.digest))
    case Heal(id) => To(s, id, Ended).(rows := s.rows - {s.tasks[id].digest})
    case BeginEviction(digest) => s.(tasks := s.tasks + [Evicting(digest)])
    case Unlink(id) =>
      To(s, id, Unlinked(s.tasks[id].digest)).(files := s.files - {s.tasks[id].digest})
    case RemoveRow(id) => To(s, id, Ended).(rows := s.rows - {s.tasks[id].digest})
    case Reconcile(digest) => s.(files := s.files - {digest})
    case WipeChannel => s.(rows := map[])
    // Temporary files go too; an upload that loses its file can only fail, which is a `Drop`.
    case RemoveChannel => s.(files := map[])
    case RemoveTemporary(path) => s.(temporaries := s.temporaries - {path})
    case Drop(id) => To(s, id, Ended)
    case Crash => s.(tasks := [])
  }

  // ----- what is on disk, and what a task knows of it -----

  /** The bytes decode, under that encoding, to a staged body with that digest and length. */
  ghost predicate Contains(k: Codec, e: Encoding, bytes: Text, digest: Digest, len: nat) {
    var body := Decode(k, e, bytes);
    body.Some? && k.sha(body.value) == digest && k.corpus(body.value) && |body.value| == len
  }

  /** The file decodes, under its own encoding, to a body whose digest is its name. */
  ghost predicate Complete(k: Codec, digest: Digest, f: File) {
    var body := Decode(k, f.encoding, f.bytes);
    body.Some? && k.sha(body.value) == digest && k.corpus(body.value)
  }

  /** The row gives the length of the body with that digest. */
  ghost predicate Truthful(k: Codec, digest: Digest, row: RowInfo) {
    exists body: Text :: k.corpus(body) && k.sha(body) == digest && |body| == row.contentLen
  }

  function Waiting(unwritten: Option<Text>): Text {
    if unwritten.Some? then unwritten.value else []
  }

  /** Disk and buffer together are the writer's output, and the hasher is ahead by the chunk in hand. */
  ghost predicate WritingOk(k: Codec, temporaries: map<nat, Text>, t: Task)
    requires t.Writing?
  {
    && t.path in temporaries
    && temporaries[t.path] + t.pending == Output(k, t.encoding, t.accepted)
    && t.hashed == Flat(t.accepted) + Waiting(t.unwritten)
  }

  ghost predicate ClosingOk(k: Codec, temporaries: map<nat, Text>, t: Task)
    requires t.Closing?
  {
    && t.path in temporaries
    && temporaries[t.path] + t.pending == Frame(k, t.encoding, t.accepted)
    && t.hashed == Flat(t.accepted)
  }

  ghost predicate TaskOk(k: Codec, temporaries: map<nat, Text>, t: Task) {
    && (t.Writing? ==> WritingOk(k, temporaries, t))
    && (t.Closing? ==> ClosingOk(k, temporaries, t))
    && (t.Staged? || t.Striped? ==>
          t.path in temporaries && Contains(k, t.encoding, temporaries[t.path], t.digest, t.len))
    && (t.Renamed? ==> Truthful(k, t.digest, RowInfo(t.encoding, t.len)))
    && (t.RowRead? ==> Truthful(k, t.digest, t.row))
    && (t.Hit? ==> Complete(k, t.digest, t.file) && Truthful(k, t.digest, t.row))
  }

  ghost predicate FilesOk(k: Codec, files: map<Digest, File>) {
    forall d :: d in files ==> Complete(k, d, files[d])
  }

  ghost predicate RowsOk(k: Codec, rows: map<Digest, RowInfo>) {
    forall d :: d in rows ==> Truthful(k, d, rows[d])
  }

  ghost predicate TasksOk(k: Codec, s: State) {
    forall i :: 0 <= i < |s.tasks| ==> TaskOk(k, s.temporaries, s.tasks[i])
  }

  /** Every temporary file has at most one live writer. */
  ghost predicate PathsApart(s: State) {
    forall i, j :: 0 <= i < j < |s.tasks| && Owns(s.tasks[i]) && Owns(s.tasks[j]) ==> s.tasks[i].path != s.tasks[j].path
  }

  ghost predicate Inv(k: Codec, s: State) {
    FilesOk(k, s.files) && RowsOk(k, s.rows) && TasksOk(k, s) && PathsApart(s)
  }

  // ----- the writer -----

  lemma AcceptKeeps(k: Codec, s: State, id: nat)
    requires Sound(k) && Enabled(k, s, Accept(id)) && WritingOk(k, s.temporaries, s.tasks[id])
    ensures WritingOk(k, s.temporaries, Step(k, s, Accept(id)).tasks[id])
  {
    var t := s.tasks[id];
    var chunk := t.unwritten.value;
    GainAdds(k, t.encoding, t.accepted, chunk);
    var disk, gain := s.temporaries[t.path], Gain(k, t.encoding, t.accepted, chunk);
    assert disk + (t.pending + gain) == (disk + t.pending) + gain;
    FlatAppend(t.accepted, chunk);
    assert Flat(t.accepted) + chunk + [] == Flat(t.accepted + [chunk]);
  }

  lemma CloseKeeps(k: Codec, s: State, id: nat)
    requires Sound(k) && Enabled(k, s, Close(id)) && WritingOk(k, s.temporaries, s.tasks[id])
    ensures ClosingOk(k, s.temporaries, Step(k, s, Close(id)).tasks[id])
  {
    var t := s.tasks[id];
    TrailerAdds(k, t.encoding, t.accepted);
    var disk, trailer := s.temporaries[t.path], Trailer(k, t.encoding, t.accepted);
    assert disk + (t.pending + trailer) == (disk + t.pending) + trailer;
    assert Flat(t.accepted) + [] == Flat(t.accepted);
  }

  lemma DrainKeeps(k: Codec, s: State, id: nat, count: nat)
    requires Enabled(k, s, Drain(id, count)) && TaskOk(k, s.temporaries, s.tasks[id])
    ensures TaskOk(k, Drained(s, id, count).temporaries, Drained(s, id, count).tasks[id])
  {
    var t := s.tasks[id];
    var disk := s.temporaries[t.path];
    assert (disk + t.pending[..count]) + t.pending[count..] == disk + t.pending;
  }

  /** Once the buffer is empty the file decodes to exactly the bytes that were hashed. */
  lemma FinishKeeps(k: Codec, s: State, id: nat)
    requires Sound(k) && Enabled(k, s, FinishStaging(id)) && ClosingOk(k, s.temporaries, s.tasks[id])
    ensures TaskOk(k, s.temporaries, Step(k, s, FinishStaging(id)).tasks[id])
  {
    var t := s.tasks[id];
    FrameDecodes(k, t.encoding, t.accepted);
    assert s.temporaries[t.path] + [] == s.temporaries[t.path];
  }

  // ----- every step keeps the disk truthful -----

  predicate Stages(a: Action) {
    a.Hash? || a.Accept? || a.Drain? || a.Close? || a.FinishStaging? || a.TakeStripe? || a.PublishFile?
  }

  /** The stepping task itself. */
  lemma StageStepOk(k: Codec, s: State, a: Action)
    requires Sound(k) && Enabled(k, s, a) && Stages(a) && TaskOk(k, s.temporaries, s.tasks[a.id])
    ensures var r := Step(k, s, a); At(r, a.id) && TaskOk(k, r.temporaries, r.tasks[a.id])
  {
    match a {
      case Hash(id, chunk) => HashKeeps(k, s, id, chunk);
      case Accept(id) => AcceptKeeps(k, s, id);
      case Drain(id, count) => DrainKeeps(k, s, id, count);
      case Close(id) => CloseKeeps(k, s, id);
      case FinishStaging(id) => FinishKeeps(k, s, id);
      case TakeStripe(id) =>
      case PublishFile(id) => RenameKeeps(k, s, id);
    }
  }

  lemma HashKeeps(k: Codec, s: State, id: nat, chunk: Text)
    requires Enabled(k, s, Hash(id, chunk)) && WritingOk(k, s.temporaries, s.tasks[id])
    ensures WritingOk(k, s.temporaries, Step(k, s, Hash(id, chunk)).tasks[id])
  {
    assert Flat(s.tasks[id].accepted) + [] == Flat(s.tasks[id].accepted);
  }

  lemma RenameKeeps(k: Codec, s: State, id: nat)
    requires Enabled(k, s, PublishFile(id)) && TaskOk(k, s.temporaries, s.tasks[id])
    ensures TaskOk(k, Published(s, id).temporaries, Published(s, id).tasks[id])
  {
    var t := s.tasks[id];
    ContainsIsTruthful(k, t.encoding, s.temporaries[t.path], t.digest, t.len);
  }

  /** The temporary files of the other tasks are left alone. */
  ghost predicate OthersKept(s: State, r: State, id: nat) {
    && |r.tasks| == |s.tasks|
    && (forall j :: 0 <= j < |s.tasks| && j != id ==> r.tasks[j] == s.tasks[j])
    && (forall j :: 0 <= j < |s.tasks| && j != id && Owns(s.tasks[j]) && s.tasks[j].path in s.temporaries ==>
          s.tasks[j].path in r.temporaries && r.temporaries[s.tasks[j].path] == s.temporaries[s.tasks[j].path])
    && (At(s, id) && Owns(r.tasks[id]) ==> Owns(s.tasks[id]) && r.tasks[id].path == s.tasks[id].path)
  }

  lemma OneTaskSteps(k: Codec, s: State, r: State, id: nat)
    requires TasksOk(k, s) && PathsApart(s) && At(s, id) && OthersKept(s, r, id)
    requires TaskOk(k, r.temporaries, r.tasks[id])
    ensures TasksOk(k, r) && PathsApart(r)
  {
    forall j | 0 <= j < |r.tasks| ensures TaskOk(k, r.temporaries, r.tasks[j]) {
      assert TaskOk(k, s.temporaries, s.tasks[j]);
    }
  }

  lemma StageOthersKept(k: Codec, s: State, a: Action)
    requires Enabled(k, s, a) && Stages(a) && PathsApart(s)
    ensures OthersKept(s, Step(k, s, a), a.id)
  {
  }

  lemma StageStepKeeps(k: Codec, s: State, a: Action)
    requires Sound(k) && Inv(k, s) && Enabled(k, s, a) && Stages(a)
    ensures Inv(k, Step(k, s, a))
  {
    assert TaskOk(k, s.temporaries, s.tasks[a.id]);
    var r := Step(k, s, a);
    assert TasksOk(k, r) && PathsApart(r) by {
      StageStepOk(k, s, a);
      StageOthersKept(k, s, a);
      OneTaskSteps(k, s, r, a.id);
    }
    assert FilesOk(k, r.files);
  }

  lemma ContainsIsTruthful(k: Codec, e: Encoding, bytes: Text, digest: Digest, len: nat)
    requires Contains(k, e, bytes, digest, len)
    ensures Truthful(k, digest, RowInfo(e, len)) && Complete(k, digest, File(e, bytes))
  {
  }

  predicate Plain(a: Action) {
    !Stages(a) && !a.Upload? && !a.RemoveTemporary?
  }

  lemma PlainStepStore(k: Codec, s: State, a: Action)
    requires Inv(k, s) && Enabled(k, s, a) && Plain(a)
    ensures FilesOk(k, Step(k, s, a).files) && RowsOk(k, Step(k, s, a).rows)
  {
    PlainStoreShape(k, s, a);
    if a.CommitRow? {
      assert TaskOk(k, s.temporaries, s.tasks[a.id]);
    }
  }

  /** A task after a plain step: as it was, or what the step made of it. */
  lemma PlainStepShape(k: Codec, s: State, a: Action, j: nat)
    requires Enabled(k, s, a) && Plain(a) && j < |Step(k, s, a).tasks|
    ensures var r, t := Step(k, s, a), Step(k, s, a).tasks[j];
            && r.temporaries == s.temporaries
            && ((j < |s.tasks| && t == s.tasks[j])
                || t.Acknowledged? || t.Healing? || t.Ended?
                || (t.Evicting? && a == BeginEviction(t.digest) && StripeFree(s, t.digest) && t.digest in r.rows)
                || (t.Unlinked? && a == Unlink(j) && s.tasks[j] == Evicting(t.digest) && t.digest !in r.files)
                || (t.RowRead? && t.digest in s.rows && t.row == s.rows[t.digest])
                || (t.Hit? && j < |s.tasks| && s.tasks[j] == RowRead(t.digest, t.row) &&
                    t.digest in s.files && t.file == s.files[t.digest]))
  {
  }

  /** Which plain steps take a file or a row away, or add a row. */
  lemma PlainStoreShape(k: Codec, s: State, a: Action)
    requires Enabled(k, s, a) && Plain(a)
    ensures var r := Step(k, s, a);
            && (forall d :: d in r.files ==> d in s.files && r.files[d] == s.files[d])
            && (forall d :: d in s.files && d !in r.files ==> TakesFile(s, a, d))
            && (forall d :: d in s.rows && d !in r.rows ==> DropsRow(s, a, d))
            && (forall d :: d in r.rows && d !in s.rows ==>
                  a.CommitRow? && s.tasks[a.id] == Renamed(r.rows[d].encoding, d, r.rows[d].contentLen))
            && (forall d :: d in r.rows && d in s.rows ==> r.rows[d] == s.rows[d])
  {
  }

  /** Eviction unlinks the body, recovery removes a file that has no row, or the channel is deleted. */
  predicate TakesFile(s: State, a: Action, digest: Digest) {
    || a == Reconcile(digest) || a.RemoveChannel?
    || (a.Unlink? && At(s, a.id) && s.tasks[a.id] == Evicting(digest))
  }

  lemma PlainStepTask(k: Codec, s: State, a: Action, j: nat)
    requires Inv(k, s) && Enabled(k, s, a) && Plain(a) && j < |Step(k, s, a).tasks|
    ensures Step(k, s, a).temporaries == s.temporaries
    ensures TaskOk(k, s.temporaries, Step(k, s, a).tasks[j])
    ensures Owns(Step(k, s, a).tasks[j]) ==> j < |s.tasks| && Step(k, s, a).tasks[j] == s.tasks[j]
  {
    PlainStepShape(k, s, a, j);
    if j < |s.tasks| {
      assert TaskOk(k, s.temporaries, s.tasks[j]);
    }
  }

  /** A step that adds a task, or ends or advances one that owns no temporary file. */
  lemma PlainStepKeeps(k: Codec, s: State, a: Action)
    requires Inv(k, s) && Enabled(k, s, a) && Plain(a)
    ensures Inv(k, Step(k, s, a))
  {
    var r := Step(k, s, a);
    PlainStepStore(k, s, a);
    forall j | 0 <= j < |r.tasks|
      ensures TaskOk(k, r.temporaries, r.tasks[j])
      ensures Owns(r.tasks[j]) ==> j < |s.tasks| && r.tasks[j] == s.tasks[j]
    {
      PlainStepTask(k, s, a, j);
    }
    if |r.tasks| == 0 {
      assert TasksOk(k, r) && PathsApart(r);
    }
  }

  lemma TemporaryStepKeeps(k: Codec, s: State, a: Action)
    requires Sound(k) && Inv(k, s) && Enabled(k, s, a) && (a.Upload? || a.RemoveTemporary?)
    ensures Inv(k, Step(k, s, a))
  {
    var r := Step(k, s, a);
    forall j | 0 <= j < |r.tasks| ensures TaskOk(k, r.temporaries, r.tasks[j]) {
      if j < |s.tasks| {
        assert TaskOk(k, s.temporaries, s.tasks[j]);
      }
    }
    assert PathsApart(r) by {
      forall j | 0 <= j < |s.tasks| && Owns(s.tasks[j]) ensures s.tasks[j].path in s.temporaries {
        assert TaskOk(k, s.temporaries, s.tasks[j]);
      }
    }
  }

  lemma StepKeeps(k: Codec, s: State, a: Action)
    requires Sound(k) && Inv(k, s) && Enabled(k, s, a)
    ensures Inv(k, Step(k, s, a))
  {
    if Stages(a) {
      StageStepKeeps(k, s, a);
    } else if a.Upload? || a.RemoveTemporary? {
      TemporaryStepKeeps(k, s, a);
    } else {
      PlainStepKeeps(k, s, a);
    }
  }

  // ----- what staging and publishing steps change -----

  lemma StageStepShape(k: Codec, s: State, a: Action, j: nat)
    requires Enabled(k, s, a) && !Plain(a) && j < |Step(k, s, a).tasks|
    ensures var r, t := Step(k, s, a), Step(k, s, a).tasks[j];
            || (j < |s.tasks| && t == s.tasks[j])
            || t.Writing? || t.Closing? || t.Staged? || t.Ended?
            || (t.Striped? && a == TakeStripe(j) && StripeFree(s, t.artifact))
            || (t.Renamed? && a == PublishFile(j) && j < |s.tasks| && s.tasks[j].Striped? &&
                !Mismatched(s.tasks[j]) && s.tasks[j].digest == t.digest &&
                s.tasks[j].encoding == t.encoding && t.digest in r.files)
  {
  }

  lemma StageStoreShape(k: Codec, s: State, a: Action)
    requires Enabled(k, s, a) && !Plain(a)
    ensures var r := Step(k, s, a);
            && r.rows == s.rows
            && (forall d :: d in s.files ==> d in r.files && r.files[d] == s.files[d])
            && (forall d :: d in r.files && d !in s.files ==>
                  Installs(s, a, d) && r.files[d].encoding == s.tasks[a.id].encoding)
  {
  }

  /** A publication renames its temporary file into an empty place. */
  predicate Installs(s: State, a: Action, digest: Digest) {
    && a.PublishFile? && At(s, a.id) && s.tasks[a.id].Striped? && s.tasks[a.id].digest == digest
    && !Mismatched(s.tasks[a.id]) && s.tasks[a.id].path in s.temporaries && digest !in s.files
  }

  /** A file is there after a step exactly when the step installed it, or it was there and was not taken. */
  lemma FileStep(k: Codec, s: State, a: Action, digest: Digest)
    requires Enabled(k, s, a)
    ensures digest in Step(k, s, a).files <==>
            Installs(s, a, digest) || (digest in s.files && !TakesFile(s, a, digest))
  {
    if Plain(a) {
      PlainStoreShape(k, s, a);
    } else {
      StageStoreShape(k, s, a);
    }
  }

  /** A publication writes the row of its artifact, which had none. */
  predicate Records(s: State, a: Action, digest: Digest) {
    a.CommitRow? && At(s, a.id) && s.tasks[a.id].Renamed? && s.tasks[a.id].digest == digest && digest !in s.rows
  }

  /** A lookup heals, an eviction ends, or the channel is deleted. */
  predicate DropsRow(s: State, a: Action, digest: Digest) {
    || a.WipeChannel?
    || (a.Heal? && At(s, a.id) && s.tasks[a.id] == Healing(digest))
    || (a.RemoveRow? && At(s, a.id) && s.tasks[a.id] == Unlinked(digest))
  }

  lemma RowStep(k: Codec, s: State, a: Action, digest: Digest)
    requires Enabled(k, s, a)
    ensures digest in Step(k, s, a).rows <==> Records(s, a, digest) || (digest in s.rows && !DropsRow(s, a, digest))
  {
    if Plain(a) {
      PlainStoreShape(k, s, a);
    } else {
      StageStoreShape(k, s, a);
    }
  }

  // ----- runs -----

  ghost predicate IsRun(k: Codec, states: seq<State>, actions: seq<Action>) {
    && |states| == |actions| + 1 && states[0] == EMPTY_STATE
    && forall i :: 0 <= i < |actions| ==> StepAt(k, states, actions, i)
  }

  ghost predicate StepAt(k: Codec, states: seq<State>, actions: seq<Action>, i: nat)
    requires i < |actions| < |states|
  {
    Enabled(k, states[i], actions[i]) && states[i + 1] == Step(k, states[i], actions[i])
  }

  lemma {:induction false} RunKeeps(k: Codec, states: seq<State>, actions: seq<Action>, i: nat)
    requires Sound(k) && IsRun(k, states, actions) && i < |states|
    ensures Inv(k, states[i])
  {
    if i > 0 {
      RunKeeps(k, states, actions, i - 1);
      assert StepAt(k, states, actions, i - 1);
      StepKeeps(k, states[i - 1], actions[i - 1]);
    }
  }

  /**
   * Temporary files are partial most of the time and survive crashes; final files never are: at every
   * moment of every run each decodes to a whole body whose digest is its name.
   */
  lemma FilesAlwaysComplete(k: Codec, states: seq<State>, actions: seq<Action>, i: nat, digest: Digest)
    requires Sound(k) && IsRun(k, states, actions) && i < |states| && digest in states[i].files
    ensures Complete(k, digest, states[i].files[digest])
  {
    RunKeeps(k, states, actions, i);
  }
}
