/**
 * Staging one body under a growing reservation (src/storage/local/artifact_files.rs:91-173 and
 * 256-384). Other uploads run at every await; they may leave the shared ledger in any state the
 * accounts of module Uploads allow.
 */
module Staging {
  import opened Words
  import opened Bytes
  import opened Identity
  import opened Encodings
  import opened SpaceLedger
  import Uploads

  datatype FileState = Vacant | Temporary | Published

  datatype Item = Chunk(bytes: Text) | StreamFailure

  datatype LocalError = Stream | TooLarge | OutOfSpace | Io

  datatype Removal = Removed | NotFound | RemovalFailed

  /** What staging reports: the digest of the hashed bytes, their count, and the size of the file. */
  datatype Staged = Staged(digest: Digest, len: U64, storedLen: U64)

  datatype StageResult = Ready(staged: Staged) | Rejected | Failed(error: LocalError)

  /**
   * How the filesystem answers: making the directory, opening, each write and how much of the buffer
   * it takes to disk, finishing, and the largest file it holds.
   */
  datatype Filesystem = Filesystem(
    directory: bool, opens: bool, writes: nat -> bool, drains: nat -> nat, finishes: bool, largest: U64)

  /** What settling a discarded reservation does to the ledger: released only when no file is left behind. */
  function Settled(l: Ledger, owed: U64, state: FileState, removal: Removal): Ledger {
    if state.Published? || (state.Temporary? && removal.RemovalFailed?) then Committed(l, owed) else Released(l, owed)
  }

  // ----- reservations as uploads of the interleaving machine -----

  function PhaseOf(state: FileState): Uploads.Phase {
    match state
    case Vacant => Uploads.Vacant
    case Temporary => Uploads.Temporary
    case Published => Uploads.Published
  }

  /** What a reservation is seen to hold: the ledger's state, what it owes and its file state. */
  datatype Standing = Standing(ledger: Ledger, owed: U64, state: FileState)

  /** Upload `id` of the machine stands where the reservation does, over the same ledger. */
  ghost predicate MirrorOf(p: Policy, s: Uploads.State, id: nat, at: Standing) {
    && Uploads.Inv(p, s) && Uploads.HasUpload(s, id) && s.ledger == at.ledger
    && s.uploads[id].outstanding == at.owed && s.uploads[id].phase == PhaseOf(at.state)
  }

  /** The upload is over and the ledgers agree. */
  ghost predicate OverIn(p: Policy, s: Uploads.State, id: nat, l: Ledger) {
    Uploads.Inv(p, s) && Uploads.HasUpload(s, id) && s.ledger == l && s.uploads[id] == Uploads.DONE
  }

  lemma MirrorIsBacked(p: Policy, s: Uploads.State, id: nat, at: Standing)
    requires MirrorOf(p, s, id, at)
    ensures at.owed <= at.ledger.reserved && at.ledger.reserved + at.ledger.committedSince <= U64_MAX
  {
    Uploads.OwedWithin(p, s, id);
  }

  /** One more step of a sequence that keeps the accounts. */
  lemma OnStep(p: Policy, s: Uploads.State, t: Uploads.State, a: Uploads.Action) returns (u: Uploads.State)
    requires Uploads.Inv(p, t) && Uploads.Reaches(p, s, t) && Uploads.Enabled(p, t, a)
    ensures u == Uploads.Step(p, t, a) && Uploads.Inv(p, u) && Uploads.Reaches(p, s, u)
  {
    u := Uploads.Step(p, t, a);
    Uploads.StepKeeps(p, t, a);
    Uploads.ReachesStep(p, t, a);
    Uploads.ReachesOn(p, s, t, u);
  }

  lemma BeginLeads(p: Policy, s: Uploads.State) returns (t: Uploads.State)
    requires Uploads.Inv(p, s)
    ensures MirrorOf(p, t, |s.uploads|, Standing(s.ledger, 0, Vacant)) && Uploads.Reaches(p, s, t)
  {
    Uploads.ReachesSelf(p, s, 0);
    t := OnStep(p, s, s, Uploads.Begin);
  }

  /** A granted or refused reservation is one step of the machine. */
  lemma ReserveLeads(p: Policy, origin: Uploads.State, s: Uploads.State, id: nat, at: Standing, bytes: U64)
    returns (t: Uploads.State)
    requires MirrorOf(p, s, id, at) && Uploads.Reaches(p, origin, s)
    ensures var granted := bytes == 0 || Admits(p, at.ledger, bytes);
            var ledger := if granted && bytes > 0 then Reserved(at.ledger, bytes) else at.ledger;
            MirrorOf(p, t, id, Standing(ledger, if granted then SatAdd(at.owed, bytes) else at.owed, at.state))
    ensures Uploads.Reaches(p, origin, t)
  {
    var granted := bytes == 0 || Admits(p, at.ledger, bytes);
    t := OnStep(p, origin, s, if granted then Uploads.Reserve(id, bytes) else Uploads.Refuse(id, bytes));
  }

  lemma OpenLeads(p: Policy, origin: Uploads.State, s: Uploads.State, id: nat, at: Standing)
    returns (t: Uploads.State)
    requires MirrorOf(p, s, id, at) && at.state.Vacant? && Uploads.Reaches(p, origin, s)
    ensures MirrorOf(p, t, id, at.(state := Temporary)) && Uploads.Reaches(p, origin, t)
  {
    t := OnStep(p, origin, s, Uploads.OpenTemporary(id));
  }

  /** The two ledger calls of `commit` are two steps of the machine. */
  lemma CommitLeads(p: Policy, origin: Uploads.State, s: Uploads.State, id: nat, at: Standing, bytes: U64)
    returns (t: Uploads.State)
    requires MirrorOf(p, s, id, at) && !at.state.Temporary? && s.uploads[id].written <= bytes
    requires Uploads.Reaches(p, origin, s)
    ensures Uploads.Reaches(p, origin, t)
    ensures OverIn(p, t, id, Released(Committed(at.ledger, Min(bytes, at.owed)), at.owed - Min(bytes, at.owed)))
  {
    t := OnStep(p, origin, s, Uploads.Commit(id, bytes));
    t := OnStep(p, origin, t, Uploads.ReleaseSlack(id));
  }

  /** Abandoning, and for a temporary file its removal and settlement. */
  lemma DiscardLeads(p: Policy, origin: Uploads.State, s: Uploads.State, id: nat, at: Standing, removal: Removal)
    returns (t: Uploads.State)
    requires MirrorOf(p, s, id, at) && Uploads.Reaches(p, origin, s)
    ensures Uploads.Reaches(p, origin, t) && OverIn(p, t, id, Settled(at.ledger, at.owed, at.state, removal))
  {
    if at.state.Temporary? {
      t := RemovalLeads(p, origin, s, id, at, removal);
    } else {
      t := OnStep(p, origin, s, Uploads.Abandon(id));
    }
  }

  lemma RemovalLeads(p: Policy, origin: Uploads.State, s: Uploads.State, id: nat, at: Standing, removal: Removal)
    returns (t: Uploads.State)
    requires MirrorOf(p, s, id, at) && at.state.Temporary? && Uploads.Reaches(p, origin, s)
    ensures Uploads.Reaches(p, origin, t) && OverIn(p, t, id, Settled(at.ledger, at.owed, at.state, removal))
  {
    t := OnStep(p, origin, s, Uploads.Abandon(id));
    if removal.RemovalFailed? {
      t := OnStep(p, origin, t, Uploads.SettleCommitted(id));
    } else {
      t := OnStep(p, origin, t, Uploads.Unlink(id));
      t := OnStep(p, origin, t, Uploads.SettleReleased(id));
    }
  }

  class Reservation {
    const ledger: SharedLedger
    var outstanding: U64
    var state: FileState
    /** The machine that this reservation is upload `id` of, now and before the upload began. */
    ghost var machine: Uploads.State
    ghost const origin: Uploads.State
    ghost const id: nat

    ghost function Now(): Standing
      reads this, ledger
    {
      Standing(ledger.State(), outstanding, state)
    }

    /** A step sequence has brought the machine here, and its upload stands where this reservation does. */
    ghost predicate Follows()
      reads this, ledger
    {
      && MirrorOf(ledger.policy, machine, id, Now())
      && Uploads.Reaches(ledger.policy, origin, machine)
    }

    /** A step sequence has brought the machine here, and its upload is over. */
    ghost predicate Concludes()
      reads this, ledger
    {
      OverIn(ledger.policy, machine, id, ledger.State()) && Uploads.Reaches(ledger.policy, origin, machine)
    }

    /** The ledger still holds this reservation; `MirrorIsBacked` has it of every upload of the machine. */
    predicate Backed()
      reads this, ledger
    {
      outstanding <= ledger.reserved && ledger.reserved + ledger.committedSince <= U64_MAX
    }

    constructor (ledger: SharedLedger, ghost start: Uploads.State)
      ensures this.ledger == ledger && outstanding == 0 && state == Vacant
      ensures Uploads.Inv(ledger.policy, start) && start.ledger == ledger.State() ==> Follows()
      ensures origin == start
    {
      this.ledger := ledger;
      outstanding := 0;
      state := Vacant;
      machine, origin, id := start, start, |start.uploads|;
      new;
      if Uploads.Inv(ledger.policy, start) && start.ledger == ledger.State() {
        machine := BeginLeads(ledger.policy, start);
      }
    }

    /** An await: others act on the ledger, by steps of the machine that are not this upload's. */
    method Await()
      requires Backed()
      modifies ledger, this`machine
      ensures Backed()
      ensures old(Follows()) ==> Follows() && Uploads.Evolves(ledger.policy, old(machine), machine, id)
    {
      Uploads.ReachesSelf(ledger.policy, machine, id);
    }

    method Reserve(bytes: U64) returns (granted: bool)
      requires Backed()
      modifies this`outstanding, this`machine, ledger`reserved
      ensures Backed()
      ensures granted == (bytes == 0 || Admits(ledger.policy, old(ledger.State()), bytes))
      ensures outstanding == if granted then old(outstanding) + bytes else old(outstanding)
      ensures ledger.reserved == if granted then old(ledger.reserved) + bytes else old(ledger.reserved)
      ensures !granted ==> ledger.State() == old(ledger.State())
      ensures old(Follows()) ==> Follows()
    {
      if Follows() {
        machine := ReserveLeads(ledger.policy, origin, machine, id, Now(), bytes);
      }
      if bytes > 0 {
        AdmissionIsExact(ledger.policy, ledger.State(), bytes);
        granted := ledger.TryReserve(bytes);
        if !granted {
          return;
        }
      }
      outstanding := SatAdd(outstanding, bytes);
      granted := true;
    }

    /** Arms cleanup of the temporary file. */
    method MarkTemporary()
      requires Backed() && state == Vacant
      modifies this`state, this`machine
      ensures Backed() && state == Temporary
      ensures old(Follows()) ==> Follows()
    {
      if Follows() {
        machine := OpenLeads(ledger.policy, origin, machine, id, Now());
      }
      state := Temporary;
    }

    /** Grows by whole extents until `len` bytes are covered, or stops where the ledger refuses. */
    method Cover(len: U64, ghost initial: U64, extent: U64) returns (covered: bool)
      requires Backed() && extent >= 1 && outstanding <= Max(initial, len + extent - 1)
      modifies this`outstanding, this`machine, ledger`reserved
      ensures Backed() && outstanding <= Max(initial, len + extent - 1)
      ensures covered ==> len <= outstanding
      ensures !covered ==> outstanding < len && !Admits(ledger.policy, ledger.State(), extent)
      ensures old(Follows()) ==> Follows()
    {
      while len > outstanding
        invariant Backed() && outstanding <= Max(initial, len + extent - 1)
        invariant old(Follows()) ==> Follows()
        decreases len - outstanding
      {
        var granted := Reserve(extent);
        if !granted {
          return false;
        }
      }
      return true;
    }

    /** Grows to the encoded size, if that is more than what is reserved. */
    method CoverStored(storedLen: U64) returns (covered: bool)
      requires Backed()
      modifies this`outstanding, this`machine, ledger`reserved
      ensures Backed()
      ensures old(Follows()) ==> Follows()
      ensures covered ==> outstanding == Max(old(outstanding), storedLen)
      ensures !covered ==>
                outstanding < storedLen && !Admits(ledger.policy, ledger.State(), storedLen - outstanding)
    {
      if storedLen <= outstanding {
        return true;
      }
      covered := Reserve(storedLen - outstanding);
    }

    /** Converts up to `bytes` into committed usage and releases the rest. */
    method Commit(bytes: U64)
      requires Backed()
      modifies this`outstanding, this`machine, ledger
      ensures outstanding == 0 && Backed()
      ensures ledger.reserved == old(ledger.reserved - outstanding)
      ensures ledger.committedSince == old(ledger.committedSince) + Min(bytes, old(outstanding))
      ensures old(Follows() && !state.Temporary? && machine.uploads[id].written <= bytes) ==> Concludes()
    {
      if Follows() && !state.Temporary? && machine.uploads[id].written <= bytes {
        machine := CommitLeads(ledger.policy, origin, machine, id, Now(), bytes);
      }
      var committed := Min(bytes, outstanding);
      ledger.Commit(committed);
      var slack := outstanding - committed;
      if slack > 0 {
        ledger.Release(slack);
      }
      outstanding := 0;
    }

    /** Settles a failed operation. */
    method Discard(removal: Removal)
      requires Backed()
      modifies this, ledger
      ensures outstanding == 0 && state == Vacant && Backed()
      ensures ledger.State() == Settled(old(ledger.State()), old(outstanding), old(state), removal)
      ensures ledger.reserved == old(ledger.reserved - outstanding)
      ensures ledger.committedSince == old(ledger.committedSince) +
                (if old(state).Published? || (old(state).Temporary? && removal.RemovalFailed?)
                 then old(outstanding) else 0)
      ensures old(Follows()) ==> Concludes()
    {
      if Follows() {
        machine := DiscardLeads(ledger.policy, origin, machine, id, Now(), removal);
      }
      var was, owed := state, outstanding;
      state, outstanding := Vacant, 0;
      match was {
        case Vacant => ledger.Release(owed);
        case Published => ledger.Commit(owed);
        case Temporary =>
          if removal.RemovalFailed? {
            ledger.Commit(owed);
          } else {
            ledger.Release(owed);
          }
      }
    }
  }

  /** What a stream amounts to, up to its first failure. */
  datatype Scan = Whole(body: Text) | Broken(error: LocalError)

  function ScanStream(stream: seq<Item>, maxBytes: U64): Scan {
    if stream == [] then Whole([])
    else
      var front := ScanStream(stream[..|stream| - 1], maxBytes);
      var last := stream[|stream| - 1];
      if front.Broken? then front
      else if last.StreamFailure? then Broken(Stream)
      else if |front.body| + |last.bytes| > maxBytes then Broken(TooLarge)
      else Whole(front.body + last.bytes)
  }

  lemma {:induction false} BrokenStays(stream: seq<Item>, maxBytes: U64, i: nat)
    requires i <= |stream| && ScanStream(stream[..i], maxBytes).Broken?
    ensures ScanStream(stream, maxBytes) == ScanStream(stream[..i], maxBytes)
    decreases |stream|
  {
    if i < |stream| {
      assert stream[..|stream| - 1][..i] == stream[..i];
      BrokenStays(stream[..|stream| - 1], maxBytes, i);
    } else {
      assert stream[..i] == stream;
    }
  }

  /** The body is the concatenation of all chunks and fits, exactly when the scan is whole. */
  ghost predicate Delivers(stream: seq<Item>, body: Text) {
    if stream == [] then body == []
    else
      var last := stream[|stream| - 1];
      && last.Chunk? && |last.bytes| <= |body|
      && body[|body| - |last.bytes|..] == last.bytes
      && Delivers(stream[..|stream| - 1], body[..|body| - |last.bytes|])
  }

  lemma {:induction false} WholeDelivers(stream: seq<Item>, maxBytes: U64, body: Text)
    ensures ScanStream(stream, maxBytes) == Whole(body) <==> Delivers(stream, body) && |body| <= maxBytes
  {
    if stream != [] {
      var front, last := stream[..|stream| - 1], stream[|stream| - 1];
      var scan := ScanStream(front, maxBytes);
      if last.Chunk? {
        if |last.bytes| <= |body| {
          WholeDelivers(front, maxBytes, body[..|body| - |last.bytes|]);
          assert body == body[..|body| - |last.bytes|] + body[|body| - |last.bytes|..];
        }
        if scan.Whole? {
          assert (scan.body + last.bytes)[..|scan.body|] == scan.body;
          assert (scan.body + last.bytes)[|scan.body|..] == last.bytes;
        }
      }
    }
  }

  function Chunks(stream: seq<Item>): seq<Text> {
    if stream == [] then []
    else
      var last := stream[|stream| - 1];
      Chunks(stream[..|stream| - 1]) + (if last.Chunk? then [last.bytes] else [])
  }

  lemma {:induction false} ChunksFlat(stream: seq<Item>, maxBytes: U64)
    requires ScanStream(stream, maxBytes).Whole?
    ensures Flat(Chunks(stream)) == ScanStream(stream, maxBytes).body
  {
    if stream != [] {
      ChunksFlat(stream[..|stream| - 1], maxBytes);
      FlatAppend(Chunks(stream[..|stream| - 1]), stream[|stream| - 1].bytes);
    }
  }

  /** The writer over the temporary file: output is buffered and reaches the disk in its own time. */
  class StageWriter {
    const k: Codec
    const encoding: Encoding
    var accepted: seq<Text>
    var pending: Text
    var disk: Text

    ghost predicate Valid()
      reads this
    {
      Sound(k) && disk + pending == Output(k, encoding, accepted)
    }

    constructor (k: Codec, encoding: Encoding)
      requires Sound(k)
      ensures Valid() && this.k == k && this.encoding == encoding && accepted == []
    {
      this.k, this.encoding := k, encoding;
      accepted, pending, disk := [], [], [];
    }

    /** Accepts a chunk; `drain` is how much of the buffer reaches the disk meanwhile. */
    method WriteAll(chunk: Text, drain: nat)
      requires Valid()
      modifies this
      ensures Valid() && accepted == old(accepted) + [chunk]
    {
      var output := Gain(k, encoding, accepted, chunk);
      GainAdds(k, encoding, accepted, chunk);
      assert disk + (pending + output) == (disk + pending) + output;
      accepted := accepted + [chunk];
      pending := pending + output;
      var count := if drain <= |pending| then drain else |pending|;
      assert (disk + pending[..count]) + pending[count..] == disk + pending;
      disk, pending := disk + pending[..count], pending[count..];
    }

    /** Closes the encoder and flushes: afterwards the whole frame is on disk. */
    method Finish()
      requires Valid()
      modifies this
      ensures accepted == old(accepted) && pending == [] && disk == Frame(k, encoding, accepted)
    {
      var trailer := Trailer(k, encoding, accepted);
      TrailerAdds(k, encoding, accepted);
      assert disk + (pending + trailer) == (disk + pending) + trailer;
      pending := pending + trailer;
      disk, pending := disk + pending, [];
    }
  }

  ghost predicate Covered(outstanding: int, initial: int, extent: int, staged: Staged) {
    && staged.len <= outstanding && staged.storedLen <= outstanding
    && outstanding <= Max(Max(initial, staged.len + extent - 1), staged.storedLen)
  }

  /** Every filesystem call a stream of `count` items can make succeeds. */
  ghost predicate Healthy(fs: Filesystem, count: nat) {
    fs.directory && fs.opens && fs.finishes && forall i: nat :: i < count ==> fs.writes(i)
  }

  /** The encoded stream is larger than any file. */
  ghost predicate Oversized(k: Codec, e: Encoding, fs: Filesystem, stream: seq<Item>) {
    |Frame(k, e, Chunks(stream))| > fs.largest
  }

  /** Some prefix of the stream is longer than what is reserved. */
  ghost predicate Outgrew(stream: seq<Item>, maxBytes: U64, outstanding: U64) {
    exists i :: 0 <= i <= |stream| && ScanStream(stream[..i], maxBytes).Whole? &&
                |ScanStream(stream[..i], maxBytes).body| > outstanding
  }

  /** Why staging runs out of space: the ledger refuses one more extent, or the rest of the encoded file. */
  ghost predicate SpaceShort(
    p: Policy, l: Ledger, outstanding: U64, stream: seq<Item>, maxBytes: U64, extent: U64, stored: nat)
  {
    || (Outgrew(stream, maxBytes, outstanding) && !Admits(p, l, extent))
    || (ScanStream(stream, maxBytes).Whole? && Underfunded(p, l, outstanding, stored))
  }

  /** The encoded file is larger than what is reserved, and the ledger refuses the difference. */
  ghost predicate Underfunded(p: Policy, l: Ledger, outstanding: U64, stored: nat) {
    outstanding < stored <= U64_MAX && !Admits(p, l, stored - outstanding)
  }

  /** The file holds, in the given encoding, exactly the bytes that were counted and hashed. */
  ghost predicate Holds(k: Codec, e: Encoding, file: Text, body: Text, staged: Staged) {
    && Decode(k, e, file) == Some(body) && staged.storedLen == |file|
    && staged.digest == k.sha(body) && staged.len == |body|
  }

  /** What the next item of a stream does to a scan that is whole so far. */
  lemma ScanNext(stream: seq<Item>, maxBytes: U64, i: nat, hashed: Text)
    requires i < |stream| && ScanStream(stream[..i], maxBytes) == Whole(hashed)
    ensures stream[i].StreamFailure? ==> ScanStream(stream, maxBytes) == Broken(Stream)
    ensures stream[i].Chunk? && |hashed| + |stream[i].bytes| > maxBytes ==>
              ScanStream(stream, maxBytes) == Broken(TooLarge)
    ensures stream[i].Chunk? && |hashed| + |stream[i].bytes| <= maxBytes ==>
              && ScanStream(stream[..i + 1], maxBytes) == Whole(hashed + stream[i].bytes)
              && Chunks(stream[..i + 1]) == Chunks(stream[..i]) + [stream[i].bytes]
              && forall outstanding: U64 | outstanding < |hashed + stream[i].bytes| ::
                   Outgrew(stream, maxBytes, outstanding)
  {
    assert stream[..i + 1][..i] == stream[..i];
    if ScanStream(stream[..i + 1], maxBytes).Broken? {
      BrokenStays(stream, maxBytes, i + 1);
    }
  }

  /** Covers `len` bytes and hands the chunk to the writer. */
  method WriteChunk(
    r: Reservation, writer: StageWriter, chunk: Text, len: U64, ghost initial: U64, extent: U64, writes: bool,
    drain: nat)
    returns (error: Option<LocalError>)
    requires r.Backed() && extent >= 1 && r.state == Temporary && writer.Valid()
    requires r.outstanding <= Max(initial, len + extent - 1)
    modifies r, r.ledger, writer
    ensures r.Backed() && r.state == Temporary && writer.Valid() && r.outstanding <= Max(initial, len + extent - 1)
    ensures error.None? ==> len <= r.outstanding && writer.accepted == old(writer.accepted) + [chunk]
    ensures error.Some? ==> error == Some(Io) || error == Some(OutOfSpace)
    ensures error == Some(Io) ==> !writes
    ensures error == Some(OutOfSpace) ==>
              r.outstanding < len && !Admits(r.ledger.policy, r.ledger.State(), extent)
    ensures old(r.Follows()) ==> r.Follows()
  {
    var covered := r.Cover(len, initial, extent);
    if !covered {
      return Some(OutOfSpace);
    }
    r.Await();
    if !writes {
      return Some(Io);
    }
    writer.WriteAll(chunk, drain);
    return None;
  }

  /** The chunk loop: each chunk is counted, covered by the reservation, hashed and handed to the writer. */
  method StreamBody(
    r: Reservation, writer: StageWriter, stream: seq<Item>, maxBytes: U64, extent: U64, fs: Filesystem)
    returns (error: Option<LocalError>, hashed: Text, len: U64)
    requires r.Backed() && extent >= 1 && r.state == Temporary && writer.Valid() && writer.accepted == []
    modifies r, r.ledger, writer
    ensures r.Backed() && r.state == Temporary && writer.Valid()
    ensures error.None? ==>
              && ScanStream(stream, maxBytes) == Whole(hashed) && len == |hashed| <= maxBytes
              && writer.accepted == Chunks(stream)
              && len <= r.outstanding <= Max(old(r.outstanding), len + extent - 1)
    ensures error == Some(Stream) || error == Some(TooLarge) ==> ScanStream(stream, maxBytes) == Broken(error.value)
    ensures error == Some(Io) ==> exists i: nat :: i < |stream| && !fs.writes(i)
    ensures error == Some(OutOfSpace) ==>
              Outgrew(stream, maxBytes, r.outstanding) && !Admits(r.ledger.policy, r.ledger.State(), extent)
    ensures ScanStream(stream, maxBytes).Broken? ==> error.Some?
    ensures old(r.Follows()) ==> r.Follows()
  {
    ghost var initial := r.outstanding;
    len, hashed := 0, [];
    for i := 0 to |stream|
      invariant old(r.Follows()) ==> r.Follows()
      invariant r.Backed() && r.state == Temporary && writer.Valid() && writer.accepted == Chunks(stream[..i])
      invariant ScanStream(stream[..i], maxBytes) == Whole(hashed) && len == |hashed| <= maxBytes
      invariant len <= r.outstanding <= Max(initial, len + extent - 1)
    {
      r.Await();
      ScanNext(stream, maxBytes, i, hashed);
      if stream[i].StreamFailure? {
        return Some(Stream), hashed, len;
      }
      var chunk := stream[i].bytes;
      if len + |chunk| > U64_MAX || len + |chunk| > maxBytes {
        return Some(TooLarge), hashed, len;
      }
      len := len + |chunk|;
      hashed := hashed + chunk;
      error := WriteChunk(r, writer, chunk, len, initial, extent, fs.writes(i), fs.drains(i));
      if error.Some? {
        return;
      }
    }
    assert stream[..|stream|] == stream;
    return None, hashed, len;
  }

  /** Makes the directory, arms cleanup and opens the temporary file. */
  method OpenFile(r: Reservation, fs: Filesystem) returns (open: bool)
    requires r.Backed() && r.state == Vacant
    modifies r, r.ledger
    ensures r.Backed() && r.state == (if fs.directory then Temporary else Vacant) && r.outstanding == old(r.outstanding)
    ensures open <==> fs.directory && fs.opens
    ensures old(r.Follows()) ==> r.Follows()
  {
    r.Await();
    if !fs.directory {
      return false;
    }
    r.MarkTemporary();
    r.Await();
    return fs.opens;
  }

  /** Flushes the writer and reconciles the reservation with the encoded size. */
  method CloseFile(
    r: Reservation, writer: StageWriter, stream: seq<Item>, maxBytes: U64, hashed: Text, len: U64, fs: Filesystem)
    returns (error: Option<LocalError>, staged: Staged, file: Text)
    requires r.Backed() && r.state == Temporary && writer.Valid() && writer.accepted == Chunks(stream)
    requires ScanStream(stream, maxBytes) == Whole(hashed) && len == |hashed|
    modifies r, r.ledger, writer
    ensures r.Backed() && r.state == Temporary
    ensures error.None? ==>
              && Holds(writer.k, writer.encoding, file, hashed, staged) && staged.len == len
              && r.outstanding == Max(old(r.outstanding), staged.storedLen)
    ensures error.Some? ==> error == Some(Io) || error == Some(OutOfSpace)
    ensures error == Some(Io) ==> !fs.finishes || Oversized(writer.k, writer.encoding, fs, stream)
    ensures error == Some(OutOfSpace) ==>
              Underfunded(r.ledger.policy, r.ledger.State(), r.outstanding,
                          |Frame(writer.k, writer.encoding, Chunks(stream))|)
    ensures old(r.Follows()) ==> r.Follows()
  {
    r.Await();
    writer.Finish();
    file := writer.disk;
    if !fs.finishes || |file| > fs.largest {
      return Some(Io), Staged(writer.k.sha(hashed), len, 0), file;
    }
    var storedLen: U64 := if writer.encoding.Identity? then len else |file|;
    staged := Staged(writer.k.sha(hashed), len, storedLen);
    assert Holds(writer.k, writer.encoding, file, hashed, staged) by {
      ChunksFlat(stream, maxBytes);
      FrameDecodes(writer.k, writer.encoding, Chunks(stream));
    }
    var granted := r.CoverStored(storedLen);
    if !granted {
      return Some(OutOfSpace), staged, file;
    }
    return None, staged, file;
  }

  /**
   * Streams the body into a temporary file under a reservation that grows with it. Once the writer
   * is flushed the reservation is reconciled with the encoded size.
   */
  method StageReserved(
    r: Reservation, stream: seq<Item>, maxBytes: U64, extent: U64, k: Codec, encoding: Encoding, fs: Filesystem)
    returns (result: StageResult, file: Text)
    requires r.Backed() && extent >= 1 && r.state == Vacant && Sound(k)
    modifies r, r.ledger
    ensures r.Backed() && r.state == (if fs.directory then Temporary else Vacant) && !result.Rejected?
    ensures result.Ready? ==>
              && fs.directory && ScanStream(stream, maxBytes).Whole? && result.staged.len <= maxBytes
              && Holds(k, encoding, file, ScanStream(stream, maxBytes).body, result.staged)
              && Covered(r.outstanding, old(r.outstanding), extent, result.staged)
    ensures result.Failed? && !result.error.Io? && !result.error.OutOfSpace? ==>
              ScanStream(stream, maxBytes) == Broken(result.error)
    ensures ScanStream(stream, maxBytes).Broken? ==> result.Failed?
    ensures result == Failed(Io) ==> !Healthy(fs, |stream|) || Oversized(k, encoding, fs, stream)
    ensures result == Failed(OutOfSpace) ==>
              fs.directory &&
              SpaceShort(r.ledger.policy, r.ledger.State(), r.outstanding, stream, maxBytes, extent,
                         |Frame(k, encoding, Chunks(stream))|)
    ensures old(r.Follows()) ==> r.Follows()
  {
    var open := OpenFile(r, fs);
    if !open {
      return Failed(Io), [];
    }
    var writer := new StageWriter(k, encoding);
    var error, hashed, len := StreamBody(r, writer, stream, maxBytes, extent, fs);
    if error.Some? {
      return Failed(error.value), writer.disk;
    }
    var staged;
    error, staged, file := CloseFile(r, writer, stream, maxBytes, hashed, len, fs);
    result := if error.Some? then Failed(error.value) else Ready(staged);
  }

  /**
   * Admission, staging and, on failure, one awaited cleanup. On failure `before` and `owed` are the
   * ledger and the reservation as the cleanup finds them. Whatever the outcome, the whole call is a
   * step sequence of the machine from `start`.
   */
  method Stage(
    ledger: SharedLedger, stream: seq<Item>, maxBytes: U64, contentLength: Option<U64>, extent: U64,
    k: Codec, encoding: Encoding, fs: Filesystem, removal: Removal, ghost start: Uploads.State)
    returns (result: StageResult, r: Reservation, file: Text, ghost before: Ledger, ghost owed: U64)
    requires extent >= 1 && ledger.reserved + ledger.committedSince <= U64_MAX && Sound(k)
    modifies ledger
    ensures fresh(r) && r.ledger == ledger && r.Backed()
    ensures Uploads.Inv(ledger.policy, start) && start.ledger == old(ledger.State()) ==>
              r.origin == start && if result.Failed? then r.Concludes() else r.Follows()
    ensures contentLength.None? ==> (result.Rejected? <==> !Admits(ledger.policy, old(ledger.State()), extent))
    ensures contentLength.Some? && contentLength.value <= maxBytes ==>
              (result.Rejected? <==>
               contentLength.value > 0 && !Admits(ledger.policy, old(ledger.State()), contentLength.value))
    ensures contentLength.Some? && contentLength.value > maxBytes ==>
              (result.Rejected? <==> maxBytes > 0 && !Admits(ledger.policy, old(ledger.State()), maxBytes))
    ensures result.Rejected? ==> ledger.State() == old(ledger.State())
    ensures !result.Ready? ==> r.outstanding == 0 && r.state == Vacant
    ensures result.Failed? && !result.error.Io? && !result.error.OutOfSpace? ==>
              ScanStream(stream, maxBytes) == Broken(result.error)
    ensures ScanStream(stream, maxBytes).Broken? ==> !result.Ready?
    ensures result == Failed(Io) ==> !Healthy(fs, |stream|) || Oversized(k, encoding, fs, stream)
    ensures result.Failed? ==>
              ledger.State() == Settled(before, owed, if fs.directory then Temporary else Vacant, removal)
    ensures result == Failed(OutOfSpace) ==>
              SpaceShort(ledger.policy, before, owed, stream, maxBytes, extent, |Frame(k, encoding, Chunks(stream))|)
    ensures result.Ready? ==>
              && r.state == Temporary && result.staged.len <= maxBytes
              && ScanStream(stream, maxBytes).Whole?
              && Holds(k, encoding, file, ScanStream(stream, maxBytes).body, result.staged)
              && var initial := if contentLength.None? then extent else Min(contentLength.value, maxBytes);
                 Covered(r.outstanding, initial, extent, result.staged)
  {
    r := new Reservation(ledger, start);
    file := [];
    before, owed := ledger.State(), 0;
    var initial := if contentLength.Some? then Min(contentLength.value, maxBytes) else extent;
    var granted := r.Reserve(initial);
    if !granted {
      return Rejected, r, file, before, owed;
    }
    result, file := StageReserved(r, stream, maxBytes, extent, k, encoding, fs);
    before, owed := ledger.State(), r.outstanding;
    if result.Failed? {
      r.Discard(removal);
    }
  }

  /**
   * The final commit of a publication: a new file is charged its stored length exactly, a duplicate
   * is charged nothing, and the whole reservation leaves `reserved` either way.
   */
  method ChargePublication(r: Reservation, staged: Staged, created: bool)
    requires r.Backed() && staged.storedLen <= r.outstanding
    modifies r, r.ledger
    ensures r.outstanding == 0 && r.Backed()
    ensures r.ledger.reserved == old(r.ledger.reserved - r.outstanding)
    ensures r.ledger.committedSince == old(r.ledger.committedSince) + if created then staged.storedLen else 0
    ensures old(r.Follows() && !r.state.Temporary? &&
                r.machine.uploads[r.id].written <= if created then staged.storedLen else 0) ==>
              r.Concludes()
  {
    r.Commit(if created then staged.storedLen else 0);
  }
}
