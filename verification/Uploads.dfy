/**
 * Any number of uploads sharing one ledger (src/storage/local/artifact_files.rs:27-173,
 * src/cache/space.rs:107-197). One step is one ledger lock or one filesystem call, so uploads
 * interleave wherever the source can yield; dropping a future is a step like any other.
 */
module Uploads {
  import opened Words
  import opened Sums
  import opened SpaceLedger

  datatype Phase =
    | Vacant        // a reservation with no file behind it
    | Temporary     // staging into, or holding, a temporary file
    | Moved         // renamed to its final path, the reservation still marked temporary
    | Published     // marked published, accounting not settled
    | Slack         // between the two ledger calls of `Reservation::commit`
    | Removing      // a `PendingSettlement` waiting on the removal of its temporary file
    | Stray         // dropped while moved: the removal will find no temporary file
    | Done

  /**
   * `outstanding` is what the upload still owes the ledger and `written` what its own file occupies.
   * `unseen` and `sinceSample` count the written bytes missing from the ledger's observation and
   * from the latest sample.
   */
  datatype Upload = Upload(phase: Phase, outstanding: U64, written: nat, unseen: nat, sinceSample: nat)

  /** A refresh samples the filesystem first and takes the ledger lock afterwards. */
  datatype Window = Closed | Open(observation: Option<U64>)

  /**
   * `disk` is the filesystem's true free space. `granted`, `released` and `committed` are totals.
   * `admitted` holds between a successful reservation and the next successful refresh.
   *
   * Four counters explain the distance between the ledger's view and the disk. `freed` is space that
   * came back and `overcharged` what was committed beyond unseen bytes, both since the observation;
   * `debt` is bytes on disk that neither the observation nor a counter knows. `freedSince` and `lost`
   * are the same two for the latest sample.
   */
  datatype State = State(
    ledger: Ledger, uploads: seq<Upload>, window: Window, disk: nat,
    granted: nat, released: nat, committed: nat, admitted: bool,
    freed: int, overcharged: int, debt: nat, freedSince: int, lost: nat)

  datatype Action =
    | Begin
    | Reserve(id: nat, bytes: U64)
    | Refuse(id: nat, bytes: U64)
    | OpenTemporary(id: nat)
    | Write(id: nat, bytes: U64)
    | Rename(id: nat)
    | MarkPublished(id: nat)
    | DropDuplicate(id: nat)
    | Commit(id: nat, bytes: U64)
    | ReleaseSlack(id: nat)
    | Abandon(id: nat)
    | Unlink(id: nat)
    | SettleReleased(id: nat)
    | SettleCommitted(id: nat)
    | FreeSpace(bytes: U64)
    | Sample(fails: bool)
    | Apply
    | ReadMode

  const DONE: Upload := Upload(Done, 0, 0, 0, 0)

  function Initial(disk: nat): State {
    State(FRESH, [], Closed, disk, 0, 0, 0, false, disk, 0, 0, 0, 0)
  }

  predicate Live(u: Upload) {
    u.phase.Vacant? || u.phase.Temporary? || u.phase.Moved? || u.phase.Published?
  }

  predicate HasUpload(s: State, id: nat) {
    id < |s.uploads|
  }

  predicate Enabled(p: Policy, s: State, a: Action) {
    match a
    case Begin => true
    case Reserve(id, bytes) => HasUpload(s, id) && Live(s.uploads[id]) && (bytes == 0 || Admits(p, s.ledger, bytes))
    case Refuse(id, bytes) => HasUpload(s, id) && Live(s.uploads[id]) && bytes > 0 && !Admits(p, s.ledger, bytes)
    case OpenTemporary(id) => HasUpload(s, id) && s.uploads[id].phase.Vacant?
    // A chunk is written only after the reservation has grown to cover it, and only if it fits.
    case Write(id, bytes) =>
      && HasUpload(s, id) && s.uploads[id].phase.Temporary?
      && s.uploads[id].written + bytes <= s.uploads[id].outstanding && bytes <= s.disk
    case Rename(id) => HasUpload(s, id) && s.uploads[id].phase.Temporary?
    case MarkPublished(id) => HasUpload(s, id) && s.uploads[id].phase.Moved?
    case DropDuplicate(id) => HasUpload(s, id) && s.uploads[id].phase.Temporary?
    // A new file commits its stored length, a duplicate commits zero and has no file left.
    case Commit(id, bytes) =>
      && HasUpload(s, id) && (s.uploads[id].phase.Vacant? || s.uploads[id].phase.Published?)
      && s.uploads[id].written <= bytes
    case ReleaseSlack(id) => HasUpload(s, id) && s.uploads[id].phase.Slack?
    case Abandon(id) => HasUpload(s, id) && Live(s.uploads[id])
    case Unlink(id) => HasUpload(s, id) && s.uploads[id].phase.Removing?
    // Released only once the temporary path is known to be vacant, as a stray's always is.
    case SettleReleased(id) =>
      && HasUpload(s, id)
      && ((s.uploads[id].phase.Removing? && s.uploads[id].written == 0) || s.uploads[id].phase.Stray?)
    // Failed removal, missing runtime or shutdown all commit.
    case SettleCommitted(id) => HasUpload(s, id) && (s.uploads[id].phase.Removing? || s.uploads[id].phase.Stray?)
    case FreeSpace(bytes) => true
    case Sample(fails) => s.window.Closed? && s.disk <= U64_MAX
    case Apply => s.window.Open?
    case ReadMode => true
  }

  function With(s: State, id: nat, u: Upload): State
    requires HasUpload(s, id)
  {
    s.(uploads := s.uploads[id := u])
  }

  /** Releases what is owed; bytes of a file that stays behind are known to nobody from now on. */
  function ReleaseAll(s: State, id: nat): State
    requires HasUpload(s, id)
  {
    var u := s.uploads[id];
    With(s, id, DONE).(
      ledger := Released(s.ledger, u.outstanding), released := s.released + u.outstanding,
      debt := s.debt + u.unseen, lost := s.lost + u.sinceSample)
  }

  /** Commits `bytes`, leaving `next` in the upload's place; the latest sample does not learn of them. */
  function CommitBytes(s: State, id: nat, bytes: U64, next: Upload): State
    requires HasUpload(s, id)
  {
    var u := s.uploads[id];
    With(s, id, next).(
      ledger := Committed(s.ledger, bytes), committed := s.committed + bytes,
      overcharged := s.overcharged + bytes - u.unseen, lost := s.lost + u.sinceSample)
  }

  /** The file is gone: its bytes are free again. */
  function FileRemoved(s: State, id: nat, phase: Phase): State
    requires HasUpload(s, id)
  {
    var u := s.uploads[id];
    With(s, id, Upload(phase, u.outstanding, 0, 0, 0)).(
      disk := s.disk + u.written,
      freed := s.freed + u.written - u.unseen, freedSince := s.freedSince + u.written - u.sinceSample)
  }

  function Sampled(s: seq<Upload>): seq<Upload> {
    seq(|s|, i requires 0 <= i < |s| => s[i].(sinceSample := 0))
  }

  function Observed(s: seq<Upload>): seq<Upload> {
    seq(|s|, i requires 0 <= i < |s| => s[i].(unseen := s[i].sinceSample))
  }

  function Step(p: Policy, s: State, a: Action): State
    requires Enabled(p, s, a)
  {
    match a
    case Begin => s.(uploads := s.uploads + [Upload(Vacant, 0, 0, 0, 0)])
    case Reserve(id, bytes) =>
      if bytes == 0 then s
      else
        var u := s.uploads[id];
        With(s, id, u.(outstanding := SatAdd(u.outstanding, bytes))).(
          ledger := Reserved(s.ledger, bytes), granted := s.granted + bytes, admitted := true)
    case Refuse(id, bytes) => s
    case OpenTemporary(id) => With(s, id, s.uploads[id].(phase := Temporary))
    case Write(id, bytes) =>
      var u := s.uploads[id];
      With(s, id, u.(written := u.written + bytes, unseen := u.unseen + bytes, sinceSample := u.sinceSample + bytes))
        .(disk := s.disk - bytes)
    case Rename(id) => With(s, id, s.uploads[id].(phase := Moved))
    case MarkPublished(id) => With(s, id, s.uploads[id].(phase := Published))
    case DropDuplicate(id) => FileRemoved(s, id, Vacant)
    case Commit(id, bytes) =>
      var u := s.uploads[id];
      var charged := Min(bytes, u.outstanding);
      CommitBytes(s, id, charged, Upload(Slack, u.outstanding - charged, 0, 0, 0))
    case ReleaseSlack(id) => ReleaseAll(s, id)
    case Abandon(id) =>
      if s.uploads[id].phase.Vacant? then ReleaseAll(s, id)
      else if s.uploads[id].phase.Published? then CommitBytes(s, id, s.uploads[id].outstanding, DONE)
      else With(s, id, s.uploads[id].(phase := if s.uploads[id].phase.Moved? then Stray else Removing))
    case Unlink(id) => FileRemoved(s, id, Removing)
    case SettleReleased(id) => ReleaseAll(s, id)
    case SettleCommitted(id) => CommitBytes(s, id, s.uploads[id].outstanding, DONE)
    case FreeSpace(bytes) => s.(disk := s.disk + bytes, freed := s.freed + bytes, freedSince := s.freedSince + bytes)
    case Sample(fails) =>
      s.(window := Open(if fails then None else Some(s.disk)), uploads := Sampled(s.uploads),
         freedSince := 0, lost := 0)
    case Apply =>
      var next := s.(ledger := Refreshed(s.ledger, s.window.observation), window := Closed);
      if s.window.observation.None? then next
      else next.(uploads := Observed(s.uploads), admitted := false,
                 freed := s.freedSince, overcharged := 0, debt := s.lost)
    case ReadMode => s.(ledger := s.ledger.(reclaiming := ModeOf(p, s.ledger).Reclaiming?))
  }

  // ----- conservation: every reserved byte is owed, released or committed, exactly once -----

  function Owed(u: Upload): int { u.outstanding }
  function Unseen(u: Upload): int { u.unseen }
  function SinceSample(u: Upload): int { u.sinceSample }

  /** What an upload may still write. */
  function Remaining(u: Upload): int {
    if Live(u) then u.outstanding - u.written else 0
  }

  ghost predicate UploadOk(u: Upload) {
    && u.unseen <= u.written && u.sinceSample <= u.written && u.written <= u.outstanding
    && (u.phase.Vacant? || u.phase.Slack? || u.phase.Done? ==> u.written == 0)
    && (u.phase.Done? ==> u.outstanding == 0)
  }

  ghost predicate UploadsOk(s: seq<Upload>) {
    forall i :: 0 <= i < |s| ==> UploadOk(s[i])
  }

  ghost predicate Balanced(p: Policy, s: State) {
    && UploadsOk(s.uploads)
    && s.ledger.reserved == Sum(s.uploads, Owed)
    && s.granted == s.released + s.committed + Sum(s.uploads, Owed)
    && s.ledger.reserved + s.ledger.committedSince <= U64_MAX
    && (s.admitted ==> SpokenFor(p, s.ledger) <= s.ledger.freeObserved)
  }

  lemma OwedWithin(p: Policy, s: State, id: nat)
    requires Balanced(p, s) && HasUpload(s, id)
    ensures s.uploads[id].outstanding <= s.ledger.reserved
  {
    SumIncludes(s.uploads, id, Owed);
  }

  /** What the ledger's observation and counters say the disk should hold. */
  function Explained(s: State): int {
    s.ledger.freeObserved - s.ledger.committedSince - Sum(s.uploads, Unseen) + s.freed + s.overcharged
  }

  /** The disk is exactly as explained, less the debt; likewise for an open successful sample. */
  ghost predicate DiskTracked(s: State) {
    && s.freed >= 0 && s.overcharged >= 0 && s.freedSince >= 0
    && s.disk == Explained(s) - s.debt
    && (s.window.Open? && s.window.observation.Some? ==>
          s.disk == s.window.observation.value - Sum(s.uploads, SinceSample) + s.freedSince - s.lost)
  }

  /** From the first grant on, the disk holds the headroom and all that may still be written, less `missing`. */
  ghost predicate RoomWithin(p: Policy, s: State, missing: nat) {
    s.granted > 0 ==> s.disk + missing >= p.emergencyHeadroom + Sum(s.uploads, Remaining)
  }

  ghost predicate Inv(p: Policy, s: State) {
    Balanced(p, s) && DiskTracked(s)
  }

  ghost predicate Keeps(p: Policy, s: State, next: State) {
    Inv(p, next) && forall missing: nat :: RoomWithin(p, s, missing) ==> RoomWithin(p, next, missing)
  }

  lemma Totals(s: seq<Upload>, id: nat, u: Upload)
    requires id < |s|
    ensures Sum(s[id := u], Owed) == Sum(s, Owed) - Owed(s[id]) + Owed(u)
    ensures Sum(s[id := u], Unseen) == Sum(s, Unseen) - Unseen(s[id]) + Unseen(u)
    ensures Sum(s[id := u], SinceSample) == Sum(s, SinceSample) - SinceSample(s[id]) + SinceSample(u)
    ensures Sum(s[id := u], Remaining) == Sum(s, Remaining) - Remaining(s[id]) + Remaining(u)
  {
    SumUpdate(s, id, u, Owed);
    SumUpdate(s, id, u, Unseen);
    SumUpdate(s, id, u, SinceSample);
    SumUpdate(s, id, u, Remaining);
  }

  lemma RelabelKeeps(p: Policy, s: State, id: nat, phase: Phase)
    requires Inv(p, s) && HasUpload(s, id) && Live(s.uploads[id])
    requires !phase.Vacant? && !phase.Slack? && !phase.Done?
    ensures Keeps(p, s, With(s, id, s.uploads[id].(phase := phase)))
  {
    Totals(s.uploads, id, s.uploads[id].(phase := phase));
  }

  lemma WriteKeeps(p: Policy, s: State, id: nat, bytes: U64)
    requires Inv(p, s) && Enabled(p, s, Write(id, bytes))
    ensures Keeps(p, s, Step(p, s, Write(id, bytes)))
  {
    Totals(s.uploads, id, Step(p, s, Write(id, bytes)).uploads[id]);
  }

  lemma RemovedKeeps(p: Policy, s: State, id: nat, phase: Phase)
    requires Inv(p, s) && HasUpload(s, id)
    requires (phase.Vacant? && Live(s.uploads[id])) || phase.Removing?
    ensures Keeps(p, s, FileRemoved(s, id, phase))
  {
    Totals(s.uploads, id, Upload(phase, s.uploads[id].outstanding, 0, 0, 0));
  }

  lemma ReleaseKeeps(p: Policy, s: State, id: nat)
    requires Inv(p, s) && HasUpload(s, id)
    requires s.uploads[id].written == 0 || s.uploads[id].phase.Stray?
    ensures Keeps(p, s, ReleaseAll(s, id))
  {
    OwedWithin(p, s, id);
    Totals(s.uploads, id, DONE);
  }

  lemma CommitKeeps(p: Policy, s: State, id: nat, bytes: U64, next: Upload)
    requires Inv(p, s) && HasUpload(s, id) && s.uploads[id].written <= bytes <= s.uploads[id].outstanding
    requires next == Upload(next.phase, s.uploads[id].outstanding - bytes, 0, 0, 0)
    requires next.phase.Slack? || (next.phase.Done? && next.outstanding == 0)
    ensures Keeps(p, s, CommitBytes(s, id, bytes, next))
  {
    OwedWithin(p, s, id);
    Totals(s.uploads, id, next);
  }

  lemma ReserveKeeps(p: Policy, s: State, id: nat, bytes: U64)
    requires Inv(p, s) && Enabled(p, s, Reserve(id, bytes))
    ensures Inv(p, Step(p, s, Reserve(id, bytes)))
    ensures bytes > 0 ==> RoomWithin(p, Step(p, s, Reserve(id, bytes)), s.debt)
  {
    if bytes > 0 {
      OwedWithin(p, s, id);
      AdmissionIsExact(p, s.ledger, bytes);
      Totals(s.uploads, id, Step(p, s, Reserve(id, bytes)).uploads[id]);
      SumSplit(s.uploads);
    }
  }

  lemma {:induction false} SumSplit(s: seq<Upload>)
    requires UploadsOk(s)
    ensures Sum(s, Remaining) <= Sum(s, Owed) - Sum(s, Unseen)
  {
    if s != [] {
      SumSplit(s[..|s| - 1]);
    }
  }

  lemma BeginKeeps(p: Policy, s: State)
    requires Inv(p, s)
    ensures Keeps(p, s, Step(p, s, Begin))
  {
    var u := Upload(Vacant, 0, 0, 0, 0);
    SumAppend(s.uploads, u, Owed);
    SumAppend(s.uploads, u, Unseen);
    SumAppend(s.uploads, u, SinceSample);
    SumAppend(s.uploads, u, Remaining);
  }

  lemma SampleKeeps(p: Policy, s: State, fails: bool)
    requires Inv(p, s) && Enabled(p, s, Sample(fails))
    ensures Keeps(p, s, Step(p, s, Sample(fails)))
  {
    var sampled := Sampled(s.uploads);
    SumMatch(sampled, Owed, s.uploads, Owed);
    SumMatch(sampled, Unseen, s.uploads, Unseen);
    SumMatch(sampled, Remaining, s.uploads, Remaining);
    SumZero(sampled, SinceSample);
  }

  lemma ApplyKeeps(p: Policy, s: State)
    requires Inv(p, s) && Enabled(p, s, Apply)
    ensures Keeps(p, s, Step(p, s, Apply))
  {
    var observed := Observed(s.uploads);
    SumMatch(observed, Owed, s.uploads, Owed);
    SumMatch(observed, Unseen, s.uploads, SinceSample);
    SumMatch(observed, Remaining, s.uploads, Remaining);
  }

  predicate Reserves(a: Action) {
    a.Reserve? && a.bytes > 0
  }

  predicate HandlesFile(a: Action) {
    a.OpenTemporary? || a.Write? || a.Rename? || a.MarkPublished? || a.DropDuplicate? || a.Unlink?
  }

  predicate Settling(a: Action) {
    a.Commit? || a.ReleaseSlack? || a.Abandon? || a.SettleReleased? || a.SettleCommitted?
  }

  lemma FileStepKeeps(p: Policy, s: State, a: Action)
    requires Inv(p, s) && Enabled(p, s, a) && HandlesFile(a)
    ensures Keeps(p, s, Step(p, s, a))
  {
    match a {
      case OpenTemporary(id) => RelabelKeeps(p, s, id, Temporary);
      case Write(id, bytes) => WriteKeeps(p, s, id, bytes);
      case Rename(id) => RelabelKeeps(p, s, id, Moved);
      case MarkPublished(id) => RelabelKeeps(p, s, id, Published);
      case DropDuplicate(id) => RemovedKeeps(p, s, id, Vacant);
      case Unlink(id) => RemovedKeeps(p, s, id, Removing);
    }
  }

  lemma SettlingKeeps(p: Policy, s: State, a: Action)
    requires Inv(p, s) && Enabled(p, s, a) && Settling(a)
    ensures Keeps(p, s, Step(p, s, a))
  {
    var u := s.uploads[a.id];
    match a {
      case Commit(id, bytes) =>
        var charged := Min(bytes, u.outstanding);
        CommitKeeps(p, s, id, charged, Upload(Slack, u.outstanding - charged, 0, 0, 0));
      case ReleaseSlack(id) => ReleaseKeeps(p, s, id);
      case Abandon(id) =>
        if u.phase.Vacant? {
          ReleaseKeeps(p, s, id);
        } else if u.phase.Published? {
          CommitKeeps(p, s, id, u.outstanding, DONE);
        } else {
          RelabelKeeps(p, s, id, if u.phase.Moved? then Stray else Removing);
        }
      case SettleReleased(id) => ReleaseKeeps(p, s, id);
      case SettleCommitted(id) => CommitKeeps(p, s, id, u.outstanding, DONE);
    }
  }

  lemma SharedStepKeeps(p: Policy, s: State, a: Action)
    requires Inv(p, s) && Enabled(p, s, a) && !HandlesFile(a) && !Settling(a) && !a.Reserve?
    ensures Keeps(p, s, Step(p, s, a))
  {
    match a {
      case Begin => BeginKeeps(p, s);
      case Refuse(id, bytes) =>
      case FreeSpace(bytes) =>
      case Sample(fails) => SampleKeeps(p, s, fails);
      case Apply => ApplyKeeps(p, s);
      case ReadMode =>
    }
  }

  /** Every step keeps the accounts; a reservation finds room up to the debt, all others keep the room. */
  lemma StepKeeps(p: Policy, s: State, a: Action)
    requires Inv(p, s) && Enabled(p, s, a)
    ensures Inv(p, Step(p, s, a))
    ensures if Reserves(a) then RoomWithin(p, Step(p, s, a), s.debt) else Keeps(p, s, Step(p, s, a))
  {
    if a.Reserve? {
      ReserveKeeps(p, s, a.id, a.bytes);
    } else if HandlesFile(a) {
      FileStepKeeps(p, s, a);
    } else if Settling(a) {
      SettlingKeeps(p, s, a);
    } else {
      SharedStepKeeps(p, s, a);
    }
  }

  predicate TouchesOne(a: Action) {
    !(a.Begin? || a.Sample? || a.Apply? || a.Refuse? || a.FreeSpace? || a.ReadMode? || a.Reserve?)
  }

  /** What a step takes back from `reserved`, and adds to `committed_since`, in exact arithmetic. */
  function Settles(s: State, a: Action): (int, int)
    requires TouchesOne(a) && HasUpload(s, a.id)
  {
    var u := s.uploads[a.id];
    if a.Commit? then (Min(a.bytes, u.outstanding), Min(a.bytes, u.outstanding))
    else if a.SettleCommitted? || (a.Abandon? && u.phase.Published?) then (u.outstanding, u.outstanding)
    else if a.ReleaseSlack? || a.SettleReleased? || (a.Abandon? && u.phase.Vacant?) then (u.outstanding, 0)
    else (0, 0)
  }

  /** Settling never saturates: what leaves `reserved` was there, and `committed_since` has room. */
  lemma SettlingNeverSaturates(p: Policy, s: State, a: Action)
    requires Balanced(p, s) && Enabled(p, s, a) && TouchesOne(a)
    ensures Step(p, s, a).ledger.reserved == s.ledger.reserved - Settles(s, a).0
    ensures Step(p, s, a).ledger.committedSince == s.ledger.committedSince + Settles(s, a).1
  {
    OwedWithin(p, s, a.id);
  }

  /** Reserving never saturates, neither in the ledger nor in the upload's own count. */
  lemma ReservingNeverSaturates(p: Policy, s: State, id: nat, bytes: U64)
    requires Balanced(p, s) && Enabled(p, s, Reserve(id, bytes))
    ensures Step(p, s, Reserve(id, bytes)).ledger.reserved == s.ledger.reserved + bytes
    ensures Step(p, s, Reserve(id, bytes)).uploads[id].outstanding == s.uploads[id].outstanding + bytes
  {
    OwedWithin(p, s, id);
    if bytes > 0 {
      AdmissionIsExact(p, s.ledger, bytes);
    }
  }

  // ----- runs -----

  ghost predicate IsRun(p: Policy, states: seq<State>, actions: seq<Action>) {
    && |states| == |actions| + 1
    && states[0].disk >= 0 && states[0] == Initial(states[0].disk)
    && forall i :: 0 <= i < |actions| ==> StepAt(p, states, actions, i)
  }

  ghost predicate StepAt(p: Policy, states: seq<State>, actions: seq<Action>, i: nat)
    requires i < |actions| < |states|
  {
    Enabled(p, states[i], actions[i]) && states[i + 1] == Step(p, states[i], actions[i])
  }

  lemma {:induction false} RunKeepsAccounts(p: Policy, states: seq<State>, actions: seq<Action>, i: nat)
    requires IsRun(p, states, actions) && i < |states|
    ensures Inv(p, states[i])
  {
    if i > 0 {
      RunKeepsAccounts(p, states, actions, i - 1);
      assert StepAt(p, states, actions, i - 1);
      StepKeeps(p, states[i - 1], actions[i - 1]);
    }
  }

  // ----- what an upload finds after an await -----

  predicate Concerns(a: Action, id: nat) {
    !(a.Begin? || a.FreeSpace? || a.Sample? || a.Apply? || a.ReadMode?) && a.id == id
  }

  lemma OthersLeave(p: Policy, s: State, a: Action, id: nat)
    requires Enabled(p, s, a) && HasUpload(s, id) && !Concerns(a, id)
    ensures HasUpload(Step(p, s, a), id)
    ensures var u, v := s.uploads[id], Step(p, s, a).uploads[id];
            v.phase == u.phase && v.outstanding == u.outstanding && v.written == u.written
  {
  }

  /**
   * Whatever other uploads, refreshes and evictions do between two steps of an upload, it finds its
   * own reservation as it left it and the ledger still backing it.
   */
  lemma {:induction false} AwaitSound(
    p: Policy, states: seq<State>, actions: seq<Action>, i: nat, j: nat, id: nat)
    requires IsRun(p, states, actions) && i <= j < |states| && HasUpload(states[i], id)
    requires forall k :: i <= k < j ==> !Concerns(actions[k], id)
    ensures HasUpload(states[j], id)
    ensures var u, v := states[i].uploads[id], states[j].uploads[id];
            v.phase == u.phase && v.outstanding == u.outstanding && v.written == u.written
    ensures states[i].uploads[id].outstanding <= states[j].ledger.reserved
    ensures states[j].ledger.reserved + states[j].ledger.committedSince <= U64_MAX
    decreases j
  {
    if i < j {
      AwaitSound(p, states, actions, i, j - 1, id);
      assert StepAt(p, states, actions, j - 1);
      OthersLeave(p, states[j - 1], actions[j - 1], id);
    }
    RunKeepsAccounts(p, states, actions, j);
    OwedWithin(p, states[j], id);
  }

  // ----- step sequences from any state -----

  ghost predicate Leads(p: Policy, states: seq<State>, actions: seq<Action>, s: State, t: State) {
    && |states| == |actions| + 1 && states[0] == s && states[|actions|] == t
    && forall i :: 0 <= i < |actions| ==> StepAt(p, states, actions, i)
  }

  ghost predicate Reaches(p: Policy, s: State, t: State) {
    exists states, actions :: Leads(p, states, actions, s, t)
  }

  /** Other uploads and the ledger's own tasks lead from `s` to `t`, without a step of upload `id`. */
  ghost predicate Evolves(p: Policy, s: State, t: State, id: nat) {
    exists states, actions :: Leads(p, states, actions, s, t) && NoneConcerns(actions, id)
  }

  ghost predicate NoneConcerns(actions: seq<Action>, id: nat) {
    forall i :: 0 <= i < |actions| ==> !Concerns(actions[i], id)
  }

  lemma LeadsOn(
    p: Policy, xs: seq<State>, a: seq<Action>, s: State, t: State, ys: seq<State>, b: seq<Action>, u: State)
    requires Leads(p, xs, a, s, t) && Leads(p, ys, b, t, u)
    ensures Leads(p, xs + ys[1..], a + b, s, u)
  {
    var zs, c := xs + ys[1..], a + b;
    forall i | 0 <= i < |c| ensures StepAt(p, zs, c, i) {
      if i < |a| {
        assert StepAt(p, xs, a, i);
      } else {
        assert StepAt(p, ys, b, i - |a|);
        assert zs[i] == ys[i - |a|] && zs[i + 1] == ys[i + 1 - |a|];
      }
    }
  }

  lemma ReachesOn(p: Policy, s: State, t: State, u: State)
    requires Reaches(p, s, t) && Reaches(p, t, u)
    ensures Reaches(p, s, u)
  {
    var xs, a :| Leads(p, xs, a, s, t);
    var ys, b :| Leads(p, ys, b, t, u);
    LeadsOn(p, xs, a, s, t, ys, b, u);
  }

  lemma ReachesSelf(p: Policy, s: State, id: nat)
    ensures Reaches(p, s, s) && Evolves(p, s, s, id)
  {
    assert Leads(p, [s], [], s, s) && NoneConcerns([], id);
  }

  lemma ReachesStep(p: Policy, s: State, a: Action)
    requires Enabled(p, s, a)
    ensures Reaches(p, s, Step(p, s, a))
  {
    assert StepAt(p, [s, Step(p, s, a)], [a], 0);
    assert Leads(p, [s, Step(p, s, a)], [a], s, Step(p, s, a));
  }

  lemma {:induction false} LeadsKeeps(
    p: Policy, states: seq<State>, actions: seq<Action>, s: State, t: State, id: nat, n: nat)
    requires Inv(p, s) && HasUpload(s, id) && Leads(p, states, actions, s, t) && NoneConcerns(actions, id)
    requires n < |states|
    ensures Inv(p, states[n]) && HasUpload(states[n], id)
    ensures states[n].uploads[id].phase == s.uploads[id].phase
    ensures states[n].uploads[id].outstanding == s.uploads[id].outstanding
  {
    if n > 0 {
      LeadsKeeps(p, states, actions, s, t, id, n - 1);
      assert StepAt(p, states, actions, n - 1);
      StepKeeps(p, states[n - 1], actions[n - 1]);
      OthersLeave(p, states[n - 1], actions[n - 1], id);
    }
  }

  /** What others do from any state that keeps the accounts leaves an upload its reservation. */
  lemma EvolvesKeeps(p: Policy, s: State, t: State, id: nat)
    requires Inv(p, s) && HasUpload(s, id) && Evolves(p, s, t, id)
    ensures Inv(p, t) && HasUpload(t, id)
    ensures t.uploads[id].phase == s.uploads[id].phase && t.uploads[id].outstanding == s.uploads[id].outstanding
  {
    var states, actions :| Leads(p, states, actions, s, t) && NoneConcerns(actions, id);
    LeadsKeeps(p, states, actions, s, t, id, |actions|);
  }

  /** When every upload is over, everything granted was released or committed and nothing is reserved. */
  lemma SettledExactlyOnce(p: Policy, states: seq<State>, actions: seq<Action>, i: nat)
    requires IsRun(p, states, actions) && i < |states|
    requires forall k :: 0 <= k < |states[i].uploads| ==> states[i].uploads[k].phase.Done?
    ensures states[i].ledger.reserved == 0
    ensures states[i].granted == states[i].released + states[i].committed
  {
    RunKeepsAccounts(p, states, actions, i);
    var uploads := states[i].uploads;
    SumZero(uploads, Owed);
  }

  /**
   * A successful non-zero reservation establishes the exact inequality, and no later step breaks it
   * until a refresh succeeds.
   */
  lemma {:induction false} ReservationHolds(p: Policy, states: seq<State>, actions: seq<Action>, i: nat, j: nat)
    requires IsRun(p, states, actions) && i < j < |states|
    requires actions[i].Reserve? && actions[i].bytes > 0
    requires forall k :: i < k < j ==> !Refreshes(states[k], actions[k])
    ensures states[j].admitted && SpokenFor(p, states[j].ledger) <= states[j].ledger.freeObserved
  {
    RunKeepsAccounts(p, states, actions, j);
    assert StepAt(p, states, actions, j - 1);
    if i + 1 < j {
      ReservationHolds(p, states, actions, i, j - 1);
    }
  }

  // ----- failed observations -----

  predicate Refreshes(s: State, a: Action) {
    a.Apply? && s.window.Open? && s.window.observation.Some?
  }

  /** No refresh has succeeded in the steps from `m` to before `n`. */
  ghost predicate NoneRefreshes(states: seq<State>, actions: seq<Action>, m: nat, n: nat)
    requires n <= |states| && n <= |actions|
  {
    forall k :: m <= k < n ==> !Refreshes(states[k], actions[k])
  }

  ghost predicate AdmitsNothing(p: Policy, s: State) {
    forall id, bytes: U64 | bytes > 0 :: !Enabled(p, s, Reserve(id, bytes))
  }

  lemma StaysDegraded(p: Policy, s: State, a: Action)
    requires Enabled(p, s, a) && s.ledger.degraded && !Refreshes(s, a)
    ensures Step(p, s, a).ledger.degraded
  {
  }

  lemma {:induction false} DegradedThrough(p: Policy, states: seq<State>, actions: seq<Action>, m: nat, n: nat)
    requires IsRun(p, states, actions) && m <= n < |states| && states[m].ledger.degraded
    requires NoneRefreshes(states, actions, m, n)
    ensures states[n].ledger.degraded
    decreases n
  {
    if m < n {
      DegradedThrough(p, states, actions, m, n - 1);
      assert StepAt(p, states, actions, n - 1);
      StaysDegraded(p, states[n - 1], actions[n - 1]);
    }
  }

  /**
   * Failing closed: a refresh whose sample failed takes only trust away from the ledger, and from then
   * until a refresh succeeds no upload is granted a byte, whatever happens in between.
   */
  lemma FailedRefreshAdmitsNothing(p: Policy, states: seq<State>, actions: seq<Action>, m: nat, n: nat)
    requires IsRun(p, states, actions) && m < n < |states|
    requires actions[m].Apply? && states[m].window == Open(None) && NoneRefreshes(states, actions, m, n)
    ensures AdmitsNothing(p, states[n])
    ensures var l, r := states[m].ledger, states[m + 1].ledger;
            && r.freeObserved == l.freeObserved && r.reserved == l.reserved
            && r.committedSince == l.committedSince && r.reclaiming == l.reclaiming
  {
    assert StepAt(p, states, actions, m);
    DegradedThrough(p, states, actions, m + 1, n);
  }

  /** Nor is a byte granted before the first refresh has succeeded. */
  lemma NothingBeforeFirstRefresh(p: Policy, states: seq<State>, actions: seq<Action>, n: nat)
    requires IsRun(p, states, actions) && n < |states| && NoneRefreshes(states, actions, 0, n)
    ensures AdmitsNothing(p, states[n]) && states[n].granted == 0
    decreases n
  {
    DegradedThrough(p, states, actions, 0, n);
    if n > 0 {
      NothingBeforeFirstRefresh(p, states, actions, n - 1);
      assert StepAt(p, states, actions, n - 1);
      GrantsNothing(p, states[n - 1], actions[n - 1]);
    }
  }

  lemma GrantsNothing(p: Policy, s: State, a: Action)
    requires Enabled(p, s, a) && AdmitsNothing(p, s)
    ensures Step(p, s, a).granted == s.granted
  {
  }

  /** Reading the mode only remembers it: reclaiming begins below the low watermark and ends at the high one. */
  lemma ModeFollowsWatermarks(p: Policy, s: State)
    ensures var free := s.ledger.freeObserved - s.ledger.reserved - s.ledger.committedSince - p.emergencyHeadroom;
            var r := Step(p, s, ReadMode);
            && r == s.(ledger := s.ledger.(reclaiming := r.ledger.reclaiming))
            && (r.ledger.reclaiming <==> Max(0, free) < if s.ledger.reclaiming then p.highWatermark else p.lowWatermark)
  {
  }

  // ----- which runs lose track of the disk -----

  /** The reservation of a body is released although the body was renamed into place. */
  predicate ReleasesStray(s: State, a: Action) {
    a.SettleReleased? && HasUpload(s, a.id) && s.uploads[a.id].phase.Stray?
  }

  predicate CommitsBytes(s: State, a: Action) {
    && (a.Commit? || a.SettleCommitted? || a.Abandon?) && HasUpload(s, a.id)
    && (a.Abandon? ==> s.uploads[a.id].phase.Published?)
  }

  /** A body that the latest sample has not seen in full leaves the accounts of the uploads. */
  predicate LeavesUnsampled(s: State, a: Action) {
    (CommitsBytes(s, a) || ReleasesStray(s, a)) && s.uploads[a.id].sinceSample > 0
  }

  /** Such a body left while the refresh window that is open before step `n` was open. */
  ghost predicate LeftInWindow(states: seq<State>, actions: seq<Action>, n: nat)
    requires n <= |states| && n <= |actions|
  {
    exists i :: 0 <= i < n && LeavesUnsampled(states[i], actions[i]) && states[i].window.Open? &&
                forall k :: i < k < n ==> !actions[k].Apply?
  }

  /** A refresh installs a sample that such a body left behind, or a stray body is released unseen. */
  ghost predicate Loses(states: seq<State>, actions: seq<Action>, n: nat)
    requires n < |states| && n < |actions|
  {
    || (Refreshes(states[n], actions[n]) && LeftInWindow(states, actions, n))
    || (ReleasesStray(states[n], actions[n]) && states[n].uploads[actions[n].id].unseen > 0)
  }

  /** Some step lost bytes and no refresh has succeeded since. */
  ghost predicate Unaccounted(states: seq<State>, actions: seq<Action>, n: nat)
    requires n <= |states| && n <= |actions|
  {
    exists m :: 0 <= m < n && Loses(states, actions, m) &&
                forall k :: m < k < n ==> !Refreshes(states[k], actions[k])
  }

  lemma LeftInWindowUnrolled(states: seq<State>, actions: seq<Action>, n: nat)
    requires n < |states| && n < |actions| && !actions[n].Apply?
    ensures LeftInWindow(states, actions, n + 1) <==>
            LeftInWindow(states, actions, n) || (LeavesUnsampled(states[n], actions[n]) && states[n].window.Open?)
  {
    if LeftInWindow(states, actions, n) {
      var i :| 0 <= i < n && LeavesUnsampled(states[i], actions[i]) && states[i].window.Open? &&
               forall k :: i < k < n ==> !actions[k].Apply?;
      assert forall k :: i < k < n + 1 ==> !actions[k].Apply?;
    }
  }

  lemma UnaccountedUnrolled(states: seq<State>, actions: seq<Action>, n: nat)
    requires n < |states| && n < |actions|
    ensures Unaccounted(states, actions, n + 1) <==>
            Loses(states, actions, n) || (Unaccounted(states, actions, n) && !Refreshes(states[n], actions[n]))
  {
    if Unaccounted(states, actions, n) && !Refreshes(states[n], actions[n]) {
      var m :| 0 <= m < n && Loses(states, actions, m) &&
               forall k :: m < k < n ==> !Refreshes(states[k], actions[k]);
      assert forall k :: m < k < n + 1 ==> !Refreshes(states[k], actions[k]);
    }
  }

  lemma {:induction false} WindowStays(p: Policy, states: seq<State>, actions: seq<Action>, i: nat, n: nat)
    requires IsRun(p, states, actions) && i <= n < |states| && states[i].window.Open?
    requires forall k :: i <= k < n ==> !actions[k].Apply?
    ensures states[n].window.Open?
  {
    if i < n {
      WindowStays(p, states, actions, i, n - 1);
      assert StepAt(p, states, actions, n - 1);
    }
  }

  lemma LostStep(p: Policy, s: State, a: Action)
    requires Inv(p, s) && Enabled(p, s, a)
    ensures a.Sample? ==> Step(p, s, a).lost == 0
    ensures !a.Sample? ==> (Step(p, s, a).lost > 0 <==> s.lost > 0 || LeavesUnsampled(s, a))
    ensures Step(p, s, a).window.Open? ==> a.Sample? || (s.window.Open? && !a.Apply?)
  {
  }

  lemma LostAt(p: Policy, states: seq<State>, actions: seq<Action>, n: nat)
    requires IsRun(p, states, actions) && n < |actions| && states[n + 1].window.Open?
    ensures actions[n].Sample? ==> states[n + 1].lost == 0 && states[n].window.Closed?
    ensures !actions[n].Sample? ==>
              && states[n].window.Open? && !actions[n].Apply?
              && (states[n + 1].lost > 0 <==> states[n].lost > 0 || LeavesUnsampled(states[n], actions[n]))
  {
    RunKeepsAccounts(p, states, actions, n);
    assert StepAt(p, states, actions, n);
    LostStep(p, states[n], actions[n]);
  }

  lemma {:induction false} LostExactly(p: Policy, states: seq<State>, actions: seq<Action>, n: nat)
    requires IsRun(p, states, actions) && n < |states| && states[n].window.Open?
    ensures states[n].lost > 0 <==> LeftInWindow(states, actions, n)
  {
    if n > 0 {
      var m := n - 1;
      LostAt(p, states, actions, m);
      LeftInWindowUnrolled(states, actions, m);
      if actions[m].Sample? {
        NothingLeft(p, states, actions, m);
      } else {
        LostExactly(p, states, actions, m);
      }
    }
  }

  /** Nothing has left in a window that is not open. */
  lemma NothingLeft(p: Policy, states: seq<State>, actions: seq<Action>, n: nat)
    requires IsRun(p, states, actions) && n < |actions| && states[n].window.Closed?
    ensures !LeftInWindow(states, actions, n)
  {
    if i :| 0 <= i < n && LeavesUnsampled(states[i], actions[i]) && states[i].window.Open? &&
            forall k :: i < k < n ==> !actions[k].Apply? {
      assert !actions[i].Apply?;
      WindowStays(p, states, actions, i, n);
    }
  }

  lemma DebtStep(p: Policy, s: State, a: Action)
    requires Inv(p, s) && Enabled(p, s, a)
    ensures Refreshes(s, a) ==> Step(p, s, a).debt == s.lost
    ensures !Refreshes(s, a) ==>
              (Step(p, s, a).debt > 0 <==> s.debt > 0 || (ReleasesStray(s, a) && s.uploads[a.id].unseen > 0))
  {
  }

  lemma {:induction false} DebtExactly(p: Policy, states: seq<State>, actions: seq<Action>, n: nat)
    requires IsRun(p, states, actions) && n < |states|
    ensures states[n].debt > 0 <==> Unaccounted(states, actions, n)
  {
    if n > 0 {
      var s, a := states[n - 1], actions[n - 1];
      DebtExactly(p, states, actions, n - 1);
      RunKeepsAccounts(p, states, actions, n - 1);
      assert StepAt(p, states, actions, n - 1);
      DebtStep(p, s, a);
      UnaccountedUnrolled(states, actions, n - 1);
      if Refreshes(s, a) {
        LostExactly(p, states, actions, n - 1);
      }
    }
  }

  /**
   * The free space is what the accounts explain exactly in the states after which no body was
   * written and settled between the sample and the lock of a refresh, and no renamed body was
   * released, since the last refresh that succeeded.
   */
  lemma AccountedExactly(p: Policy, states: seq<State>, actions: seq<Action>, n: nat)
    requires IsRun(p, states, actions) && n < |states|
    ensures states[n].disk == Explained(states[n]) <==> !Unaccounted(states, actions, n)
    ensures states[n].disk <= Explained(states[n])
  {
    RunKeepsAccounts(p, states, actions, n);
    DebtExactly(p, states, actions, n);
  }

  // ----- disk safety -----

  /** The largest debt in which a reservation was granted so far. */
  function WorstDebt(states: seq<State>, actions: seq<Action>, n: nat): nat
    requires n <= |states| && n <= |actions|
  {
    if n == 0 then 0
    else
      var worst := WorstDebt(states, actions, n - 1);
      if Reserves(actions[n - 1]) then Max(worst, states[n - 1].debt) else worst
  }

  /** In every run the room missing from the disk is at most the worst debt of a reservation. */
  lemma {:induction false} RunKeepsRoom(p: Policy, states: seq<State>, actions: seq<Action>, n: nat)
    requires IsRun(p, states, actions) && n < |states|
    ensures RoomWithin(p, states[n], WorstDebt(states, actions, n))
  {
    if n > 0 {
      RunKeepsRoom(p, states, actions, n - 1);
      RunKeepsAccounts(p, states, actions, n - 1);
      assert StepAt(p, states, actions, n - 1);
      StepKeeps(p, states[n - 1], actions[n - 1]);
    }
  }

  lemma {:induction false} NoDebt(p: Policy, states: seq<State>, actions: seq<Action>, n: nat)
    requires IsRun(p, states, actions) && n <= |actions|
    requires forall k :: 0 <= k < n && Reserves(actions[k]) ==> !Unaccounted(states, actions, k)
    ensures WorstDebt(states, actions, n) == 0
  {
    if n > 0 {
      NoDebt(p, states, actions, n - 1);
      DebtExactly(p, states, actions, n - 1);
    }
  }

  /**
   * Reservations protect the disk: while none is granted in an unaccounted state, uploads leave the
   * emergency headroom free.
   */
  lemma UploadsStayAboveHeadroom(p: Policy, states: seq<State>, actions: seq<Action>, n: nat)
    requires IsRun(p, states, actions) && n < |states| && states[n].granted > 0
    requires forall k :: 0 <= k < n && Reserves(actions[k]) ==> !Unaccounted(states, actions, k)
    ensures states[n].disk >= p.emergencyHeadroom
  {
    RunKeepsRoom(p, states, actions, n);
    NoDebt(p, states, actions, n);
    RunKeepsAccounts(p, states, actions, n);
    SumNonNegative(states[n].uploads, Remaining);
  }

  function LostCommitActions(body: U64): seq<Action> {
    [Sample(false), Apply, Begin, Reserve(0, body), OpenTemporary(0),
     Sample(false), Write(0, body), Rename(0), MarkPublished(0), Commit(0, body), Apply,
     Begin, Reserve(1, body), OpenTemporary(1), Write(1, body)]
  }

  function LostCommitState(headroom: U64, body: U64, k: nat): State
    requires body <= headroom && headroom + body <= U64_MAX && k <= 15
  {
    var free := headroom + body;
    var seen := Ledger(free, 0, 0, false, false);
    var idle := State(seen, [], Closed, free, 0, 0, 0, false, 0, 0, 0, 0, 0);
    var staging := idle.(ledger := seen.(reserved := body), granted := body, admitted := true);
    var written := staging.(window := Open(Some(free)), disk := headroom);
    // The refresh has installed its stale sample: the body is counted nowhere.
    var stale := idle.(disk := headroom, granted := body, committed := body, debt := body, lost := body);
    var again := stale.(ledger := seen.(reserved := body), granted := 2 * body, admitted := true);
    var slack := Upload(Slack, 0, 0, 0, 0);
    match k
    case 0 => Initial(free)
    case 1 => Initial(free).(window := Open(Some(free)))
    case 2 => idle
    case 3 => idle.(uploads := [Upload(Vacant, 0, 0, 0, 0)])
    case 4 => staging.(uploads := [Upload(Vacant, body, 0, 0, 0)])
    case 5 => staging.(uploads := [Upload(Temporary, body, 0, 0, 0)])
    case 6 => staging.(uploads := [Upload(Temporary, body, 0, 0, 0)], window := Open(Some(free)))
    case 7 => written.(uploads := [Upload(Temporary, body, body, body, body)])
    case 8 => written.(uploads := [Upload(Moved, body, body, body, body)])
    case 9 => written.(uploads := [Upload(Published, body, body, body, body)])
    case 10 => written.(ledger := seen.(committedSince := body), uploads := [slack], committed := body, lost := body)
    case 11 => stale.(uploads := [slack])
    case 12 => stale.(uploads := [slack, Upload(Vacant, 0, 0, 0, 0)])
    case 13 => again.(uploads := [slack, Upload(Vacant, body, 0, 0, 0)])
    case 14 => again.(uploads := [slack, Upload(Temporary, body, 0, 0, 0)])
    case 15 => again.(uploads := [slack, Upload(Temporary, body, body, body, body)], disk := headroom - body)
  }

  lemma LostCommitBefore(headroom: U64, body: U64, k: nat)
    requires 0 < body <= headroom && headroom + body <= U64_MAX && k < 7
    ensures Enabled(Policy(0, 0, headroom), LostCommitState(headroom, body, k), LostCommitActions(body)[k])
    ensures LostCommitState(headroom, body, k + 1)
         == Step(Policy(0, 0, headroom), LostCommitState(headroom, body, k), LostCommitActions(body)[k])
  {
  }

  lemma LostCommitBetween(headroom: U64, body: U64, k: nat)
    requires 0 < body <= headroom && headroom + body <= U64_MAX && 7 <= k < 11
    ensures Enabled(Policy(0, 0, headroom), LostCommitState(headroom, body, k), LostCommitActions(body)[k])
    ensures LostCommitState(headroom, body, k + 1)
         == Step(Policy(0, 0, headroom), LostCommitState(headroom, body, k), LostCommitActions(body)[k])
  {
  }

  lemma LostCommitAfter(headroom: U64, body: U64, k: nat)
    requires 0 < body <= headroom && headroom + body <= U64_MAX && 11 <= k < 15
    ensures Enabled(Policy(0, 0, headroom), LostCommitState(headroom, body, k), LostCommitActions(body)[k])
    ensures LostCommitState(headroom, body, k + 1)
         == Step(Policy(0, 0, headroom), LostCommitState(headroom, body, k), LostCommitActions(body)[k])
  {
  }

  /**
   * Without that condition the headroom is not safe, for any body that fits into it: a refresh samples,
   * a body is written and committed, the refresh installs its sample and forgets the body, and the
   * next upload of that size is admitted onto space that is already gone.
   */
  lemma LostCommitRun(headroom: U64, body: U64) returns (states: seq<State>)
    requires 0 < body <= headroom && headroom + body <= U64_MAX
    ensures IsRun(Policy(0, 0, headroom), states, LostCommitActions(body))
    ensures states[15].granted > 0 && states[15].disk == headroom - body
  {
    states := seq(16, k requires 0 <= k < 16 => LostCommitState(headroom, body, k));
    forall k | 0 <= k < 15 ensures StepAt(Policy(0, 0, headroom), states, LostCommitActions(body), k) {
      if k < 7 {
        LostCommitBefore(headroom, body, k);
      } else if k < 11 {
        LostCommitBetween(headroom, body, k);
      } else {
        LostCommitAfter(headroom, body, k);
      }
    }
  }

  function StrayActions(body: U64): seq<Action> {
    [Sample(false), Apply, Begin, Reserve(0, body), OpenTemporary(0), Write(0, body), Rename(0),
     Abandon(0), SettleReleased(0), Begin, Reserve(1, body), OpenTemporary(1), Write(1, body)]
  }

  function StrayState(headroom: U64, body: U64, k: nat): State
    requires body <= headroom && headroom + body <= U64_MAX && k <= 13
  {
    var free := headroom + body;
    var seen := Ledger(free, 0, 0, false, false);
    var idle := State(seen, [], Closed, free, 0, 0, 0, false, 0, 0, 0, 0, 0);
    var staging := idle.(ledger := seen.(reserved := body), granted := body, admitted := true);
    // The reservation is released although the body stays at its final path.
    var stray := idle.(
      disk := headroom, granted := body, released := body, admitted := true, debt := body, lost := body);
    var again := stray.(ledger := seen.(reserved := body), granted := 2 * body);
    match k
    case 0 => Initial(free)
    case 1 => Initial(free).(window := Open(Some(free)))
    case 2 => idle
    case 3 => idle.(uploads := [Upload(Vacant, 0, 0, 0, 0)])
    case 4 => staging.(uploads := [Upload(Vacant, body, 0, 0, 0)])
    case 5 => staging.(uploads := [Upload(Temporary, body, 0, 0, 0)])
    case 6 => staging.(uploads := [Upload(Temporary, body, body, body, body)], disk := headroom)
    case 7 => staging.(uploads := [Upload(Moved, body, body, body, body)], disk := headroom)
    case 8 => staging.(uploads := [Upload(Stray, body, body, body, body)], disk := headroom)
    case 9 => stray.(uploads := [DONE])
    case 10 => stray.(uploads := [DONE, Upload(Vacant, 0, 0, 0, 0)])
    case 11 => again.(uploads := [DONE, Upload(Vacant, body, 0, 0, 0)])
    case 12 => again.(uploads := [DONE, Upload(Temporary, body, 0, 0, 0)])
    case 13 => again.(uploads := [DONE, Upload(Temporary, body, body, body, body)], disk := headroom - body)
  }

  lemma StrayBefore(headroom: U64, body: U64, k: nat)
    requires 0 < body <= headroom && headroom + body <= U64_MAX && k < 6
    ensures Enabled(Policy(0, 0, headroom), StrayState(headroom, body, k), StrayActions(body)[k])
    ensures StrayState(headroom, body, k + 1)
         == Step(Policy(0, 0, headroom), StrayState(headroom, body, k), StrayActions(body)[k])
  {
  }

  lemma StrayAfter(headroom: U64, body: U64, k: nat)
    requires 0 < body <= headroom && headroom + body <= U64_MAX && 6 <= k < 13
    ensures Enabled(Policy(0, 0, headroom), StrayState(headroom, body, k), StrayActions(body)[k])
    ensures StrayState(headroom, body, k + 1)
         == Step(Policy(0, 0, headroom), StrayState(headroom, body, k), StrayActions(body)[k])
  {
  }

  /**
   * The other way to lose a body: its upload is dropped after the rename and before the reservation
   * is marked published. The cleanup finds no temporary file and releases space that is taken.
   */
  lemma StrayRun(headroom: U64, body: U64) returns (states: seq<State>)
    requires 0 < body <= headroom && headroom + body <= U64_MAX
    ensures IsRun(Policy(0, 0, headroom), states, StrayActions(body))
    ensures states[13].granted > 0 && states[13].disk == headroom - body
  {
    states := seq(14, k requires 0 <= k < 14 => StrayState(headroom, body, k));
    forall k | 0 <= k < 13 ensures StepAt(Policy(0, 0, headroom), states, StrayActions(body), k) {
      if k < 6 {
        StrayBefore(headroom, body, k);
      } else {
        StrayAfter(headroom, body, k);
      }
    }
  }
}
