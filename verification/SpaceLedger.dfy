/**
 * The space ledger (src/cache/space.rs): the latest free-space observation, outstanding
 * reservations and bytes committed since the observation, with saturating 64-bit arithmetic.
 */
module SpaceLedger {
  import opened Words

  datatype Policy = Policy(lowWatermark: U64, highWatermark: U64, emergencyHeadroom: U64)

  datatype Mode = Normal | Reclaiming

  datatype Ledger = Ledger(
    freeObserved: U64, reserved: U64, committedSince: U64, degraded: bool, reclaiming: bool)

  const FRESH: Ledger := Ledger(0, 0, 0, true, false)

  function Available(p: Policy, l: Ledger): U64 {
    SatSub(l.freeObserved, SatAdd(SatAdd(l.reserved, l.committedSince), p.emergencyHeadroom))
  }

  function Refreshed(l: Ledger, observation: Option<U64>): Ledger {
    match observation
    case Some(free) => l.(freeObserved := free, committedSince := 0, degraded := false)
    case None => l.(degraded := true)
  }

  predicate Admits(p: Policy, l: Ledger, bytes: U64) {
    !l.degraded && Available(p, l) >= bytes
  }

  function Reserved(l: Ledger, bytes: U64): Ledger {
    l.(reserved := SatAdd(l.reserved, bytes))
  }

  function Released(l: Ledger, bytes: U64): Ledger {
    l.(reserved := SatSub(l.reserved, bytes))
  }

  function Committed(l: Ledger, bytes: U64): Ledger {
    l.(reserved := SatSub(l.reserved, bytes), committedSince := SatAdd(l.committedSince, bytes))
  }

  /** Low/high watermark hysteresis: the mode reported, which is also what the ledger remembers. */
  function ModeOf(p: Policy, l: Ledger): Mode {
    if l.reclaiming then
      if Available(p, l) >= p.highWatermark then Normal else Reclaiming
    else if Available(p, l) < p.lowWatermark then Reclaiming
    else Normal
  }

  /** Every byte counted against the observation, without saturation. */
  function SpokenFor(p: Policy, l: Ledger): int {
    l.reserved + l.committedSince + p.emergencyHeadroom
  }

  /** Admission of a non-zero amount fits the exact inequality, although it is tested saturating. */
  lemma AdmissionIsExact(p: Policy, l: Ledger, bytes: U64)
    requires bytes > 0
    ensures Admits(p, l, bytes) <==> !l.degraded && SpokenFor(p, l) + bytes <= l.freeObserved
  {
  }

  /** What is available, without saturation, never less than nothing. */
  lemma AvailableIsExact(p: Policy, l: Ledger)
    ensures Available(p, l) == Max(0, l.freeObserved - SpokenFor(p, l))
  {
  }

  class SharedLedger {
    const policy: Policy
    var freeObserved: U64
    var reserved: U64
    var committedSince: U64
    var degraded: bool
    var reclaiming: bool

    function State(): Ledger
      reads this
    {
      Ledger(freeObserved, reserved, committedSince, degraded, reclaiming)
    }

    /** Starts degraded and takes the first observation through `Refresh`. */
    constructor (policy: Policy, observation: Option<U64>)
      ensures this.policy == policy && State() == Refreshed(FRESH, observation)
    {
      this.policy := policy;
      freeObserved, reserved, committedSince := 0, 0, 0;
      degraded, reclaiming := true, false;
      new;
      Refresh(observation);
    }

    /** A failed observation admits nothing, whatever was free before, and forgets nothing. */
    method Refresh(observation: Option<U64>)
      modifies this
      ensures State() == Refreshed(old(State()), observation)
      ensures observation.None? ==>
                && (forall bytes :: !Admits(policy, State(), bytes))
                && freeObserved == old(freeObserved) && reserved == old(reserved)
                && committedSince == old(committedSince) && reclaiming == old(reclaiming)
      ensures observation.Some? ==>
                && (forall bytes: U64 | bytes > 0 ::
                      Admits(policy, State(), bytes) <==>
                      old(reserved) + policy.emergencyHeadroom + bytes <= observation.value)
                && freeObserved == observation.value && committedSince == 0
                && reserved == old(reserved) && reclaiming == old(reclaiming)
    {
      match observation {
        case Some(free) =>
          freeObserved := free;
          committedSince := 0;
          degraded := false;
        case None =>
          degraded := true;
      }
    }

    /** In Normal the next mode needs the low watermark, in Reclaiming it needs the high one. */
    method CurrentMode() returns (mode: Mode)
      modifies this`reclaiming
      ensures mode == ModeOf(policy, old(State())) && reclaiming == mode.Reclaiming?
      ensures old(reclaiming) ==> (mode.Normal? <==> Available(policy, State()) >= policy.highWatermark)
      ensures !old(reclaiming) ==> (mode.Normal? <==> Available(policy, State()) >= policy.lowWatermark)
    {
      var available := Available(policy, State());
      if reclaiming {
        if available >= policy.highWatermark {
          reclaiming := false;
          mode := Normal;
        } else {
          mode := Reclaiming;
        }
      } else if available < policy.lowWatermark {
        reclaiming := true;
        mode := Reclaiming;
      } else {
        mode := Normal;
      }
    }

    method TryReserve(bytes: U64) returns (granted: bool)
      modifies this`reserved
      ensures granted == Admits(policy, old(State()), bytes)
      ensures State() == if granted then Reserved(old(State()), bytes) else old(State())
      ensures granted && bytes > 0 ==> SpokenFor(policy, State()) <= freeObserved
    {
      AdmissionIsExact(policy, State(), if bytes > 0 then bytes else 1);
      if degraded {
        return false;
      }
      if Available(policy, State()) < bytes {
        return false;
      }
      reserved := SatAdd(reserved, bytes);
      return true;
    }

    method Release(bytes: U64)
      modifies this`reserved
      ensures State() == Released(old(State()), bytes)
    {
      reserved := SatSub(reserved, bytes);
    }

    method Commit(bytes: U64)
      modifies this`reserved, this`committedSince
      ensures State() == Committed(old(State()), bytes)
    {
      reserved := SatSub(reserved, bytes);
      committedSince := SatAdd(committedSince, bytes);
    }
  }
}
