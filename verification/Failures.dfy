/**
 * The failure count of a member (src/agent/discovery.rs), counted on the calls themselves: a
 * failure ejects exactly when it completes the limit since the member was last started afresh.
 */
module Failures {
  import opened Words
  import opened Bytes
  import opened Ring
  import opened RingState

  /** What is known of the ID, if anything. */
  ghost function HealthOf(s: seq<MemberHealth>, id: Text): Option<MemberHealth> {
    if exists h :: h in s && h.member.id == id
    then var h :| h in s && h.member.id == id; Some(h)
    else None
  }

  ghost predicate InService(s: State, id: Text) {
    exists h :: h in s.members && h.member.id == id && h.nextRetry.None?
  }

  predicate FailureOf(call: Call, id: Text) {
    call.RecordFailure? && call.id == id
  }

  /** How many of the calls from `r` to before `n` are failures of the ID. */
  function FailureCount(calls: seq<Call>, r: nat, n: nat, id: Text): nat
    requires r <= n <= |calls|
  {
    if r == n then 0 else FailureCount(calls, r, n - 1, id) + if FailureOf(calls[n - 1], id) then 1 else 0
  }

  /**
   * The call starts the member afresh: its success, a call that finds it out of service, so that it
   * is in service afterwards only if discovered or readmitted, or an ejection its own rebuild takes back.
   */
  ghost predicate Starts(config: Config, s: State, call: Call, id: Text) {
    call == RecordSuccess(id) || !InService(s, id) || (FailureOf(call, id) && Ejects(config, s, id))
  }

  /** The states of a new ring before, between and after the calls. */
  ghost predicate IsRun(config: Config, states: seq<State>, calls: seq<Call>) {
    && |states| == |calls| + 1 && states[0] == INITIAL
    && forall i :: 0 <= i < |calls| ==> StepAt(config, states, calls, i)
  }

  ghost predicate StepAt(config: Config, states: seq<State>, calls: seq<Call>, i: nat)
    requires i < |calls| && i + 1 < |states|
  {
    states[i + 1] == Step(config, states[i], calls[i])
  }

  /** Of the first `n` calls, the one before `r` is the last that started the member afresh. */
  ghost predicate CountsFrom(config: Config, states: seq<State>, calls: seq<Call>, r: nat, n: nat, id: Text)
    requires |states| == |calls| + 1
  {
    && 0 < r <= n <= |calls| && Starts(config, states[r - 1], calls[r - 1], id)
    && forall k :: r <= k < n ==> !Starts(config, states[k], calls[k], id)
  }

  // ----- what one call does to one member -----

  lemma HealthIs(s: seq<MemberHealth>, id: Text, h: MemberHealth)
    requires StrictHealth(s) && h in s && h.member.id == id
    ensures HealthOf(s, id) == Some(h)
  {
    var found := HealthOf(s, id).value;
    var i :| 0 <= i < |s| && s[i] == found;
    var j :| 0 <= j < |s| && s[j] == h;
  }

  lemma LookupIs(s: seq<MemberHealth>, id: Text)
    requires StrictHealth(s)
    ensures Lookup(s, id).None? <==> HealthOf(s, id).None?
    ensures Lookup(s, id).Some? ==> HealthOf(s, id) == Some(s[Lookup(s, id).value])
  {
    var found := Lookup(s, id);
    if found.Some? {
      HealthIs(s, id, s[found.value]);
    }
  }

  lemma ReadmitHealth(s: seq<MemberHealth>, now: U64, id: Text)
    requires StrictHealth(s)
    ensures HealthOf(ReadmitAll(s, now), id) ==
            match HealthOf(s, id) case None => None case Some(h) => Some(Readmit(h, now))
  {
    var t := ReadmitAll(s, now);
    if h :| h in s && h.member.id == id {
      HealthIs(s, id, h);
      var i :| 0 <= i < |s| && s[i] == h;
      HealthIs(t, id, t[i]);
    }
    if h :| h in t && h.member.id == id {
      var i :| 0 <= i < |t| && t[i] == h;
      assert s[i] in s;
    }
  }

  lemma EditHealth(s: seq<MemberHealth>, i: nat, h: MemberHealth, id: Text)
    requires StrictHealth(s) && i < |s| && h.member == s[i].member
    ensures HealthOf(s[i := h], id) == if s[i].member.id == id then Some(h) else HealthOf(s, id)
  {
    var t := s[i := h];
    if s[i].member.id == id {
      HealthIs(t, id, t[i]);
    } else if x :| x in s && x.member.id == id {
      var k :| 0 <= k < |s| && s[k] == x;
      HealthIs(s, id, x);
      HealthIs(t, id, t[k]);
    }
    if x :| x in t && x.member.id == id {
      var k :| 0 <= k < |t| && t[k] == x;
      assert s[k] in s;
    }
  }

  lemma CarryHealth(known: seq<MemberHealth>, discovered: seq<RingMember>, id: Text)
    requires StrictHealth(known) && StrictHealth(CarriedAll(known, discovered))
    ensures
      var carried := HealthOf(CarriedAll(known, discovered), id);
      carried.Some? ==>
        match HealthOf(known, id)
        case None => carried.value.failures == 0 && carried.value.nextRetry.None?
        case Some(h) => carried.value.failures == h.failures && carried.value.nextRetry == h.nextRetry
  {
    var t := CarriedAll(known, discovered);
    LookupIs(known, id);
    if h :| h in t && h.member.id == id {
      HealthIs(t, id, h);
      var i :| 0 <= i < |t| && t[i] == h;
      assert h == Carried(known, discovered[i]);
    }
  }

  /** A member in service after the call has count zero after a fresh start, one more after a failure. */
  ghost predicate Counted(config: Config, s: State, call: Call, id: Text, t: State) {
    InService(t, id) ==>
      if Starts(config, s, call, id) then Has(t, id, 0)
      else forall count :: Has(s, id, count) ==> Has(t, id, if FailureOf(call, id) then count + 1 else count)
  }

  /** The member is in service with this failure count. */
  ghost predicate Has(s: State, id: Text, count: int) {
    exists h :: h in s.members && h.member.id == id && h.nextRetry.None? && h.failures == count
  }

  lemma CountStep(config: Config, s: State, call: Call, id: Text)
    requires Inv(config, s) && config.failureLimit >= 1
    ensures Counted(config, s, call, id, Step(config, s, call))
  {
    var t := Step(config, s, call);
    StepKeeps(config, s, call);
    HealthStep(config, s, call, id);
    if h :| h in t.members && h.member.id == id && h.nextRetry.None? {
      HealthIs(t.members, id, h);
      InServiceIs(config, s, id);
      LookupIs(s.members, id);
      if !Starts(config, s, call, id) {
        forall count | Has(s, id, count) ensures Has(t, id, if FailureOf(call, id) then count + 1 else count) {
          var x :| x in s.members && x.member.id == id && x.nextRetry.None? && x.failures == count;
          HealthIs(s.members, id, x);
        }
      }
    }
  }

  /** What one call does to what is known of the ID. */
  ghost predicate HealthMoves(
    config: Config, s: State, call: Call, id: Text, before: Option<MemberHealth>, after: Option<MemberHealth>)
  {
    after.Some? && after.value.nextRetry.None? ==>
      if call == RecordSuccess(id) || before.None? || before.value.nextRetry.Some? then after.value.failures == 0
      else if FailureOf(call, id) then
        after.value.failures == if Ejects(config, s, id) then 0 else before.value.failures + 1
      else after.value.failures == before.value.failures
  }

  lemma HealthStep(config: Config, s: State, call: Call, id: Text)
    requires Inv(config, s) && config.failureLimit >= 1
    ensures HealthMoves(config, s, call, id, HealthOf(s.members, id), HealthOf(Step(config, s, call).members, id))
  {
    match call {
      case Route(now) =>
        RouteReadmits(config, s, now);
        ReadmitHealth(s.members, now, id);
      case RecordSuccess(other) =>
        LookupIs(s.members, other);
        var found := Lookup(s.members, other);
        if found.Some? {
          EditHealth(s.members, found.value, s.members[found.value].(failures := 0), id);
        }
      case RecordFailure(other, now) =>
        FailureMoves(config, s, other, now, id);
      case ApplySnapshot(discovered, now) =>
        var canonical := Canonical(discovered);
        SnapshotMembers(s.members, discovered);
        CarryHealth(s.members, canonical, id);
        ReadmitHealth(CarriedAll(s.members, canonical), now, id);
    }
  }

  lemma FailureMoves(config: Config, s: State, other: Text, now: U64, id: Text)
    requires Inv(config, s) && config.failureLimit >= 1
    ensures
      var call := RecordFailure(other, now);
      HealthMoves(config, s, call, id, HealthOf(s.members, id), HealthOf(Step(config, s, call).members, id))
  {
    LookupIs(s.members, other);
    var found := Lookup(s.members, other);
    if found.Some? {
      var health := s.members[found.value];
      var bumped := Bumped(health);
      assert health in s.members;
      assert health.nextRetry.None? ==> bumped.failures == health.failures + 1;
      if Ejects(config, s, other) {
        var ejected := bumped.(nextRetry := Some(WrapAdd(now, config.retryTimeout)));
        EditHealth(s.members, found.value, ejected, id);
        ReadmitHealth(s.members[found.value := ejected], now, id);
      } else {
        EditHealth(s.members, found.value, bumped, id);
      }
    }
  }

  lemma InServiceIs(config: Config, s: State, id: Text)
    requires Inv(config, s)
    ensures InService(s, id) <==> HealthOf(s.members, id).Some? && HealthOf(s.members, id).value.nextRetry.None?
  {
    if h :| h in s.members && h.member.id == id && h.nextRetry.None? {
      HealthIs(s.members, id, h);
    }
  }

  // ----- the count over a run -----

  lemma {:induction false} RunInv(config: Config, states: seq<State>, calls: seq<Call>, n: nat)
    requires config.failureLimit >= 1 && IsRun(config, states, calls) && n <= |calls|
    ensures Inv(config, states[n])
  {
    if n > 0 {
      RunInv(config, states, calls, n - 1);
      assert StepAt(config, states, calls, n - 1);
      StepKeeps(config, states[n - 1], calls[n - 1]);
    }
  }

  /** Every member in service was started afresh at some call and has been counted from there. */
  lemma {:induction false} AlwaysCounted(config: Config, states: seq<State>, calls: seq<Call>, n: nat, id: Text)
    requires config.failureLimit >= 1 && IsRun(config, states, calls) && n <= |calls| && InService(states[n], id)
    ensures exists r: nat :: CountsFrom(config, states, calls, r, n, id)
  {
    assert n > 0;
    if Starts(config, states[n - 1], calls[n - 1], id) {
      assert CountsFrom(config, states, calls, n, n, id);
    } else {
      AlwaysCounted(config, states, calls, n - 1, id);
      var r: nat :| CountsFrom(config, states, calls, r, n - 1, id);
      assert CountsFrom(config, states, calls, r, n, id);
    }
  }

  /** The stored count of a member in service is the number of its failures since it was started afresh. */
  lemma {:induction false} CountIsFailuresSince(
    config: Config, states: seq<State>, calls: seq<Call>, r: nat, n: nat, id: Text)
    requires config.failureLimit >= 1 && IsRun(config, states, calls)
    requires n <= |calls| && CountsFrom(config, states, calls, r, n, id) && InService(states[n], id)
    ensures Has(states[n], id, FailureCount(calls, r, n, id))
    decreases n
  {
    assert Counted(config, states[n - 1], calls[n - 1], id, states[n]) by {
      RunInv(config, states, calls, n - 1);
      assert StepAt(config, states, calls, n - 1);
      CountStep(config, states[n - 1], calls[n - 1], id);
    }
    if r < n {
      CountIsFailuresSince(config, states, calls, r, n - 1, id);
    }
  }

  /** A failure ejects a member in service exactly when it is the limit-th since the fresh start. */
  lemma EjectsAtLimit(config: Config, states: seq<State>, calls: seq<Call>, r: nat, n: nat, id: Text)
    requires config.failureLimit >= 1 && IsRun(config, states, calls)
    requires n <= |calls| && CountsFrom(config, states, calls, r, n, id) && InService(states[n], id)
    ensures FailureCount(calls, r, n, id) < config.failureLimit
    ensures Ejects(config, states[n], id) <==> FailureCount(calls, r, n, id) + 1 == config.failureLimit
  {
    RunInv(config, states, calls, n);
    CountIsFailuresSince(config, states, calls, r, n, id);
    EjectsOn(config, states[n], id, FailureCount(calls, r, n, id));
  }

  lemma EjectsOn(config: Config, s: State, id: Text, count: int)
    requires Inv(config, s) && Has(s, id, count)
    ensures count < config.failureLimit && (Ejects(config, s, id) <==> count + 1 == config.failureLimit)
  {
    var h :| h in s.members && h.member.id == id && h.nextRetry.None? && h.failures == count;
    HealthIs(s.members, id, h);
    LookupIs(s.members, id);
  }

  /** A failure of a member that is out of service or not known ejects nothing. */
  lemma OthersNeverEject(config: Config, s: State, id: Text)
    requires !InService(s, id)
    ensures !Ejects(config, s, id)
  {
    var found := Lookup(s.members, id);
    if found.Some? {
      assert s.members[found.value] in s.members;
    }
  }

  /** The states of a run are those the ring is in after each of the calls. */
  lemma {:induction false} RunIs(config: Config, states: seq<State>, calls: seq<Call>, n: nat)
    requires config.failureLimit >= 1 && IsRun(config, states, calls) && n <= |calls|
    ensures states[n] == Run(config, calls[..n])
  {
    if n > 0 {
      RunIs(config, states, calls, n - 1);
      assert StepAt(config, states, calls, n - 1);
      assert calls[..n][..n - 1] == calls[..n - 1];
    }
  }

  // ----- out until the deadline, and back at it -----

  /** The member is out of service until this moment. */
  ghost predicate OutUntil(s: State, id: Text, deadline: U64) {
    exists h :: h in s.members && h.member.id == id && h.nextRetry == Some(deadline)
  }

  /** A call before the deadline that does not drop the ID from the membership. */
  ghost predicate LeavesOut(call: Call, id: Text, deadline: U64) {
    match call
    case Route(now) => now < deadline
    case RecordSuccess(_) => true
    case RecordFailure(_, now) => now < deadline
    case ApplySnapshot(discovered, now) => now < deadline && id in Ids(discovered)
  }

  lemma StaysOut(config: Config, s: State, call: Call, id: Text, deadline: U64)
    requires Inv(config, s) && config.failureLimit >= 1 && OutUntil(s, id, deadline) && LeavesOut(call, id, deadline)
    ensures OutUntil(Step(config, s, call), id, deadline)
  {
    var h :| h in s.members && h.member.id == id && h.nextRetry == Some(deadline);
    HealthIs(s.members, id, h);
    match call {
      case Route(now) =>
        RouteReadmits(config, s, now);
        ReadmitHealth(s.members, now, id);
      case RecordSuccess(other) =>
        LookupIs(s.members, other);
        var found := Lookup(s.members, other);
        if found.Some? {
          EditHealth(s.members, found.value, s.members[found.value].(failures := 0), id);
        }
      case RecordFailure(other, now) =>
        FailureLeavesOut(config, s, other, now, id, deadline);
      case ApplySnapshot(discovered, now) =>
        var canonical := Canonical(discovered);
        SnapshotMembers(s.members, discovered);
        CanonicalFacts(discovered);
        CarryKnown(s.members, canonical, id);
        CarryHealth(s.members, canonical, id);
        ReadmitHealth(CarriedAll(s.members, canonical), now, id);
    }
  }

  lemma CarryKnown(known: seq<MemberHealth>, discovered: seq<RingMember>, id: Text)
    requires id in Ids(discovered)
    ensures HealthOf(CarriedAll(known, discovered), id).Some?
  {
    var m :| m in discovered && m.id == id;
    var i :| 0 <= i < |discovered| && discovered[i] == m;
    assert CarriedAll(known, discovered)[i] in CarriedAll(known, discovered);
  }

  lemma FailureLeavesOut(config: Config, s: State, other: Text, now: U64, id: Text, deadline: U64)
    requires Inv(config, s) && OutUntil(s, id, deadline) && now < deadline
    ensures OutUntil(Step(config, s, RecordFailure(other, now)), id, deadline)
  {
    var h :| h in s.members && h.member.id == id && h.nextRetry == Some(deadline);
    HealthIs(s.members, id, h);
    LookupIs(s.members, other);
    var found := Lookup(s.members, other);
    if found.Some? {
      var bumped := Bumped(s.members[found.value]);
      if Ejects(config, s, other) {
        var ejected := bumped.(nextRetry := Some(WrapAdd(now, config.retryTimeout)));
        EditHealth(s.members, found.value, ejected, id);
        ReadmitHealth(s.members[found.value := ejected], now, id);
      } else {
        EditHealth(s.members, found.value, bumped, id);
      }
    }
  }

  lemma {:induction false} OutAfter(config: Config, s: State, calls: seq<Call>, id: Text, deadline: U64)
    requires Inv(config, s) && config.failureLimit >= 1 && OutUntil(s, id, deadline)
    requires forall k :: 0 <= k < |calls| ==> LeavesOut(calls[k], id, deadline)
    ensures OutUntil(RunFrom(config, s, calls), id, deadline)
    decreases |calls|
  {
    if calls != [] {
      var n := |calls| - 1;
      OutAfter(config, s, calls[..n], id, deadline);
      StaysOut(config, RunFrom(config, s, calls[..n]), calls[n], id, deadline);
    }
  }

  /**
   * A member that is out until its deadline is routed to again exactly from then on, whatever is
   * called before that by any thread, as long as no snapshot drops it.
   */
  lemma BackAtDeadline(config: Config, s: State, id: Text, deadline: U64, calls: seq<Call>, later: U64)
    requires Inv(config, s) && config.failureLimit >= 1 && OutUntil(s, id, deadline)
    requires forall k :: 0 <= k < |calls| ==> LeavesOut(calls[k], id, deadline)
    ensures id in Ids(Step(config, RunFrom(config, s, calls), Route(later)).routed) <==> later >= deadline
  {
    OutAfter(config, s, calls, id, deadline);
    RoutedBack(config, RunFrom(config, s, calls), id, deadline, later);
  }

  /** An ejection takes the member out until the timeout has passed, if that is still to come. */
  lemma OutForTimeout(config: Config, s: State, id: Text, now: U64)
    requires Inv(config, s) && config.failureLimit >= 1 && Ejects(config, s, id)
    requires config.retryTimeout > 0 && now + config.retryTimeout <= 0xFFFF_FFFF_FFFF_FFFF
    ensures
      var after := Step(config, s, RecordFailure(id, now));
      Inv(config, after) && OutUntil(after, id, now + config.retryTimeout)
  {
    StepKeeps(config, s, RecordFailure(id, now));
    var found := Lookup(s.members, id);
    var ejected := Bumped(s.members[found.value]).(nextRetry := Some(now + config.retryTimeout));
    EditHealth(s.members, found.value, ejected, id);
    ReadmitHealth(s.members[found.value := ejected], now, id);
  }

  lemma RoutedBack(config: Config, s: State, id: Text, deadline: U64, later: U64)
    requires Inv(config, s) && OutUntil(s, id, deadline)
    ensures id in Ids(Step(config, s, Route(later)).routed) <==> later >= deadline
  {
    var h :| h in s.members && h.member.id == id && h.nextRetry == Some(deadline);
    RouteFrom(config, s, later);
    ServingAre(s.members, later);
    if other :| other in s.members && other.member.id == id && MayServe(other, later) {
      HealthIs(s.members, id, h);
      HealthIs(s.members, id, other);
    }
    if later >= deadline {
      assert h.member in Serving(s.members, later);
    }
  }
}
