/**
 * Ejection and readmission around the continuum (src/agent/discovery.rs). Every call runs under
 * the state lock, so a run is a sequence of calls; the clock is any sequence of readings.
 */
module RingState {
  import opened Words
  import opened Bytes
  import opened Sorting
  import opened Ring

  datatype MemberHealth = MemberHealth(member: RingMember, failures: U32, nextRetry: Option<U64>)

  datatype Config = Config(place: Place, failureLimit: U32, retryTimeout: U64)

  /** `routed` is the membership the current continuum was built over. */
  datatype State = State(members: seq<MemberHealth>, routed: seq<RingMember>, earliestRetry: Option<U64>)

  datatype Call =
    | Route(now: U64)
    | RecordSuccess(id: Text)
    | RecordFailure(id: Text, now: U64)
    | ApplySnapshot(discovered: seq<RingMember>, now: U64)

  // ----- what one call does -----

  ghost predicate StrictHealth(s: seq<MemberHealth>) {
    forall i, j :: 0 <= i < j < |s| ==> Less(s[i].member.id, s[j].member.id)
  }

  /** Where the ID is, if it is known; strict order makes the index unique. */
  ghost function Lookup(s: seq<MemberHealth>, id: Text): (r: Option<nat>)
    ensures r.Some? ==> r.value < |s| && s[r.value].member.id == id
    ensures r.None? ==> forall i :: 0 <= i < |s| ==> s[i].member.id != id
  {
    if exists i :: 0 <= i < |s| && s[i].member.id == id
    then var i :| 0 <= i < |s| && s[i].member.id == id; Some(i)
    else None
  }

  /** `binary_search_by` on the member ID. */
  method Search(s: seq<MemberHealth>, id: Text) returns (r: Option<nat>)
    requires StrictHealth(s)
    ensures r == Lookup(s, id)
  {
    var lo, hi := 0, |s|;
    while lo < hi
      invariant 0 <= lo <= hi <= |s|
      invariant forall i :: 0 <= i < |s| && s[i].member.id == id ==> lo <= i < hi
    {
      var mid := (lo + hi) / 2;
      if s[mid].member.id == id {
        return Some(mid);
      }
      LeqTotal(s[mid].member.id, id);
      if Leq(s[mid].member.id, id) {
        forall i | 0 <= i < |s| && s[i].member.id == id ensures mid < i {
          if i < mid {
            LeqAntisymmetric(id, s[mid].member.id);
          }
        }
        lo := mid + 1;
      } else {
        hi := mid;
      }
    }
    return None;
  }

  function Readmit(h: MemberHealth, now: U64): MemberHealth {
    if h.nextRetry.Some? && now >= h.nextRetry.value then MemberHealth(h.member, 0, None) else h
  }

  function ReadmitAll(s: seq<MemberHealth>, now: U64): seq<MemberHealth> {
    seq(|s|, i requires 0 <= i < |s| => Readmit(s[i], now))
  }

  function Eligible(s: seq<MemberHealth>): seq<RingMember> {
    if s == [] then []
    else
      var front := Eligible(s[..|s| - 1]);
      if s[|s| - 1].nextRetry.None? then front + [s[|s| - 1].member] else front
  }

  function Sooner(soonest: Option<U64>, deadline: U64): Option<U64> {
    if soonest.None? then Some(deadline) else Some(Min(soonest.value, deadline))
  }

  function Earliest(s: seq<MemberHealth>): Option<U64> {
    if s == [] then None
    else
      var front := Earliest(s[..|s| - 1]);
      if s[|s| - 1].nextRetry.None? then front else Sooner(front, s[|s| - 1].nextRetry.value)
  }

  function Rebuilt(s: seq<MemberHealth>, now: U64): State {
    var members := ReadmitAll(s, now);
    State(members, Eligible(members), Earliest(members))
  }

  predicate Waiting(s: State, now: U64) {
    s.earliestRetry.None? || now < s.earliestRetry.value
  }

  function Bumped(h: MemberHealth): MemberHealth {
    h.(failures := if h.failures < U32_MAX then h.failures + 1 else U32_MAX)
  }

  /** Whether a failure of `id` ejects it: known, in service, and reaching the limit. */
  ghost predicate Ejects(config: Config, s: State, id: Text)
  {
    var found := Lookup(s.members, id);
    && found.Some?
    && s.members[found.value].nextRetry.None?
    && Bumped(s.members[found.value]).failures >= config.failureLimit
  }

  ghost function Carried(known: seq<MemberHealth>, member: RingMember): MemberHealth
  {
    var found := Lookup(known, member.id);
    if found.Some? then MemberHealth(member, known[found.value].failures, known[found.value].nextRetry)
    else MemberHealth(member, 0, None)
  }

  ghost function CarriedAll(known: seq<MemberHealth>, discovered: seq<RingMember>): (r: seq<MemberHealth>)
    ensures |r| == |discovered| && forall i :: 0 <= i < |r| ==> r[i] == Carried(known, discovered[i])
  {
    if discovered == [] then [] else [Carried(known, discovered[0])] + CarriedAll(known, discovered[1..])
  }

  /** Pairs each discovered member with the health its ID already had, then sorts and deduplicates. */
  method Carry(known: seq<MemberHealth>, discovered: seq<RingMember>) returns (members: seq<MemberHealth>)
    requires StrictHealth(known)
    ensures members == CarriedAll(known, Canonical(discovered)) && StrictHealth(members)
  {
    var rows: seq<MemberHealth> := [];
    for i := 0 to |discovered|
      invariant |rows| == i && forall k :: 0 <= k < i ==> rows[k] == Carried(known, discovered[k])
    {
      var previous := Search(known, discovered[i].id);
      var row := if previous.Some?
                 then MemberHealth(discovered[i], known[previous.value].failures, known[previous.value].nextRetry)
                 else MemberHealth(discovered[i], 0, None);
      rows := rows + [row];
    }
    assert rows == CarriedAll(known, discovered);
    SnapshotMembers(known, discovered);
    members := Dedup(Sort(rows, HealthLeq), SameHealthId);
  }

  predicate HealthLeq(a: MemberHealth, b: MemberHealth) {
    Leq(a.member.id, b.member.id)
  }

  predicate SameHealthId(a: MemberHealth, b: MemberHealth) {
    a.member.id == b.member.id
  }

  ghost function Step(config: Config, s: State, call: Call): State
  {
    match call
    case Route(now) =>
      if Waiting(s, now) then s else Rebuilt(s.members, now)
    case RecordSuccess(id) =>
      var found := Lookup(s.members, id);
      if found.None? then s
      else s.(members := s.members[found.value := s.members[found.value].(failures := 0)])
    case RecordFailure(id, now) =>
      var found := Lookup(s.members, id);
      if found.None? then s
      else
        var bumped := Bumped(s.members[found.value]);
        if !Ejects(config, s, id) then s.(members := s.members[found.value := bumped])
        else
          var ejected := bumped.(nextRetry := Some(WrapAdd(now, config.retryTimeout)));
          Rebuilt(s.members[found.value := ejected], now)
    case ApplySnapshot(discovered, now) =>
      Rebuilt(CarriedAll(s.members, Canonical(discovered)), now)
  }

  const INITIAL: State := State([], [], None)

  // ----- the invariant of every run -----

  /** The stored deadline is the minimum over ejected members, absent when there are none. */
  ghost predicate IsEarliest(s: seq<MemberHealth>, earliest: Option<U64>) {
    && (forall h :: h in s && h.nextRetry.Some? ==> earliest.Some? && earliest.value <= h.nextRetry.value)
    && (earliest.Some? ==> exists h :: h in s && h.nextRetry == earliest)
  }

  ghost predicate BelowLimit(config: Config, s: seq<MemberHealth>) {
    forall h :: h in s && h.nextRetry.None? ==> h.failures < config.failureLimit
  }

  ghost predicate Inv(config: Config, s: State) {
    && StrictHealth(s.members)
    && IsEarliest(s.members, s.earliestRetry)
    && BelowLimit(config, s.members)
    && s.routed == Eligible(s.members)
  }

  lemma {:induction false} EligibleAre(s: seq<MemberHealth>)
    requires StrictHealth(s)
    ensures StrictById(Eligible(s))
    ensures forall m :: m in Eligible(s) <==> exists h :: h in s && h.member == m && h.nextRetry.None?
  {
    if s != [] {
      var front, last := s[..|s| - 1], s[|s| - 1];
      EligibleAre(front);
      assert forall h :: h in s <==> h in front || h == last;
      forall k | 0 <= k < |Eligible(front)| ensures Less(Eligible(front)[k].id, last.member.id) {
        assert Eligible(front)[k] in Eligible(front);
        var h :| h in front && h.member == Eligible(front)[k];
      }
      forall m ensures m in Eligible(s) <==> exists h :: h in s && h.member == m && h.nextRetry.None? {
        if last.nextRetry.None? && m == last.member {
          assert last in s;
        }
      }
    }
  }

  lemma {:induction false} EarliestIs(s: seq<MemberHealth>)
    ensures IsEarliest(s, Earliest(s))
  {
    if s != [] {
      var front, last := s[..|s| - 1], s[|s| - 1];
      EarliestIs(front);
      assert forall h :: h in s <==> h in front || h == last;
      assert last in s;
      if Earliest(front).Some? {
        var h :| h in front && h.nextRetry == Earliest(front);
        assert h in s;
      }
    }
  }

  lemma RebuiltKeeps(config: Config, s: seq<MemberHealth>, now: U64)
    requires StrictHealth(s) && config.failureLimit >= 1
    requires BelowLimit(config, s)
    ensures Inv(config, Rebuilt(s, now))
  {
    var members := ReadmitAll(s, now);
    EarliestIs(members);
    forall h | h in members && h.nextRetry.None? ensures h.failures < config.failureLimit {
      var i :| 0 <= i < |members| && members[i] == h;
      assert s[i] in s;
    }
  }

  lemma EditKeeps(config: Config, s: State, i: nat, h: MemberHealth)
    requires Inv(config, s) && i < |s.members|
    requires h.member == s.members[i].member && h.nextRetry == s.members[i].nextRetry
    requires h.nextRetry.None? ==> h.failures < config.failureLimit
    ensures Inv(config, s.(members := s.members[i := h]))
  {
    var edited := s.members[i := h];
    SameEligible(s.members, edited, |edited|);
    EarliestUnchanged(s.members, edited, s.earliestRetry);
    forall x | x in edited && x.nextRetry.None? ensures x.failures < config.failureLimit {
      assert x == h || x in s.members;
    }
  }

  lemma EarliestUnchanged(a: seq<MemberHealth>, b: seq<MemberHealth>, earliest: Option<U64>)
    requires |a| == |b| && IsEarliest(a, earliest)
    requires forall i :: 0 <= i < |a| ==> a[i].nextRetry == b[i].nextRetry
    ensures IsEarliest(b, earliest)
  {
    forall x | x in b && x.nextRetry.Some? ensures earliest.Some? && earliest.value <= x.nextRetry.value {
      var k :| 0 <= k < |b| && b[k] == x;
      assert a[k] in a;
    }
    if earliest.Some? {
      var x :| x in a && x.nextRetry == earliest;
      var k :| 0 <= k < |a| && a[k] == x;
      assert b[k] in b;
    }
  }

  lemma {:induction false} SameEligible(a: seq<MemberHealth>, b: seq<MemberHealth>, n: nat)
    requires |a| == |b| && n <= |a|
    requires forall i :: 0 <= i < |a| ==> a[i].member == b[i].member && a[i].nextRetry == b[i].nextRetry
    ensures Eligible(a[..n]) == Eligible(b[..n])
    ensures n == |a| ==> Eligible(a) == Eligible(b)
  {
    if n > 0 {
      SameEligible(a, b, n - 1);
      assert a[..n][..n - 1] == a[..n - 1] && b[..n][..n - 1] == b[..n - 1];
    }
    if n == |a| {
      assert a[..n] == a && b[..n] == b;
    }
  }

  // ----- snapshots: the health rows are sorted and deduplicated exactly as the members are -----

  lemma CarriedCons(known: seq<MemberHealth>, x: RingMember, s: seq<RingMember>)
    ensures CarriedAll(known, [x] + s) == [Carried(known, x)] + CarriedAll(known, s)
  {
  }

  lemma CarriedTail(known: seq<MemberHealth>, s: seq<RingMember>)
    requires s != []
    ensures CarriedAll(known, s)[1..] == CarriedAll(known, s[1..])
  {
  }

  lemma {:induction false} CarriedInsert(known: seq<MemberHealth>, x: RingMember, s: seq<RingMember>)
    ensures Insert(Carried(known, x), CarriedAll(known, s), HealthLeq) == CarriedAll(known, Insert(x, s, IdLeq))
  {
    if s == [] || IdLeq(x, s[0]) {
      CarriedCons(known, x, s);
    } else {
      CarriedInsert(known, x, s[1..]);
      CarriedTail(known, s);
      CarriedCons(known, s[0], Insert(x, s[1..], IdLeq));
    }
  }

  lemma {:induction false} CarriedSort(known: seq<MemberHealth>, s: seq<RingMember>)
    ensures Sort(CarriedAll(known, s), HealthLeq) == CarriedAll(known, Sort(s, IdLeq))
  {
    if s != [] {
      CarriedSort(known, s[1..]);
      CarriedTail(known, s);
      CarriedInsert(known, s[0], Sort(s[1..], IdLeq));
    }
  }

  lemma {:induction false} CarriedDedup(known: seq<MemberHealth>, s: seq<RingMember>)
    ensures Dedup(CarriedAll(known, s), SameHealthId) == CarriedAll(known, Dedup(s, SameId))
  {
    if s != [] {
      CarriedDedup(known, s[1..]);
      CarriedTail(known, s);
      var rest := Dedup(s[1..], SameId);
      var carried := Dedup(CarriedAll(known, s)[1..], SameHealthId);
      assert carried == CarriedAll(known, rest);
      if rest != [] && rest[0].id == s[0].id {
        CarriedTail(known, rest);
        CarriedCons(known, s[0], rest[1..]);
        assert SameHealthId(carried[0], CarriedAll(known, s)[0]);
      } else {
        CarriedCons(known, s[0], rest);
        assert rest == [] || !SameHealthId(carried[0], CarriedAll(known, s)[0]);
      }
    }
  }

  /** A snapshot keeps the health of every ID that is still discovered and starts others afresh. */
  lemma SnapshotMembers(known: seq<MemberHealth>, discovered: seq<RingMember>)
    ensures Dedup(Sort(CarriedAll(known, discovered), HealthLeq), SameHealthId)
            == CarriedAll(known, Canonical(discovered))
    ensures StrictHealth(CarriedAll(known, Canonical(discovered)))
  {
    CarriedSort(known, discovered);
    CarriedDedup(known, Sort(discovered, IdLeq));
    CanonicalFacts(discovered);
  }

  /** After a snapshot the known IDs are the discovered ones, each at the address it was first discovered at. */
  lemma SnapshotReplaces(config: Config, s: State, discovered: seq<RingMember>, now: U64)
    ensures
      var after := Step(config, s, ApplySnapshot(discovered, now)).members;
      && |after| == |Canonical(discovered)|
      && Ids(Canonical(discovered)) == Ids(discovered)
      && (forall i :: 0 <= i < |after| ==> after[i].member == Canonical(discovered)[i])
      && (forall i :: 0 <= i < |after| ==> FirstWithId(discovered, after[i].member.id) == Some(after[i].member))
  {
    SnapshotRows(s.members, discovered);
  }

  lemma SnapshotRows(known: seq<MemberHealth>, discovered: seq<RingMember>)
    ensures Ids(Canonical(discovered)) == Ids(discovered)
    ensures
      var carried := CarriedAll(known, Canonical(discovered));
      && |carried| == |Canonical(discovered)|
      && (forall i :: 0 <= i < |carried| ==> carried[i].member == Canonical(discovered)[i])
      && (forall i :: 0 <= i < |carried| ==> FirstWithId(discovered, carried[i].member.id) == Some(carried[i].member))
  {
    var canonical := Canonical(discovered);
    CanonicalFacts(discovered);
    assert forall i :: 0 <= i < |canonical| ==> canonical[i] in canonical;
  }

  lemma RouteKeeps(config: Config, s: State, now: U64)
    requires Inv(config, s) && config.failureLimit >= 1
    ensures Inv(config, Step(config, s, Route(now)))
  {
    if !Waiting(s, now) {
      assert Inv(config, Rebuilt(s.members, now)) by { RebuiltKeeps(config, s.members, now); }
    }
  }

  lemma SuccessKeeps(config: Config, s: State, id: Text)
    requires Inv(config, s) && config.failureLimit >= 1
    ensures Inv(config, Step(config, s, RecordSuccess(id)))
  {
    var found := Lookup(s.members, id);
    if found.Some? {
      EditKeeps(config, s, found.value, s.members[found.value].(failures := 0));
    }
  }

  lemma CarriedBelowLimit(config: Config, known: seq<MemberHealth>, discovered: seq<RingMember>)
    requires BelowLimit(config, known) && config.failureLimit >= 1
    ensures BelowLimit(config, CarriedAll(known, discovered))
  {
    var members := CarriedAll(known, discovered);
    forall h | h in members && h.nextRetry.None? ensures h.failures < config.failureLimit {
      var i :| 0 <= i < |members| && members[i] == h;
      var found := Lookup(known, discovered[i].id);
      if found.Some? {
        assert known[found.value] in known;
      }
    }
  }

  lemma SnapshotKeeps(config: Config, s: State, discovered: seq<RingMember>, now: U64)
    requires Inv(config, s) && config.failureLimit >= 1
    ensures Inv(config, Step(config, s, ApplySnapshot(discovered, now)))
  {
    var canonical := Canonical(discovered);
    var members := CarriedAll(s.members, canonical);
    assert StrictHealth(members) by { SnapshotMembers(s.members, discovered); }
    assert BelowLimit(config, members) by { CarriedBelowLimit(config, s.members, canonical); }
    assert Inv(config, Rebuilt(members, now)) by { RebuiltKeeps(config, members, now); }
  }

  lemma StepKeeps(config: Config, s: State, call: Call)
    requires Inv(config, s) && config.failureLimit >= 1
    ensures Inv(config, Step(config, s, call))
  {
    match call {
      case Route(now) => RouteKeeps(config, s, now);
      case RecordSuccess(id) => SuccessKeeps(config, s, id);
      case RecordFailure(id, now) => FailureKeeps(config, s, id, now);
      case ApplySnapshot(discovered, now) => SnapshotKeeps(config, s, discovered, now);
    }
  }

  lemma FailureKeeps(config: Config, s: State, id: Text, now: U64)
    requires Inv(config, s) && config.failureLimit >= 1
    ensures Inv(config, Step(config, s, RecordFailure(id, now)))
  {
    var found := Lookup(s.members, id);
    if found.Some? {
      var bumped := Bumped(s.members[found.value]);
      if Ejects(config, s, id) {
        var members := s.members[found.value := bumped.(nextRetry := Some(WrapAdd(now, config.retryTimeout)))];
        forall h | h in members && h.nextRetry.None? ensures h.failures < config.failureLimit {
          assert h in s.members;
        }
        RebuiltKeeps(config, members, now);
      } else {
        EditKeeps(config, s, found.value, bumped);
      }
    }
  }

  ghost function RunFrom(config: Config, start: State, calls: seq<Call>): (s: State)
    requires Inv(config, start) && config.failureLimit >= 1
    ensures Inv(config, s)
    decreases |calls|
  {
    if calls == [] then start
    else
      var s := RunFrom(config, start, calls[..|calls| - 1]);
      StepKeeps(config, s, calls[|calls| - 1]);
      Step(config, s, calls[|calls| - 1])
  }

  /** The state after any calls on a new ring. */
  ghost function Run(config: Config, calls: seq<Call>): (s: State)
    requires config.failureLimit >= 1
    ensures Inv(config, s)
  {
    RunFrom(config, INITIAL, calls)
  }

  // ----- routing sees exactly the members that may serve -----

  predicate MayServe(h: MemberHealth, now: U64) {
    h.nextRetry.None? || h.nextRetry.value <= now
  }

  /** Members with no deadline or a deadline that has passed, in ID order. */
  function Serving(s: seq<MemberHealth>, now: U64): seq<RingMember> {
    if s == [] then []
    else
      var front := Serving(s[..|s| - 1], now);
      if MayServe(s[|s| - 1], now) then front + [s[|s| - 1].member] else front
  }

  lemma {:induction false} ReadmittedServe(s: seq<MemberHealth>, now: U64)
    ensures Eligible(ReadmitAll(s, now)) == Serving(s, now)
  {
    if s != [] {
      ReadmittedServe(s[..|s| - 1], now);
      assert ReadmitAll(s, now)[..|s| - 1] == ReadmitAll(s[..|s| - 1], now);
    }
  }

  lemma {:induction false} WaitingServe(s: seq<MemberHealth>, now: U64)
    requires forall h :: h in s && h.nextRetry.Some? ==> now < h.nextRetry.value
    ensures Eligible(s) == Serving(s, now)
  {
    if s != [] {
      assert s[|s| - 1] in s;
      WaitingServe(s[..|s| - 1], now);
    }
  }

  lemma {:induction false} ServingAre(s: seq<MemberHealth>, now: U64)
    requires StrictHealth(s)
    ensures StrictById(Serving(s, now))
    ensures forall m :: m in Serving(s, now) <==> exists h :: h in s && h.member == m && MayServe(h, now)
  {
    ReadmittedServe(s, now);
    var r := ReadmitAll(s, now);
    EligibleAre(r);
    forall m ensures m in Serving(s, now) <==> exists h :: h in s && h.member == m && MayServe(h, now) {
      if h :| h in s && h.member == m && MayServe(h, now) {
        var i :| 0 <= i < |s| && s[i] == h;
        assert r[i] in r && r[i].member == m && r[i].nextRetry.None?;
      }
      if h :| h in r && h.member == m && h.nextRetry.None? {
        var i :| 0 <= i < |r| && r[i] == h;
        assert s[i] in s;
      }
    }
  }

  /** In every reachable state, `ring()` at `now` routes over exactly the members that may serve. */
  lemma RouteServesExactly(config: Config, calls: seq<Call>, now: U64)
    requires config.failureLimit >= 1
    ensures
      var s := Run(config, calls);
      var routed := Step(config, s, Route(now)).routed;
      && routed == Serving(s.members, now) && StrictById(routed)
      && (forall m :: m in routed <==>
            exists h :: h in s.members && h.member == m && (h.nextRetry.None? || h.nextRetry.value <= now))
  {
    var s := Run(config, calls);
    RouteFrom(config, s, now);
    ServingAre(s.members, now);
  }

  lemma RouteFrom(config: Config, s: State, now: U64)
    requires Inv(config, s)
    ensures Step(config, s, Route(now)).routed == Serving(s.members, now)
  {
    if Waiting(s, now) {
      WaitingServe(s.members, now);
    } else {
      ReadmittedServe(s.members, now);
    }
  }

  // ----- ejection and readmission -----

  /** The deadline of a new ejection lies in the future unless the timeout is 0 or the sum wraps. */
  predicate TimeoutTakesEffect(config: Config, now: U64) {
    config.retryTimeout > 0 && now + config.retryTimeout <= U64_MAX
  }

  /**
   * A failure that reports an ejection takes the member out of the ring exactly when the timeout
   * takes effect; otherwise the same rebuild readmits it at once.
   */
  lemma EjectionLeavesRing(config: Config, s: State, id: Text, now: U64)
    requires Inv(config, s) && config.failureLimit >= 1 && Ejects(config, s, id)
    ensures id !in Ids(Step(config, s, RecordFailure(id, now)).routed) <==> TimeoutTakesEffect(config, now)
  {
    var i := Lookup(s.members, id).value;
    var ejected := Bumped(s.members[i]).(nextRetry := Some(WrapAdd(now, config.retryTimeout)));
    var members := s.members[i := ejected];
    var after := Step(config, s, RecordFailure(id, now));
    FailureKeeps(config, s, id, now);
    ReadmittedServe(members, now);
    ServingAre(members, now);
    assert members[i] in members;
    if !TimeoutTakesEffect(config, now) {
      assert members[i].member in Serving(members, now);
    }
  }

  /**
   * Past its deadline an ejection has not changed the ring, whatever other deadlines passed
   * meanwhile: routing goes where it would have gone without the failure.
   */
  lemma ReadmissionRestoresRing(config: Config, s: State, id: Text, now: U64, later: U64)
    requires Inv(config, s) && config.failureLimit >= 1 && Ejects(config, s, id)
    requires later >= now && later >= WrapAdd(now, config.retryTimeout)
    ensures
      var ejected := Step(config, s, RecordFailure(id, now));
      Step(config, ejected, Route(later)).routed == Step(config, s, Route(later)).routed
  {
    var ejected := Step(config, s, RecordFailure(id, now));
    FailureKeeps(config, s, id, now);
    RouteFrom(config, s, later);
    RouteFrom(config, ejected, later);
    SameServing(ejected.members, later, s.members, later, |s.members|);
  }

  // ----- an ejection leaves no trace, whatever is called meanwhile -----

  /** Memberships that differ only in the health of `id`: in service in one, out until `deadline` in the other. */
  ghost predicate Twins(id: Text, deadline: U64, a: seq<MemberHealth>, b: seq<MemberHealth>) {
    |a| == |b| && forall i :: 0 <= i < |a| ==> TwinHealth(id, deadline, a[i], b[i])
  }

  ghost predicate TwinHealth(id: Text, deadline: U64, a: MemberHealth, b: MemberHealth) {
    && a.member == b.member && (a.member.id != id ==> a == b)
    && (a.member.id == id ==> a.nextRetry.None? && (b.nextRetry.None? || b.nextRetry == Some(deadline)))
  }

  lemma TwinsLookup(id: Text, deadline: U64, a: seq<MemberHealth>, b: seq<MemberHealth>, other: Text)
    requires Twins(id, deadline, a, b) && StrictHealth(a) && StrictHealth(b)
    ensures Lookup(a, other) == Lookup(b, other)
  {
    var x, y := Lookup(a, other), Lookup(b, other);
    if x.Some? {
      assert b[x.value].member.id == other;
    }
    if y.Some? {
      assert a[y.value].member.id == other;
    }
  }

  lemma TwinsReadmit(id: Text, deadline: U64, a: seq<MemberHealth>, b: seq<MemberHealth>, now: U64)
    requires Twins(id, deadline, a, b)
    ensures Twins(id, deadline, ReadmitAll(a, now), ReadmitAll(b, now))
  {
    forall i | 0 <= i < |a| ensures TwinHealth(id, deadline, Readmit(a[i], now), Readmit(b[i], now)) {
      assert TwinHealth(id, deadline, a[i], b[i]);
    }
  }

  /** Routing readmits every member whose deadline has passed, whether or not it has to rebuild. */
  lemma RouteReadmits(config: Config, s: State, now: U64)
    requires Inv(config, s)
    ensures Step(config, s, Route(now)).members == ReadmitAll(s.members, now)
  {
    if Waiting(s, now) {
      forall i | 0 <= i < |s.members| ensures Readmit(s.members[i], now) == s.members[i] {
        assert s.members[i] in s.members;
      }
    }
  }

  lemma TwinsCarried(id: Text, deadline: U64, a: seq<MemberHealth>, b: seq<MemberHealth>, discovered: seq<RingMember>)
    requires Twins(id, deadline, a, b) && StrictHealth(a) && StrictHealth(b)
    ensures Twins(id, deadline, CarriedAll(a, discovered), CarriedAll(b, discovered))
  {
    forall i | 0 <= i < |discovered|
      ensures TwinHealth(id, deadline, Carried(a, discovered[i]), Carried(b, discovered[i]))
    {
      TwinsLookup(id, deadline, a, b, discovered[i].id);
      var found := Lookup(a, discovered[i].id);
      if found.Some? {
        assert TwinHealth(id, deadline, a[found.value], b[found.value]);
      }
    }
  }

  lemma TwinsFailure(config: Config, id: Text, deadline: U64, a: State, b: State, other: Text, now: U64)
    requires Inv(config, a) && Inv(config, b) && Twins(id, deadline, a.members, b.members) && other != id
    ensures Twins(id, deadline, Step(config, a, RecordFailure(other, now)).members,
                  Step(config, b, RecordFailure(other, now)).members)
  {
    TwinsLookup(id, deadline, a.members, b.members, other);
    var found := Lookup(a.members, other);
    if found.Some? {
      assert TwinHealth(id, deadline, a.members[found.value], b.members[found.value]);
      if Ejects(config, a, other) {
        var ejected :=
          Bumped(a.members[found.value]).(nextRetry := Some(WrapAdd(now, config.retryTimeout)));
        TwinsReadmit(id, deadline, a.members[found.value := ejected], b.members[found.value := ejected], now);
      }
    }
  }

  lemma TwinsStep(config: Config, id: Text, deadline: U64, a: State, b: State, call: Call)
    requires Inv(config, a) && Inv(config, b) && Twins(id, deadline, a.members, b.members)
    requires !(call.RecordFailure? && call.id == id)
    ensures Twins(id, deadline, Step(config, a, call).members, Step(config, b, call).members)
  {
    match call {
      case Route(now) =>
        RouteReadmits(config, a, now);
        RouteReadmits(config, b, now);
        TwinsReadmit(id, deadline, a.members, b.members, now);
      case RecordSuccess(other) =>
        TwinsLookup(id, deadline, a.members, b.members, other);
      case RecordFailure(other, now) =>
        TwinsFailure(config, id, deadline, a, b, other, now);
      case ApplySnapshot(discovered, now) =>
        var canonical := Canonical(discovered);
        TwinsCarried(id, deadline, a.members, b.members, canonical);
        TwinsReadmit(id, deadline, CarriedAll(a.members, canonical), CarriedAll(b.members, canonical), now);
    }
  }

  lemma {:induction false} TwinsRun(config: Config, id: Text, deadline: U64, a: State, b: State, calls: seq<Call>)
    requires Inv(config, a) && Inv(config, b) && config.failureLimit >= 1
    requires Twins(id, deadline, a.members, b.members)
    requires forall i :: 0 <= i < |calls| ==> !(calls[i].RecordFailure? && calls[i].id == id)
    ensures Twins(id, deadline, RunFrom(config, a, calls).members, RunFrom(config, b, calls).members)
    decreases |calls|
  {
    if calls != [] {
      var n := |calls| - 1;
      TwinsRun(config, id, deadline, a, b, calls[..n]);
      TwinsStep(config, id, deadline, RunFrom(config, a, calls[..n]), RunFrom(config, b, calls[..n]), calls[n]);
    }
  }

  /**
   * Compare a run in which `id` is ejected at `now` with the run that only routes at `now`, both
   * followed by the same calls: failures and successes of others, snapshots, routing at any times.
   * Past the deadline both route over the same members.
   */
  lemma EjectionLeavesNoTrace(config: Config, s: State, id: Text, now: U64, calls: seq<Call>, later: U64)
    requires Inv(config, s) && config.failureLimit >= 1 && Ejects(config, s, id)
    requires later >= WrapAdd(now, config.retryTimeout)
    requires forall i :: 0 <= i < |calls| ==> !(calls[i].RecordFailure? && calls[i].id == id)
    ensures Inv(config, Step(config, s, Route(now))) && Inv(config, Step(config, s, RecordFailure(id, now)))
    ensures
      var without := RunFrom(config, Step(config, s, Route(now)), calls);
      var ejected := RunFrom(config, Step(config, s, RecordFailure(id, now)), calls);
      Step(config, ejected, Route(later)).routed == Step(config, without, Route(later)).routed
  {
    var a, b := Step(config, s, Route(now)), Step(config, s, RecordFailure(id, now));
    var deadline := WrapAdd(now, config.retryTimeout);
    RouteKeeps(config, s, now);
    FailureKeeps(config, s, id, now);
    assert Twins(id, deadline, a.members, b.members) by {
      RouteReadmits(config, s, now);
      EjectedTwins(s.members, Lookup(s.members, id).value, id, now, deadline);
    }
    TwinsRun(config, id, deadline, a, b, calls);
    var without, ejected := RunFrom(config, a, calls), RunFrom(config, b, calls);
    RouteFrom(config, without, later);
    RouteFrom(config, ejected, later);
    TwinsServe(id, deadline, without.members, ejected.members, later);
  }

  lemma EjectedTwins(s: seq<MemberHealth>, i: nat, id: Text, now: U64, deadline: U64)
    requires StrictHealth(s) && i < |s| && s[i].member.id == id && s[i].nextRetry.None?
    ensures Twins(id, deadline, ReadmitAll(s, now), ReadmitAll(s[i := Bumped(s[i]).(nextRetry := Some(deadline))], now))
  {
  }

  lemma TwinsServe(id: Text, deadline: U64, a: seq<MemberHealth>, b: seq<MemberHealth>, later: U64)
    requires Twins(id, deadline, a, b) && later >= deadline
    ensures Serving(b, later) == Serving(a, later)
  {
    forall i | 0 <= i < |a| ensures a[i].member == b[i].member && MayServe(b[i], later) == MayServe(a[i], later) {
      assert TwinHealth(id, deadline, a[i], b[i]);
    }
    SameServing(b, later, a, later, |a|);
  }

  lemma {:induction false} SameServing(a: seq<MemberHealth>, ta: U64, b: seq<MemberHealth>, tb: U64, n: nat)
    requires |a| == |b| && n <= |a|
    requires forall i :: 0 <= i < |a| ==> a[i].member == b[i].member && MayServe(a[i], ta) == MayServe(b[i], tb)
    ensures Serving(a[..n], ta) == Serving(b[..n], tb)
    ensures n == |a| ==> Serving(a, ta) == Serving(b, tb)
  {
    if n > 0 {
      SameServing(a, ta, b, tb, n - 1);
      assert a[..n][..n - 1] == a[..n - 1] && b[..n][..n - 1] == b[..n - 1];
    }
    if n == |a| {
      assert a[..n] == a && b[..n] == b;
    }
  }

  /** While the member is out, exactly the positions it owned are routed elsewhere. */
  lemma EjectionMovesExactlyItsPositions(config: Config, s: State, id: Text, now: U64, position: U64)
    requires Inv(config, s) && config.failureLimit >= 1 && Ejects(config, s, id) && TimeoutTakesEffect(config, now)
    ensures
      var before := Serving(s.members, now);
      var after := Step(config, s, RecordFailure(id, now)).routed;
      && Ids(after) == Ids(before) - {id}
      && (OwnerId(config.place, before, position) != OwnerId(config.place, after, position) <==>
          OwnerId(config.place, before, position) == Some(id))
  {
    var before := Serving(s.members, now);
    var after := Step(config, s, RecordFailure(id, now)).routed;
    EjectedIds(config, s, id, now);
    assert id in Ids(before) by {
      ServingAre(s.members, now);
      var h := s.members[Lookup(s.members, id).value];
      assert h in s.members && h.member in before;
    }
    RemovalMovesExactlyItsPositions(config.place, before, after, id, position);
  }

  lemma EjectedIds(config: Config, s: State, id: Text, now: U64)
    requires Inv(config, s) && config.failureLimit >= 1 && Ejects(config, s, id) && TimeoutTakesEffect(config, now)
    ensures Ids(Step(config, s, RecordFailure(id, now)).routed) == Ids(Serving(s.members, now)) - {id}
  {
    var i := Lookup(s.members, id).value;
    var ejected := Bumped(s.members[i]).(nextRetry := Some(WrapAdd(now, config.retryTimeout)));
    ReadmittedServe(s.members[i := ejected], now);
    ServingDrops(s.members, i, ejected, now);
  }

  lemma ServingDrops(s: seq<MemberHealth>, i: nat, h: MemberHealth, now: U64)
    requires StrictHealth(s) && i < |s| && h.member == s[i].member && !MayServe(h, now)
    ensures Ids(Serving(s[i := h], now)) == Ids(Serving(s, now)) - {h.member.id}
  {
    var t := s[i := h];
    ServingIds(s, now);
    ServingIds(t, now);
    forall other ensures other in Ids(Serving(t, now)) <==> other in Ids(Serving(s, now)) - {h.member.id} {
      if k :| 0 <= k < |t| && t[k].member.id == other && MayServe(t[k], now) {
        assert k != i && s[k] == t[k];
      }
      if k :| 0 <= k < |s| && s[k].member.id == other && MayServe(s[k], now) && other != h.member.id {
        assert k != i && t[k] == s[k];
      }
    }
  }

  lemma ServingIds(s: seq<MemberHealth>, now: U64)
    requires StrictHealth(s)
    ensures forall id :: id in Ids(Serving(s, now)) <==>
                         exists k :: 0 <= k < |s| && s[k].member.id == id && MayServe(s[k], now)
  {
    ServingAre(s, now);
    forall id ensures id in Ids(Serving(s, now)) <==>
                      exists k :: 0 <= k < |s| && s[k].member.id == id && MayServe(s[k], now)
    {
      if m :| m in Serving(s, now) && m.id == id {
        var h :| h in s && h.member == m && MayServe(h, now);
        var k :| 0 <= k < |s| && s[k] == h;
      }
      if k :| 0 <= k < |s| && s[k].member.id == id && MayServe(s[k], now) {
        assert s[k] in s;
        assert s[k].member in Serving(s, now);
      }
    }
  }

  lemma PrefixGrows(s: seq<MemberHealth>, i: nat)
    requires i < |s|
    ensures Eligible(s[..i + 1]) == if s[i].nextRetry.None? then Eligible(s[..i]) + [s[i].member] else Eligible(s[..i])
    ensures Earliest(s[..i + 1]) ==
            if s[i].nextRetry.None? then Earliest(s[..i]) else Sooner(Earliest(s[..i]), s[i].nextRetry.value)
  {
    assert s[..i + 1][..i] == s[..i];
  }

  // ----- the shared object -----

  class SharedRing {
    const place: Place
    const failureLimit: U32
    const retryTimeout: U64
    var members: seq<MemberHealth>
    var ring: Ring
    var earliestRetry: Option<U64>

    function Settings(): Config {
      Config(place, failureLimit, retryTimeout)
    }

    function Snapshot(): State
      reads this
    {
      State(members, ring.members, earliestRetry)
    }

    ghost predicate Valid()
      reads this
    {
      failureLimit >= 1 && Inv(Settings(), Snapshot()) && ring == Build(place, ring.members)
    }

    constructor (place: Place, failureLimit: U32, retryTimeout: U64)
      ensures Valid() && Snapshot() == INITIAL
      ensures this.place == place && this.retryTimeout == retryTimeout && this.failureLimit == Max(failureLimit, 1)
    {
      this.place := place;
      this.failureLimit := Max(failureLimit, 1);
      this.retryTimeout := retryTimeout;
      members := [];
      earliestRetry := None;
      ring := Build(place, []);
      CanonicalOfStrict([]);
    }

    /** Readmits members whose deadline has passed and rebuilds the continuum over the rest. */
    method Rebuild(now: U64)
      requires StrictHealth(members)
      modifies this
      ensures Snapshot() == Rebuilt(old(members), now) && ring == Build(place, ring.members)
    {
      var eligible, earliest := Readmissions(now);
      EligibleAre(members);
      earliestRetry := earliest;
      Install(eligible);
    }

    /** The loop of `rebuild`: updates each member's health in place. */
    method Readmissions(now: U64) returns (eligible: seq<RingMember>, earliest: Option<U64>)
      modifies this`members
      ensures members == ReadmitAll(old(members), now)
      ensures eligible == Eligible(members) && earliest == Earliest(members)
    {
      eligible, earliest := [], None;
      ghost var rebuilt := ReadmitAll(members, now);
      for i := 0 to |members|
        invariant |members| == |rebuilt|
        invariant forall k :: 0 <= k < i ==> members[k] == rebuilt[k]
        invariant forall k :: i <= k < |members| ==> members[k] == old(members)[k]
        invariant eligible == Eligible(rebuilt[..i]) && earliest == Earliest(rebuilt[..i])
      {
        var health := members[i];
        if health.nextRetry.Some? && now >= health.nextRetry.value {
          health := MemberHealth(health.member, 0, None);
          members := members[i := health];
        }
        PrefixGrows(rebuilt, i);
        if health.nextRetry.Some? {
          earliest := Sooner(earliest, health.nextRetry.value);
        } else {
          eligible := eligible + [health.member];
        }
      }
      assert members == rebuilt && rebuilt[..|rebuilt|] == rebuilt;
    }

    method Install(eligible: seq<RingMember>)
      requires StrictById(eligible)
      modifies this`ring
      ensures ring == Build(place, eligible) && ring.members == eligible
    {
      CanonicalOfStrict(eligible);
      ring := New(place, eligible);
    }

    /** The read-locked half of `ring()`: the current continuum, unless a deadline has passed. */
    method RouteFast(now: U64) returns (r: Option<Ring>)
      requires Valid()
      ensures r.Some? <==> Waiting(Snapshot(), now)
      ensures r.Some? ==> r.value == ring == Build(place, Serving(members, now))
    {
      RouteFrom(Settings(), Snapshot(), now);
      if earliestRetry.None? || now < earliestRetry.value {
        return Some(ring);
      }
      return None;
    }

    /** The write-locked half: rechecks, then rebuilds at most once. */
    method RouteLocked(now: U64) returns (r: Ring)
      requires Valid()
      modifies this
      ensures Valid() && Snapshot() == Step(Settings(), old(Snapshot()), Route(now))
      ensures r == ring == Build(place, Serving(old(members), now))
    {
      StepKeeps(Settings(), Snapshot(), Route(now));
      RouteFrom(Settings(), Snapshot(), now);
      if !(earliestRetry.None? || now < earliestRetry.value) {
        Rebuild(now);
      }
      r := ring;
    }

    /** `ring()`; other threads make the calls of `between` after the read lock is dropped. */
    method RouteAt(now: U64, between: seq<Call>) returns (r: Ring)
      requires Valid()
      modifies this
      ensures Valid()
      ensures Waiting(old(Snapshot()), now) ==>
                Snapshot() == old(Snapshot()) && r == Build(place, Serving(old(members), now))
      ensures !Waiting(old(Snapshot()), now) ==>
                var locked := RunFrom(Settings(), old(Snapshot()), between);
                && Snapshot() == Step(Settings(), locked, Route(now))
                && r == Build(place, Serving(locked.members, now))
    {
      var fast := RouteFast(now);
      if fast.Some? {
        return fast.value;
      }
      Interlude(between);
      r := RouteLocked(now);
    }

    /** Any calls of other threads, one after the other. */
    method Interlude(calls: seq<Call>)
      requires Valid()
      modifies this
      ensures Valid() && Snapshot() == RunFrom(Settings(), old(Snapshot()), calls)
    {
      for i := 0 to |calls|
        invariant Valid() && Snapshot() == RunFrom(Settings(), old(Snapshot()), calls[..i])
      {
        assert calls[..i + 1][..i] == calls[..i];
        Perform(calls[i]);
      }
      assert calls[..|calls|] == calls;
    }

    method Perform(call: Call)
      requires Valid()
      modifies this
      ensures Valid() && Snapshot() == Step(Settings(), old(Snapshot()), call)
    {
      match call {
        case Route(now) => var _ := RouteLocked(now);
        case RecordSuccess(id) => Succeeded(id);
        case RecordFailure(id, now) => var _ := Failed(id, now);
        case ApplySnapshot(discovered, now) => Apply(discovered, now);
      }
    }

    method Succeeded(id: Text)
      requires Valid()
      modifies this
      ensures Valid() && Snapshot() == Step(Settings(), old(Snapshot()), RecordSuccess(id))
    {
      StepKeeps(Settings(), Snapshot(), RecordSuccess(id));
      var found := Search(members, id);
      if found.None? || members[found.value].failures == 0 {
        assert found.Some? ==> members[found.value := members[found.value].(failures := 0)] == members;
        return;
      }
      members := members[found.value := members[found.value].(failures := 0)];
    }

    method Failed(id: Text, now: U64) returns (ejected: bool)
      requires Valid()
      modifies this
      ensures Valid() && Snapshot() == Step(Settings(), old(Snapshot()), RecordFailure(id, now))
      ensures ejected == old(Ejects(Settings(), Snapshot(), id))
    {
      ghost var before, after := Snapshot(), Step(Settings(), Snapshot(), RecordFailure(id, now));
      assert Inv(Settings(), after) by {
        StepKeeps(Settings(), before, RecordFailure(id, now));
      }
      var found := Search(members, id);
      if found.None? {
        return false;
      }
      var health := Bumped(members[found.value]);
      members := members[found.value := health];
      if health.nextRetry.Some? || health.failures < failureLimit {
        assert Snapshot() == after;
        return false;
      }
      var out := health.(nextRetry := Some(WrapAdd(now, retryTimeout)));
      assert members[found.value := out] == before.members[found.value := out];
      members := members[found.value := out];
      assert StrictHealth(members) && after == Rebuilt(members, now);
      Rebuild(now);
      ejected := true;
    }

    method Apply(discovered: seq<RingMember>, now: U64)
      requires Valid()
      modifies this
      ensures Valid() && Snapshot() == Step(Settings(), old(Snapshot()), ApplySnapshot(discovered, now))
    {
      ghost var before := Snapshot();
      ghost var after := Step(Settings(), before, ApplySnapshot(discovered, now));
      assert Inv(Settings(), after) by {
        StepKeeps(Settings(), before, ApplySnapshot(discovered, now));
      }
      var carried := Carry(members, discovered);
      assert after == Rebuilt(carried, now);
      members := carried;
      Rebuild(now);
      assert Snapshot() == after;
    }
  }
}
