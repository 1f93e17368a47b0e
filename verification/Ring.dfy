/**
 * The consistent-hash continuum (src/agent/ring.rs). The hash of a virtual node is an arbitrary
 * function `place`, so every result below holds with colliding and wrapping points.
 */
module Ring {
  import opened Words
  import opened Bytes
  import opened Sorting

  const VIRTUAL_NODES: nat := 160

  /** Position of virtual node `v` of a member ID: any function at all. */
  type Place = (Text, nat) -> U64

  datatype RingMember = RingMember(id: Text, address: nat)

  /** A continuum point: its position and the index of its member. */
  type Point = (U64, nat)

  datatype Ring = Ring(members: seq<RingMember>, points: seq<Point>)

  // ----- construction -----

  predicate IdLeq(a: RingMember, b: RingMember) {
    Leq(a.id, b.id)
  }

  predicate PointLeq(a: Point, b: Point) {
    a.0 < b.0 || (a.0 == b.0 && a.1 <= b.1)
  }

  function Ids(members: seq<RingMember>): set<Text> {
    set m | m in members :: m.id
  }

  ghost predicate StrictById(members: seq<RingMember>) {
    forall i, j :: 0 <= i < j < |members| ==> Less(members[i].id, members[j].id)
  }

  predicate SameId(a: RingMember, b: RingMember) {
    a.id == b.id
  }

  function Canonical(members: seq<RingMember>): seq<RingMember> {
    Dedup(Sort(members, IdLeq), SameId)
  }

  function MemberPoints(place: Place, id: Text, index: nat, count: nat): seq<Point> {
    if count == 0 then [] else MemberPoints(place, id, index, count - 1) + [(place(id, count - 1), index)]
  }

  function AllPoints(place: Place, members: seq<RingMember>, count: nat): seq<Point>
    requires count <= |members|
  {
    if count == 0 then []
    else AllPoints(place, members, count - 1) + MemberPoints(place, members[count - 1].id, count - 1, VIRTUAL_NODES)
  }

  function Build(place: Place, members: seq<RingMember>): Ring {
    var canonical := Canonical(members);
    Ring(canonical, Sort(AllPoints(place, canonical, |canonical|), PointLeq))
  }

  /** `Ring::new`: sort, deduplicate, push every virtual node, sort the points. */
  method New(place: Place, members: seq<RingMember>) returns (ring: Ring)
    ensures ring == Build(place, members)
  {
    var canonical := Canonical(members);
    var points: seq<Point> := [];
    for index := 0 to |canonical|
      invariant points == AllPoints(place, canonical, index)
    {
      var before := points;
      for vnode := 0 to VIRTUAL_NODES
        invariant points == before + MemberPoints(place, canonical[index].id, index, vnode)
      {
        points := points + [(place(canonical[index].id, vnode), index)];
      }
    }
    ring := Ring(canonical, Sort(points, PointLeq));
  }

  // ----- lookup -----

  ghost predicate WellFormed(ring: Ring) {
    && Sorted(ring.points, PointLeq)
    && (forall p :: p in ring.points ==> p.1 < |ring.members|)
  }

  /** `partition_point`: how many of the sorted points lie before `position`. */
  function PartitionPoint(points: seq<Point>, position: U64, lo: nat, hi: nat): (r: nat)
    requires lo <= hi <= |points| && Sorted(points, PointLeq)
    requires forall i :: 0 <= i < lo ==> points[i].0 < position
    requires forall i :: hi <= i < |points| ==> points[i].0 >= position
    ensures r <= |points|
    ensures forall i :: 0 <= i < r ==> points[i].0 < position
    ensures forall i :: r <= i < |points| ==> points[i].0 >= position
    decreases hi - lo
  {
    if lo == hi then lo
    else
      var mid := (lo + hi) / 2;
      if points[mid].0 < position then PartitionPoint(points, position, mid + 1, hi)
      else PartitionPoint(points, position, lo, mid)
  }

  function WrapIndex(cut: nat, count: nat): (index: nat)
    requires cut <= count && count > 0
    ensures index == if cut == count then 0 else cut
  {
    cut % count
  }

  /** The slot of the first point at or past `position`, wrapping to the smallest point. */
  function Slot(points: seq<Point>, position: U64): (index: nat)
    requires points != [] && Sorted(points, PointLeq)
    ensures index < |points|
    ensures points[index].0 >= position ==> forall i :: 0 <= i < index ==> points[i].0 < position
    ensures points[index].0 < position ==> index == 0 && forall i :: 0 <= i < |points| ==> points[i].0 < position
  {
    WrapIndex(PartitionPoint(points, position, 0, |points|), |points|)
  }

  function Owner(ring: Ring, position: U64): Option<RingMember>
    requires WellFormed(ring)
  {
    if ring.points == [] then None
    else
      var index := Slot(ring.points, position);
      assert ring.points[index] in ring.points;
      Some(ring.members[ring.points[index].1])
  }

  // ----- the simple rule -----

  /** Steps clockwise from `position` to `point` on the 2^64 circle. */
  function Distance(position: U64, point: U64): nat {
    if point >= position then point - position else point + U64_MAX + 1 - position
  }

  /** Distance to the nearest of the first `count` virtual nodes of `id`. */
  function Nearest(place: Place, position: U64, id: Text, count: nat): nat
    requires count > 0
  {
    var last := Distance(position, place(id, count - 1));
    if count == 1 then last else Min(last, Nearest(place, position, id, count - 1))
  }

  function Reach(place: Place, position: U64, id: Text): nat {
    Nearest(place, position, id, VIRTUAL_NODES)
  }

  predicate Beats(place: Place, position: U64, a: Text, b: Text) {
    var da, db := Reach(place, position, a), Reach(place, position, b);
    da < db || (da == db && Leq(a, b))
  }

  /** The member minimising (distance of its nearest virtual node, ID). */
  ghost predicate IsOwner(place: Place, ids: set<Text>, position: U64, id: Text) {
    id in ids && forall other :: other in ids ==> Beats(place, position, id, other)
  }

  lemma OwnerUnique(place: Place, ids: set<Text>, position: U64, a: Text, b: Text)
    requires IsOwner(place, ids, position, a) && IsOwner(place, ids, position, b)
    ensures a == b
  {
    assert Beats(place, position, a, b) && Beats(place, position, b, a);
    LeqAntisymmetric(a, b);
  }

  // ----- what construction yields -----

  lemma OrdersAreTotal()
    ensures TotalPreorder(IdLeq)
    ensures TotalOrder(PointLeq)
  {
    OrderIsTotal();
    assert forall x: RingMember, y: RingMember :: IdLeq(x, y) == Leq(x.id, y.id);
  }

  function FirstWithId(s: seq<RingMember>, id: Text): Option<RingMember> {
    if s == [] then None else if s[0].id == id then Some(s[0]) else FirstWithId(s[1..], id)
  }

  lemma {:induction false} FirstInserted(x: RingMember, s: seq<RingMember>, id: Text)
    ensures FirstWithId(Insert(x, s, IdLeq), id) == if x.id == id then Some(x) else FirstWithId(s, id)
  {
    if s == [] || IdLeq(x, s[0]) {
      assert ([x] + s)[1..] == s;
    } else {
      FirstInserted(x, s[1..], id);
      var rest := Insert(x, s[1..], IdLeq);
      assert ([s[0]] + rest)[1..] == rest;
      if s[0].id == x.id {
        LeqReflexive(x.id);
      }
    }
  }

  lemma {:induction false} FirstSorted(s: seq<RingMember>, id: Text)
    ensures FirstWithId(Sort(s, IdLeq), id) == FirstWithId(s, id)
  {
    if s != [] {
      FirstSorted(s[1..], id);
      FirstInserted(s[0], Sort(s[1..], IdLeq), id);
    }
  }

  lemma {:induction false} FirstDeduped(s: seq<RingMember>, id: Text)
    ensures FirstWithId(Dedup(s, SameId), id) == FirstWithId(s, id)
  {
    if s != [] {
      FirstDeduped(s[1..], id);
      var rest := Dedup(s[1..], SameId);
      assert ([s[0]] + rest)[1..] == rest;
      if rest != [] {
        assert ([s[0]] + rest[1..])[1..] == rest[1..];
      }
    }
  }

  lemma {:induction false} FirstWithIdFound(s: seq<RingMember>, id: Text)
    ensures id in Ids(s) <==> FirstWithId(s, id).Some?
    ensures FirstWithId(s, id).Some? ==> FirstWithId(s, id).value in s && FirstWithId(s, id).value.id == id
  {
    if s != [] {
      FirstWithIdFound(s[1..], id);
      assert s == [s[0]] + s[1..];
      assert Ids(s) == {s[0].id} + Ids(s[1..]);
    }
  }

  lemma {:induction false} DedupStrict(s: seq<RingMember>)
    requires Sorted(s, IdLeq)
    ensures StrictById(Dedup(s, SameId))
  {
    if s != [] {
      DedupStrict(s[1..]);
      DedupSubset(s[1..], SameId);
      var rest := Dedup(s[1..], SameId);
      forall k | 0 <= k < |rest| ensures Leq(s[0].id, rest[k].id) {
        assert rest[k] in s[1..];
        var i :| 0 <= i < |s[1..]| && s[1..][i] == rest[k];
        assert IdLeq(s[0], s[i + 1]);
      }
      HeadBelow(s[0], rest);
    }
  }

  lemma HeadBelow(head: RingMember, rest: seq<RingMember>)
    requires StrictById(rest) && forall k :: 0 <= k < |rest| ==> Leq(head.id, rest[k].id)
    ensures StrictById(if rest != [] && rest[0].id == head.id then [head] + rest[1..] else [head] + rest)
  {
    if rest != [] && rest[0].id != head.id {
      forall k | 0 <= k < |rest| ensures Less(head.id, rest[k].id) {
        if k > 0 && rest[k].id == head.id {
          LeqAntisymmetric(rest[0].id, rest[k].id);
        }
      }
    }
  }

  /** Members end strictly sorted, with the same IDs, each the first entry given for its ID. */
  lemma CanonicalFacts(members: seq<RingMember>)
    ensures StrictById(Canonical(members))
    ensures Ids(Canonical(members)) == Ids(members)
    ensures forall m :: m in Canonical(members) ==> FirstWithId(members, m.id) == Some(m)
  {
    OrdersAreTotal();
    SortSorted(members, IdLeq);
    var canonical := Canonical(members);
    DedupStrict(Sort(members, IdLeq));
    forall id ensures FirstWithId(canonical, id) == FirstWithId(members, id) {
      FirstSorted(members, id);
      FirstDeduped(Sort(members, IdLeq), id);
    }
    forall id ensures id in Ids(canonical) <==> id in Ids(members) {
      FirstWithIdFound(canonical, id);
      FirstWithIdFound(members, id);
    }
    forall m | m in canonical ensures FirstWithId(canonical, m.id) == Some(m) {
      assert m.id in Ids(canonical);
      FirstWithIdFound(canonical, m.id);
      StrictIdsIdentify(canonical, m, FirstWithId(canonical, m.id).value);
    }
  }

  lemma StrictIdsIdentify(s: seq<RingMember>, a: RingMember, b: RingMember)
    requires StrictById(s) && a in s && b in s && a.id == b.id
    ensures a == b
  {
    var i :| 0 <= i < |s| && s[i] == a;
    var j :| 0 <= j < |s| && s[j] == b;
  }

  lemma {:induction false} MemberPointsAre(place: Place, id: Text, index: nat, count: nat)
    ensures forall p :: p in MemberPoints(place, id, index, count) <==>
                        p.1 == index && exists v: nat :: v < count && p.0 == place(id, v)
  {
    if count > 0 {
      MemberPointsAre(place, id, index, count - 1);
      var shorter := MemberPoints(place, id, index, count - 1);
      forall p: Point
        ensures p in MemberPoints(place, id, index, count) <==>
                p.1 == index && exists v: nat :: v < count && p.0 == place(id, v)
      {
        assert p in MemberPoints(place, id, index, count) <==> p in shorter || p == (place(id, count - 1), index);
      }
    }
  }

  lemma {:induction false} AllPointsAre(place: Place, members: seq<RingMember>, count: nat)
    requires count <= |members|
    ensures forall p :: p in AllPoints(place, members, count) <==>
                        p.1 < count && exists v: nat :: v < VIRTUAL_NODES && p.0 == place(members[p.1].id, v)
  {
    if count > 0 {
      AllPointsAre(place, members, count - 1);
      MemberPointsAre(place, members[count - 1].id, count - 1, VIRTUAL_NODES);
      forall p: Point
        ensures p in AllPoints(place, members, count) <==>
                p.1 < count && exists v: nat :: v < VIRTUAL_NODES && p.0 == place(members[p.1].id, v)
      {
        assert p in AllPoints(place, members, count) <==>
               p in AllPoints(place, members, count - 1) ||
               p in MemberPoints(place, members[count - 1].id, count - 1, VIRTUAL_NODES);
      }
    }
  }

  /** The points are exactly the virtual nodes of the members. */
  ghost predicate PointsOf(place: Place, ring: Ring) {
    forall p :: p in ring.points <==>
                p.1 < |ring.members| &&
                exists v: nat :: v < VIRTUAL_NODES && p.0 == place(ring.members[p.1].id, v)
  }

  lemma BuiltWellFormed(place: Place, members: seq<RingMember>)
    ensures WellFormed(Build(place, members))
    ensures PointsOf(place, Build(place, members))
  {
    var canonical := Canonical(members);
    var points := AllPoints(place, canonical, |canonical|);
    OrdersAreTotal();
    SortSorted(points, PointLeq);
    MultisetMembers(points, Sort(points, PointLeq));
    AllPointsAre(place, canonical, |canonical|);
  }

  lemma {:induction false} MemberPointsCount(place: Place, id: Text, index: nat, count: nat)
    ensures |MemberPoints(place, id, index, count)| == count
  {
    if count > 0 {
      MemberPointsCount(place, id, index, count - 1);
    }
  }

  lemma {:induction false} AllPointsCount(place: Place, members: seq<RingMember>, count: nat)
    requires count <= |members|
    ensures |AllPoints(place, members, count)| == 160 * count
  {
    if count > 0 {
      AllPointsCount(place, members, count - 1);
      MemberPointsCount(place, members[count - 1].id, count - 1, VIRTUAL_NODES);
    }
  }

  /** Every distinct ID has 160 points, colliding ones included. */
  lemma PointsPerMember(place: Place, members: seq<RingMember>)
    ensures |Build(place, members).points| == 160 * |Ids(members)|
  {
    var canonical := Canonical(members);
    var points := AllPoints(place, canonical, |canonical|);
    AllPointsCount(place, canonical, |canonical|);
    OrdersAreTotal();
    SortSorted(points, PointLeq);
    assert |multiset(points)| == |multiset(Sort(points, PointLeq))|;
    CanonicalFacts(members);
    IdsCount(canonical);
  }

  lemma {:induction false} IdsCount(members: seq<RingMember>)
    requires StrictById(members)
    ensures |Ids(members)| == |members|
  {
    if members != [] {
      var front, last := members[..|members| - 1], members[|members| - 1];
      IdsCount(front);
      assert members == front + [last];
      assert Ids(members) == Ids(front) + {last.id};
      if last.id in Ids(front) {
        var m :| m in front && m.id == last.id;
        var i :| 0 <= i < |front| && front[i] == m;
        assert Less(members[i].id, last.id);
      }
    }
  }

  lemma {:induction false} NearestIsMinimum(place: Place, position: U64, id: Text, count: nat)
    requires count > 0
    ensures exists v: nat :: v < count && Distance(position, place(id, v)) == Nearest(place, position, id, count)
    ensures forall v: nat :: v < count ==> Nearest(place, position, id, count) <= Distance(position, place(id, v))
  {
    if count > 1 {
      NearestIsMinimum(place, position, id, count - 1);
      var v: nat :| v < count - 1 &&
                    Distance(position, place(id, v)) == Nearest(place, position, id, count - 1);
      assert v < count;
    }
    assert count - 1 < count && Distance(position, place(id, count - 1)) >= Nearest(place, position, id, count);
  }

  /** The point that wrap-around search lands on is nearest, ties going to the smaller member. */
  lemma SlotIsNearestPoint(points: seq<Point>, position: U64, k: nat)
    requires Sorted(points, PointLeq) && k < |points|
    ensures
      var found := points[Slot(points, position)];
      var d, dk := Distance(position, found.0), Distance(position, points[k].0);
      d < dk || (d == dk && found.1 <= points[k].1)
  {
    var index := Slot(points, position);
    if index < k {
      assert PointLeq(points[index], points[k]);
    }
  }

  /** Binary search with wrap-around computes the simple rule, at every position. */
  lemma OwnerFollowsRule(place: Place, members: seq<RingMember>, position: U64)
    ensures WellFormed(Build(place, members))
    ensures Owner(Build(place, members), position).None? <==> members == []
    ensures members != [] ==>
              var owner := Owner(Build(place, members), position).value;
              && IsOwner(place, Ids(members), position, owner.id)
              && FirstWithId(members, owner.id) == Some(owner)
  {
    BuiltWellFormed(place, members);
    CanonicalFacts(members);
    if members == [] {
      return;
    }
    var ring := Build(place, members);
    assert members[0].id in Ids(members);
    assert ring.members != [];
    assert (place(ring.members[0].id, 0), 0) in ring.points;
    SlotIsOwner(place, ring, position);
  }

  lemma SlotIsOwner(place: Place, ring: Ring, position: U64)
    requires WellFormed(ring) && ring.points != [] && StrictById(ring.members)
    requires PointsOf(place, ring)
    ensures Owner(ring, position).Some? && Owner(ring, position).value in ring.members
    ensures IsOwner(place, Ids(ring.members), position, Owner(ring, position).value.id)
  {
    var owner := Owner(ring, position).value;
    forall other | other in Ids(ring.members) ensures Beats(place, position, owner.id, other) {
      var m :| m in ring.members && m.id == other;
      var j :| 0 <= j < |ring.members| && ring.members[j] == m;
      SlotBeats(place, ring, position, j);
    }
  }

  lemma SlotBeats(place: Place, ring: Ring, position: U64, j: nat)
    requires WellFormed(ring) && ring.points != [] && StrictById(ring.members) && j < |ring.members|
    requires PointsOf(place, ring)
    ensures ring.points[Slot(ring.points, position)] in ring.points
    ensures Beats(place, position,
                  ring.members[ring.points[Slot(ring.points, position)].1].id, ring.members[j].id)
  {
    var found := ring.points[Slot(ring.points, position)];
    assert found in ring.points;
    var owner, other := ring.members[found.1].id, ring.members[j].id;
    var mine: nat :| mine < VIRTUAL_NODES && found.0 == place(owner, mine);
    NearestIsMinimum(place, position, owner, VIRTUAL_NODES);
    NearestIsMinimum(place, position, other, VIRTUAL_NODES);
    var v: nat :| v < VIRTUAL_NODES && Distance(position, place(other, v)) == Reach(place, position, other);
    var rival := (place(other, v), j);
    assert rival in ring.points;
    var k :| 0 <= k < |ring.points| && ring.points[k] == rival;
    SlotIsNearestPoint(ring.points, position, k);
    LeqReflexive(owner);
    assert found.1 < j ==> Less(owner, other);
  }

  // ----- consequences for routing -----

  function OwnerId(place: Place, members: seq<RingMember>, position: U64): (id: Option<Text>)
    ensures id.None? <==> members == []
    ensures id.Some? ==> IsOwner(place, Ids(members), position, id.value)
  {
    OwnerFollowsRule(place, members, position);
    var owner := Owner(Build(place, members), position);
    if owner.None? then None else Some(owner.value.id)
  }

  lemma NoIds(members: seq<RingMember>)
    ensures Ids(members) == {} <==> members == []
  {
    if members != [] {
      assert members[0].id in Ids(members);
    }
  }

  /** Input order, duplicate entries and addresses never affect an owner ID. */
  lemma OwnerDependsOnIdsOnly(place: Place, a: seq<RingMember>, b: seq<RingMember>, position: U64)
    requires Ids(a) == Ids(b)
    ensures OwnerId(place, a, position) == OwnerId(place, b, position)
  {
    NoIds(a);
    NoIds(b);
    var x, y := OwnerId(place, a, position), OwnerId(place, b, position);
    if x.Some? {
      OwnerUnique(place, Ids(a), position, x.value, y.value);
    }
  }

  lemma RuleSurvivesRemoval(place: Place, ids: set<Text>, gone: Text, position: U64, before: Text, after: Text)
    requires IsOwner(place, ids, position, before) && IsOwner(place, ids - {gone}, position, after)
    ensures before != after <==> before == gone
  {
    if before != gone {
      OwnerUnique(place, ids - {gone}, position, before, after);
    }
  }

  /** Dropping a member, the last one included, moves exactly the positions it owned. */
  lemma RemovalMovesExactlyItsPositions(
    place: Place, before: seq<RingMember>, after: seq<RingMember>, gone: Text, position: U64)
    requires gone in Ids(before) && Ids(after) == Ids(before) - {gone}
    ensures OwnerId(place, before, position) != OwnerId(place, after, position) <==>
            OwnerId(place, before, position) == Some(gone)
  {
    NoIds(before);
    NoIds(after);
    var x, y := OwnerId(place, before, position), OwnerId(place, after, position);
    if y.Some? {
      RuleSurvivesRemoval(place, Ids(before), gone, position, x.value, y.value);
    } else {
      assert x.value in Ids(before) && x.value !in Ids(before) - {gone};
    }
  }

  /** Adding a member, to an empty ring included, moves exactly the positions that it wins. */
  lemma AdditionMovesOnlyToNewcomer(
    place: Place, before: seq<RingMember>, after: seq<RingMember>, newcomer: Text, position: U64)
    requires newcomer !in Ids(before) && Ids(after) == Ids(before) + {newcomer}
    ensures OwnerId(place, before, position) != OwnerId(place, after, position) <==>
            OwnerId(place, after, position) == Some(newcomer)
  {
    assert Ids(before) == Ids(after) - {newcomer};
    RemovalMovesExactlyItsPositions(place, after, before, newcomer, position);
  }

  lemma RingDeterminedByIds(place: Place, a: seq<RingMember>, b: seq<RingMember>)
    requires Ids(a) == Ids(b)
    requires forall x, y :: x in a && y in b && x.id == y.id ==> x == y
    ensures Build(place, a) == Build(place, b)
  {
    CanonicalFacts(a);
    CanonicalFacts(b);
    OrdersAreTotal();
    forall m ensures m in Canonical(a) <==> m in Canonical(b) {
      SameFirst(a, b, m);
      SameFirst(b, a, m);
    }
    StrictListingUnique(Canonical(a), Canonical(b));
  }

  lemma SameFirst(a: seq<RingMember>, b: seq<RingMember>, m: RingMember)
    requires Ids(a) == Ids(b)
    requires forall x, y :: x in a && y in b && x.id == y.id ==> x == y
    ensures m in Canonical(a) ==> m in Canonical(b)
  {
    CanonicalFacts(a);
    CanonicalFacts(b);
    if m in Canonical(a) {
      FirstWithIdFound(a, m.id);
      assert m.id in Ids(Canonical(b));
      var other :| other in Canonical(b) && other.id == m.id;
      FirstWithIdFound(b, other.id);
    }
  }

  /** By ID, then by address: a total order in which one-per-ID listings stay sorted. */
  predicate EntryLeq(a: RingMember, b: RingMember) {
    Less(a.id, b.id) || (a.id == b.id && a.address <= b.address)
  }

  lemma StrictListingUnique(a: seq<RingMember>, b: seq<RingMember>)
    requires StrictById(a) && StrictById(b) && forall m :: m in a <==> m in b
    ensures a == b
  {
    OrderIsTotal();
    ListingUnique(a, b, EntryLeq);
  }

  /** A membership that is already strictly sorted is its own canonical form. */
  lemma CanonicalOfStrict(members: seq<RingMember>)
    requires StrictById(members)
    ensures Canonical(members) == members
  {
    CanonicalFacts(members);
    forall m ensures m in Canonical(members) <==> m in members {
      if m in members {
        assert m.id in Ids(Canonical(members));
        var c :| c in Canonical(members) && c.id == m.id;
        FirstWithIdFound(members, c.id);
        StrictIdsIdentify(members, c, m);
      } else if m in Canonical(members) {
        FirstWithIdFound(members, m.id);
      }
    }
    StrictListingUnique(Canonical(members), members);
  }
}
