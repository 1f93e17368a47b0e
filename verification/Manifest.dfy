/** The session manifest merge (src/cacheprog/session.rs:108-145, src/manifest.rs). */
module Manifest {
  import opened Words
  import opened Bytes
  import opened Sorting

  const MAX_ENTRIES: nat := 32 * 1024
  const MAX_AGE_SECONDS: U64 := 14 * 24 * 60 * 60

  datatype Entry = Entry(output: Text, size: U64, lastSeen: U64)
  datatype Used = Used(output: Text, size: U64)

  type Entries = map<Text, Entry>

  // ----- what a merge means -----

  /** Stored entries seen within the age limit. */
  function Recent(stored: Entries, now: U64): Entries {
    map a | a in stored && SatSub(now, stored[a].lastSeen) <= MAX_AGE_SECONDS :: stored[a]
  }

  function Stamped(used: map<Text, Used>, now: U64): Entries {
    map a | a in used :: Entry(used[a].output, used[a].size, now)
  }

  datatype Age = Age(lastSeen: U64, action: Text)

  predicate AgeLeq(a: Age, b: Age) {
    a.lastSeen < b.lastSeen || (a.lastSeen == b.lastSeen && Leq(a.action, b.action))
  }

  function AgeOf(e: Entries, a: Text): Age
    requires a in e
  {
    Age(e[a].lastSeen, a)
  }

  /** The actions that outrank `a` by (last seen, action). */
  function Above(e: Entries, a: Text): set<Text>
    requires a in e
  {
    set b | b in e && b != a && AgeLeq(AgeOf(e, a), AgeOf(e, b))
  }

  /** The top `cap` entries: those outranked by fewer than `cap` others. */
  function Top(e: Entries, cap: nat): Entries {
    map a | a in e && |Above(e, a)| < cap :: e[a]
  }

  function Merged(stored: Entries, used: map<Text, Used>, now: U64, cap: nat): Entries {
    Top(Recent(stored, now) + Stamped(used, now), cap)
  }

  // ----- facts about the cap -----

  lemma AgeOrder()
    ensures TotalOrder(AgeLeq)
  {
    OrderIsTotal();
  }

  lemma SubsetSize<T>(a: set<T>, b: set<T>)
    requires a <= b
    ensures |a| <= |b|
  {
    assert b == a + (b - a);
  }

  lemma TopOfFew(e: Entries, cap: nat)
    requires |e| <= cap
    ensures Top(e, cap) == e
  {
    forall a | a in e ensures |Above(e, a)| < cap {
      assert Above(e, a) <= e.Keys - {a};
      SubsetSize(Above(e, a), e.Keys - {a});
      assert |e.Keys - {a}| == |e.Keys| - 1 && |e.Keys| == |e|;
    }
  }

  ghost predicate IsLeast(e: Entries, least: Text) {
    least in e && forall a :: a in e ==> AgeLeq(AgeOf(e, least), AgeOf(e, a))
  }

  /** Dropping the oldest entry of an over-full map does not change what is on top. */
  lemma DropLeast(e: Entries, least: Text, cap: nat)
    requires IsLeast(e, least) && |e| > cap
    ensures Top(e - {least}, cap) == Top(e, cap)
    ensures |e - {least}| == |e| - 1
  {
    var rest := e - {least};
    assert rest.Keys == e.Keys - {least};
    forall a | a in rest ensures Above(rest, a) == Above(e, a) {
      AboveWithoutLeast(e, least, a);
    }
    assert Above(e, least) == e.Keys - {least};
    assert |e.Keys| == |e| && |rest.Keys| == |rest|;
  }

  lemma AboveWithoutLeast(e: Entries, least: Text, a: Text)
    requires IsLeast(e, least) && a in e && a != least
    ensures Above(e - {least}, a) == Above(e, a)
  {
    assert AgeLeq(AgeOf(e, least), AgeOf(e, a));
    assert !AgeLeq(AgeOf(e, a), AgeOf(e, least)) by {
      AgeOrder();
    }
  }

  lemma LeastEntry(e: Entries) returns (least: Text)
    requires |e| > 0
    ensures IsLeast(e, least)
  {
    AgeOrder();
    var ages := set a | a in e :: AgeOf(e, a);
    assert e.Keys != {};
    var some :| some in e.Keys;
    assert AgeOf(e, some) in ages;
    var age := LeastExists(ages, AgeLeq);
    least := age.action;
    assert age == AgeOf(e, least);
    forall a | a in e ensures AgeLeq(AgeOf(e, least), AgeOf(e, a)) {
      assert AgeOf(e, a) in ages;
    }
  }

  /** The cap keeps exactly as many entries as it can. */
  lemma {:induction false} TopSize(e: Entries, cap: nat)
    ensures |Top(e, cap)| == Min(cap, |e|)
    decreases |e|
  {
    if |e| <= cap {
      TopOfFew(e, cap);
    } else {
      var least := LeastEntry(e);
      DropLeast(e, least, cap);
      TopSize(e - {least}, cap);
    }
  }

  /** What outranks a kept entry is kept: nothing kept is older than anything dropped. */
  lemma KeptOutranksDropped(e: Entries, cap: nat, kept: Text, dropped: Text)
    requires kept in Top(e, cap) && dropped in e && dropped !in Top(e, cap)
    ensures AgeLeq(AgeOf(e, dropped), AgeOf(e, kept))
  {
    AgeOrder();
    if !AgeLeq(AgeOf(e, dropped), AgeOf(e, kept)) {
      assert Above(e, dropped) <= Above(e, kept);
      SubsetSize(Above(e, dropped), Above(e, kept));
    }
  }

  // ----- the merge itself -----

  /** After `i` removals: the map restricted to the younger part of the listing, its top unchanged. */
  ghost predicate Shrunk(entries: Entries, kept: Entries, byAge: seq<Age>, i: nat, cap: nat)
    requires i <= |byAge|
  {
    && |kept| == |entries| - i && Top(kept, cap) == Top(entries, cap)
    && (forall a :: a in kept <==> a in entries && AgeOf(entries, a) in byAge[i..])
    && (forall a :: a in kept ==> kept[a] == entries[a])
  }

  lemma ShrinkOnce(entries: Entries, kept: Entries, byAge: seq<Age>, i: nat, cap: nat)
    requires ListsAges(entries, byAge) && i < |byAge| && |entries| - i > cap
    requires Shrunk(entries, kept, byAge, i, cap)
    ensures Shrunk(entries, kept - {byAge[i].action}, byAge, i + 1, cap)
  {
    var oldest := byAge[i].action;
    assert byAge[i] in byAge;
    OldestIsLeast(entries, kept, byAge, i);
    DropLeast(kept, oldest, cap);
    forall a | a in entries
      ensures AgeOf(entries, a) in byAge[i + 1..] <==> AgeOf(entries, a) in byAge[i..] && a != oldest
    {
      YoungerPart(byAge, i, AgeOf(entries, a));
      assert AgeOf(entries, a) == byAge[i] <==> a == oldest;
    }
  }

  lemma YoungerPart(byAge: seq<Age>, i: nat, x: Age)
    requires StrictlySorted(byAge, AgeLeq) && i < |byAge|
    ensures x in byAge[i + 1..] <==> x in byAge[i..] && x != byAge[i]
  {
    assert byAge[i..] == [byAge[i]] + byAge[i + 1..];
  }

  /** Removes the oldest entries, in age order, until the cap holds. */
  method EvictOldest(entries: Entries, cap: nat) returns (kept: Entries)
    ensures kept == Top(entries, cap)
  {
    kept := entries;
    if |entries| > cap {
      var byAge := ByAge(entries);
      var excess := |entries| - cap;
      for i := 0 to excess
        invariant Shrunk(entries, kept, byAge, i, cap)
      {
        ShrinkOnce(entries, kept, byAge, i, cap);
        kept := kept - {byAge[i].action};
      }
    }
    TopOfFew(kept, cap);
  }

  ghost predicate ListsAges(entries: Entries, byAge: seq<Age>) {
    && StrictlySorted(byAge, AgeLeq) && |byAge| == |entries|
    && forall x :: x in byAge <==> x.action in entries && x == AgeOf(entries, x.action)
  }

  lemma OldestIsLeast(entries: Entries, kept: Entries, byAge: seq<Age>, i: nat)
    requires ListsAges(entries, byAge) && i < |byAge|
    requires forall a :: a in kept <==> a in entries && AgeOf(entries, a) in byAge[i..]
    requires forall a :: a in kept ==> kept[a] == entries[a]
    ensures IsLeast(kept, byAge[i].action)
  {
    var oldest := byAge[i].action;
    assert byAge[i] in byAge && byAge[i..][0] == byAge[i];
    LeqReflexive(oldest);
    forall a | a in kept ensures AgeLeq(AgeOf(kept, oldest), AgeOf(kept, a)) {
      var j :| 0 <= j < |byAge[i..]| && byAge[i..][j] == AgeOf(entries, a);
      assert byAge[i + j] == AgeOf(entries, a);
    }
  }

  /** Collects the (last seen, action) pairs in any order and sorts them. */
  method ByAge(entries: Entries) returns (byAge: seq<Age>)
    ensures ListsAges(entries, byAge)
  {
    var pairs: seq<Age> := [];
    var rest := entries.Keys;
    while rest != {}
      invariant rest <= entries.Keys && |pairs| + |rest| == |entries|
      invariant forall x :: x in pairs <==> x.action in entries.Keys - rest && x == AgeOf(entries, x.action)
      invariant forall i, j :: 0 <= i < j < |pairs| ==> pairs[i] != pairs[j]
    {
      var a :| a in rest;
      var x := AgeOf(entries, a);
      assert x !in pairs;
      pairs := pairs + [x];
      rest := rest - {a};
    }
    byAge := Sort(pairs, AgeLeq);
    AgeOrder();
    SortSorted(pairs, AgeLeq);
    MultisetMembers(pairs, byAge);
    DistinctKept(pairs, byAge);
  }

  lemma DistinctKept(a: seq<Age>, b: seq<Age>)
    requires multiset(a) == multiset(b) && forall i, j :: 0 <= i < j < |a| ==> a[i] != a[j]
    ensures forall i, j :: 0 <= i < j < |b| ==> b[i] != b[j]
  {
    forall x ensures multiset(a)[x] <= 1 {
      OccursOnce(a, x);
    }
    forall i, j | 0 <= i < j < |b| ensures b[i] != b[j] {
      PairCounts(b, i, j);
    }
  }

  lemma PairCounts(b: seq<Age>, i: nat, j: nat)
    requires i < j < |b|
    ensures multiset(b)[b[i]] >= if b[i] == b[j] then 2 else 1
  {
    assert b == b[..j] + b[j..];
    assert b[..j][i] == b[i] && b[i] in b[..j];
    assert b[j..][0] == b[j] && b[j] in b[j..];
  }

  lemma {:induction false} OccursOnce(a: seq<Age>, x: Age)
    requires forall i, j :: 0 <= i < j < |a| ==> a[i] != a[j]
    ensures multiset(a)[x] <= 1
  {
    if a != [] {
      assert a == [a[0]] + a[1..];
      OccursOnce(a[1..], x);
      if x == a[0] {
        assert x !in a[1..];
        assert multiset(a[1..])[x] == 0;
      }
    }
  }

  /** `merge_manifest`: age out, insert this build's usage at `now`, cap by evicting the oldest. */
  method MergeManifest(stored: Option<Entries>, used: map<Text, Used>, now: U64) returns (merged: Entries)
    ensures merged == Merged(if stored.Some? then stored.value else map[], used, now, MAX_ENTRIES)
  {
    var entries: Entries := if stored.Some? then stored.value else map[];
    entries := Recent(entries, now);
    ghost var recent := entries;
    var rest := used.Keys;
    while rest != {}
      invariant rest <= used.Keys
      invariant entries == recent + Stamped(used - rest, now)
    {
      var action :| action in rest;
      entries := entries[action := Entry(used[action].output, used[action].size, now)];
      rest := rest - {action};
    }
    assert used - {} == used;
    merged := EvictOldest(entries, MAX_ENTRIES);
  }

  /** When an action was last seen as far as the merge knows: now if this build used it. */
  function Seen(stored: Entries, used: map<Text, Used>, now: U64, a: Text): U64
    requires a in stored || a in used
  {
    if a in used then now else stored[a].lastSeen
  }

  /** What a merge keeps: what the build used and what was seen in the last 14 days, less the excess. */
  lemma MergeKeeps(stored: Entries, used: map<Text, Used>, now: U64)
    ensures
      var merged := Merged(stored, used, now, MAX_ENTRIES);
      && |merged| <= 32768
      && (forall a :: a in merged && a in used ==> merged[a] == Entry(used[a].output, used[a].size, now))
      && (forall a :: a in merged && a !in used ==>
            a in stored && merged[a] == stored[a] && now <= stored[a].lastSeen + 1209600)
      && (|merged| < 32768 ==>
            (forall a :: a in used ==> a in merged) &&
            (forall a :: a in stored && now <= stored[a].lastSeen + 1209600 ==> a in merged))
  {
    var e := Recent(stored, now) + Stamped(used, now);
    TopSize(e, MAX_ENTRIES);
    if |e| <= MAX_ENTRIES {
      TopOfFew(e, MAX_ENTRIES);
    }
  }

  /** What a merge drops although it is used or recent enough was seen no later than anything it keeps. */
  lemma MergeDropsOldest(stored: Entries, used: map<Text, Used>, now: U64, kept: Text, dropped: Text)
    requires kept in Merged(stored, used, now, MAX_ENTRIES) && dropped !in Merged(stored, used, now, MAX_ENTRIES)
    requires dropped in used || (dropped in stored && now <= stored[dropped].lastSeen + 1209600)
    ensures kept in used || kept in stored
    ensures
      var k, d := Seen(stored, used, now, kept), Seen(stored, used, now, dropped);
      d < k || (d == k && Leq(dropped, kept))
  {
    KeptOutranksDropped(Recent(stored, now) + Stamped(used, now), MAX_ENTRIES, kept, dropped);
  }

  // ----- composition -----

  ghost predicate NotAfter(e: Entries, now: U64) {
    forall a :: a in e ==> e[a].lastSeen <= now
  }

  /** Overriding entries with ones stamped `now` never lowers anyone's rank. */
  lemma OverrideRaises(e: Entries, u: Entries, now: U64, a: Text)
    requires NotAfter(e, now) && a in e && forall b :: b in u ==> u[b].lastSeen == now
    ensures AgeLeq(AgeOf(e, a), AgeOf(e + u, a))
  {
    LeqReflexive(a);
  }

  /** An entry the first cap dropped, and that is not used again, cannot come back. */
  lemma DroppedStaysOut(e: Entries, u: Entries, now: U64, cap: nat, x: Text)
    requires NotAfter(e, now) && forall b :: b in u ==> u[b].lastSeen == now
    requires x in e && x !in Top(e, cap) && x !in u
    ensures |Above(e + u, x)| >= cap
  {
    AgeOrder();
    forall b | b in Above(e, x) ensures b in Above(e + u, x) {
      OverrideRaises(e, u, now, b);
    }
    SubsetSize(Above(e, x), Above(e + u, x));
  }

  /** For entries that survive the first cap or are used again, the second cap decides as if nothing was dropped. */
  lemma CapDecidesSame(e: Entries, u: Entries, now: U64, cap: nat, x: Text)
    requires NotAfter(e, now) && forall b :: b in u ==> u[b].lastSeen == now
    requires x in Top(e, cap) + u
    ensures |Above(Top(e, cap) + u, x)| < cap <==> |Above(e + u, x)| < cap
  {
    var kept, whole := Top(e, cap) + u, e + u;
    assert Above(kept, x) <= Above(whole, x);
    SubsetSize(Above(kept, x), Above(whole, x));
    if y :| y in Above(whole, x) && y !in Above(kept, x) {
      assert y in e && y !in Top(e, cap) && y !in u;
      CrowdAbove(e, u, now, cap, x, y);
    } else {
      assert Above(kept, x) == Above(whole, x);
    }
  }

  /** If a dropped entry still outranks `x`, all the kept ones do, so `x` is out either way. */
  lemma CrowdAbove(e: Entries, u: Entries, now: U64, cap: nat, x: Text, y: Text)
    requires NotAfter(e, now) && forall b :: b in u ==> u[b].lastSeen == now
    requires x in Top(e, cap) + u && y in e && y !in Top(e, cap) && y !in u && y in Above(e + u, x)
    ensures |Above(Top(e, cap) + u, x)| >= cap && |Above(e + u, x)| >= cap
  {
    var top := Top(e, cap);
    TopSize(e, cap);
    if |e| <= cap {
      TopOfFew(e, cap);
    }
    forall m | m in top.Keys ensures m in Above(top + u, x) && m in Above(e + u, x) {
      KeptOutranksDropped(e, cap, m, y);
      AboveThroughDropped(e, u, now, x, y, m);
      SameAges(e, top, u, x, m);
    }
    assert top.Keys <= Above(top + u, x) && top.Keys <= Above(e + u, x);
    SubsetSize(top.Keys, Above(top + u, x));
    SubsetSize(top.Keys, Above(e + u, x));
    assert |top.Keys| == |top|;
  }

  lemma SameAges(e: Entries, top: Entries, u: Entries, x: Text, m: Text)
    requires forall a :: a in top ==> a in e && e[a] == top[a]
    requires x in top + u && m in top && x != m && AgeLeq(AgeOf(e + u, x), AgeOf(e + u, m))
    ensures m in Above(top + u, x) && m in Above(e + u, x)
  {
    assert AgeOf(top + u, x) == AgeOf(e + u, x) && AgeOf(top + u, m) == AgeOf(e + u, m);
  }

  lemma AboveThroughDropped(e: Entries, u: Entries, now: U64, x: Text, y: Text, m: Text)
    requires NotAfter(e, now) && forall b :: b in u ==> u[b].lastSeen == now
    requires x in e + u && y in e && y !in u && y != x && m in e && m != y
    requires AgeLeq(AgeOf(e + u, x), AgeOf(e + u, y)) && AgeLeq(AgeOf(e, y), AgeOf(e, m))
    ensures AgeLeq(AgeOf(e + u, x), AgeOf(e + u, m)) && m != x
  {
    AgeOrder();
    OverrideRaises(e, u, now, m);
    assert AgeOf(e + u, y) == AgeOf(e, y);
  }

  lemma TopAbsorbs(e: Entries, u: Entries, now: U64, cap: nat)
    requires NotAfter(e, now) && forall b :: b in u ==> u[b].lastSeen == now
    ensures Top(Top(e, cap) + u, cap) == Top(e + u, cap)
  {
    var left, right := Top(Top(e, cap) + u, cap), Top(e + u, cap);
    forall x ensures x in left <==> x in right {
      TopAbsorbsOne(e, u, now, cap, x);
    }
    assert forall x :: x in left ==> left[x] == right[x];
  }

  lemma TopAbsorbsOne(e: Entries, u: Entries, now: U64, cap: nat, x: Text)
    requires NotAfter(e, now) && forall b :: b in u ==> u[b].lastSeen == now
    ensures x in Top(Top(e, cap) + u, cap) <==> x in Top(e + u, cap)
  {
    if x in Top(e, cap) + u {
      CapDecidesSame(e, u, now, cap, x);
    } else if x in e {
      DroppedStaysOut(e, u, now, cap, x);
    }
  }

  /**
   * Merging twice at the same time equals one merge of the second usage over the first, even when
   * the cap evicts in between, as long as nothing stored claims to be seen after `now`.
   */
  lemma MergesCompose(stored: Entries, u1: map<Text, Used>, u2: map<Text, Used>, now: U64, cap: nat)
    requires NotAfter(stored, now)
    ensures Merged(Merged(stored, u1, now, cap), u2, now, cap) == Merged(stored, u1 + u2, now, cap)
  {
    var e := Recent(stored, now) + Stamped(u1, now);
    var u := Stamped(u2, now);
    var top := Top(e, cap);
    assert Recent(top, now) == top;
    StampedTogether(Recent(stored, now), u1, u2, now);
    TopAbsorbs(e, u, now, cap);
  }

  lemma StampedTogether(e: Entries, u1: map<Text, Used>, u2: map<Text, Used>, now: U64)
    ensures e + Stamped(u1 + u2, now) == e + Stamped(u1, now) + Stamped(u2, now)
  {
  }

  // ----- exactly when merges compose -----

  ghost predicate Composes(stored: Entries, u1: map<Text, Used>, u2: map<Text, Used>, now: U64, cap: nat) {
    Merged(Merged(stored, u1, now, cap), u2, now, cap) == Merged(stored, u1 + u2, now, cap)
  }

  /** Merging composes for all usages exactly when the cap is 0 or nothing stored was seen after `now`. */
  lemma ComposesExactly(stored: Entries, now: U64, cap: nat)
    ensures (forall u1, u2 :: Composes(stored, u1, u2, now, cap)) <==> cap == 0 || NotAfter(stored, now)
  {
    if cap == 0 {
      forall u1, u2 ensures Composes(stored, u1, u2, now, cap) {
        NothingOnTop(Recent(stored, now) + Stamped(u1 + u2, now));
        NothingOnTop(Recent(Merged(stored, u1, now, cap), now) + Stamped(u2, now));
      }
    } else if NotAfter(stored, now) {
      forall u1, u2 ensures Composes(stored, u1, u2, now, cap) {
        MergesCompose(stored, u1, u2, now, cap);
      }
    } else {
      var u1, u2 := FutureEntryBreaksComposition(stored, now, cap);
      assert !Composes(stored, u1, u2, now, cap);
    }
  }

  lemma NothingOnTop(e: Entries)
    ensures Top(e, 0) == map[]
  {
  }

  /** The youngest entry of a map outranks all others. */
  lemma Youngest(e: Entries) returns (f: Text)
    requires |e| > 0
    ensures f in e && forall a :: a in e ==> AgeLeq(AgeOf(e, a), AgeOf(e, f))
  {
    AgeOrder();
    TopSize(e, 1);
    assert |Top(e, 1).Keys| == 1;
    f :| f in Top(e, 1).Keys;
    assert Above(e, f) == {};
    forall a | a in e ensures AgeLeq(AgeOf(e, a), AgeOf(e, f)) {
      assert a != f ==> a !in Above(e, f);
    }
  }

  /** `n` actions that all come after `f`. */
  function Crowd(f: Text, n: nat): map<Text, Used> {
    if n == 0 then map[] else Crowd(f, n - 1)[f + seq(n, _ => 0) := Used([], 0)]
  }

  lemma {:induction false} CrowdSize(f: Text, n: nat)
    ensures |Crowd(f, n)| == n
    ensures forall a :: a in Crowd(f, n) ==> f <= a && |f| < |a| <= |f| + n
  {
    if n > 0 {
      CrowdSize(f, n - 1);
      assert f + seq(n, _ => 0) !in Crowd(f, n - 1);
    }
  }

  lemma {:induction false} PrefixLeq(a: Text, b: Text)
    requires a <= b
    ensures Leq(a, b)
  {
    if a != [] {
      PrefixLeq(a[1..], b[1..]);
    }
  }

  /**
   * Whatever is stored after `now`: the youngest stored entry survives a first merge that fills the
   * cap, but used again it ranks below that crowd. Two merges keep it and one merge drops it.
   */
  lemma FutureEntryBreaksComposition(stored: Entries, now: U64, cap: nat)
    returns (u1: map<Text, Used>, u2: map<Text, Used>)
    requires cap > 0 && !NotAfter(stored, now)
    ensures !Composes(stored, u1, u2, now, cap)
  {
    var future :| future in stored && stored[future].lastSeen > now;
    assert stored.Keys != {} && |stored| == |stored.Keys|;
    var f := Youngest(stored);
    assert AgeLeq(AgeOf(stored, future), AgeOf(stored, f));
    u1, u2 := Crowd(f, cap), map[f := Used([], 0)];
    CrowdSize(f, cap);
    KeptByTwo(stored, f, u1, u2, now, cap);
    DroppedByOne(stored, f, u1, u2, now, cap);
  }

  lemma KeptByTwo(stored: Entries, f: Text, u1: map<Text, Used>, u2: map<Text, Used>, now: U64, cap: nat)
    requires f in stored && stored[f].lastSeen > now && cap > 0 && f !in u1 && u2.Keys == {f}
    requires forall a :: a in stored ==> AgeLeq(AgeOf(stored, a), AgeOf(stored, f))
    ensures f in Merged(Merged(stored, u1, now, cap), u2, now, cap)
  {
    var e := Recent(stored, now) + Stamped(u1, now);
    YoungestSurvives(stored, f, u1, now);
    TopSize(e, cap);
    SecondMergeFits(Top(e, cap), f, u2, now, cap);
  }

  lemma YoungestSurvives(stored: Entries, f: Text, u1: map<Text, Used>, now: U64)
    requires f in stored && stored[f].lastSeen > now && f !in u1
    requires forall a :: a in stored ==> AgeLeq(AgeOf(stored, a), AgeOf(stored, f))
    ensures f in Recent(stored, now) + Stamped(u1, now)
    ensures Above(Recent(stored, now) + Stamped(u1, now), f) == {}
  {
    AgeOrder();
    var e := Recent(stored, now) + Stamped(u1, now);
    forall b | b in e && b != f ensures !AgeLeq(AgeOf(e, f), AgeOf(e, b)) {
      if b !in u1 {
        assert AgeLeq(AgeOf(stored, b), AgeOf(stored, f));
      }
    }
  }

  lemma SecondMergeFits(top: Entries, f: Text, u2: map<Text, Used>, now: U64, cap: nat)
    requires |top| <= cap && f in top && u2.Keys == {f}
    ensures f in Merged(top, u2, now, cap)
  {
    var twice := Recent(top, now) + Stamped(u2, now);
    SubsetSize(twice.Keys, top.Keys);
    assert |twice| == |twice.Keys| && |top| == |top.Keys|;
    TopOfFew(twice, cap);
  }

  lemma DroppedByOne(stored: Entries, f: Text, u1: map<Text, Used>, u2: map<Text, Used>, now: U64, cap: nat)
    requires |u1| == cap && u2.Keys == {f} && forall a :: a in u1 ==> f <= a && a != f
    ensures f !in Merged(stored, u1 + u2, now, cap)
  {
    var once := Recent(stored, now) + Stamped(u1 + u2, now);
    forall a | a in u1 ensures a in Above(once, f) {
      PrefixLeq(f, a);
    }
    SubsetSize(u1.Keys, Above(once, f));
    assert |u1.Keys| == cap;
  }
}
