/** The library sorts: a stable sort of a sequence and the ordered listing of a set. */
module Sorting {

  ghost predicate TotalPreorder<T(!new)>(leq: (T, T) -> bool) {
    && (forall x, y :: leq(x, y) || leq(y, x))
    && (forall x, y, z :: leq(x, y) && leq(y, z) ==> leq(x, z))
  }

  ghost predicate TotalOrder<T(!new)>(leq: (T, T) -> bool) {
    && TotalPreorder(leq)
    && (forall x, y :: leq(x, y) && leq(y, x) ==> x == y)
  }

  ghost predicate Sorted<T>(s: seq<T>, leq: (T, T) -> bool) {
    forall i, j :: 0 <= i < j < |s| ==> leq(s[i], s[j])
  }

  ghost predicate StrictlySorted<T>(s: seq<T>, leq: (T, T) -> bool) {
    forall i, j :: 0 <= i < j < |s| ==> leq(s[i], s[j]) && s[i] != s[j]
  }

  function Insert<T>(x: T, s: seq<T>, leq: (T, T) -> bool): (r: seq<T>)
    ensures |r| == |s| + 1
    ensures multiset(r) == multiset(s) + multiset{x}
  {
    if s == [] || leq(x, s[0]) then [x] + s
    else
      assert s == [s[0]] + s[1..];
      [s[0]] + Insert(x, s[1..], leq)
  }

  /** Stable: equal elements keep their input order, since the earlier one is inserted in front. */
  function Sort<T>(s: seq<T>, leq: (T, T) -> bool): (r: seq<T>)
    ensures |r| == |s|
    ensures multiset(r) == multiset(s)
  {
    if s == [] then []
    else
      assert s == [s[0]] + s[1..];
      Insert(s[0], Sort(s[1..], leq), leq)
  }

  /** `dedup_by` keeps the first element of every run of equivalent neighbours. */
  function Dedup<T>(s: seq<T>, same: (T, T) -> bool): (r: seq<T>)
    ensures s != [] ==> r != [] && r[0] == s[0]
    ensures |r| <= |s|
  {
    if s == [] then []
    else
      var rest := Dedup(s[1..], same);
      if rest != [] && same(rest[0], s[0]) then [s[0]] + rest[1..] else [s[0]] + rest
  }

  lemma {:induction false} DedupSubset<T>(s: seq<T>, same: (T, T) -> bool)
    ensures forall m :: m in Dedup(s, same) ==> m in s
  {
    if s != [] {
      DedupSubset(s[1..], same);
      forall m | m in Dedup(s, same) ensures m in s {
        assert m == s[0] || m in Dedup(s[1..], same);
      }
    }
  }

  lemma MultisetMembers<T>(a: seq<T>, b: seq<T>)
    requires multiset(a) == multiset(b)
    ensures forall x :: x in a <==> x in b
  {
    forall x ensures x in a <==> x in b {
      assert x in a <==> x in multiset(a);
      assert x in b <==> x in multiset(b);
    }
  }

  lemma {:induction false} InsertSorted<T(!new)>(x: T, s: seq<T>, leq: (T, T) -> bool)
    requires TotalPreorder(leq) && Sorted(s, leq)
    ensures Sorted(Insert(x, s, leq), leq)
  {
    if s != [] && !leq(x, s[0]) {
      InsertSorted(x, s[1..], leq);
      var r := Insert(x, s[1..], leq);
      assert multiset(r) == multiset(s[1..] + [x]);
      MultisetMembers(r, s[1..] + [x]);
      forall k | 0 <= k < |r| ensures leq(s[0], r[k]) {
        assert r[k] in s[1..] + [x];
      }
    } else if s != [] {
      assert forall k :: 0 <= k < |s| ==> leq(x, s[k]);
    }
  }

  lemma {:induction false} SortSorted<T(!new)>(s: seq<T>, leq: (T, T) -> bool)
    requires TotalPreorder(leq)
    ensures Sorted(Sort(s, leq), leq)
  {
    if s != [] {
      SortSorted(s[1..], leq);
      InsertSorted(s[0], Sort(s[1..], leq), leq);
    }
  }

  /** Two strictly sorted listings of the same elements are the same listing. */
  lemma {:induction false} ListingUnique<T(!new)>(a: seq<T>, b: seq<T>, leq: (T, T) -> bool)
    requires TotalOrder(leq) && StrictlySorted(a, leq) && StrictlySorted(b, leq)
    requires forall x :: x in a <==> x in b
    ensures a == b
  {
    if a == [] {
      assert forall i :: 0 <= i < |b| ==> b[i] !in b;
    } else {
      assert a[0] in b;
      assert b[0] in a;
      assert a[0] == b[0];
      forall x ensures x in a[1..] <==> x in b[1..] {
        assert x in a <==> x == a[0] || x in a[1..];
        assert x in b <==> x == b[0] || x in b[1..];
      }
      ListingUnique(a[1..], b[1..], leq);
      assert a == [a[0]] + a[1..] && b == [b[0]] + b[1..];
    }
  }

  lemma {:induction false} LeastExists<T(!new)>(s: set<T>, leq: (T, T) -> bool) returns (least: T)
    requires s != {} && TotalPreorder(leq)
    ensures least in s && forall y :: y in s ==> leq(least, y)
  {
    var x :| x in s;
    if s == {x} {
      least := x;
      assert leq(x, x);
    } else {
      assert s - {x} != {} by {
        assert s == {x} + (s - {x});
      }
      var m := LeastExists(s - {x}, leq);
      least := if leq(x, m) then x else m;
      forall y | y in s ensures leq(least, y) {
        assert y == x || y in s - {x};
        assert leq(x, x) && (leq(x, m) || leq(m, x));
      }
    }
  }
}
