/** Byte strings under the lexicographic order used by `str` comparison and by RocksDB. */
module Bytes {

  type Byte = b: int | 0 <= b < 256
  type Text = seq<Byte>

  predicate Leq(a: Text, b: Text) {
    a == [] || (b != [] && (a[0] < b[0] || (a[0] == b[0] && Leq(a[1..], b[1..]))))
  }

  predicate Less(a: Text, b: Text) {
    a != b && Leq(a, b)
  }

  lemma {:induction false} LeqReflexive(a: Text)
    ensures Leq(a, a)
  {
    if a != [] {
      LeqReflexive(a[1..]);
    }
  }

  lemma {:induction false} LeqTotal(a: Text, b: Text)
    ensures Leq(a, b) || Leq(b, a)
  {
    if a != [] && b != [] && a[0] == b[0] {
      LeqTotal(a[1..], b[1..]);
    }
  }

  lemma {:induction false} LeqAntisymmetric(a: Text, b: Text)
    requires Leq(a, b) && Leq(b, a)
    ensures a == b
  {
    if a != [] && b != [] {
      LeqAntisymmetric(a[1..], b[1..]);
      assert a == [a[0]] + a[1..] && b == [b[0]] + b[1..];
    }
  }

  lemma LessIsNotGeq(a: Text, b: Text)
    ensures Less(a, b) <==> !Leq(b, a)
  {
    LeqTotal(a, b);
    LeqReflexive(a);
    if Leq(a, b) && Leq(b, a) {
      LeqAntisymmetric(a, b);
    }
  }

  lemma {:induction false} LeqTransitive(a: Text, b: Text, c: Text)
    requires Leq(a, b) && Leq(b, c)
    ensures Leq(a, c)
  {
    if a != [] && a[0] == b[0] == c[0] {
      LeqTransitive(a[1..], b[1..], c[1..]);
    }
  }

  /** The order is decided by equal-length prefixes first, then by what follows them. */
  lemma {:induction false} LeqByPrefix(a: Text, b: Text, x: Text, y: Text)
    requires |a| == |b|
    ensures Leq(a + x, b + y) <==> Less(a, b) || (a == b && Leq(x, y))
  {
    if a == [] {
      assert a + x == x && b + y == y;
    } else {
      assert (a + x)[1..] == a[1..] + x && (b + y)[1..] == b[1..] + y;
      assert a == [a[0]] + a[1..] && b == [b[0]] + b[1..];
      LeqByPrefix(a[1..], b[1..], x, y);
      if a[1..] == b[1..] {
        LeqReflexive(a[1..]);
      }
    }
  }

  /** Total-order facts for every triple, in the form the sorted-sequence lemmas want. */
  lemma OrderIsTotal()
    ensures forall a: Text :: Leq(a, a)
    ensures forall a: Text, b: Text :: Leq(a, b) || Leq(b, a)
    ensures forall a: Text, b: Text :: Leq(a, b) && Leq(b, a) ==> a == b
    ensures forall a: Text, b: Text, c: Text :: Leq(a, b) && Leq(b, c) ==> Leq(a, c)
  {
    forall a: Text ensures Leq(a, a) { LeqReflexive(a); }
    forall a: Text, b: Text ensures Leq(a, b) || Leq(b, a) { LeqTotal(a, b); }
    forall a: Text, b: Text | Leq(a, b) && Leq(b, a) ensures a == b { LeqAntisymmetric(a, b); }
    forall a: Text, b: Text, c: Text | Leq(a, b) && Leq(b, c) ensures Leq(a, c) { LeqTransitive(a, b, c); }
  }
}
