/**
 * Approximate recency (src/cache/recent_use.rs): two bit-packed Bloom filters, one marked by reads
 * and one retained from the previous window. The key hash is an arbitrary function.
 */
module RecentUse {
  import opened Words
  import opened Store

  const PROBES: nat := 4
  const TWO_32: int := 0x1_0000_0000

  type Key = ArtifactKey

  type Seed = Key -> U64

  // ----- probe positions and packed bits -----

  /** Slot of one probe: the low half of the hash plus an odd multiple of the high half. */
  function Position(seed: U64, bits: nat, probe: nat): (p: nat)
    requires bits > 0
    ensures p < bits
  {
    var start := seed % TWO_32;
    var step := seed / TWO_32 / 2 * 2 + 1;
    (start + step * probe) % (U64_MAX + 1) % bits
  }

  /** The four slots of a key. */
  function Probes(seed: Seed, bits: nat, key: Key): (r: set<nat>)
    requires bits > 0
    ensures forall i: nat :: i < 4 ==> Position(seed(key), bits, i) in r
    ensures forall p :: p in r ==> exists i: nat :: i < 4 && p == Position(seed(key), bits, i)
  {
    set i | 0 <= i < PROBES :: Position(seed(key), bits, i)
  }

  /** Every slot probed by a set of keys. */
  ghost function Probed(seed: Seed, bits: nat, keys: set<Key>): set<nat>
    requires bits > 0
  {
    set k, i | k in keys && 0 <= i < PROBES :: Position(seed(k), bits, i)
  }

  predicate Bit(word: bv64, i: bv6) {
    word & ((1 as bv64) << i) != 0
  }

  function SetBit(word: bv64, i: bv6): bv64 {
    word | ((1 as bv64) << i)
  }

  lemma SetBitSets(word: bv64, i: bv6)
    ensures Bit(SetBit(word, i), i)
  {
  }

  lemma MaskedBitKeeps(word: bv64, i: bv6, j: bv6)
    requires i != j
    ensures (word | ((1 as bv64) << i)) & ((1 as bv64) << j) == word & ((1 as bv64) << j)
  {
  }

  lemma SetBitKeeps(word: bv64, i: bv6, j: bv6)
    requires i != j
    ensures Bit(SetBit(word, i), j) <==> Bit(word, j)
  {
    MaskedBitKeeps(word, i, j);
  }

  lemma SetBitSetsOne(word: bv64, i: bv6, j: bv6)
    ensures Bit(SetBit(word, i), j) <==> i == j || Bit(word, j)
  {
    if i == j {
      SetBitSets(word, i);
    } else {
      SetBitKeeps(word, i, j);
    }
  }

  lemma ZeroWord(j: bv6)
    ensures !Bit(0, j)
  {
  }

  /** Bit number of a slot within its word. */
  function Offset(p: nat): bv6 {
    (p % 64) as bv6
  }

  lemma OffsetExact(p: nat)
    ensures Offset(p) as nat == p % 64
  {
  }

  predicate SlotSet(words: seq<bv64>, p: nat)
    requires p < 64 * |words|
  {
    Bit(words[p / 64], Offset(p))
  }

  /** The slots whose bit is set in a packed filter. */
  ghost function Slots(words: seq<bv64>): set<nat> {
    set p: nat | p < 64 * |words| && SlotSet(words, p)
  }

  lemma SlotsAfterSet(words: seq<bv64>, p: nat)
    requires p < 64 * |words|
    ensures Slots(words[p / 64 := SetBit(words[p / 64], Offset(p))]) == Slots(words) + {p}
  {
    var next := words[p / 64 := SetBit(words[p / 64], Offset(p))];
    forall q: nat | q < 64 * |words| ensures SlotSet(next, q) <==> SlotSet(words, q) || q == p {
      SetBitSetsOne(words[p / 64], Offset(p), Offset(q));
      SlotsDiffer(p, q);
    }
  }

  lemma SlotsDiffer(p: nat, q: nat)
    ensures q == p <==> q / 64 == p / 64 && Offset(q) == Offset(p)
  {
    OffsetExact(p);
    OffsetExact(q);
  }

  lemma SlotsCleared(words: seq<bv64>)
    requires forall i :: 0 <= i < |words| ==> words[i] == 0
    ensures Slots(words) == {}
  {
    forall q: nat | q < 64 * |words| ensures !SlotSet(words, q) {
      ZeroWord(Offset(q));
    }
  }

  // ----- what the filters mean -----

  /** Keys marked since the last rotation, and keys marked in the window before it. */
  datatype Windows = Windows(current: set<Key>, previous: set<Key>)

  function Mark(w: Windows, key: Key): Windows {
    w.(current := w.current + {key})
  }

  function Rotate(w: Windows): Windows {
    Windows({}, w.current)
  }

  ghost predicate Seen(seed: Seed, bits: nat, w: Windows, key: Key)
    requires bits > 0
  {
    || Probes(seed, bits, key) <= Probed(seed, bits, w.current)
    || Probes(seed, bits, key) <= Probed(seed, bits, w.previous)
  }

  /** A marked key is always seen, whatever collides with it. */
  lemma NoFalseNegatives(seed: Seed, bits: nat, w: Windows, key: Key)
    requires bits > 0 && key in w.current + w.previous
    ensures Seen(seed, bits, w, key)
  {
    if key in w.current {
      ProbesIncluded(seed, bits, w.current, key);
    } else {
      ProbesIncluded(seed, bits, w.previous, key);
    }
  }

  lemma ProbesIncluded(seed: Seed, bits: nat, keys: set<Key>, key: Key)
    requires bits > 0 && key in keys
    ensures Probes(seed, bits, key) <= Probed(seed, bits, keys)
  {
    forall p | p in Probes(seed, bits, key) ensures p in Probed(seed, bits, keys) {
      var i :| 0 <= i < PROBES && p == Position(seed(key), bits, i);
    }
  }

  function MarkAll(w: Windows, keys: set<Key>): Windows {
    w.(current := w.current + keys)
  }

  /** A mark is seen until the second rotation after it, whatever else is marked meanwhile. */
  lemma MarkSurvivesOneRotation(seed: Seed, bits: nat, w: Windows, key: Key, others: set<Key>, later: set<Key>)
    requires bits > 0
    ensures Seen(seed, bits, MarkAll(Mark(w, key), others), key)
    ensures Seen(seed, bits, MarkAll(Rotate(MarkAll(Mark(w, key), others)), later), key)
    ensures !Seen(seed, bits, Rotate(Rotate(w)), key)
  {
    var marked := MarkAll(Mark(w, key), others);
    NoFalseNegatives(seed, bits, marked, key);
    NoFalseNegatives(seed, bits, MarkAll(Rotate(marked), later), key);
    assert Position(seed(key), bits, 0) in Probes(seed, bits, key);
    assert Probed(seed, bits, {}) == {};
  }

  // ----- where the probes fall -----

  lemma QuotientOf(x: nat, b: nat) returns (q: nat)
    requires b > 0
    ensures x == q * b + x % b
  {
    q := x / b;
  }

  lemma Quadruple(q: nat, b: nat, m: nat)
    requires b == 4 * m
    ensures q * b == 4 * (q * m)
  {
  }

  lemma FourApart(x: nat, r: nat, t: nat)
    requires x == 4 * t + r
    ensures x % 4 == r % 4
  {
  }

  lemma ModOfMultiple(x: nat, b: nat, m: nat)
    requires b == 4 * m && m > 0
    ensures (x % b) % 4 == x % 4
  {
    var q := QuotientOf(x, b);
    var r, t := x % b, q * m;
    Quadruple(q, b, m);
    FourApart(x, r, t);
  }

  /**
   * The halves of the hash are taken apart as they are: the low one starts, the high one made odd
   * steps, and no sum of four probes leaves 64 bits.
   */
  lemma PositionIs(low: U32, high: U32, bits: nat, probe: nat)
    requires bits > 0 && probe < 4
    ensures Position(high * 0x1_0000_0000 + low, bits, probe)
            == (low + probe * if high % 2 == 1 then high else high + 1) % bits
  {
    var seed := high * 0x1_0000_0000 + low;
    assert seed % TWO_32 == low && seed / TWO_32 == high;
    var step := high / 2 * 2 + 1;
    assert step == if high % 2 == 1 then high else high + 1;
    assert step * probe <= 0x1_0000_0000 * 3 && low + step * probe <= U64_MAX;
  }

  lemma OddSteps(start: nat, step: nat, i: nat, j: nat)
    requires step % 2 == 1 && i < j < 4
    ensures (start + i * step) % 4 != (start + j * step) % 4
  {
    var half := step / 2;
    assert step == 2 * half + 1;
    assert j * step - i * step == (j - i) * step;
    if j - i == 1 {
      assert (j - i) * step == 2 * half + 1;
    } else if j - i == 2 {
      assert (j - i) * step == 4 * half + 2;
    } else {
      assert (j - i) * step == 6 * half + 3;
    }
  }

  lemma Halves(hash: U64) returns (low: U32, high: U32)
    ensures hash == high * 0x1_0000_0000 + low
  {
    low, high := hash % TWO_32, hash / TWO_32;
  }

  lemma SlotsDistinct(x: nat, y: nat, b: nat, m: nat)
    requires b == 4 * m && m > 0 && x % 4 != y % 4
    ensures x % b != y % b
  {
    ModOfMultiple(x, b, m);
    ModOfMultiple(y, b, m);
  }

  /** Every key probes four different slots of a filter of whole words. */
  lemma ProbesAreFour(hash: U64, words: nat, i: nat, j: nat)
    requires words > 0 && i < j < 4
    ensures Position(hash, 64 * words, i) != Position(hash, 64 * words, j)
  {
    var low, high := Halves(hash);
    HalvesApart(low, high, 64 * words, 16 * words, i, j);
  }

  lemma HalvesApart(low: U32, high: U32, bits: nat, m: nat, i: nat, j: nat)
    requires bits == 4 * m && m > 0 && i < j < 4
    ensures Position(high * 0x1_0000_0000 + low, bits, i) != Position(high * 0x1_0000_0000 + low, bits, j)
  {
    var step := if high % 2 == 1 then high else high + 1;
    var x, y := low + i * step, low + j * step;
    assert x % 4 != y % 4 by {
      OddSteps(low, step, i, j);
    }
    SlotsDistinct(x, y, bits, m);
    PositionIs(low, high, bits, i);
    PositionIs(low, high, bits, j);
  }

  lemma SmallMod(x: nat, bits: nat)
    requires x < bits
    ensures x % bits == x
  {
  }

  lemma SmallPosition(low: U32, bits: nat, probe: nat)
    requires probe < 4 && low + probe < bits
    ensures Position(low, bits, probe) == low + probe
  {
    assert Position(0 * 0x1_0000_0000 + low, bits, probe) == (low + probe * 1) % bits by {
      PositionIs(low, 0, bits, probe);
    }
    SmallMod(low + probe, bits);
  }

  /** Keys whose hashes send them to different slots are told apart: marking one does not show the other. */
  lemma MarksAreTold(seed: Seed, bits: nat, marked: Key, other: Key)
    requires bits >= 64 && seed(marked) == 0 && seed(other) == 4
    ensures Seen(seed, bits, Mark(Windows({}, {}), marked), marked)
    ensures !Seen(seed, bits, Mark(Windows({}, {}), marked), other)
  {
    NoFalseNegatives(seed, bits, Mark(Windows({}, {}), marked), marked);
    SmallPosition(4, bits, 0);
    assert Position(4, bits, 0) in Probes(seed, bits, other);
    forall i: nat | i < 4 ensures Position(0, bits, i) != 4 {
      SmallPosition(0, bits, i);
    }
    assert 4 !in Probed(seed, bits, {marked});
    assert Probed(seed, bits, {}) == {};
  }

  class Filters {
    const seed: Seed
    const bits: nat
    const filter0: array<bv64>
    const filter1: array<bv64>
    var active: nat
    ghost var windows: Windows

    function Filter(index: nat): array<bv64> {
      if index == 0 then filter0 else filter1
    }

    /** Each packed filter holds exactly the probe bits of the marks of its window. */
    ghost predicate Valid()
      reads this, filter0, filter1
    {
      && bits > 0 && active < 2 && filter0 != filter1
      && 64 * filter0.Length == bits == 64 * filter1.Length
      && Slots(Filter(active)[..]) == Probed(seed, bits, windows.current)
      && Slots(Filter(1 - active)[..]) == Probed(seed, bits, windows.previous)
    }

    constructor (bits: nat, seed: Seed)
      requires bits > 0
      ensures Valid() && fresh(filter0) && fresh(filter1) && windows == Windows({}, {})
      ensures this.seed == seed && bits <= this.bits < bits + 64
    {
      var words := (bits + 63) / 64;
      var zero := new bv64[words](_ => 0);
      var one := new bv64[words](_ => 0);
      this.seed := seed;
      this.bits := words * 64;
      filter0, filter1 := zero, one;
      active := 0;
      windows := Windows({}, {});
      new;
      SlotsCleared(filter0[..]);
      SlotsCleared(filter1[..]);
      assert Probed(this.seed, this.bits, {}) == {};
    }

    method MarkUse(key: Key)
      requires Valid()
      modifies this, Filter(active)
      ensures Valid() && windows == Mark(old(windows), key) && active == old(active)
    {
      var filter := Filter(active);
      ghost var before := Slots(filter[..]);
      ghost var probed: set<nat> := {};
      for probe := 0 to PROBES
        invariant windows == old(windows) && active == old(active)
        invariant probed == set i | 0 <= i < probe :: Position(seed(key), bits, i)
        invariant Slots(filter[..]) == before + probed
        invariant Slots(Filter(1 - active)[..]) == Probed(seed, bits, windows.previous)
      {
        var position := Position(seed(key), bits, probe);
        SlotsAfterSet(filter[..], position);
        ghost var words := filter[..];
        filter[position / 64] := SetBit(filter[position / 64], Offset(position));
        assert filter[..] == words[position / 64 := SetBit(words[position / 64], Offset(position))];
        probed := probed + {position};
      }
      windows := Mark(windows, key);
      assert probed == Probes(seed, bits, key);
      assert Probed(seed, bits, windows.current) == before + probed;
    }

    /** The next window starts from an empty filter; the marks of this one stay for one more. */
    method RotateWindows()
      requires Valid()
      modifies this, Filter(1 - active)
      ensures Valid() && windows == Rotate(old(windows)) && active == 1 - old(active)
    {
      var next := 1 - active;
      var filter := Filter(next);
      for i := 0 to filter.Length
        invariant windows == old(windows) && active == old(active)
        invariant forall k :: 0 <= k < i ==> filter[k] == 0
        invariant Slots(Filter(active)[..]) == Probed(seed, bits, windows.current)
      {
        filter[i] := 0;
      }
      SlotsCleared(filter[..]);
      assert Probed(seed, bits, {}) == {};
      active := next;
      windows := Rotate(windows);
    }

    method Contains(index: nat, key: Key) returns (all: bool)
      requires Valid() && index < 2
      ensures all <==> Probes(seed, bits, key) <= Slots(Filter(index)[..])
    {
      var filter := Filter(index);
      all := true;
      for probe := 0 to PROBES
        invariant all <==> forall i :: 0 <= i < probe ==> Position(seed(key), bits, i) in Slots(filter[..])
      {
        var position := Position(seed(key), bits, probe);
        all := all && Bit(filter[position / 64], Offset(position));
      }
    }

    method SeenRecently(key: Key) returns (seen: bool)
      requires Valid()
      ensures seen <==> Seen(seed, bits, windows, key)
    {
      seen := Contains(0, key);
      if !seen {
        seen := Contains(1, key);
      }
    }
  }
}
