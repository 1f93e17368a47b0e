/**
 * Durable key bytes (src/storage/metadata/rocksdb.rs:221-249 and 436-497): encoders, the range that
 * holds one channel, and the ordered scan of an eviction queue.
 */
module StoreKeys {
  import opened Words
  import opened Bytes
  import opened Identity
  import opened Sorting
  import opened Store

  // ----- big-endian integers -----

  function Span(count: nat): nat {
    if count == 0 then 1 else 256 * Span(count - 1)
  }

  function BigEndian(n: nat, count: nat): (r: Text)
    requires n < Span(count)
    ensures |r| == count
    decreases count
  {
    if count == 0 then [] else BigEndian(n / 256, count - 1) + [n % 256]
  }

  function FromBigEndian(bytes: Text): (n: nat)
    ensures n < Span(|bytes|)
  {
    if bytes == [] then 0
    else 256 * FromBigEndian(bytes[..|bytes| - 1]) + bytes[|bytes| - 1]
  }

  lemma {:induction false} BigEndianRoundTrip(n: nat, count: nat)
    requires n < Span(count)
    ensures FromBigEndian(BigEndian(n, count)) == n
    decreases count
  {
    if count > 0 {
      BigEndianRoundTrip(n / 256, count - 1);
      var front := BigEndian(n / 256, count - 1);
      assert (front + [n % 256])[..count - 1] == front;
    }
  }

  lemma LastDigitOrder(a: Text, b: Text, x: Byte, y: Byte)
    requires |a| == |b|
    ensures Leq(a + [x], b + [y]) <==> Less(a, b) || (a == b && x <= y)
  {
    LeqByPrefix(a, b, [x], [y]);
  }

  /** Byte strings of one length order as the numbers they spell. */
  lemma {:induction false} DigitsOrder(a: Text, b: Text)
    requires |a| == |b|
    ensures Leq(a, b) <==> FromBigEndian(a) <= FromBigEndian(b)
    decreases |a|
  {
    if a != [] {
      var last := |a| - 1;
      DigitsOrder(a[..last], b[..last]);
      DigitsOrder(b[..last], a[..last]);
      assert a == a[..last] + [a[last]] && b == b[..last] + [b[last]];
      LastDigitOrder(a[..last], b[..last], a[last], b[last]);
      LessIsNotGeq(a[..last], b[..last]);
      LeqReflexive(a[..last]);
    }
  }

  lemma BigEndianOrder(n: nat, m: nat, count: nat)
    requires n < Span(count) && m < Span(count)
    ensures Leq(BigEndian(n, count), BigEndian(m, count)) <==> n <= m
  {
    BigEndianRoundTrip(n, count);
    BigEndianRoundTrip(m, count);
    DigitsOrder(BigEndian(n, count), BigEndian(m, count));
  }

  lemma U64Span()
    ensures Span(8) == U64_MAX + 1
  {
    assert Span(4) == 0x1_0000_0000;
    assert Span(6) == 0x1_0000_0000_0000;
  }

  // ----- keys -----

  const DEADLINE_AT: nat := ULID_LEN
  const DIGEST_AT: nat := DEADLINE_AT + 8

  function DeadlineBytes(deadline: U64): (r: Text)
    ensures |r| == 8
  {
    U64Span();
    BigEndian(deadline, 8)
  }

  function ArtifactBytes(k: ArtifactKey): Text {
    k.channel + k.artifact
  }

  function ReferenceBytes(k: ReferenceKey): Text {
    k.channel + k.name
  }

  function RowBytes(r: QueueRow): Text {
    r.channel + DeadlineBytes(r.eligibleAt) + r.artifact
  }

  datatype Candidate = Candidate(eligibleAt: U64, artifact: Digest)

  /** Deadline and artifact of a queue key; any other length is an invalid key. */
  function DecodeRow(key: Text): Option<Candidate> {
    if |key| != DIGEST_AT + DIGEST_LEN then None
    else
      U64Span();
      Some(Candidate(FromBigEndian(key[DEADLINE_AT..DIGEST_AT]), key[DIGEST_AT..]))
  }

  lemma RowRoundTrip(r: QueueRow)
    ensures DecodeRow(RowBytes(r)) == Some(Candidate(r.eligibleAt, r.artifact))
    ensures RowBytes(r)[..ULID_LEN] == r.channel
    ensures |RowBytes(r)| == 66 && RowBytes(r)[34..] == r.artifact
  {
    U64Span();
    BigEndianRoundTrip(r.eligibleAt, 8);
    var key := RowBytes(r);
    assert key[DEADLINE_AT..DIGEST_AT] == DeadlineBytes(r.eligibleAt);
    assert key[DIGEST_AT..] == r.artifact;
  }

  predicate CandidateLeq(a: Candidate, b: Candidate) {
    a.eligibleAt < b.eligibleAt || (a.eligibleAt == b.eligibleAt && Leq(a.artifact, b.artifact))
  }

  /** Within a channel, byte order of the keys is numeric (deadline, digest) order. */
  lemma RowOrder(a: QueueRow, b: QueueRow)
    requires a.channel == b.channel
    ensures Leq(RowBytes(a), RowBytes(b)) <==>
            CandidateLeq(Candidate(a.eligibleAt, a.artifact), Candidate(b.eligibleAt, b.artifact))
  {
    U64Span();
    var da, db := DeadlineBytes(a.eligibleAt), DeadlineBytes(b.eligibleAt);
    assert RowBytes(a) == a.channel + (da + a.artifact) && RowBytes(b) == b.channel + (db + b.artifact);
    LeqByPrefix(a.channel, b.channel, da + a.artifact, db + b.artifact);
    LeqByPrefix(da, db, a.artifact, b.artifact);
    BigEndianOrder(a.eligibleAt, b.eligibleAt, 8);
    BigEndianOrder(b.eligibleAt, a.eligibleAt, 8);
    LeqReflexive(da);
  }

  // ----- the range of one channel -----

  /** Exclusive upper bound of a channel's keys: the last byte incremented, which never carries. */
  function PrefixEnd(c: ChannelId): (end: Text)
    ensures |end| == ULID_LEN
  {
    c[..ULID_LEN - 1] + [c[ULID_LEN - 1] + 1]
  }

  predicate InRange(c: ChannelId, key: Text) {
    Leq(c, key) && Less(key, PrefixEnd(c))
  }

  /** The bound is the successor of the channel among texts of channel length. */
  lemma PrefixEndIsNext(c: ChannelId, other: ChannelId)
    ensures Leq(PrefixEnd(c), other) <==> Less(c, other)
  {
    var head: Text, x := c[..ULID_LEN - 1], c[ULID_LEN - 1];
    var head': Text, y := other[..ULID_LEN - 1], other[ULID_LEN - 1];
    LastDigitOrder(head, head', x, y);
    LastDigitOrder(head, head', x + 1, y);
    assert c == head + [x] && other == head' + [y] && PrefixEnd(c) == head + [x + 1];
  }

  /** Among channel-prefixed keys, the range holds exactly the keys of that channel. */
  lemma RangeIsChannel(c: ChannelId, other: ChannelId, rest: Text)
    ensures InRange(c, other + rest) <==> other == c
    ensures Less(c, other) ==> Leq(PrefixEnd(c), other + rest)
  {
    var end, key := PrefixEnd(c), other + rest;
    assert Leq(c, key) <==> Leq(c, other) by {
      assert c + [] == c;
      LeqByPrefix(c, other, [], rest);
      LeqReflexive(c);
    }
    assert Leq(end, key) <==> Leq(end, other) by {
      assert end + [] == end;
      LeqByPrefix(end, other, [], rest);
      LeqReflexive(end);
    }
    LessIsNotGeq(key, end);
    PrefixEndIsNext(c, other);
    LeqReflexive(c);
  }

  /** A column family stores a table under a channel-prefixed key encoding. */
  ghost predicate Represents<K(!new), V>(family: map<Text, V>, table: map<K, V>, key: K -> Text) {
    && (forall k :: k in table ==> key(k) in family && family[key(k)] == table[k])
    && (forall b :: b in family ==> exists k :: k in table && key(k) == b)
  }

  ghost predicate ChannelPrefixed<K(!new)>(key: K -> Text, channel: K -> ChannelId) {
    forall k :: |key(k)| >= ULID_LEN && key(k)[..ULID_LEN] == channel(k)
  }

  /** `delete_range_cf(prefix, prefix_end)` removes exactly one channel from a column family. */
  lemma RangeDeleteRemovesChannel<K(!new), V>(
    family: map<Text, V>, table: map<K, V>, key: K -> Text, channel: K -> ChannelId, c: ChannelId)
    requires Represents(family, table, key) && ChannelPrefixed(key, channel)
    ensures Represents(map b | b in family && !InRange(c, b) :: family[b],
                       map k | k in table && channel(k) != c :: table[k], key)
  {
    forall k: K ensures InRange(c, key(k)) <==> channel(k) == c {
      RangeIsChannel(c, channel(k), key(k)[ULID_LEN..]);
      assert key(k) == channel(k) + key(k)[ULID_LEN..];
    }
  }

  lemma KeysAreChannelPrefixed()
    ensures ChannelPrefixed(ArtifactBytes, (k: ArtifactKey) => k.channel)
    ensures ChannelPrefixed(ReferenceBytes, (k: ReferenceKey) => k.channel)
    ensures ChannelPrefixed(RowBytes, (r: QueueRow) => r.channel)
  {
    forall r: QueueRow ensures RowBytes(r)[..ULID_LEN] == r.channel {
      RowRoundTrip(r);
    }
  }

  /** No two records or names of a family share a key. */
  lemma KeysDistinguish(a: ArtifactKey, b: ArtifactKey, x: ReferenceKey, y: ReferenceKey)
    ensures ArtifactBytes(a) == ArtifactBytes(b) <==> a == b
    ensures ReferenceBytes(x) == ReferenceBytes(y) <==> x == y
  {
    assert ArtifactBytes(a)[..26] == a.channel && ArtifactBytes(a)[26..] == a.artifact;
    assert ArtifactBytes(b)[..26] == b.channel && ArtifactBytes(b)[26..] == b.artifact;
    assert ReferenceBytes(x)[..26] == x.channel && ReferenceBytes(x)[26..] == x.name;
    assert ReferenceBytes(y)[..26] == y.channel && ReferenceBytes(y)[26..] == y.name;
  }

  // ----- the ordered queue of one channel -----

  function QueueOf(eviction: set<QueueRow>, c: ChannelId): set<Candidate> {
    set r | r in eviction && r.channel == c :: Candidate(r.eligibleAt, r.artifact)
  }

  lemma CandidateOrder()
    ensures TotalOrder(CandidateLeq)
  {
    OrderIsTotal();
  }

  /** The candidates in (deadline, digest) order. */
  ghost function Listing(s: set<Candidate>): (r: seq<Candidate>)
    ensures StrictlySorted(r, CandidateLeq) && |r| == |s| && forall x :: x in r <==> x in s
  {
    if s == {} then []
    else
      var least := LeastCandidate(s);
      var rest := Listing(s - {least});
      LeastFirst(s, least, rest);
      [least] + rest
  }

  lemma LeastFirst(s: set<Candidate>, least: Candidate, rest: seq<Candidate>)
    requires least in s && forall y :: y in s ==> CandidateLeq(least, y)
    requires StrictlySorted(rest, CandidateLeq) && forall x :: x in rest <==> x in s - {least}
    ensures StrictlySorted([least] + rest, CandidateLeq) && forall x :: x in [least] + rest <==> x in s
  {
    assert forall k :: 0 <= k < |rest| ==> rest[k] in s - {least};
  }

  ghost function LeastCandidate(s: set<Candidate>): (least: Candidate)
    requires s != {}
    ensures least in s && forall y :: y in s ==> CandidateLeq(least, y)
  {
    CandidateOrder();
    assert exists x :: x in s && forall y :: y in s ==> CandidateLeq(x, y) by {
      var x := LeastExists(s, CandidateLeq);
    }
    var x :| x in s && forall y :: y in s ==> CandidateLeq(x, y);
    x
  }

  /** The first `limit` entries of a channel's queue. */
  ghost function Heads(eviction: set<QueueRow>, c: ChannelId, limit: nat): (r: seq<Candidate>)
    ensures r <= Listing(QueueOf(eviction, c)) && |r| == Min(limit, |QueueOf(eviction, c)|)
  {
    var all := Listing(QueueOf(eviction, c));
    all[..Min(limit, |all|)]
  }

  /** An iterator over the family from a key on: all later keys, in byte order. */
  method Iterate(keys: set<Text>, from: Text) returns (listing: seq<Text>)
    ensures StrictlySorted(listing, Leq)
    ensures forall k :: k in listing <==> k in keys && Leq(from, k)
  {
    listing := [];
    var rest := keys;
    OrderIsTotal();
    while rest != {}
      invariant rest <= keys && Sorted(listing, Leq)
      invariant forall k :: k in listing <==> k in keys - rest && Leq(from, k)
      invariant forall i, j :: 0 <= i < j < |listing| ==> listing[i] != listing[j]
    {
      var k :| k in rest;
      if Leq(from, k) {
        assert k !in listing;
        InsertSorted(k, listing, Leq);
        InsertDistinct(k, listing);
        listing := Insert(k, listing, Leq);
      }
      rest := rest - {k};
    }
  }

  lemma {:induction false} InsertDistinct(x: Text, s: seq<Text>)
    requires x !in s && forall i, j :: 0 <= i < j < |s| ==> s[i] != s[j]
    ensures forall i, j :: 0 <= i < j < |Insert(x, s, Leq)| ==> Insert(x, s, Leq)[i] != Insert(x, s, Leq)[j]
    ensures forall k :: k in Insert(x, s, Leq) <==> k == x || k in s
  {
    if s != [] && !Leq(x, s[0]) {
      InsertDistinct(x, s[1..]);
      assert s == [s[0]] + s[1..];
      var r := Insert(x, s[1..], Leq);
      assert s[0] !in r;
      assert forall j :: 0 <= j < |r| ==> r[j] != s[0];
    }
  }

  function Encoded(eviction: set<QueueRow>): set<Text> {
    set r | r in eviction :: RowBytes(r)
  }

  /** A stored key under the prefix decodes to the row it came from. */
  lemma PrefixedRow(eviction: set<QueueRow>, c: ChannelId, key: Text)
    requires key in Encoded(eviction) && c <= key
    ensures DecodeRow(key).Some?
    ensures key == RowBytes(QueueRow(c, DecodeRow(key).value.eligibleAt, DecodeRow(key).value.artifact))
  {
    var r :| r in eviction && RowBytes(r) == key;
    RowRoundTrip(r);
    assert r.channel == c;
  }

  ghost predicate RowsAt(listing: seq<Text>, c: ChannelId, decoded: seq<Candidate>) {
    && |decoded| <= |listing|
    && forall i :: 0 <= i < |decoded| ==>
         listing[i] == RowBytes(QueueRow(c, decoded[i].eligibleAt, decoded[i].artifact))
  }

  lemma RowsAtNext(listing: seq<Text>, c: ChannelId, decoded: seq<Candidate>, x: Candidate)
    requires RowsAt(listing, c, decoded) && |decoded| < |listing|
    requires listing[|decoded|] == RowBytes(QueueRow(c, x.eligibleAt, x.artifact))
    ensures RowsAt(listing, c, decoded + [x])
  {
  }

  /** Iterates from the channel's prefix and decodes keys until the prefix ends or `limit` is reached. */
  method ReclaimCandidates(eviction: set<QueueRow>, c: ChannelId, limit: nat) returns (candidates: seq<Candidate>)
    ensures candidates == Heads(eviction, c, limit)
  {
    var listing := Iterate(Encoded(eviction), c);
    candidates := [];
    var i := 0;
    while i < |listing| && c <= listing[i] && |candidates| < limit
      invariant i == |candidates| <= |listing| && |candidates| <= limit
      invariant RowsAt(listing, c, candidates)
    {
      assert listing[i] in listing;
      PrefixedRow(eviction, c, listing[i]);
      RowsAtNext(listing, c, candidates, DecodeRow(listing[i]).value);
      candidates := candidates + [DecodeRow(listing[i]).value];
      i := i + 1;
    }
    ScanIsHeads(eviction, c, limit, listing, candidates);
  }

  /** A run of decoded keys that stops at the limit or at the end of the prefix is the queue's head. */
  lemma ScanIsHeads(
    eviction: set<QueueRow>, c: ChannelId, limit: nat, listing: seq<Text>, candidates: seq<Candidate>)
    requires StrictlySorted(listing, Leq) && RowsAt(listing, c, candidates) && |candidates| <= limit
    requires forall k :: k in listing <==> k in Encoded(eviction) && Leq(c, k)
    requires |candidates| == |listing| || !(c <= listing[|candidates|]) || |candidates| == limit
    ensures candidates == Heads(eviction, c, limit)
  {
    var all := ScanOn(eviction, c, listing, candidates);
    assert all == Listing(QueueOf(eviction, c)) by {
      WholeScan(eviction, c, listing, all);
    }
    assert |candidates| == Min(limit, |all|);
    SamePrefix(candidates, Heads(eviction, c, limit), all);
  }

  lemma SamePrefix(a: seq<Candidate>, b: seq<Candidate>, whole: seq<Candidate>)
    requires a <= whole && b <= whole && |a| == |b|
    ensures a == b
  {
  }

  /** Carries the scan on, past any limit, to the end of the prefix. */
  lemma {:induction false} ScanOn(
    eviction: set<QueueRow>, c: ChannelId, listing: seq<Text>, decoded: seq<Candidate>)
    returns (all: seq<Candidate>)
    requires RowsAt(listing, c, decoded)
    requires forall k :: k in listing ==> k in Encoded(eviction)
    ensures decoded <= all && RowsAt(listing, c, all)
    ensures |all| == |listing| || !(c <= listing[|all|])
    ensures |decoded| == |listing| || !(c <= listing[|decoded|]) ==> all == decoded
    decreases |listing| - |decoded|
  {
    var n := |decoded|;
    if n == |listing| || !(c <= listing[n]) {
      return decoded;
    }
    assert listing[n] in listing;
    PrefixedRow(eviction, c, listing[n]);
    RowsAtNext(listing, c, decoded, DecodeRow(listing[n]).value);
    all := ScanOn(eviction, c, listing, decoded + [DecodeRow(listing[n]).value]);
  }

  lemma WholeScan(eviction: set<QueueRow>, c: ChannelId, listing: seq<Text>, decoded: seq<Candidate>)
    requires StrictlySorted(listing, Leq) && RowsAt(listing, c, decoded)
    requires forall k :: k in listing <==> k in Encoded(eviction) && Leq(c, k)
    requires |decoded| == |listing| || !(c <= listing[|decoded|])
    ensures decoded == Listing(QueueOf(eviction, c))
  {
    CandidateOrder();
    forall i, j | 0 <= i < j < |decoded| ensures CandidateLeq(decoded[i], decoded[j]) && decoded[i] != decoded[j] {
      RowOrder(QueueRow(c, decoded[i].eligibleAt, decoded[i].artifact),
               QueueRow(c, decoded[j].eligibleAt, decoded[j].artifact));
    }
    forall x ensures x in decoded <==> x in QueueOf(eviction, c) {
      if x in decoded {
        DecodedIsQueued(eviction, c, listing, decoded, x);
      }
      if x in QueueOf(eviction, c) {
        QueuedIsDecoded(eviction, c, listing, decoded, x);
      }
    }
    ListingUnique(decoded, Listing(QueueOf(eviction, c)), CandidateLeq);
  }

  lemma DecodedIsQueued(
    eviction: set<QueueRow>, c: ChannelId, listing: seq<Text>, decoded: seq<Candidate>, x: Candidate)
    requires RowsAt(listing, c, decoded) && x in decoded
    requires forall k :: k in listing ==> k in Encoded(eviction)
    ensures x in QueueOf(eviction, c)
  {
    var i :| 0 <= i < |decoded| && decoded[i] == x;
    assert listing[i] in listing;
    var r :| r in eviction && RowBytes(r) == listing[i];
    RowRoundTrip(r);
    RowRoundTrip(QueueRow(c, x.eligibleAt, x.artifact));
  }

  lemma QueuedIsDecoded(
    eviction: set<QueueRow>, c: ChannelId, listing: seq<Text>, decoded: seq<Candidate>, x: Candidate)
    requires StrictlySorted(listing, Leq) && RowsAt(listing, c, decoded) && x in QueueOf(eviction, c)
    requires forall k :: k in listing <==> k in Encoded(eviction) && Leq(c, k)
    requires |decoded| == |listing| || !(c <= listing[|decoded|])
    ensures x in decoded
  {
    var r := QueueRow(c, x.eligibleAt, x.artifact);
    assert r in eviction;
    RowRoundTrip(r);
    var key := RowBytes(r);
    assert Leq(c, key) by {
      RangeIsChannel(c, c, key[ULID_LEN..]);
      assert key == c + key[ULID_LEN..];
    }
    assert key in listing;
    var i :| 0 <= i < |listing| && listing[i] == key;
    assert c <= listing[i];
    if |decoded| < i {
      assert listing[|decoded|] in listing;
      StopIsPast(eviction, listing[|decoded|], r);
    }
    RowRoundTrip(QueueRow(c, decoded[i].eligibleAt, decoded[i].artifact));
  }

  /** A listed key of another channel lies past every key of this one. */
  lemma StopIsPast(eviction: set<QueueRow>, stop: Text, r: QueueRow)
    requires stop in Encoded(eviction) && Leq(r.channel, stop) && !(r.channel <= stop)
    ensures !Leq(stop, RowBytes(r))
  {
    var c, key := r.channel, RowBytes(r);
    assert Leq(PrefixEnd(c), stop) by {
      var s :| s in eviction && RowBytes(s) == stop;
      RowRoundTrip(s);
      assert stop == s.channel + stop[ULID_LEN..];
      RangeIsChannel(c, s.channel, stop[ULID_LEN..]);
      LessIsNotGeq(stop, PrefixEnd(c));
    }
    assert !Leq(PrefixEnd(c), key) by {
      RowRoundTrip(r);
      assert key == c + key[ULID_LEN..];
      RangeIsChannel(c, c, key[ULID_LEN..]);
      LessIsNotGeq(key, PrefixEnd(c));
    }
    if Leq(stop, key) {
      LeqTransitive(PrefixEnd(c), stop, key);
    }
  }
}
