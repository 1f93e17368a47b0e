/**
 * The versioned routing key (src/agent/ring.rs:11-29): each part behind its two-byte length. The
 * length prefixes make it uniquely decodable, so distinct objects never share a key.
 */
module RoutingKey {
  import opened Words
  import opened Bytes

  const PART_MAX: nat := 0xFFFF

  /** "flywheel-routing-v1" in ASCII. */
  const ROUTING_VERSION: Text :=
    [102, 108, 121, 119, 104, 101, 101, 108, 45, 114, 111, 117, 116, 105, 110, 103, 45, 118, 49]

  function LengthPrefix(n: nat): Text
    requires n <= PART_MAX
  {
    [n / 256, n % 256]
  }

  predicate Fits(parts: seq<Text>) {
    forall i :: 0 <= i < |parts| ==> |parts[i]| <= PART_MAX
  }

  function Encoded(parts: seq<Text>): Text
    requires Fits(parts)
  {
    if parts == [] then [] else LengthPrefix(|parts[0]|) + parts[0] + Encoded(parts[1..])
  }

  /** Where the first part ends, by the length written before it. */
  function PartEnd(key: Text): nat
    requires |key| >= 2
  {
    var high: nat, low: nat := key[0], key[1];
    2 + 256 * high + low
  }

  /** Reads parts back while each declared length fits in what is left. */
  function Decoded(key: Text): Option<seq<Text>>
    decreases |key|
  {
    if key == [] then Some([])
    else if |key| < 2 || |key| < PartEnd(key) then None
    else
      var end := PartEnd(key);
      var later := Decoded(key[end..]);
      if later.None? then None else Some([key[2..end]] + later.value)
  }

  lemma {:induction false} DecodingInverts(parts: seq<Text>)
    requires Fits(parts)
    ensures Decoded(Encoded(parts)) == Some(parts)
  {
    if parts != [] {
      DecodingInverts(parts[1..]);
      var key, end := Encoded(parts), 2 + |parts[0]|;
      assert key[0] == |parts[0]| / 256 && key[1] == |parts[0]| % 256 && PartEnd(key) == end;
      assert key[2..end] == parts[0] && key[end..] == Encoded(parts[1..]);
      assert [parts[0]] + parts[1..] == parts;
    }
  }

  lemma EncodedStep(parts: seq<Text>, i: nat, bytes: Text)
    requires Fits(parts) && i < |parts| && bytes + Encoded(parts[i..]) == Encoded(parts)
    ensures (bytes + LengthPrefix(|parts[i]|) + parts[i]) + Encoded(parts[i + 1..]) == Encoded(parts)
  {
    assert parts[i..][1..] == parts[i + 1..];
    var prefix, part, later := LengthPrefix(|parts[i]|), parts[i], Encoded(parts[i + 1..]);
    assert bytes + (prefix + part + later) == (bytes + prefix + part) + later;
  }

  /** The loop of `routing_key`: none exactly when a part is too long for its prefix. */
  method EncodeParts(parts: seq<Text>) returns (key: Option<Text>)
    ensures key.Some? <==> Fits(parts)
    ensures key.Some? ==> key.value == Encoded(parts) && Decoded(key.value) == Some(parts)
  {
    var bytes := [];
    for i := 0 to |parts|
      invariant forall j :: 0 <= j < i ==> |parts[j]| <= PART_MAX
      invariant Fits(parts) ==> bytes + Encoded(parts[i..]) == Encoded(parts)
    {
      if |parts[i]| > PART_MAX {
        return None;
      }
      if Fits(parts) {
        EncodedStep(parts, i, bytes);
      }
      bytes := bytes + LengthPrefix(|parts[i]|) + parts[i];
    }
    DecodingInverts(parts);
    return Some(bytes);
  }

  lemma ThreeParts(a: Text, b: Text, c: Text)
    requires |a| <= PART_MAX && |b| <= PART_MAX && |c| <= PART_MAX
    ensures Fits([a, b, c])
    ensures Encoded([a, b, c]) ==
            LengthPrefix(|a|) + a + LengthPrefix(|b|) + b + LengthPrefix(|c|) + c
  {
    var parts := [a, b, c];
    assert parts[1..] == [b, c] && [b, c][1..] == [c] && [c][1..] == [];
    assert Encoded([c]) == LengthPrefix(|c|) + c + [];
    assert Encoded([b, c]) == LengthPrefix(|b|) + b + Encoded([c]);
  }

  /** `routing_key` of an object. */
  method RoutingKey(kind: Text, id: Text) returns (key: Option<Text>)
    ensures key.Some? <==> |kind| <= 65535 && |id| <= 65535
    ensures key.Some? ==> Decoded(key.value) == Some([ROUTING_VERSION, kind, id])
    ensures key.Some? ==>
              key.value ==
              [0, 19] + [102, 108, 121, 119, 104, 101, 101, 108, 45, 114, 111, 117, 116, 105, 110, 103, 45, 118, 49]
              + [|kind| / 256, |kind| % 256] + kind + [|id| / 256, |id| % 256] + id
  {
    var parts := [ROUTING_VERSION, kind, id];
    key := EncodeParts(parts);
    assert parts[1] == kind && parts[2] == id;
    if key.Some? {
      ThreeParts(ROUTING_VERSION, kind, id);
    }
  }

  /** Two objects share a routing key only when they are the same object. */
  lemma KeysDistinguish(kindA: Text, idA: Text, kindB: Text, idB: Text)
    requires Fits([ROUTING_VERSION, kindA, idA]) && Fits([ROUTING_VERSION, kindB, idB])
    ensures Encoded([ROUTING_VERSION, kindA, idA]) == Encoded([ROUTING_VERSION, kindB, idB]) <==>
            kindA == kindB && idA == idB
  {
    var a, b := [ROUTING_VERSION, kindA, idA], [ROUTING_VERSION, kindB, idB];
    DecodingInverts(a);
    DecodingInverts(b);
    assert a[1] == kindA && a[2] == idA && b[1] == kindB && b[2] == idB;
  }
}
