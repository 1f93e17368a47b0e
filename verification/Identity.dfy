/** Channel and artifact identities (src/channel/identity.rs, src/artifact/identity.rs). */
module Identity {
  import opened Bytes

  const ULID_LEN: nat := 26
  const DIGEST_LEN: nat := 32

  /** Bytes of the Crockford base32 alphabet: digits and capitals without I, L, O and U. */
  predicate Crockford(b: Byte) {
    48 <= b <= 57 || (65 <= b <= 90 && b != 73 && b != 76 && b != 79 && b != 85)
  }

  predicate Canonical(key: Text) {
    |key| == ULID_LEN && forall i :: 0 <= i < |key| ==> Crockford(key[i])
  }

  const NIL: Text := [48, 48, 48, 48, 48, 48, 48, 48, 48, 48, 48, 48, 48,
                      48, 48, 48, 48, 48, 48, 48, 48, 48, 48, 48, 48, 48]

  /** A channel is its canonical ULID text, which is also its durable key prefix. */
  type ChannelId = k: Text | Canonical(k) witness NIL

  const ZERO: Text := [0, 0, 0, 0, 0, 0, 0, 0, 0, 0, 0, 0, 0, 0, 0, 0,
                       0, 0, 0, 0, 0, 0, 0, 0, 0, 0, 0, 0, 0, 0, 0, 0]

  /** The SHA-256 of the logical bytes of an artifact. */
  type Digest = d: Text | |d| == DIGEST_LEN witness ZERO
}
