/**
 * How bodies are stored (src/storage/local/artifact_files.rs:201-238). SHA-256 and zstd are abstract:
 * a streaming encoder is known by what it has put out after some chunks and by what closing it adds.
 */
module Encodings {
  import opened Words
  import opened Bytes
  import opened Identity

  datatype Encoding = Identity | Zstd

  /** `corpus` holds the bodies that are ever staged. */
  datatype Codec = Codec(
    sha: Text -> Digest, emitted: seq<Text> -> Text, trailer: seq<Text> -> Text, expand: Text -> Option<Text>,
    corpus: Text -> bool)

  function Flat(chunks: seq<Text>): Text {
    if chunks == [] then [] else Flat(chunks[..|chunks| - 1]) + chunks[|chunks| - 1]
  }

  /**
   * No two staged bodies collide; the encoder never takes output back; and a closed frame, however
   * the body was cut into chunks, expands to the body.
   */
  ghost predicate Sound(k: Codec) {
    && (forall a: Text, b: Text :: k.corpus(a) && k.corpus(b) && k.sha(a) == k.sha(b) ==> a == b)
    && k.emitted([]) == []
    && (forall chunks: seq<Text>, chunk: Text :: k.emitted(chunks) <= k.emitted(chunks + [chunk]))
    && (forall chunks: seq<Text> :: k.expand(k.emitted(chunks) + k.trailer(chunks)) == Some(Flat(chunks)))
  }

  /** What a writer has put out after accepting `chunks`, before it is closed. */
  function Output(k: Codec, e: Encoding, chunks: seq<Text>): Text {
    if e.Identity? then Flat(chunks) else k.emitted(chunks)
  }

  /** The whole file of a closed writer. */
  function Frame(k: Codec, e: Encoding, chunks: seq<Text>): Text {
    if e.Identity? then Flat(chunks) else k.emitted(chunks) + k.trailer(chunks)
  }

  function Decode(k: Codec, e: Encoding, bytes: Text): Option<Text> {
    if e.Identity? then Some(bytes) else k.expand(bytes)
  }

  lemma FlatAppend(chunks: seq<Text>, chunk: Text)
    ensures Flat(chunks + [chunk]) == Flat(chunks) + chunk
  {
    assert (chunks + [chunk])[..|chunks|] == chunks;
  }

  /** Accepting a chunk only adds to the output. */
  lemma OutputGrows(k: Codec, e: Encoding, chunks: seq<Text>, chunk: Text)
    requires Sound(k)
    ensures Output(k, e, chunks) <= Output(k, e, chunks + [chunk])
  {
    FlatAppend(chunks, chunk);
  }

  /** What accepting `chunk` adds to the output. */
  function Gain(k: Codec, e: Encoding, chunks: seq<Text>, chunk: Text): Text {
    var before, after := Output(k, e, chunks), Output(k, e, chunks + [chunk]);
    if |before| <= |after| then after[|before|..] else []
  }

  /** What closing the writer adds. */
  function Trailer(k: Codec, e: Encoding, chunks: seq<Text>): Text {
    var before, after := Output(k, e, chunks), Frame(k, e, chunks);
    if |before| <= |after| then after[|before|..] else []
  }

  lemma GainAdds(k: Codec, e: Encoding, chunks: seq<Text>, chunk: Text)
    requires Sound(k)
    ensures Output(k, e, chunks) + Gain(k, e, chunks, chunk) == Output(k, e, chunks + [chunk])
  {
    OutputGrows(k, e, chunks, chunk);
  }

  lemma TrailerAdds(k: Codec, e: Encoding, chunks: seq<Text>)
    requires Sound(k)
    ensures Output(k, e, chunks) + Trailer(k, e, chunks) == Frame(k, e, chunks)
  {
    FrameDecodes(k, e, chunks);
  }

  lemma FrameDecodes(k: Codec, e: Encoding, chunks: seq<Text>)
    requires Sound(k)
    ensures Output(k, e, chunks) <= Frame(k, e, chunks)
    ensures Decode(k, e, Frame(k, e, chunks)) == Some(Flat(chunks))
  {
  }
}
