/**
 * The stored form of a chunk: what is written under a chunk's key and how it is
 * sniffed and decoded again.  SHA-256 and zstd are parameters.
 */
module ChunkFormat {
  import opened Base

  /** Four mebibytes, the fixed size every stream is cut into. */
  const CHUNK_SIZE: nat := 4 * 1024 * 1024

  /** "PBZ1" in ASCII. */
  const MAGIC: Bytes := [80, 66, 90, 49]

  /**
   * The primitives the engine calls.  `sha` renders the digest of raw bytes;
   * `enc` and `dec` are one zstd frame each way; the two flags say whether the
   * process managed to build its shared encoder and decoder.
   */
  datatype Codec = Codec(
    sha: Bytes -> string,
    enc: Bytes -> Bytes,
    dec: Bytes -> Option<Bytes>,
    encoderReady: bool,
    decoderReady: bool)

  /** What is assumed of the primitives: digests are non-empty, zstd round-trips on chunk-sized input. */
  ghost predicate Lawful(c: Codec) {
    && (forall x :: c.sha(x) != "")
    && (forall x :: |x| <= CHUNK_SIZE ==> c.dec(c.enc(x)) == Some(x))
  }

  /** No two byte strings of `world` share a digest. */
  ghost predicate CollisionFree(c: Codec, world: iset<Bytes>) {
    forall x, y :: x in world && y in world && c.sha(x) == c.sha(y) ==> x == y
  }

  function Compress(c: Codec, raw: Bytes): Bytes {
    if !c.encoderReady then raw else
      var out := MAGIC + c.enc(raw);
      if |out| >= |raw| then raw else out
  }

  /** The body Put under a chunk's key; `on` is the engine's compression setting. */
  function Stored(c: Codec, on: bool, raw: Bytes): Bytes {
    if on then Compress(c, raw) else raw
  }

  function Decode(c: Codec, stored: Bytes): Bytes {
    if !(MAGIC <= stored) || !c.decoderReady then stored else
      match c.dec(stored[|MAGIC|..])
      case None => stored
      case Some(out) => out
  }

  /** Compression is off, unavailable or does not pay, so the raw bytes are the object. */
  predicate Verbatim(c: Codec, on: bool, raw: Bytes) {
    !on || !c.encoderReady || |MAGIC| + |c.enc(raw)| >= |raw|
  }

  /** Raw bytes the reader mistakes for a compressed chunk of something else. */
  predicate Masquerades(c: Codec, raw: Bytes) {
    && c.decoderReady
    && MAGIC <= raw
    && c.dec(raw[|MAGIC|..]).Some?
    && c.dec(raw[|MAGIC|..]).value != raw
  }

  /** The chunks whose stored form reads back as themselves. */
  predicate ReadsBack(c: Codec, on: bool, raw: Bytes) {
    if Verbatim(c, on, raw) then !Masquerades(c, raw) else c.decoderReady
  }

  /** The stored form decodes to the raw bytes exactly when `ReadsBack` says so. */
  lemma StoredDecodesIff(c: Codec, on: bool, raw: Bytes)
    requires Lawful(c) && |raw| <= CHUNK_SIZE
    ensures Decode(c, Stored(c, on, raw)) == raw <==> ReadsBack(c, on, raw)
    ensures |raw| > 0 ==> 0 < |Stored(c, on, raw)| <= |raw|
  {
    if !Verbatim(c, on, raw) {
      var out := MAGIC + c.enc(raw);
      assert Stored(c, on, raw) == out;
      assert out[|MAGIC|..] == c.enc(raw);
      assert MAGIC <= out;
    }
  }

  /** The stored form is the shorter of the two where compression is on and available, and the raw bytes elsewhere. */
  lemma StoredIsTheShorter(c: Codec, on: bool, raw: Bytes)
    ensures Stored(c, on, raw) == raw || (on && c.encoderReady && Stored(c, on, raw) == MAGIC + c.enc(raw))
    ensures |Stored(c, on, raw)| == if on && c.encoderReady then Min(|raw|, |MAGIC| + |c.enc(raw)|) else |raw|
  {
  }

  /**
   * A verbatim chunk that opens with the magic followed by a frame of something
   * else decodes to that something else.
   */
  lemma MasqueradingChunkDecodesWrongly(c: Codec, on: bool, raw: Bytes)
    requires Verbatim(c, on, raw) && Masquerades(c, raw) && |raw| <= CHUNK_SIZE
    ensures Decode(c, Stored(c, on, raw)) == c.dec(raw[|MAGIC|..]).value != raw
  {
  }

  /** The laws of zstd do not rule such chunks out, under either setting. */
  lemma LawfulCodecsHaveSuchChunks(on: bool)
    ensures exists c: Codec, raw ::
              Lawful(c) && |raw| <= CHUNK_SIZE && Decode(c, Stored(c, on, raw)) != raw
  {
    var c := Codec(x => "h", x => x, x => Some(x), true, true);
    var raw: Bytes := MAGIC + [7];
    assert raw[|MAGIC|..] == [7];
    assert Verbatim(c, on, raw) && Masquerades(c, raw);
    assert Lawful(c);
    StoredDecodesIff(c, on, raw);
  }

  // ------------------------------------------------------------------ chunking

  /** A stream cut into chunks of `size` bytes, the last one possibly shorter. */
  function Split(data: Bytes, size: nat): seq<Bytes>
    requires size > 0
    decreases |data|
  {
    if data == [] then []
    else if |data| <= size then [data]
    else [data[..size]] + Split(data[size..], size)
  }

  /** Cutting loses nothing, and only the last piece may be short. */
  lemma {:induction false} SplitShape(data: Bytes, size: nat)
    requires size > 0
    ensures Flatten(Split(data, size)) == data
    ensures forall i :: 0 <= i < |Split(data, size)| ==> 0 < |Split(data, size)[i]| <= size
    ensures forall i :: 0 <= i < |Split(data, size)| - 1 ==> |Split(data, size)[i]| == size
    decreases |data|
  {
    if data == [] {
    } else if |data| <= size {
      assert Split(data, size)[1..] == [];
      assert Flatten([data]) == data + Flatten([data][1..]);
    } else {
      SplitShape(data[size..], size);
      var s := Split(data, size);
      assert s[1..] == Split(data[size..], size);
      assert data == data[..size] + data[size..];
    }
  }

  // -------------------------------------------------------------------- hashes

  /** The distinct hashes of a list of chunks. */
  function Hashes(c: Codec, cs: seq<Bytes>): set<string> {
    set i | 0 <= i < |cs| :: c.sha(cs[i])
  }

  lemma HashesAppend(c: Codec, cs: seq<Bytes>, d: Bytes)
    ensures Hashes(c, cs + [d]) == Hashes(c, cs) + {c.sha(d)}
  {
    forall g | g in Hashes(c, cs) + {c.sha(d)}
      ensures g in Hashes(c, cs + [d])
    {
      if g == c.sha(d) {
        assert (cs + [d])[|cs|] == d;
      } else {
        var i :| 0 <= i < |cs| && c.sha(cs[i]) == g;
        assert (cs + [d])[i] == cs[i];
      }
    }
  }

  /** A stored body decodes to contents in play that carry the hash it is filed under. */
  ghost predicate BodySound(c: Codec, world: iset<Bytes>, sha: string, body: Bytes) {
    Decode(c, body) in world && c.sha(Decode(c, body)) == sha
  }
}
