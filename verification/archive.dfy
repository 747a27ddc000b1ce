/** The encrypted archive format, produced and checked in chunks of any size. */
module Archive {
  import opened Results

  type Bytes = seq<bv8>

  type Tag = t: Bytes | |t| == 16 witness seq(16, _ => 0)

  /**
    A streaming authenticated cipher, after sections 7.1 and 7.2 of NIST SP 800-38D: the ciphertext is
    the plaintext masked by a keystream, and the tag depends on the header and the ciphertext.
  */
  datatype Cipher = Cipher(
    keystream: (Bytes, Bytes, nat) -> bv8,
    tag: (Bytes, Bytes, Bytes, Bytes) -> Tag)

  const MAGIC: Bytes := [67, 79, 83, 66, 65, 67, 75, 85, 80, 49]
  const CHUNK: nat := 1024 * 1024
  const MAX_BYTES: nat := 256 * CHUNK

  function Masked(c: Cipher, key: Bytes, nonce: Bytes, offset: nat, text: Bytes): Bytes {
    seq(|text|, i requires 0 <= i < |text| => text[i] ^ c.keystream(key, nonce, offset + i))
  }

  function Sealed(c: Cipher, key: Bytes, nonce: Bytes, plain: Bytes): Bytes {
    var header := MAGIC + nonce;
    var body := Masked(c, key, nonce, 0, plain);
    header + body + c.tag(key, nonce, header, body)
  }

  /** What a recovery tool reads: the plaintext, if the archive is whole and authentic. */
  function Opened(c: Cipher, key: Bytes, archive: Bytes): Option<Bytes> {
    if |archive| < 38 || archive[..10] != MAGIC then None
    else
      var header, body := archive[..22], archive[22..|archive| - 16];
      if archive[|archive| - 16..] != c.tag(key, header[10..], header, body) then None
      else Some(Masked(c, key, header[10..], 0, body))
  }

  /** The layout, byte by byte: the magic, the nonce, the content under the keystream, and the tag over header and ciphertext. */
  lemma SealedLayout(c: Cipher, key: Bytes, nonce: Bytes, plain: Bytes, i: nat)
    requires |nonce| == 12 && i < |plain|
    ensures var archive := Sealed(c, key, nonce, plain);
      && |archive| == 10 + 12 + |plain| + 16
      && archive[..10] == [0x43, 0x4f, 0x53, 0x42, 0x41, 0x43, 0x4b, 0x55, 0x50, 0x31]
      && archive[10..22] == nonce
      && archive[22 + i] == plain[i] ^ c.keystream(key, nonce, i)
      && archive[|archive| - 16..] == c.tag(key, nonce, archive[..22], archive[22..|archive| - 16])
  {
    var header, body := MAGIC + nonce, Masked(c, key, nonce, 0, plain);
    var archive := Sealed(c, key, nonce, plain);
    assert archive[..22] == header && archive[22..|archive| - 16] == body;
    assert archive[..10] == MAGIC && archive[10..22] == nonce;
  }

  lemma MaskedTwice(c: Cipher, key: Bytes, nonce: Bytes, offset: nat, text: Bytes)
    ensures Masked(c, key, nonce, offset, Masked(c, key, nonce, offset, text)) == text
  {
  }

  lemma MaskedInPieces(c: Cipher, key: Bytes, nonce: Bytes, offset: nat, a: Bytes, b: Bytes)
    ensures Masked(c, key, nonce, offset, a + b) ==
            Masked(c, key, nonce, offset, a) + Masked(c, key, nonce, offset + |a|, b)
  {
  }

  /** An archive is 38 bytes longer than its content and opens to exactly that content. */
  lemma OpensToContent(c: Cipher, key: Bytes, nonce: Bytes, plain: Bytes)
    requires |nonce| == 12
    ensures |Sealed(c, key, nonce, plain)| == |plain| + 38
    ensures Opened(c, key, Sealed(c, key, nonce, plain)) == Some(plain)
  {
    var header := MAGIC + nonce;
    var body := Masked(c, key, nonce, 0, plain);
    var archive := Sealed(c, key, nonce, plain);
    assert archive[..22] == header && header[10..] == nonce && archive[..10] == MAGIC;
    assert archive[22..|archive| - 16] == body;
    assert archive[|archive| - 16..] == c.tag(key, nonce, header, body);
    MaskedTwice(c, key, nonce, 0, plain);
  }

  /** The size of the next read: anything from one byte to a chunk, and nothing only at the end. */
  method NextRead(remaining: nat) returns (n: nat)
    ensures n <= remaining && n <= CHUNK
    ensures n == 0 <==> remaining == 0
  {
    if remaining == 0 {
      return 0;
    }
    n :| 1 <= n <= remaining && n <= CHUNK;
  }

  /** Streams a file through the cipher; the total is checked before each chunk is written. */
  method EncryptFile(c: Cipher, key: Bytes, nonce: Bytes, plain: Bytes) returns (total: Option<nat>, out: Bytes)
    ensures total.Some? <==> |plain| <= 268_435_456
    ensures total.Some? ==> total.value == |plain| && out == Sealed(c, key, nonce, plain)
  {
    var header := MAGIC + nonce;
    out := header;
    var body: Bytes := [];
    var read: nat := 0;
    var n := NextRead(|plain|);
    while n != 0
      invariant read + n <= |plain| && (n == 0 <==> read == |plain|)
      invariant read <= MAX_BYTES
      invariant body == Masked(c, key, nonce, 0, plain[..read])
      invariant out == header + body
      decreases |plain| - read
    {
      var chunk := plain[read..read + n];
      if read + n > MAX_BYTES {
        return None, out;
      }
      var update := Masked(c, key, nonce, read, chunk);
      assert plain[..read + n] == plain[..read] + chunk;
      MaskedInPieces(c, key, nonce, 0, plain[..read], chunk);
      body, out, read := body + update, out + update, read + n;
      n := NextRead(|plain| - read);
    }
    assert plain[..read] == plain;
    out := out + c.tag(key, nonce, header, body);
    total := Some(read);
  }

  /** A digest stands for the bytes it was computed from. */
  datatype Digest = Digest(of: Bytes)

  method FileHash(content: Bytes) returns (digest: Digest)
    ensures digest == Digest(content)
  {
    digest := Digest([]);
    var n := NextRead(|content|);
    while n != 0
      invariant |digest.of| + n <= |content| && (n == 0 <==> |digest.of| == |content|)
      invariant digest.of == content[..|digest.of|]
      decreases |content| - |digest.of|
    {
      digest := Digest(digest.of + content[|digest.of|..|digest.of| + n]);
      n := NextRead(|content| - |digest.of|);
    }
  }

  /** Downloads an object and compares it as it streams; a missing or failing download is None. */
  method VerifyRemote(remote: Option<Bytes>, expected: Digest, size: nat) returns (verified: bool)
    ensures verified <==> remote == Some(expected.of) && |expected.of| == size
  {
    if remote.None? {
      return false;
    }
    var digest := Digest([]);
    var n := NextRead(|remote.value|);
    while n != 0
      invariant |digest.of| + n <= |remote.value| && (n == 0 <==> |digest.of| == |remote.value|)
      invariant digest.of == remote.value[..|digest.of|]
      decreases |remote.value| - |digest.of|
    {
      if |digest.of| + n > size {
        return false;
      }
      digest := Digest(digest.of + remote.value[|digest.of|..|digest.of| + n]);
      n := NextRead(|remote.value| - |digest.of|);
    }
    assert digest.of == remote.value;
    verified := |digest.of| == size && digest == expected;
  }

  /** Copies a source object while it matches the size in the inventory. */
  method CopySource(body: Bytes, size: nat, limit: nat) returns (plain: Option<Bytes>)
    ensures plain == if |body| == size && size <= limit then Some(body) else None
  {
    var copied: Bytes := [];
    var n := NextRead(|body|);
    while n != 0
      invariant |copied| + n <= |body| && (n == 0 <==> |copied| == |body|)
      invariant copied == body[..|copied|] && (copied != [] ==> |copied| <= size && |copied| <= limit)
      decreases |body| - |copied|
    {
      if |copied| + n > size || |copied| + n > limit {
        return None;
      }
      copied := copied + body[|copied|..|copied| + n];
      n := NextRead(|body| - |copied|);
    }
    assert copied == body;
    plain := if |copied| == size then Some(copied) else None;
  }
}
