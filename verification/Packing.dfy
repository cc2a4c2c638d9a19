/** Packing of chunks: pad, encrypt under the entropy of a key, decrypt, truncate, re-encrypt. */
module Packing {
  import opened Bytes
  import opened ChainedCipher
  import opened Feistel
  import opened RandomxLong

  const MAX_CHUNK_SIZE := 262144

  predicate IsChunk(chunk: seq<byte>) {
    1 <= |chunk| <= MAX_CHUNK_SIZE
  }

  /** A chunk filled up with zeros to the full size. */
  function Padded(chunk: seq<byte>): (r: seq<byte>)
    requires |chunk| <= MAX_CHUNK_SIZE
    ensures |r| == MAX_CHUNK_SIZE
  {
    chunk + seq(MAX_CHUNK_SIZE - |chunk|, _ => 0)
  }

  function Packed(h: RoundHash, entropy: seq<byte>, chunk: seq<byte>): (r: seq<byte>)
    requires IsChunk(chunk) && |entropy| == ENTROPY_SIZE
    ensures |r| == MAX_CHUNK_SIZE
  {
    Encrypted(h, Padded(chunk), entropy)
  }

  function Unpacked(h: RoundHash, entropy: seq<byte>, packed: seq<byte>, size: nat): (r: seq<byte>)
    requires Whole(packed) && size <= |packed| <= MAX_CHUNK_SIZE && |entropy| == ENTROPY_SIZE
    ensures |r| == size
  {
    Decrypted(h, packed, entropy)[..size]
  }

  /** Unpacking a packed chunk at its size returns the chunk. */
  lemma UnpacksPacked(h: RoundHash, entropy: seq<byte>, chunk: seq<byte>)
    requires IsChunk(chunk) && |entropy| == ENTROPY_SIZE
    ensures Unpacked(h, entropy, Packed(h, entropy, chunk), |chunk|) == chunk
  {
    RoundTrips(h, Padded(chunk), entropy);
  }

  /** The packing is the ciphertext of the chunk followed by zeros up to 262144 bytes, and decrypts to that. */
  lemma PackedIsFeistel(h: RoundHash, entropy: seq<byte>, chunk: seq<byte>, m: seq<byte>)
    requires IsChunk(chunk) && |entropy| == ENTROPY_SIZE
    requires |m| == 262144 && m[..|chunk|] == chunk && forall j :: |chunk| <= j < 262144 ==> m[j] == 0
    ensures IsFeistelCiphertext(h, m, entropy, Packed(h, entropy, chunk))
    ensures Decrypted(h, Packed(h, entropy, chunk), entropy) == m
  {
    assert m == m[..|chunk|] + m[|chunk|..];
    assert m == Padded(chunk);
    EncryptedIff(h, m, entropy, Packed(h, entropy, chunk));
    DecryptedIff(h, m, entropy, Packed(h, entropy, chunk));
  }

  /** Two chunks pack to the same bytes exactly when they differ in trailing zeros only. */
  lemma PackedSame(h: RoundHash, entropy: seq<byte>, a: seq<byte>, b: seq<byte>)
    requires IsChunk(a) && IsChunk(b) && |entropy| == ENTROPY_SIZE
    ensures Packed(h, entropy, a) == Packed(h, entropy, b) <==> Padded(a) == Padded(b)
  {
    RoundTrips(h, Padded(a), entropy);
    RoundTrips(h, Padded(b), entropy);
  }

  /** The two results of re-encryption: the chunk packed under the second key and the chunk itself. */
  datatype Repacked = Repacked(packed: seq<byte>, chunk: seq<byte>)

  /** Unpack at the chunk size under the first entropy, pack again under the second. */
  function Reencrypted(h: RoundHash, from: seq<byte>, to: seq<byte>, packed: seq<byte>, size: nat): Repacked
    requires Whole(packed) && 1 <= size <= |packed| <= MAX_CHUNK_SIZE && |from| == ENTROPY_SIZE && |to| == ENTROPY_SIZE
  {
    var chunk := Unpacked(h, from, packed, size);
    Repacked(Packed(h, to, chunk), chunk)
  }

  /** Re-encrypting a packed chunk equals packing it directly under the second key. */
  lemma ReencryptionIsDirectPacking(h: RoundHash, from: seq<byte>, to: seq<byte>, chunk: seq<byte>)
    requires IsChunk(chunk) && |from| == ENTROPY_SIZE && |to| == ENTROPY_SIZE
    ensures Reencrypted(h, from, to, Packed(h, from, chunk), |chunk|) == Repacked(Packed(h, to, chunk), chunk)
  {
    UnpacksPacked(h, from, chunk);
  }

  // ----- the code -----

  /** The entropy of a packing key. */
  function KeyEntropy(p: Prims, key: seq<byte>, programCount: int): (r: seq<byte>)
  {
    HashOf(p, key, programCount).entropy
  }

  /** It begins the scratchpad that the last program of the hash of the key leaves. */
  lemma KeyEntropyOfTrace(p: Prims, key: seq<byte>, programCount: int, es: seq<ProgramEnd>)
    requires IsTrace(p, key, programCount, es)
    ensures KeyEntropy(p, key, programCount) == es[|es| - 1].scratchpad[..262144]
  {
    HashOfTrace(p, key, programCount, es);
  }

  /** The key of the cipher is the beginning of the machine's scratchpad. */
  method RandomxEncryptChunk(h: RoundHash, vm: Machine, key: seq<byte>, inChunk: array<byte>, size: nat,
                             outChunk: array<byte>, programCount: int)
    requires 0 < size <= ENTROPY_SIZE && size % BLOCK == 0 && size <= inChunk.Length && size <= outChunk.Length
    modifies vm, outChunk
    ensures outChunk[..size] == Encrypted(h, old(inChunk[..size]), KeyEntropy(vm.p, key, programCount))
    ensures outChunk[size..] == old(outChunk[size..])
  {
    vm.GetEntropy(key, programCount);
    FeistelEncrypt(h, inChunk, size, EntropyOf(vm.scratchpad), outChunk);
  }

  method RandomxDecryptChunk(h: RoundHash, vm: Machine, key: seq<byte>, inChunk: array<byte>, size: nat,
                             outChunk: array<byte>, programCount: int)
    requires 0 < size <= ENTROPY_SIZE && size % BLOCK == 0 && size <= inChunk.Length && size <= outChunk.Length
    modifies vm, outChunk
    ensures outChunk[..size] == Decrypted(h, old(inChunk[..size]), KeyEntropy(vm.p, key, programCount))
    ensures outChunk[size..] == old(outChunk[size..])
  {
    vm.GetEntropy(key, programCount);
    FeistelDecrypt(h, inChunk, size, EntropyOf(vm.scratchpad), outChunk);
  }

  /** memset to zero, then memcpy of the chunk. */
  method PadChunk(inChunk: array<byte>, size: nat) returns (padded: array<byte>)
    requires size <= inChunk.Length && size <= MAX_CHUNK_SIZE
    ensures fresh(padded) && padded[..] == Padded(inChunk[..size])
  {
    padded := new byte[MAX_CHUNK_SIZE](_ => 0);
    var i := 0;
    while i < size
      invariant 0 <= i <= size
      invariant forall j :: 0 <= j < MAX_CHUNK_SIZE ==> padded[j] == if j < i then inChunk[j] else 0
    {
      padded[i] := inChunk[i];
      i := i + 1;
    }
    assert forall j :: 0 <= j < MAX_CHUNK_SIZE ==> padded[..][j] == Padded(inChunk[..size])[j];
  }

  method EncryptChunk(h: RoundHash, vm: Machine, key: seq<byte>, inChunk: array<byte>, size: nat, programCount: int)
    returns (encrypted: array<byte>)
    requires 1 <= size <= MAX_CHUNK_SIZE && size <= inChunk.Length
    modifies vm
    ensures fresh(encrypted)
    ensures encrypted[..] == Packed(h, KeyEntropy(vm.p, key, programCount), inChunk[..size])
  {
    encrypted := new byte[MAX_CHUNK_SIZE];
    if size < MAX_CHUNK_SIZE {
      var padded := PadChunk(inChunk, size);
      RandomxEncryptChunk(h, vm, key, padded, MAX_CHUNK_SIZE, encrypted, programCount);
      assert padded[..MAX_CHUNK_SIZE] == padded[..];
    } else {
      RandomxEncryptChunk(h, vm, key, inChunk, size, encrypted, programCount);
      assert Padded(inChunk[..size]) == inChunk[..size];
    }
    assert encrypted[..MAX_CHUNK_SIZE] == encrypted[..];
  }

  lemma TakeFromParts(s: seq<byte>, n: nat, k: nat)
    requires n <= |s| && k <= |s|
    ensures s[..k] == (s[..n] + s[n..])[..k]
    ensures k <= n ==> s[..k] == s[..n][..k]
  {
    assert s[..n] + s[n..] == s;
  }

  /**
   * Decrypts the packed buffer into outChunk and hands out its first outSize
   * bytes. Beyond the size of the packed buffer these are whatever outChunk held before.
   */
  method DecryptChunk(h: RoundHash, vm: Machine, key: seq<byte>, inChunk: array<byte>,
                      outChunk: array<byte>, outSize: nat, programCount: int) returns (plain: seq<byte>)
    requires 0 < inChunk.Length <= MAX_CHUNK_SIZE && inChunk.Length % BLOCK == 0
    requires outChunk.Length == MAX_CHUNK_SIZE && outSize <= MAX_CHUNK_SIZE
    modifies vm, outChunk
    ensures plain == (Decrypted(h, old(inChunk[..]), KeyEntropy(vm.p, key, programCount))
                      + old(outChunk[inChunk.Length..]))[..outSize]
    ensures outSize <= inChunk.Length ==>
              plain == Unpacked(h, KeyEntropy(vm.p, key, programCount), old(inChunk[..]), outSize)
    ensures outChunk[..outSize] == plain
  {
    var size := inChunk.Length;
    RandomxDecryptChunk(h, vm, key, inChunk, size, outChunk, programCount);
    assert old(inChunk[..size]) == old(inChunk[..]);
    plain := outChunk[..outSize];
    ghost var now := outChunk[..];
    assert now[..size] == outChunk[..size] && now[size..] == outChunk[size..];
    TakeFromParts(now, size, outSize);
  }

  /**
   * Decrypts into a local buffer and encrypts its first chunkSize bytes under
   * the second key. A chunkSize beyond the packed buffer takes in bytes of the
   * local buffer that were never written: rest is what it happened to hold.
   */
  method ReencryptChunk(h: RoundHash, vm: Machine, decryptKey: seq<byte>, encryptKey: seq<byte>, inChunk: array<byte>,
                        chunkSize: nat, decryptCount: int, encryptCount: int) returns (r: Repacked, ghost rest: seq<byte>)
    requires 0 < inChunk.Length <= MAX_CHUNK_SIZE && inChunk.Length % BLOCK == 0 && 1 <= chunkSize <= MAX_CHUNK_SIZE
    modifies vm
    ensures |rest| == MAX_CHUNK_SIZE - inChunk.Length
    ensures r.chunk == (Decrypted(h, inChunk[..], KeyEntropy(vm.p, decryptKey, decryptCount)) + rest)[..chunkSize]
    ensures r.packed == Packed(h, KeyEntropy(vm.p, encryptKey, encryptCount), r.chunk)
    ensures chunkSize <= inChunk.Length ==>
              r == Reencrypted(h, KeyEntropy(vm.p, decryptKey, decryptCount), KeyEntropy(vm.p, encryptKey, encryptCount),
                               inChunk[..], chunkSize)
  {
    var buffer := new byte[MAX_CHUNK_SIZE];
    rest := buffer[inChunk.Length..];
    var chunk := DecryptChunk(h, vm, decryptKey, inChunk, buffer, chunkSize, decryptCount);
    var encrypted := EncryptChunk(h, vm, encryptKey, buffer, chunkSize, encryptCount);
    r := Repacked(encrypted[..], chunk);
  }
}
