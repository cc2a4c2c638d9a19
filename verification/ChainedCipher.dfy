/**
 * A block cipher chained by feeding the previous ciphertext block into the
 * key, over whole blocks. The block functions are arbitrary.
 */
module ChainedCipher {
  import opened Bytes

  const BLOCK := 64

  type Block = s: seq<byte> | |s| == BLOCK witness seq(BLOCK, _ => 0)

  /** Block encryption and decryption under a key block, and the mix of a key block with ciphertext. */
  datatype Cipher = Cipher(
    enc: (Block, Block) -> Block, dec: (Block, Block) -> Block, feed: (Block, Block) -> Block)

  ghost predicate Inverse(x: Cipher) {
    && (forall b, k :: x.dec(x.enc(b, k), k) == b)
    && (forall b, k :: x.enc(x.dec(b, k), k) == b)
  }

  /** The key block used at position i. */
  function FeedKey(x: Cipher, keys: seq<Block>, cipher: seq<Block>, i: nat): Block
    requires i < |keys| && i <= |cipher|
  {
    if i == 0 then keys[0] else x.feed(keys[i], cipher[i - 1])
  }

  /** Encryption runs forward: each block needs the ciphertext before it. */
  function Encrypt(x: Cipher, plain: seq<Block>, keys: seq<Block>): (cipher: seq<Block>)
    requires |plain| <= |keys|
    ensures |cipher| == |plain|
  {
    if plain == [] then []
    else
      var n := |plain| - 1;
      var c := Encrypt(x, plain[..n], keys);
      c + [x.enc(plain[n], FeedKey(x, keys, c, n))]
  }

  /** Decryption: each block needs its own ciphertext block and the one before it. */
  function Decrypt(x: Cipher, cipher: seq<Block>, keys: seq<Block>): (plain: seq<Block>)
    requires |cipher| <= |keys|
    ensures |plain| == |cipher|
    ensures forall i :: 0 <= i < |cipher| ==> plain[i] == x.dec(cipher[i], FeedKey(x, keys, cipher, i))
  {
    seq<Block>(|cipher|, i requires 0 <= i < |cipher| => x.dec(cipher[i], FeedKey(x, keys, cipher, i)))
  }

  /** The ciphertext of a prefix is the prefix of the ciphertext. */
  lemma {:induction false} EncryptPrefix(x: Cipher, plain: seq<Block>, keys: seq<Block>, i: nat)
    requires |plain| <= |keys| && i <= |plain|
    ensures Encrypt(x, plain[..i], keys) == Encrypt(x, plain, keys)[..i]
    decreases |plain|
  {
    if i == |plain| {
      assert plain[..i] == plain;
    } else {
      var n := |plain| - 1;
      EncryptPrefix(x, plain[..n], keys, i);
      assert plain[..n][..i] == plain[..i];
    }
  }

  /** What encryption puts at position i. */
  lemma EncryptAt(x: Cipher, plain: seq<Block>, keys: seq<Block>, i: nat)
    requires |plain| <= |keys| && i < |plain|
    ensures var c := Encrypt(x, plain, keys); c[i] == x.enc(plain[i], FeedKey(x, keys, c, i))
  {
    var c := Encrypt(x, plain, keys);
    EncryptPrefix(x, plain, keys, i + 1);
    EncryptPrefix(x, plain, keys, i);
    assert plain[..i + 1][..i] == plain[..i];
    assert FeedKey(x, keys, c[..i], i) == FeedKey(x, keys, c, i);
    assert c[..i + 1][i] == c[i];
  }

  lemma DecryptsEncrypted(x: Cipher, plain: seq<Block>, keys: seq<Block>)
    requires Inverse(x) && |plain| <= |keys|
    ensures Decrypt(x, Encrypt(x, plain, keys), keys) == plain
  {
    var c := Encrypt(x, plain, keys);
    forall i | 0 <= i < |plain| ensures Decrypt(x, c, keys)[i] == plain[i] { EncryptAt(x, plain, keys, i); }
  }

  /** Block j of c satisfies its chaining equation. */
  ghost predicate Solves(x: Cipher, plain: seq<Block>, keys: seq<Block>, c: seq<Block>, j: nat)
    requires |plain| <= |keys| && |c| == |plain| && j < |plain|
  {
    c[j] == x.enc(plain[j], FeedKey(x, keys, c, j))
  }

  /** The ciphertext is the only solution of the chaining equations. */
  lemma {:induction false} EncryptUnique(x: Cipher, plain: seq<Block>, keys: seq<Block>, c: seq<Block>, i: nat)
    requires |plain| <= |keys| && |c| == |plain| && i < |plain|
    requires forall j :: 0 <= j <= i ==> Solves(x, plain, keys, c, j)
    ensures Encrypt(x, plain, keys)[i] == c[i]
  {
    if i == 0 {
    } else {
      EncryptUnique(x, plain, keys, c, i - 1);
    }
    assert Solves(x, plain, keys, c, i);
    EncryptAt(x, plain, keys, i);
  }

  lemma EncryptsDecrypted(x: Cipher, cipher: seq<Block>, keys: seq<Block>)
    requires Inverse(x) && |cipher| <= |keys|
    ensures Encrypt(x, Decrypt(x, cipher, keys), keys) == cipher
  {
    var d := Decrypt(x, cipher, keys);
    forall i | 0 <= i < |cipher| ensures Solves(x, d, keys, cipher, i) { }
    forall i | 0 <= i < |cipher| ensures Encrypt(x, d, keys)[i] == cipher[i] {
      EncryptUnique(x, d, keys, cipher, i);
    }
  }

  /**
   * Messages that agree before block i have ciphertexts that agree before
   * block i, and the ciphertexts agree on block i exactly when the messages do.
   */
  lemma {:induction false} PlaintextChangeSpreadsForward(
      x: Cipher, plain: seq<Block>, plain': seq<Block>, keys: seq<Block>, i: nat)
    requires Inverse(x) && i < |plain| <= |keys| && i < |plain'| <= |keys| && plain[..i] == plain'[..i]
    ensures var c, c' := Encrypt(x, plain, keys), Encrypt(x, plain', keys);
            c[..i] == c'[..i] && (c[i] == c'[i] <==> plain[i] == plain'[i])
  {
    var c, c' := Encrypt(x, plain, keys), Encrypt(x, plain', keys);
    EncryptPrefix(x, plain, keys, i);
    EncryptPrefix(x, plain', keys, i);
    EncryptAt(x, plain, keys, i);
    EncryptAt(x, plain', keys, i);
    if i > 0 { assert c[i - 1] == c[..i][i - 1] == c'[..i][i - 1] == c'[i - 1]; }
    var k := FeedKey(x, keys, c, i);
    assert x.dec(x.enc(plain[i], k), k) == plain[i] && x.dec(x.enc(plain'[i], k), k) == plain'[i];
  }

  /** A change of ciphertext block i reaches plaintext blocks i and i + 1 only, and always reaches block i. */
  lemma CiphertextChangeStaysLocal(
      x: Cipher, cipher: seq<Block>, keys: seq<Block>, i: nat, b: Block, j: nat)
    requires Inverse(x) && |cipher| <= |keys| && i < |cipher| && j < |cipher|
    ensures var d, d' := Decrypt(x, cipher, keys), Decrypt(x, cipher[i := b], keys);
            && (j != i && j != i + 1 ==> d'[j] == d[j])
            && (d'[i] == d[i] <==> b == cipher[i])
  {
    var cipher' := cipher[i := b];
    assert j != i + 1 ==> FeedKey(x, keys, cipher', j) == FeedKey(x, keys, cipher, j);
    assert FeedKey(x, keys, cipher', i) == FeedKey(x, keys, cipher, i);
    var k := FeedKey(x, keys, cipher, i);
    assert x.enc(x.dec(b, k), k) == b && x.enc(x.dec(cipher[i], k), k) == cipher[i];
  }

  // ----- blocks in a byte string -----

  predicate Whole(m: seq<byte>) {
    |m| % BLOCK == 0
  }

  function BlockAt(m: seq<byte>, i: nat): Block
    requires BLOCK * i + BLOCK <= |m|
  {
    m[BLOCK * i..BLOCK * i + BLOCK]
  }

  function Blocks(m: seq<byte>): (bs: seq<Block>)
    ensures |bs| == |m| / BLOCK
    ensures forall i :: 0 <= i < |bs| ==> bs[i] == BlockAt(m, i)
  {
    seq<Block>(|m| / BLOCK, i requires 0 <= i < |m| / BLOCK => BlockAt(m, i))
  }

  function Flat(bs: seq<Block>): (m: seq<byte>)
    ensures |m| == BLOCK * |bs|
  {
    if bs == [] then [] else Flat(bs[..|bs| - 1]) + bs[|bs| - 1]
  }

  lemma {:induction false} FlatBlockAt(bs: seq<Block>, i: nat)
    requires i < |bs|
    ensures BlockAt(Flat(bs), i) == bs[i]
  {
    var n := |bs| - 1;
    var f := Flat(bs[..n]);
    assert Flat(bs) == f + bs[n];
    if i < n {
      FlatBlockAt(bs[..n], i);
      AppendedBlockAt(f, bs[n], i);
    }
  }

  lemma AppendedBlockAt(f: seq<byte>, b: Block, i: nat)
    requires BLOCK * i + BLOCK <= |f|
    ensures BlockAt(f + b, i) == BlockAt(f, i)
  {
  }

  lemma BlocksFlat(bs: seq<Block>)
    ensures Blocks(Flat(bs)) == bs
  {
    forall i | 0 <= i < |bs| ensures BlockAt(Flat(bs), i) == bs[i] { FlatBlockAt(bs, i); }
  }

  lemma {:induction false} FlatOf(m: seq<byte>, bs: seq<Block>)
    requires |m| == BLOCK * |bs| && forall i :: 0 <= i < |bs| ==> bs[i] == BlockAt(m, i)
    ensures Flat(bs) == m
  {
    if bs == [] {
    } else {
      var n := |bs| - 1;
      forall i | 0 <= i < n ensures bs[..n][i] == BlockAt(m[..BLOCK * n], i) {
        assert bs[i] == BlockAt(m, i);
      }
      FlatOf(m[..BLOCK * n], bs[..n]);
      assert m == m[..BLOCK * n] + BlockAt(m, n);
    }
  }

  lemma FlatBlocks(m: seq<byte>)
    requires Whole(m)
    ensures Flat(Blocks(m)) == m
  {
    FlatOf(m, Blocks(m));
  }

  /** s with block i replaced. */
  function Splice(s: seq<byte>, i: nat, b: Block): (r: seq<byte>)
    requires BLOCK * i + BLOCK <= |s|
    ensures |r| == |s|
  {
    s[..BLOCK * i] + b + s[BLOCK * i + BLOCK..]
  }

  lemma SpliceAt(s: seq<byte>, i: nat, b: Block, j: nat)
    requires BLOCK * i + BLOCK <= |s| && BLOCK * j + BLOCK <= |s|
    ensures BlockAt(Splice(s, i, b), j) == if j == i then b else BlockAt(s, j)
  {
  }
}
