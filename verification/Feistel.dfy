/** The two-round Feistel cipher that packs chunks, on buffers that may coincide. */
module Feistel {
  import opened Bytes
  import opened ChainedCipher

  const HALF := 32

  /** The round function: SHA-256 of a half block and a half key, taken as arbitrary. */
  type RoundHash = (seq<byte>, seq<byte>) -> Word

  // ----- one block -----

  function EncryptedBlock(h: RoundHash, b: Block, key: Block): Block
  {
    var right := XorSeq(b[..HALF], h(b[HALF..], key[..HALF]));
    right + XorSeq(b[HALF..], h(right, key[HALF..]))
  }

  function DecryptedBlock(h: RoundHash, b: Block, key: Block): Block
  {
    var left := XorSeq(b[HALF..], h(b[..HALF], key[HALF..]));
    XorSeq(b[..HALF], h(left, key[..HALF])) + left
  }

  lemma BlockDecryptsEncrypted(h: RoundHash, b: Block, key: Block)
    ensures DecryptedBlock(h, EncryptedBlock(h, b, key), key) == b
  {
    var l, r := b[..HALF], b[HALF..];
    var right := XorSeq(l, h(r, key[..HALF]));
    var e := EncryptedBlock(h, b, key);
    assert e[..HALF] == right && e[HALF..] == XorSeq(r, h(right, key[HALF..]));
    XorSeqCancel(r, h(right, key[HALF..]));
    XorSeqCancel(l, h(r, key[..HALF]));
    assert b == l + r;
  }

  lemma BlockEncryptsDecrypted(h: RoundHash, b: Block, key: Block)
    ensures EncryptedBlock(h, DecryptedBlock(h, b, key), key) == b
  {
    var l, r := b[..HALF], b[HALF..];
    var left := XorSeq(r, h(l, key[HALF..]));
    var d := DecryptedBlock(h, b, key);
    assert d[..HALF] == XorSeq(l, h(left, key[..HALF])) && d[HALF..] == left;
    XorSeqCancel(l, h(left, key[..HALF]));
    XorSeqCancel(r, h(l, key[HALF..]));
    assert b == l + r;
  }

  /** The cipher of the packing: Feistel blocks, keys mixed with the ciphertext by exclusive or. */
  function FeistelCipher(h: RoundHash): Cipher {
    Cipher((b: Block, k: Block) => EncryptedBlock(h, b, k),
           (b: Block, k: Block) => DecryptedBlock(h, b, k),
           (k: Block, c: Block) => XorSeq(k, c))
  }

  lemma FeistelInverse(h: RoundHash)
    ensures Inverse(FeistelCipher(h))
  {
    forall b: Block, k: Block ensures DecryptedBlock(h, EncryptedBlock(h, b, k), k) == b { BlockDecryptsEncrypted(h, b, k); }
    forall b: Block, k: Block ensures EncryptedBlock(h, DecryptedBlock(h, b, k), k) == b { BlockEncryptsDecrypted(h, b, k); }
  }

  // ----- whole messages -----

  function Encrypted(h: RoundHash, m: seq<byte>, key: seq<byte>): (r: seq<byte>)
    requires Whole(m) && |m| <= |key|
    ensures |r| == |m|
  {
    Flat(Encrypt(FeistelCipher(h), Blocks(m), Blocks(key)))
  }

  function Decrypted(h: RoundHash, c: seq<byte>, key: seq<byte>): (r: seq<byte>)
    requires Whole(c) && |c| <= |key|
    ensures |r| == |c|
  {
    Flat(Decrypt(FeistelCipher(h), Blocks(c), Blocks(key)))
  }

  /** For every message of whole blocks and every key, packing is a bijection. */
  lemma RoundTrips(h: RoundHash, m: seq<byte>, key: seq<byte>)
    requires Whole(m) && |m| <= |key|
    ensures Decrypted(h, Encrypted(h, m, key), key) == m
    ensures Encrypted(h, Decrypted(h, m, key), key) == m
  {
    var x, bs, ks := FeistelCipher(h), Blocks(m), Blocks(key);
    FeistelInverse(h);
    BlocksFlat(Encrypt(x, bs, ks));
    BlocksFlat(Decrypt(x, bs, ks));
    DecryptsEncrypted(x, bs, ks);
    EncryptsDecrypted(x, bs, ks);
    FlatBlocks(m);
  }

  /** The blocks of an encryption and of a decryption. */
  lemma CipherBlocks(h: RoundHash, m: seq<byte>, key: seq<byte>)
    requires Whole(m) && |m| <= |key|
    ensures Blocks(Encrypted(h, m, key)) == Encrypt(FeistelCipher(h), Blocks(m), Blocks(key))
    ensures Blocks(Decrypted(h, m, key)) == Decrypt(FeistelCipher(h), Blocks(m), Blocks(key))
  {
    BlocksFlat(Encrypt(FeistelCipher(h), Blocks(m), Blocks(key)));
    BlocksFlat(Decrypt(FeistelCipher(h), Blocks(m), Blocks(key)));
  }

  lemma BlocksPrefix(m: seq<byte>, i: nat)
    requires BLOCK * i <= |m|
    ensures Blocks(m[..BLOCK * i]) == Blocks(m)[..i]
  {
    forall j | 0 <= j < i ensures Blocks(m[..BLOCK * i])[j] == Blocks(m)[j] {
      assert BlockAt(m[..BLOCK * i], j) == BlockAt(m, j);
    }
  }

  lemma {:induction false} FlatPrefix(bs: seq<Block>, i: nat)
    requires i <= |bs|
    ensures Flat(bs[..i]) == Flat(bs)[..BLOCK * i]
  {
    BlocksPrefix(Flat(bs), i);
    BlocksFlat(bs);
    FlatBlocks(Flat(bs)[..BLOCK * i]);
  }

  /** The packing of a prefix of whole blocks is the prefix of the packing. */
  lemma PackedPrefix(h: RoundHash, m: seq<byte>, key: seq<byte>, i: nat)
    requires Whole(m) && |m| <= |key| && BLOCK * i <= |m|
    ensures Encrypted(h, m[..BLOCK * i], key) == Encrypted(h, m, key)[..BLOCK * i]
  {
    var x, bs, ks := FeistelCipher(h), Blocks(m), Blocks(key);
    BlocksPrefix(m, i);
    EncryptPrefix(x, bs, ks, i);
    FlatPrefix(Encrypt(x, bs, ks), i);
  }

  /** Plaintexts that agree before block i: their ciphertexts agree before it, and at it exactly if they do. */
  lemma PackedChangeSpreadsForward(h: RoundHash, m: seq<byte>, m': seq<byte>, key: seq<byte>, i: nat)
    requires Whole(m) && Whole(m') && |m| <= |key| && |m'| <= |key|
    requires i < |Blocks(m)| && i < |Blocks(m')| && Blocks(m)[..i] == Blocks(m')[..i]
    ensures var c, c' := Blocks(Encrypted(h, m, key)), Blocks(Encrypted(h, m', key));
            c[..i] == c'[..i] && (c[i] == c'[i] <==> Blocks(m)[i] == Blocks(m')[i])
  {
    FeistelInverse(h);
    CipherBlocks(h, m, key);
    CipherBlocks(h, m', key);
    PlaintextChangeSpreadsForward(FeistelCipher(h), Blocks(m), Blocks(m'), Blocks(key), i);
  }

  /** A changed packed block i changes unpacked block i, possibly i + 1, and no other. */
  lemma UnpackedChangeStaysLocal(
      h: RoundHash, c: seq<byte>, c': seq<byte>, key: seq<byte>, i: nat, b: Block, j: nat)
    requires Whole(c) && Whole(c') && |c| == |c'| <= |key|
    requires i < |Blocks(c)| && j < |Blocks(c)| && Blocks(c') == Blocks(c)[i := b]
    ensures var m, m' := Blocks(Decrypted(h, c, key)), Blocks(Decrypted(h, c', key));
            && (j != i && j != i + 1 ==> m'[j] == m[j])
            && (m'[i] == m[i] <==> b == Blocks(c)[i])
  {
    FeistelInverse(h);
    CipherBlocks(h, c, key);
    CipherBlocks(h, c', key);
    CiphertextChangeStaysLocal(FeistelCipher(h), Blocks(c), Blocks(key), i, b, j);
  }

  // ----- the network, as equations between message, key and ciphertext -----

  /** The two rounds: the first key half mixes the right half into the left one, the second key half the reverse. */
  ghost predicate TwoRounds(h: RoundHash, b: Block, key: Block, e: Block) {
    && e[..32] == XorSeq(b[..32], h(b[32..], key[..32]))
    && e[32..] == XorSeq(b[32..], h(e[..32], key[32..]))
  }

  /** The round equations have one solution in either direction: the encrypted and the decrypted block. */
  lemma RoundEquations(h: RoundHash, b: Block, key: Block, e: Block)
    ensures TwoRounds(h, b, key, e) <==> e == EncryptedBlock(h, b, key)
    ensures TwoRounds(h, b, key, e) <==> b == DecryptedBlock(h, e, key)
  {
    BlockDecryptsEncrypted(h, b, key);
    BlockEncryptsDecrypted(h, e, key);
    var e' := EncryptedBlock(h, b, key);
    var right := XorSeq(b[..32], h(b[32..], key[..32]));
    assert e'[..32] == right && e'[32..] == XorSeq(b[32..], h(right, key[32..]));
    assert e == e[..32] + e[32..];
  }

  /** The key of block i: 64 bytes of the key, from the second block on mixed with the 64 ciphertext bytes before it. */
  function BlockKey(key: seq<byte>, c: seq<byte>, i: nat): Block
    requires 64 * i + 64 <= |key| && 64 * i <= |c|
  {
    var part := key[64 * i..64 * i + 64];
    if i == 0 then part else XorSeq(part, c[64 * i - 64..64 * i])
  }

  /** Block i of c comes from block i of m by the two rounds under its key. */
  ghost predicate BlockEncrypts(h: RoundHash, m: seq<byte>, key: seq<byte>, c: seq<byte>, i: nat)
    requires |c| == |m| <= |key| && 64 * i + 64 <= |m|
  {
    TwoRounds(h, m[64 * i..64 * i + 64], BlockKey(key, c, i), c[64 * i..64 * i + 64])
  }

  ghost predicate IsFeistelCiphertext(h: RoundHash, m: seq<byte>, key: seq<byte>, c: seq<byte>) {
    && |c| == |m| <= |key| && |m| % 64 == 0
    && forall i :: 0 <= i < |m| / 64 ==> BlockEncrypts(h, m, key, c, i)
  }

  lemma BlockKeyIsFeedKey(h: RoundHash, key: seq<byte>, c: seq<byte>, i: nat)
    requires Whole(c) && |c| <= |key| && i < |Blocks(c)|
    ensures BlockKey(key, c, i) == FeedKey(FeistelCipher(h), Blocks(key), Blocks(c), i)
  {
    assert BlockAt(key, i) == key[64 * i..64 * i + 64];
    assert i > 0 ==> BlockAt(c, i - 1) == c[64 * i - 64..64 * i];
  }

  /** The equation of block i is the chaining equation of the blocks. */
  lemma BlockEquation(h: RoundHash, m: seq<byte>, key: seq<byte>, c: seq<byte>, i: nat)
    requires Whole(m) && |c| == |m| <= |key| && i < |m| / 64
    ensures BlockEncrypts(h, m, key, c, i) <==> Solves(FeistelCipher(h), Blocks(m), Blocks(key), Blocks(c), i)
  {
    BlockKeyIsFeedKey(h, key, c, i);
    assert BlockAt(m, i) == m[64 * i..64 * i + 64] && BlockAt(c, i) == c[64 * i..64 * i + 64];
    RoundEquations(h, BlockAt(m, i), BlockKey(key, c, i), BlockAt(c, i));
  }

  lemma EncryptedSatisfies(h: RoundHash, m: seq<byte>, key: seq<byte>)
    requires Whole(m) && |m| <= |key|
    ensures IsFeistelCiphertext(h, m, key, Encrypted(h, m, key))
  {
    var c := Encrypted(h, m, key);
    CipherBlocks(h, m, key);
    forall i | 0 <= i < |m| / 64 ensures BlockEncrypts(h, m, key, c, i) {
      EncryptAt(FeistelCipher(h), Blocks(m), Blocks(key), i);
      BlockEquation(h, m, key, c, i);
    }
  }

  lemma SatisfiesOnlyEncrypted(h: RoundHash, m: seq<byte>, key: seq<byte>, c: seq<byte>)
    requires IsFeistelCiphertext(h, m, key, c)
    ensures c == Encrypted(h, m, key)
  {
    var x, ms, ks, cs := FeistelCipher(h), Blocks(m), Blocks(key), Blocks(c);
    forall i | 0 <= i < |ms| ensures Solves(x, ms, ks, cs, i) { BlockEquation(h, m, key, c, i); }
    forall i | 0 <= i < |ms| ensures Encrypt(x, ms, ks)[i] == cs[i] { EncryptUnique(x, ms, ks, cs, i); }
    assert Encrypt(x, ms, ks) == cs;
    FlatBlocks(c);
  }

  /** The encryption of a message is the one string that satisfies the equations of all its blocks. */
  lemma EncryptedIff(h: RoundHash, m: seq<byte>, key: seq<byte>, c: seq<byte>)
    requires Whole(m) && |m| <= |key|
    ensures c == Encrypted(h, m, key) <==> IsFeistelCiphertext(h, m, key, c)
  {
    EncryptedSatisfies(h, m, key);
    if IsFeistelCiphertext(h, m, key, c) { SatisfiesOnlyEncrypted(h, m, key, c); }
  }

  /** The decryption of a ciphertext is the one message that satisfies them. */
  lemma DecryptedIff(h: RoundHash, m: seq<byte>, key: seq<byte>, c: seq<byte>)
    requires Whole(c) && |c| <= |key|
    ensures m == Decrypted(h, c, key) <==> IsFeistelCiphertext(h, m, key, c)
  {
    RoundTrips(h, c, key);
    EncryptedIff(h, Decrypted(h, c, key), key, c);
    if IsFeistelCiphertext(h, m, key, c) {
      EncryptedIff(h, m, key, c);
      RoundTrips(h, m, key);
    }
  }

  // ----- the code: one block, read completely before it is written -----

  /** Two halves written over block i give the spliced buffer. */
  lemma HalvesSplice(was: seq<byte>, now: seq<byte>, i: nat, l: seq<byte>, r: seq<byte>)
    requires |l| == HALF && |r| == HALF && |now| == |was| && BLOCK * i + BLOCK <= |was|
    requires forall j :: 0 <= j < |was| ==>
               now[j] == if j < BLOCK * i || BLOCK * i + BLOCK <= j then was[j]
                         else if j < BLOCK * i + HALF then l[j - BLOCK * i]
                         else r[j - BLOCK * i - HALF]
    ensures now == Splice(was, i, l + r)
  {
  }

  /** The loop that writes the two halves of block i. */
  method StoreHalves(dst: array<byte>, i: nat, l: seq<byte>, r: seq<byte>)
    requires |l| == HALF && |r| == HALF && BLOCK * i + BLOCK <= dst.Length
    modifies dst
    ensures dst[..] == Splice(old(dst[..]), i, l + r)
  {
    var at := BLOCK * i;
    var j := 0;
    while j < HALF
      invariant 0 <= j <= HALF
      invariant forall p :: 0 <= p < dst.Length ==>
                  dst[p] == if at <= p < at + j then l[p - at]
                            else if at + HALF <= p < at + HALF + j then r[p - at - HALF]
                            else old(dst[p])
    {
      dst[at + HALF + j] := r[j];
      dst[at + j] := l[j];
      j := j + 1;
    }
    HalvesSplice(old(dst[..]), dst[..], i, l, r);
  }

  /** A loop of byte-wise exclusive or. */
  method XorLoop(a: seq<byte>, b: seq<byte>) returns (out: seq<byte>)
    requires |a| == |b|
    ensures out == XorSeq(a, b)
  {
    var buffer := new byte[|a|];
    var j := 0;
    while j < |a|
      invariant 0 <= j <= |a|
      invariant forall i :: 0 <= i < j ==> buffer[i] == Xor(a[i], b[i])
    {
      buffer[j] := Xor(a[j], b[j]);
      j := j + 1;
    }
    out := buffer[..];
  }

  method EncryptBlock(h: RoundHash, src: array<byte>, i: nat, key: Block, dst: array<byte>)
    requires BLOCK * i + BLOCK <= src.Length && BLOCK * i + BLOCK <= dst.Length
    modifies dst
    ensures dst[..] == Splice(old(dst[..]), i, EncryptedBlock(h, BlockAt(old(src[..]), i), key))
    ensures TwoRounds(h, BlockAt(old(src[..]), i), key, BlockAt(dst[..], i))
  {
    var inBlock: Block := src[BLOCK * i..BLOCK * i + BLOCK];
    assert inBlock == BlockAt(src[..], i);
    var right := XorLoop(inBlock[..HALF], h(inBlock[HALF..], key[..HALF]));
    var left := inBlock[HALF..];
    var outRight := XorLoop(left, h(right, key[HALF..]));
    ghost var e := EncryptedBlock(h, inBlock, key);
    RoundEquations(h, inBlock, key, e);
    SpliceAt(dst[..], i, e, i);
    StoreHalves(dst, i, right, outRight);
  }

  method DecryptBlock(h: RoundHash, src: array<byte>, i: nat, key: Block, dst: array<byte>)
    requires BLOCK * i + BLOCK <= src.Length && BLOCK * i + BLOCK <= dst.Length
    modifies dst
    ensures dst[..] == Splice(old(dst[..]), i, DecryptedBlock(h, BlockAt(old(src[..]), i), key))
    ensures TwoRounds(h, BlockAt(dst[..], i), key, BlockAt(old(src[..]), i))
  {
    var inBlock: Block := src[BLOCK * i..BLOCK * i + BLOCK];
    assert inBlock == BlockAt(src[..], i);
    var left := XorLoop(inBlock[HALF..], h(inBlock[..HALF], key[HALF..]));
    var right := inBlock[..HALF];
    var outLeft := XorLoop(right, h(left, key[..HALF]));
    ghost var d := DecryptedBlock(h, inBlock, key);
    RoundEquations(h, d, key, inBlock);
    SpliceAt(dst[..], i, d, i);
    StoreHalves(dst, i, outLeft, left);
  }

  /** The key block of position i, from the key and the ciphertext in the buffer. */
  method FillFeedKey(key: seq<byte>, cipher: array<byte>, i: nat) returns (feed: Block)
    requires BLOCK * i + BLOCK <= |key| && 0 < i && BLOCK * i <= cipher.Length
    ensures feed == XorSeq(BlockAt(key, i), BlockAt(cipher[..], i - 1))
  {
    var prev := cipher[BLOCK * (i - 1)..BLOCK * i];
    assert prev == BlockAt(cipher[..], i - 1);
    feed := XorLoop(key[BLOCK * i..BLOCK * i + BLOCK], prev);
  }

  // ----- the code: whole buffers -----

  /** The blocks of buffer at positions [from, to) are those of bs. */
  ghost predicate Holds(buffer: array<byte>, bs: seq<Block>, from: nat, to: nat)
    requires to <= |bs|
    reads buffer
  {
    BLOCK * to <= buffer.Length && forall b :: from <= b < to ==> BlockAt(buffer[..], b) == bs[b]
  }

  lemma {:induction false} HoldsAll(s: seq<byte>, bs: seq<Block>, len: nat)
    requires len == BLOCK * |bs| <= |s|
    requires forall b :: 0 <= b < |bs| ==> BlockAt(s, b) == bs[b]
    ensures s[..len] == Flat(bs)
  {
    var m := s[..len];
    forall b | 0 <= b < |bs| ensures Blocks(m)[b] == bs[b] { assert BlockAt(m, b) == BlockAt(s, b); }
    assert Blocks(m) == bs;
    FlatBlocks(m);
  }

  lemma SpliceTail(s: seq<byte>, i: nat, b: Block, len: nat)
    requires BLOCK * i + BLOCK <= len <= |s|
    ensures Splice(s, i, b)[len..] == s[len..]
  {
  }

  /** Encryption, forward. The two buffers may be the same. */
  method FeistelEncrypt(h: RoundHash, plaintext: array<byte>, len: nat, key: seq<byte>, ciphertext: array<byte>)
    requires 0 < len && len % BLOCK == 0
    requires len <= plaintext.Length && len <= ciphertext.Length && len <= |key|
    modifies ciphertext
    ensures ciphertext[..len] == Encrypted(h, old(plaintext[..len]), key)
    ensures IsFeistelCiphertext(h, old(plaintext[..len]), key, ciphertext[..len])
    ensures ciphertext[len..] == old(ciphertext[len..])
  {
    ghost var x, ms, ks := FeistelCipher(h), Blocks(plaintext[..len]), Blocks(key);
    ghost var cs := Encrypt(x, ms, ks);
    var n := len / BLOCK;
    assert Holds(plaintext, ms, 0, n) by {
      forall b | 0 <= b < n ensures BlockAt(plaintext[..], b) == ms[b] {
        assert BlockAt(plaintext[..len], b) == BlockAt(plaintext[..], b);
      }
    }
    var i := 0;
    while i < n
      invariant 0 <= i <= n
      invariant Holds(plaintext, ms, i, n) && Holds(ciphertext, cs, 0, i)
      invariant ciphertext[len..] == old(ciphertext[len..])
    {
      var feed: Block := key[BLOCK * i..BLOCK * i + BLOCK];
      if i > 0 {
        feed := FillFeedKey(key, ciphertext, i);
      }
      EncryptAt(x, ms, ks, i);
      assert feed == FeedKey(x, ks, cs, i);
      EncryptTurn(h, plaintext, ciphertext, i, n, len, feed, ms, cs);
      i := i + 1;
    }
    HoldsAll(ciphertext[..], cs, len);
    EncryptedIff(h, old(plaintext[..len]), key, ciphertext[..len]);
  }

  /** One turn: block i of the plaintext becomes block i of the ciphertext, other blocks stay. */
  method EncryptTurn(h: RoundHash, plaintext: array<byte>, ciphertext: array<byte>, i: nat, n: nat, len: nat, feed: Block,
                     ghost ms: seq<Block>, ghost cs: seq<Block>)
    requires i < n && |ms| == |cs| == n && len == BLOCK * n && len <= ciphertext.Length
    requires Holds(plaintext, ms, i, n) && Holds(ciphertext, cs, 0, i)
    requires cs[i] == EncryptedBlock(h, ms[i], feed)
    modifies ciphertext
    ensures Holds(plaintext, ms, i + 1, n) && Holds(ciphertext, cs, 0, i + 1)
    ensures ciphertext[len..] == old(ciphertext[len..])
  {
    ghost var was := ciphertext[..];
    assert BlockAt(plaintext[..], i) == ms[i];
    EncryptBlock(h, plaintext, i, feed, ciphertext);
    SpliceTail(was, i, cs[i], len);
    forall b | 0 <= b < n ensures BlockAt(ciphertext[..], b) == if b == i then cs[i] else BlockAt(was, b) {
      SpliceAt(was, i, cs[i], b);
    }
  }

  /** Decryption, back to front, so that the ciphertext block before the current one is still there. */
  method FeistelDecrypt(h: RoundHash, ciphertext: array<byte>, len: nat, key: seq<byte>, plaintext: array<byte>)
    requires 0 < len && len % BLOCK == 0
    requires len <= plaintext.Length && len <= ciphertext.Length && len <= |key|
    modifies plaintext
    ensures plaintext[..len] == Decrypted(h, old(ciphertext[..len]), key)
    ensures IsFeistelCiphertext(h, plaintext[..len], key, old(ciphertext[..len]))
    ensures plaintext[len..] == old(plaintext[len..])
  {
    ghost var x, cs, ks := FeistelCipher(h), Blocks(ciphertext[..len]), Blocks(key);
    ghost var ms := Decrypt(x, cs, ks);
    var n := len / BLOCK;
    assert Holds(ciphertext, cs, 0, n) by {
      forall b | 0 <= b < n ensures BlockAt(ciphertext[..], b) == cs[b] {
        assert BlockAt(ciphertext[..len], b) == BlockAt(ciphertext[..], b);
      }
    }
    var i := n - 1;
    while i > 0
      invariant 0 <= i < n
      invariant Holds(ciphertext, cs, 0, i + 1) && Holds(plaintext, ms, i + 1, n)
      invariant plaintext[len..] == old(plaintext[len..])
    {
      var feed := FillFeedKey(key, ciphertext, i);
      assert feed == FeedKey(x, ks, cs, i);
      DecryptTurn(h, ciphertext, plaintext, i, n, len, feed, cs, ms);
      i := i - 1;
    }
    assert key[..BLOCK] == FeedKey(x, ks, cs, 0);
    DecryptTurn(h, ciphertext, plaintext, 0, n, len, key[..BLOCK], cs, ms);
    HoldsAll(plaintext[..], ms, len);
    DecryptedIff(h, plaintext[..len], key, old(ciphertext[..len]));
  }

  method DecryptTurn(h: RoundHash, ciphertext: array<byte>, plaintext: array<byte>, i: nat, n: nat, len: nat, feed: Block,
                     ghost cs: seq<Block>, ghost ms: seq<Block>)
    requires i < n && |ms| == |cs| == n && len == BLOCK * n && len <= plaintext.Length
    requires Holds(ciphertext, cs, 0, i + 1) && Holds(plaintext, ms, i + 1, n)
    requires ms[i] == DecryptedBlock(h, cs[i], feed)
    modifies plaintext
    ensures Holds(ciphertext, cs, 0, i) && Holds(plaintext, ms, i, n)
    ensures plaintext[len..] == old(plaintext[len..])
  {
    ghost var was := plaintext[..];
    assert BlockAt(ciphertext[..], i) == cs[i];
    DecryptBlock(h, ciphertext, i, feed, plaintext);
    SpliceTail(was, i, ms[i], len);
    forall b | 0 <= b < n ensures BlockAt(plaintext[..], b) == if b == i then ms[i] else BlockAt(was, b) {
      SpliceAt(was, i, ms[i], b);
    }
  }
}
