/** The sequential code inside the verifier threads: reset test, reset mix and row loop. */
module VdfVerifierCode {
  import opened Bytes
  import opened HashChain
  import opened VdfSpec
  import opened VdfProver

  /** Compares two 32-byte buffers from the last byte to the first. */
  method FastRevCmp256(a: array<byte>, b: array<byte>) returns (same: bool)
    requires a.Length == 32 && b.Length == 32
    ensures same <==> a[..] == b[..]
  {
    var i := 31;
    while i >= 0
      invariant -1 <= i <= 31
      invariant forall j :: i < j < 32 ==> a[j] == b[j]
    {
      if a[i] != b[i] {
        assert a[..][i] != b[..][i];
        return false;
      }
      i := i - 1;
    }
    same := true;
  }

  /** Mixes the reset seed into inCopy if the salt in the buffer is the reset step. */
  method MixInPlace(p: Params, salt: array<byte>, x: Word, ghost t: nat) returns (y: Word)
    requires salt.Length == 32 && SaltIs(salt, p.salt, t)
    ensures y == FnsOf(p).mix(t, x)
  {
    y := x;
    if p.reset.ResetAt? {
      var step := new byte[32](i requires 0 <= i < 32 => p.reset.step[i]);
      assert step[..] == p.reset.step;
      var due := FastRevCmp256(salt, step);
      if due {
        y := p.sha(x + p.reset.seed);
      }
    }
  }

  /** One call of the prover core for a single block without checkpoints. */
  method SegmentInPlace(p: Params, salt: array<byte>, x: Word, ghost t: nat) returns (y: Word)
    requires salt.Length == 32 && SaltIs(salt, p.salt, t)
    modifies salt
    ensures y == FnsOf(p).segment(t, x) && SaltIs(salt, p.salt, t + 1)
  {
    y := NoSkipBlock(p.sha, salt, x, p.iters, p.salt, t);
  }

  /** Hashes inCopy, then prepares the next input. */
  method RowTurn(p: Params, salt: array<byte>, inCopy: Word, ghost t: nat, ghost f: Fns)
    returns (expdOut: Word, nextCopy: Word)
    requires f == FnsOf(p) && salt.Length == 32 && SaltIs(salt, p.salt, t)
    modifies salt
    ensures expdOut == f.segment(t, inCopy) && nextCopy == f.mix(t + 1, expdOut)
    ensures SaltIs(salt, p.salt, t + 1)
  {
    expdOut := SegmentInPlace(p, salt, inCopy, t);
    nextCopy := MixInPlace(p, salt, expdOut, t + 1);
  }

  /** The 1 + skip turns of the row loop, from row `base` of the buffer on. */
  method RowLoop(p: Params, salt: array<byte>, input: Word, base: nat, skip: nat, out: array<Word>, ghost f: Fns)
    returns (expdOut: Word)
    requires f == FnsOf(p) && salt.Length == 32 && SaltIs(salt, p.salt, base)
    requires base + skip < out.Length && salt as object != out
    modifies salt, out
    ensures expdOut == Steps(f, base, input, 1 + skip)
    ensures forall i :: base <= i <= base + skip ==> out[i] == Steps(f, base, input, i - base + 1)
    ensures forall i :: 0 <= i < out.Length && !(base <= i <= base + skip) ==> out[i] == old(out[i])
  {
    var inCopy := MixInPlace(p, salt, input, base);
    expdOut := input;
    var i := 0;
    while i <= skip
      invariant 0 <= i <= skip + 1
      invariant SaltIs(salt, p.salt, base + i)
      invariant expdOut == Steps(f, base, input, i) && inCopy == f.mix(base + i, expdOut)
      invariant forall j :: base <= j < base + i ==> out[j] == Steps(f, base, input, j - base + 1)
      invariant forall j :: 0 <= j < out.Length && !(base <= j < base + i) ==> out[j] == old(out[j])
    {
      expdOut, inCopy := RowTurn(p, salt, inCopy, base + i, f);
      out[base + i] := expdOut;
      i := i + 1;
    }
  }

  /** A copy of the start salt, advanced to step number n in one jump. */
  method JumpSalt(start: Word, n: nat) returns (salt: array<byte>)
    requires n < INT_LIMIT
    ensures fresh(salt) && salt.Length == 32 && SaltIs(salt, start, n)
  {
    salt := new byte[32](i requires 0 <= i < 32 => start[i]);
    assert salt[..] == start;
    LongAdd(salt, n);
  }

  /**
   * The computation of a worker or of main for block c: jump to the salt of the
   * block, then 1 + skip segments, each written to its row of the buffer. The
   * reset is tested before the loop and after every segment.
   */
  method ComputeBlock(p: Params, input: Word, c: nat, skip: nat, out: array<Word>) returns (expdOut: Word)
    requires c * (1 + skip) < INT_LIMIT && Offset(skip, c + 1) <= out.Length
    modifies out
    ensures expdOut == Steps(FnsOf(p), Offset(skip, c), input, 1 + skip)
    ensures forall i :: Offset(skip, c) <= i < Offset(skip, c + 1) ==>
              out[i] == Steps(FnsOf(p), Offset(skip, c), input, i - Offset(skip, c) + 1)
    ensures forall i :: 0 <= i < out.Length && !(Offset(skip, c) <= i < Offset(skip, c + 1)) ==> out[i] == old(out[i])
  {
    OffsetIsProduct(skip, c);
    var base := c * (1 + skip);
    var salt := JumpSalt(p.salt, base);
    expdOut := RowLoop(p, salt, input, base, skip, out, FnsOf(p));
  }
}
