/**
 * What the VDF computes, said without the definitions of prover and verifier:
 * one flat sequence of hashes, and closed forms under three concrete hashes.
 */
module VdfLaws {
  import opened Bytes
  import opened HashChain
  import opened VdfSpec
  import opened VdfProver
  import opened VdfVerifier
  import opened VdfVerifierTheorems
  import opened VdfTheorems

  // ----- the flat sequence of hashes -----

  /** Hash number q of the whole run: SHA-256 of the salt, advanced once every r hashes, and the hash before. */
  function FlatChain(sha: Sha, salt: Word, seed: Word, r: nat, q: nat): Word
    requires r >= 1
  {
    if q == 0 then seed
    else
      var s: Word := Add(salt, (q - 1) / r);
      sha(s + FlatChain(sha, salt, seed, r, q - 1))
  }

  /** The r values of flat after base are hashes at step number n. */
  ghost predicate SegmentAt(flat: nat -> Word, h: StepHash, r: nat, base: nat, n: nat) {
    forall q: nat :: base < q <= base + r ==> flat(q) == h(n, flat(q - 1))
  }

  lemma FlatNext(sha: Sha, salt: Word, seed: Word, r: nat, q: nat, n: nat)
    requires r >= 1 && q >= 1 && (q - 1) / r == n
    ensures FlatChain(sha, salt, seed, r, q) == SaltedHash(sha, salt)(n, FlatChain(sha, salt, seed, r, q - 1))
  {
    var x := FlatChain(sha, salt, seed, r, q - 1);
    var s: Word := Add(salt, n);
    assert FlatChain(sha, salt, seed, r, q) == sha(s + x);
    assert SaltAt(salt, n) == s;
  }

  lemma FlatSegment(sha: Sha, salt: Word, seed: Word, r: nat, n: nat)
    requires r >= 1
    ensures SegmentAt(q => FlatChain(sha, salt, seed, r, q), SaltedHash(sha, salt), r, r * n, n)
  {
    var base, h := r * n, SaltedHash(sha, salt);
    forall q: nat | base < q <= base + r
      ensures FlatChain(sha, salt, seed, r, q) == h(n, FlatChain(sha, salt, seed, r, q - 1))
    {
      ModUnique(q - 1, r, n, q - 1 - base);
      FlatNext(sha, salt, seed, r, q, n);
    }
  }

  lemma {:induction false} SegmentIterates(flat: nat -> Word, h: StepHash, r: nat, base: nat, n: nat, k: nat)
    requires k <= r && SegmentAt(flat, h, r, base, n)
    ensures flat(base + k) == Iterate(h, n, flat(base), k)
  {
    if k == 0 {
    } else {
      SegmentIterates(flat, h, r, base, n, k - 1);
      var q := base + k;
      assert flat(q) == h(n, flat(q - 1));
    }
  }

  lemma {:induction false} SegmentsAreSteps(flat: nat -> Word, f: Fns, h: StepHash, iters: int, n: nat)
    requires IsPlainChain(f, h, iters)
    requires forall m: nat :: m < n ==> SegmentAt(flat, h, Rounds(iters), Rounds(iters) * m, m)
    ensures flat(Rounds(iters) * n) == Steps(f, 0, flat(0), n)
    decreases n
  {
    var r := Rounds(iters);
    if n == 0 {
    } else {
      SegmentsAreSteps(flat, f, h, iters, n - 1);
      SegmentIterates(flat, h, r, r * (n - 1), n - 1, r);
      assert r * (n - 1) + r == r * n;
    }
  }

  /** The flat sequence after n segments of iters hashes each, or of two if iters < 2. */
  function FlatEnd(sha: Sha, salt: Word, seed: Word, iters: int, n: nat): Word {
    var r := if iters < 2 then 2 else iters;
    FlatChain(sha, salt, seed, r, r * n)
  }

  lemma ChainIsFlat(sha: Sha, salt: Word, seed: Word, iters: int, n: nat)
    ensures Steps(FnsOf(Params(sha, salt, iters, NoReset)), 0, seed, n) == FlatEnd(sha, salt, seed, iters, n)
  {
    var p := Params(sha, salt, iters, NoReset);
    PlainChain(p);
    var r := Rounds(iters);
    forall m: nat | m < n
      ensures SegmentAt(q => FlatChain(sha, salt, seed, r, q), SaltedHash(sha, salt), r, r * m, m)
    {
      FlatSegment(sha, salt, seed, r, m);
    }
    SegmentsAreSteps(q => FlatChain(sha, salt, seed, r, q), FnsOf(p), SaltedHash(sha, salt), iters, n);
  }

  /** The number of segments up to the end of block c. */
  function BlockEnd(skip: nat, c: nat): nat {
    (c + 1) * (1 + skip)
  }

  /** The prover's checkpoint c is hash number iters * (c + 1) * (1 + skip) of the flat sequence. */
  lemma ProverIsFlat(sha: Sha, salt: Word, seed: Word, skip: nat, iters: int, c: nat)
    requires iters >= 2 || skip == 0
    ensures Prove(SaltedHash(sha, salt), seed, skip, iters, c) == FlatEnd(sha, salt, seed, iters, BlockEnd(skip, c))
  {
    var p := Params(sha, salt, iters, NoReset);
    PlainChain(p);
    ProveIsChain(FnsOf(p), SaltedHash(sha, salt), seed, skip, iters, c);
    ChainIsFlat(sha, salt, seed, iters, Offset(skip, c + 1));
    OffsetIsProduct(skip, c + 1);
  }

  /** The values of the chain up to the last row. */
  ghost predicate ChainIs(k: Task, value: nat -> Word) {
    forall n: nat :: n <= k.Rows() ==> k.Chain(n) == value(n)
  }

  lemma VerifierChecks(k: Task, value: nat -> Word, maxThreads: nat, out: seq<Word>, schedule: seq<Step>, s: State)
    requires Completed(Job(k, maxThreads), out, schedule, s) && ChainIs(k, value)
    ensures s.main.res <==>
            && (forall c :: 0 <= c < |k.checkpoints| ==> k.checkpoints[c] == value(BlockEnd(k.skip, c)))
            && k.result == value(BlockEnd(k.skip, |k.checkpoints|))
    ensures s.main.res ==> forall i :: 0 <= i < |s.out| ==> s.out[i] == value(i + 1)
  {
    VerdictIsSequential(Job(k, maxThreads), out, schedule, s);
    AcceptedIffOnChain(k);
    OnChainPointwise(k);
    OffsetIsProduct(k.skip, |k.checkpoints| + 1);
    forall c: nat | c < |k.checkpoints| ensures k.Chain(Offset(k.skip, c + 1)) == value(BlockEnd(k.skip, c)) {
      OffsetIsProduct(k.skip, c + 1);
      OffsetMono(k.skip, c + 1, |k.checkpoints| + 1);
    }
  }

  /**
   * Whatever the schedule, the plain verifier returns true exactly if every
   * checkpoint and the result are the hashes of the flat sequence at the block
   * ends, and then row i of the buffer is the hash that ends segment i.
   */
  lemma VerifierChecksFlatChain(
      sha: Sha, salt: Word, iters: int, seed: Word, skip: nat, checkpoints: seq<Word>, result: Word, maxThreads: nat,
      out: seq<Word>, schedule: seq<Step>, s: State)
    requires Completed(Job(TaskOf(Params(sha, salt, iters, NoReset), seed, skip, checkpoints, result), maxThreads),
                       out, schedule, s)
    ensures s.main.res <==>
            && (forall c :: 0 <= c < |checkpoints| ==>
                  checkpoints[c] == FlatEnd(sha, salt, seed, iters, BlockEnd(skip, c)))
            && result == FlatEnd(sha, salt, seed, iters, BlockEnd(skip, |checkpoints|))
    ensures s.main.res ==> forall i :: 0 <= i < |s.out| ==> s.out[i] == FlatEnd(sha, salt, seed, iters, i + 1)
  {
    var p := Params(sha, salt, iters, NoReset);
    var k := TaskOf(p, seed, skip, checkpoints, result);
    forall n: nat ensures k.Chain(n) == FlatEnd(sha, salt, seed, iters, n) {
      ChainIsFlat(sha, salt, seed, iters, n);
    }
    VerifierChecks(k, n => FlatEnd(sha, salt, seed, iters, n), maxThreads, out, schedule, s);
  }

  // ----- a hash that keeps the first half of its input: which salts are hashed -----

  function FirstHalf(): Sha {
    (b: seq<byte>) => if |b| == 64 then b[..32] else seq(32, _ => 0)
  }

  /** h forgets its input and returns the salt of the step. */
  ghost predicate ReturnsSalt(h: StepHash, salt: Word) {
    forall t: nat, x: Word :: h(t, x) == SaltAt(salt, t)
  }

  lemma FirstHalfReturnsSalt(salt: Word)
    ensures ReturnsSalt(SaltedHash(FirstHalf(), salt), salt)
  {
    forall t: nat, x: Word ensures SaltedHash(FirstHalf(), salt)(t, x) == SaltAt(salt, t) {
      assert (SaltAt(salt, t) + x)[..32] == SaltAt(salt, t);
    }
  }

  lemma BlockReturnsSalt(h: StepHash, salt: Word, t: nat, x: Word, skip: nat, iters: int)
    requires ReturnsSalt(h, salt)
    ensures Block(h, t, x, skip, iters) == SaltAt(salt, t + skip)
  {
  }

  /** The last hash before checkpoint c is made under salt + c * (1 + skip) + skip, whatever seed and iteration count. */
  lemma SaltLaw(salt: Word, seed: Word, skip: nat, iters: int, c: nat)
    ensures Prove(SaltedHash(FirstHalf(), salt), seed, skip, iters, c) == Add(salt, c * (1 + skip) + skip)
  {
    var h := SaltedHash(FirstHalf(), salt);
    FirstHalfReturnsSalt(salt);
    BlockReturnsSalt(h, salt, Offset(skip, c), Fold(Blocks(h, skip, iters), seed, c), skip, iters);
    OffsetIsProduct(skip, c);
  }

  // ----- a hash that counts: how many hashes are made -----

  /** Hashes per block: two at least without skips; with skips as many as the unrolled loops make. */
  function HashesPerBlock(skip: nat, iters: int): nat {
    if skip == 0 then (if iters < 2 then 2 else iters)
    else if iters < 1 then 2
    else (1 + skip) * iters
  }

  lemma CountingBlock(h: StepHash, word: nat -> Word, t: nat, n: nat, skip: nat, iters: int)
    requires Counts(h, word)
    ensures Block(h, t, word(n), skip, iters) == word(n + HashesPerBlock(skip, iters))
  {
    if iters >= 2 || skip == 0 {
      BlockIsHops(h, t, word(n), skip, iters);
      CountingSegments(h, word, t, n, 1 + skip, Rounds(iters));
    } else {
      CountingSkipBlock(h, word, t, n, skip, iters);
    }
  }

  lemma {:induction false} CountingSegments(h: StepHash, word: nat -> Word, t: nat, n: nat, k: nat, rounds: nat)
    requires Counts(h, word)
    ensures Hops(h, t, word(n), k, rounds) == word(n + k * rounds)
  {
    if k == 0 {
    } else {
      CountingSegments(h, word, t, n, k - 1, rounds);
      CountingIterate(h, word, t + k - 1, n + (k - 1) * rounds, rounds);
      assert (k - 1) * rounds + rounds == k * rounds;
    }
  }

  lemma {:induction false} CountingFold(h: StepHash, word: nat -> Word, skip: nat, iters: int, n: nat)
    requires Counts(h, word)
    ensures Fold(Blocks(h, skip, iters), word(0), n) == word(n * HashesPerBlock(skip, iters))
    decreases n
  {
    var m := HashesPerBlock(skip, iters);
    if n == 0 {
    } else {
      CountingFold(h, word, skip, iters, n - 1);
      CountingBlock(h, word, Offset(skip, n - 1), (n - 1) * m, skip, iters);
      assert (n - 1) * m + m == n * m;
    }
  }

  /** Checkpoint c comes after exactly (c + 1) blocks' worth of hashes, for every iteration count. */
  lemma HashCountLaw(salt: Word, seed: Word, skip: nat, iters: int, c: nat)
    ensures Prove(SaltedHash(CountingSha(), salt), seed, skip, iters, c) == Add(seed, (c + 1) * HashesPerBlock(skip, iters))
  {
    var word := (n: nat) => SaltAt(seed, n);
    AddZero(seed);
    CountingShaCounts(salt, seed);
    CountingFold(SaltedHash(CountingSha(), salt), word, skip, iters, c + 1);
  }

  // ----- a hash that keeps the second half of its input: what the reset mixes in -----

  function LastHalf(): Sha {
    (b: seq<byte>) => if |b| == 64 then b[32..] else seq(32, _ => 0)
  }

  /** Every step keeps the value, except that step d replaces it by y. */
  ghost predicate ReplacesAt(f: Fns, d: nat, y: Word, to: nat) {
    forall t: nat, x: Word :: t < to ==> Next(f, t, x) == if t == d then y else x
  }

  lemma {:induction false} ReplacedSteps(f: Fns, seed: Word, d: nat, y: Word, n: nat, to: nat)
    requires ReplacesAt(f, d, y, to) && n <= to
    ensures Steps(f, 0, seed, n) == if n <= d then seed else y
    decreases n
  {
    if n == 0 {
    } else {
      ReplacedSteps(f, seed, d, y, n - 1, to);
    }
  }

  lemma {:induction false} LastHalfIterates(salt: Word, t: nat, x: Word, k: nat)
    ensures Iterate(SaltedHash(LastHalf(), salt), t, x, k) == x
  {
    if k == 0 {
    } else {
      LastHalfIterates(salt, t, x, k - 1);
      assert (SaltAt(salt, t) + x)[32..] == x;
    }
  }

  lemma LastHalfNext(p: Params, d: nat, t: nat, x: Word)
    requires p.sha == LastHalf() && p.reset.ResetAt? && p.reset.step == Add(p.salt, d)
    requires d < Pow256(32) && t < Pow256(32)
    ensures Next(FnsOf(p), t, x) == if t == d then p.reset.seed else x
  {
    var mixed := MixIfDue(p, SaltAt(p.salt, t), x);
    assert (x + p.reset.seed)[32..] == p.reset.seed;
    if SaltAt(p.salt, t) == SaltAt(p.salt, d) { AddDistinct(p.salt, t, d); }
    LastHalfIterates(p.salt, t, mixed, Rounds(p.iters));
  }

  /**
   * The reset hashes the previous value first and the reset seed second, before
   * the segment of step number d, and only there: under a hash that keeps the
   * second half of its input the chain is the seed up to d and the reset seed after it.
   */
  lemma ResetLaw(p: Params, seed: Word, d: nat, n: nat)
    requires p.sha == LastHalf() && p.reset.ResetAt? && p.reset.step == Add(p.salt, d)
    requires d < Pow256(32) && n <= Pow256(32)
    ensures Steps(FnsOf(p), 0, seed, n) == if n <= d then seed else p.reset.seed
  {
    forall t: nat, x: Word | t < Pow256(32) ensures Next(FnsOf(p), t, x) == if t == d then p.reset.seed else x {
      LastHalfNext(p, d, t, x);
    }
    ReplacedSteps(FnsOf(p), seed, d, p.reset.seed, n, Pow256(32));
  }

  // ----- the reset in the flat sequence -----

  /** The reset step is step number d, and the salts of the first rows step numbers are all different. */
  predicate ResetsAt(p: Params, d: nat, rows: nat) {
    p.reset.ResetAt? && p.reset.step == Add(p.salt, d) && d < Pow256(32) && rows <= Pow256(32)
  }

  /** The flat sequence up to step d, one hash of its value and the reset seed, and a flat sequence under salt + d. */
  function FlatReset(p: Params, seed: Word, d: nat, n: nat): Word
    requires p.reset.ResetAt?
  {
    if n <= d then FlatEnd(p.sha, p.salt, seed, p.iters, n)
    else
      var mixed := p.sha(FlatEnd(p.sha, p.salt, seed, p.iters, d) + p.reset.seed);
      FlatEnd(p.sha, SaltAt(p.salt, d), mixed, p.iters, n - d)
  }

  lemma ShiftedSteps(f: Fns, g: Fns, h: StepHash, h': StepHash, iters: int, d: nat, x: Word, n: nat)
    requires IsPlainChain(f, h, iters) && IsPlainChain(g, h', iters) && IsShifted(h', h, d)
    ensures Steps(f, d, x, n) == Steps(g, 0, x, n)
  {
    HopsAreSteps(f, h, iters, d, x, n);
    HopsAreSteps(g, h', iters, 0, x, n);
    ShiftedHops(h', h, d, 0, x, n, Rounds(iters));
  }

  /** A plain chain from step number d on is the plain chain of the salt advanced by d. */
  lemma ShiftedChain(sha: Sha, salt: Word, iters: int, d: nat, x: Word, n: nat)
    ensures Steps(FnsOf(Params(sha, salt, iters, NoReset)), d, x, n) == FlatEnd(sha, SaltAt(salt, d), x, iters, n)
  {
    var p, q := Params(sha, salt, iters, NoReset), Params(sha, SaltAt(salt, d), iters, NoReset);
    PlainChain(p);
    PlainChain(q);
    ShiftedHash(sha, salt, d);
    ShiftedSteps(FnsOf(p), FnsOf(q), SaltedHash(sha, salt), SaltedHash(sha, q.salt), iters, d, x, n);
    ChainIsFlat(sha, q.salt, x, iters, n);
  }

  lemma MixedChain(p: Params, seed: Word, d: nat, y: Word, n: nat)
    requires p.reset.ResetAt? && d < n && y == Steps(FnsOf(Plain(p)), 0, seed, d)
    ensures FlatReset(p, seed, d, n) == Steps(FnsOf(Plain(p)), d, p.sha(y + p.reset.seed), n - d)
  {
    ChainIsFlat(p.sha, p.salt, seed, p.iters, d);
    ShiftedChain(p.sha, p.salt, p.iters, d, p.sha(y + p.reset.seed), n - d);
  }

  /** The chain with a reset at step number d, for every hash. */
  lemma ResetChainIsFlat(p: Params, seed: Word, d: nat, n: nat, rows: nat)
    requires ResetsAt(p, d, rows) && n <= rows
    ensures Steps(FnsOf(p), 0, seed, n) == FlatReset(p, seed, d, n)
  {
    ResetRestartsChain(p, seed, d, n);
    if n <= d {
      ChainIsFlat(p.sha, p.salt, seed, p.iters, n);
    } else {
      MixedChain(p, seed, d, Steps(FnsOf(Plain(p)), 0, seed, d), n);
    }
  }

  /**
   * Whatever the schedule, the verifier with a reset at step number d returns
   * true exactly for the block ends of that flat sequence, and then its buffer
   * holds the ends of all segments.
   */
  lemma ResetVerifierChecksFlatChain(
      p: Params, d: nat, seed: Word, skip: nat, checkpoints: seq<Word>, result: Word, maxThreads: nat,
      out: seq<Word>, schedule: seq<Step>, s: State)
    requires ResetsAt(p, d, BlockEnd(skip, |checkpoints|))
    requires Completed(Job(TaskOf(p, seed, skip, checkpoints, result), maxThreads), out, schedule, s)
    ensures s.main.res <==>
            && (forall c :: 0 <= c < |checkpoints| ==> checkpoints[c] == FlatReset(p, seed, d, BlockEnd(skip, c)))
            && result == FlatReset(p, seed, d, BlockEnd(skip, |checkpoints|))
    ensures s.main.res ==> forall i :: 0 <= i < |s.out| ==> s.out[i] == FlatReset(p, seed, d, i + 1)
  {
    var k := TaskOf(p, seed, skip, checkpoints, result);
    assert k.Rows() == BlockEnd(skip, |checkpoints|) by { OffsetIsProduct(skip, |checkpoints| + 1); }
    forall n: nat | n <= k.Rows() ensures k.Chain(n) == FlatReset(p, seed, d, n) {
      ResetChainIsFlat(p, seed, d, n, k.Rows());
    }
    VerifierChecks(k, n => FlatReset(p, seed, d, n), maxThreads, out, schedule, s);
  }
}
