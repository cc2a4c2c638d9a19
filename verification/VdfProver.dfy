/** The prover: the salted hash chain with checkpoints, in its two unrolled branches. */
module VdfProver {
  import opened Bytes
  import opened HashChain
  import opened VdfSpec

  // ----- what the two branches compute -----

  function NonNegative(n: int): nat {
    if n < 0 then 0 else n
  }

  function AtLeastOne(n: int): nat {
    if n < 1 then 1 else n
  }

  /** k segments of the given number of hashes, from step number t on. */
  function Hops(h: StepHash, t: nat, x: Word, k: nat, rounds: nat): Word {
    if k == 0 then x else Iterate(h, t + k - 1, Hops(h, t, x, k - 1, rounds), rounds)
  }

  /** One block of the branch with skips: the first and the last segment are unrolled by one hash. */
  function SkipBlock(h: StepHash, t: nat, x: Word, skip: nat, iters: int): Word
    requires skip >= 1
  {
    var first := Iterate(h, t, x, AtLeastOne(iters));
    var middle := Hops(h, t + 1, first, skip - 1, NonNegative(iters));
    Iterate(h, t + skip, middle, AtLeastOne(iters))
  }

  function Block(h: StepHash, t: nat, x: Word, skip: nat, iters: int): Word {
    if skip == 0 then Iterate(h, t, x, Rounds(iters)) else SkipBlock(h, t, x, skip, iters)
  }

  /** Maps the number of a block and its input to its output. */
  type BlockFn = (nat, Word) -> Word

  function Blocks(h: StepHash, skip: nat, iters: int): BlockFn {
    (c: nat, x: Word) => Block(h, Offset(skip, c), x, skip, iters)
  }

  /** The output of the first n blocks in a row. */
  function Fold(b: BlockFn, x: Word, n: nat): Word {
    if n == 0 then x else b(n - 1, Fold(b, x, n - 1))
  }

  /** The value the prover stores for checkpoint c; the value after the last checkpoint is the result. */
  function Prove(h: StepHash, seed: Word, skip: nat, iters: int, c: nat): Word {
    Fold(Blocks(h, skip, iters), seed, c + 1)
  }

  // ----- the code -----

  /** The salt buffer holds the salt of step number t of a chain that began at start. */
  ghost predicate SaltIs(salt: array<byte>, start: Word, t: nat)
    reads salt
  {
    salt[..] == SaltAt(start, t)
  }

  method Tick(salt: array<byte>, ghost start: Word, ghost t: nat)
    requires SaltIs(salt, start, t)
    modifies salt
    ensures SaltIs(salt, start, t + 1)
  {
    AddAdd(start, t, 1);
    LongAdd(salt, 1);
  }

  method HashOnce(sha: Sha, salt: array<byte>, x: Word, ghost start: Word, ghost t: nat) returns (y: Word)
    requires SaltIs(salt, start, t)
    ensures y == SaltedHash(sha, start)(t, x)
  {
    y := sha(salt[..] + x);
  }

  /** The hashing loops: i runs from `from` to iters, one hash each. */
  method HashLoop(sha: Sha, salt: array<byte>, x: Word, from: nat, iters: int, ghost start: Word, ghost t: nat)
    returns (y: Word)
    requires SaltIs(salt, start, t)
    ensures y == Iterate(SaltedHash(sha, start), t, x, NonNegative(iters - from))
  {
    y := x;
    var i: int := from;
    while i < iters
      invariant from <= i && (i <= iters || i == from)
      invariant y == Iterate(SaltedHash(sha, start), t, x, i - from)
    {
      y := HashOnce(sha, salt, y, start, t);
      i := i + 1;
    }
  }

  lemma OneHash(h: StepHash, t: nat, x: Word, n: nat)
    ensures Iterate(h, t, h(t, x), n) == Iterate(h, t, x, 1 + n)
  {
    assert h(t, x) == Iterate(h, t, x, 1) by { assert Iterate(h, t, x, 0) == x; }
    IterateSplit(h, t, x, 1, n);
  }

  method NoSkipBlock(sha: Sha, salt: array<byte>, x: Word, iters: int, ghost start: Word, ghost t: nat)
    returns (y: Word)
    requires SaltIs(salt, start, t)
    modifies salt
    ensures y == Iterate(SaltedHash(sha, start), t, x, Rounds(iters))
    ensures SaltIs(salt, start, t + 1)
  {
    var temp := HashOnce(sha, salt, x, start, t);
    temp := HashLoop(sha, salt, temp, 2, iters, start, t);
    y := HashOnce(sha, salt, temp, start, t);
    OneHash(SaltedHash(sha, start), t, x, NonNegative(iters - 2));
    Tick(salt, start, t);
  }

  method UnrolledSkipBlock(sha: Sha, salt: array<byte>, x: Word, skip: nat, iters: int, ghost start: Word, ghost t: nat)
    returns (y: Word)
    requires SaltIs(salt, start, t) && skip >= 1
    modifies salt
    ensures y == SkipBlock(SaltedHash(sha, start), t, x, skip, iters)
    ensures SaltIs(salt, start, t + 1 + skip)
  {
    ghost var h := SaltedHash(sha, start);
    var temp := HashOnce(sha, salt, x, start, t);
    temp := HashLoop(sha, salt, temp, 1, iters, start, t);
    OneHash(h, t, x, NonNegative(iters - 1));
    Tick(salt, start, t);
    temp := MiddleSegments(sha, salt, temp, skip, iters, start, t);
    ghost var middle := temp;
    temp := HashLoop(sha, salt, temp, 1, iters, start, t + skip);
    y := HashOnce(sha, salt, temp, start, t + skip);
    assert y == Iterate(h, t + skip, middle, AtLeastOne(iters));
    Tick(salt, start, t + skip);
  }

  /** The segments of a block between the first and the last one. */
  method MiddleSegments(sha: Sha, salt: array<byte>, x: Word, skip: nat, iters: int, ghost start: Word, ghost t: nat)
    returns (y: Word)
    requires SaltIs(salt, start, t + 1) && skip >= 1
    modifies salt
    ensures y == Hops(SaltedHash(sha, start), t + 1, x, skip - 1, NonNegative(iters))
    ensures SaltIs(salt, start, t + skip)
  {
    y := x;
    var j := 1;
    while j < skip
      invariant 1 <= j <= skip
      invariant SaltIs(salt, start, t + j)
      invariant y == Hops(SaltedHash(sha, start), t + 1, x, j - 1, NonNegative(iters))
    {
      y := HashLoop(sha, salt, y, 0, iters, start, t + j);
      Tick(salt, start, t + j);
      j := j + 1;
    }
  }

  /**
   * The prover core. The salt buffer is advanced in place, checkpoint rows are
   * read back as the input of the next block, and the last block goes to out.
   */
  method ProveInPlace(sha: Sha, salt: array<byte>, seed: Word, outCheckpoint: array<Word>,
                      checkpointCount: nat, skip: nat, iters: int) returns (out: Word)
    requires salt.Length == 32 && outCheckpoint.Length == checkpointCount
    requires salt as object != outCheckpoint
    modifies salt, outCheckpoint
    ensures forall c :: 0 <= c < checkpointCount ==>
              outCheckpoint[c] == Prove(SaltedHash(sha, old(salt[..])), seed, skip, iters, c)
    ensures out == Prove(SaltedHash(sha, old(salt[..])), seed, skip, iters, checkpointCount)
    ensures salt[..] == Add(old(salt[..]), Offset(skip, checkpointCount + 1))
  {
    ghost var start: Word := salt[..];
    ghost var b := Blocks(SaltedHash(sha, start), skip, iters);
    AddZero(start);
    out := seed;
    var c := 0;
    while c <= checkpointCount
      invariant 0 <= c <= checkpointCount + 1
      invariant SaltIs(salt, start, Offset(skip, c))
      invariant forall i :: 0 <= i < c && i < checkpointCount ==> outCheckpoint[i] == Fold(b, seed, i + 1)
      invariant c == checkpointCount + 1 ==> out == Fold(b, seed, c)
    {
      var locIn := if c == 0 then seed else outCheckpoint[c - 1];
      assert locIn == Fold(b, seed, c);
      var locOut := BlockInPlace(sha, salt, locIn, skip, iters, start, c, b);
      assert locOut == Fold(b, seed, c + 1);
      if c == checkpointCount {
        out := locOut;
      } else {
        outCheckpoint[c] := locOut;
      }
      c := c + 1;
    }
  }

  /** One turn of either outer loop. */
  method BlockInPlace(sha: Sha, salt: array<byte>, x: Word, skip: nat, iters: int,
                      ghost start: Word, ghost c: nat, ghost b: BlockFn) returns (y: Word)
    requires SaltIs(salt, start, Offset(skip, c))
    requires b == Blocks(SaltedHash(sha, start), skip, iters)
    modifies salt
    ensures y == b(c, x)
    ensures SaltIs(salt, start, Offset(skip, c + 1))
  {
    ghost var t := Offset(skip, c);
    if skip == 0 {
      y := NoSkipBlock(sha, salt, x, iters, start, t);
    } else {
      y := UnrolledSkipBlock(sha, salt, x, skip, iters, start, t);
    }
  }

  /** The exported prover works on a copy of the salt. */
  method VdfSha2(sha: Sha, salt: Word, seed: Word, outCheckpoint: array<Word>,
                 checkpointCount: nat, skip: nat, iters: int) returns (out: Word)
    requires outCheckpoint.Length == checkpointCount
    modifies outCheckpoint
    ensures forall c :: 0 <= c < checkpointCount ==>
              outCheckpoint[c] == Prove(SaltedHash(sha, salt), seed, skip, iters, c)
    ensures out == Prove(SaltedHash(sha, salt), seed, skip, iters, checkpointCount)
  {
    var stack := new byte[32](i requires 0 <= i < 32 => salt[i]);
    assert stack[..] == salt;
    out := ProveInPlace(sha, stack, seed, outCheckpoint, checkpointCount, skip, iters);
  }

  // ----- the prover against the chain -----

  lemma {:induction false} HopsJoin(h: StepHash, t: nat, x: Word, k: nat, rounds: nat)
    ensures Hops(h, t + 1, Iterate(h, t, x, rounds), k, rounds) == Hops(h, t, x, k + 1, rounds)
  {
    if k == 0 {
      assert Hops(h, t, x, 0, rounds) == x;
    } else {
      HopsJoin(h, t, x, k - 1, rounds);
    }
  }

  /** With at least two hashes per segment both branches compute plain segments. */
  lemma BlockIsHops(h: StepHash, t: nat, x: Word, skip: nat, iters: int)
    requires iters >= 2 || skip == 0
    ensures Block(h, t, x, skip, iters) == Hops(h, t, x, 1 + skip, Rounds(iters))
  {
    if skip == 0 {
      assert Hops(h, t, x, 0, Rounds(iters)) == x;
    } else {
      HopsJoin(h, t, x, skip - 1, iters);
    }
  }

  /** f is the chain of the verifiers for hash h, without a reset. */
  ghost predicate IsPlainChain(f: Fns, h: StepHash, iters: int) {
    forall t, x :: Next(f, t, x) == Iterate(h, t, x, Rounds(iters))
  }

  lemma PlainChain(p: Params)
    requires p.reset.NoReset?
    ensures IsPlainChain(FnsOf(p), SaltedHash(p.sha, p.salt), p.iters)
  {
  }

  lemma {:induction false} HopsAreSteps(f: Fns, h: StepHash, iters: int, t: nat, x: Word, k: nat)
    requires IsPlainChain(f, h, iters)
    ensures Hops(h, t, x, k, Rounds(iters)) == Steps(f, t, x, k)
  {
    if k == 0 {
    } else {
      HopsAreSteps(f, h, iters, t, x, k - 1);
    }
  }

  lemma BlockIsSteps(f: Fns, h: StepHash, iters: int, t: nat, x: Word, skip: nat)
    requires IsPlainChain(f, h, iters) && (iters >= 2 || skip == 0)
    ensures Block(h, t, x, skip, iters) == Steps(f, t, x, 1 + skip)
  {
    BlockIsHops(h, t, x, skip, iters);
    HopsAreSteps(f, h, iters, t, x, 1 + skip);
  }

  lemma OneMoreBlock(f: Fns, seed: Word, skip: nat, n: nat, x: Word, y: Word)
    requires x == Steps(f, 0, seed, Offset(skip, n))
    requires y == Steps(f, Offset(skip, n), x, 1 + skip)
    ensures y == Steps(f, 0, seed, Offset(skip, n + 1))
  {
    StepsSplit(f, 0, seed, Offset(skip, n), 1 + skip);
  }

  lemma {:induction false} FoldIsSteps(f: Fns, b: BlockFn, seed: Word, skip: nat, n: nat)
    requires forall c, x :: b(c, x) == Steps(f, Offset(skip, c), x, 1 + skip)
    ensures Fold(b, seed, n) == Steps(f, 0, seed, Offset(skip, n))
  {
    if n == 0 {
    } else {
      FoldIsSteps(f, b, seed, skip, n - 1);
      OneMoreBlock(f, seed, skip, n - 1, Fold(b, seed, n - 1), Fold(b, seed, n));
    }
  }

  /** The prover's checkpoints are the values of the chain at the block ends. */
  lemma ProveIsChain(f: Fns, h: StepHash, seed: Word, skip: nat, iters: int, c: nat)
    requires IsPlainChain(f, h, iters) && (iters >= 2 || skip == 0)
    ensures Prove(h, seed, skip, iters, c) == Steps(f, 0, seed, Offset(skip, c + 1))
  {
    var b := Blocks(h, skip, iters);
    forall i: nat, x ensures b(i, x) == Steps(f, Offset(skip, i), x, 1 + skip) {
      BlockIsSteps(f, h, iters, Offset(skip, i), x, skip);
    }
    FoldIsSteps(f, b, seed, skip, c + 1);
  }

  lemma {:induction false} OffsetOfSingle(n: nat)
    ensures Offset(0, n) == n
  {
    if n == 0 {
    } else {
      OffsetOfSingle(n - 1);
    }
  }

  /**
   * The branch with skips gives, at checkpoint c, the value and the salt that
   * the branch without skips gives after (c + 1) * (1 + skip) segments.
   */
  lemma SkipBranchSamplesNoSkipBranch(sha: Sha, salt: Word, seed: Word, skip: nat, iters: int, c: nat)
    requires iters >= 2
    ensures var h, n := SaltedHash(sha, salt), Offset(skip, c + 1);
            && Prove(h, seed, skip, iters, c) == Prove(h, seed, 0, iters, n - 1)
            && SaltAt(salt, Offset(skip, c + 1)) == SaltAt(salt, Offset(0, n))
  {
    var p := Params(sha, salt, iters, NoReset);
    PlainChain(p);
    SkipSamplesChain(FnsOf(p), SaltedHash(sha, salt), seed, skip, iters, c);
    OffsetOfSingle(Offset(skip, c + 1));
  }

  lemma SkipSamplesChain(f: Fns, h: StepHash, seed: Word, skip: nat, iters: int, c: nat)
    requires IsPlainChain(f, h, iters) && iters >= 2
    ensures Prove(h, seed, skip, iters, c) == Prove(h, seed, 0, iters, Offset(skip, c + 1) - 1)
  {
    var n := Offset(skip, c + 1);
    ProveIsChain(f, h, seed, skip, iters, c);
    ProveIsChain(f, h, seed, 0, iters, n - 1);
    OffsetOfSingle(n);
  }

  // ----- stopping and resuming -----

  /** g hashes at step number t as h does at step number d + t. */
  ghost predicate IsShifted(g: StepHash, h: StepHash, d: nat) {
    forall t, x :: g(t, x) == h(d + t, x)
  }

  lemma {:induction false} ShiftedIterate(g: StepHash, h: StepHash, d: nat, t: nat, x: Word, k: nat)
    requires IsShifted(g, h, d)
    ensures Iterate(g, t, x, k) == Iterate(h, d + t, x, k)
  {
    if k == 0 {
    } else {
      ShiftedIterate(g, h, d, t, x, k - 1);
    }
  }

  lemma {:induction false} ShiftedHops(g: StepHash, h: StepHash, d: nat, t: nat, x: Word, k: nat, rounds: nat)
    requires IsShifted(g, h, d)
    ensures Hops(g, t, x, k, rounds) == Hops(h, d + t, x, k, rounds)
  {
    if k == 0 {
    } else {
      ShiftedHops(g, h, d, t, x, k - 1, rounds);
      ShiftedIterate(g, h, d, t + k - 1, Hops(g, t, x, k - 1, rounds), rounds);
    }
  }

  lemma ShiftedBlock(g: StepHash, h: StepHash, d: nat, t: nat, x: Word, skip: nat, iters: int)
    requires IsShifted(g, h, d)
    ensures Block(g, t, x, skip, iters) == Block(h, d + t, x, skip, iters)
  {
    if skip == 0 {
      ShiftedIterate(g, h, d, t, x, Rounds(iters));
    } else {
      ShiftedIterate(g, h, d, t, x, AtLeastOne(iters));
      var first := Iterate(g, t, x, AtLeastOne(iters));
      ShiftedHops(g, h, d, t + 1, first, skip - 1, NonNegative(iters));
      var middle := Hops(g, t + 1, first, skip - 1, NonNegative(iters));
      ShiftedIterate(g, h, d, t + skip, middle, AtLeastOne(iters));
    }
  }

  /** Block c of g is block n + c of b. */
  ghost predicate BlocksShifted(g: BlockFn, b: BlockFn, n: nat) {
    forall c: nat, y: Word :: g(c, y) == b(n + c, y)
  }

  lemma {:induction false} ShiftedBlocks(g: StepHash, h: StepHash, skip: nat, iters: int, n: nat)
    requires IsShifted(g, h, Offset(skip, n))
    ensures BlocksShifted(Blocks(g, skip, iters), Blocks(h, skip, iters), n)
  {
    forall c: nat, y: Word
      ensures Block(g, Offset(skip, c), y, skip, iters) == Block(h, Offset(skip, n + c), y, skip, iters)
    {
      ShiftedBlockAt(g, h, y, skip, iters, n, c);
    }
  }

  lemma ShiftedBlockAt(g: StepHash, h: StepHash, y: Word, skip: nat, iters: int, n: nat, c: nat)
    requires IsShifted(g, h, Offset(skip, n))
    ensures Block(g, Offset(skip, c), y, skip, iters) == Block(h, Offset(skip, n + c), y, skip, iters)
  {
    OffsetSum(skip, n, c);
    ShiftedBlock(g, h, Offset(skip, n), Offset(skip, c), y, skip, iters);
  }

  lemma {:induction false} FoldSplit(g: BlockFn, b: BlockFn, x: Word, n: nat, m: nat)
    requires BlocksShifted(g, b, n)
    ensures Fold(g, Fold(b, x, n), m) == Fold(b, x, n + m)
    decreases m
  {
    if m == 0 {
    } else {
      FoldSplit(g, b, x, n, m - 1);
    }
  }

  lemma ResumedFold(g: StepHash, h: StepHash, x: Word, skip: nat, iters: int, n: nat, m: nat)
    requires IsShifted(g, h, Offset(skip, n))
    ensures Fold(Blocks(g, skip, iters), Fold(Blocks(h, skip, iters), x, n), m) == Fold(Blocks(h, skip, iters), x, n + m)
  {
    ShiftedBlocks(g, h, skip, iters, n);
    FoldSplit(Blocks(g, skip, iters), Blocks(h, skip, iters), x, n, m);
  }

  lemma ShiftedHash(sha: Sha, salt: Word, d: nat)
    ensures IsShifted(SaltedHash(sha, SaltAt(salt, d)), SaltedHash(sha, salt), d)
  {
    var h, g := SaltedHash(sha, salt), SaltedHash(sha, SaltAt(salt, d));
    forall t: nat, x: Word ensures g(t, x) == h(d + t, x) {
      AddAdd(salt, d, t);
      assert SaltAt(SaltAt(salt, d), t) == SaltAt(salt, d + t);
    }
  }

  /** A run stopped after checkpoint a and resumed from its result and its salt gives the values and the salt of the unsplit run. */
  lemma ResumedRun(sha: Sha, salt: Word, seed: Word, skip: nat, iters: int, a: nat, b: nat)
    ensures var h, g := SaltedHash(sha, salt), SaltedHash(sha, SaltAt(salt, Offset(skip, a + 1)));
            Prove(g, Prove(h, seed, skip, iters, a), skip, iters, b) == Prove(h, seed, skip, iters, a + 1 + b)
    ensures SaltAt(SaltAt(salt, Offset(skip, a + 1)), Offset(skip, b + 1)) == SaltAt(salt, Offset(skip, a + 1 + b + 1))
  {
    var d := Offset(skip, a + 1);
    ShiftedHash(sha, salt, d);
    ResumedProve(SaltedHash(sha, SaltAt(salt, d)), SaltedHash(sha, salt), seed, skip, iters, a, b);
    ResumedSalt(salt, skip, a, b);
  }

  lemma ResumedSalt(salt: Word, skip: nat, a: nat, b: nat)
    ensures SaltAt(SaltAt(salt, Offset(skip, a + 1)), Offset(skip, b + 1)) == SaltAt(salt, Offset(skip, a + 1 + b + 1))
  {
    AddAdd(salt, Offset(skip, a + 1), Offset(skip, b + 1));
    OffsetSum(skip, a + 1, b + 1);
  }

  lemma ResumedProve(g: StepHash, h: StepHash, seed: Word, skip: nat, iters: int, a: nat, b: nat)
    requires IsShifted(g, h, Offset(skip, a + 1))
    ensures Prove(g, Prove(h, seed, skip, iters, a), skip, iters, b) == Prove(h, seed, skip, iters, a + 1 + b)
  {
    ResumedFold(g, h, seed, skip, iters, a + 1, b + 1);
  }

  // ----- prover against verifier -----

  /** The task of checking a claim for a given prover setting. */
  function TaskOf(p: Params, seed: Word, skip: nat, checkpoints: seq<Word>, result: Word): Task {
    Task(FnsOf(p), seed, skip, checkpoints, result)
  }

  /** The claim is exactly what the prover outputs. */
  ghost predicate IsProverOutput(h: StepHash, seed: Word, skip: nat, iters: int, checkpoints: seq<Word>, result: Word) {
    && (forall c :: 0 <= c < |checkpoints| ==> checkpoints[c] == Prove(h, seed, skip, iters, c))
    && result == Prove(h, seed, skip, iters, |checkpoints|)
  }

  lemma OnChainIffProverOutput(k: Task, h: StepHash, iters: int)
    requires IsPlainChain(k.f, h, iters) && (iters >= 2 || k.skip == 0)
    ensures k.Accepted() <==> IsProverOutput(h, k.seed, k.skip, iters, k.checkpoints, k.result)
  {
    AcceptedIffOnChain(k);
    forall c | 0 <= c <= |k.checkpoints|
      ensures k.Chain(Offset(k.skip, c + 1)) == Prove(h, k.seed, k.skip, iters, c)
    {
      ProveIsChain(k.f, h, k.seed, k.skip, iters, c);
    }
    if k.OnChain() {
      assert k.Target(|k.checkpoints|) == k.Chain(Offset(k.skip, |k.checkpoints| + 1));
      forall c | 0 <= c < |k.checkpoints| ensures k.checkpoints[c] == Prove(h, k.seed, k.skip, iters, c) {
        assert k.Target(c) == k.Chain(Offset(k.skip, c + 1));
      }
    }
  }

  /** The sequential check accepts the output of the prover and nothing else. */
  lemma AcceptedIffProverOutput(p: Params, seed: Word, skip: nat, checkpoints: seq<Word>, result: Word)
    requires p.reset.NoReset? && (p.iters >= 2 || skip == 0)
    ensures TaskOf(p, seed, skip, checkpoints, result).Accepted()
       <==> IsProverOutput(SaltedHash(p.sha, p.salt), seed, skip, p.iters, checkpoints, result)
  {
    PlainChain(p);
    OnChainIffProverOutput(TaskOf(p, seed, skip, checkpoints, result), SaltedHash(p.sha, p.salt), p.iters);
  }

  // ----- where prover and verifier part -----

  /** h counts: it takes the n-th word of an enumeration to the next one, at every step number. */
  ghost predicate Counts(h: StepHash, word: nat -> Word) {
    forall t: nat, n: nat :: h(t, word(n)) == word(n + 1)
  }

  lemma {:induction false} CountingIterate(h: StepHash, word: nat -> Word, t: nat, n: nat, k: nat)
    requires Counts(h, word)
    ensures Iterate(h, t, word(n), k) == word(n + k)
  {
    if k == 0 {
    } else {
      CountingIterate(h, word, t, n, k - 1);
    }
  }

  lemma {:induction false} CountingHops(h: StepHash, word: nat -> Word, t: nat, n: nat, k: nat, rounds: nat)
    requires Counts(h, word) && rounds <= 2
    ensures Hops(h, t, word(n), k, rounds) == word(n + k * rounds)
  {
    if k == 0 {
    } else {
      CountingHops(h, word, t, n, k - 1, rounds);
      CountingIterate(h, word, t + k - 1, n + (k - 1) * rounds, rounds);
      assert (k - 1) * rounds + rounds == k * rounds;
    }
  }

  /** With fewer than two iterations the branch with skips makes only this many hashes per block. */
  function ShortCount(skip: nat, iters: int): nat {
    if iters == 1 then skip + 1 else 2
  }

  lemma CountingSkipBlock(h: StepHash, word: nat -> Word, t: nat, n: nat, skip: nat, iters: int)
    requires Counts(h, word) && skip >= 1 && iters < 2
    ensures SkipBlock(h, t, word(n), skip, iters) == word(n + ShortCount(skip, iters))
  {
    var m := if iters == 1 then skip - 1 else 0;
    assert m == (skip - 1) * NonNegative(iters);
    CountingIterate(h, word, t, n, 1);
    CountingHops(h, word, t + 1, n + 1, skip - 1, NonNegative(iters));
    CountingIterate(h, word, t + skip, n + 1 + m, 1);
  }

  lemma CountingRejected(k: Task, h: StepHash, word: nat -> Word, iters: int)
    requires IsPlainChain(k.f, h, iters) && Counts(h, word)
    requires k.skip >= 1 && iters < 2
    requires k.checkpoints == [] && k.seed == word(0) && k.result == Prove(h, k.seed, k.skip, iters, 0)
    requires word(ShortCount(k.skip, iters)) != word((1 + k.skip) * 2)
    ensures !k.Accepted()
  {
    CountingSkipBlock(h, word, 0, 0, k.skip, iters);
    assert k.result == Block(h, 0, k.seed, k.skip, iters) by {
      assert Fold(Blocks(h, k.skip, iters), k.seed, 0) == k.seed;
    }
    CountingHops(h, word, 0, 0, 1 + k.skip, 2);
    HopsAreSteps(k.f, h, iters, 0, k.seed, 1 + k.skip);
    assert k.BlockRow(0, 1 + k.skip) == word((1 + k.skip) * 2);
    assert !k.BlockOk(0);
  }

  /** A hash that counts: it adds one to the second half of a 64-byte input. */
  function CountingSha(): Sha {
    (b: seq<byte>) => if |b| == 64 then Add(b[32..], 1) else seq(32, _ => 0)
  }

  lemma CountingShaCounts(salt: Word, seed: Word)
    ensures Counts(SaltedHash(CountingSha(), salt), (n: nat) => SaltAt(seed, n))
  {
    var h := SaltedHash(CountingSha(), salt);
    forall t: nat, n: nat ensures h(t, SaltAt(seed, n)) == SaltAt(seed, n + 1) {
      var x := SaltAt(seed, n);
      assert (SaltAt(salt, t) + x)[32..] == x;
      AddAdd(seed, n, 1);
    }
  }

  lemma CountsDiffer(seed: Word, a: nat, b: nat)
    requires a < b <= UINT_LIMIT
    ensures SaltAt(seed, a) != SaltAt(seed, b)
  {
    assert UINT_LIMIT < Pow256(32);
    if SaltAt(seed, a) == SaltAt(seed, b) { AddDistinct(seed, a, b); }
  }

  /** Under the counting hash the check rejects the prover's own result when iters < 2 and skip >= 1. */
  lemma ProverRejectedBelowTwo(salt: Word, seed: Word, skip: nat, iters: int)
    requires 1 <= skip < INT_LIMIT && iters < 2
    ensures var result := Prove(SaltedHash(CountingSha(), salt), seed, skip, iters, 0);
            !TaskOf(Params(CountingSha(), salt, iters, NoReset), seed, skip, [], result).Accepted()
  {
    var p, h := Params(CountingSha(), salt, iters, NoReset), SaltedHash(CountingSha(), salt);
    var word := (n: nat) => SaltAt(seed, n);
    PlainChain(p);
    CountingShaCounts(salt, seed);
    AddZero(seed);
    CountsDiffer(seed, ShortCount(skip, iters), (1 + skip) * 2);
    CountingRejected(TaskOf(p, seed, skip, [], Prove(h, seed, skip, iters, 0)), h, word, iters);
  }

  /** For every hash function, salt, seed and checkpoint count the check accepts the prover's own output. */
  ghost predicate AlwaysAccepted(skip: nat, iters: int) {
    forall sha: Sha, salt: Word, seed: Word, checkpoints: seq<Word>, result: Word ::
      IsProverOutput(SaltedHash(sha, salt), seed, skip, iters, checkpoints, result) ==>
      TaskOf(Params(sha, salt, iters, NoReset), seed, skip, checkpoints, result).Accepted()
  }

  /** Exactly when prover and verifier fit together. */
  lemma AlwaysAcceptedIff(skip: nat, iters: int)
    requires skip < INT_LIMIT
    ensures AlwaysAccepted(skip, iters) <==> iters >= 2 || skip == 0
  {
    if iters >= 2 || skip == 0 {
      forall sha: Sha, salt: Word, seed: Word, checkpoints: seq<Word>, result: Word
        | IsProverOutput(SaltedHash(sha, salt), seed, skip, iters, checkpoints, result)
        ensures TaskOf(Params(sha, salt, iters, NoReset), seed, skip, checkpoints, result).Accepted()
      {
        AcceptedIffProverOutput(Params(sha, salt, iters, NoReset), seed, skip, checkpoints, result);
      }
    } else {
      var z: Word := seq(32, _ => 0);
      var h := SaltedHash(CountingSha(), z);
      ProverRejectedBelowTwo(z, z, skip, iters);
      assert IsProverOutput(h, z, skip, iters, [], Prove(h, z, skip, iters, 0));
    }
  }
}
