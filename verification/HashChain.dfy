/**
 * A sequential chain of segments, cut into blocks of 1 + skip segments, and
 * the claim that a verifier checks about it. The segment function and the
 * function mixed in before a segment are arbitrary; both see the step number.
 */
module HashChain {
  import opened Bytes

  datatype Fns = Fns(segment: (nat, Word) -> Word, mix: (nat, Word) -> Word)

  /** One step of the chain at step number t. */
  function Next(f: Fns, t: nat, x: Word): Word {
    f.segment(t, f.mix(t, x))
  }

  /** n steps from x, the first one at step number t. */
  function Steps(f: Fns, t: nat, x: Word, n: nat): Word {
    if n == 0 then x else Next(f, t + n - 1, Steps(f, t, x, n - 1))
  }

  lemma {:induction false} StepsSplit(f: Fns, t: nat, x: Word, a: nat, b: nat)
    ensures Steps(f, t, x, a + b) == Steps(f, t + a, Steps(f, t, x, a), b)
    decreases b
  {
    if b == 0 {
    } else {
      StepsSplit(f, t, x, a, b - 1);
    }
  }

  lemma StepsFirst(f: Fns, t: nat, x: Word, n: nat)
    requires n >= 1
    ensures Steps(f, t, x, n) == Steps(f, t + 1, Next(f, t, x), n - 1)
  {
    StepsSplit(f, t, x, 1, n - 1);
    assert Steps(f, t, x, 1) == Next(f, t, Steps(f, t, x, 0));
  }

  /** Chains whose steps agree on every step number used have the same values. */
  lemma {:induction false} StepsAgree(f: Fns, g: Fns, t: nat, x: Word, n: nat)
    requires AgreeOn(f, g, t, t + n)
    ensures Steps(f, t, x, n) == Steps(g, t, x, n)
    decreases n
  {
    if n == 0 {
    } else {
      StepsAgree(f, g, t, x, n - 1);
    }
  }

  /** The steps of f and g agree at every step number in [from, to). */
  ghost predicate AgreeOn(f: Fns, g: Fns, from: nat, to: nat) {
    forall i, y :: from <= i < to ==> Next(f, i, y) == Next(g, i, y)
  }

  /** A step of f at d that equals g's step on y, and agreement afterwards, continue g's chain from y. */
  lemma {:induction false} ChainRestarts(f: Fns, g: Fns, seed: Word, d: nat, x: Word, y: Word, n: nat)
    requires d < n && AgreeOn(f, g, d + 1, n)
    requires x == Steps(f, 0, seed, d) && Next(f, d, x) == Next(g, d, y)
    ensures Steps(f, 0, seed, n) == Steps(g, d, y, n - d)
  {
    StepsSplit(f, 0, seed, d, n - d);
    RestartedTail(f, g, d, x, y, n - d);
  }

  lemma {:induction false} RestartedTail(f: Fns, g: Fns, d: nat, x: Word, y: Word, n: nat)
    requires n >= 1 && AgreeOn(f, g, d + 1, d + n)
    requires Next(f, d, x) == Next(g, d, y)
    ensures Steps(f, d, x, n) == Steps(g, d, y, n)
  {
    var z := Next(f, d, x);
    assert Steps(f, d, x, n) == Steps(f, d + 1, z, n - 1) by { StepsFirst(f, d, x, n); }
    assert Steps(g, d, y, n) == Steps(g, d + 1, z, n - 1) by { StepsFirst(g, d, y, n); }
    StepsAgree(f, g, d + 1, z, n - 1);
  }

  /** The number of segments before block c: c blocks of 1 + skip segments each. */
  function Offset(skip: nat, c: nat): (r: nat) {
    if c == 0 then 0 else Offset(skip, c - 1) + (1 + skip)
  }

  lemma {:induction false} OffsetIsProduct(skip: nat, c: nat)
    ensures Offset(skip, c) == c * (1 + skip)
  {
    if c == 0 {
    } else {
      OffsetIsProduct(skip, c - 1);
      assert (c - 1) * (1 + skip) + (1 + skip) == c * (1 + skip);
    }
  }

  lemma {:induction false} OffsetMono(skip: nat, a: nat, b: nat)
    requires a <= b
    ensures Offset(skip, a) <= Offset(skip, b)
    ensures a < b ==> Offset(skip, a) + 1 + skip <= Offset(skip, b)
    decreases b
  {
    if a < b { OffsetMono(skip, a, b - 1); }
  }

  lemma {:induction false} OffsetSum(skip: nat, a: nat, b: nat)
    ensures Offset(skip, a + b) == Offset(skip, a) + Offset(skip, b)
    decreases b
  {
    if b == 0 {
    } else {
      OffsetSum(skip, a, b - 1);
      assert a + b - 1 == a + (b - 1);
    }
  }

  // ----- the claim, checked block after block -----

  /** A chain from seed, and the block ends that are claimed of it. */
  datatype Task = Task(f: Fns, seed: Word, skip: nat, checkpoints: seq<Word>, result: Word)
  {
    /** The value of the chain after t steps. */
    function Chain(t: nat): Word {
      Steps(f, 0, seed, t)
    }

    /** The number of values the chain takes, not counting the seed. */
    function Rows(): nat {
      Offset(skip, |checkpoints| + 1)
    }

    /** The claimed value that block c starts from; block |checkpoints| is the final one. */
    function Input(c: nat): Word
      requires c <= |checkpoints|
    {
      if c == 0 then seed else checkpoints[c - 1]
    }

    /** The claimed value that block c must reach. */
    function Target(c: nat): Word
      requires c <= |checkpoints|
    {
      if c == |checkpoints| then result else checkpoints[c]
    }

    /** The value after r segments of block c, computed from the claimed input of the block. */
    function BlockRow(c: nat, r: nat): Word
      requires c <= |checkpoints|
    {
      Steps(f, Offset(skip, c), Input(c), r)
    }

    ghost predicate BlockOk(c: nat)
      requires c <= |checkpoints|
    {
      BlockRow(c, 1 + skip) == Target(c)
    }

    /** The sequential specification: every block leads from its input to its target. */
    ghost predicate Accepted() {
      forall c :: 0 <= c <= |checkpoints| ==> BlockOk(c)
    }

    /** Every claimed block end is the value of the chain there. */
    ghost predicate OnChain() {
      forall c :: 0 <= c <= |checkpoints| ==> Target(c) == Chain(Offset(skip, c + 1))
    }
  }

  /** A block that starts on the chain stays on the chain. */
  lemma {:induction false} BlockRowOnChain(k: Task, c: nat, r: nat)
    requires c <= |k.checkpoints|
    requires k.Input(c) == k.Chain(Offset(k.skip, c))
    ensures k.BlockRow(c, r) == k.Chain(Offset(k.skip, c) + r)
  {
    StepsSplit(k.f, 0, k.seed, Offset(k.skip, c), r);
  }

  lemma {:induction false} AcceptedInputOnChain(k: Task, c: nat)
    requires c <= |k.checkpoints|
    requires forall b :: 0 <= b < c ==> k.BlockOk(b)
    ensures k.Input(c) == k.Chain(Offset(k.skip, c))
  {
    if c == 0 {
    } else {
      AcceptedInputOnChain(k, c - 1);
      BlockRowOnChain(k, c - 1, 1 + k.skip);
      assert k.BlockOk(c - 1);
    }
  }

  /** The block-wise check accepts exactly the values of the chain. */
  lemma AcceptedIffOnChain(k: Task)
    ensures k.Accepted() <==> k.OnChain()
  {
    forall c | 0 <= c <= |k.checkpoints|
      ensures k.Accepted() ==> k.Target(c) == k.Chain(Offset(k.skip, c + 1))
      ensures k.OnChain() ==> k.BlockOk(c)
    {
      if k.Accepted() {
        AcceptedInputOnChain(k, c);
        BlockRowOnChain(k, c, 1 + k.skip);
        assert k.BlockOk(c);
      }
      if k.OnChain() {
        assert c > 0 ==> k.Target(c - 1) == k.Chain(Offset(k.skip, c - 1 + 1));
        BlockRowOnChain(k, c, 1 + k.skip);
      }
    }
  }

  /** The verdict and the chain depend only on the steps of the run. */
  lemma TasksAgree(k: Task, g: Fns)
    requires AgreeOn(k.f, g, 0, k.Rows())
    ensures k.Accepted() <==> k.(f := g).Accepted()
    ensures forall t :: 0 <= t <= k.Rows() ==> k.Chain(t) == k.(f := g).Chain(t)
  {
    var q := k.(f := g);
    forall t | 0 <= t <= k.Rows() ensures k.Chain(t) == q.Chain(t) {
      StepsAgree(k.f, g, 0, k.seed, t);
    }
    AcceptedIffOnChain(k);
    AcceptedIffOnChain(q);
    forall c | 0 <= c <= |k.checkpoints|
      ensures k.Target(c) == k.Chain(Offset(k.skip, c + 1)) <==> q.Target(c) == q.Chain(Offset(k.skip, c + 1))
    {
      OffsetMono(k.skip, c + 1, |k.checkpoints| + 1);
    }
  }
}
