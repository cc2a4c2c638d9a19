/** The salted SHA-256 chain of the VDF, with the optional reset at one step number. */
module VdfSpec {
  import opened Bytes
  import opened HashChain

  /** The seed mixed into the chain at one step number, for the verifier with a reset. */
  datatype Reset = NoReset | ResetAt(step: Word, seed: Word)

  /** What determines a step of the chain. iters is the C int hashingIterations. */
  datatype Params = Params(sha: Sha, salt: Word, iters: int, reset: Reset)

  function SaltAt(salt: Word, t: nat): Word {
    Add(salt, t)
  }

  /** The hash used at step number t of a chain. */
  type StepHash = (nat, Word) -> Word

  /** Step number t hashes under salt + t. */
  function SaltedHash(sha: Sha, salt: Word): StepHash {
    (t: nat, x: Word) => sha(SaltAt(salt, t) + x)
  }

  /** k hashes in a row, all at step number t. */
  function Iterate(h: StepHash, t: nat, x: Word, k: nat): Word {
    if k == 0 then x else h(t, Iterate(h, t, x, k - 1))
  }

  lemma {:induction false} IterateSplit(h: StepHash, t: nat, x: Word, a: nat, b: nat)
    ensures Iterate(h, t, Iterate(h, t, x, a), b) == Iterate(h, t, x, a + b)
    decreases b
  {
    if b == 0 {
    } else {
      IterateSplit(h, t, x, a, b - 1);
    }
  }

  /** The branch without skips always hashes at least twice. */
  function Rounds(iters: int): nat {
    if iters < 2 then 2 else iters
  }

  predicate ResetDue(reset: Reset, salt: Word) {
    reset.ResetAt? && salt == reset.step
  }

  function ResetMix(sha: Sha, x: Word, seed: Word): Word {
    sha(x + seed)
  }

  /** The input of a segment: mixed with the reset seed exactly when the salt is the reset step. */
  function MixIfDue(p: Params, salt: Word, x: Word): Word {
    if ResetDue(p.reset, salt) then ResetMix(p.sha, x, p.reset.seed) else x
  }

  /** The chain of the VDF: step t works under salt + t. */
  function FnsOf(p: Params): Fns {
    Fns((t: nat, x: Word) => Iterate(SaltedHash(p.sha, p.salt), t, x, Rounds(p.iters)),
        (t: nat, x: Word) => MixIfDue(p, SaltAt(p.salt, t), x))
  }

  /** The same chain without the reset. */
  function Plain(p: Params): Params {
    p.(reset := NoReset)
  }

  /** All step numbers of a run are different salts, so at most one of them is the reset step. */
  lemma ResetDueOnce(p: Params, t: nat, u: nat)
    requires t < Pow256(32) && u < Pow256(32)
    requires ResetDue(p.reset, SaltAt(p.salt, t)) && ResetDue(p.reset, SaltAt(p.salt, u))
    ensures t == u
  {
    AddDistinct(p.salt, t, u);
  }

  /** The reset step is none of the step numbers in [from, to). */
  ghost predicate QuietOn(p: Params, from: nat, to: nat) {
    forall i :: from <= i < to ==> !ResetDue(p.reset, SaltAt(p.salt, i))
  }

  lemma NextWithReset(p: Params, d: nat, x: Word)
    ensures Next(FnsOf(p), d, x) == Next(FnsOf(Plain(p)), d, MixIfDue(p, SaltAt(p.salt, d), x))
  {
  }

  lemma QuietAgrees(p: Params, from: nat, to: nat)
    requires QuietOn(p, from, to)
    ensures AgreeOn(FnsOf(p), FnsOf(Plain(p)), from, to)
  {
    forall i: nat, y | from <= i < to ensures Next(FnsOf(p), i, y) == Next(FnsOf(Plain(p)), i, y) {
      assert !ResetDue(p.reset, SaltAt(p.salt, i));
      NextWithReset(p, i, y);
    }
  }

  lemma QuietExceptAt(p: Params, d: nat, n: nat)
    requires d < Pow256(32) && n <= Pow256(32)
    requires ResetDue(p.reset, SaltAt(p.salt, d))
    ensures QuietOn(p, 0, d) && QuietOn(p, d + 1, n)
  {
    forall i | 0 <= i < Pow256(32) && i != d ensures !ResetDue(p.reset, SaltAt(p.salt, i)) {
      if ResetDue(p.reset, SaltAt(p.salt, i)) { ResetDueOnce(p, i, d); }
    }
  }

  /**
   * The effect of a reset at step number d: the plain chain up to d, one mix,
   * and the plain chain again from there on. The mix is applied exactly once.
   */
  lemma ResetRestartsChain(p: Params, seed: Word, d: nat, n: nat)
    requires d < Pow256(32) && n <= Pow256(32)
    requires ResetDue(p.reset, SaltAt(p.salt, d))
    ensures var plain := FnsOf(Plain(p));
            Steps(FnsOf(p), 0, seed, n) ==
            if n <= d then Steps(plain, 0, seed, n)
            else Steps(plain, d, ResetMix(p.sha, Steps(plain, 0, seed, d), p.reset.seed), n - d)
  {
    QuietExceptAt(p, d, n);
    QuietAgrees(p, 0, d);
    QuietAgrees(p, d + 1, n);
    var f, g := FnsOf(p), FnsOf(Plain(p));
    if n <= d {
      StepsAgree(f, g, 0, seed, n);
    } else {
      StepsAgree(f, g, 0, seed, d);
      var x := Steps(f, 0, seed, d);
      NextWithReset(p, d, x);
      ChainRestarts(f, g, seed, d, x, ResetMix(p.sha, x, p.reset.seed), n);
    }
  }

  /** A reset step that is none of the step numbers of a run changes neither the verdict nor the chain. */
  lemma ResetOutsideRun(p: Params, k: Task)
    requires k.f == FnsOf(p)
    requires QuietOn(p, 0, k.Rows())
    ensures k.Accepted() <==> k.(f := FnsOf(Plain(p))).Accepted()
    ensures forall t :: 0 <= t <= k.Rows() ==> k.Chain(t) == k.(f := FnsOf(Plain(p))).Chain(t)
  {
    QuietAgrees(p, 0, k.Rows());
    TasksAgree(k, FnsOf(Plain(p)));
  }
}
