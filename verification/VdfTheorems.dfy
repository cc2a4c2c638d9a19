/** The parallel verifiers of the VDF against the prover and against each other. */
module VdfTheorems {
  import opened Bytes
  import opened HashChain
  import opened VdfSpec
  import opened VdfProver
  import opened VdfVerifier
  import opened VdfVerifierProof
  import opened VdfVerifierTheorems

  /** A run that has returned, with its verdict. */
  ghost predicate Completed(job: Job, out: seq<Word>, schedule: seq<Step>, s: State) {
    Reached(job, out, schedule, s) && s.main.Returned?
  }

  /**
   * Whatever the schedule and the number of threads, the verifier returns true
   * for the output of the prover, and for nothing else.
   */
  lemma VerifierAcceptsExactlyProver(
      p: Params, seed: Word, skip: nat, checkpoints: seq<Word>, result: Word, maxThreads: nat,
      out: seq<Word>, schedule: seq<Step>, s: State)
    requires p.reset.NoReset? && (p.iters >= 2 || skip == 0)
    requires Completed(Job(TaskOf(p, seed, skip, checkpoints, result), maxThreads), out, schedule, s)
    ensures s.main.res <==> IsProverOutput(SaltedHash(p.sha, p.salt), seed, skip, p.iters, checkpoints, result)
  {
    VerdictIsSequential(Job(TaskOf(p, seed, skip, checkpoints, result), maxThreads), out, schedule, s);
    AcceptedIffProverOutput(p, seed, skip, checkpoints, result);
  }

  /**
   * With fewer than two iterations and at least one skip, the parallel verifier
   * returns false on the prover's own output under the counting hash: in every
   * completed run, and there is one.
   */
  lemma VerifierRejectsProverBelowTwo(
      salt: Word, seed: Word, skip: nat, iters: int, maxThreads: nat, out: seq<Word>)
    returns (schedule: seq<Step>, s: State)
    requires 1 <= skip < INT_LIMIT && iters < 2 && maxThreads >= 1 && |out| == Offset(skip, 1)
    ensures var result := Prove(SaltedHash(CountingSha(), salt), seed, skip, iters, 0);
            var job := Job(TaskOf(Params(CountingSha(), salt, iters, NoReset), seed, skip, [], result), maxThreads);
            && Completed(job, out, schedule, s) && s.main == Returned(false)
            && forall schedule', s' :: Completed(job, out, schedule', s') ==> s'.main == Returned(false)
  {
    var result := Prove(SaltedHash(CountingSha(), salt), seed, skip, iters, 0);
    var job := Job(TaskOf(Params(CountingSha(), salt, iters, NoReset), seed, skip, [], result), maxThreads);
    InitInv(job, out);
    schedule, s := RunCanFinish(job, Init(job, out));
    ProverRejectedBelowTwo(salt, seed, skip, iters);
    VerdictIsSequential(job, out, schedule, s);
    forall schedule', s' | Completed(job, out, schedule', s') ensures s'.main == Returned(false) {
      VerdictIsSequential(job, out, schedule', s');
    }
  }

  /**
   * The verifier with a reset returns true exactly for the block ends of the
   * recurrence with the mix, and then its buffer holds all values of that recurrence.
   */
  lemma ResetVerifierChecksRecurrence(
      p: Params, seed: Word, skip: nat, checkpoints: seq<Word>, result: Word, maxThreads: nat,
      out: seq<Word>, schedule: seq<Step>, s: State)
    requires Completed(Job(TaskOf(p, seed, skip, checkpoints, result), maxThreads), out, schedule, s)
    ensures s.main.res <==>
            && (forall c :: 0 <= c < |checkpoints| ==> checkpoints[c] == Steps(FnsOf(p), 0, seed, Offset(skip, c + 1)))
            && result == Steps(FnsOf(p), 0, seed, Offset(skip, |checkpoints| + 1))
    ensures s.main.res ==> forall i :: 0 <= i < |s.out| ==> s.out[i] == Steps(FnsOf(p), 0, seed, i + 1)
  {
    var k := TaskOf(p, seed, skip, checkpoints, result);
    VerdictIsSequential(Job(k, maxThreads), out, schedule, s);
    AcceptedIffOnChain(k);
    OnChainPointwise(k);
  }

  lemma OnChainPointwise(k: Task)
    ensures k.OnChain() <==>
            && (forall c :: 0 <= c < |k.checkpoints| ==> k.checkpoints[c] == k.Chain(Offset(k.skip, c + 1)))
            && k.result == k.Chain(Offset(k.skip, |k.checkpoints| + 1))
  {
    if k.OnChain() {
      assert k.Target(|k.checkpoints|) == k.Chain(Offset(k.skip, |k.checkpoints| + 1));
      forall c | 0 <= c < |k.checkpoints| ensures k.checkpoints[c] == k.Chain(Offset(k.skip, c + 1)) {
        assert k.Target(c) == k.Chain(Offset(k.skip, c + 1));
      }
    }
  }

  /**
   * If the reset step is none of the step numbers of the run (it may be the
   * one just after them), every run of the reset verifier and every run of the
   * plain verifier agree on the verdict and, after acceptance, on the buffer.
   */
  lemma QuietResetChangesNothing(
      p: Params, k: Task, maxThreads: nat, out: seq<Word>, schedule: seq<Step>, s: State,
      maxThreads': nat, out': seq<Word>, schedule': seq<Step>, s': State)
    requires k.f == FnsOf(p) && QuietOn(p, 0, k.Rows())
    requires Completed(Job(k, maxThreads), out, schedule, s)
    requires Completed(Job(k.(f := FnsOf(Plain(p))), maxThreads'), out', schedule', s')
    ensures s.main.res == s'.main.res
    ensures s.main.res ==> s.out == s'.out
  {
    var q := k.(f := FnsOf(Plain(p)));
    VerdictIsSequential(Job(k, maxThreads), out, schedule, s);
    VerdictIsSequential(Job(q, maxThreads'), out', schedule', s');
    ResetOutsideRun(p, k);
    if s.main.res {
      forall i | 0 <= i < |s.out| ensures s.out[i] == s'.out[i] {
        assert k.Chain(i + 1) == q.Chain(i + 1);
      }
    }
  }
}
