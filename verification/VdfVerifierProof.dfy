/** The invariant of the parallel verifier and its preservation by every step. */
module VdfVerifierProof {
  import opened Bytes
  import opened HashChain
  import opened VdfVerifier

  // ----- the row loop -----

  /** The locals of the row loop are the values of the block computed so far. */
  ghost predicate CursorOk(k: Task, cur: Cursor) {
    && cur.block <= |k.checkpoints| && cur.row <= 1 + k.skip
    && cur.inCopy == k.f.mix(Offset(k.skip, cur.block) + cur.row, k.BlockRow(cur.block, cur.row))
    && (cur.row > 0 ==> cur.expdOut == k.BlockRow(cur.block, cur.row))
  }

  lemma LoadOk(k: Task, c: nat)
    requires c <= |k.checkpoints|
    ensures CursorOk(k, Load(k, c))
  {
  }

  lemma AdvanceOk(k: Task, cur: Cursor)
    requires CursorOk(k, cur) && cur.row <= k.skip
    ensures CursorOk(k, Advance(k, cur))
    ensures Advance(k, cur).expdOut == k.BlockRow(cur.block, cur.row + 1)
  {
  }

  // ----- the output buffer -----

  /** Row r of block c is in the buffer. */
  ghost predicate RowIs(k: Task, out: seq<Word>, c: nat, r: nat)
    requires c <= |k.checkpoints|
  {
    Offset(k.skip, c) + r < |out| && out[Offset(k.skip, c) + r] == k.BlockRow(c, r + 1)
  }

  /** The first m rows of block c are in the buffer. */
  ghost predicate Written(k: Task, out: seq<Word>, c: nat, m: nat)
    requires c <= |k.checkpoints|
  {
    forall r :: 0 <= r < m ==> RowIs(k, out, c, r)
  }

  /** A row belongs to one block only. */
  lemma {:induction false} RowUnique(skip: nat, c: nat, r: nat, d: nat, q: nat)
    requires r <= skip && q <= skip && Offset(skip, c) + r == Offset(skip, d) + q
    ensures c == d && r == q
  {
    if c < d { OffsetMono(skip, c, d); } else if d < c { OffsetMono(skip, d, c); }
  }

  /** Writing a row of any block with its value keeps every row that is already right. */
  lemma WriteKeeps(k: Task, out: seq<Word>, d: nat, q: nat, c: nat, m: nat)
    requires c <= |k.checkpoints| && d <= |k.checkpoints| && m <= 1 + k.skip && q <= k.skip
    requires Offset(k.skip, d) + q < |out|
    requires Written(k, out, c, m)
    ensures Written(k, out[Offset(k.skip, d) + q := k.BlockRow(d, q + 1)], c, m)
  {
    var out' := out[Offset(k.skip, d) + q := k.BlockRow(d, q + 1)];
    forall r | 0 <= r < m ensures RowIs(k, out', c, r) {
      assert RowIs(k, out, c, r);
      if Offset(k.skip, c) + r == Offset(k.skip, d) + q { RowUnique(k.skip, c, r, d, q); }
    }
  }

  lemma {:induction false} WriteExtends(k: Task, out: seq<Word>, c: nat, r: nat)
    requires c <= |k.checkpoints| && r <= k.skip && Offset(k.skip, c) + r < |out|
    requires Written(k, out, c, r)
    ensures Written(k, out[Offset(k.skip, c) + r := k.BlockRow(c, r + 1)], c, r + 1)
  {
    WriteKeeps(k, out, c, r, c, r);
  }

  /** Block c has been computed, has reached its target and is in the buffer. */
  ghost predicate BlockDone(k: Task, out: seq<Word>, c: nat)
    requires c <= |k.checkpoints|
  {
    k.BlockOk(c) && Written(k, out, c, 1 + k.skip)
  }

  // ----- the invariant -----

  predicate Busy(x: Worker, c: nat) {
    x.cur.block == c && !x.pc.Exited?
  }

  ghost predicate AllClaimed(s: State, m: nat) {
    m <= |s.inProgress| && forall j :: 0 <= j < m ==> s.inProgress[j]
  }

  /** Every index up to the worker's own is claimed; its rows so far are in the buffer. */
  ghost predicate WorkerOk(job: Job, s: State, x: Worker) {
    var k, c := job.k, x.cur.block;
    && c < job.Count()
    && AllClaimed(s, c + 1)
    && match x.pc
       case Top => true
       case Rows => CursorOk(k, x.cur) && x.cur.row <= k.skip && Written(k, s.out, c, x.cur.row)
       case Compare => CursorOk(k, x.cur) && x.cur.row == 1 + k.skip && Written(k, s.out, c, 1 + k.skip)
       case Steal => BlockDone(k, s.out, c)
       case Exited => s.verifyRes ==> AllClaimed(s, job.Count())
  }

  /** A claimed checkpoint is done, or some worker is at it. */
  ghost predicate Covered(job: Job, s: State, j: nat)
    requires j < job.Count()
  {
    BlockDone(job.k, s.out, j) || exists w :: 0 <= w < |s.workers| && Busy(s.workers[w], j)
  }

  ghost predicate MainOk(job: Job, s: State) {
    var k, n := job.k, job.Count();
    && (!s.main.Spawning? ==> |s.workers| == job.WorkerCount())
    && s.final.block == n
    && match s.main
       case Spawning => true
       case Deciding => true
       case FinalRows => CursorOk(k, s.final) && s.final.row <= k.skip && Written(k, s.out, n, s.final.row)
       case FinalCompare => CursorOk(k, s.final) && s.final.row == 1 + k.skip && Written(k, s.out, n, 1 + k.skip)
       case Joining(j) =>
         && j <= |s.workers|
         && (forall w :: 0 <= w < j ==> s.workers[w].pc.Exited?)
         && (s.verifyRes ==> BlockDone(k, s.out, n))
       case Returned(r) =>
         && r == s.verifyRes
         && (forall w :: 0 <= w < |s.workers| ==> s.workers[w].pc.Exited?)
         && (s.verifyRes ==> BlockDone(k, s.out, n))
  }

  ghost predicate Inv(job: Job, s: State) {
    && Shape(job, s)
    && AllClaimed(s, |s.workers|)
    && (forall w :: 0 <= w < |s.workers| ==> WorkerOk(job, s, s.workers[w]))
    && (s.verifyRes ==> forall j :: 0 <= j < job.Count() && s.inProgress[j] ==> Covered(job, s, j))
    && (!s.verifyRes ==> !job.k.Accepted())
    && MainOk(job, s)
  }

  // ----- what every step keeps -----

  /** Claims and right rows stay; verifyRes never returns to true. */
  ghost predicate Grows(job: Job, s: State, s': State) {
    && |s'.inProgress| == |s.inProgress|
    && (forall j :: 0 <= j < |s.inProgress| && s.inProgress[j] ==> s'.inProgress[j])
    && (s'.verifyRes ==> s.verifyRes)
    && (forall c, m :: 0 <= c <= job.Count() && 0 <= m <= 1 + job.k.skip && Written(job.k, s.out, c, m)
          ==> Written(job.k, s'.out, c, m))
  }

  lemma WorkerOkStays(job: Job, s: State, s': State, x: Worker)
    requires Grows(job, s, s') && WorkerOk(job, s, x)
    ensures WorkerOk(job, s', x)
  {
  }

  lemma CoveredStays(job: Job, s: State, s': State, j: nat)
    requires j < job.Count() && Grows(job, s, s') && Covered(job, s, j)
    requires |s.workers| <= |s'.workers|
    requires forall w :: 0 <= w < |s.workers| && Busy(s.workers[w], j) ==> Busy(s'.workers[w], j) || BlockDone(job.k, s'.out, j)
    ensures Covered(job, s', j)
  {
    if !BlockDone(job.k, s.out, j) {
      var w :| 0 <= w < |s.workers| && Busy(s.workers[w], j);
      assert Busy(s'.workers[w], j) || BlockDone(job.k, s'.out, j);
    }
  }

  lemma WriteGrows(job: Job, s: State, cur: Cursor)
    requires |s.out| == job.k.Rows() && CursorOk(job.k, cur) && cur.row <= job.k.skip
    ensures Grows(job, s, WriteRow(job.k, s, cur, job.k.BlockRow(cur.block, cur.row + 1)))
  {
    RowInBuffer(job.k, cur.block, cur.row);
    forall c, m | 0 <= c <= job.Count() && 0 <= m <= 1 + job.k.skip && Written(job.k, s.out, c, m)
      ensures Written(job.k, s.out[Offset(job.k.skip, cur.block) + cur.row := job.k.BlockRow(cur.block, cur.row + 1)], c, m)
    {
      WriteKeeps(job.k, s.out, cur.block, cur.row, c, m);
    }
  }

  lemma RowStepGrows(job: Job, s: State, w: nat)
    requires Inv(job, s) && Enabled(s, Work(w)) && s.workers[w].pc.Rows?
    ensures Grows(job, s, WorkerStep(job, s, w))
  {
    assert WorkerOk(job, s, s.workers[w]);
    AdvanceOk(job.k, s.workers[w].cur);
    WriteGrows(job, s, s.workers[w].cur);
  }

  lemma WorkerStepGrows(job: Job, s: State, w: nat)
    requires Inv(job, s) && Enabled(s, Work(w))
    ensures Grows(job, s, WorkerStep(job, s, w))
  {
    if s.workers[w].pc.Rows? { RowStepGrows(job, s, w); }
  }

  lemma MainStepGrows(job: Job, s: State)
    requires Inv(job, s) && Enabled(s, Main)
    ensures Grows(job, s, MainStep(job, s))
  {
    if s.main.FinalRows? {
      AdvanceOk(job.k, s.final);
      WriteGrows(job, s, s.final);
    }
  }

  /** One turn of the row loop puts one more row of its block into the buffer. */
  lemma RowTurn(k: Task, s: State, cur: Cursor)
    requires |s.out| == k.Rows() && CursorOk(k, cur) && cur.row <= k.skip && Written(k, s.out, cur.block, cur.row)
    ensures var cur' := Advance(k, cur);
            && CursorOk(k, cur') && cur'.block == cur.block && cur'.row == cur.row + 1
            && Written(k, WriteRow(k, s, cur, cur'.expdOut).out, cur.block, cur.row + 1)
  {
    AdvanceOk(k, cur);
    RowInBuffer(k, cur.block, cur.row);
    WriteExtends(k, s.out, cur.block, cur.row);
  }

  lemma RowMoverOk(job: Job, s: State, w: nat)
    requires Inv(job, s) && Enabled(s, Work(w)) && s.workers[w].pc.Rows?
    ensures var s' := WorkerStep(job, s, w); WorkerOk(job, s', s'.workers[w])
  {
    assert WorkerOk(job, s, s.workers[w]);
    RowTurn(job.k, s, s.workers[w].cur);
  }

  lemma OtherMoverOk(job: Job, s: State, w: nat)
    requires Inv(job, s) && Enabled(s, Work(w)) && !s.workers[w].pc.Rows?
    ensures var s' := WorkerStep(job, s, w); WorkerOk(job, s', s'.workers[w])
  {
    assert WorkerOk(job, s, s.workers[w]);
    LoadOk(job.k, s.workers[w].cur.block);
  }

  /** A worker that moves satisfies its part of the invariant again. */
  lemma MoverOk(job: Job, s: State, w: nat)
    requires Inv(job, s) && Enabled(s, Work(w))
    ensures var s' := WorkerStep(job, s, w); WorkerOk(job, s', s'.workers[w])
  {
    if s.workers[w].pc.Rows? { RowMoverOk(job, s, w); } else { OtherMoverOk(job, s, w); }
  }

  /** The checkpoint that the mover leaves behind is done, unless the run has failed. */
  lemma MoverCovers(job: Job, s: State, w: nat)
    requires Inv(job, s) && Enabled(s, Work(w))
    ensures var s', c := WorkerStep(job, s, w), s.workers[w].cur.block;
            s'.verifyRes ==> Busy(s'.workers[w], c) || BlockDone(job.k, s'.out, c)
  {
    assert WorkerOk(job, s, s.workers[w]);
  }

  lemma FailedCompare(job: Job, s: State, w: nat)
    requires Inv(job, s) && Enabled(s, Work(w))
    ensures !WorkerStep(job, s, w).verifyRes ==> !job.k.Accepted()
  {
    var x := s.workers[w];
    assert WorkerOk(job, s, x);
    if x.pc.Compare? && x.cur.expdOut != job.k.checkpoints[x.cur.block] {
      assert !job.k.BlockOk(x.cur.block);
    }
  }

  lemma WorkerStepKeepsWorkers(job: Job, s: State, w: nat)
    requires Inv(job, s) && Enabled(s, Work(w))
    ensures var s' := WorkerStep(job, s, w);
            forall v :: 0 <= v < |s'.workers| ==> WorkerOk(job, s', s'.workers[v])
  {
    var s' := WorkerStep(job, s, w);
    WorkerStepGrows(job, s, w);
    forall v | 0 <= v < |s'.workers| ensures WorkerOk(job, s', s'.workers[v]) {
      if v == w { MoverOk(job, s, w); } else { WorkerOkStays(job, s, s', s.workers[v]); }
    }
  }

  lemma WorkerStepKeepsCover(job: Job, s: State, w: nat)
    requires Inv(job, s) && Enabled(s, Work(w))
    ensures var s' := WorkerStep(job, s, w);
            s'.verifyRes ==> forall j :: 0 <= j < job.Count() && s'.inProgress[j] ==> Covered(job, s', j)
  {
    var s' := WorkerStep(job, s, w);
    WorkerStepGrows(job, s, w);
    if s'.verifyRes {
      MoverCovers(job, s, w);
      forall j | 0 <= j < job.Count() && s'.inProgress[j] ensures Covered(job, s', j) {
        if s.inProgress[j] {
          CoveredStays(job, s, s', j);
        } else {
          assert Busy(s'.workers[w], j);
        }
      }
    }
  }

  lemma WorkerStepKeepsInv(job: Job, s: State, w: nat)
    requires Inv(job, s) && Enabled(s, Work(w))
    ensures Inv(job, WorkerStep(job, s, w))
  {
    WorkerStepKeepsWorkers(job, s, w);
    WorkerStepKeepsCover(job, s, w);
    FailedCompare(job, s, w);
    WorkerStepGrows(job, s, w);
    MainOkStays(job, s, WorkerStep(job, s, w));
  }

  lemma MainOkStays(job: Job, s: State, s': State)
    requires Grows(job, s, s') && MainOk(job, s)
    requires s'.main == s.main && s'.final == s.final && |s'.workers| == |s.workers|
    requires forall v :: 0 <= v < |s.workers| && s.workers[v].pc.Exited? ==> s'.workers[v].pc.Exited?
    requires s.main.Returned? ==> s'.verifyRes == s.verifyRes
    ensures MainOk(job, s')
  {
  }

  lemma MainStepKeepsMainOk(job: Job, s: State)
    requires Inv(job, s) && Enabled(s, Main)
    ensures MainOk(job, MainStep(job, s))
  {
    var k, n := job.k, job.Count();
    match s.main
    case Spawning =>
    case Deciding => LoadOk(k, n);
    case FinalRows =>
      RowTurn(k, s, s.final);
    case FinalCompare =>
    case Joining(j) =>
  }

  lemma MainStepKeepsInv(job: Job, s: State)
    requires Inv(job, s) && Enabled(s, Main)
    ensures Inv(job, MainStep(job, s))
  {
    var s' := MainStep(job, s);
    assert Grows(job, s, s') by { MainStepGrows(job, s); }
    MainStepKeepsMainOk(job, s);
    forall v | 0 <= v < |s'.workers| ensures WorkerOk(job, s', s'.workers[v]) {
      if v < |s.workers| { WorkerOkStays(job, s, s', s.workers[v]); }
    }
    if s'.verifyRes {
      forall j | 0 <= j < job.Count() && s'.inProgress[j] ensures Covered(job, s', j) {
        if s.inProgress[j] {
          CoveredStays(job, s, s', j);
        } else {
          assert Busy(s'.workers[j], j);
        }
      }
    }
    if s.main.FinalCompare? && s.final.expdOut != job.k.result {
      assert !job.k.BlockOk(job.Count());
    }
  }

  lemma InitInv(job: Job, out: seq<Word>)
    requires job.Valid() && |out| == job.k.Rows()
    ensures Inv(job, Init(job, out))
  {
  }

  lemma StepKeepsInv(job: Job, s: State, step: Step)
    requires Inv(job, s) && Enabled(s, step)
    ensures Inv(job, Apply(job, s, step))
  {
    match step
    case Main => MainStepKeepsInv(job, s);
    case Work(w) => WorkerStepKeepsInv(job, s, w);
  }

  /** The invariant holds along every schedule. */
  lemma {:induction false} RunKeepsInv(job: Job, s: State, schedule: seq<Step>, s': State)
    requires Inv(job, s) && Leads(job, s, schedule, s')
    ensures Inv(job, s')
    decreases |schedule|
  {
    if schedule == [] {
    } else {
      StepKeepsInv(job, s, schedule[0]);
      RunKeepsInv(job, Apply(job, s, schedule[0]), schedule[1..], s');
    }
  }
}
