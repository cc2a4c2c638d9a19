/** What holds of every run of the parallel verifier, whatever the schedule. */
module VdfVerifierTheorems {
  import opened Bytes
  import opened HashChain
  import opened VdfVerifier
  import opened VdfVerifierProof

  /** s is reached from the start by the given schedule. */
  ghost predicate Reached(job: Job, out: seq<Word>, schedule: seq<Step>, s: State) {
    job.Valid() && |out| == job.k.Rows() && Leads(job, Init(job, out), schedule, s)
  }

  lemma ReachedInv(job: Job, out: seq<Word>, schedule: seq<Step>, s: State)
    requires Reached(job, out, schedule, s)
    ensures Inv(job, s)
  {
    InitInv(job, out);
    RunKeepsInv(job, Init(job, out), schedule, s);
  }

  // ----- the verdict and the buffer -----

  /** A row of the buffer is a row of exactly one block. */
  lemma {:induction false} RowBlock(skip: nat, n: nat, i: nat) returns (c: nat, r: nat)
    requires i < Offset(skip, n)
    ensures c < n && r <= skip && i == Offset(skip, c) + r
  {
    if i >= Offset(skip, n - 1) {
      c, r := n - 1, i - Offset(skip, n - 1);
    } else {
      c, r := RowBlock(skip, n - 1, i);
    }
  }

  lemma AllBlocksDone(job: Job, s: State)
    requires job.Valid() && Inv(job, s) && s.main == Returned(true)
    ensures forall c :: 0 <= c <= job.Count() ==> BlockDone(job.k, s.out, c)
  {
    forall c | 0 <= c < job.Count() ensures BlockDone(job.k, s.out, c) {
      assert WorkerOk(job, s, s.workers[0]);
      assert s.inProgress[c] && Covered(job, s, c);
    }
  }

  lemma DoneRowsAreChain(k: Task, out: seq<Word>, i: nat)
    requires |out| == k.Rows() && i < k.Rows()
    requires forall c :: 0 <= c <= |k.checkpoints| ==> BlockDone(k, out, c)
    ensures out[i] == k.Chain(i + 1)
  {
    var c, r := RowBlock(k.skip, |k.checkpoints| + 1, i);
    assert BlockDone(k, out, c) && RowIs(k, out, c, r);
    forall b | 0 <= b < c ensures k.BlockOk(b) { assert BlockDone(k, out, b); }
    AcceptedInputOnChain(k, c);
    BlockRowOnChain(k, c, r + 1);
  }

  /**
   * Refinement of the sequential check: whatever the schedule and the number
   * of threads, a run that returns gives the verdict of the sequential check,
   * and after acceptance the buffer holds every value of the chain in order.
   */
  lemma VerdictIsSequential(job: Job, out: seq<Word>, schedule: seq<Step>, s: State)
    requires Reached(job, out, schedule, s) && s.main.Returned?
    ensures s.main.res <==> job.k.Accepted()
    ensures s.main.res ==> |s.out| == job.k.Rows() && forall i :: 0 <= i < |s.out| ==> s.out[i] == job.k.Chain(i + 1)
  {
    ReachedInv(job, out, schedule, s);
    if s.main.res {
      AllBlocksDone(job, s);
      forall c | 0 <= c <= job.Count() ensures job.k.BlockOk(c) { assert BlockDone(job.k, s.out, c); }
      forall i | 0 <= i < |s.out| ensures s.out[i] == job.k.Chain(i + 1) { DoneRowsAreChain(job.k, s.out, i); }
    }
  }

  /** Two completed runs on the same claim agree, whatever their schedules, thread counts and initial buffers. */
  lemma VerdictIsDeterministic(
      k: Task, m: nat, out: seq<Word>, schedule: seq<Step>, s: State, m': nat, out': seq<Word>, schedule': seq<Step>, s': State)
    requires Reached(Job(k, m), out, schedule, s) && s.main.Returned?
    requires Reached(Job(k, m'), out', schedule', s') && s'.main.Returned?
    ensures s.main.res == s'.main.res
    ensures s.main.res ==> s.out == s'.out
  {
    VerdictIsSequential(Job(k, m), out, schedule, s);
    VerdictIsSequential(Job(k, m'), out', schedule', s');
  }

  // ----- failing early -----

  /** Nobody who was not in the row loop of this block before is in it now. */
  ghost predicate NoNewBlock(s: State, s': State) {
    && !s'.verifyRes
    && |s.workers| <= |s'.workers|
    && (forall w :: 0 <= w < |s'.workers| && s'.workers[w].pc.Rows? ==>
          w < |s.workers| && s.workers[w].pc.Rows? && s.workers[w].cur.block == s'.workers[w].cur.block)
    && (s'.main.FinalRows? ==> s.main.FinalRows?)
  }

  lemma FailedStepStartsNoBlock(job: Job, s: State, step: Step)
    requires Shape(job, s) && Enabled(s, step) && !s.verifyRes
    ensures NoNewBlock(s, Apply(job, s, step))
  {
    match step
    case Main =>
    case Work(w) =>
  }

  /** Once verifyRes is false no thread starts another block, along every schedule. */
  lemma {:induction false} FailedRunStartsNoBlock(job: Job, s: State, schedule: seq<Step>, s': State)
    requires Shape(job, s) && !s.verifyRes && Leads(job, s, schedule, s')
    ensures NoNewBlock(s, s')
    decreases |schedule|
  {
    if schedule == [] {
    } else {
      FailedStepStartsNoBlock(job, s, schedule[0]);
      FailedRunStartsNoBlock(job, Apply(job, s, schedule[0]), schedule[1..], s');
    }
  }

  // ----- termination -----

  /** Turns left for a worker at a checkpoint: 1 + skip rows and four other steps. */
  function WorkerRank(job: Job, x: Worker): nat
    requires x.cur.block <= job.Count() && x.cur.row <= 1 + job.k.skip
  {
    var ahead := Offset(job.k.skip + 5, job.Count() - x.cur.block);
    match x.pc
    case Top => ahead + job.k.skip + 5
    case Rows => ahead + 3 + (1 + job.k.skip - x.cur.row)
    case Compare => ahead + 3
    case Steal => ahead + 2
    case Exited => 0
  }

  ghost function WorkersRank(job: Job, ws: seq<Worker>): nat
    requires forall w :: 0 <= w < |ws| ==> ws[w].cur.block <= job.Count() && ws[w].cur.row <= 1 + job.k.skip
  {
    if ws == [] then 0 else WorkersRank(job, ws[..|ws| - 1]) + WorkerRank(job, ws[|ws| - 1])
  }

  /** More than the rank of any worker that is spawned. */
  function SpawnBudget(job: Job): nat {
    Offset(job.k.skip + 5, job.Count()) + job.k.skip + 6
  }

  function MainRank(job: Job, s: State): nat
    requires |s.workers| <= job.WorkerCount() && s.final.row <= 1 + job.k.skip
  {
    var n := job.WorkerCount();
    match s.main
    case Spawning => Offset(SpawnBudget(job), n - |s.workers|) + n + job.k.skip + 5
    case Deciding => n + job.k.skip + 4
    case FinalRows => n + 2 + (1 + job.k.skip - s.final.row)
    case FinalCompare => n + 2
    case Joining(j) => if j <= n then n - j + 1 else 1
    case Returned(_) => 0
  }

  ghost function Rank(job: Job, s: State): nat
    requires Shape(job, s)
  {
    MainRank(job, s) + WorkersRank(job, s.workers)
  }

  lemma {:induction false} RankOfUpdate(job: Job, ws: seq<Worker>, w: nat, x: Worker)
    requires forall v :: 0 <= v < |ws| ==> ws[v].cur.block <= job.Count() && ws[v].cur.row <= 1 + job.k.skip
    requires w < |ws| && x.cur.block <= job.Count() && x.cur.row <= 1 + job.k.skip
    ensures WorkersRank(job, ws[w := x]) == WorkersRank(job, ws) - WorkerRank(job, ws[w]) + WorkerRank(job, x)
  {
    var us, last := ws[w := x], |ws| - 1;
    if w == last {
      assert us[..last] == ws[..last];
    } else {
      RankOfUpdate(job, ws[..last], w, x);
      assert us[..last] == ws[..last][w := x];
    }
  }

  lemma StealMovesOn(job: Job, s: State, w: nat)
    requires Inv(job, s) && Enabled(s, Work(w)) && s.workers[w].pc.Steal?
    ensures var x, x' := s.workers[w], WorkerStep(job, s, w).workers[w];
            && (x'.pc.Exited? || x.cur.block < x'.cur.block)
            && WorkerRank(job, x') < WorkerRank(job, x)
  {
    var x, x' := s.workers[w], WorkerStep(job, s, w).workers[w];
    if !x'.pc.Exited? {
      OffsetMono(job.k.skip + 5, job.Count() - x'.cur.block, job.Count() - x.cur.block);
    }
  }

  /** A worker's index never decreases, and a steal strictly increases it. */
  lemma WorkerMovesOn(job: Job, s: State, w: nat)
    requires Inv(job, s) && Enabled(s, Work(w))
    ensures var x, x' := s.workers[w], WorkerStep(job, s, w).workers[w];
            && x.cur.block <= x'.cur.block
            && (x.pc.Steal? && !x'.pc.Exited? ==> x.cur.block < x'.cur.block)
            && WorkerRank(job, x') < WorkerRank(job, x)
  {
    if s.workers[w].pc.Steal? {
      StealMovesOn(job, s, w);
    } else {
      assert WorkerOk(job, s, s.workers[w]);
    }
  }

  lemma WorkerStepFrame(job: Job, s: State, w: nat)
    requires Shape(job, s) && Enabled(s, Work(w))
    ensures var s' := WorkerStep(job, s, w);
            s'.main == s.main && s'.final == s.final && s'.workers == s.workers[w := s'.workers[w]]
  {
  }

  lemma RankDrops(job: Job, s: State, s': State, w: nat)
    requires Shape(job, s) && Shape(job, s') && w < |s.workers| == |s'.workers|
    requires s'.main == s.main && s'.final == s.final && s'.workers == s.workers[w := s'.workers[w]]
    requires WorkerRank(job, s'.workers[w]) < WorkerRank(job, s.workers[w])
    ensures Rank(job, s') < Rank(job, s)
  {
    RankOfUpdate(job, s.workers, w, s'.workers[w]);
  }

  lemma WorkerStepLowersRank(job: Job, s: State, w: nat)
    requires Inv(job, s) && Enabled(s, Work(w))
    ensures Rank(job, WorkerStep(job, s, w)) < Rank(job, s)
  {
    WorkerStepFrame(job, s, w);
    WorkerMovesOn(job, s, w);
    RankDrops(job, s, WorkerStep(job, s, w), w);
  }

  /** The rank of a freshly spawned worker is within the budget. */
  lemma SpawnedRank(job: Job, x: Worker)
    requires x.pc.Top? && x.cur.block <= job.Count() && x.cur.row == 0
    ensures WorkerRank(job, x) < SpawnBudget(job)
  {
    OffsetMono(job.k.skip + 5, job.Count() - x.cur.block, job.Count());
  }

  lemma {:induction false} RankOfAppend(job: Job, ws: seq<Worker>, x: Worker)
    requires forall w :: 0 <= w < |ws| ==> ws[w].cur.block <= job.Count() && ws[w].cur.row <= 1 + job.k.skip
    requires x.cur.block <= job.Count() && x.cur.row <= 1 + job.k.skip
    ensures WorkersRank(job, ws + [x]) == WorkersRank(job, ws) + WorkerRank(job, x)
  {
    assert (ws + [x])[..|ws|] == ws;
  }

  lemma SpawnLowersRank(job: Job, s: State)
    requires Inv(job, s) && s.main.Spawning?
    ensures Rank(job, MainStep(job, s)) < Rank(job, s)
  {
    var i := |s.workers|;
    if i < job.WorkerCount() {
      var x := Worker(Top, Cursor(i, 0, job.k.seed, job.k.seed));
      RankOfAppend(job, s.workers, x);
      SpawnedRank(job, x);
    }
  }

  lemma MainStepLowersRank(job: Job, s: State)
    requires Inv(job, s) && Enabled(s, Main)
    ensures Rank(job, MainStep(job, s)) < Rank(job, s)
  {
    if s.main.Spawning? {
      SpawnLowersRank(job, s);
    } else {
      assert MainStep(job, s).workers == s.workers;
    }
  }

  lemma StepLowersRank(job: Job, s: State, step: Step)
    requires Inv(job, s) && Enabled(s, step)
    ensures Rank(job, Apply(job, s, step)) < Rank(job, s)
  {
    match step
    case Main => MainStepLowersRank(job, s);
    case Work(w) => WorkerStepLowersRank(job, s, w);
  }

  lemma {:induction false} RunLowersRank(job: Job, s: State, schedule: seq<Step>, s': State)
    requires Inv(job, s) && Leads(job, s, schedule, s')
    ensures |schedule| <= Rank(job, s)
    decreases |schedule|
  {
    if schedule == [] {
    } else {
      StepKeepsInv(job, s, schedule[0]);
      StepLowersRank(job, s, schedule[0]);
      RunLowersRank(job, Apply(job, s, schedule[0]), schedule[1..], s');
    }
  }

  /** A bound on the number of steps that depends on the job only. */
  function MaxSteps(job: Job): nat {
    Offset(SpawnBudget(job), job.WorkerCount()) + job.WorkerCount() + job.k.skip + 5
  }

  /** Every run is finite, whatever the schedule. */
  lemma RunsAreBounded(job: Job, out: seq<Word>, schedule: seq<Step>, s: State)
    requires Reached(job, out, schedule, s)
    ensures |schedule| <= MaxSteps(job)
  {
    InitInv(job, out);
    RunLowersRank(job, Init(job, out), schedule, s);
  }

  /** No deadlock: a run in which no thread can move has returned. */
  lemma StuckOnlyWhenReturned(job: Job, out: seq<Word>, schedule: seq<Step>, s: State)
    requires Reached(job, out, schedule, s)
    ensures (forall step :: !Enabled(s, step)) <==> s.main.Returned?
  {
    ReachedInv(job, out, schedule, s);
    if s.main.Returned? {
      forall step ensures !Enabled(s, step) { }
    } else {
      assert Enabled(s, Main) || Enabled(s, Work(s.main.next));
    }
  }

  lemma Prepend(job: Job, s: State, step: Step, rest: seq<Step>, s': State)
    requires Shape(job, s) && Enabled(s, step) && Leads(job, Apply(job, s, step), rest, s')
    ensures Leads(job, s, [step] + rest, s')
  {
    assert ([step] + rest)[1..] == rest;
  }

  /** Every run can be continued until it returns. */
  lemma {:induction false} RunCanFinish(job: Job, s: State) returns (schedule: seq<Step>, s': State)
    requires job.Valid() && Inv(job, s)
    ensures Leads(job, s, schedule, s') && s'.main.Returned?
    decreases Rank(job, s)
  {
    if s.main.Returned? {
      schedule, s' := [], s;
    } else {
      var step := if Enabled(s, Main) then Main else Work(s.main.next);
      StepKeepsInv(job, s, step);
      StepLowersRank(job, s, step);
      var rest;
      rest, s' := RunCanFinish(job, Apply(job, s, step));
      schedule := [step] + rest;
      Prepend(job, s, step, rest, s');
    }
  }

  // ----- claims and writes -----

  function Claims(s: State, j: nat): nat
    requires j < |s.spawns| == |s.steals|
  {
    s.spawns[j] + s.steals[j]
  }

  /** What the claim counters record. */
  ghost predicate ClaimHistory(job: Job, s: State) {
    && Shape(job, s)
    && forall j :: 0 <= j < job.Count() ==>
         && s.spawns[j] == (if j < |s.workers| then 1 else 0)
         && s.steals[j] <= 1
         && (j == 0 ==> s.steals[j] == 0)
         && (s.inProgress[j] <==> Claims(s, j) >= 1)
  }

  /** A write carries the value of its row, computed from the claimed input of its block. */
  ghost predicate WriteOk(k: Task, e: Write) {
    e.block <= |k.checkpoints| && e.row <= k.skip && e.value == k.BlockRow(e.block, e.row + 1)
  }

  ghost predicate WriteHistory(job: Job, s: State) {
    forall i :: 0 <= i < |s.writes| ==> WriteOk(job.k, s.writes[i])
  }

  ghost predicate History(job: Job, s: State) {
    ClaimHistory(job, s) && WriteHistory(job, s)
  }

  lemma WorkerStepKeepsClaims(job: Job, s: State, w: nat)
    requires ClaimHistory(job, s) && Enabled(s, Work(w))
    ensures ClaimHistory(job, WorkerStep(job, s, w))
  {
  }

  lemma MainStepKeepsClaims(job: Job, s: State)
    requires ClaimHistory(job, s) && Enabled(s, Main)
    ensures ClaimHistory(job, MainStep(job, s))
  {
  }

  lemma WorkerStepKeepsWrites(job: Job, s: State, w: nat)
    requires Inv(job, s) && WriteHistory(job, s) && Enabled(s, Work(w))
    ensures WriteHistory(job, WorkerStep(job, s, w))
  {
    assert WorkerOk(job, s, s.workers[w]);
    if s.workers[w].pc.Rows? { AdvanceOk(job.k, s.workers[w].cur); }
  }

  lemma MainStepKeepsWrites(job: Job, s: State)
    requires Inv(job, s) && WriteHistory(job, s) && Enabled(s, Main)
    ensures WriteHistory(job, MainStep(job, s))
  {
    if s.main.FinalRows? { AdvanceOk(job.k, s.final); }
  }

  lemma StepKeepsHistory(job: Job, s: State, step: Step)
    requires Inv(job, s) && History(job, s) && Enabled(s, step)
    ensures History(job, Apply(job, s, step))
  {
    match step
    case Main =>
      MainStepKeepsClaims(job, s);
      MainStepKeepsWrites(job, s);
    case Work(w) =>
      WorkerStepKeepsClaims(job, s, w);
      WorkerStepKeepsWrites(job, s, w);
  }

  lemma {:induction false} RunKeepsHistory(job: Job, s: State, schedule: seq<Step>, s': State)
    requires Inv(job, s) && History(job, s) && Leads(job, s, schedule, s')
    ensures History(job, s')
    decreases |schedule|
  {
    if schedule == [] {
    } else {
      StepKeepsInv(job, s, schedule[0]);
      StepKeepsHistory(job, s, schedule[0]);
      RunKeepsHistory(job, Apply(job, s, schedule[0]), schedule[1..], s');
    }
  }

  lemma ReachedHistory(job: Job, out: seq<Word>, schedule: seq<Step>, s: State)
    requires Reached(job, out, schedule, s)
    ensures History(job, s)
  {
    InitInv(job, out);
    RunKeepsHistory(job, Init(job, out), schedule, s);
  }

  /**
   * No checkpoint is claimed more than twice, and twice only if its index is
   * spawned after having been stolen. After acceptance each one has been claimed.
   */
  lemma ClaimCounts(job: Job, out: seq<Word>, schedule: seq<Step>, s: State, j: nat)
    requires Reached(job, out, schedule, s) && j < job.Count()
    ensures |s.spawns| == |s.steals| == job.Count()
    ensures Claims(s, j) <= 2
    ensures Claims(s, j) == 2 ==> 1 <= j < job.WorkerCount()
    ensures s.main == Returned(true) ==> Claims(s, j) >= 1
  {
    ReachedHistory(job, out, schedule, s);
    ReachedInv(job, out, schedule, s);
    if s.main == Returned(true) { assert WorkerOk(job, s, s.workers[0]); }
  }

  /** Once spawning is over one thread per checkpoint has been spawned, but no more than allowed, each on its own checkpoint. */
  lemma ThreadsSpawned(job: Job, out: seq<Word>, schedule: seq<Step>, s: State, j: nat)
    requires Reached(job, out, schedule, s) && j < |job.k.checkpoints|
    ensures j < |s.spawns| && s.spawns[j] <= 1
    ensures !s.main.Spawning? ==> (s.spawns[j] == 1 <==> j < job.maxThreads)
    ensures !s.main.Spawning? ==>
              |s.workers| == if job.maxThreads < |job.k.checkpoints| then job.maxThreads else |job.k.checkpoints|
  {
    ReachedHistory(job, out, schedule, s);
    ReachedInv(job, out, schedule, s);
  }

  /** Two writes of the same row of the buffer write the same bytes, in every run. */
  lemma SameRowSameBytes(job: Job, out: seq<Word>, schedule: seq<Step>, s: State, a: nat, b: nat)
    requires Reached(job, out, schedule, s) && a < |s.writes| && b < |s.writes|
    requires Offset(job.k.skip, s.writes[a].block) + s.writes[a].row == Offset(job.k.skip, s.writes[b].block) + s.writes[b].row
    ensures s.writes[a] == s.writes[b]
  {
    ReachedHistory(job, out, schedule, s);
    assert WriteOk(job.k, s.writes[a]) && WriteOk(job.k, s.writes[b]);
    RowUnique(job.k.skip, s.writes[a].block, s.writes[a].row, s.writes[b].block, s.writes[b].row);
  }

  // ----- a checkpoint that is claimed twice -----

  /** Some block before j reaches its target. */
  ghost predicate RightBefore(k: Task, j: nat)
    requires j <= |k.checkpoints|
  {
    exists b :: 0 <= b < j && k.BlockOk(b)
  }

  /** Only a worker that has passed its own comparison steals, and it steals a later index. */
  ghost predicate StealHistory(job: Job, s: State) {
    |s.steals| == job.Count() && forall j :: 0 <= j < job.Count() && s.steals[j] >= 1 ==> RightBefore(job.k, j)
  }

  lemma StepKeepsSteals(job: Job, s: State, step: Step)
    requires Inv(job, s) && StealHistory(job, s) && Enabled(s, step)
    ensures StealHistory(job, Apply(job, s, step))
  {
    if step.Work? && s.workers[step.w].pc.Steal? {
      var b := s.workers[step.w].cur.block;
      assert WorkerOk(job, s, s.workers[step.w]);
      assert job.k.BlockOk(b);
      assert forall j :: b < j < job.Count() ==> RightBefore(job.k, j);
    }
  }

  lemma {:induction false} RunKeepsSteals(job: Job, s: State, schedule: seq<Step>, s': State)
    requires Inv(job, s) && StealHistory(job, s) && Leads(job, s, schedule, s')
    ensures StealHistory(job, s')
    decreases |schedule|
  {
    if schedule == [] {
    } else {
      StepKeepsInv(job, s, schedule[0]);
      StepKeepsSteals(job, s, schedule[0]);
      RunKeepsSteals(job, Apply(job, s, schedule[0]), schedule[1..], s');
    }
  }

  ghost predicate ClaimedTwice(s: State, j: nat) {
    |s.spawns| == |s.steals| && j < |s.spawns| && Claims(s, j) == 2
  }

  /** Two claims of j are a spawn and a steal, so j is spawned and some block before it is right. */
  lemma ClaimedTwiceOnlyIf(job: Job, out: seq<Word>, schedule: seq<Step>, s: State, j: nat)
    requires Reached(job, out, schedule, s) && j < job.Count() && ClaimedTwice(s, j)
    ensures j < job.WorkerCount() && RightBefore(job.k, j)
  {
    ClaimCounts(job, out, schedule, s, j);
    ReachedHistory(job, out, schedule, s);
    InitInv(job, out);
    RunKeepsSteals(job, Init(job, out), schedule, s);
  }

  /** Main is spawning, i workers exist, and exactly the indices below i are claimed; worker b, if it exists, is at b. */
  ghost predicate Prelude(job: Job, s: State, i: nat, b: nat) {
    && Inv(job, s) && History(job, s) && s.main.Spawning? && s.verifyRes
    && |s.workers| == i <= job.WorkerCount()
    && (b < i ==> s.workers[b].cur.block == b)
    && (forall j :: 0 <= j < job.Count() ==> (s.inProgress[j] <==> j < i))
  }

  lemma StepKeepsAll(job: Job, s: State, step: Step)
    requires Inv(job, s) && History(job, s) && Enabled(s, step)
    ensures var s' := Apply(job, s, step); Inv(job, s') && History(job, s')
  {
    StepKeepsInv(job, s, step);
    StepKeepsHistory(job, s, step);
  }

  /** Main spawns workers up to index j - 1, then worker b starts on checkpoint b. */
  lemma {:induction false} SpawnPhase(job: Job, s: State, i: nat, b: nat, j: nat) returns (schedule: seq<Step>, s': State)
    requires Prelude(job, s, i, b) && (b < i ==> s.workers[b].pc.Top?)
    requires b < j && i <= j < job.WorkerCount() && job.k.BlockOk(b)
    ensures Leads(job, s, schedule, s') && ClaimedTwice(s', j)
    decreases j - i
  {
    var step := if i < j then Main else Work(b);
    StepKeepsAll(job, s, step);
    var rest;
    if i < j {
      rest, s' := SpawnPhase(job, MainStep(job, s), i + 1, b, j);
    } else {
      rest, s' := RowsPhase(job, WorkerStep(job, s, b), b, j);
    }
    schedule := [step] + rest;
    Prepend(job, s, step, rest, s');
  }

  /** Worker b computes the rows of checkpoint b. */
  lemma {:induction false} RowsPhase(job: Job, s: State, b: nat, j: nat) returns (schedule: seq<Step>, s': State)
    requires b < j < job.WorkerCount() && Prelude(job, s, j, b) && s.workers[b].pc.Rows? && job.k.BlockOk(b)
    ensures Leads(job, s, schedule, s') && ClaimedTwice(s', j)
    decreases job.k.skip - s.workers[b].cur.row
  {
    StepKeepsAll(job, s, Work(b));
    var m := WorkerStep(job, s, b);
    var rest;
    if m.workers[b].pc.Rows? {
      rest, s' := RowsPhase(job, m, b, j);
    } else {
      rest, s' := ComparePhase(job, m, b, j);
    }
    schedule := [Work(b)] + rest;
    Prepend(job, s, Work(b), rest, s');
  }

  /** Checkpoint b is right, so worker b goes on to steal. */
  lemma ComparePhase(job: Job, s: State, b: nat, j: nat) returns (schedule: seq<Step>, s': State)
    requires b < j < job.WorkerCount() && Prelude(job, s, j, b) && s.workers[b].pc.Compare? && job.k.BlockOk(b)
    ensures Leads(job, s, schedule, s') && ClaimedTwice(s', j)
  {
    assert WorkerOk(job, s, s.workers[b]);
    StepKeepsAll(job, s, Work(b));
    var rest;
    rest, s' := StealPhase(job, WorkerStep(job, s, b), b, j);
    schedule := [Work(b)] + rest;
    Prepend(job, s, Work(b), rest, s');
  }

  /** Worker b steals j, because all smaller indices are claimed; then main spawns j as well. */
  lemma StealPhase(job: Job, s: State, b: nat, j: nat) returns (schedule: seq<Step>, s': State)
    requires b < j < job.WorkerCount() && Prelude(job, s, j, b) && s.workers[b].pc.Steal?
    ensures Leads(job, s, schedule, s') && ClaimedTwice(s', j)
  {
    var m := WorkerStep(job, s, b);
    assert !s.inProgress[j];
    assert FirstFree(s.inProgress, b + 1) == j;
    assert m.steals[j] == s.steals[j] + 1;
    StepKeepsAll(job, s, Work(b));
    s' := MainStep(job, m);
    Prepend(job, m, Main, [], s');
    Prepend(job, s, Work(b), [Main], s');
    schedule := [Work(b)] + [Main];
  }

  /**
   * "Each checkpoint is processed once" is false: an index that gets spawned
   * after a right checkpoint is, in some run, stolen before and claimed twice.
   */
  lemma DoubleClaim(job: Job, out: seq<Word>, b: nat, j: nat) returns (schedule: seq<Step>, s: State)
    requires job.Valid() && |out| == job.k.Rows()
    requires b < j < job.WorkerCount() && job.k.BlockOk(b)
    ensures Reached(job, out, schedule, s) && ClaimedTwice(s, j)
  {
    InitInv(job, out);
    schedule, s := SpawnPhase(job, Init(job, out), 0, b, j);
  }

  /** Some run claims checkpoint j twice. */
  ghost predicate CanBeClaimedTwice(job: Job, j: nat) {
    exists out, schedule, s :: Reached(job, out, schedule, s) && ClaimedTwice(s, j)
  }

  /** Exactly which checkpoints can be claimed twice, for every claim. */
  lemma ClaimedTwiceIff(job: Job, j: nat)
    requires job.Valid() && j < job.Count()
    ensures CanBeClaimedTwice(job, j) <==> j < job.WorkerCount() && exists b :: 0 <= b < j && job.k.BlockOk(b)
  {
    if j < job.WorkerCount() && RightBefore(job.k, j) {
      var b :| 0 <= b < j && job.k.BlockOk(b);
      var out := seq<Word>(job.k.Rows(), _ => job.k.seed);
      var schedule, s := DoubleClaim(job, out, b, j);
    }
    forall out, schedule, s | Reached(job, out, schedule, s) && ClaimedTwice(s, j)
      ensures j < job.WorkerCount() && RightBefore(job.k, j)
    {
      ClaimedTwiceOnlyIf(job, out, schedule, s, j);
    }
  }

  /** No claim of n checkpoints ever has a checkpoint claimed twice. */
  ghost predicate NeverClaimedTwice(f: Fns, seed: Word, skip: nat, result: Word, n: nat, maxThreads: nat) {
    forall checkpoints: seq<Word>, j: nat :: |checkpoints| == n && j < n ==>
      !CanBeClaimedTwice(Job(Task(f, seed, skip, checkpoints, result), maxThreads), j)
  }

  /** What a caller can tell from the two counts alone: it takes two workers, and two suffice. */
  lemma NeverClaimedTwiceIff(f: Fns, seed: Word, skip: nat, result: Word, n: nat, maxThreads: nat)
    requires maxThreads >= 1
    ensures NeverClaimedTwice(f, seed, skip, result, n, maxThreads) <==> n <= 1 || maxThreads == 1
  {
    if n <= 1 || maxThreads == 1 {
      forall checkpoints: seq<Word>, j: nat | |checkpoints| == n && j < n
        ensures !CanBeClaimedTwice(Job(Task(f, seed, skip, checkpoints, result), maxThreads), j)
      {
        ClaimedTwiceIff(Job(Task(f, seed, skip, checkpoints, result), maxThreads), j);
      }
    } else {
      var checkpoints := seq<Word>(n, _ => Steps(f, 0, seed, 1 + skip));
      var job := Job(Task(f, seed, skip, checkpoints, result), maxThreads);
      assert job.k.BlockOk(0);
      ClaimedTwiceIff(job, 1);
    }
  }
}
