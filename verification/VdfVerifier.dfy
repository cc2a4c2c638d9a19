/**
 * The parallel verifier as a transition system. A schedule chooses which
 * thread moves next; every access to shared data is one step: spawning a
 * worker, reading verifyRes, writing one row of the output buffer, comparing,
 * stealing the next unclaimed checkpoint under the mutex, joining.
 */
module VdfVerifier {
  import opened Bytes
  import opened HashChain

  /** The claim to check and the number of threads that may be spawned. */
  datatype Job = Job(k: Task, maxThreads: nat)
  {
    /** The number of checkpoints. */
    function Count(): nat {
      |k.checkpoints|
    }

    /** The number of workers that get spawned. */
    function WorkerCount(): nat {
      if maxThreads < Count() then maxThreads else Count()
    }

    predicate Valid() {
      maxThreads >= 1
    }
  }

  /** The locals of the row loop: block, loop counter, inCopy and expdOut. */
  datatype Cursor = Cursor(block: nat, row: nat, inCopy: Word, expdOut: Word)

  datatype Pc = Top | Rows | Compare | Steal | Exited

  datatype Worker = Worker(pc: Pc, cur: Cursor)

  datatype MainPc = Spawning | Deciding | FinalRows | FinalCompare | Joining(next: nat) | Returned(res: bool)

  /** A write of one row of the output buffer. */
  datatype Write = Write(block: nat, row: nat, value: Word)

  /** The last three fields only record history: claims by spawning and by stealing, and all writes. */
  datatype State = State(
    main: MainPc, final: Cursor, workers: seq<Worker>,
    inProgress: seq<bool>, verifyRes: bool, out: seq<Word>,
    spawns: seq<nat>, steals: seq<nat>, writes: seq<Write>)

  /** A schedule is a sequence of these. */
  datatype Step = Main | Work(w: nat)

  // ----- the row loop, shared by the workers and by main -----

  /** Copies the input of block c, mixing in the reset if it is due. */
  function Load(k: Task, c: nat): Cursor
    requires c <= |k.checkpoints|
  {
    Cursor(c, 0, k.f.mix(Offset(k.skip, c), k.Input(c)), k.Input(c))
  }

  /**
   * One turn of the row loop: hash, keep the result, prepare the next input.
   * The last turn also prepares an input, which nobody uses.
   */
  function Advance(k: Task, cur: Cursor): Cursor {
    var t := Offset(k.skip, cur.block) + cur.row;
    var v := k.f.segment(t, cur.inCopy);
    Cursor(cur.block, cur.row + 1, k.f.mix(t + 1, v), v)
  }

  // ----- stealing -----

  /** The first unclaimed index at or after `from`, or |claimed|. */
  function FirstFree(claimed: seq<bool>, from: nat): (i: nat)
    requires from <= |claimed|
    ensures from <= i <= |claimed|
    ensures i < |claimed| ==> !claimed[i]
    ensures forall j :: from <= j < i ==> claimed[j]
    decreases |claimed| - from
  {
    if from == |claimed| || !claimed[from] then from else FirstFree(claimed, from + 1)
  }

  /** The scan of the worker under the mutex. */
  method StealNext(inProgress: array<bool>, idx: nat) returns (found: bool, next: nat)
    requires idx < inProgress.Length
    modifies inProgress
    ensures next == FirstFree(old(inProgress[..]), idx + 1)
    ensures found <==> next < inProgress.Length
    ensures inProgress[..] == if found then old(inProgress[..])[next := true] else old(inProgress[..])
  {
    found := false;
    next := idx + 1;
    ghost var was := inProgress[..];
    while next < inProgress.Length
      invariant idx + 1 <= next <= inProgress.Length
      invariant !found && inProgress[..] == was
      invariant FirstFree(was, idx + 1) == FirstFree(was, next)
    {
      if !inProgress[next] {
        inProgress[next] := true;
        found := true;
        return;
      }
      next := next + 1;
    }
  }

  // ----- steps -----

  /** What makes a state well formed: buffer sizes and index ranges. */
  ghost predicate Shape(job: Job, s: State) {
    var n, k := job.Count(), job.k;
    && |s.inProgress| == n && |s.spawns| == n && |s.steals| == n && |s.out| == k.Rows()
    && |s.workers| <= job.WorkerCount()
    && (forall w :: 0 <= w < |s.workers| ==>
          && s.workers[w].cur.block < n
          && s.workers[w].cur.row <= 1 + k.skip
          && (s.workers[w].pc.Rows? ==> s.workers[w].cur.row <= k.skip))
    && s.final.block == n
    && s.final.row <= 1 + k.skip
    && (s.main.FinalRows? ==> s.final.row <= k.skip)
  }

  predicate Enabled(s: State, step: Step) {
    match step
    case Main =>
      && !s.main.Returned?
      && (s.main.Joining? && s.main.next < |s.workers| ==> s.workers[s.main.next].pc.Exited?)
    case Work(w) => w < |s.workers| && !s.workers[w].pc.Exited?
  }

  lemma {:induction false} RowInBuffer(k: Task, c: nat, r: nat)
    requires c <= |k.checkpoints| && r <= k.skip
    ensures Offset(k.skip, c) + r < k.Rows()
  {
    OffsetMono(k.skip, c, |k.checkpoints| + 1);
  }

  function SetWorker(s: State, w: nat, x: Worker): State
    requires w < |s.workers|
  {
    s.(workers := s.workers[w := x])
  }

  /** memcpy of one row into the output buffer. */
  function WriteRow(k: Task, s: State, cur: Cursor, value: Word): (s': State)
    requires cur.block <= |k.checkpoints| && cur.row <= k.skip && |s.out| == k.Rows()
    ensures |s'.out| == |s.out| && Offset(k.skip, cur.block) + cur.row < |s.out|
  {
    RowInBuffer(k, cur.block, cur.row);
    s.(out := s.out[Offset(k.skip, cur.block) + cur.row := value],
       writes := s.writes + [Write(cur.block, cur.row, value)])
  }

  function WorkerStep(job: Job, s: State, w: nat): (s': State)
    requires Shape(job, s) && w < |s.workers| && !s.workers[w].pc.Exited?
    ensures Shape(job, s')
  {
    var k, x := job.k, s.workers[w];
    match x.pc
    case Top =>
      if !s.verifyRes then SetWorker(s, w, x.(pc := Exited))
      else SetWorker(s, w, Worker(Rows, Load(k, x.cur.block)))
    case Rows =>
      var cur := Advance(k, x.cur);
      WriteRow(k, SetWorker(s, w, Worker(if cur.row == 1 + k.skip then Compare else Rows, cur)), x.cur, cur.expdOut)
    case Compare =>
      if x.cur.expdOut != k.checkpoints[x.cur.block]
      then SetWorker(s, w, x.(pc := Exited)).(verifyRes := false)
      else SetWorker(s, w, x.(pc := Steal))
    case Steal =>
      var i := FirstFree(s.inProgress, x.cur.block + 1);
      if i < |s.inProgress| then
        SetWorker(s, w, Worker(Top, x.cur.(block := i))).(
          inProgress := s.inProgress[i := true], steals := s.steals[i := s.steals[i] + 1])
      else SetWorker(s, w, x.(pc := Exited))
  }

  function MainStep(job: Job, s: State): (s': State)
    requires Shape(job, s) && !s.main.Returned?
    ensures Shape(job, s')
  {
    var k, n := job.k, job.Count();
    match s.main
    case Spawning =>
      var i := |s.workers|;
      if i < job.WorkerCount() then
        s.(inProgress := s.inProgress[i := true], spawns := s.spawns[i := s.spawns[i] + 1],
           workers := s.workers + [Worker(Top, Cursor(i, 0, k.seed, k.seed))])
      else s.(main := Deciding)
    case Deciding =>
      if s.verifyRes then s.(main := FinalRows, final := Load(k, n)) else s.(main := Joining(0))
    case FinalRows =>
      var cur := Advance(k, s.final);
      WriteRow(k, s.(main := if cur.row == 1 + k.skip then FinalCompare else FinalRows, final := cur),
               s.final, cur.expdOut)
    case FinalCompare =>
      s.(main := Joining(0), verifyRes := s.verifyRes && s.final.expdOut == k.result)
    case Joining(j) =>
      if j < |s.workers| then s.(main := Joining(j + 1)) else s.(main := Returned(s.verifyRes))
  }

  function Apply(job: Job, s: State, step: Step): (s': State)
    requires Shape(job, s) && Enabled(s, step)
    ensures Shape(job, s')
  {
    match step
    case Main => MainStep(job, s)
    case Work(w) => WorkerStep(job, s, w)
  }

  /** Nothing claimed, nothing spawned, an output buffer with any contents. */
  function Init(job: Job, out: seq<Word>): (s: State)
    requires |out| == job.k.Rows()
    ensures Shape(job, s)
  {
    var n := job.Count();
    State(Spawning, Cursor(n, 0, job.k.seed, job.k.seed), [], seq(n, _ => false), true, out,
          seq(n, _ => 0), seq(n, _ => 0), [])
  }

  /** The schedule is possible from s and leads to s'. */
  ghost predicate Leads(job: Job, s: State, schedule: seq<Step>, s': State)
    requires Shape(job, s)
    decreases |schedule|
  {
    if schedule == [] then s == s'
    else Enabled(s, schedule[0]) && Leads(job, Apply(job, s, schedule[0]), schedule[1..], s')
  }
}
