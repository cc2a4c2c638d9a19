/**
 * The shared dataset under concurrent use: any number of clients take the
 * reader lock, create a machine, use it, destroy it and unlock, while others
 * try to release the dataset under the writer lock, and at the end the
 * destructor runs. Every access to shared data is one step.
 */
module DatasetLifecycle {
  import opened SharedState

  /** Where a client is inside a call. */
  datatype Pc =
    | Idle
    | ReadLocked                              // holds the reader lock, has not read isRandomxReleased
    | Refused                                 // saw that the state was released
    | Creating                                // saw that it was not
    | CreateFailed
    | Using(onCache: bool, onDataset: bool)   // has a machine built on these pointers
    | MachineDestroyed
    | WriteLocked                             // release: holds the writer lock
    | DatasetReleased
    | CacheReleased
    | MarkedReleased

  /** A client with the numbers of reader locks and unlocks, and of machines created and destroyed, so far. */
  datatype Client = Client(pc: Pc, rlocks: nat, runlocks: nat, created: nat, destroyed: nat)

  datatype Owner = Nobody | HeldBy(c: nat)

  datatype World = World(
    clients: seq<Client>, readers: set<nat>, writer: Owner,
    lockPtr: bool, cachePtr: bool, datasetPtr: bool, isReleased: bool,
    lock: Usage, cache: Usage, dataset: Usage)

  /** What the scheduler chooses: which client moves and how a choice falls, or the destructor. */
  datatype Step =
    | Enter(c: nat)                  // a hashing call: rlock
    | TryRelease(c: nat)             // release_state_nif: tryrwlock
    | Move(c: nat, createOk: bool)   // the next step of a call; createOk: does randomx_create_vm succeed
    | Destructor

  predicate HoldsRead(pc: Pc) {
    pc.ReadLocked? || pc.Refused? || pc.Creating? || pc.CreateFailed? || pc.Using? || pc.MachineDestroyed?
  }

  predicate HoldsWrite(pc: Pc) {
    pc.WriteLocked? || pc.DatasetReleased? || pc.CacheReleased? || pc.MarkedReleased?
  }

  /** The Erlang runtime keeps the resource alive during calls, so the destructor needs all clients idle. */
  ghost predicate Enabled(w: World, step: Step) {
    match step
    case Enter(c) => w.lockPtr && c < |w.clients| && w.clients[c].pc.Idle? && w.writer.Nobody?
    case TryRelease(c) => w.lockPtr && c < |w.clients| && w.clients[c].pc.Idle?
    case Move(c, _) => c < |w.clients| && !w.clients[c].pc.Idle?
    case Destructor => w.lockPtr && forall c :: 0 <= c < |w.clients| ==> w.clients[c].pc.Idle?
  }

  function At(w: World, c: nat, pc: Pc): World
    requires c < |w.clients|
  {
    w.(clients := w.clients[c := w.clients[c].(pc := pc)])
  }

  function Unlocked(w: World, c: nat): World
    requires c < |w.clients|
  {
    var x := w.clients[c];
    w.(clients := w.clients[c := x.(pc := Idle, runlocks := x.runlocks + 1)], readers := w.readers - {c})
  }

  /** randomx_create_vm on the current pointers. */
  function MachineCreated(w: World, c: nat): World
    requires c < |w.clients|
  {
    var x := w.clients[c];
    w.(clients := w.clients[c := x.(pc := Using(w.cachePtr, w.datasetPtr), created := x.created + 1)])
  }

  function MachineGone(w: World, c: nat): World
    requires c < |w.clients|
  {
    var x := w.clients[c];
    w.(clients := w.clients[c := x.(pc := MachineDestroyed, destroyed := x.destroyed + 1)])
  }

  function Freed(u: Usage): Usage {
    u.(frees := u.frees + 1)
  }

  function DatasetFreed(w: World): World {
    if w.datasetPtr then w.(datasetPtr := false, dataset := Freed(w.dataset)) else w
  }

  function CacheFreed(w: World): World {
    if w.cachePtr then w.(cachePtr := false, cache := Freed(w.cache)) else w
  }

  function Moved(w: World, c: nat, createOk: bool): World
    requires c < |w.clients| && !w.clients[c].pc.Idle?
  {
    match w.clients[c].pc
    case ReadLocked => At(w, c, if w.isReleased then Refused else Creating)
    case Refused => Unlocked(w, c)
    case Creating => if createOk then MachineCreated(w, c) else At(w, c, CreateFailed)
    case CreateFailed => Unlocked(w, c)
    case Using(_, _) => MachineGone(w, c)
    case MachineDestroyed => Unlocked(w, c)
    case WriteLocked => At(DatasetFreed(w), c, DatasetReleased)
    case DatasetReleased => At(CacheFreed(w), c, CacheReleased)
    case CacheReleased => At(w.(isReleased := true), c, MarkedReleased)
    case MarkedReleased => At(w.(writer := Nobody), c, Idle)
  }

  /** tryrwlock fails while anyone holds the lock. */
  predicate LockFree(w: World) {
    w.readers == {} && w.writer.Nobody?
  }

  ghost function Apply(w: World, step: Step): World
    requires Enabled(w, step)
  {
    match step
    case Enter(c) =>
      var x := w.clients[c];
      w.(clients := w.clients[c := x.(pc := ReadLocked, rlocks := x.rlocks + 1)], readers := w.readers + {c})
    case TryRelease(c) =>
      if LockFree(w) then At(w.(writer := HeldBy(c)), c, WriteLocked) else w
    case Move(c, createOk) => Moved(w, c, createOk)
    case Destructor =>
      CacheFreed(DatasetFreed(w)).(isReleased := true, lockPtr := false, lock := Freed(w.lock))
  }

  /** A state as init leaves it, and n idle clients. */
  function Start(mode: Mode, n: nat): World {
    World(seq(n, _ => Client(Idle, 0, 0, 0, 0)), {}, Nobody, true, mode.Light?, mode.Fast?, false,
          Usage(1, 0), if mode.Light? then Usage(1, 0) else Usage(1, 1),
          if mode.Light? then Usage(0, 0) else Usage(1, 0))
  }

  ghost predicate Leads(w: World, steps: seq<Step>, w': World)
    decreases |steps|
  {
    if steps == [] then w == w' else Enabled(w, steps[0]) && Leads(Apply(w, steps[0]), steps[1..], w')
  }

  ghost predicate Reached(mode: Mode, n: nat, steps: seq<Step>, w: World) {
    Leads(Start(mode, n), steps, w)
  }

  // ----- the invariant -----

  /** A client's part: lock membership, balance, and what it knows about the shared state. */
  ghost predicate ClientOk(w: World, c: nat)
    requires c < |w.clients|
  {
    var x := w.clients[c];
    && (c in w.readers <==> HoldsRead(x.pc))
    && (w.writer == HeldBy(c) <==> HoldsWrite(x.pc))
    && x.rlocks == x.runlocks + (if HoldsRead(x.pc) then 1 else 0)
    && x.created == x.destroyed + (if x.pc.Using? then 1 else 0)
    && (!x.pc.Idle? ==> w.lockPtr)
    && (x.pc.Creating? || x.pc.Using? ==> !w.isReleased)
    && (x.pc.Using? ==> x.pc.onCache == w.cachePtr && x.pc.onDataset == w.datasetPtr)
    && (x.pc.DatasetReleased? ==> !w.datasetPtr)
    && (x.pc.CacheReleased? || x.pc.MarkedReleased? ==> !w.datasetPtr && !w.cachePtr)
    && (x.pc.MarkedReleased? ==> w.isReleased)
  }

  ghost predicate Inv(w: World) {
    && (forall c :: 0 <= c < |w.clients| ==> ClientOk(w, c))
    && (forall c :: c in w.readers ==> c < |w.clients|)
    && (w.writer.HeldBy? ==> w.writer.c < |w.clients| && w.readers == {})
    && Tracks(w.lockPtr, w.lock) && Tracks(w.cachePtr, w.cache) && Tracks(w.datasetPtr, w.dataset)
    && (w.isReleased ==> !w.datasetPtr && !w.cachePtr)
    && (!w.lockPtr ==> w.isReleased)
  }

  lemma StartInv(mode: Mode, n: nat)
    ensures Inv(Start(mode, n))
  {
  }

  lemma OthersStay(w: World, w': World, c: nat, d: nat)
    requires Inv(w) && c < |w.clients| == |w'.clients| && d < |w.clients| && d != c
    requires w'.clients[d] == w.clients[d] && (d in w'.readers <==> d in w.readers)
    requires w'.writer == w.writer || (w.writer != HeldBy(d) && w'.writer != HeldBy(d))
    requires w'.lockPtr == w.lockPtr
    requires HoldsRead(w.clients[d].pc) ==>
               w'.isReleased == w.isReleased && w'.cachePtr == w.cachePtr && w'.datasetPtr == w.datasetPtr
    requires HoldsWrite(w.clients[d].pc) ==>
               (w.isReleased ==> w'.isReleased) && (w'.cachePtr ==> w.cachePtr) && (w'.datasetPtr ==> w.datasetPtr)
    ensures ClientOk(w', d)
  {
    assert ClientOk(w, d);
  }

  /** While somebody holds the writer lock nobody else holds anything. */
  lemma WriterIsAlone(w: World, c: nat, d: nat)
    requires Inv(w) && c < |w.clients| && d < |w.clients| && c != d && HoldsWrite(w.clients[c].pc)
    ensures !HoldsRead(w.clients[d].pc) && !HoldsWrite(w.clients[d].pc)
  {
    assert ClientOk(w, c) && ClientOk(w, d);
  }

  lemma MoveKeepsOthers(w: World, c: nat, createOk: bool, d: nat)
    requires Inv(w) && Enabled(w, Move(c, createOk)) && d < |w.clients| && d != c
    ensures ClientOk(Moved(w, c, createOk), d)
  {
    assert ClientOk(w, c) && ClientOk(w, d);
    if HoldsWrite(w.clients[c].pc) { WriterIsAlone(w, c, d); }
    OthersStay(w, Moved(w, c, createOk), c, d);
  }

  lemma MoverOk(w: World, c: nat, createOk: bool)
    requires Inv(w) && Enabled(w, Move(c, createOk))
    ensures ClientOk(Moved(w, c, createOk), c)
  {
    assert ClientOk(w, c);
  }

  lemma MoveKeepsInv(w: World, c: nat, createOk: bool)
    requires Inv(w) && Enabled(w, Move(c, createOk))
    ensures Inv(Moved(w, c, createOk))
  {
    var w' := Moved(w, c, createOk);
    assert ClientOk(w, c);
    forall d | 0 <= d < |w'.clients| ensures ClientOk(w', d) {
      if d == c { MoverOk(w, c, createOk); } else { MoveKeepsOthers(w, c, createOk, d); }
    }
  }

  lemma EnterKeepsInv(w: World, c: nat)
    requires Inv(w) && Enabled(w, Enter(c))
    ensures Inv(Apply(w, Enter(c)))
  {
    var w' := Apply(w, Enter(c));
    assert ClientOk(w, c);
    forall d | 0 <= d < |w'.clients| ensures ClientOk(w', d) {
      if d != c { OthersStay(w, w', c, d); }
    }
  }

  lemma TryReleaseKeepsInv(w: World, c: nat)
    requires Inv(w) && Enabled(w, TryRelease(c))
    ensures Inv(Apply(w, TryRelease(c)))
  {
    var w' := Apply(w, TryRelease(c));
    assert ClientOk(w, c);
    if LockFree(w) {
      forall d | 0 <= d < |w'.clients| ensures ClientOk(w', d) {
        if d != c {
          assert ClientOk(w, d);
          OthersStay(w, w', c, d);
        }
      }
    }
  }

  lemma DestructorKeepsInv(w: World)
    requires Inv(w) && Enabled(w, Destructor)
    ensures Inv(Apply(w, Destructor))
  {
    var w' := Apply(w, Destructor);
    forall d | 0 <= d < |w'.clients| ensures ClientOk(w', d) { assert ClientOk(w, d); }
  }

  lemma StepKeepsInv(w: World, step: Step)
    requires Inv(w) && Enabled(w, step)
    ensures Inv(Apply(w, step))
  {
    match step
    case Enter(c) => EnterKeepsInv(w, c);
    case TryRelease(c) => TryReleaseKeepsInv(w, c);
    case Move(c, createOk) => MoveKeepsInv(w, c, createOk);
    case Destructor => DestructorKeepsInv(w);
  }

  lemma {:induction false} RunKeepsInv(w: World, steps: seq<Step>, w': World)
    requires Inv(w) && Leads(w, steps, w')
    ensures Inv(w')
    decreases |steps|
  {
    if steps == [] {
    } else {
      StepKeepsInv(w, steps[0]);
      RunKeepsInv(Apply(w, steps[0]), steps[1..], w');
    }
  }

  lemma ReachedInv(mode: Mode, n: nat, steps: seq<Step>, w: World)
    requires Reached(mode, n, steps, w)
    ensures Inv(w)
  {
    StartInv(mode, n);
    RunKeepsInv(Start(mode, n), steps, w);
  }

  /** Unless a release is under way or done, the pointers are those that init left. */
  ghost predicate Settled(mode: Mode, w: World) {
    w.writer.Nobody? && !w.isReleased ==> w.datasetPtr == mode.Fast? && w.cachePtr == mode.Light?
  }

  lemma StepKeepsSettled(mode: Mode, w: World, step: Step)
    requires Inv(w) && Settled(mode, w) && Enabled(w, step)
    ensures Settled(mode, Apply(w, step))
  {
    if step.Move? { assert ClientOk(w, step.c); }
  }

  lemma {:induction false} RunKeepsSettled(mode: Mode, w: World, steps: seq<Step>, w': World)
    requires Inv(w) && Settled(mode, w) && Leads(w, steps, w')
    ensures Settled(mode, w')
    decreases |steps|
  {
    if steps == [] {
    } else {
      StepKeepsInv(w, steps[0]);
      StepKeepsSettled(mode, w, steps[0]);
      RunKeepsSettled(mode, Apply(w, steps[0]), steps[1..], w');
    }
  }

  // ----- what holds in every run -----

  /**
   * A machine in use is built on the dataset in fast mode and on the cache in
   * light mode, never on a null pointer, and what it is built on is allocated
   * and not freed.
   */
  lemma NoUseAfterFree(mode: Mode, n: nat, steps: seq<Step>, w: World, c: nat)
    requires Reached(mode, n, steps, w) && c < |w.clients| && w.clients[c].pc.Using?
    ensures !w.isReleased
    ensures w.clients[c].pc.onDataset == mode.Fast? && w.clients[c].pc.onCache == mode.Light?
    ensures mode.Fast? ==> w.dataset == Usage(1, 0)
    ensures mode.Light? ==> w.cache == Usage(1, 0)
  {
    ReachedInv(mode, n, steps, w);
    StartInv(mode, n);
    RunKeepsSettled(mode, Start(mode, n), steps, w);
    assert ClientOk(w, c);
    assert c in w.readers;
  }

  /** A step that frees anything, or that obtains the writer lock, finds no machine alive. */
  lemma FreesOnlyWithoutMachines(mode: Mode, n: nat, steps: seq<Step>, w: World, step: Step, c: nat)
    requires Reached(mode, n, steps, w) && Enabled(w, step) && c < |w.clients|
    requires var w' := Apply(w, step);
             w'.dataset != w.dataset || w'.cache != w.cache || w'.lock != w.lock || (w'.writer.HeldBy? && w.writer.Nobody?)
    ensures !w.clients[c].pc.Using?
  {
    ReachedInv(mode, n, steps, w);
    assert ClientOk(w, c);
    if step.Move? {
      assert ClientOk(w, step.c);
      if c != step.c && HoldsWrite(w.clients[step.c].pc) { WriterIsAlone(w, step.c, c); }
    }
  }

  /** A release holds the writer lock, or something that init left has been freed, or the flag is set. */
  ghost predicate ReleaseBegun(mode: Mode, w: World) {
    w.writer.HeldBy? || w.isReleased || w.datasetPtr != mode.Fast? || w.cachePtr != mode.Light?
  }

  lemma StepKeepsBegun(mode: Mode, w: World, step: Step)
    requires Inv(w) && Settled(mode, w) && ReleaseBegun(mode, w) && Enabled(w, step)
    ensures ReleaseBegun(mode, Apply(w, step)) && (w.isReleased ==> Apply(w, step).isReleased)
  {
    if step.Move? { assert ClientOk(w, step.c); }
  }

  lemma {:induction false} RunKeepsBegun(mode: Mode, w: World, steps: seq<Step>, w': World)
    requires Inv(w) && Settled(mode, w) && ReleaseBegun(mode, w) && Leads(w, steps, w')
    ensures ReleaseBegun(mode, w') && (w.isReleased ==> w'.isReleased)
    decreases |steps|
  {
    if steps == [] {
    } else {
      StepKeepsInv(w, steps[0]);
      StepKeepsSettled(mode, w, steps[0]);
      StepKeepsBegun(mode, w, steps[0]);
      RunKeepsBegun(mode, Apply(w, steps[0]), steps[1..], w');
    }
  }

  /**
   * From the moment a release obtains the writer lock, through the frees and
   * the setting of the flag, and in every continuation of the run, no machine
   * exists and none is being created. The flag is never cleared.
   */
  lemma NoMachineAfterRelease(
      mode: Mode, n: nat, steps: seq<Step>, w: World, more: seq<Step>, w': World, c: nat)
    requires Reached(mode, n, steps, w) && ReleaseBegun(mode, w)
    requires Leads(w, more, w') && c < |w'.clients|
    ensures !w'.clients[c].pc.Using? && !w'.clients[c].pc.Creating?
    ensures w.isReleased ==> w'.isReleased
  {
    ReachedInv(mode, n, steps, w);
    StartInv(mode, n);
    RunKeepsSettled(mode, Start(mode, n), steps, w);
    RunKeepsInv(w, more, w');
    RunKeepsSettled(mode, w, more, w');
    RunKeepsBegun(mode, w, more, w');
    assert ClientOk(w', c);
    assert w'.writer.HeldBy? ==> c !in w'.readers;
  }

  /** Nothing is freed twice; after the destructor everything allocated has been freed exactly once. */
  lemma FreedAtMostOnce(mode: Mode, n: nat, steps: seq<Step>, w: World)
    requires Reached(mode, n, steps, w)
    ensures w.lock.frees <= w.lock.allocs <= 1 && w.cache.frees <= w.cache.allocs <= 1
    ensures w.dataset.frees <= w.dataset.allocs <= 1
    ensures !w.lockPtr ==> w.lock.frees == w.lock.allocs && w.cache.frees == w.cache.allocs
                           && w.dataset.frees == w.dataset.allocs
  {
    ReachedInv(mode, n, steps, w);
  }

  /** Every machine is destroyed by the call that created it. */
  lemma MachinesBalance(mode: Mode, n: nat, steps: seq<Step>, w: World, c: nat)
    requires Reached(mode, n, steps, w) && c < |w.clients|
    ensures w.clients[c].created - w.clients[c].destroyed == if w.clients[c].pc.Using? then 1 else 0
    ensures !w.lockPtr ==> w.clients[c].created == w.clients[c].destroyed
  {
    ReachedInv(mode, n, steps, w);
    assert ClientOk(w, c);
  }

  /** Reader locks balance on every path: a client holds exactly the one it is inside of. */
  lemma ReadLocksBalance(mode: Mode, n: nat, steps: seq<Step>, w: World, c: nat)
    requires Reached(mode, n, steps, w) && c < |w.clients|
    ensures w.clients[c].rlocks - w.clients[c].runlocks == if c in w.readers then 1 else 0
    ensures w.clients[c].pc.Idle? ==> w.clients[c].rlocks == w.clients[c].runlocks
    ensures w.readers == {} || w.writer.Nobody?
  {
    ReachedInv(mode, n, steps, w);
    assert ClientOk(w, c);
  }

  /** A release attempt obtains the lock exactly when no client is between locking and unlocking. */
  lemma ReleaseSucceedsIff(mode: Mode, n: nat, steps: seq<Step>, w: World, c: nat)
    requires Reached(mode, n, steps, w) && Enabled(w, TryRelease(c))
    ensures Apply(w, TryRelease(c)).writer == HeldBy(c) <==> forall d :: 0 <= d < |w.clients| ==> w.clients[d].pc.Idle?
  {
    ReachedInv(mode, n, steps, w);
    assert ClientOk(w, c);
    if LockFree(w) {
      forall d | 0 <= d < |w.clients| ensures w.clients[d].pc.Idle? { assert ClientOk(w, d); }
    } else if w.readers != {} {
      var d :| d in w.readers;
      assert ClientOk(w, d);
    } else {
      assert ClientOk(w, w.writer.c);
    }
  }

  // ----- what a call gets -----

  /** The step is not taken by client c. */
  predicate NotOf(step: Step, c: nat) {
    step.Destructor? || step.c != c
  }

  /** What a call of client c can observe of the shared state is the same in both worlds. */
  ghost predicate SameFor(w: World, w': World, c: nat) {
    && c < |w.clients| == |w'.clients| && w'.clients[c] == w.clients[c]
    && w'.isReleased == w.isReleased && w'.cachePtr == w.cachePtr && w'.datasetPtr == w.datasetPtr
  }

  lemma OtherStepFrozen(w: World, step: Step, c: nat)
    requires Inv(w) && c < |w.clients| && HoldsRead(w.clients[c].pc) && Enabled(w, step) && NotOf(step, c)
    ensures SameFor(w, Apply(w, step), c)
  {
    assert ClientOk(w, c);
    if step.Move? { assert ClientOk(w, step.c); }
  }

  /** While a client holds the reader lock, nothing that others do changes the pointers or the flag. */
  lemma {:induction false} ReaderFreezesState(w: World, steps: seq<Step>, w': World, c: nat)
    requires Inv(w) && c < |w.clients| && HoldsRead(w.clients[c].pc) && Leads(w, steps, w')
    requires forall i :: 0 <= i < |steps| ==> NotOf(steps[i], c)
    ensures Inv(w') && SameFor(w, w', c)
    decreases |steps|
  {
    if steps == [] {
    } else {
      StepKeepsInv(w, steps[0]);
      OtherStepFrozen(w, steps[0], c);
      ReaderFreezesState(Apply(w, steps[0]), steps[1..], w', c);
    }
  }

  lemma FlagChecked(w: World, c: nat, choice: bool)
    requires c < |w.clients| && w.clients[c].pc.ReadLocked?
    ensures var w' := Moved(w, c, choice);
            && c < |w'.clients| && w'.clients[c].pc == (if w.isReleased then Refused else Creating)
            && w'.cachePtr == w.cachePtr && w'.datasetPtr == w.datasetPtr && w'.isReleased == w.isReleased
  {
  }

  lemma CreationTried(w: World, c: nat, createOk: bool)
    requires c < |w.clients| && w.clients[c].pc.Creating?
    ensures var w' := Moved(w, c, createOk);
            && c < |w'.clients|
            && w'.clients[c].pc == if createOk then Using(w.cachePtr, w.datasetPtr) else CreateFailed
  {
  }

  /**
   * A call is decided when it obtains the reader lock, whatever others do
   * between its steps: it is refused exactly if the state was released by then,
   * and otherwise it gets a machine on the resource of the mode exactly if
   * randomx_create_vm succeeds.
   */
  lemma CallOutcome(
      mode: Mode, n: nat, steps: seq<Step>, w: World, c: nat,
      others: seq<Step>, v: World, others': seq<Step>, v': World, choice: bool, createOk: bool)
    requires Reached(mode, n, steps, w) && Enabled(w, Enter(c))
    requires Leads(Apply(w, Enter(c)), others, v) && (forall i :: 0 <= i < |others| ==> NotOf(others[i], c))
    requires Enabled(v, Move(c, choice)) ==> Leads(Apply(v, Move(c, choice)), others', v')
    requires forall i :: 0 <= i < |others'| ==> NotOf(others'[i], c)
    ensures Enabled(v, Move(c, choice)) && Enabled(v', Move(c, createOk))
    ensures v'.clients[c].pc == if w.isReleased then Refused else Creating
    ensures var pc := Apply(v', Move(c, createOk)).clients[c].pc;
            !w.isReleased ==> pc == if createOk then Using(mode.Light?, mode.Fast?) else CreateFailed
  {
    ReachedInv(mode, n, steps, w);
    StartInv(mode, n);
    RunKeepsSettled(mode, Start(mode, n), steps, w);
    var entered := Apply(w, Enter(c));
    StepKeepsInv(w, Enter(c));
    ReaderFreezesState(entered, others, v, c);
    StepKeepsInv(v, Move(c, choice));
    FlagChecked(v, c, choice);
    ReaderFreezesState(Apply(v, Move(c, choice)), others', v', c);
    if !w.isReleased { CreationTried(v', c, createOk); }
  }

  lemma {:induction false} LeadsAppend(w: World, a: seq<Step>, v: World, b: seq<Step>, w': World)
    requires Leads(w, a, v) && Leads(v, b, w')
    ensures Leads(w, a + b, w')
    decreases |a|
  {
    if a == [] {
      assert a + b == b;
    } else {
      LeadsAppend(Apply(w, a[0]), a[1..], v, b, w');
      assert (a + b)[1..] == a[1..] + b;
    }
  }

  lemma LeadsOne(w: World, step: Step)
    requires Enabled(w, step)
    ensures Leads(w, [step], Apply(w, step))
  {
    assert Leads(Apply(w, step), [], Apply(w, step));
    assert [step][1..] == [];
  }

  /** How many steps of its own a call can still take. */
  function StepsLeft(pc: Pc): nat {
    match pc
    case Idle => 0
    case ReadLocked | WriteLocked => 4
    case Creating | DatasetReleased => 3
    case Using(_, _) | CacheReleased => 2
    case Refused | CreateFailed | MachineDestroyed | MarkedReleased => 1
  }

  /** A step from w to w' of client c brings its call nearer to its end and leaves the other clients alone. */
  ghost predicate EndsSooner(w: World, w': World, c: nat) {
    && c < |w.clients| == |w'.clients| && w'.lockPtr == w.lockPtr
    && StepsLeft(w'.clients[c].pc) < StepsLeft(w.clients[c].pc)
    && forall d :: 0 <= d < |w.clients| && d != c ==> w'.clients[d] == w.clients[d]
  }

  /** A step of a hashing call; it leaves the owner of the lock and the flag alone. */
  lemma HashingMove(w: World, c: nat, createOk: bool)
    requires Enabled(w, Move(c, createOk)) && HoldsRead(w.clients[c].pc)
    ensures var w' := Moved(w, c, createOk); EndsSooner(w, w', c) && w'.writer == w.writer && w'.isReleased == w.isReleased
  {
  }

  /** A step of a release. */
  lemma ReleaseMove(w: World, c: nat, createOk: bool)
    requires Enabled(w, Move(c, createOk)) && HoldsWrite(w.clients[c].pc)
    ensures EndsSooner(w, Moved(w, c, createOk), c)
  {
  }

  /** A call that is let run ends after at most four steps; unless it is a release it changes nothing shared. */
  lemma {:induction false} FinishCall(w: World, c: nat) returns (more: seq<Step>, w': World)
    requires Inv(w) && c < |w.clients|
    ensures Leads(w, more, w') && Inv(w') && |more| <= StepsLeft(w.clients[c].pc) <= 4
    ensures |w'.clients| == |w.clients| && w'.clients[c].pc.Idle? && w'.lockPtr == w.lockPtr
    ensures forall d :: 0 <= d < |w.clients| && d != c ==> w'.clients[d] == w.clients[d]
    ensures w.writer.Nobody? ==> w'.writer.Nobody? && w'.isReleased == w.isReleased
    decreases StepsLeft(w.clients[c].pc)
  {
    if w.clients[c].pc.Idle? {
      more, w' := [], w;
    } else {
      var step := Move(c, true);
      assert ClientOk(w, c);
      StepKeepsInv(w, step);
      if HoldsRead(w.clients[c].pc) { HashingMove(w, c, true); } else { ReleaseMove(w, c, true); }
      var rest;
      rest, w' := FinishCall(Apply(w, step), c);
      more := [step] + rest;
    }
  }

  /** In every run that has not been released, and is not just being released, each client can get a machine. */
  lemma MachineObtainable(mode: Mode, n: nat, steps: seq<Step>, w: World, c: nat) returns (more: seq<Step>, w': World)
    requires Reached(mode, n, steps, w) && c < |w.clients| && w.writer.Nobody? && !w.isReleased
    ensures Leads(w, more, w') && c < |w'.clients| && w'.clients[c].pc == Using(mode.Light?, mode.Fast?)
  {
    ReachedInv(mode, n, steps, w);
    var idle, v := FinishCall(w, c);
    StartInv(mode, n);
    RunKeepsSettled(mode, Start(mode, n), steps, w);
    RunKeepsSettled(mode, w, idle, v);
    var v1 := Apply(v, Enter(c));
    var v2 := Apply(v1, Move(c, true));
    w' := Apply(v2, Move(c, true));
    LeadsOne(v, Enter(c));
    LeadsOne(v1, Move(c, true));
    LeadsOne(v2, Move(c, true));
    LeadsAppend(w, idle, v, [Enter(c)], v1);
    LeadsAppend(w, idle + [Enter(c)], v1, [Move(c, true)], v2);
    more := idle + [Enter(c)] + [Move(c, true)] + [Move(c, true)];
    LeadsAppend(w, idle + [Enter(c)] + [Move(c, true)], v2, [Move(c, true)], w');
  }

  /** The calls of the first m clients, one after the other, come to an end. */
  lemma {:induction false} FinishCalls(w: World, m: nat) returns (more: seq<Step>, w': World)
    requires Inv(w) && m <= |w.clients|
    ensures Leads(w, more, w') && Inv(w') && |w'.clients| == |w.clients| && w'.lockPtr == w.lockPtr
    ensures forall d :: 0 <= d < m ==> w'.clients[d].pc.Idle?
  {
    if m == 0 {
      more, w' := [], w;
    } else {
      var a, v := FinishCalls(w, m - 1);
      var b;
      b, w' := FinishCall(v, m - 1);
      more := a + b;
      LeadsAppend(w, a, v, b, w');
    }
  }

  /** Nothing gets stuck: from every reached world all calls can end and then the destructor can run, which frees all. */
  lemma RunCanEnd(mode: Mode, n: nat, steps: seq<Step>, w: World) returns (more: seq<Step>, w': World)
    requires Reached(mode, n, steps, w)
    ensures Leads(w, more, w') && !w'.lockPtr && w'.isReleased && !w'.cachePtr && !w'.datasetPtr
    ensures w'.lock.frees == w'.lock.allocs && w'.cache.frees == w'.cache.allocs && w'.dataset.frees == w'.dataset.allocs
  {
    ReachedInv(mode, n, steps, w);
    more, w' := FinishCalls(w, |w.clients|);
    if w'.lockPtr {
      LeadsOne(w', Destructor);
      LeadsAppend(w, more, w', [Destructor], Apply(w', Destructor));
      StepKeepsInv(w', Destructor);
      more, w' := more + [Destructor], Apply(w', Destructor);
    }
  }

  /** A release that obtains the lock frees both resources, sets the flag and gives the lock back, in four more steps. */
  lemma ReleaseCompletes(w: World, c: nat) returns (w': World)
    requires Inv(w) && Enabled(w, TryRelease(c)) && LockFree(w)
    ensures Leads(w, [TryRelease(c), Move(c, true), Move(c, true), Move(c, true), Move(c, true)], w')
    ensures w'.isReleased && !w'.cachePtr && !w'.datasetPtr && w'.writer.Nobody?
    ensures c < |w'.clients| && w'.clients[c].pc.Idle?
    ensures w'.dataset.frees == w'.dataset.allocs && w'.cache.frees == w'.cache.allocs
  {
    var step := Move(c, true);
    var locked := Apply(w, TryRelease(c));
    StepKeepsInv(w, TryRelease(c));
    w' := ReleaseMoves(locked, c);
    assert [TryRelease(c), step, step, step, step][1..] == [step, step, step, step];
  }

  lemma ReleaseMoves(w: World, c: nat) returns (w': World)
    requires Inv(w) && c < |w.clients| && w.clients[c].pc.WriteLocked?
    ensures Leads(w, [Move(c, true), Move(c, true), Move(c, true), Move(c, true)], w')
    ensures c < |w'.clients| && w'.clients[c].pc.Idle? && w'.writer.Nobody?
    ensures w'.isReleased && !w'.cachePtr && !w'.datasetPtr
    ensures w'.dataset.frees == w'.dataset.allocs && w'.cache.frees == w'.cache.allocs
  {
    var step := Move(c, true);
    var a := Apply(w, step);
    var b := Apply(a, step);
    var d := Apply(b, step);
    w' := Apply(d, step);
    LeadsOne(d, step);
    Prepend(b, step, [step], w');
    Prepend(a, step, [step] + [step], w');
    Prepend(w, step, [step] + ([step] + [step]), w');
    assert [step] + ([step] + ([step] + [step])) == [step, step, step, step];
  }

  lemma Prepend(w: World, step: Step, rest: seq<Step>, w': World)
    requires Enabled(w, step) && Leads(Apply(w, step), rest, w')
    ensures Leads(w, [step] + rest, w')
  {
    assert ([step] + rest)[1..] == rest;
  }

  // ----- the state object and the start of the transition system -----

  /** The fields of the state object are those of the world. */
  ghost predicate Mirrors(s: NifState, w: World)
    reads s
  {
    && s.lockPtr == w.lockPtr && s.cachePtr == w.cachePtr && s.datasetPtr == w.datasetPtr
    && s.isReleased == w.isReleased
    && s.lock == w.lock && s.cache == w.cache && s.dataset == w.dataset
  }

  /** A successful init leaves exactly the start world of its mode. */
  method InitMirrorsStart(mode: Mode, lockOk: bool, cacheOk: bool, datasetOk: bool, computeOk: bool, ghost n: nat)
    returns (s: NifState, ok: bool)
    ensures fresh(s) && s.Valid()
    ensures ok <==> lockOk && cacheOk && (mode.Fast? ==> datasetOk && computeOk)
    ensures ok ==> Mirrors(s, Start(mode, n))
  {
    s := new NifState();
    ok := s.Init(mode, lockOk, cacheOk, datasetOk, computeOk);
  }

  /** release_randomx on the state object is what the three steps of a release do. */
  method ReleaseMirrorsSteps(s: NifState, ghost w: World)
    requires s.Valid() && Mirrors(s, w)
    modifies s
    ensures s.Valid() && Mirrors(s, CacheFreed(DatasetFreed(w)).(isReleased := true))
  {
    s.ReleaseRandomx();
  }

  /** The destructor of the state object is the destructor step. */
  method DestroyMirrorsStep(s: NifState, ghost w: World)
    requires s.Valid() && Mirrors(s, w) && Enabled(w, Destructor)
    modifies s
    ensures s.Valid() && Mirrors(s, Apply(w, Destructor))
  {
    s.Destroy();
  }
}
