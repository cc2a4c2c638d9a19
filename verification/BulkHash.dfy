/** The bulk mining loop: pipelined hashes whose nonces come from earlier hashes, sent round robin. */
module BulkHash {
  import opened Bytes
  import opened RandomxLong
  import opened RecallByte

  /** What a loop run is started with. */
  datatype Setup = Setup(
    p: Prims, sha: Sha, firstNonce: Word, secondNonce: Word, input: seq<byte>,
    prevHash: seq<byte>, upperBound: nat, pidCount: nat, proxyCount: nat, programCount: int)
  {
    predicate Valid() {
      upperBound >= SUBSPACES * SHARE && pidCount >= 1 && proxyCount >= 1
    }
  }

  /** One message: who gets it, and its fields. */
  datatype Message = Message(receiver: nat, recall: seq<byte>, hash: Word, entropy: seq<byte>, nonce: Word, proxy: nat)

  // ----- what the loop must send -----

  function SegmentOf(x: Setup, nonce: Word): seq<byte> {
    nonce + x.input
  }

  /** Gives the hash and the entropy of a nonce. */
  type Hasher = Word -> LongHash

  function HasherOf(x: Setup): Hasher {
    (nonce: Word) => HashOf(x.p, SegmentOf(x, nonce), x.programCount)
  }

  /** The two given nonces first; then each nonce is the hash two positions before. */
  function NonceAt(f: Hasher, first: Word, second: Word, i: nat): Word {
    if i == 0 then first
    else if i == 1 then second
    else f(NonceAt(f, first, second, i - 2)).hash
  }

  /** Message i goes to receiver i and names proxy i, both round robin. */
  function MessageOf(x: Setup, i: nat, nonce: Word, r: LongHash): Message
    requires x.Valid()
  {
    Message(RoundRobin(i, x.pidCount), Exported(Recall(x.sha, x.upperBound, x.prevHash, r.hash)), r.hash, r.entropy, nonce,
            RoundRobin(i, x.proxyCount))
  }

  /** Message i pairs nonce i with its own hash, entropy and recall byte. */
  function MessageAt(x: Setup, f: Hasher, i: nat): Message
    requires x.Valid()
  {
    var nonce := NonceAt(f, x.firstNonce, x.secondNonce, i);
    MessageOf(x, i, nonce, f(nonce))
  }

  /** k hashes in a row, each one the nonce of the next. */
  function NonceChain(f: Hasher, nonce: Word, k: nat): Word {
    if k == 0 then nonce else f(NonceChain(f, nonce, k - 1)).hash
  }

  /** The nonces are two interleaved hash chains, one from each given nonce. */
  lemma {:induction false} TwoNonceChains(f: Hasher, first: Word, second: Word, k: nat)
    ensures NonceAt(f, first, second, 2 * k) == NonceChain(f, first, k)
    ensures NonceAt(f, first, second, 2 * k + 1) == NonceChain(f, second, k)
  {
    if k == 0 {
    } else {
      TwoNonceChains(f, first, second, k - 1);
      assert 2 * k - 2 == 2 * (k - 1) && 2 * k + 1 - 2 == 2 * (k - 1) + 1;
    }
  }

  // ----- the code -----

  /** Counts 0, 1, ..., n - 1, 0, 1, ... */
  function RoundRobin(i: nat, n: nat): (r: nat)
    requires n >= 1
    ensures r < n
  {
    if i == 0 then 0
    else if RoundRobin(i - 1, n) + 1 == n then 0
    else RoundRobin(i - 1, n) + 1
  }

  lemma {:induction false} RoundRobinIsMod(i: nat, n: nat)
    requires n >= 1
    ensures RoundRobin(i, n) == i % n
    decreases i
  {
    if i == 0 {
      ModUnique(0, n, 0, 0);
    } else {
      RoundRobinIsMod(i - 1, n);
      var q, r := (i - 1) / n, (i - 1) % n;
      if r + 1 == n { ModUnique(i, n, q + 1, 0); } else { ModUnique(i, n, q, r + 1); }
    }
  }

  /**
   * Message i goes to receiver i mod pidCount and names proxy i mod proxyCount.
   * Its nonce is the first or the second given one, or the hash of the message
   * two places before; its hash, entropy and recall byte are those of its nonce.
   */
  lemma MessageRouting(x: Setup, i: nat)
    requires x.Valid()
    ensures var m := MessageAt(x, HasherOf(x), i);
            && m.receiver == i % x.pidCount && m.proxy == i % x.proxyCount
            && LongHash(m.hash, m.entropy) == HashOf(x.p, m.nonce + x.input, x.programCount)
            && Value(m.recall) == Recall(x.sha, x.upperBound, x.prevHash, m.hash)
            && (i == 0 ==> m.nonce == x.firstNonce) && (i == 1 ==> m.nonce == x.secondNonce)
            && (i >= 2 ==> m.nonce == MessageAt(x, HasherOf(x), i - 2).hash)
  {
    RoundRobinIsMod(i, x.pidCount);
    RoundRobinIsMod(i, x.proxyCount);
    ExportedValue(Recall(x.sha, x.upperBound, x.prevHash, MessageAt(x, HasherOf(x), i).hash));
  }

  method Advance(cursor: nat, count: nat, ghost i: nat) returns (next: nat)
    requires count >= 1 && cursor == RoundRobin(i, count)
    ensures next == RoundRobin(i + 1, count)
  {
    next := cursor + 1;
    if next == count {
      next := 0;
    }
  }

  /** Hashes iteration i; except in the last one, the machine is primed with the next nonce at the same time. */
  method HashStep(x: Setup, vm: Machine, nonce: Word, isLast: bool, ghost prevNonce: Word, ghost f: Hasher)
    returns (r: LongHash)
    requires f == HasherOf(x) && vm.p == x.p && vm.Primed(SegmentOf(x, prevNonce))
    modifies vm
    ensures r == f(prevNonce)
    ensures !isLast ==> vm.Primed(SegmentOf(x, nonce))
  {
    if isLast {
      r := vm.Last(x.programCount, SegmentOf(x, prevNonce));
    } else {
      r := vm.Next(SegmentOf(x, nonce), x.programCount, SegmentOf(x, prevNonce));
    }
  }

  /** Computes the recall byte and assembles the message. */
  method Compose(x: Setup, nonce: Word, r: LongHash, pidCursor: nat, proxyCursor: nat, ghost i: nat) returns (m: Message)
    requires x.Valid() && pidCursor == RoundRobin(i, x.pidCount) && proxyCursor == RoundRobin(i, x.proxyCount)
    ensures m == MessageOf(x, i, nonce, r)
  {
    var recall := ComputeRecall(x.sha, x.upperBound, x.prevHash, r.hash);
    m := Message(pidCursor, recall, r.hash, r.entropy, nonce, proxyCursor);
  }

  /** The messages sent so far are the right ones, in order. */
  ghost predicate AllSent(x: Setup, f: Hasher, sent: seq<Message>)
    requires x.Valid()
  {
    forall i :: 0 <= i < |sent| ==> sent[i] == MessageAt(x, f, i)
  }

  lemma AppendSent(x: Setup, f: Hasher, sent: seq<Message>, m: Message)
    requires x.Valid() && AllSent(x, f, sent)
    requires m == MessageAt(x, f, |sent|)
    ensures AllSent(x, f, sent + [m])
  {
  }

  /** The variables of the loop at the top of iteration i. */
  datatype Vars = Vars(i: nat, nonce: Word, hash: Word, pidCursor: nat, proxyCursor: nat, sent: seq<Message>)

  ghost predicate VarsOk(x: Setup, f: Hasher, v: Vars)
    requires x.Valid()
  {
    && |v.sent| == v.i && AllSent(x, f, v.sent)
    && v.nonce == NonceAt(f, x.firstNonce, x.secondNonce, v.i)
    && (v.i > 0 ==> v.hash == f(NonceAt(f, x.firstNonce, x.secondNonce, v.i - 1)).hash)
    && v.pidCursor == RoundRobin(v.i, x.pidCount) && v.proxyCursor == RoundRobin(v.i, x.proxyCount)
  }

  function NextNonce(x: Setup, v: Vars): Word {
    if v.i == 0 then x.secondNonce else v.hash
  }

  /** The hash and the message of this iteration lead to the variables of the next one. */
  function Stepped(x: Setup, v: Vars, r: LongHash): Vars
    requires x.Valid()
  {
    Vars(v.i + 1, NextNonce(x, v), r.hash, RoundRobin(v.i + 1, x.pidCount), RoundRobin(v.i + 1, x.proxyCount),
         v.sent + [MessageOf(x, v.i, v.nonce, r)])
  }

  lemma SteppedOk(x: Setup, f: Hasher, v: Vars)
    requires x.Valid() && VarsOk(x, f, v)
    ensures VarsOk(x, f, Stepped(x, v, f(v.nonce)))
  {
    AppendSent(x, f, v.sent, MessageOf(x, v.i, v.nonce, f(v.nonce)));
  }

  /** One turn of the loop. */
  method Turn(x: Setup, vm: Machine, v: Vars, isLast: bool) returns (v': Vars, ghost r: LongHash)
    requires x.Valid() && vm.p == x.p && vm.Primed(SegmentOf(x, v.nonce))
    requires v.pidCursor == RoundRobin(v.i, x.pidCount) && v.proxyCursor == RoundRobin(v.i, x.proxyCount)
    modifies vm
    ensures r == HasherOf(x)(v.nonce) && v' == Stepped(x, v, r)
    ensures !isLast ==> vm.Primed(SegmentOf(x, v'.nonce))
  {
    var prevNonce := v.nonce;
    var nonce := if v.i == 0 then x.secondNonce else v.hash;
    var hashed := HashStep(x, vm, nonce, isLast, prevNonce, HasherOf(x));
    r := hashed;
    var m := Compose(x, prevNonce, hashed, v.pidCursor, v.proxyCursor, v.i);
    var pidCursor := Advance(v.pidCursor, x.pidCount, v.i);
    var proxyCursor := Advance(v.proxyCursor, x.proxyCount, v.i);
    v' := Vars(v.i + 1, nonce, hashed.hash, pidCursor, proxyCursor, v.sent + [m]);
  }

  /**
   * The loop. The hash of a nonce is known only after the next nonce has been
   * handed to the machine, yet every message pairs a nonce with its own hash.
   */
  method BulkHashLong(x: Setup, vm: Machine, hashingIterations: int) returns (sent: seq<Message>)
    requires x.Valid() && vm.p == x.p
    modifies vm
    ensures |sent| == if hashingIterations < 0 then 0 else hashingIterations
    ensures AllSent(x, HasherOf(x), sent)
  {
    ghost var f := HasherOf(x);
    var v := Vars(0, x.firstNonce, x.firstNonce, 0, 0, []);
    vm.First(SegmentOf(x, v.nonce));
    while v.i < hashingIterations
      invariant VarsOk(x, f, v) && (v.i <= hashingIterations || v.i == 0)
      invariant v.i < hashingIterations ==> vm.Primed(SegmentOf(x, v.nonce))
      decreases hashingIterations - v.i
    {
      SteppedOk(x, f, v);
      ghost var r;
      v, r := Turn(x, vm, v, v.i == hashingIterations - 1);
    }
    sent := v.sent;
  }
}
