/** The long RandomX hash with entropy: the one-shot form and the pipelined form on one machine. */
module RandomxLong {
  import opened Bytes

  const ENTROPY_SIZE := 262144

  /** The scratchpad of a machine; its beginning is handed out as entropy. */
  type Scratchpad = s: seq<byte> | |s| >= ENTROPY_SIZE witness seq(ENTROPY_SIZE, _ => 0)

  type Seed = seq<byte>
  type Registers = seq<byte>

  /** What one program leaves behind. */
  datatype ProgramEnd = ProgramEnd(registers: Registers, scratchpad: Scratchpad, rounding: int)

  datatype Filled = Filled(scratchpad: Scratchpad, seed: Seed)

  datatype Digest = Digest(hash: Word, registers: Registers)

  /**
   * The foreign primitives, arbitrary: BLAKE2b; filling the scratchpad, which
   * also advances the seed; running one program from seed, scratchpad and
   * rounding mode; and the final digest, which also overwrites registers.
   */
  datatype Prims = Prims(
    blake: seq<byte> -> Seed,
    fill: Seed -> Filled,
    run: (Seed, Scratchpad, int) -> ProgramEnd,
    digest: (Registers, Scratchpad) -> Digest,
    defaultRounding: int)

  // ----- the reference -----

  /** n chained programs, each seeded by the registers of the one before, then one more. */
  function Programs(p: Prims, seed: Seed, pad: Scratchpad, rounding: int, n: nat): ProgramEnd
    decreases n
  {
    var e := p.run(seed, pad, rounding);
    if n == 0 then e else Programs(p, p.blake(e.registers), e.scratchpad, e.rounding, n - 1)
  }

  /** programCount is a C int: at least one program always runs. */
  function Chained(programCount: int): nat {
    if programCount < 1 then 0 else programCount - 1
  }

  datatype LongHash = LongHash(hash: Word, entropy: seq<byte>)

  function EntropyOf(pad: Scratchpad): (r: seq<byte>)
    ensures |r| == ENTROPY_SIZE
  {
    pad[..ENTROPY_SIZE]
  }

  function EndOf(p: Prims, f: Filled, programCount: int): ProgramEnd {
    Programs(p, f.seed, f.scratchpad, p.defaultRounding, Chained(programCount))
  }

  /** The long hash of an input and its entropy, as a function of the input alone. */
  function HashOf(p: Prims, input: seq<byte>, programCount: int): LongHash {
    var e := EndOf(p, p.fill(p.blake(input)), programCount);
    LongHash(p.digest(e.registers, e.scratchpad).hash, EntropyOf(e.scratchpad))
  }

  // ----- the programs of one hash, one by one -----

  /** Each program after the first runs from the registers, the scratchpad and the rounding mode of the one before. */
  ghost predicate Linked(p: Prims, es: seq<ProgramEnd>) {
    forall i :: 0 < i < |es| ==> es[i] == p.run(p.blake(es[i - 1].registers), es[i - 1].scratchpad, es[i - 1].rounding)
  }

  /** What the programs of the hash of input leave behind, in order. */
  ghost predicate IsTrace(p: Prims, input: seq<byte>, programCount: int, es: seq<ProgramEnd>) {
    var f := p.fill(p.blake(input));
    && |es| == (if programCount < 1 then 1 else programCount)
    && es[0] == p.run(f.seed, f.scratchpad, p.defaultRounding)
    && Linked(p, es)
  }

  lemma {:induction false} LinkedEnd(p: Prims, seed: Seed, pad: Scratchpad, rounding: int, es: seq<ProgramEnd>)
    requires es != [] && es[0] == p.run(seed, pad, rounding) && Linked(p, es)
    ensures Programs(p, seed, pad, rounding, |es| - 1) == es[|es| - 1]
    decreases |es|
  {
    if |es| == 1 {
    } else {
      var e, rest := es[0], es[1..];
      forall i | 0 < i < |rest|
        ensures rest[i] == p.run(p.blake(rest[i - 1].registers), rest[i - 1].scratchpad, rest[i - 1].rounding)
      {
        assert rest[i] == es[i + 1] && rest[i - 1] == es[i];
      }
      assert rest[0] == es[1];
      LinkedEnd(p, p.blake(e.registers), e.scratchpad, e.rounding, rest);
    }
  }

  /**
   * The hash is the digest of the registers and the scratchpad that the last of
   * max(1, programCount) linked programs leaves, and the entropy begins that scratchpad.
   */
  lemma HashOfTrace(p: Prims, input: seq<byte>, programCount: int, es: seq<ProgramEnd>)
    requires IsTrace(p, input, programCount, es)
    ensures var last := es[|es| - 1];
            HashOf(p, input, programCount)
            == LongHash(p.digest(last.registers, last.scratchpad).hash, last.scratchpad[..262144])
  {
    var f := p.fill(p.blake(input));
    LinkedEnd(p, f.seed, f.scratchpad, p.defaultRounding, es);
  }

  lemma {:induction false} LinkedExists(p: Prims, first: ProgramEnd, n: nat) returns (es: seq<ProgramEnd>)
    ensures |es| == n + 1 && es[0] == first && Linked(p, es)
  {
    if n == 0 {
      es := [first];
    } else {
      var e := LinkedExists(p, first, n - 1);
      var last := e[n - 1];
      es := e + [p.run(p.blake(last.registers), last.scratchpad, last.rounding)];
    }
  }

  /** Every input has such programs. */
  lemma TraceExists(p: Prims, input: seq<byte>, programCount: int) returns (es: seq<ProgramEnd>)
    ensures IsTrace(p, input, programCount, es)
  {
    var f := p.fill(p.blake(input));
    es := LinkedExists(p, p.run(f.seed, f.scratchpad, p.defaultRounding), if programCount < 1 then 0 else programCount - 1);
  }

  /** Every program adds one to the rounding mode. */
  ghost predicate Counts(p: Prims) {
    forall s, q, m :: p.run(s, q, m).rounding == m + 1
  }

  lemma {:induction false} CountedPrograms(p: Prims, seed: Seed, pad: Scratchpad, rounding: int, n: nat)
    requires Counts(p)
    ensures Programs(p, seed, pad, rounding, n).rounding == rounding + n + 1
    decreases n
  {
    var e := p.run(seed, pad, rounding);
    if n == 0 {
    } else {
      CountedPrograms(p, p.blake(e.registers), e.scratchpad, e.rounding, n - 1);
    }
  }

  /** Exactly max(1, programCount) programs run, the first one from the default rounding mode. */
  lemma ProgramCountLaw(p: Prims, f: Filled, programCount: int)
    requires Counts(p)
    ensures EndOf(p, f, programCount).rounding == p.defaultRounding + if programCount < 1 then 1 else programCount
  {
    CountedPrograms(p, f.seed, f.scratchpad, p.defaultRounding, Chained(programCount));
  }

  // ----- the machine -----

  class Machine {
    const p: Prims
    var tempHash: Seed
    var scratchpad: Scratchpad
    var registers: Registers
    var rounding: int

    constructor (p: Prims, tempHash: Seed, scratchpad: Scratchpad, registers: Registers, rounding: int)
      ensures this.p == p
      ensures this.tempHash == tempHash && this.scratchpad == scratchpad
      ensures this.registers == registers && this.rounding == rounding
    {
      this.p, this.tempHash, this.scratchpad, this.registers, this.rounding :=
        p, tempHash, scratchpad, registers, rounding;
    }

    /** The machine is ready to run the programs of this input. */
    ghost predicate Primed(input: seq<byte>)
      reads this
    {
      Filled(scratchpad, tempHash) == p.fill(p.blake(input))
    }

    method Run(seed: Seed)
      modifies this`registers, this`scratchpad, this`rounding
      ensures ProgramEnd(registers, scratchpad, rounding) == p.run(seed, old(scratchpad), old(rounding))
    {
      var e := p.run(seed, scratchpad, rounding);
      registers, scratchpad, rounding := e.registers, e.scratchpad, e.rounding;
    }

    /** The program loop that all five entry points share. */
    method RunPrograms(seed: Seed, programCount: int)
      modifies this`registers, this`scratchpad, this`rounding
      ensures ProgramEnd(registers, scratchpad, rounding)
           == Programs(p, seed, old(scratchpad), p.defaultRounding, Chained(programCount))
    {
      rounding := p.defaultRounding;
      var temp := seed;
      var chain := 0;
      ghost var goal := Programs(p, seed, scratchpad, rounding, Chained(programCount));
      while chain < programCount - 1
        invariant 0 <= chain <= Chained(programCount)
        invariant Programs(p, temp, scratchpad, rounding, Chained(programCount) - chain) == goal
      {
        Run(temp);
        temp := p.blake(registers);
        chain := chain + 1;
      }
      Run(temp);
    }

    method GetFinalResult() returns (hash: Word)
      modifies this`registers
      ensures Digest(hash, registers) == p.digest(old(registers), scratchpad)
    {
      var d := p.digest(registers, scratchpad);
      hash, registers := d.hash, d.registers;
    }

    /** The one-shot hash works with a seed of its own and leaves tempHash alone. */
    method HashLongWithEntropy(input: seq<byte>, programCount: int) returns (r: LongHash)
      modifies this`registers, this`scratchpad, this`rounding
      ensures r == HashOf(p, input, programCount)
    {
      var f := p.fill(p.blake(input));
      scratchpad := f.scratchpad;
      RunPrograms(f.seed, programCount);
      var hash := GetFinalResult();
      r := LongHash(hash, scratchpad[..ENTROPY_SIZE]);
    }

    /** Only the entropy; the caller reads it from the scratchpad. */
    method GetEntropy(input: seq<byte>, programCount: int)
      modifies this`registers, this`scratchpad, this`rounding
      ensures EntropyOf(scratchpad) == HashOf(p, input, programCount).entropy
    {
      var f := p.fill(p.blake(input));
      scratchpad := f.scratchpad;
      RunPrograms(f.seed, programCount);
      var _ := GetFinalResult();
    }

    method First(input: seq<byte>)
      modifies this`tempHash, this`scratchpad
      ensures Primed(input)
    {
      var f := p.fill(p.blake(input));
      tempHash, scratchpad := f.seed, f.scratchpad;
    }

    /** Finishes the current hash and fills the scratchpad for the next input; the entropy is copied before the fill. */
    method Next(nextInput: seq<byte>, programCount: int, ghost input: seq<byte>) returns (r: LongHash)
      requires Primed(input)
      modifies this
      ensures r == HashOf(p, input, programCount)
      ensures Primed(nextInput)
    {
      RunPrograms(tempHash, programCount);
      tempHash := p.blake(nextInput);
      var entropy := scratchpad[..ENTROPY_SIZE];
      var hash := GetFinalResult();
      var f := p.fill(tempHash);
      tempHash, scratchpad := f.seed, f.scratchpad;
      r := LongHash(hash, entropy);
    }

    method Last(programCount: int, ghost input: seq<byte>) returns (r: LongHash)
      requires Primed(input)
      modifies this
      ensures r == HashOf(p, input, programCount)
    {
      RunPrograms(tempHash, programCount);
      var hash := GetFinalResult();
      r := LongHash(hash, scratchpad[..ENTROPY_SIZE]);
    }
  }

  /** first, next, ..., last on one machine emits what the one-shot hash gives for each input. */
  method Pipelined(vm: Machine, inputs: seq<seq<byte>>, programCount: int) returns (out: seq<LongHash>)
    requires inputs != []
    modifies vm
    ensures |out| == |inputs|
    ensures forall i :: 0 <= i < |inputs| ==> out[i] == HashOf(vm.p, inputs[i], programCount)
  {
    out := [];
    vm.First(inputs[0]);
    var i := 1;
    while i < |inputs|
      invariant 1 <= i <= |inputs| && |out| == i - 1
      invariant vm.Primed(inputs[i - 1])
      invariant forall j :: 0 <= j < i - 1 ==> out[j] == HashOf(vm.p, inputs[j], programCount)
    {
      var r := vm.Next(inputs[i], programCount, inputs[i - 1]);
      out := out + [r];
      i := i + 1;
    }
    var r := vm.Last(programCount, inputs[i - 1]);
    out := out + [r];
  }
}
