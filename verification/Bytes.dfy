/** Bytes, 32-byte words, big-endian numbers and the in-place salt counter. */
module Bytes {

  type byte = x: int | 0 <= x < 256

  /** A 32-byte string: a salt, a VDF hash, a seed. */
  type Word = s: seq<byte> | |s| == 32 witness seq(32, _ => 0)

  /** SHA-256 as an arbitrary total function to 32 bytes. */
  type Sha = seq<byte> -> Word

  // ----- big-endian numbers -----

  function Pow256(k: nat): (r: nat)
    ensures r >= 1
  {
    if k == 0 then 1 else 256 * Pow256(k - 1)
  }

  /** The number whose big-endian representation is s. */
  function Value(s: seq<byte>): (r: nat)
  {
    if s == [] then 0 else 256 * Value(s[..|s| - 1]) + s[|s| - 1]
  }

  lemma {:induction false} ValueBound(s: seq<byte>)
    ensures Value(s) < Pow256(|s|)
  {
    if s == [] {
    } else {
      ValueBound(s[..|s| - 1]);
    }
  }

  /** n mod 256m, split into its last byte and the rest. */
  lemma ModSplit(n: nat, m: nat)
    requires m >= 1
    ensures n % (256 * m) == 256 * ((n / 256) % m) + n % 256
  {
    var a := n / 256;
    var q, r := a / m, a % m;
    assert n == 256 * a + n % 256;
    assert a == m * q + r;
    ModUnique(n, 256 * m, q, 256 * r + n % 256);
  }

  lemma ModUnique(n: nat, d: nat, q: nat, r: nat)
    requires r < d
    requires n == d * q + r
    ensures n % d == r && n / d == q
  {
    MulGap(d, n / d, n % d, q, r);
    MulGap(d, q, r, n / d, n % d);
  }

  lemma MulGap(d: nat, q: nat, r: nat, q': nat, r': nat)
    requires r < d
    ensures q < q' ==> d * q + r < d * q' + r'
  {
    if q < q' {
      assert d * (q + 1) <= d * q';
    }
  }

  // ----- the salt counter -----

  /** Byte-wise addition of n to the big-endian number s, dropping the carry out of the first byte. */
  function Add(s: seq<byte>, n: nat): (r: seq<byte>)
    ensures |r| == |s|
  {
    if s == [] then []
    else
      var v := s[|s| - 1] + n;
      Add(s[..|s| - 1], v / 256) + [v % 256]
  }

  lemma CarrySplit(v: nat, l: nat, n: nat)
    ensures (256 * v + l + n) / 256 == v + (l + n) / 256
    ensures (256 * v + l + n) % 256 == (l + n) % 256
  {
  }

  /** One byte of an addition modulo big == 256m, given the addition modulo m of the bytes before it. */
  lemma ModCarry(sum: nat, v: nat, l: nat, n: nat, m: nat, big: nat, a: nat)
    requires m >= 1 && big == 256 * m && sum == 256 * v + l + n && a == (v + (l + n) / 256) % m
    ensures sum % big == 256 * a + (l + n) % 256
  {
    CarrySplit(v, l, n);
    ModSplit(sum, m);
  }

  lemma {:induction false} AppendedValue(s: seq<byte>, b: byte)
    ensures Value(s + [b]) == 256 * Value(s) + b
  {
    assert (s + [b])[..|s|] == s;
  }

  /** Add is addition modulo 256^|s|. */
  lemma {:induction false} AddValue(s: seq<byte>, n: nat)
    ensures Value(Add(s, n)) == (Value(s) + n) % Pow256(|s|)
  {
    if s == [] {
    } else {
      var p, l := s[..|s| - 1], s[|s| - 1];
      var c := (l + n) / 256;
      AddValue(p, c);
      AppendedValue(Add(p, c), (l + n) % 256);
      ModCarry(Value(s) + n, Value(p), l, n, Pow256(|p|), Pow256(|s|), Value(Add(p, c)));
    }
  }

  lemma {:induction false} AddZero(s: seq<byte>)
    ensures Add(s, 0) == s
  {
    if s == [] {
    } else {
      AddZero(s[..|s| - 1]);
      assert s == s[..|s| - 1] + [s[|s| - 1]];
    }
  }

  /** Bytes are most significant first. */
  lemma {:induction false} ValueConcat(a: seq<byte>, b: seq<byte>)
    ensures Value(a + b) == Value(a) * Pow256(|b|) + Value(b)
    decreases |b|
  {
    if b == [] {
      assert a + b == a;
    } else {
      var p, l := b[..|b| - 1], b[|b| - 1];
      assert a + b == (a + p) + [l];
      AppendedValue(a + p, l);
      ValueConcat(a, p);
      ScaledDigit(Value(a), Pow256(|p|), Pow256(|b|));
    }
  }

  lemma ScaledDigit(v: nat, m: nat, big: nat)
    requires big == 256 * m
    ensures 256 * (v * m) == v * big
  {
  }

  /** Two jumps are one jump: unit increments reach the salt of a direct jump. */
  lemma {:induction false} AddAdd(s: seq<byte>, a: nat, b: nat)
    ensures Add(Add(s, a), b) == Add(s, a + b)
  {
    if s == [] {
    } else {
      var p, v := s[..|s| - 1], s[|s| - 1] + a;
      var t := Add(s, a);
      assert t[..|s| - 1] == Add(p, v / 256);
      var w := v % 256 + b;
      AddAdd(p, v / 256, w / 256);
      assert v / 256 + w / 256 == (v + b) / 256;
      assert w % 256 == (v + b) % 256;
    }
  }

  /** Counting from a salt does not repeat within 256^|s| steps. */
  lemma {:induction false} AddDistinct(s: seq<byte>, a: nat, b: nat)
    requires a < Pow256(|s|) && b < Pow256(|s|)
    requires Add(s, a) == Add(s, b)
    ensures a == b
  {
    AddValue(s, a);
    AddValue(s, b);
    ValueBound(s);
    WrapOnce(Value(s), a, Pow256(|s|));
    WrapOnce(Value(s), b, Pow256(|s|));
  }

  lemma WrapOnce(v: nat, a: nat, m: nat)
    requires v < m && a < m
    ensures (v + a) % m == if v + a < m then v + a else v + a - m
  {
    if v + a < m { ModUnique(v + a, m, 0, v + a); } else { ModUnique(v + a, m, 1, v + a - m); }
  }

  /** What s becomes when carry acc is still to be added to its first i bytes. */
  ghost function Pending(s: seq<byte>, i: nat, acc: nat): (r: seq<byte>)
    requires i <= |s|
  {
    Add(s[..i], acc) + s[i..]
  }

  lemma PendingStep(s: seq<byte>, i: nat, acc: nat)
    requires i < |s|
    ensures Pending(s[i := (s[i] + acc) % 256], i, (s[i] + acc) / 256) == Pending(s, i + 1, acc)
  {
    var v := s[i] + acc;
    var t := s[i := v % 256];
    assert s[..i + 1][..i] == s[..i] == t[..i];
    assert t[i..] == [v % 256] + s[i + 1..];
  }

  lemma {:induction false} PendingEnds(s: seq<byte>, i: nat, acc: nat)
    requires i <= |s|
    ensures acc == 0 || i == 0 ==> Pending(s, i, acc) == s
    ensures Pending(s, |s|, acc) == Add(s, acc)
  {
    AddZero(s[..i]);
    assert s[..|s|] == s;
  }

  const INT_LIMIT := 0x8000_0000
  const UINT_LIMIT := 0x1_0000_0000

  /**
   * Adds n to the salt in place, walking from the least significant byte and
   * stopping as soon as the carry is zero. The accumulator never reaches 2^32.
   */
  method LongAdd(salt: array<byte>, n: nat)
    requires n < INT_LIMIT
    modifies salt
    ensures salt[..] == Add(old(salt[..]), n)
    ensures Value(salt[..]) == (old(Value(salt[..])) + n) % Pow256(salt.Length)
  {
    AddValue(salt[..], n);
    CarryLoop(salt, n);
  }

  method CarryLoop(salt: array<byte>, n: nat)
    requires n < INT_LIMIT
    modifies salt
    ensures salt[..] == Add(old(salt[..]), n)
  {
    PendingEnds(salt[..], salt.Length, n);
    ghost var goal := Add(salt[..], n);
    var acc: nat := n;
    var i := salt.Length - 1;
    while i >= 0
      invariant -1 <= i < salt.Length
      invariant acc < INT_LIMIT
      invariant Pending(salt[..], i + 1, acc) == goal
    {
      acc := AddByte(salt, i, acc);
      PendingEnds(salt[..], i, acc);
      if acc == 0 {
        return;
      }
      i := i - 1;
    }
    PendingEnds(salt[..], 0, acc);
  }

  /** Adds acc to byte i, keeps the low byte of the 32-bit sum and returns the carry. */
  method AddByte(salt: array<byte>, i: nat, acc: nat) returns (carry: nat)
    requires i < salt.Length && acc < INT_LIMIT
    modifies salt
    ensures Pending(salt[..], i, carry) == Pending(old(salt[..]), i + 1, acc)
    ensures carry < INT_LIMIT
  {
    var value := salt[i] + acc;
    assert value < UINT_LIMIT;
    PendingStep(salt[..], i, acc);
    ghost var now := salt[..];
    var low: byte := value % 256;
    salt[i] := low;
    assert salt[..] == now[i := low];
    carry := value / 256;
  }

  // ----- exclusive or -----

  /** Exclusive or of the low k bits of a and b. */
  function XorBits(a: nat, b: nat, k: nat): (r: nat)
    decreases k
  {
    if k == 0 then 0 else 2 * XorBits(a / 2, b / 2, k - 1) + (a + b) % 2
  }

  function Pow2(k: nat): (r: nat)
    ensures r >= 1
  {
    if k == 0 then 1 else 2 * Pow2(k - 1)
  }

  lemma {:induction false} XorBitsBound(a: nat, b: nat, k: nat)
    ensures XorBits(a, b, k) < Pow2(k)
    decreases k
  {
    if k == 0 {
    } else {
      XorBitsBound(a / 2, b / 2, k - 1);
    }
  }

  lemma BitCancel(h: nat, a: nat, b: nat)
    ensures (2 * h + (a + b) % 2) / 2 == h
    ensures (2 * h + (a + b) % 2 + b) % 2 == a % 2
  {
  }

  lemma {:induction false} XorBitsCancel(a: nat, b: nat, k: nat)
    requires a < Pow2(k)
    ensures XorBits(XorBits(a, b, k), b, k) == a
    decreases k
  {
    if k == 0 {
    } else {
      XorBitsCancel(a / 2, b / 2, k - 1);
      BitCancel(XorBits(a / 2, b / 2, k - 1), a, b);
    }
  }

  function Xor(a: byte, b: byte): (r: byte)
  {
    XorBitsBound(a, b, 8);
    assert Pow2(8) == 256;
    XorBits(a, b, 8)
  }

  lemma XorCancel(a: byte, b: byte)
    ensures Xor(Xor(a, b), b) == a
  {
    assert Pow2(8) == 256;
    XorBitsCancel(a, b, 8);
  }

  /** Bit i of the result is set exactly when bit i differs. */
  lemma {:induction false} XorBitAt(a: nat, b: nat, k: nat, i: nat)
    requires i < k
    ensures BitAt(XorBits(a, b, k), i) <==> BitAt(a, i) != BitAt(b, i)
    decreases k
  {
    BitCancel(XorBits(a / 2, b / 2, k - 1), a, b);
    if i == 0 {
      assert (a + b) % 2 == 1 <==> (a % 2 == 1) != (b % 2 == 1);
    } else {
      XorBitAt(a / 2, b / 2, k - 1, i - 1);
    }
  }

  lemma XorBit(a: byte, b: byte, i: nat)
    requires i < 8
    ensures BitAt(Xor(a, b), i) <==> BitAt(a, i) != BitAt(b, i)
  {
    XorBitAt(a, b, 8, i);
  }

  predicate BitAt(a: nat, i: nat)
    decreases i
  {
    if i == 0 then a % 2 == 1 else BitAt(a / 2, i - 1)
  }

  function XorSeq(a: seq<byte>, b: seq<byte>): (r: seq<byte>)
    requires |a| == |b|
    ensures |r| == |a|
    ensures forall i :: 0 <= i < |a| ==> r[i] == Xor(a[i], b[i])
  {
    seq(|a|, i requires 0 <= i < |a| => Xor(a[i], b[i]))
  }

  lemma XorSeqCancel(a: seq<byte>, b: seq<byte>)
    requires |a| == |b|
    ensures XorSeq(XorSeq(a, b), b) == a
  {
    forall i | 0 <= i < |a| ensures XorSeq(XorSeq(a, b), b)[i] == a[i] { XorCancel(a[i], b[i]); }
  }
}
