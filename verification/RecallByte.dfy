/** Which byte of the weave a hash recalls: subspaces, search windows and their arithmetic. */
module RecallByte {
  import opened Bytes

  const SUBSPACES := 1024
  const SHARE := 10
  const BIG_NUM_SIZE := 32

  // ----- big-endian export without leading zeros -----

  /** Zero becomes the empty string. */
  function Exported(n: nat): (r: seq<byte>)
  {
    if n == 0 then [] else Exported(n / 256) + [n % 256]
  }

  lemma {:induction false} ExportedValue(n: nat)
    ensures Value(Exported(n)) == n
    ensures n > 0 ==> Exported(n)[0] != 0
  {
    if n == 0 {
    } else {
      ExportedValue(n / 256);
      assert Exported(n)[..|Exported(n)| - 1] == Exported(n / 256);
    }
  }

  /** A number below 256^k needs at most k bytes. */
  lemma {:induction false} ExportedFits(n: nat, k: nat)
    requires n < Pow256(k)
    ensures |Exported(n)| <= k
    decreases k
  {
    if n == 0 {
    } else {
      ExportedFits(n / 256, k - 1);
    }
  }

  /** The subspace number as it is hashed: zero is one zero byte. */
  function SubspaceBytes(n: nat): (r: seq<byte>) {
    if n == 0 then [0] else Exported(n)
  }

  /** Different subspaces are hashed as different strings. */
  lemma SubspaceBytesInjective(a: nat, b: nat)
    requires SubspaceBytes(a) == SubspaceBytes(b)
    ensures a == b
  {
    ExportedValue(a);
    ExportedValue(b);
  }

  // ----- sizes -----

  function EvenSize(u: nat): nat {
    u / SUBSPACES
  }

  function SearchSize(u: nat): nat {
    u / SHARE / SUBSPACES
  }

  /** The size of subspace n, clamped to the search space. */
  function ClampedSize(u: nat, n: nat): int {
    var diff := u - n * EvenSize(u);
    if diff <= EvenSize(u) then diff else EvenSize(u)
  }

  lemma NextMultiple(a: nat, b: nat, e: nat)
    requires a < b
    ensures a * e + e <= b * e
  {
    assert (a + 1) * e <= b * e;
  }

  lemma SubspacesFit(u: nat, n: nat)
    requires n < SUBSPACES
    ensures n * EvenSize(u) + EvenSize(u) <= SUBSPACES * EvenSize(u) <= u
    ensures SUBSPACES * EvenSize(u) == u - u % SUBSPACES
  {
    NextMultiple(n, SUBSPACES, EvenSize(u));
  }

  /** The clamp never changes anything. */
  lemma ClampHasNoEffect(u: nat, n: nat)
    requires n < SUBSPACES
    ensures ClampedSize(u, n) == u / SUBSPACES
  {
    SubspacesFit(u, n);
  }

  /** Nested floor divisions commute. */
  lemma SearchSizeNested(u: nat)
    ensures SearchSize(u) == u / SUBSPACES / SHARE == u / (SUBSPACES * SHARE)
    ensures SearchSize(u) <= EvenSize(u)
  {
  }

  /** All divisors of the computation are positive exactly from this bound on. */
  lemma DivisorsPositive(u: nat)
    ensures (SearchSize(u) > 0 && forall n :: 0 <= n < SUBSPACES ==> ClampedSize(u, n) > 0) <==> u >= SUBSPACES * SHARE
  {
    SearchSizeNested(u);
    forall n | 0 <= n < SUBSPACES ensures ClampedSize(u, n) == u / SUBSPACES { ClampHasNoEffect(u, n); }
    assert u >= SUBSPACES * SHARE ==> u / SUBSPACES > 0;
  }

  // ----- the recall byte -----

  /** The byte at a search offset, given where the window of the subspace starts. */
  function ByteAt(u: nat, n: nat, start: nat, offset: nat): (r: nat)
    requires u >= SUBSPACES * SHARE
  {
    n * EvenSize(u) + (start + offset) % EvenSize(u)
  }

  function Subspace(hash: Word): nat {
    Value(hash) % SUBSPACES
  }

  function WindowStart(sha: Sha, u: nat, prevHash: seq<byte>, n: nat): nat
    requires u >= SUBSPACES * SHARE
  {
    Value(sha(prevHash + SubspaceBytes(n))) % EvenSize(u)
  }

  function SearchOffset(sha: Sha, u: nat, hash: Word): nat
    requires u >= SUBSPACES * SHARE
  {
    Value(sha(hash)) % SearchSize(u)
  }

  function Recall(sha: Sha, u: nat, prevHash: seq<byte>, hash: Word): nat
    requires u >= SUBSPACES * SHARE
  {
    var n := Subspace(hash);
    ByteAt(u, n, WindowStart(sha, u, prevHash, n), SearchOffset(sha, u, hash))
  }

  /** The subspace size as the code computes it, from the difference to the upper bound. */
  method ComputeSubspaceSize(upperBound: nat, subspaceStart: nat, evenSubspaceSize: nat, ghost n: nat) returns (size: nat)
    requires n < SUBSPACES && evenSubspaceSize == EvenSize(upperBound) && subspaceStart == n * EvenSize(upperBound)
    ensures size == EvenSize(upperBound)
  {
    ClampHasNoEffect(upperBound, n);
    var diff := upperBound - subspaceStart;
    size := if diff <= evenSubspaceSize then diff else evenSubspaceSize;
  }

  /** The hash of the previous block hash and the subspace number. */
  method ComputeSeed(sha: Sha, prevHash: seq<byte>, subspaceNumber: nat) returns (seed: nat)
    ensures seed == Value(sha(prevHash + SubspaceBytes(subspaceNumber)))
  {
    var encoded := Exported(subspaceNumber);
    if |encoded| == 0 {
      encoded := [0];
    }
    seed := Value(sha(prevHash + encoded));
  }

  /** The computation, one big-integer assignment at a time. */
  method ComputeRecall(sha: Sha, upperBound: nat, prevHash: seq<byte>, hash: Word) returns (byte: seq<byte>)
    requires SUBSPACES * SHARE <= upperBound
    ensures byte == Exported(Recall(sha, upperBound, prevHash, hash))
  {
    var evenSubspaceSize := upperBound / SUBSPACES;
    var searchSubspaceSize := upperBound / SHARE / SUBSPACES;
    var subspaceNumber := Value(hash) % SUBSPACES;
    var subspaceStart := subspaceNumber * evenSubspaceSize;
    var subspaceSize := ComputeSubspaceSize(upperBound, subspaceStart, evenSubspaceSize, subspaceNumber);
    var seed := ComputeSeed(sha, prevHash, subspaceNumber);
    var searchSubspaceStart := seed % subspaceSize;
    var searchSubspaceByte := Value(sha(hash)) % searchSubspaceSize;
    var sum1 := searchSubspaceStart + searchSubspaceByte;
    byte := Exported(subspaceStart + sum1 % subspaceSize);
  }

  /** The exported byte fits the 32-byte buffer it is written to. */
  lemma RecallFits(sha: Sha, u: nat, prevHash: seq<byte>, hash: Word)
    requires SUBSPACES * SHARE <= u < Pow256(BIG_NUM_SIZE)
    ensures |Exported(Recall(sha, u, prevHash, hash))| <= BIG_NUM_SIZE
    ensures Value(Exported(Recall(sha, u, prevHash, hash))) == Recall(sha, u, prevHash, hash)
  {
    RecallInSubspace(sha, u, prevHash, hash);
    ExportedFits(Recall(sha, u, prevHash, hash), BIG_NUM_SIZE);
    ExportedValue(Recall(sha, u, prevHash, hash));
  }

  /** A recalled byte lies in its subspace, whose number it determines, and never in the last u mod 1024 bytes. */
  lemma ByteInSubspace(u: nat, n: nat, start: nat, offset: nat)
    requires u >= SUBSPACES * SHARE && n < SUBSPACES
    ensures var b, e := ByteAt(u, n, start, offset), EvenSize(u);
            && n * e <= b < n * e + e
            && b < u - u % SUBSPACES
            && b / e == n
  {
    SubspacesFit(u, n);
    var e := EvenSize(u);
    ModUnique(ByteAt(u, n, start, offset), e, n, (start + offset) % e);
  }

  /** The byte recalled by a hash lies in the subspace that the hash names. */
  lemma RecallInSubspace(sha: Sha, u: nat, prevHash: seq<byte>, hash: Word)
    requires u >= SUBSPACES * SHARE
    ensures var b := Recall(sha, u, prevHash, hash);
            b < u - u % SUBSPACES && b / EvenSize(u) == Value(hash) % SUBSPACES
  {
    var n := Subspace(hash);
    ByteInSubspace(u, n, WindowStart(sha, u, prevHash, n), SearchOffset(sha, u, hash));
  }

  // ----- windows -----

  /** How far y is after start, going round a subspace of size e. */
  function Distance(e: nat, start: nat, y: nat): int {
    if y >= start then y - start else y + e - start
  }

  /** The offset of a byte in its subspace, and back: the window is one cyclic interval. */
  lemma ByteAtDistance(u: nat, n: nat, start: nat, offset: nat, y: nat)
    requires u >= SUBSPACES * SHARE && start < EvenSize(u) && offset < EvenSize(u) && y < EvenSize(u)
    ensures ByteAt(u, n, start, offset) == n * EvenSize(u) + y <==> Distance(EvenSize(u), start, y) == offset
  {
    WrapOnce(start, offset, EvenSize(u));
  }

  /**
   * What the byte b recalled by a hash encodes, read back from b: its subspace is the
   * hash modulo 1024; its distance from the point that the previous block hash
   * and the subspace number select is the rehashed hash modulo u div 10240.
   */
  lemma RecallReadBack(sha: Sha, u: nat, prevHash: seq<byte>, hash: Word, sub: seq<byte>)
    requires u >= 10240 && sub == SubspaceBytes(Value(hash) % 1024)
    ensures Value(sub) == Value(hash) % 1024 && |sub| >= 1 && (sub == [0] || sub[0] != 0)
    ensures var b, e := Recall(sha, u, prevHash, hash), u / 1024;
            && b / e == Value(hash) % 1024
            && Distance(e, Value(sha(prevHash + sub)) % e, b % e) == Value(sha(hash)) % (u / 10240)
  {
    var n, e := Subspace(hash), u / 1024;
    var start, offset := WindowStart(sha, u, prevHash, n), SearchOffset(sha, u, hash);
    ExportedValue(n);
    SearchSizeNested(u);
    assert offset < SearchSize(u) <= e;
    var y := (start + offset) % e;
    ModUnique(ByteAt(u, n, start, offset), e, n, y);
    ByteAtDistance(u, n, start, offset, y);
  }

  /** The bytes at the first k offsets of the window of subspace n. */
  ghost function Window(u: nat, n: nat, start: nat, k: nat): set<nat>
    requires u >= SUBSPACES * SHARE
  {
    if k == 0 then {} else Window(u, n, start, k - 1) + {ByteAt(u, n, start, k - 1)}
  }

  /** Exactly which bytes are in a window. */
  lemma {:induction false} WindowMembers(u: nat, n: nat, start: nat, k: nat, b: nat)
    requires u >= SUBSPACES * SHARE && n < SUBSPACES && start < EvenSize(u) && k <= EvenSize(u)
    ensures b in Window(u, n, start, k) <==>
            var e := EvenSize(u); n * e <= b < n * e + e && Distance(e, start, b - n * e) < k
    decreases k
  {
    if k == 0 {
    } else {
      WindowMembers(u, n, start, k - 1, b);
      ByteInSubspace(u, n, start, k - 1);
      var e := EvenSize(u);
      if n * e <= b < n * e + e { ByteAtDistance(u, n, start, k - 1, b - n * e); }
    }
  }

  /** Distinct offsets give distinct bytes. */
  lemma {:induction false} WindowSize(u: nat, n: nat, start: nat, k: nat)
    requires u >= SUBSPACES * SHARE && n < SUBSPACES && start < EvenSize(u) && k <= EvenSize(u)
    ensures |Window(u, n, start, k)| == k
    decreases k
  {
    if k == 0 {
    } else {
      WindowSize(u, n, start, k - 1);
      var b, e := ByteAt(u, n, start, k - 1), EvenSize(u);
      ByteInSubspace(u, n, start, k - 1);
      ByteAtDistance(u, n, start, k - 1, b - n * e);
      WindowMembers(u, n, start, k - 1, b);
    }
  }

  ghost predicate ValidStarts(u: nat, starts: nat -> nat) {
    forall n :: 0 <= n < SUBSPACES ==> starts(n) < EvenSize(u)
  }

  /** The union of the first m sets of a family. */
  ghost function Union(family: nat -> set<nat>, m: nat): set<nat> {
    if m == 0 then {} else Union(family, m - 1) + family(m - 1)
  }

  /** Set n of the family lies in interval n of length e. */
  ghost predicate Separated(family: nat -> set<nat>, m: nat, e: nat) {
    forall n, b :: 0 <= n < m && b in family(n) ==> n * e <= b < n * e + e
  }

  lemma {:induction false} UnionBelow(family: nat -> set<nat>, m: nat, e: nat, b: nat)
    requires Separated(family, m, e) && b in Union(family, m)
    ensures b < m * e
    decreases m
  {
    OneMore(m - 1, e);
    if b !in family(m - 1) { UnionBelow(family, m - 1, e, b); }
  }

  ghost predicate Apart(a: set<nat>, w: set<nat>) {
    a !! w
  }

  /** Set n of the family has k elements, none of which is in an earlier set. */
  ghost predicate FreshAt(family: nat -> set<nat>, n: nat, k: nat) {
    |family(n)| == k && Apart(Union(family, n), family(n))
  }

  lemma NextIsApart(family: nat -> set<nat>, m: nat, e: nat)
    requires Separated(family, m + 1, e)
    ensures Apart(Union(family, m), family(m))
  {
    var a, w := Union(family, m), family(m);
    forall b | b in a ensures b !in w { UnionBelow(family, m, e, b); }
  }

  lemma ApartSize(a: set<nat>, w: set<nat>)
    requires Apart(a, w)
    ensures |a + w| == |a| + |w|
  {
  }

  /** k, added up m times. */
  function Times(m: nat, k: nat): nat {
    if m == 0 then 0 else Times(m - 1, k) + k
  }

  lemma {:induction false} TimesIsProduct(m: nat, k: nat)
    ensures Times(m, k) == m * k
    decreases m
  {
    if m == 0 {
    } else {
      TimesIsProduct(m - 1, k);
      OneMore(m - 1, k);
    }
  }

  /** k elements in each of m separate sets. */
  lemma {:induction false} UnionSize(family: nat -> set<nat>, m: nat, k: nat)
    requires forall n :: 0 <= n < m ==> FreshAt(family, n, k)
    ensures |Union(family, m)| == Times(m, k)
    decreases m
  {
    if m == 0 {
    } else {
      UnionSize(family, m - 1, k);
      assert FreshAt(family, m - 1, k);
      ApartSize(Union(family, m - 1), family(m - 1));
    }
  }

  lemma OneMore(a: int, e: nat)
    ensures (a + 1) * e == a * e + e
  {
  }

  /** The windows of all subspaces, for given window starts. */
  ghost function Windows(u: nat, starts: nat -> nat): nat -> set<nat>
    requires u >= SUBSPACES * SHARE
  {
    (n: nat) => Window(u, n, starts(n), SearchSize(u))
  }

  lemma WindowsSeparated(u: nat, starts: nat -> nat)
    requires u >= SUBSPACES * SHARE && ValidStarts(u, starts)
    ensures Separated(Windows(u, starts), SUBSPACES, EvenSize(u))
  {
    SearchSizeNested(u);
    forall n, b | 0 <= n < SUBSPACES && b in Windows(u, starts)(n)
      ensures n * EvenSize(u) <= b < n * EvenSize(u) + EvenSize(u)
    {
      WindowMembers(u, n, starts(n), SearchSize(u), b);
    }
  }

  lemma SeparatedPrefix(family: nat -> set<nat>, m: nat, m': nat, e: nat)
    requires Separated(family, m, e) && m' <= m
    ensures Separated(family, m', e)
  {
  }

  /** The windows of all subspaces hold 1024 times the search size, at most a tenth of the search space. */
  lemma SearchShare(u: nat, starts: nat -> nat)
    requires u >= SUBSPACES * SHARE && ValidStarts(u, starts)
    ensures |Union(Windows(u, starts), SUBSPACES)| == SUBSPACES * SearchSize(u) <= u / SHARE
  {
    var family := Windows(u, starts);
    WindowsSeparated(u, starts);
    forall n | 0 <= n < SUBSPACES ensures FreshAt(family, n, SearchSize(u)) {
      SearchSizeNested(u);
      WindowSize(u, n, starts(n), SearchSize(u));
      SeparatedPrefix(family, SUBSPACES, n + 1, EvenSize(u));
      NextIsApart(family, n, EvenSize(u));
    }
    UnionSize(family, SUBSPACES, SearchSize(u));
    TimesIsProduct(SUBSPACES, SearchSize(u));
  }

  /** Every hash recalls a byte of the window of its subspace. */
  lemma RecallInWindow(sha: Sha, u: nat, prevHash: seq<byte>, hash: Word)
    requires u >= SUBSPACES * SHARE
    ensures var n := Subspace(hash);
            Recall(sha, u, prevHash, hash) in Window(u, n, WindowStart(sha, u, prevHash, n), SearchSize(u))
  {
    var n := Subspace(hash);
    OffsetInWindow(u, n, WindowStart(sha, u, prevHash, n), SearchOffset(sha, u, hash), SearchSize(u));
  }

  lemma {:induction false} OffsetInWindow(u: nat, n: nat, start: nat, offset: nat, k: nat)
    requires u >= SUBSPACES * SHARE && offset < k
    ensures ByteAt(u, n, start, offset) in Window(u, n, start, k)
    decreases k
  {
    if offset < k - 1 { OffsetInWindow(u, n, start, offset, k - 1); }
  }
}
