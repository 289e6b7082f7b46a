/**
 The hand-written SHA-256 of the milestone engine. Its arithmetic is JavaScript's: bitwise operators work on signed 32-bit
 integers, sums are exact, and `>>> 0` reduces them. It refines section 6.2.2 of FIPS 180-4, which adds modulo 2^32.
 */
module Sha256 {
  import opened Wrappers

  const TWO_31 := 0x8000_0000
  const TWO_32 := 0x1_0000_0000

  type Word = x: nat | x < 0x1_0000_0000

  type Byte = x: nat | x < 256

  // ----- words, FIPS 180-4 section 3.2 -----

  datatype BitOp = AndOp | OrOp | XorOp

  /** One bit of a bitwise operation. */
  function Bit(op: BitOp, x: nat, y: nat): (b: nat)
    ensures b <= 1
  {
    match op
    case AndOp => if x == 1 && y == 1 then 1 else 0
    case OrOp => if x == 1 || y == 1 then 1 else 0
    case XorOp => if x != y then 1 else 0
  }

  function PowerOf2(n: nat): nat {
    if n == 0 then 1 else 2 * PowerOf2(n - 1)
  }

  /** A bitwise operation on the low n bits. */
  function Bitwise(op: BitOp, x: nat, y: nat, n: nat): (r: nat)
    ensures r < PowerOf2(n)
  {
    if n == 0 then 0 else Bit(op, x % 2, y % 2) + 2 * Bitwise(op, x / 2, y / 2, n - 1)
  }

  lemma {:induction false} WordSize()
    ensures PowerOf2(32) == TWO_32
  {
    assert PowerOf2(8) == 256;
    assert PowerOf2(16) == 65_536;
    assert PowerOf2(24) == 16_777_216;
    assert PowerOf2(32) == 4_294_967_296;
  }

  function OnWords(op: BitOp, x: Word, y: Word): Word {
    WordSize();
    Bitwise(op, x, y, 32)
  }

  function And(x: Word, y: Word): Word { OnWords(AndOp, x, y) }

  function Or(x: Word, y: Word): Word { OnWords(OrOp, x, y) }

  function Xor(x: Word, y: Word): Word { OnWords(XorOp, x, y) }

  /** Complementing every bit of a word leaves what it lacks to 2^32 - 1. */
  function Not(x: Word): Word { TWO_32 - 1 - x }

  function Shr(x: Word, n: nat): Word
    decreases n, x
  {
    if n == 0 then x else Shr(x / 2, n - 1)
  }

  function Shl(x: Word, n: nat): Word
    decreases n, x
  {
    if n == 0 then x else Shl(2 * x % TWO_32, n - 1)
  }

  /** ROTR */
  function Rotr(n: nat, x: Word): Word
    requires n < 32
  {
    Or(Shr(x, n), Shl(x, 32 - n))
  }

  function Add(x: Word, y: Word): Word { (x + y) % TWO_32 }

  // ----- the functions of section 4.1.2 -----

  function Ch(x: Word, y: Word, z: Word): Word { Xor(And(x, y), And(Not(x), z)) }

  function Maj(x: Word, y: Word, z: Word): Word { Xor(Xor(And(x, y), And(x, z)), And(y, z)) }

  function BigSigma0(x: Word): Word { Xor(Xor(Rotr(2, x), Rotr(13, x)), Rotr(22, x)) }

  function BigSigma1(x: Word): Word { Xor(Xor(Rotr(6, x), Rotr(11, x)), Rotr(25, x)) }

  function SmallSigma0(x: Word): Word { Xor(Xor(Rotr(7, x), Rotr(18, x)), Shr(x, 3)) }

  function SmallSigma1(x: Word): Word { Xor(Xor(Rotr(17, x), Rotr(19, x)), Shr(x, 10)) }

  /** The constants of section 4.2.2. */
  const K: seq<Word> := [
    0x428a2f98, 0x71374491, 0xb5c0fbcf, 0xe9b5dba5, 0x3956c25b, 0x59f111f1, 0x923f82a4, 0xab1c5ed5,
    0xd807aa98, 0x12835b01, 0x243185be, 0x550c7dc3, 0x72be5d74, 0x80deb1fe, 0x9bdc06a7, 0xc19bf174,
    0xe49b69c1, 0xefbe4786, 0x0fc19dc6, 0x240ca1cc, 0x2de92c6f, 0x4a7484aa, 0x5cb0a9dc, 0x76f988da,
    0x983e5152, 0xa831c66d, 0xb00327c8, 0xbf597fc7, 0xc6e00bf3, 0xd5a79147, 0x06ca6351, 0x14292967,
    0x27b70a85, 0x2e1b2138, 0x4d2c6dfc, 0x53380d13, 0x650a7354, 0x766a0abb, 0x81c2c92e, 0x92722c85,
    0xa2bfe8a1, 0xa81a664b, 0xc24b8b70, 0xc76c51a3, 0xd192e819, 0xd6990624, 0xf40e3585, 0x106aa070,
    0x19a4c116, 0x1e376c08, 0x2748774c, 0x34b0bcb5, 0x391c0cb3, 0x4ed8aa4a, 0x5b9cca4f, 0x682e6ff3,
    0x748f82ee, 0x78a5636f, 0x84c87814, 0x8cc70208, 0x90befffa, 0xa4506ceb, 0xbef9a3f7, 0xc67178f2]

  datatype Hash = Hash(a: Word, b: Word, c: Word, d: Word, e: Word, f: Word, g: Word, h: Word)

  /** The initial value of section 5.3.3. */
  const INITIAL := Hash(0x6a09e667, 0xbb67ae85, 0x3c6ef372, 0xa54ff53a, 0x510e527f, 0x9b05688c, 0x1f83d9ab, 0x5be0cd19)

  // ----- the computation of section 6.2.2 -----

  type Block = b: seq<Word> | |b| == 16 witness seq(16, i => 0)

  function Scheduled(w2: Word, w7: Word, w15: Word, w16: Word): Word {
    Add(Add(SmallSigma1(w2), w7), Add(SmallSigma0(w15), w16))
  }

  /** The message schedule. */
  function W(block: Block, t: nat): Word {
    if t < 16 then block[t] else Scheduled(W(block, t - 2), W(block, t - 7), W(block, t - 15), W(block, t - 16))
  }

  function T1(s: Hash, k: Word, w: Word): Word {
    Add(Add(Add(Add(s.h, BigSigma1(s.e)), Ch(s.e, s.f, s.g)), k), w)
  }

  function T2(s: Hash): Word {
    Add(BigSigma0(s.a), Maj(s.a, s.b, s.c))
  }

  function Round(s: Hash, k: Word, w: Word): Hash {
    Hash(Add(T1(s, k, w), T2(s)), s.a, s.b, s.c, Add(s.d, T1(s, k, w)), s.e, s.f, s.g)
  }

  /** The state after t rounds with the given constants. */
  function Rounds(s: Hash, k: seq<Word>, block: Block, t: nat): Hash
    requires t <= 64 && |k| == 64
  {
    if t == 0 then s else Round(Rounds(s, k, block, t - 1), k[t - 1], W(block, t - 1))
  }

  function Added(r: Hash, s: Hash): Hash {
    Hash(Add(r.a, s.a), Add(r.b, s.b), Add(r.c, s.c), Add(r.d, s.d), Add(r.e, s.e), Add(r.f, s.f), Add(r.g, s.g), Add(r.h, s.h))
  }

  function Compress(s: Hash, k: seq<Word>, block: Block): Hash
    requires |k| == 64
  {
    Added(Rounds(s, k, block, 64), s)
  }

  function BigEndian(bytes: seq<Byte>): Word
    requires |bytes| == 4
  {
    var b0: nat, b1: nat, b2: nat, b3: nat := bytes[0], bytes[1], bytes[2], bytes[3];
    b0 * 0x100_0000 + b1 * 0x1_0000 + b2 * 0x100 + b3
  }

  function WordAt(message: seq<Byte>, at: nat): Word
    requires at + 4 <= |message|
  {
    BigEndian(message[at..at + 4])
  }

  /** The n-th block of a padded message. */
  function BlockAt(message: seq<Byte>, n: nat): Block
    requires 64 * n + 64 <= |message|
  {
    seq(16, t requires 0 <= t < 16 => WordAt(message, 64 * n + 4 * t))
  }

  /** The hash value after the first n blocks. */
  function HashOf(message: seq<Byte>, k: seq<Word>, n: nat): Hash
    requires 64 * n <= |message| && |k| == 64
  {
    if n == 0 then INITIAL else Compress(HashOf(message, k, n - 1), k, BlockAt(message, n - 1))
  }

  // ----- the padding of section 5.1.1 -----

  function Bytes(n: nat, count: nat): (r: seq<Byte>)
    ensures |r| == count
  {
    if count == 0 then [] else Bytes(n / 256, count - 1) + [n % 256]
  }

  function Value(bytes: seq<Byte>): nat {
    if bytes == [] then 0 else 256 * Value(bytes[..|bytes| - 1]) + bytes[|bytes| - 1]
  }

  /** The number of zero bytes after the 0x80 byte: the least that completes a block together with the eight length bytes. */
  function Zeros(length: nat): (z: nat)
    ensures z < 64 && (length + 9 + z) % 64 == 0
  {
    var over := (length + 9) % 64;
    if over == 0 then 0 else 64 - over
  }

  function Pad(message: seq<Byte>): seq<Byte> {
    message + [0x80] + seq(Zeros(|message|), _ => 0) + Bytes(8 * |message|, 8)
  }

  /** What a padded message was padded from: as many bytes as its last eight bytes say. */
  function Unpad(padded: seq<Byte>): seq<Byte>
    requires |padded| >= 8
  {
    var length := Value(padded[|padded| - 8..]) / 8;
    if length <= |padded| then padded[..length] else padded
  }

  function Power256(n: nat): (p: nat)
    ensures p > 0
  {
    if n == 0 then 1 else 256 * Power256(n - 1)
  }

  lemma {:induction false} BytesValue(n: nat, count: nat)
    requires n < Power256(count)
    ensures Value(Bytes(n, count)) == n
  {
    if count > 0 {
      BytesValue(n / 256, count - 1);
      assert Bytes(n, count)[..count - 1] == Bytes(n / 256, count - 1);
    }
  }

  lemma {:induction false} NoMultipleBetween(n: nat, total: nat)
    requires n % 64 == 0 && total % 64 == 0 && n + 64 > total
    ensures n >= total
  {
  }

  /** Padding fills whole blocks, adds at least nine bytes and fewer than a block more: no shorter padding would do. */
  lemma {:induction false} PaddingIsShortest(message: seq<Byte>)
    ensures |Pad(message)| % 64 == 0 && |message| + 9 <= |Pad(message)| < |message| + 9 + 64
    ensures forall n: nat :: n % 64 == 0 && n >= |message| + 9 ==> n >= |Pad(message)|
  {
    var total := |message| + 9 + Zeros(|message|);
    assert |Pad(message)| == total;
    forall n: nat | n % 64 == 0 && n >= |message| + 9 ensures n >= total { NoMultipleBetween(n, total); }
  }

  /** Padding is undone by reading the length at its end. */
  lemma {:induction false} PaddingInverts(message: seq<Byte>)
    requires 8 * |message| < Power256(8)
    ensures |Pad(message)| >= 8 && Unpad(Pad(message)) == message
  {
    var padded := Pad(message);
    BytesValue(8 * |message|, 8);
    assert padded[|padded| - 8..] == Bytes(8 * |message|, 8);
    assert padded[..|message|] == message;
  }

  /** Two messages with the same padding are the same message. */
  lemma {:induction false} PaddingInjective(m: seq<Byte>, n: seq<Byte>)
    requires 8 * |m| < Power256(8) && 8 * |n| < Power256(8) && Pad(m) == Pad(n)
    ensures m == n
  {
    PaddingInverts(m);
    PaddingInverts(n);
  }

  // ----- JavaScript numbers -----

  function ToUint32(x: int): Word { x % TWO_32 }

  function ToInt32(x: int): int {
    if ToUint32(x) >= TWO_31 then ToUint32(x) - TWO_32 else ToUint32(x)
  }

  function JsAnd(x: int, y: int): int { ToInt32(And(ToUint32(x), ToUint32(y))) }

  function JsOr(x: int, y: int): int { ToInt32(Or(ToUint32(x), ToUint32(y))) }

  function JsXor(x: int, y: int): int { ToInt32(Xor(ToUint32(x), ToUint32(y))) }

  function JsNot(x: int): int { ToInt32(Not(ToUint32(x))) }

  /** `x >>> n` */
  function JsShiftRightUnsigned(x: int, n: nat): int
    requires n < 32
  {
    Shr(ToUint32(x), n)
  }

  function Halve(x: int, n: nat): int
    decreases n, x
  {
    if n == 0 then x else Halve(x / 2, n - 1)
  }

  /** `x >> n`, which keeps the sign. */
  function JsShiftRight(x: int, n: nat): int
    requires n < 32
  {
    Halve(ToInt32(x), n)
  }

  /** `x << n` */
  function JsShiftLeft(x: int, n: nat): int
    requires n < 32
  {
    ToInt32(Shl(ToUint32(x), n))
  }

  /** `rotr` as the source writes it. */
  function JsRotr(x: int, n: nat): int
    requires 0 < n < 32
  {
    JsOr(JsShiftRightUnsigned(x, n), JsShiftLeft(x, 32 - n))
  }

  lemma {:induction false} WordStays(x: Word)
    ensures ToUint32(x) == x && ToUint32(ToInt32(x)) == x
  {
  }

  lemma {:induction false} RotrIs(x: Word, n: nat)
    requires 0 < n < 32
    ensures ToUint32(JsRotr(x, n)) == Rotr(n, x)
  {
    WordStays(x);
    WordStays(Shr(x, n));
    WordStays(Shl(x, 32 - n));
    WordStays(Or(Shr(x, n), Shl(x, 32 - n)));
  }

  lemma {:induction false} XorIs(x: int, y: int)
    ensures ToUint32(JsXor(x, y)) == Xor(ToUint32(x), ToUint32(y))
  {
    WordStays(Xor(ToUint32(x), ToUint32(y)));
  }

  lemma {:induction false} AndIs(x: int, y: int)
    ensures ToUint32(JsAnd(x, y)) == And(ToUint32(x), ToUint32(y))
  {
    WordStays(And(ToUint32(x), ToUint32(y)));
  }

  lemma {:induction false} NotIs(x: Word)
    ensures ToUint32(JsNot(x)) == Not(x)
  {
    WordStays(Not(x));
  }

  function JsSmallSigma0(x: int): int { JsXor(JsXor(JsRotr(x, 7), JsRotr(x, 18)), JsShiftRightUnsigned(x, 3)) }

  function JsSmallSigma1(x: int): int { JsXor(JsXor(JsRotr(x, 17), JsRotr(x, 19)), JsShiftRightUnsigned(x, 10)) }

  function JsBigSigma0(x: int): int { JsXor(JsXor(JsRotr(x, 2), JsRotr(x, 13)), JsRotr(x, 22)) }

  function JsBigSigma1(x: int): int { JsXor(JsXor(JsRotr(x, 6), JsRotr(x, 11)), JsRotr(x, 25)) }

  function JsCh(e: int, f: int, g: int): int { JsXor(JsAnd(e, f), JsAnd(JsNot(e), g)) }

  function JsMaj(a: int, b: int, c: int): int { JsXor(JsXor(JsAnd(a, b), JsAnd(a, c)), JsAnd(b, c)) }

  lemma {:induction false} RotrsIs(x: Word, l: nat, m: nat, n: nat)
    requires 0 < l < 32 && 0 < m < 32 && 0 < n < 32
    ensures ToUint32(JsXor(JsXor(JsRotr(x, l), JsRotr(x, m)), JsRotr(x, n))) == Xor(Xor(Rotr(l, x), Rotr(m, x)), Rotr(n, x))
    ensures ToUint32(JsXor(JsXor(JsRotr(x, l), JsRotr(x, m)), JsShiftRightUnsigned(x, n))) == Xor(Xor(Rotr(l, x), Rotr(m, x)), Shr(x, n))
  {
    RotrIs(x, l);
    RotrIs(x, m);
    RotrIs(x, n);
    WordStays(x);
    WordStays(Shr(x, n));
    XorIs(JsRotr(x, l), JsRotr(x, m));
    XorIs(JsXor(JsRotr(x, l), JsRotr(x, m)), JsRotr(x, n));
    XorIs(JsXor(JsRotr(x, l), JsRotr(x, m)), JsShiftRightUnsigned(x, n));
  }

  lemma {:induction false} ChIs(e: Word, f: Word, g: Word)
    ensures ToUint32(JsCh(e, f, g)) == Ch(e, f, g)
  {
    WordStays(e);
    WordStays(f);
    WordStays(g);
    NotIs(e);
    AndIs(e, f);
    AndIs(JsNot(e), g);
    XorIs(JsAnd(e, f), JsAnd(JsNot(e), g));
  }

  lemma {:induction false} MajIs(a: Word, b: Word, c: Word)
    ensures ToUint32(JsMaj(a, b, c)) == Maj(a, b, c)
  {
    WordStays(a);
    WordStays(b);
    WordStays(c);
    AndIs(a, b);
    AndIs(a, c);
    AndIs(b, c);
    XorIs(JsAnd(a, b), JsAnd(a, c));
    XorIs(JsXor(JsAnd(a, b), JsAnd(a, c)), JsAnd(b, c));
  }

  /** An exact sum reduced at the end is the sum of the reduced terms modulo 2^32. */
  lemma {:induction false} SumWraps(x: int, y: int)
    ensures ToUint32(x + y) == Add(ToUint32(x), ToUint32(y))
  {
  }

  // ----- the loops -----

  lemma {:induction false} AddOn(x: int, y: Word)
    ensures ToUint32(x + y) == Add(ToUint32(x), y)
  {
    SumWraps(x, y);
    WordStays(y);
  }

  lemma {:induction false} SumOfFour(a: Word, b: int, c: Word, d: int)
    ensures ToUint32(a + b + c + d) == Add(Add(ToUint32(d), c), Add(ToUint32(b), a))
  {
    AddOn(d, c);
    AddOn(b, a);
    SumWraps(d + c, b + a);
    assert a + b + c + d == (d + c) + (b + a);
  }

  lemma {:induction false} SumOfFive(a: Word, b: int, c: int, d: Word, e: Word)
    ensures ToUint32(a + b + c + d + e) == Add(Add(Add(Add(a, ToUint32(b)), ToUint32(c)), d), e)
  {
    WordStays(a);
    SumWraps(a, b);
    SumWraps(a + b, c);
    AddOn(a + b + c, d);
    AddOn(a + b + c + d, e);
  }

  /** The largest magnitude up to which JavaScript's numbers represent every integer: 2^53. */
  const MAX_EXACT := 0x20_0000_0000_0000

  predicate Exact(x: int) {
    -MAX_EXACT <= x <= MAX_EXACT
  }

  /** No sum of the algorithm is ever rounded: every word of the schedule, every temporary and every addition stays exact. */
  lemma {:induction false} SumsAreExact(w2: Word, w7: Word, w15: Word, w16: Word, s: Hash, k: Word, w: Word, t1: Word, t2: Word)
    ensures Exact(w16 + JsSmallSigma0(w15)) && Exact(w16 + JsSmallSigma0(w15) + w7) && Exact(w16 + JsSmallSigma0(w15) + w7 + JsSmallSigma1(w2))
    ensures Exact(s.h + JsBigSigma1(s.e)) && Exact(s.h + JsBigSigma1(s.e) + JsCh(s.e, s.f, s.g))
    ensures Exact(s.h + JsBigSigma1(s.e) + JsCh(s.e, s.f, s.g) + k) && Exact(s.h + JsBigSigma1(s.e) + JsCh(s.e, s.f, s.g) + k + w)
    ensures Exact(JsBigSigma0(s.a) + JsMaj(s.a, s.b, s.c)) && Exact(t1 as int + t2 as int)
  {
    SmallSigmaBounds(w15);
    SmallSigmaBounds(w2);
    BigSigmaBounds(s.e);
    BigSigmaBounds(s.a);
    ChoiceBounds(s.e, s.f, s.g);
    ChoiceBounds(s.a, s.b, s.c);
  }

  predicate Signed32(x: int) {
    -(TWO_31 as int) <= x < TWO_31
  }

  lemma {:induction false} SmallSigmaBounds(x: Word)
    ensures Signed32(JsSmallSigma0(x)) && Signed32(JsSmallSigma1(x))
  {
  }

  lemma {:induction false} BigSigmaBounds(x: Word)
    ensures Signed32(JsBigSigma0(x)) && Signed32(JsBigSigma1(x))
  {
  }

  lemma {:induction false} ChoiceBounds(x: Word, y: Word, z: Word)
    ensures Signed32(JsCh(x, y, z)) && Signed32(JsMaj(x, y, z))
  {
  }

  /** The next word of the schedule in JavaScript arithmetic. */
  method NextWord(w2: Word, w7: Word, w15: Word, w16: Word) returns (r: Word)
    ensures r == Scheduled(w2, w7, w15, w16)
  {
    var s0 := JsSmallSigma0(w15);
    var s1 := JsSmallSigma1(w2);
    RotrsIs(w15, 7, 18, 3);
    RotrsIs(w2, 17, 19, 10);
    SumOfFour(w16, s0, w7, s1);
    r := ToUint32(w16 + s0 + w7 + s1);
  }

  /** The words of the n-th block of the message, by `getUint32`. */
  method ReadBlock(message: array<Byte>, n: nat, w: array<Word>)
    requires 64 * n + 64 <= message.Length && w.Length == 64
    modifies w
    ensures forall t :: 0 <= t < 16 ==> w[t] == BlockAt(message[..], n)[t]
  {
    for t := 0 to 16
      invariant forall u :: 0 <= u < t ==> w[u] == BlockAt(message[..], n)[u]
    {
      w[t] := BigEndian(message[64 * n + 4 * t..64 * n + 4 * t + 4]);
      assert message[..][64 * n + 4 * t..64 * n + 4 * t + 4] == message[64 * n + 4 * t..64 * n + 4 * t + 4];
    }
  }

  /** The rest of the message schedule. */
  method ExtendSchedule(ghost block: Block, w: array<Word>)
    requires w.Length == 64 && forall t :: 0 <= t < 16 ==> w[t] == block[t]
    modifies w
    ensures forall t :: 0 <= t < 64 ==> w[t] == W(block, t)
  {
    for t := 16 to 64
      invariant forall u :: 0 <= u < t ==> w[u] == W(block, u)
    {
      var next := NextWord(w[t - 2], w[t - 7], w[t - 15], w[t - 16]);
      w[t] := next;
    }
  }

  lemma {:induction false} T1Is(s: Hash, k: Word, w: Word)
    ensures ToUint32(s.h + JsBigSigma1(s.e) + JsCh(s.e, s.f, s.g) + k + w) == T1(s, k, w)
  {
    RotrsIs(s.e, 6, 11, 25);
    ChIs(s.e, s.f, s.g);
    SumOfFive(s.h, JsBigSigma1(s.e), JsCh(s.e, s.f, s.g), k, w);
  }

  lemma {:induction false} T2Is(s: Hash)
    ensures ToUint32(JsBigSigma0(s.a) + JsMaj(s.a, s.b, s.c)) == T2(s)
  {
    RotrsIs(s.a, 2, 13, 22);
    MajIs(s.a, s.b, s.c);
    SumWraps(JsBigSigma0(s.a), JsMaj(s.a, s.b, s.c));
  }

  /** `temp1` of one round. */
  method Temp1(s: Hash, k: Word, w: Word) returns (r: Word)
    ensures r == T1(s, k, w)
  {
    T1Is(s, k, w);
    r := ToUint32(s.h + JsBigSigma1(s.e) + JsCh(s.e, s.f, s.g) + k + w);
  }

  /** `temp2` of one round. */
  method Temp2(s: Hash) returns (r: Word)
    ensures r == T2(s)
  {
    T2Is(s);
    r := ToUint32(JsBigSigma0(s.a) + JsMaj(s.a, s.b, s.c));
  }

  lemma {:induction false} RoundIs(s: Hash, k: Word, w: Word)
    ensures Round(s, k, w) == Hash(Add(T1(s, k, w), T2(s)), s.a, s.b, s.c, Add(s.d, T1(s, k, w)), s.e, s.f, s.g)
  {
  }

  /** The exact sum of two words, reduced. */
  method SumOf(x: Word, y: Word) returns (r: Word)
    ensures r == Add(x, y)
  {
    var sum: int := x as int + y as int;
    r := ToUint32(sum);
  }

  /** One round in JavaScript arithmetic. */
  method RunRound(s: Hash, k: Word, w: Word) returns (r: Hash)
    ensures r == Round(s, k, w)
  {
    var temp1 := Temp1(s, k, w);
    var temp2 := Temp2(s);
    RoundIs(s, k, w);
    var a := SumOf(temp1, temp2);
    var e := SumOf(s.d, temp1);
    r := Hash(a, s.a, s.b, s.c, e, s.e, s.f, s.g);
  }

  /** The 64 rounds over one block. */
  method RunRounds(s: Hash, k: seq<Word>, ghost block: Block, w: array<Word>) returns (r: Hash)
    requires |k| == 64 && w.Length == 64 && forall t :: 0 <= t < 64 ==> w[t] == W(block, t)
    ensures r == Rounds(s, k, block, 64)
  {
    r := s;
    for t := 0 to 64
      invariant r == Rounds(s, k, block, t)
    {
      r := RunRound(r, k[t], w[t]);
    }
  }

  // ----- the padded message -----

  /** `view.setUint32(at, v, false)` */
  method SetUint32(message: array<Byte>, at: nat, v: nat)
    requires at + 4 <= message.Length
    modifies message
    ensures message[..] == old(message[..at]) + Bytes(ToUint32(v), 4) + old(message[at + 4..])
  {
    var bytes := Bytes(ToUint32(v), 4);
    for k := 0 to 4
      invariant forall j :: 0 <= j < message.Length ==> message[j] == if at <= j < at + k then bytes[j - at] else old(message[j])
    {
      message[at + k] := bytes[k];
    }
  }

  /** The quotients of n by powers of 256, in terms of its upper and lower half. */
  lemma {:induction false} Quotients(n: nat)
    ensures var q, m := n / TWO_32, n % TWO_32;
            && n / 256 == 0x100_0000 * q + m / 256 && n / 256 / 256 == 0x1_0000 * q + m / 256 / 256
            && n / 256 / 256 / 256 == 0x100 * q + m / 256 / 256 / 256 && n / 256 / 256 / 256 / 256 == q
  {
  }

  lemma {:induction false} LastBytes(n: nat, count: nat)
    ensures Bytes(n, count + 4) ==
            Bytes(n / 256 / 256 / 256 / 256, count) + [n / 256 / 256 / 256 % 256, n / 256 / 256 % 256, n / 256 % 256, n % 256]
  {
    assert Bytes(n, count + 4) == Bytes(n / 256, count + 3) + [n % 256];
    assert Bytes(n / 256, count + 3) == Bytes(n / 256 / 256, count + 2) + [n / 256 % 256];
    assert Bytes(n / 256 / 256, count + 2) == Bytes(n / 256 / 256 / 256, count + 1) + [n / 256 / 256 % 256];
    assert Bytes(n / 256 / 256 / 256, count + 1) == Bytes(n / 256 / 256 / 256 / 256, count) + [n / 256 / 256 / 256 % 256];
  }

  lemma {:induction false} LengthBytes(n: nat)
    ensures Bytes(n, 8) == Bytes(n / TWO_32, 4) + Bytes(n % TWO_32, 4)
  {
    Quotients(n);
    LastBytes(n, 4);
    LastBytes(n % TWO_32, 0);
  }

  /** `((n + 9 + 63) >> 6) << 6` on 32-bit integers. */
  function PaddedLength(n: nat): int {
    JsShiftLeft(JsShiftRight(n + 9 + 63, 6), 6)
  }

  lemma {:induction false} HalveSix(x: int)
    ensures Halve(x, 6) == x / 64
  {
    assert Halve(x, 6) == Halve(x / 2, 5) == Halve(x / 2 / 2, 4) == Halve(x / 2 / 2 / 2, 3);
    assert Halve(x / 2 / 2 / 2, 3) == Halve(x / 2 / 2 / 2 / 2, 2) == Halve(x / 2 / 2 / 2 / 2 / 2, 1) == x / 2 / 2 / 2 / 2 / 2 / 2;
  }

  lemma {:induction false} TimesMod(k: nat, y: int)
    requires k in {2, 64}
    ensures k * (y % TWO_32) % TWO_32 == k * y % TWO_32
  {
    var q := y / TWO_32;
    assert y == q * TWO_32 + y % TWO_32;
    if k == 2 { assert 2 * y == 2 * q * TWO_32 + 2 * (y % TWO_32); } else { assert 64 * y == 64 * q * TWO_32 + 64 * (y % TWO_32); }
  }

  lemma {:induction false} ShlOne(y: nat, n: nat)
    requires n > 0
    ensures Shl(y % TWO_32, n) == Shl(2 * y % TWO_32, n - 1)
  {
    TimesMod(2, y);
  }

  lemma {:induction false} ShlSix(x: Word)
    ensures Shl(x, 6) == 64 * x % TWO_32
  {
    WordStays(x);
    ShlOne(x, 6);
    ShlOne(2 * x, 5);
    ShlOne(4 * x, 4);
    ShlThree(8 * x);
  }

  lemma {:induction false} ShlThree(y: nat)
    ensures Shl(y % TWO_32, 3) == 8 * y % TWO_32
  {
    ShlOne(y, 3);
    ShlOne(2 * y, 2);
    ShlOne(4 * y, 1);
  }

  lemma {:induction false} SignedStays(z: int)
    requires -TWO_31 <= z < TWO_31
    ensures ToInt32(z) == z && ToInt32(z % TWO_32) == z
  {
  }

  lemma {:induction false} ShiftLeftSix(v: int)
    requires -TWO_31 <= 64 * v < TWO_31
    ensures JsShiftLeft(v, 6) == 64 * v
  {
    ShlSix(ToUint32(v));
    TimesMod(64, v);
    SignedStays(64 * v);
  }

  lemma {:induction false} InSignedRange(x: int)
    ensures -TWO_31 <= 64 * (ToInt32(x) / 64) < TWO_31
  {
  }

  lemma {:induction false} RoundedDown(n: nat)
    ensures PaddedLength(n) == 64 * (ToInt32(n + 72) / 64)
  {
    HalveSix(ToInt32(n + 72));
    InSignedRange(n + 72);
    ShiftLeftSix(ToInt32(n + 72) / 64);
  }

  lemma {:induction false} RoundedToBlocks(n: nat)
    ensures 64 * ((n + 72) / 64) == n + 9 + Zeros(n)
  {
  }

  lemma {:induction false} WrappedBelow(n: nat)
    requires n + 72 >= TWO_31
    ensures 64 * (ToInt32(n + 72) / 64) < 0 || 64 * (ToInt32(n + 72) / 64) < n
  {
    var x := ToInt32(n + 72);
    assert 64 * (x / 64) <= x;
    if x >= 0 { assert x <= n + 72 - TWO_32; }
  }

  /** The padded length is right while it fits a signed 32-bit integer, and otherwise negative or too short for the message. */
  lemma {:induction false} PaddedLengthIs(n: nat)
    ensures n + 72 < TWO_31 ==> PaddedLength(n) == n + 9 + Zeros(n)
    ensures n + 72 >= TWO_31 ==> PaddedLength(n) < 0 || PaddedLength(n) < n
  {
    RoundedDown(n);
    if n + 72 < TWO_31 {
      SignedStays(n + 72);
      RoundedToBlocks(n);
    } else {
      WrappedBelow(n);
    }
  }

  /** `new Uint8Array(length)`, then `set(bytes)`. */
  method CopyInto(bytes: seq<Byte>, length: nat) returns (message: array<Byte>)
    requires |bytes| <= length
    ensures fresh(message) && message[..] == bytes + seq(length - |bytes|, _ => 0)
  {
    message := new Byte[length](_ => 0);
    for k := 0 to |bytes|
      invariant forall j :: 0 <= j < length ==> message[j] == if j < k then bytes[j] else 0
    {
      message[k] := bytes[k];
    }
  }

  /** The tail of a message overwritten by two words is overwritten by eight bytes. */
  lemma {:induction false} TailOverwritten(before: seq<Byte>, once: seq<Byte>, twice: seq<Byte>, high: seq<Byte>, low: seq<Byte>)
    requires |before| >= 8 && |high| == 4 && |low| == 4
    requires once == before[..|before| - 8] + high + before[|before| - 4..]
    requires twice == once[..|before| - 4] + low + once[|before|..]
    ensures twice == before[..|before| - 8] + (high + low)
  {
    assert once[..|before| - 4] == before[..|before| - 8] + high;
  }

  /** A copied message whose next byte is set to 0x80, without its last eight zero bytes. */
  lemma {:induction false} Marked(bytes: seq<Byte>, before: seq<Byte>)
    requires |before| == |bytes| + 9 + Zeros(|bytes|)
    requires before == (bytes + seq(|before| - |bytes|, _ => 0))[|bytes| := 0x80]
    ensures before[..|before| - 8] == bytes + [0x80] + seq(Zeros(|bytes|), _ => 0)
  {
  }

  /** Writes two words over the last eight bytes. */
  method WriteTail(message: array<Byte>, high: nat, low: nat)
    requires message.Length >= 8
    modifies message
    ensures message[..] == old(message[..message.Length - 8]) + (Bytes(ToUint32(high), 4) + Bytes(ToUint32(low), 4))
  {
    ghost var before := message[..];
    SetUint32(message, message.Length - 8, high);
    ghost var once := message[..];
    SetUint32(message, message.Length - 4, low);
    TailOverwritten(before, once, message[..], Bytes(ToUint32(high), 4), Bytes(ToUint32(low), 4));
  }

  lemma {:induction false} LengthWords(bits: nat)
    requires bits / TWO_32 < TWO_32
    ensures Bytes(ToUint32(bits / TWO_32), 4) + Bytes(ToUint32(ToUint32(bits)), 4) == Bytes(bits, 8)
  {
    WordStays(ToUint32(bits));
    WordStays(bits / TWO_32);
    LengthBytes(bits);
  }

  /** The message, the byte 0x80, zeros and two words, in a buffer of the padded length. */
  method FillPadded(bytes: seq<Byte>, paddedLength: nat, high: nat, low: nat) returns (message: array<Byte>)
    requires paddedLength == |bytes| + 9 + Zeros(|bytes|)
    ensures fresh(message)
    ensures message[..] == bytes + [0x80] + seq(Zeros(|bytes|), _ => 0) + (Bytes(ToUint32(high), 4) + Bytes(ToUint32(low), 4))
  {
    message := CopyInto(bytes, paddedLength);
    message[|bytes|] := 0x80;
    Marked(bytes, message[..]);
    WriteTail(message, high, low);
  }

  /** The padded message, or null where `new Uint8Array` or `set` throws. */
  method PadMessage(bytes: seq<Byte>) returns (message: array?<Byte>)
    ensures message == null <==> |bytes| + 72 >= TWO_31
    ensures message != null ==> fresh(message) && message[..] == Pad(bytes)
  {
    var n := |bytes|;
    var bitLength := n * 8;
    var paddedLength := PaddedLength(n);
    PaddedLengthIs(n);
    if paddedLength < 0 || paddedLength < n { return null; }
    LengthWords(bitLength);
    message := FillPadded(bytes, paddedLength, bitLength / TWO_32, ToUint32(bitLength));
  }

  // ----- the digest -----

  function HexDigit(d: nat): char
    requires d < 16
  {
    "0123456789abcdef"[d]
  }

  /** `toString(16)` */
  function ToHex(x: nat): string {
    if x < 16 then [HexDigit(x)] else ToHex(x / 16) + [HexDigit(x % 16)]
  }

  /** `padStart(8, "0")` */
  function PadStart(s: string): string {
    if |s| >= 8 then s else seq(8 - |s|, _ => '0') + s
  }

  /** The last n hexadecimal digits of a number. */
  function HexDigits(x: nat, n: nat): (s: string)
    ensures |s| == n
  {
    if n == 0 then [] else HexDigits(x / 16, n - 1) + [HexDigit(x % 16)]
  }

  function Power16(n: nat): nat {
    if n == 0 then 1 else 16 * Power16(n - 1)
  }

  lemma {:induction false} ZeroDigits(n: nat)
    ensures HexDigits(0, n) == seq(n, _ => '0')
  {
    if n > 0 { ZeroDigits(n - 1); }
  }

  /** A number printed in hexadecimal and padded on the left shows its digits. */
  lemma {:induction false} HexPads(x: nat, n: nat)
    requires x < Power16(n) && n > 0
    ensures |ToHex(x)| <= n && HexDigits(x, n) == seq(n - |ToHex(x)|, _ => '0') + ToHex(x)
  {
    if x < 16 {
      ZeroDigits(n - 1);
    } else {
      assert n > 1 && x / 16 < Power16(n - 1);
      HexPads(x / 16, n - 1);
    }
  }

  function WordsOf(s: Hash): seq<Word> {
    [s.a, s.b, s.c, s.d, s.e, s.f, s.g, s.h]
  }

  function HexOf(words: seq<Word>): string {
    if words == [] then "" else HexOf(words[..|words| - 1]) + HexDigits(words[|words| - 1], 8)
  }

  /** The digest of FIPS 180-4 for a message of bytes: the hash value of the padded message, most significant digit first. */
  function Digest(bytes: seq<Byte>): string {
    PaddingIsShortest(bytes);
    "sha256:" + HexOf(WordsOf(HashOf(Pad(bytes), K, |Pad(bytes)| / 64)))
  }

  /** Adds the result of the rounds to the hash value, word by word. */
  method AddTo(h: Hash, r: Hash) returns (sum: Hash)
    ensures sum == Added(r, h)
  {
    sum := Hash(ToUint32(h.a as int + r.a as int), ToUint32(h.b as int + r.b as int), ToUint32(h.c as int + r.c as int), ToUint32(h.d as int + r.d as int),
                ToUint32(h.e as int + r.e as int), ToUint32(h.f as int + r.f as int), ToUint32(h.g as int + r.g as int), ToUint32(h.h as int + r.h as int));
  }

  /** One pass of the outer loop: the schedule, the rounds and the additions for the n-th block. */
  method HashBlock(message: array<Byte>, k: seq<Word>, n: nat, w: array<Word>, h: Hash) returns (next: Hash)
    requires 64 * n + 64 <= message.Length && w.Length == 64 && |k| == 64
    modifies w
    ensures next == Compress(h, k, BlockAt(message[..], n))
  {
    ReadBlock(message, n, w);
    ExtendSchedule(BlockAt(message[..], n), w);
    var r := RunRounds(h, k, BlockAt(message[..], n), w);
    next := AddTo(h, r);
  }

  lemma {:induction false} HashStep(bytes: seq<Byte>, k: seq<Word>, n: nat)
    requires 64 * n + 64 <= |bytes| && |k| == 64
    ensures HashOf(bytes, k, n + 1) == Compress(HashOf(bytes, k, n), k, BlockAt(bytes, n))
  {
  }

  /** Hashes the whole blocks of a message with the round constants k. */
  method HashBlocks(message: array<Byte>, k: seq<Word>) returns (h: Hash)
    requires message.Length % 64 == 0 && |k| == 64
    ensures h == HashOf(message[..], k, message.Length / 64)
  {
    h := INITIAL;
    var w := new Word[64](_ => 0);
    ghost var bytes := message[..];
    for n := 0 to message.Length / 64
      invariant message[..] == bytes && h == HashOf(bytes, k, n)
    {
      HashStep(bytes, k, n);
      h := HashBlock(message, k, n, w, h);
    }
  }

  lemma {:induction false} WordPads(x: Word)
    ensures PadStart(ToHex(x)) == HexDigits(x, 8)
  {
    assert Power16(8) == 4_294_967_296;
    HexPads(x, 8);
  }

  lemma {:induction false} HexOfOne(words: seq<Word>, k: nat)
    requires k < |words|
    ensures HexOf(words[..k + 1]) == HexOf(words[..k]) + HexDigits(words[k], 8)
  {
    assert words[..k + 1][..k] == words[..k];
  }

  method Print(words: seq<Word>) returns (s: string)
    ensures s == HexOf(words)
  {
    s := "";
    for k := 0 to |words|
      invariant s == HexOf(words[..k])
    {
      HexOfOne(words, k);
      WordPads(words[k]);
      s := s + PadStart(ToHex(words[k]));
    }
    assert words[..|words|] == words;
  }

  /** `sha256` on the encoded bytes: the digest of the standard, or None where the source throws. */
  method Sha256OfBytes(bytes: seq<Byte>) returns (digest: Option<string>)
    ensures digest == if |bytes| + 72 >= TWO_31 then None else Some(Digest(bytes))
  {
    var message := PadMessage(bytes);
    if message == null { return None; }
    PaddingIsShortest(bytes);
    var h := HashBlocks(message, K);
    var hex := Print(WordsOf(h));
    return Some("sha256:" + hex);
  }
}
